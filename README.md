# Shopping-list calculator: a verified model

The program turns a week's meal plan into a shopping list. It loads departments, products,
recipes (each with its own ingredient file), an inventory and a plan from CSV files. It then
sums the ingredient quantities of every planned meal per product, and subtracts what the
inventory already holds.

This project models, in Dafny:

- **Quantities** (`quantity.dfy`, module `Quantity`): the six units, the token grammar
  `digits[/digits]code` and `RQuantity::new` as a loop over the matches of the anchored
  pattern, plus unit-oblivious `+` and `-` and `is_positive`. Magnitudes are exact rationals
  (Dafny `real`), so `2/4c` and `1/2c` are the same quantity.
- **The demand computation** (`shopping.dfy`, module `Shopping`): the entities, and
  `sum_ingredients` and `subtract_ingredients` as imperative methods. Each is proved against a
  specification: `Demand` for the sum, and a per-product equation for the difference.
- **The loaders' row resolution** (`csv.dfy`, module `Csv`): each loader gets its rows
  already decoded. It resolves each name and stops at the first row that fails, returning a
  `LoadError`.
- `results.dfy` (module `Results`) holds `Option` and `Result`.

Modelling decisions:

- **Failed parses.** Wherever the program panics on a bad quantity token, the model has an
  explicit failure: `Parse` and `New` return `None`, and `load_ingredients` returns
  `MalformedQuantity`.
- **Recipe files.** The ingredient files are a map from file name to decoded rows. A name
  missing from the map is the file that cannot be opened, and `load_recipes` wraps that error
  in "unable to resolve recipe".
- **Generic row resolution.** `load_ingredients`' per-row logic is stated over any name lookup
  and any token parser (`ResolveRows`). The program's own behaviour is the instance with the
  first product of that name and `Parse` (`ResolveIngredients`).
- **The quantity field.** `csv.rs` deserializes the quantity column into a wrapper (`Quantity`)
  and hands its string to `RQuantity::new`. That wrapper type is not part of this model: the
  model takes the token string directly.

## Model

| member | source | states |
|---|---|---|
| Quantity.UnitCode | src/quantity.rs:16-27 | the code each unit is displayed as: T, t, c, g, ct, lb |
| Quantity.UnitOfCode | src/quantity.rs:55-63 | a captured code names unit u exactly when u's display code is that code; any other code names no unit |
| Quantity.UnitCodeRoundTrip | src/quantity.rs:16-27 | reading back a unit's display code gives the same unit |
| Quantity.DigitRun | src/quantity.rs:39 | the greedy `\d+` run: every counted char is a digit and the next one is not |
| Quantity.Match | src/quantity.rs:39 | a match's groups are well formed (digit groups, a word-character unit) and spell back exactly the token |
| Quantity.MatchFraction | src/quantity.rs:39 | after `num/`, the denominator and unit groups are well formed and spell the rest of the token |
| Quantity.MatchWhole | src/quantity.rs:39 | with no `/`, the unit group is well formed and num + unit spell the token |
| Quantity.CapturesIter | src/quantity.rs:45 | the anchored pattern yields at most one match, and every match is well formed |
| Quantity.DecimalValue | src/quantity.rs:47-49 | the number a digit group denotes, as `parse()` reads it (unbounded) |
| Quantity.CapturedValue | src/quantity.rs:48-53 | the rational num/denom of a match, the denominator defaulting to 1; none for a zero denominator |
| Quantity.Parse | src/quantity.rs:36-70 | the quantity a token denotes: its match's value in the unit its code names, or none where the program panics |
| Quantity.New | src/quantity.rs:36-70 | the loop over the matches returns exactly the quantity `Parse` denotes, or none where the program panics |
| Quantity.MatchSpelled | src/quantity.rs:39 | a token spelled from well-formed groups whose unit starts with a non-digit is matched with exactly those groups |
| Quantity.ParseWhole | src/quantity.rs:46-63 | `<n><code>` parses to n in the unit of code |
| Quantity.ParseFraction | src/quantity.rs:46-63 | `<n>/<d><code>` parses to the rational n/d; a zero denominator fails, where Rational32::new panics |
| Quantity.ParseSucceedsIff | src/quantity.rs:36-70 | parsing succeeds exactly on the tokens of the grammar digits[/nonzero digits]code, in both directions |
| Quantity.ParseRejectsUnknownCode | src/quantity.rs:62 | a token matching the pattern but ending in a code other than the six fails (the unit expect of line 67) |
| Quantity.ParseRejectsNoLeadingDigit | src/quantity.rs:39 | an empty token, or one not starting with a digit (sign, blank), fails |
| Quantity.ParseEndsInCode | src/quantity.rs:39-63 | every token that parses is non-empty and its last character is not a digit |
| Quantity.ParseRejectsMissingUnit | src/quantity.rs:39-63 | digits or a fraction with no code fail: the unit group can take back only one digit, and no digit is a code |
| Quantity.Numeral | src/quantity.rs:79 | the decimal numeral of n is a non-empty string of digits whose value is n, with no leading zero unless n is zero |
| Quantity.Render | src/quantity.rs:77-81 | the text n[/d] followed by the unit code, for n and d as given |
| Quantity.RenderRoundTrip | src/quantity.rs:77-81 | the text written for n/d in a unit parses back to that value and unit |
| Quantity.Add | src/quantity.rs:86-92 | `a + b`: the magnitudes summed, in a's unit |
| Quantity.Sub | src/quantity.rs:98-103 | `a - b`: the magnitudes subtracted, in a's unit |
| Quantity.IsPositive | src/quantity.rs:72-74 | the magnitude is strictly greater than zero |
| Quantity.SubUndoesAdd | src/quantity.rs:83-104 | (a + b) - b == a, whatever b's unit |
| Quantity.AddUndoesSub | src/quantity.rs:83-104 | (a - b) + b == a |
| Quantity.LeftUnitCarried | src/quantity.rs:86-102 | + and - act on the magnitudes and keep the left unit; the right operand's unit is never consulted |
| Quantity.MixedUnitsFollowLeft | src/quantity.rs:87-91 | units are not checked, so 1c + 1g is 2c while 1g + 1c is 2g: + is not commutative |
| Quantity.SubPositiveIff | src/quantity.rs:72-74 | a - b is positive exactly when a's magnitude exceeds b's |
| Shopping.Merge | src/lib.rs:73-76 | an accumulator with a recipe's entries folded in: shared products summed (accumulator first), new ones inserted |
| Shopping.Demand | src/lib.rs:69-80 | the demand of a plan: every meal's recipe merged in, in plan order, from the empty map |
| Shopping.MergeStep | src/lib.rs:73-76 | folding one more recipe entry in adds to an existing entry (left unit first) or inserts the product's quantity |
| Shopping.SumIngredients | src/lib.rs:69-80 | the nested loops build exactly the demand map of the plan |
| Shopping.DemandOfEmptyPlan | src/lib.rs:69-80 | an empty plan demands nothing |
| Shopping.DemandKeys | src/lib.rs:69-80 | a product is demanded exactly when some planned meal's recipe uses it |
| Shopping.TotalAmountConcat | src/lib.rs:71-77 | the total magnitude of a product over two plans is the sum of the totals over each |
| Shopping.DemandValue | src/lib.rs:69-80 | a product's demanded magnitude is the sum of its magnitudes over all planned meals |
| Shopping.ZeroTotalAmount | src/lib.rs:69-80 | a product no meal uses contributes magnitude zero |
| Shopping.FirstUnitAppend | src/lib.rs:71-77 | the first unit of p in a plan with one meal appended is the earlier first unit, else the new meal's |
| Shopping.DemandUnit | src/lib.rs:73-76 | a demanded product's unit is its unit in the first planned meal that uses it, and such a meal exists exactly when the product is demanded |
| Shopping.FirstUnitIsAUse | src/lib.rs:71-77 | the first unit of a product is the unit some planned meal gives it |
| Shopping.MultisetRemove | src/lib.rs:71 | removing the k-th meal from a plan removes it from the plan's multiset |
| Shopping.TotalAmountRemove | src/lib.rs:71-77 | removing the k-th meal removes its magnitude from the total |
| Shopping.TotalAmountPermutation | src/lib.rs:71-77 | reordering the plan keeps every product's total magnitude |
| Shopping.UsedInPermutation | src/lib.rs:71 | every meal of a plan is also a meal of any reordering of it |
| Shopping.DemandPermutation | src/lib.rs:69-80 | reordering the plan keeps the demanded products and their magnitudes |
| Shopping.DemandOrderIndependent | src/lib.rs:69-80 | when each product comes in one unit throughout, reordering the plan gives the same demand map |
| Shopping.DemandUnitDependsOnOrder | src/lib.rs:73-76 | with mixed units, swapping two meals changes the demanded unit, so the demand map differs |
| Shopping.SubtractIngredients | src/lib.rs:82-96 | keys are the demand's; each entry is demand - inventory or the demand itself, in the demand's unit, positive exactly when the demand exceeds the holding |
| Csv.FirstIndex | src/csv.rs:86 | the position of the first element with the given key, and none exactly when no element has it |
| Csv.Find | src/csv.rs:86 | `iter().find`: none exactly when no element has the key, otherwise the element at the first position holding the key |
| Csv.LoadDepartments | src/csv.rs:33-40 | the departments are the decoded rows, unchanged and in order |
| Csv.LoadProducts | src/csv.rs:42-54 | succeeds exactly when every row's department is known, returning the rows; otherwise fails with the first bad row's department |
| Csv.ProductLookup | src/csv.rs:86 | the lookup load_ingredients uses: the first product with the name asked for |
| Csv.ProductLookupFaithful | src/csv.rs:86 | looking a name up among the products answers with a product of that name, taken from the products |
| Csv.AddIngredient | src/csv.rs:86-94 | one row of load_ingredients: resolve the name, refuse a product already present, parse the token, insert |
| Csv.ResolveRows | src/csv.rs:84-98 | the rows added one by one from the empty map, stopping at the first row that fails |
| Csv.ResolveIngredients | src/csv.rs:78-99 | load_ingredients' result: the rows resolved against the products, tokens read as RQuantity::new reads them |
| Csv.ResolveFailurePersists | src/csv.rs:84-96 | once a prefix of the rows fails, the whole load fails with that error |
| Csv.LoadIngredients | src/csv.rs:78-99 | the loop returns exactly `ResolveIngredients`: the map built row by row, or the first row's error |
| Csv.AddIngredientOk | src/csv.rs:86-94 | a row is accepted exactly when its name resolves to a product not yet in the map and its token parses; it adds that one entry |
| Csv.ResolveRowsStep | src/csv.rs:84-96 | a successful load extends the load of all rows but the last with one new entry for the last row |
| Csv.ResolveRowsSize | src/csv.rs:84-98 | a successful load has one entry per row |
| Csv.ResolveRowsKeys | src/csv.rs:84-98 | the keys of a successful load are exactly the products the rows resolve to |
| Csv.ResolveRowsValues | src/csv.rs:84-98 | each row's product holds that row's parsed quantity |
| Csv.ResolveRowsOk | src/csv.rs:84-98 | the load succeeds exactly when every row resolves and parses and no ingredient name repeats |
| Csv.ResolveIngredientsOk | src/csv.rs:78-99 | for the program's own lookup: success exactly under those row conditions, and every key is a loaded product |
| Csv.RecipeIngredients | src/csv.rs:64-66 | a recipe file's ingredients as load_ingredients resolves them, or the file that cannot be opened |
| Csv.LoadRecipes | src/csv.rs:56-76 | succeeds exactly when every recipe's file resolves, giving one recipe per row in order; otherwise fails with "unable to resolve recipe" wrapped around the first failure |
| Csv.LoadPlannedMeals | src/csv.rs:101-124 | succeeds exactly when every row names a recipe, giving each slot the first recipe of that name; otherwise fails with the first unknown name |

## Left out

- Display of a quantity's value: how `Rational32` prints (lowest terms, sign) is not modelled. `Render` takes the numerator and denominator as given.
- Quantity.New: does not model the `i32` width of the numerator and denominator. Digit strings too long for `i32` make `parse()` panic in the program, but the model parses them as unbounded naturals.
- Quantity.Add: does not model `Rational32` overflow. Magnitudes are unbounded rationals.
- Quantity.Sub: does not model `Rational32` overflow either. A difference is an unbounded rational.
- Shopping.SumIngredients: does not model the `Rational32` overflow of the repeated additions. The summed magnitudes are unbounded rationals.
- Quantity.Match: `\d` and `\w` are taken as ASCII. Unicode digits would match `\d` but then fail the `i32` parse anyway, and a non-ASCII unit word is no unit code.
- Panics become errors: a malformed token or a zero denominator aborts the program. The model returns `None` or `MalformedQuantity` instead.
- CSV reading and decoding (the csv and serde crates), the row decode errors ("unable to parse ..."), and opening the top-level files are I/O and are left out. Rows come in already decoded.
- Joining the recipes directory with a file name (`Path::join`) is not modelled. The file map is keyed by the name as written.
- Error messages: their text and the error-chain cause list are not modelled. Only `UnableToResolveRecipe` keeps its cause.
- Iteration order: `HashMap` iteration order is not modelled. The methods take products in an arbitrary order.
- `run` and `main` (printing the results) are left out, as is the report builder. Only the computations they call are modelled.
- Shopping.DemandPermutation: states order independence of the magnitudes only. Units depend on the order unless each product has one unit throughout: see `DemandOrderIndependent` and `DemandUnitDependsOnOrder`.
