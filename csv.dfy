/**
 * The row-resolution logic of the loaders (src/csv.rs). Each loader receives its rows already
 * decoded, in file order, resolves the names they contain against entities loaded before, and
 * stops at the first row it cannot resolve: a failed load returns an error and nothing else.
 */
module Csv {
  import opened Results
  import opened Quantity
  import opened Shopping

  /** Why a load stops: one alternative per bail!, plus the panics and failures the loaders pass on. */
  datatype LoadError =
    | UnrecognizedDepartment(department: Department)
    | UnrecognizedIngredient(ingredient: string)
    | DuplicateIngredient(product: Product)
    | MalformedQuantity(quantity: string)
    | CannotOpen(filename: string)
    | UnableToResolveRecipe(cause: LoadError)
    | UnrecognizedRecipe(recipe: string)

  /** A decoded row of a recipe's ingredient file, or of the inventory file. */
  datatype IngredientRow = IngredientRow(ingredient: string, quantity: string)

  /** A decoded row of the recipe index: a recipe's name and the file holding its ingredients. */
  datatype RecipeRow = RecipeRow(name: string, filename: string)

  /** A decoded row of the plan: a slot and the name of the recipe planned for it. */
  datatype PlanRow = PlanRow(day: Day, meal: Meal, recipe: string)

  function ProductName(p: Product): string {
    p.name
  }

  function RecipeName(r: Recipe): string {
    r.name
  }

  /** The position of the first element whose key is name: a linear scan, as iter().find does it. */
  function FirstIndex<T>(s: seq<T>, key: T -> string, name: string): (r: Option<nat>)
    ensures r.Some? ==> r.value < |s| && key(s[r.value]) == name
    ensures r.Some? ==> forall j :: 0 <= j < r.value ==> key(s[j]) != name
    ensures r.None? ==> forall j :: 0 <= j < |s| ==> key(s[j]) != name
  {
    if s == [] then None
    else if key(s[0]) == name then Some(0)
    else
      match FirstIndex(s[1..], key, name)
      case None => None
      case Some(i) => Some(i + 1)
  }

  /** The first element whose key is name, if there is one. */
  function Find<T>(s: seq<T>, key: T -> string, name: string): (r: Option<T>)
    ensures r.None? <==> forall j :: 0 <= j < |s| ==> key(s[j]) != name
    ensures r.Some? ==> exists i ::
              && 0 <= i < |s| && s[i] == r.value && key(s[i]) == name
              && forall j :: 0 <= j < i ==> key(s[j]) != name
  {
    match FirstIndex(s, key, name)
    case None => None
    case Some(i) => Some(s[i])
  }

  // ---------------------------------------------------------------------------
  // load_departments and load_products
  // ---------------------------------------------------------------------------

  /** load_departments: the decoded rows, unchanged and in order. */
  method LoadDepartments(rows: seq<Department>) returns (departments: seq<Department>)
    ensures departments == rows
  {
    departments := [];
    for i := 0 to |rows|
      invariant departments == rows[..i]
    {
      departments := departments + [rows[i]];
    }
    assert rows[..|rows|] == rows;
  }

  /**
   * load_products: every row's department must be one of the loaded departments; the first
   * row whose department is not stops the load.
   */
  method LoadProducts(departments: seq<Department>, rows: seq<Product>)
    returns (r: Result<seq<Product>, LoadError>)
    ensures r.Ok? <==> forall i :: 0 <= i < |rows| ==> rows[i].department in departments
    ensures r.Ok? ==> r.value == rows && forall p :: p in r.value ==> p.department in departments
    ensures r.Err? ==> exists i ::
              && 0 <= i < |rows| && rows[i].department !in departments
              && (forall j :: 0 <= j < i ==> rows[j].department in departments)
              && r.error == UnrecognizedDepartment(rows[i].department)
  {
    var products: seq<Product> := [];
    for i := 0 to |rows|
      invariant products == rows[..i]
      invariant forall j :: 0 <= j < i ==> rows[j].department in departments
    {
      var product := rows[i];
      if product.department in departments {
        products := products + [product];
      } else {
        return Err(UnrecognizedDepartment(product.department));
      }
    }
    assert rows[..|rows|] == rows;
    return Ok(products);
  }

  // ---------------------------------------------------------------------------
  // load_ingredients
  // ---------------------------------------------------------------------------

  /**
   * How load_ingredients resolves an ingredient's name: the first product with that name, as
   * products.iter().find does it.
   */
  function ProductLookup(products: seq<Product>): string -> Option<Product> {
    name => Find(products, ProductName, name)
  }

  /** A lookup that only ever answers with a product of the name it was asked for. */
  ghost predicate NameFaithful(lookup: string -> Option<Product>) {
    forall name :: lookup(name).Some? ==> lookup(name).value.name == name
  }

  /** The lookup load_ingredients uses answers with products, each of the name asked for. */
  lemma ProductLookupFaithful(products: seq<Product>)
    ensures NameFaithful(ProductLookup(products))
    ensures forall name :: ProductLookup(products)(name).Some? ==> ProductLookup(products)(name).value in products
  {
    forall name | ProductLookup(products)(name).Some?
      ensures ProductLookup(products)(name).value.name == name
      ensures ProductLookup(products)(name).value in products
    {
      var r := Find(products, ProductName, name);
      assert ProductName(r.value) == name;
    }
  }

  /**
   * One pass of load_ingredients' loop, given how names resolve (lookup) and how quantity tokens
   * parse (parse): resolve the row's name, refuse a product already in the map, then parse the
   * quantity token.
   */
  function AddIngredient(lookup: string -> Option<Product>, parse: string -> Option<RQuantity>,
                         ingredients: map<Product, RQuantity>, row: IngredientRow)
    : Result<map<Product, RQuantity>, LoadError>
  {
    match lookup(row.ingredient)
    case None => Err(UnrecognizedIngredient(row.ingredient))
    case Some(product) =>
      if product in ingredients then Err(DuplicateIngredient(product))
      else
        match parse(row.quantity)
        case None => Err(MalformedQuantity(row.quantity))
        case Some(quantity) => Ok(ingredients[product := quantity])
  }

  /** The map load_ingredients' loop builds from rows, or the error of the first row that fails. */
  function ResolveRows(lookup: string -> Option<Product>, parse: string -> Option<RQuantity>, rows: seq<IngredientRow>)
    : Result<map<Product, RQuantity>, LoadError>
  {
    if rows == [] then Ok(map[])
    else
      match ResolveRows(lookup, parse, rows[..|rows| - 1])
      case Err(e) => Err(e)
      case Ok(ingredients) => AddIngredient(lookup, parse, ingredients, rows[|rows| - 1])
  }

  /** What load_ingredients returns for rows: products resolved against products, tokens read by Quantity::new. */
  function ResolveIngredients(products: seq<Product>, rows: seq<IngredientRow>): Result<map<Product, RQuantity>, LoadError> {
    ResolveRows(ProductLookup(products), Parse, rows)
  }

  /** Once a prefix of the rows fails, the whole load fails with the same error. */
  lemma {:induction false} ResolveFailurePersists(lookup: string -> Option<Product>, parse: string -> Option<RQuantity>,
                                                  rows: seq<IngredientRow>, n: nat)
    requires n <= |rows| && ResolveRows(lookup, parse, rows[..n]).Err?
    ensures ResolveRows(lookup, parse, rows) == ResolveRows(lookup, parse, rows[..n])
    decreases |rows| - n
  {
    if n < |rows| {
      assert rows[..n + 1][..n] == rows[..n];
      ResolveFailurePersists(lookup, parse, rows, n + 1);
    } else {
      assert rows[..n] == rows;
    }
  }

  /** load_ingredients: resolve every row in turn; fail at the first row that cannot be added. */
  method LoadIngredients(products: seq<Product>, rows: seq<IngredientRow>)
    returns (r: Result<map<Product, RQuantity>, LoadError>)
    ensures r == ResolveIngredients(products, rows)
  {
    ghost var lookup := ProductLookup(products);
    var ingredients: map<Product, RQuantity> := map[];
    for i := 0 to |rows|
      invariant ResolveRows(lookup, Parse, rows[..i]) == Ok(ingredients)
    {
      var row := rows[i];
      assert rows[..i + 1][..i] == rows[..i];
      var product := Find(products, ProductName, row.ingredient);
      assert lookup(row.ingredient) == product;
      if product.None? {
        ResolveFailurePersists(lookup, Parse, rows, i + 1);
        return Err(UnrecognizedIngredient(row.ingredient));
      }
      if product.value in ingredients {
        ResolveFailurePersists(lookup, Parse, rows, i + 1);
        return Err(DuplicateIngredient(product.value));
      }
      var quantity := New(row.quantity);
      if quantity.None? {
        ResolveFailurePersists(lookup, Parse, rows, i + 1);
        return Err(MalformedQuantity(row.quantity));
      }
      ingredients := ingredients[product.value := quantity.value];
    }
    assert rows[..|rows|] == rows;
    return Ok(ingredients);
  }

  /** Every row names a product the lookup knows and carries a quantity token that parses. */
  predicate RowsResolve(lookup: string -> Option<Product>, parse: string -> Option<RQuantity>, rows: seq<IngredientRow>) {
    forall i :: 0 <= i < |rows| ==> lookup(rows[i].ingredient).Some? && parse(rows[i].quantity).Some?
  }

  /** No two rows name the same ingredient. */
  predicate DistinctNames(rows: seq<IngredientRow>) {
    forall i, j :: 0 <= i < j < |rows| ==> rows[i].ingredient != rows[j].ingredient
  }

  /** A row that AddIngredient accepts adds exactly one new entry, for its resolved product. */
  lemma AddIngredientOk(lookup: string -> Option<Product>, parse: string -> Option<RQuantity>,
                        ingredients: map<Product, RQuantity>, row: IngredientRow)
    ensures AddIngredient(lookup, parse, ingredients, row).Ok? <==>
      && lookup(row.ingredient).Some?
      && lookup(row.ingredient).value !in ingredients
      && parse(row.quantity).Some?
    ensures AddIngredient(lookup, parse, ingredients, row).Ok? ==>
      AddIngredient(lookup, parse, ingredients, row).value ==
        ingredients[lookup(row.ingredient).value := parse(row.quantity).value]
  {
  }

  /** A successful load of rows extends the successful load of all rows but the last by one new entry. */
  lemma ResolveRowsStep(lookup: string -> Option<Product>, parse: string -> Option<RQuantity>, rows: seq<IngredientRow>)
    requires rows != [] && ResolveRows(lookup, parse, rows).Ok?
    ensures var prefix := rows[..|rows| - 1];
      var last := rows[|rows| - 1];
      && ResolveRows(lookup, parse, prefix).Ok?
      && lookup(last.ingredient).Some?
      && lookup(last.ingredient).value !in ResolveRows(lookup, parse, prefix).value
      && parse(last.quantity).Some?
      && ResolveRows(lookup, parse, rows).value ==
           ResolveRows(lookup, parse, prefix).value[lookup(last.ingredient).value := parse(last.quantity).value]
  {
    var prefix := rows[..|rows| - 1];
    assert ResolveRows(lookup, parse, prefix).Ok?;
    AddIngredientOk(lookup, parse, ResolveRows(lookup, parse, prefix).value, rows[|rows| - 1]);
  }

  /** A successful load has exactly one entry per row. */
  lemma {:induction false} ResolveRowsSize(lookup: string -> Option<Product>, parse: string -> Option<RQuantity>,
                                           rows: seq<IngredientRow>)
    requires ResolveRows(lookup, parse, rows).Ok?
    ensures |ResolveRows(lookup, parse, rows).value| == |rows|
  {
    if rows != [] {
      ResolveRowsStep(lookup, parse, rows);
      ResolveRowsSize(lookup, parse, rows[..|rows| - 1]);
    }
  }

  /** The keys of a successful load are exactly the products the rows resolve to. */
  lemma {:induction false} ResolveRowsKeys(lookup: string -> Option<Product>, parse: string -> Option<RQuantity>,
                                           rows: seq<IngredientRow>)
    requires ResolveRows(lookup, parse, rows).Ok?
    ensures forall k :: k in ResolveRows(lookup, parse, rows).value <==>
      exists i :: 0 <= i < |rows| && lookup(rows[i].ingredient) == Some(k)
  {
    if rows != [] {
      var n := |rows| - 1;
      var prefix := rows[..n];
      ResolveRowsStep(lookup, parse, rows);
      ResolveRowsKeys(lookup, parse, prefix);
      var m := ResolveRows(lookup, parse, rows).value;
      var k := lookup(rows[n].ingredient).value;
      forall k' | k' in m
        ensures exists i :: 0 <= i < |rows| && lookup(rows[i].ingredient) == Some(k')
      {
        if k' != k {
          var i :| 0 <= i < |prefix| && lookup(prefix[i].ingredient) == Some(k');
          assert rows[i] == prefix[i];
        } else {
          assert lookup(rows[n].ingredient) == Some(k');
        }
      }
      forall k', i | 0 <= i < |rows| && lookup(rows[i].ingredient) == Some(k')
        ensures k' in m
      {
        if i < n {
          assert rows[i] == prefix[i];
        }
      }
    }
  }

  /** The row's entry in ingredients: its resolved product, stored with its parsed quantity. */
  predicate HasEntry(lookup: string -> Option<Product>, parse: string -> Option<RQuantity>,
                     ingredients: map<Product, RQuantity>, row: IngredientRow) {
    && lookup(row.ingredient).Some?
    && parse(row.quantity).Some?
    && lookup(row.ingredient).value in ingredients
    && ingredients[lookup(row.ingredient).value] == parse(row.quantity).value
  }

  /** Every row of a successful load is stored under the product it resolves to, with its parsed quantity. */
  lemma {:induction false} ResolveRowsValues(lookup: string -> Option<Product>, parse: string -> Option<RQuantity>,
                                             rows: seq<IngredientRow>)
    requires ResolveRows(lookup, parse, rows).Ok?
    ensures forall i :: 0 <= i < |rows| ==> HasEntry(lookup, parse, ResolveRows(lookup, parse, rows).value, rows[i])
  {
    if rows != [] {
      var n := |rows| - 1;
      var prefix := rows[..n];
      ResolveRowsStep(lookup, parse, rows);
      ResolveRowsValues(lookup, parse, prefix);
      var m0 := ResolveRows(lookup, parse, prefix).value;
      forall i | 0 <= i < n
        ensures HasEntry(lookup, parse, ResolveRows(lookup, parse, rows).value, rows[i])
      {
        assert rows[i] == prefix[i];
        assert HasEntry(lookup, parse, m0, prefix[i]);
      }
    }
  }

  /**
   * load_ingredients succeeds exactly when every row names a known product with a token that
   * parses and no two rows name the same ingredient (two such rows would resolve to the same
   * product, which the duplicate check refuses; rows of different names resolve to different
   * products because the lookup answers with a product of the name asked for).
   */
  lemma {:induction false} ResolveRowsOk(lookup: string -> Option<Product>, parse: string -> Option<RQuantity>,
                                         rows: seq<IngredientRow>)
    requires NameFaithful(lookup)
    ensures ResolveRows(lookup, parse, rows).Ok? <==> RowsResolve(lookup, parse, rows) && DistinctNames(rows)
  {
    if rows != [] {
      var n := |rows| - 1;
      var prefix := rows[..n];
      var last := rows[n];
      ResolveRowsOk(lookup, parse, prefix);
      assert forall i :: 0 <= i < n ==> rows[i] == prefix[i];
      if ResolveRows(lookup, parse, rows).Ok? {
        ResolveRowsStep(lookup, parse, rows);
        ResolveRowsValues(lookup, parse, prefix);
        assert RowsResolve(lookup, parse, rows);
        assert DistinctNames(rows);
      }
      if RowsResolve(lookup, parse, rows) && DistinctNames(rows) {
        assert RowsResolve(lookup, parse, prefix) && DistinctNames(prefix);
        var m0 := ResolveRows(lookup, parse, prefix).value;
        AddIngredientOk(lookup, parse, m0, last);
        ResolveRowsKeys(lookup, parse, prefix);
      }
    }
  }

  /**
   * For the lookup load_ingredients uses: the load succeeds exactly when every row names a
   * loaded product, every token parses and no name repeats, and every key is a loaded product.
   */
  lemma ResolveIngredientsOk(products: seq<Product>, rows: seq<IngredientRow>)
    ensures ResolveIngredients(products, rows).Ok? <==>
      RowsResolve(ProductLookup(products), Parse, rows) && DistinctNames(rows)
    ensures ResolveIngredients(products, rows).Ok? ==>
      forall k :: k in ResolveIngredients(products, rows).value ==> k in products
  {
    ProductLookupFaithful(products);
    ResolveRowsOk(ProductLookup(products), Parse, rows);
    if ResolveIngredients(products, rows).Ok? {
      ResolveRowsKeys(ProductLookup(products), Parse, rows);
    }
  }

  // ---------------------------------------------------------------------------
  // load_recipes
  // ---------------------------------------------------------------------------

  /** The resolved ingredients of a recipe's file; a file that is not there cannot be opened. */
  function RecipeIngredients(products: seq<Product>, files: map<string, seq<IngredientRow>>, filename: string)
    : Result<map<Product, RQuantity>, LoadError>
  {
    if filename in files then ResolveIngredients(products, files[filename]) else Err(CannotOpen(filename))
  }

  /**
   * load_recipes: each index row becomes a recipe with the row's name and the ingredients
   * load_ingredients resolves from the row's file; the first recipe whose ingredients fail
   * stops the load, with that failure as the cause.
   */
  method LoadRecipes(products: seq<Product>, files: map<string, seq<IngredientRow>>, rows: seq<RecipeRow>)
    returns (r: Result<seq<Recipe>, LoadError>)
    ensures r.Ok? <==> forall i :: 0 <= i < |rows| ==> RecipeIngredients(products, files, rows[i].filename).Ok?
    ensures r.Ok? ==> |r.value| == |rows| && forall i :: 0 <= i < |rows| ==>
              && RecipeIngredients(products, files, rows[i].filename).Ok?
              && r.value[i] == Recipe(rows[i].name, RecipeIngredients(products, files, rows[i].filename).value)
    ensures r.Err? ==> exists i ::
              && 0 <= i < |rows| && RecipeIngredients(products, files, rows[i].filename).Err?
              && (forall j :: 0 <= j < i ==> RecipeIngredients(products, files, rows[j].filename).Ok?)
              && r.error == UnableToResolveRecipe(RecipeIngredients(products, files, rows[i].filename).error)
  {
    var recipes: seq<Recipe> := [];
    for i := 0 to |rows|
      invariant |recipes| == i
      invariant forall j :: 0 <= j < i ==>
        && RecipeIngredients(products, files, rows[j].filename).Ok?
        && recipes[j] == Recipe(rows[j].name, RecipeIngredients(products, files, rows[j].filename).value)
    {
      var row := rows[i];
      var ingredients: Result<map<Product, RQuantity>, LoadError>;
      if row.filename in files {
        ingredients := LoadIngredients(products, files[row.filename]);
      } else {
        ingredients := Err(CannotOpen(row.filename));
      }
      if ingredients.Err? {
        return Err(UnableToResolveRecipe(ingredients.error));
      }
      recipes := recipes + [Recipe(row.name, ingredients.value)];
    }
    return Ok(recipes);
  }

  // ---------------------------------------------------------------------------
  // load_planned_meals
  // ---------------------------------------------------------------------------

  /**
   * load_planned_meals: each plan row becomes a planned meal in the same slot carrying the
   * first recipe with the row's recipe name; the first row naming no recipe stops the load.
   */
  method LoadPlannedMeals(recipes: seq<Recipe>, rows: seq<PlanRow>) returns (r: Result<seq<PlannedMeal>, LoadError>)
    ensures r.Ok? <==> forall i :: 0 <= i < |rows| ==> Find(recipes, RecipeName, rows[i].recipe).Some?
    ensures r.Ok? ==> |r.value| == |rows| && forall i :: 0 <= i < |rows| ==>
              && Find(recipes, RecipeName, rows[i].recipe).Some?
              && r.value[i] == PlannedMeal(rows[i].day, rows[i].meal, Find(recipes, RecipeName, rows[i].recipe).value)
    ensures r.Err? ==> exists i ::
              && 0 <= i < |rows| && Find(recipes, RecipeName, rows[i].recipe).None?
              && (forall j :: 0 <= j < i ==> Find(recipes, RecipeName, rows[j].recipe).Some?)
              && r.error == UnrecognizedRecipe(rows[i].recipe)
  {
    var plannedMeals: seq<PlannedMeal> := [];
    for i := 0 to |rows|
      invariant |plannedMeals| == i
      invariant forall j :: 0 <= j < i ==>
        && Find(recipes, RecipeName, rows[j].recipe).Some?
        && plannedMeals[j] == PlannedMeal(rows[j].day, rows[j].meal, Find(recipes, RecipeName, rows[j].recipe).value)
    {
      var row := rows[i];
      var recipe := Find(recipes, RecipeName, row.recipe);
      if recipe.None? {
        return Err(UnrecognizedRecipe(row.recipe));
      }
      plannedMeals := plannedMeals + [PlannedMeal(row.day, row.meal, recipe.value)];
    }
    return Ok(plannedMeals);
  }
}
