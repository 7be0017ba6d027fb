/**
 * The shopping-list entities and the two map-building steps of the pipeline (src/lib.rs):
 * summing the ingredient demand of a meal plan, and subtracting an inventory from it.
 */
module Shopping {
  import opened Results
  import opened Quantity

  datatype Department = Department(name: string)

  /** Two products are equal when their names and their departments are. */
  datatype Product = Product(name: string, department: Department)

  datatype Recipe = Recipe(name: string, ingredients: map<Product, RQuantity>)

  datatype Day = Sunday | Monday | Tuesday | Wednesday | Thursday | Friday | Saturday

  datatype Meal = Breakfast | Lunch | Dinner | Snack

  /** A slot of the plan together with its own copy of the resolved recipe. */
  datatype PlannedMeal = PlannedMeal(day: Day, meal: Meal, recipe: Recipe)

  // ---------------------------------------------------------------------------
  // sum_ingredients
  // ---------------------------------------------------------------------------

  /**
   * acc with the entries of ingredients folded in: a product already in acc gets
   * acc[p] + ingredients[p] (acc's unit first), a new product gets its quantity.
   */
  function Merge(acc: map<Product, RQuantity>, ingredients: map<Product, RQuantity>): map<Product, RQuantity> {
    map p | p in acc.Keys + ingredients.Keys ::
      if p in acc && p in ingredients then Add(acc[p], ingredients[p])
      else if p in acc then acc[p]
      else ingredients[p]
  }

  /** The demand map of a plan: every meal's recipe merged in, in plan order. */
  function Demand(plannedMeals: seq<PlannedMeal>): map<Product, RQuantity> {
    if plannedMeals == [] then map[]
    else Merge(Demand(plannedMeals[..|plannedMeals| - 1]), plannedMeals[|plannedMeals| - 1].recipe.ingredients)
  }

  /** Folding in one more entry of a recipe, as entry().and_modify().or_insert() does. */
  lemma MergeStep(before: map<Product, RQuantity>, ingredients: map<Product, RQuantity>,
                  remaining: set<Product>, p: Product)
    requires p in remaining && remaining <= ingredients.Keys
    ensures var m := Merge(before, ingredients - remaining);
      Merge(before, ingredients - (remaining - {p})) ==
        if p in m then m[p := Add(m[p], ingredients[p])] else m[p := ingredients[p]]
  {
    var m := Merge(before, ingredients - remaining);
    var m' := Merge(before, ingredients - (remaining - {p}));
    var expected := if p in m then m[p := Add(m[p], ingredients[p])] else m[p := ingredients[p]];
    assert m'.Keys == expected.Keys;
    forall k | k in m'
      ensures m'[k] == expected[k]
    {
    }
  }

  /**
   * sum_ingredients: for every planned meal and every ingredient of its recipe, add the
   * quantity to the product's entry, or insert it when the product is new.
   */
  method SumIngredients(plannedMeals: seq<PlannedMeal>) returns (planned: map<Product, RQuantity>)
    ensures planned == Demand(plannedMeals)
  {
    planned := map[];
    for i := 0 to |plannedMeals|
      invariant planned == Demand(plannedMeals[..i])
    {
      var ingredients := plannedMeals[i].recipe.ingredients;
      ghost var before := planned;
      var remaining := ingredients.Keys;
      while remaining != {}
        invariant remaining <= ingredients.Keys
        invariant planned == Merge(before, ingredients - remaining)
        decreases remaining
      {
        var product :| product in remaining;
        var quantity := ingredients[product];
        MergeStep(before, ingredients, remaining, product);
        if product in planned {
          planned := planned[product := Add(planned[product], quantity)];
        } else {
          planned := planned[product := quantity];
        }
        remaining := remaining - {product};
      }
      assert ingredients - {} == ingredients;
      assert plannedMeals[..i + 1][..i] == plannedMeals[..i];
    }
    assert plannedMeals[..|plannedMeals|] == plannedMeals;
  }

  /** An empty plan demands nothing. */
  lemma DemandOfEmptyPlan()
    ensures Demand([]) == map[]
  {
  }

  /** The products of the demand map are exactly those some planned meal's recipe uses. */
  lemma {:induction false} DemandKeys(plannedMeals: seq<PlannedMeal>)
    ensures forall p :: p in Demand(plannedMeals) <==>
      exists i :: 0 <= i < |plannedMeals| && p in plannedMeals[i].recipe.ingredients
  {
    if plannedMeals != [] {
      var n := |plannedMeals| - 1;
      var prefix := plannedMeals[..n];
      DemandKeys(prefix);
      forall p | p in Demand(plannedMeals)
        ensures exists i :: 0 <= i < |plannedMeals| && p in plannedMeals[i].recipe.ingredients
      {
        if p in Demand(prefix) {
          var i :| 0 <= i < |prefix| && p in prefix[i].recipe.ingredients;
          assert plannedMeals[i] == prefix[i];
        } else {
          assert p in plannedMeals[n].recipe.ingredients;
        }
      }
      forall p, i | 0 <= i < |plannedMeals| && p in plannedMeals[i].recipe.ingredients
        ensures p in Demand(plannedMeals)
      {
        if i < n {
          assert prefix[i] == plannedMeals[i];
        }
      }
    }
  }

  /** The magnitude meal contributes for p: its recipe's quantity of p, or nothing. */
  function Amount(meal: PlannedMeal, p: Product): real {
    if p in meal.recipe.ingredients then meal.recipe.ingredients[p].value else 0.0
  }

  /** The total magnitude of p over a plan, summed from its first meal on. */
  function TotalAmount(plannedMeals: seq<PlannedMeal>, p: Product): real {
    if plannedMeals == [] then 0.0 else Amount(plannedMeals[0], p) + TotalAmount(plannedMeals[1..], p)
  }

  lemma {:induction false} TotalAmountConcat(a: seq<PlannedMeal>, b: seq<PlannedMeal>, p: Product)
    ensures TotalAmount(a + b, p) == TotalAmount(a, p) + TotalAmount(b, p)
  {
    if a != [] {
      assert (a + b)[1..] == a[1..] + b;
      TotalAmountConcat(a[1..], b, p);
    } else {
      assert a + b == b;
    }
  }

  /** Each product's summed magnitude is the sum of its magnitudes over all planned meals. */
  lemma {:induction false} DemandValue(plannedMeals: seq<PlannedMeal>, p: Product)
    requires p in Demand(plannedMeals)
    ensures Demand(plannedMeals)[p].value == TotalAmount(plannedMeals, p)
  {
    var n := |plannedMeals| - 1;
    var prefix := plannedMeals[..n];
    assert plannedMeals == prefix + [plannedMeals[n]];
    TotalAmountConcat(prefix, [plannedMeals[n]], p);
    assert TotalAmount([plannedMeals[n]], p) == Amount(plannedMeals[n], p);
    if p in Demand(prefix) {
      DemandValue(prefix, p);
    } else {
      DemandKeys(prefix);
      ZeroTotalAmount(prefix, p);
    }
  }

  /** A product no planned meal uses has total magnitude zero. */
  lemma {:induction false} ZeroTotalAmount(plannedMeals: seq<PlannedMeal>, p: Product)
    requires forall i :: 0 <= i < |plannedMeals| ==> p !in plannedMeals[i].recipe.ingredients
    ensures TotalAmount(plannedMeals, p) == 0.0
  {
    if plannedMeals != [] {
      assert p !in plannedMeals[0].recipe.ingredients;
      assert forall i :: 0 <= i < |plannedMeals[1..]| ==> plannedMeals[1..][i] == plannedMeals[i + 1];
      ZeroTotalAmount(plannedMeals[1..], p);
    }
  }

  /** The unit of p in the first planned meal, in plan order, whose recipe uses p. */
  function FirstUnit(plannedMeals: seq<PlannedMeal>, p: Product): Option<QuantityUnit> {
    if plannedMeals == [] then None
    else if p in plannedMeals[0].recipe.ingredients then Some(plannedMeals[0].recipe.ingredients[p].unit)
    else FirstUnit(plannedMeals[1..], p)
  }

  lemma {:induction false} FirstUnitAppend(s: seq<PlannedMeal>, meal: PlannedMeal, p: Product)
    ensures FirstUnit(s + [meal], p) ==
      if FirstUnit(s, p).Some? then FirstUnit(s, p)
      else if p in meal.recipe.ingredients then Some(meal.recipe.ingredients[p].unit)
      else None
  {
    if s != [] {
      assert (s + [meal])[1..] == s[1..] + [meal];
      FirstUnitAppend(s[1..], meal, p);
    }
  }

  /**
   * Because + keeps its left operand's unit, each product's summed unit is its unit in the
   * first planned meal that uses it; and a product is summed exactly when some meal uses it.
   */
  lemma {:induction false} DemandUnit(plannedMeals: seq<PlannedMeal>, p: Product)
    ensures p in Demand(plannedMeals) <==> FirstUnit(plannedMeals, p).Some?
    ensures p in Demand(plannedMeals) ==> Demand(plannedMeals)[p].unit == FirstUnit(plannedMeals, p).value
  {
    if plannedMeals != [] {
      var n := |plannedMeals| - 1;
      var prefix := plannedMeals[..n];
      assert plannedMeals == prefix + [plannedMeals[n]];
      FirstUnitAppend(prefix, plannedMeals[n], p);
      DemandUnit(prefix, p);
    }
  }

  /** Where the unit of the first use came from: some planned meal that uses the product. */
  lemma {:induction false} FirstUnitIsAUse(plannedMeals: seq<PlannedMeal>, p: Product)
    requires FirstUnit(plannedMeals, p).Some?
    ensures exists i ::
              && 0 <= i < |plannedMeals| && p in plannedMeals[i].recipe.ingredients
              && plannedMeals[i].recipe.ingredients[p].unit == FirstUnit(plannedMeals, p).value
  {
    if p !in plannedMeals[0].recipe.ingredients {
      var rest := plannedMeals[1..];
      FirstUnitIsAUse(rest, p);
      var i :| 0 <= i < |rest| && p in rest[i].recipe.ingredients
        && rest[i].recipe.ingredients[p].unit == FirstUnit(rest, p).value;
      assert rest[i] == plannedMeals[i + 1];
    } else {
      assert p in plannedMeals[0].recipe.ingredients;
    }
  }

  /** Taking meal k out of a plan takes it out of the plan's multiset. */
  lemma MultisetRemove(b: seq<PlannedMeal>, k: int)
    requires 0 <= k < |b|
    ensures multiset(b[..k] + b[k + 1..]) == multiset(b) - multiset{b[k]}
  {
    assert b == b[..k] + ([b[k]] + b[k + 1..]);
  }

  /** Taking meal k out of a plan takes its amount out of the total. */
  lemma TotalAmountRemove(b: seq<PlannedMeal>, k: int, p: Product)
    requires 0 <= k < |b|
    ensures TotalAmount(b, p) == Amount(b[k], p) + TotalAmount(b[..k] + b[k + 1..], p)
  {
    assert b == b[..k] + ([b[k]] + b[k + 1..]);
    TotalAmountConcat(b[..k], [b[k]] + b[k + 1..], p);
    TotalAmountConcat([b[k]], b[k + 1..], p);
    TotalAmountConcat(b[..k], b[k + 1..], p);
    assert TotalAmount([b[k]], p) == Amount(b[k], p);
  }

  lemma {:induction false} TotalAmountPermutation(a: seq<PlannedMeal>, b: seq<PlannedMeal>, p: Product)
    requires multiset(a) == multiset(b)
    ensures TotalAmount(a, p) == TotalAmount(b, p)
  {
    if a == [] {
      assert |b| == |multiset(b)| == 0;
    } else {
      var x := a[0];
      assert x in multiset(b);
      var k :| 0 <= k < |b| && b[k] == x;
      var rest := b[..k] + b[k + 1..];
      MultisetRemove(b, k);
      assert a == [x] + a[1..];
      assert multiset(a[1..]) == multiset(rest) by {
        assert multiset(a) == multiset{x} + multiset(a[1..]);
      }
      TotalAmountPermutation(a[1..], rest, p);
      TotalAmountRemove(b, k, p);
    }
  }

  /** Every meal of a plan occurs in any reordering of the plan. */
  lemma UsedInPermutation(a: seq<PlannedMeal>, b: seq<PlannedMeal>, i: int)
    requires multiset(a) == multiset(b)
    requires 0 <= i < |a|
    ensures exists j :: 0 <= j < |b| && b[j] == a[i]
  {
    assert a[i] in multiset(b);
  }

  /** Reordering a plan changes neither which products it demands nor their summed magnitudes. */
  lemma DemandPermutation(a: seq<PlannedMeal>, b: seq<PlannedMeal>)
    requires multiset(a) == multiset(b)
    ensures Demand(a).Keys == Demand(b).Keys
    ensures forall p :: p in Demand(a) ==> Demand(a)[p].value == Demand(b)[p].value
  {
    DemandKeys(a);
    DemandKeys(b);
    forall p | p in Demand(a)
      ensures p in Demand(b)
    {
      var i :| 0 <= i < |a| && p in a[i].recipe.ingredients;
      UsedInPermutation(a, b, i);
    }
    forall p | p in Demand(b)
      ensures p in Demand(a)
    {
      var j :| 0 <= j < |b| && p in b[j].recipe.ingredients;
      UsedInPermutation(b, a, j);
    }
    forall p | p in Demand(a)
      ensures Demand(a)[p].value == Demand(b)[p].value
    {
      DemandValue(a, p);
      DemandValue(b, p);
      TotalAmountPermutation(a, b, p);
    }
  }

  /** Every planned meal that uses a product gives it in the same unit. */
  ghost predicate ConsistentUnits(plannedMeals: seq<PlannedMeal>) {
    forall i, j, p ::
      0 <= i < |plannedMeals| && 0 <= j < |plannedMeals|
      && p in plannedMeals[i].recipe.ingredients && p in plannedMeals[j].recipe.ingredients
      ==> plannedMeals[i].recipe.ingredients[p].unit == plannedMeals[j].recipe.ingredients[p].unit
  }

  /** When each product comes in one unit throughout the plan, the plan's order does not matter. */
  lemma DemandOrderIndependent(a: seq<PlannedMeal>, b: seq<PlannedMeal>)
    requires multiset(a) == multiset(b)
    requires ConsistentUnits(a)
    ensures Demand(a) == Demand(b)
  {
    DemandPermutation(a, b);
    forall p | p in Demand(a)
      ensures Demand(a)[p] == Demand(b)[p]
    {
      DemandUnit(a, p);
      DemandUnit(b, p);
      FirstUnitIsAUse(a, p);
      FirstUnitIsAUse(b, p);
      var i :| 0 <= i < |a| && p in a[i].recipe.ingredients
        && a[i].recipe.ingredients[p].unit == FirstUnit(a, p).value;
      var j :| 0 <= j < |b| && p in b[j].recipe.ingredients
        && b[j].recipe.ingredients[p].unit == FirstUnit(b, p).value;
      UsedInPermutation(b, a, j);
      var i' :| 0 <= i' < |a| && a[i'] == b[j];
      assert a[i].recipe.ingredients[p].unit == a[i'].recipe.ingredients[p].unit;
    }
  }

  /** Without one unit per product the order matters: two meals swapped sum in the other unit. */
  lemma DemandUnitDependsOnOrder(p: Product, first: PlannedMeal, second: PlannedMeal)
    requires p in first.recipe.ingredients && p in second.recipe.ingredients
    requires first.recipe.ingredients[p].unit != second.recipe.ingredients[p].unit
    ensures p in Demand([first, second]) && p in Demand([second, first])
    ensures Demand([first, second])[p].unit == first.recipe.ingredients[p].unit
    ensures Demand([second, first])[p].unit == second.recipe.ingredients[p].unit
    ensures Demand([first, second]) != Demand([second, first])
  {
    DemandUnit([first, second], p);
    DemandUnit([second, first], p);
  }

  // ---------------------------------------------------------------------------
  // subtract_ingredients
  // ---------------------------------------------------------------------------

  /**
   * subtract_ingredients: for every product the plan demands, its demand minus what the
   * inventory holds of it (in the demand's unit), or the demand itself when the inventory has
   * none. Products only the inventory holds are left out.
   */
  method SubtractIngredients(demand: map<Product, RQuantity>, inventory: map<Product, RQuantity>)
    returns (difference: map<Product, RQuantity>)
    ensures difference.Keys == demand.Keys
    ensures forall p :: p in difference ==>
      difference[p] == if p in inventory then Sub(demand[p], inventory[p]) else demand[p]
    ensures forall p :: p in difference ==>
      difference[p].unit == demand[p].unit
      && (IsPositive(difference[p]) <==> demand[p].value > (if p in inventory then inventory[p].value else 0.0))
  {
    difference := map[];
    var remaining := demand.Keys;
    while remaining != {}
      invariant remaining <= demand.Keys
      invariant difference.Keys == demand.Keys - remaining
      invariant forall p :: p in difference ==>
        difference[p] == if p in inventory then Sub(demand[p], inventory[p]) else demand[p]
      decreases remaining
    {
      var product :| product in remaining;
      var quantityDifference;
      if product in inventory {
        quantityDifference := Sub(demand[product], inventory[product]);
      } else {
        quantityDifference := demand[product];
      }
      difference := difference[product := quantityDifference];
      remaining := remaining - {product};
    }
  }
}
