/** The recipe engine of pages/index.tsx as the source writes it: loops that fill a
    `Map` entry by entry, and a `Set` of visited names that one top-level call of
    `findRecipeByName` creates and every recursive call then updates in place. Each
    method is proved to compute the function of `Recipes` that specifies it. */
module Engine {
  import opened Sequences
  import opened Tallies
  import opened Recipes

  /** A JavaScript `Set<string>` as `findRecipeByName` uses it: names are only ever
      added, and the same object is handed to every recursive call. */
  class VisitedSet {
    var names: set<string>

    /** `new Set()`. */
    constructor ()
      ensures names == {}
    {
      names := {};
    }

    /** `set.add(name)`. */
    method Add(name: string)
      modifies this
      ensures names == old(names) + {name}
    {
      names := names + {name};
    }
  }

  /** What `totalMap` holds after one more sub-recipe's totals. */
  lemma SubTotalsPrefix(r: Recipe, j: nat)
    requires j < |r.subRecipes|
    ensures r.materials + SubTotals(r.subRecipes[..j + 1])
         == (r.materials + SubTotals(r.subRecipes[..j])) + Totals(r.subRecipes[j])
  {
    assert r.subRecipes[..j + 1][..j] == r.subRecipes[..j];
  }

  /** Resolving a non-empty list of siblings resolves the first one, then the rest
      with the set the first one left behind. */
  lemma ResolveEachUnfold(ms: seq<Material>, rows: seq<Row>, u: set<string>, sub: Option<Recipe>, u': set<string>)
    requires ms != [] && (sub, u') == Resolve(ms[0].name, rows, u)
    ensures ResolveEach(ms, rows, u) ==
      ((if sub.Some? then [sub.value] else []) + ResolveEach(ms[1..], rows, u').0, ResolveEach(ms[1..], rows, u').1)
  {
  }

  /** One more round of the sibling loop: if resolving all siblings gives the nodes
      `found` so far followed by what the siblings from `i` on give, then resolving
      sibling `i` moves its node, when there is one, into `found`. */
  lemma ResolveEachStep(mats: seq<Material>, i: nat, rows: seq<Row>, used: set<string>,
                        found: seq<Recipe>, u: set<string>, sub: Option<Recipe>, u': set<string>)
    requires i < |mats| && (sub, u') == Resolve(mats[i].name, rows, u)
    requires ResolveEach(mats, rows, used) ==
      (found + ResolveEach(mats[i..], rows, u).0, ResolveEach(mats[i..], rows, u).1)
    ensures ResolveEach(mats, rows, used) ==
      ((found + if sub.Some? then [sub.value] else []) + ResolveEach(mats[i + 1..], rows, u').0,
       ResolveEach(mats[i + 1..], rows, u').1)
  {
    var rest := ResolveEach(mats[i + 1..], rows, u');
    var head := if sub.Some? then [sub.value] else [];
    assert mats[i..][0] == mats[i] && mats[i..][1..] == mats[i + 1..];
    ResolveEachUnfold(mats[i..], rows, u, sub, u');
    ConcatAssoc(found, head, rest.0);
  }

  /** The `forEach` over the recipe's rows that fills `materialMap`: the map ends up
      as the tally of the rows' materials. */
  method MergeMaterials(filteredRecipes: seq<Row>) returns (materialMap: seq<Material>)
    ensures materialMap == Tally(MaterialsOf(filteredRecipes))
  {
    ghost var all := MaterialsOf(filteredRecipes);
    materialMap := [];
    var i := 0;
    while i < |filteredRecipes|
      invariant 0 <= i <= |filteredRecipes|
      invariant AddAll(materialMap, all[i..]) == AddAll([], all)
    {
      var r := filteredRecipes[i];
      assert all[i..][0] == Material(r.material, r.quantity) && all[i..][1..] == all[i + 1..];
      var currentQuantity := GetOrZero(materialMap, r.material);
      materialMap := Put(materialMap, r.material, currentQuantity + r.quantity);
      i := i + 1;
    }
    AddAllTally([], all);
    assert [] + all == all;
  }

  /** The callback that both `forEach` loops of `calculateTotalMaterials` run,
      `totalMap.set(m.name, (totalMap.get(m.name) || 0) + m.quantity)`, applied to
      every entry of `ms` in turn: a map that tallies `before` ends up tallying
      `before + ms`. */
  method AddEach(totalMap: seq<Material>, ghost before: seq<Material>, ms: seq<Material>) returns (result: seq<Material>)
    requires totalMap == Tally(before)
    ensures result == Tally(before + ms)
  {
    result := totalMap;
    var k := 0;
    while k < |ms|
      invariant 0 <= k <= |ms|
      invariant AddAll(result, ms[k..]) == AddAll(totalMap, ms)
    {
      var material := ms[k];
      assert ms[k..][0] == material && ms[k..][1..] == ms[k + 1..];
      result := Put(result, material.name, GetOrZero(result, material.name) + material.quantity);
      k := k + 1;
    }
    AddAllTally(before, ms);
  }

  /** `calculateTotalMaterials(recipe)`: the direct materials are added into
      `totalMap`, then the totals of every sub-recipe, each computed by a recursive
      call; the result is the tally `Totals` describes. */
  method CalculateTotalMaterials(recipe: Recipe) returns (totals: seq<Material>)
    ensures totals == Totals(recipe)
    decreases recipe
  {
    var totalMap := AddEach([], [], recipe.materials);
    assert [] + recipe.materials == recipe.materials + SubTotals(recipe.subRecipes[..0]);
    var j := 0;
    while j < |recipe.subRecipes|
      invariant 0 <= j <= |recipe.subRecipes|
      invariant totalMap == Tally(recipe.materials + SubTotals(recipe.subRecipes[..j]))
    {
      var subRecipe := recipe.subRecipes[j];
      var subMaterials := CalculateTotalMaterials(subRecipe);
      totalMap := AddEach(totalMap, recipe.materials + SubTotals(recipe.subRecipes[..j]), subMaterials);
      SubTotalsPrefix(recipe, j);
      j := j + 1;
    }
    assert recipe.subRecipes[..j] == recipe.subRecipes;
    totals := totalMap;
  }

  /** `findRecipeByName(name, recipeList, usedRecipes)`: the node, or `None` for
      `null`, is the one `Resolve` describes, and the shared set ends up as `Resolve`
      says, whatever it held before the call. */
  method FindRecipeByName(name: string, recipeList: seq<Row>, usedRecipes: VisitedSet) returns (result: Option<Recipe>)
    modifies usedRecipes
    ensures (result, usedRecipes.names) == Resolve(name, recipeList, old(usedRecipes.names))
    decreases |RecipeNames(recipeList) - usedRecipes.names|, 0
  {
    ghost var used0 := usedRecipes.names;
    if name in usedRecipes.names {
      return None;
    }
    var filteredRecipes := Matching(recipeList, name);
    if |filteredRecipes| == 0 {
      return None;
    }
    usedRecipes.Add(name);
    assert RecipeNames(recipeList) - used0 == (RecipeNames(recipeList) - usedRecipes.names) + {name};
    var materialMap := MergeMaterials(filteredRecipes);
    var first := filteredRecipes[0];
    var recipe := Recipe(if first.category == "" then "default" else first.category,
                         first.name, first.price, first.cost, materialMap, [], []);
    var subRecipes := FindSubRecipes(recipe.materials, recipeList, usedRecipes);
    recipe := recipe.(subRecipes := subRecipes);
    var totals := CalculateTotalMaterials(recipe);
    recipe := recipe.(totalMaterials := totals);
    result := Some(recipe);
  }

  /** `materials.map((m) => findRecipeByName(m.name, recipeList, usedRecipes))`
      followed by `.filter((r) => r !== null)`: the materials are resolved in order,
      all with the one shared set, and the nodes found are kept in order. */
  method FindSubRecipes(materials: seq<Material>, recipeList: seq<Row>, usedRecipes: VisitedSet) returns (subRecipes: seq<Recipe>)
    modifies usedRecipes
    ensures (subRecipes, usedRecipes.names) == ResolveEach(materials, recipeList, old(usedRecipes.names))
    decreases |RecipeNames(recipeList) - usedRecipes.names|, 1
  {
    ghost var used1 := usedRecipes.names;
    subRecipes := [];
    var i := 0;
    assert materials[i..] == materials;
    assert subRecipes + ResolveEach(materials[i..], recipeList, usedRecipes.names).0
        == ResolveEach(materials[i..], recipeList, usedRecipes.names).0;
    while i < |materials|
      invariant 0 <= i <= |materials|
      invariant used1 <= usedRecipes.names <= used1 + RecipeNames(recipeList)
      invariant ResolveEach(materials, recipeList, used1) ==
        (subRecipes + ResolveEach(materials[i..], recipeList, usedRecipes.names).0,
         ResolveEach(materials[i..], recipeList, usedRecipes.names).1)
    {
      SubsetCard(RecipeNames(recipeList) - usedRecipes.names, RecipeNames(recipeList) - used1);
      ghost var u := usedRecipes.names;
      var subRecipe := FindRecipeByName(materials[i].name, recipeList, usedRecipes);
      ResolveEachStep(materials, i, recipeList, used1, subRecipes, u, subRecipe, usedRecipes.names);
      if subRecipe.Some? {
        subRecipes := subRecipes + [subRecipe.value];
      } else {
        assert subRecipes + [] == subRecipes;
      }
      i := i + 1;
    }
    assert materials[i..] == [];
    assert subRecipes + [] == subRecipes;
  }

  /** A top-level call, `findRecipeByName(name, recipes)`, with the default fresh
      `new Set()`. */
  method FindRecipe(name: string, recipeList: seq<Row>) returns (result: Option<Recipe>)
    ensures result == Resolve(name, recipeList, {}).0
  {
    var usedRecipes := new VisitedSet();
    result := FindRecipeByName(name, recipeList, usedRecipes);
  }
}
