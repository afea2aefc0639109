/** The recipe resolution engine of pages/index.tsx, as functions.

    `findRecipeByName` adds every recipe it expands to one `usedRecipes` set that the
    whole resolution shares and never shrinks. `Resolve` makes that set explicit: it
    takes the set as it stands before the call and returns it as it stands after
    the call. `ResolveEach` is the `materials.map(...)` over the siblings, which hands
    the set on from one sibling to the next. `Totals` is `calculateTotalMaterials`. */
module Recipes {
  import opened Sequences
  import opened Tallies

  datatype Option<T> = None | Some(value: T)

  /** One row of the recipe table: recipe `name` needs `quantity` of `material`.
      The header fields `category`, `price` and `cost` repeat on every row of a recipe. */
  datatype Row = Row(name: string, category: string, price: string, cost: int,
                     material: string, quantity: int)

  /** `CombinedRecipe`. The source declares `subRecipes` optional, but it is always
      assigned before the node is used, so it is a plain sequence here. */
  datatype Recipe = Recipe(category: string, name: string, price: string, cost: int,
                           materials: seq<Material>, totalMaterials: seq<Material>,
                           subRecipes: seq<Recipe>)

  /** The recipe name of every row, in table order. */
  function RowNames(rows: seq<Row>): seq<string> {
    seq(|rows|, i requires 0 <= i < |rows| => rows[i].name)
  }

  /** The names that have at least one row: the names that can be resolved. */
  function RecipeNames(rows: seq<Row>): set<string> {
    Elements(RowNames(rows))
  }

  /** The material and quantity of every row, in order. */
  function MaterialsOf(rows: seq<Row>): seq<Material> {
    seq(|rows|, i requires 0 <= i < |rows| => Material(rows[i].material, rows[i].quantity))
  }

  /** `recipeList.filter((recipe) => recipe.name === name)`: the rows of the recipe,
      in table order. It is empty exactly when no row carries the name, and otherwise
      starts with the first row of the table that does. */
  function Matching(rows: seq<Row>, name: string): (m: seq<Row>)
    ensures m == [] <==> name !in RowNames(rows)
    ensures m != [] ==> 0 <= IndexOf(RowNames(rows), name) && m[0] == rows[IndexOf(RowNames(rows), name)]
  {
    if rows == [] then []
    else
      assert RowNames(rows) == [rows[0].name] + RowNames(rows[1..]);
      (if rows[0].name == name then [rows[0]] else []) + Matching(rows[1..], name)
  }

  /** `findRecipeByName(name, rows, used)`. The first component is the node, or
      `None` for the source's `null`; the second is the shared visited set after
      the call. A name already visited, or with no rows (a raw material), gives
      `None` and leaves the set alone. Otherwise the name joins the set before its
      materials are resolved, the header comes from the first row of the recipe
      (an empty category reads as "default"), and the set only ever grows, within
      the names of the table. */
  function Resolve(name: string, rows: seq<Row>, used: set<string>): (res: (Option<Recipe>, set<string>))
    ensures used <= res.1 <= used + RecipeNames(rows)
    ensures res.0.None? <==> name in used || name !in RecipeNames(rows)
    ensures res.0.None? ==> res.1 == used
    ensures res.0.Some? ==> name in res.1 && res.0.value.name == name
    ensures res.0.Some? ==>
      var first := rows[IndexOf(RowNames(rows), name)];
      && res.0.value.price == first.price
      && res.0.value.cost == first.cost
      && res.0.value.category == (if first.category == "" then "default" else first.category)
    decreases |RecipeNames(rows) - used|, 0
  {
    if name in used then (None, used)
    else
      var matching := Matching(rows, name);
      if matching == [] then (None, used)
      else
        var first := matching[0];
        var materials := Tally(MaterialsOf(matching));
        assert RecipeNames(rows) - used == (RecipeNames(rows) - (used + {name})) + {name};
        var subs := ResolveEach(materials, rows, used + {name});
        var node := Recipe(if first.category == "" then "default" else first.category,
                           first.name, first.price, first.cost, materials, [], subs.0);
        (Some(node.(totalMaterials := Totals(node))), subs.1)
  }

  /** `materials.map((m) => findRecipeByName(m.name, rows, used)).filter(non-null)`:
      each material is resolved in turn with the set the previous one left behind;
      the results that are not `None` are kept, in order. */
  function ResolveEach(mats: seq<Material>, rows: seq<Row>, used: set<string>): (res: (seq<Recipe>, set<string>))
    ensures used <= res.1 <= used + RecipeNames(rows)
    ensures |res.0| <= |mats|
    decreases |RecipeNames(rows) - used|, |mats|
  {
    if mats == [] then ([], used)
    else
      var first := Resolve(mats[0].name, rows, used);
      SubsetCard(RecipeNames(rows) - first.1, RecipeNames(rows) - used);
      var rest := ResolveEach(mats[1..], rows, first.1);
      ((if first.0.Some? then [first.0.value] else []) + rest.0, rest.1)
  }

  /** `calculateTotalMaterials(recipe)`: the node's direct materials followed by the
      totals of its sub-recipes (each recomputed recursively), tallied. */
  function Totals(r: Recipe): seq<Material>
    decreases r
  {
    Tally(r.materials + SubTotals(r.subRecipes))
  }

  /** The totals of a list of sub-recipes, one after another. */
  function SubTotals(subs: seq<Recipe>): seq<Material>
    decreases subs
  {
    if subs == [] then [] else SubTotals(subs[..|subs| - 1]) + Totals(subs[|subs| - 1])
  }

  /** The names of a list of nodes, in order. */
  function Names(subs: seq<Recipe>): seq<string> {
    seq(|subs|, i requires 0 <= i < |subs| => subs[i].name)
  }

  /** The names of every node of a tree, the root first. */
  function TreeNames(r: Recipe): seq<string>
    decreases r
  {
    [r.name] + ForestNames(r.subRecipes)
  }

  /** The names of every node of a list of trees, tree after tree. */
  function ForestNames(subs: seq<Recipe>): seq<string>
    decreases subs
  {
    if subs == [] then [] else TreeNames(subs[0]) + ForestNames(subs[1..])
  }
}
