/** What `findRecipeByName` and `calculateTotalMaterials` promise about the trees they
    build: merged direct materials, sub-recipes that follow the materials, totals that
    are keyed sums, and a shared visited set under which no recipe is expanded twice
    in one top-level tree. */
module ResolutionLaws {
  import opened Sequences
  import opened Tallies
  import opened Recipes

  /** Every node of the tree keeps the shape `findRecipeByName` gives it: distinct
      direct materials, stored totals equal to `calculateTotalMaterials`, and
      sub-recipes named after materials, in the order of the materials. */
  predicate WellFormed(r: Recipe)
    decreases r
  {
    && NoDuplicates(Keys(r.materials))
    && r.totalMaterials == Totals(r)
    && OrderedBy(Keys(r.materials), Names(r.subRecipes))
    && (forall i :: 0 <= i < |r.subRecipes| ==> WellFormed(r.subRecipes[i]))
  }

  /** Every quantity of every node, direct or total, is at least one. */
  predicate PositiveTree(r: Recipe)
    decreases r
  {
    && Positive(r.materials)
    && Positive(r.totalMaterials)
    && (forall i :: 0 <= i < |r.subRecipes| ==> PositiveTree(r.subRecipes[i]))
  }

  /** Every row asks for at least one unit of its material. */
  predicate PositiveRows(rows: seq<Row>) {
    forall k :: 0 <= k < |rows| ==> rows[k].quantity >= 1
  }

  /** The total quantity of `material` that the rows of recipe `name` ask for. */
  function RowQuantity(rows: seq<Row>, name: string, material: string): int {
    if rows == [] then 0
    else (if rows[0].name == name && rows[0].material == material then rows[0].quantity else 0)
         + RowQuantity(rows[1..], name, material)
  }

  /** `Matching` keeps only rows of the recipe, each taken from the table. */
  lemma {:induction false} MatchingSound(rows: seq<Row>, name: string)
    ensures forall k :: 0 <= k < |Matching(rows, name)| ==> Matching(rows, name)[k].name == name
    ensures multiset(Matching(rows, name)) <= multiset(rows)
  {
    if rows != [] {
      MatchingSound(rows[1..], name);
      var tail := Matching(rows[1..], name);
      if rows[0].name == name {
        assert Matching(rows, name) == [rows[0]] + tail;
      } else {
        assert Matching(rows, name) == tail;
      }
      assert rows == [rows[0]] + rows[1..];
    }
  }

  /** `Matching` keeps every row of the recipe. */
  lemma {:induction false} MatchingComplete(rows: seq<Row>, name: string)
    ensures forall k :: 0 <= k < |rows| && rows[k].name == name ==> rows[k] in Matching(rows, name)
  {
    if rows != [] {
      MatchingComplete(rows[1..], name);
      var tail := Matching(rows[1..], name);
      var m := Matching(rows, name);
      if rows[0].name == name {
        assert m == [rows[0]] + tail;
      } else {
        assert m == tail;
      }
      forall k | 1 <= k < |rows| && rows[k].name == name ensures rows[k] in m {
        assert rows[k] == rows[1..][k - 1];
      }
    }
  }

  /** The materials that the rows of recipe `name` mention. */
  function RecipeMaterials(rows: seq<Row>, name: string): set<string> {
    set k | 0 <= k < |rows| && rows[k].name == name :: rows[k].material
  }

  /** The materials of a table that starts with `row`. */
  lemma MaterialsOfCons(row: Row, rows: seq<Row>)
    ensures MaterialsOf([row] + rows) == [Material(row.material, row.quantity)] + MaterialsOf(rows)
  {
  }

  /** Summing the recipe's rows by material adds up the same quantities as
      `RowQuantity`. */
  lemma {:induction false} MatchingQuantity(rows: seq<Row>, name: string, material: string)
    ensures SumOf(MaterialsOf(Matching(rows, name)), material) == RowQuantity(rows, name, material)
  {
    if rows != [] {
      MatchingQuantity(rows[1..], name, material);
      var tail := Matching(rows[1..], name);
      if rows[0].name == name {
        assert Matching(rows, name) == [rows[0]] + tail;
        MaterialsOfCons(rows[0], tail);
        SumOfCons(Material(rows[0].material, rows[0].quantity), MaterialsOf(tail), material);
      } else {
        assert Matching(rows, name) == tail;
      }
    }
  }

  /** The materials of the recipe in a table that starts with `rows[0]`. */
  lemma RecipeMaterialsCons(rows: seq<Row>, name: string)
    requires rows != []
    ensures RecipeMaterials(rows, name) ==
      (if rows[0].name == name then {rows[0].material} else {}) + RecipeMaterials(rows[1..], name)
  {
    var tail := rows[1..];
    forall x | x in RecipeMaterials(rows, name)
      ensures x in (if rows[0].name == name then {rows[0].material} else {}) + RecipeMaterials(tail, name)
    {
      var k :| 0 <= k < |rows| && rows[k].name == name && rows[k].material == x;
      if k > 0 {
        assert tail[k - 1] == rows[k];
      }
    }
    forall x | x in RecipeMaterials(tail, name) ensures x in RecipeMaterials(rows, name) {
      var k :| 0 <= k < |tail| && tail[k].name == name && tail[k].material == x;
      assert rows[k + 1] == tail[k];
    }
  }

  /** The material names of rows that start with `row`. */
  lemma MaterialNamesCons(row: Row, rows: seq<Row>)
    ensures Elements(Keys(MaterialsOf([row] + rows))) == {row.material} + Elements(Keys(MaterialsOf(rows)))
  {
    var mt := MaterialsOf(rows);
    MaterialsOfCons(row, rows);
    assert Keys([Material(row.material, row.quantity)] + mt) == [row.material] + Keys(mt);
    ElementsCons(row.material, Keys(mt));
  }

  /** The recipe's rows, read as materials, mention exactly the recipe's materials. */
  lemma {:induction false} MatchingMaterialNames(rows: seq<Row>, name: string)
    ensures Elements(Keys(MaterialsOf(Matching(rows, name)))) == RecipeMaterials(rows, name)
  {
    if rows != [] {
      MatchingMaterialNames(rows[1..], name);
      RecipeMaterialsCons(rows, name);
      var tail := Matching(rows[1..], name);
      if rows[0].name == name {
        assert Matching(rows, name) == [rows[0]] + tail;
        MaterialNamesCons(rows[0], tail);
      } else {
        assert Matching(rows, name) == tail;
      }
    }
  }

  /** The merge law of `findRecipeByName`: the node has exactly one entry per distinct
      material of the recipe's rows, holding the sum of those rows' quantities, in
      the order in which the recipe's rows first mention them. */
  lemma ResolveMaterials(name: string, rows: seq<Row>, used: set<string>, r: Recipe)
    requires Resolve(name, rows, used).0 == Some(r)
    ensures NoDuplicates(Keys(r.materials))
    ensures Elements(Keys(r.materials)) == RecipeMaterials(rows, name)
    ensures forall m :: GetOrZero(r.materials, m) == RowQuantity(rows, name, m)
    ensures forall i :: 0 <= i < |r.materials| ==> r.materials[i].quantity == RowQuantity(rows, name, r.materials[i].name)
    ensures OrderedBy(Keys(MaterialsOf(Matching(rows, name))), Keys(r.materials))
  {
    var ms := MaterialsOf(Matching(rows, name));
    assert r.materials == Tally(ms);
    TallyLaw(ms);
    MatchingMaterialNames(rows, name);
    forall m ensures SumOf(ms, m) == RowQuantity(rows, name, m) {
      MatchingQuantity(rows, name, m);
    }
  }

  /** Resolving a list of materials visits, by the end, every material that is a
      recipe name: either here or before. */
  lemma {:induction false} ResolveEachVisits(mats: seq<Material>, rows: seq<Row>, used: set<string>)
    ensures forall k :: 0 <= k < |mats| && mats[k].name in RecipeNames(rows) ==>
      mats[k].name in ResolveEach(mats, rows, used).1
    decreases |mats|
  {
    if mats != [] {
      var first := Resolve(mats[0].name, rows, used);
      ResolveEachVisits(mats[1..], rows, first.1);
      assert forall k :: 1 <= k < |mats| ==> mats[k] == mats[1..][k - 1];
    }
  }

  /** Every node that resolving a list of materials returns is named after one of
      the materials and was not visited before. */
  lemma {:induction false} ResolveEachNames(mats: seq<Material>, rows: seq<Row>, used: set<string>)
    ensures forall i :: 0 <= i < |ResolveEach(mats, rows, used).0| ==>
      ResolveEach(mats, rows, used).0[i].name in Keys(mats) && ResolveEach(mats, rows, used).0[i].name !in used
    decreases |mats|
  {
    if mats != [] {
      var first := Resolve(mats[0].name, rows, used);
      var rest := ResolveEach(mats[1..], rows, first.1);
      var subs := ResolveEach(mats, rows, used).0;
      ResolveEachNames(mats[1..], rows, first.1);
      assert Keys(mats) == [mats[0].name] + Keys(mats[1..]);
      var P := (t: Recipe) => t.name in Keys(mats) && t.name !in used;
      forall i | 0 <= i < |rest.0| ensures P(rest.0[i]) {
        assert rest.0[i].name in Keys(mats[1..]);
      }
      if first.0.Some? {
        assert subs == [first.0.value] + rest.0;
        AllCons(P, first.0.value, rest.0);
      } else {
        assert subs == rest.0;
      }
    }
  }

  /** One step of the order argument, apart from resolution: putting in front of an
      ordered selection of the later materials at most one node, named after the
      first material, gives an ordered selection of all the materials. */
  lemma OrderedStep(mats: seq<Material>, head: seq<Recipe>, rest: seq<Recipe>)
    requires mats != [] && NoDuplicates(Keys(mats))
    requires OrderedBy(Keys(mats[1..]), Names(rest))
    requires head == [] || (|head| == 1 && head[0].name == mats[0].name)
    ensures OrderedBy(Keys(mats), Names(head + rest))
  {
    assert Keys(mats) == [mats[0].name] + Keys(mats[1..]);
    NoDuplicatesTail(Keys(mats));
    assert Keys(mats)[1..] == Keys(mats[1..]);
    OrderedByCons(mats[0].name, Keys(mats[1..]), Names(rest));
    if head == [] {
      assert head + rest == rest;
    } else {
      assert Names(head + rest) == [mats[0].name] + Names(rest);
    }
  }

  /** With distinct materials, the nodes come in the materials' order: the
      sub-recipes are an ordered selection of the materials. */
  lemma {:induction false} ResolveEachOrder(mats: seq<Material>, rows: seq<Row>, used: set<string>)
    requires NoDuplicates(Keys(mats))
    ensures OrderedBy(Keys(mats), Names(ResolveEach(mats, rows, used).0))
    decreases |mats|
  {
    if mats != [] {
      var first := Resolve(mats[0].name, rows, used);
      var rest := ResolveEach(mats[1..], rows, first.1);
      NoDuplicatesTail(Keys(mats));
      assert Keys(mats)[1..] == Keys(mats[1..]);
      ResolveEachOrder(mats[1..], rows, first.1);
      OrderedStep(mats, if first.0.Some? then [first.0.value] else [], rest.0);
    }
  }

  /** No recipe is expanded twice in one resolution: the names of the tree's nodes
      are distinct, and they are exactly the names the call added to the shared set.
      The set is shared by siblings, so this holds across the whole tree and not only
      along each path from the root. */
  lemma {:induction false} ResolveTreeNames(name: string, rows: seq<Row>, used: set<string>, r: Recipe)
    requires Resolve(name, rows, used).0 == Some(r)
    ensures NoDuplicates(TreeNames(r))
    ensures Elements(TreeNames(r)) == Resolve(name, rows, used).1 - used
    decreases |RecipeNames(rows) - used|, 0
  {
    var used1 := used + {name};
    var materials := Tally(MaterialsOf(Matching(rows, name)));
    assert RecipeNames(rows) - used == (RecipeNames(rows) - used1) + {name};
    var subs := ResolveEach(materials, rows, used1);
    ResolveEachTreeNames(materials, rows, used1);
    assert r.subRecipes == subs.0;
    assert TreeNames(r) == [name] + ForestNames(subs.0);
    NoDuplicatesConcat([name], ForestNames(subs.0));
  }

  /** Resolving siblings one after another with the shared set: the names of all
      the trees returned are distinct, and are the names added to the set. */
  lemma {:induction false} ResolveEachTreeNames(mats: seq<Material>, rows: seq<Row>, used: set<string>)
    ensures NoDuplicates(ForestNames(ResolveEach(mats, rows, used).0))
    ensures Elements(ForestNames(ResolveEach(mats, rows, used).0)) == ResolveEach(mats, rows, used).1 - used
    decreases |RecipeNames(rows) - used|, |mats|
  {
    if mats != [] {
      var first := Resolve(mats[0].name, rows, used);
      SubsetCard(RecipeNames(rows) - first.1, RecipeNames(rows) - used);
      ResolveEachTreeNames(mats[1..], rows, first.1);
      var rest := ResolveEach(mats[1..], rows, first.1);
      var subs := ResolveEach(mats, rows, used).0;
      if first.0.Some? {
        ResolveTreeNames(mats[0].name, rows, used, first.0.value);
        assert subs == [first.0.value] + rest.0;
        assert ([first.0.value] + rest.0)[1..] == rest.0;
        assert ForestNames(subs) == TreeNames(first.0.value) + ForestNames(rest.0);
        NoDuplicatesConcat(TreeNames(first.0.value), ForestNames(rest.0));
      } else {
        assert subs == rest.0;
      }
    }
  }

  /** A resolved tree has at most as many nodes as the table has recipe names, so its
      depth is bounded by that number too, however the recipes refer to each other. */
  lemma TreeSizeBound(name: string, rows: seq<Row>, used: set<string>, r: Recipe)
    requires Resolve(name, rows, used).0 == Some(r)
    ensures |TreeNames(r)| <= |RecipeNames(rows)|
  {
    ResolveTreeNames(name, rows, used, r);
    NoDuplicatesCard(TreeNames(r));
    SubsetCard(Elements(TreeNames(r)), RecipeNames(rows));
  }

  /** Every node that `findRecipeByName` builds is well formed. */
  lemma {:induction false} ResolveWellFormed(name: string, rows: seq<Row>, used: set<string>, r: Recipe)
    requires Resolve(name, rows, used).0 == Some(r)
    ensures WellFormed(r)
    decreases |RecipeNames(rows) - used|, 0
  {
    var used1 := used + {name};
    var materials := Tally(MaterialsOf(Matching(rows, name)));
    assert RecipeNames(rows) - used == (RecipeNames(rows) - used1) + {name};
    TallyKeys(MaterialsOf(Matching(rows, name)));
    ResolveEachWellFormed(materials, rows, used1);
    ResolveEachOrder(materials, rows, used1);
    assert r.materials == materials;
    assert r.subRecipes == ResolveEach(materials, rows, used1).0;
  }

  /** Every node returned for a list of siblings is well formed. */
  lemma {:induction false} ResolveEachWellFormed(mats: seq<Material>, rows: seq<Row>, used: set<string>)
    ensures forall i :: 0 <= i < |ResolveEach(mats, rows, used).0| ==> WellFormed(ResolveEach(mats, rows, used).0[i])
    decreases |RecipeNames(rows) - used|, |mats|
  {
    if mats != [] {
      var first := Resolve(mats[0].name, rows, used);
      SubsetCard(RecipeNames(rows) - first.1, RecipeNames(rows) - used);
      ResolveEachWellFormed(mats[1..], rows, first.1);
      var rest := ResolveEach(mats[1..], rows, first.1);
      var subs := ResolveEach(mats, rows, used).0;
      if first.0.Some? {
        ResolveWellFormed(mats[0].name, rows, used, first.0.value);
        assert subs == [first.0.value] + rest.0;
        AllCons(WellFormed, first.0.value, rest.0);
      } else {
        assert subs == rest.0;
      }
    }
  }

  /** The totals of a list of sub-recipes are positive when each sub-recipe's are. */
  lemma {:induction false} SubTotalsPositive(subs: seq<Recipe>)
    requires forall i :: 0 <= i < |subs| ==> Positive(Totals(subs[i]))
    ensures Positive(SubTotals(subs))
  {
    if subs != [] {
      SubTotalsPositive(subs[..|subs| - 1]);
      var a, b := SubTotals(subs[..|subs| - 1]), Totals(subs[|subs| - 1]);
      assert forall k :: |a| <= k < |a + b| ==> (a + b)[k] == b[k - |a|];
    }
  }

  /** The rows of a recipe ask for positive quantities when all rows do. */
  lemma MatchingPositive(rows: seq<Row>, name: string)
    requires PositiveRows(rows)
    ensures Positive(MaterialsOf(Matching(rows, name)))
  {
    var matching := Matching(rows, name);
    MatchingSound(rows, name);
    forall k | 0 <= k < |matching| ensures MaterialsOf(matching)[k].quantity >= 1 {
      assert matching[k] in multiset(rows);
      var j :| 0 <= j < |rows| && rows[j] == matching[k];
    }
  }

  /** A node's totals are positive when its direct materials and its well-formed
      sub-recipes are. */
  lemma NodeTotalsPositive(materials: seq<Material>, subs: seq<Recipe>)
    requires Positive(materials)
    requires forall i :: 0 <= i < |subs| ==> WellFormed(subs[i]) && PositiveTree(subs[i])
    ensures Positive(Tally(materials + SubTotals(subs)))
  {
    SubTotalsPositive(subs);
    var all := materials + SubTotals(subs);
    assert forall k :: |materials| <= k < |all| ==> all[k] == SubTotals(subs)[k - |materials|];
    TallyPositive(all);
  }

  /** With rows that each ask for at least one unit, every quantity in a resolved
      tree, direct or total, is at least one. */
  lemma {:induction false} ResolvePositive(name: string, rows: seq<Row>, used: set<string>, r: Recipe)
    requires PositiveRows(rows)
    requires Resolve(name, rows, used).0 == Some(r)
    ensures PositiveTree(r)
    decreases |RecipeNames(rows) - used|, 0
  {
    var used1 := used + {name};
    var materials := Tally(MaterialsOf(Matching(rows, name)));
    assert RecipeNames(rows) - used == (RecipeNames(rows) - used1) + {name};
    var subs := ResolveEach(materials, rows, used1).0;
    ResolveEachPositive(materials, rows, used1);
    ResolveEachWellFormed(materials, rows, used1);
    MatchingPositive(rows, name);
    TallyPositive(MaterialsOf(Matching(rows, name)));
    NodeTotalsPositive(materials, subs);
    assert r.materials == materials && r.subRecipes == subs;
  }

  /** Every node returned for a list of siblings is positive when the rows are. */
  lemma {:induction false} ResolveEachPositive(mats: seq<Material>, rows: seq<Row>, used: set<string>)
    requires PositiveRows(rows)
    ensures forall i :: 0 <= i < |ResolveEach(mats, rows, used).0| ==> PositiveTree(ResolveEach(mats, rows, used).0[i])
    decreases |RecipeNames(rows) - used|, |mats|
  {
    if mats != [] {
      var first := Resolve(mats[0].name, rows, used);
      SubsetCard(RecipeNames(rows) - first.1, RecipeNames(rows) - used);
      ResolveEachPositive(mats[1..], rows, first.1);
      var rest := ResolveEach(mats[1..], rows, first.1);
      var subs := ResolveEach(mats, rows, used).0;
      if first.0.Some? {
        ResolvePositive(mats[0].name, rows, used, first.0.value);
        assert subs == [first.0.value] + rest.0;
        AllCons(PositiveTree, first.0.value, rest.0);
      } else {
        assert subs == rest.0;
      }
    }
  }

  /** `calculateTotalMaterials` as a keyed sum: one entry per distinct name among the
      node's direct materials and its sub-recipes' totals, holding the direct quantity
      plus the quantities below, in first-seen order over the direct materials
      followed by the sub-recipes' totals. Direct entries are not replaced by their
      expansion: with distinct direct materials they come first, in their own order. */
  lemma TotalsLaw(r: Recipe)
    ensures NoDuplicates(Keys(Totals(r)))
    ensures Elements(Keys(Totals(r))) == Elements(Keys(r.materials)) + Elements(Keys(SubTotals(r.subRecipes)))
    ensures forall n :: GetOrZero(Totals(r), n) == SumOf(r.materials, n) + SumOf(SubTotals(r.subRecipes), n)
    ensures OrderedBy(Keys(r.materials + SubTotals(r.subRecipes)), Keys(Totals(r)))
    ensures NoDuplicates(Keys(r.materials)) ==> Keys(r.materials) <= Keys(Totals(r))
  {
    var below := SubTotals(r.subRecipes);
    var all := r.materials + below;
    TallyLaw(all);
    assert Keys(all) == Keys(r.materials) + Keys(below);
    forall n ensures SumOf(all, n) == SumOf(r.materials, n) + SumOf(below, n) {
      SumOfConcat(r.materials, below, n);
    }
    TallyPrefix(r.materials, below);
    if NoDuplicates(Keys(r.materials)) {
      TallyOfDistinct(r.materials);
    }
  }

  /** The quantity of `n` that the direct materials of every node of the tree list,
      summed over all nesting levels. */
  function TreeSum(r: Recipe, n: string): int
    decreases r
  {
    SumOf(r.materials, n) + ForestSum(r.subRecipes, n)
  }

  /** `TreeSum` over a list of trees. */
  function ForestSum(subs: seq<Recipe>, n: string): int
    decreases subs
  {
    if subs == [] then 0 else ForestSum(subs[..|subs| - 1], n) + TreeSum(subs[|subs| - 1], n)
  }

  /** `calculateTotalMaterials` flattens the whole tree: the total stored under a name
      is the sum of that name's direct quantities over every node, at every level. */
  lemma {:induction false} TotalsTreeSum(r: Recipe, n: string)
    ensures GetOrZero(Totals(r), n) == TreeSum(r, n)
    decreases r, 1
  {
    TallySums(r.materials + SubTotals(r.subRecipes));
    SumOfConcat(r.materials, SubTotals(r.subRecipes), n);
    SubTotalsForestSum(r.subRecipes, n);
  }

  /** The concatenated totals of a list of trees list `n` as often as the trees' nodes do. */
  lemma {:induction false} SubTotalsForestSum(subs: seq<Recipe>, n: string)
    ensures SumOf(SubTotals(subs), n) == ForestSum(subs, n)
    decreases subs, 0
  {
    if subs != [] {
      var p, t := subs[..|subs| - 1], subs[|subs| - 1];
      SubTotalsForestSum(p, n);
      SumOfConcat(SubTotals(p), Totals(t), n);
      TotalsTreeSum(t, n);
      var all := t.materials + SubTotals(t.subRecipes);
      TallyKeys(all);
      TallyOfDistinct(Tally(all));
      TallySums(Tally(all));
    }
  }

  /** In a node with distinct direct materials and positive totals below, the totals
      begin with the direct materials, in order, each with at least its direct
      quantity. */
  lemma TotalsCoverDirect(r: Recipe)
    requires NoDuplicates(Keys(r.materials))
    requires Positive(SubTotals(r.subRecipes))
    ensures |r.materials| <= |Totals(r)|
    ensures forall i :: 0 <= i < |r.materials| ==>
      Totals(r)[i].name == r.materials[i].name && Totals(r)[i].quantity >= r.materials[i].quantity
  {
    TotalsLaw(r);
    TallyOfDistinct(r.materials);
    TallyLaw(r.materials);
    var t := Totals(r);
    forall i | 0 <= i < |r.materials|
      ensures t[i].name == r.materials[i].name && t[i].quantity >= r.materials[i].quantity
    {
      assert Keys(r.materials)[i] == Keys(t)[i];
      IndexOfDistinct(Keys(t), i);
      SumOfPositive(SubTotals(r.subRecipes), r.materials[i].name);
      assert GetOrZero(t, t[i].name) == t[i].quantity;
    }
  }

  /** For a resolved tree over rows that each ask for at least one unit, the root's
      stored totals begin with its direct materials, each with at least its direct
      quantity. */
  lemma ResolvedTotalsCoverDirect(name: string, rows: seq<Row>, used: set<string>, r: Recipe)
    requires PositiveRows(rows)
    requires Resolve(name, rows, used).0 == Some(r)
    ensures |r.materials| <= |r.totalMaterials|
    ensures forall i :: 0 <= i < |r.materials| ==>
      r.totalMaterials[i].name == r.materials[i].name && r.totalMaterials[i].quantity >= r.materials[i].quantity
  {
    ResolveWellFormed(name, rows, used, r);
    ResolvePositive(name, rows, used, r);
    forall i | 0 <= i < |r.subRecipes| ensures Positive(Totals(r.subRecipes[i])) {
      assert WellFormed(r.subRecipes[i]) && PositiveTree(r.subRecipes[i]);
    }
    SubTotalsPositive(r.subRecipes);
    TotalsCoverDirect(r);
  }

  /** Every material of every node of `r` that is a recipe name is in `visited`. */
  predicate ExpandedWithin(r: Recipe, rows: seq<Row>, visited: set<string>)
    decreases r
  {
    && (forall k :: 0 <= k < |r.materials| && r.materials[k].name in RecipeNames(rows) ==>
          r.materials[k].name in visited)
    && (forall i :: 0 <= i < |r.subRecipes| ==> ExpandedWithin(r.subRecipes[i], rows, visited))
  }

  lemma {:induction false} ExpandedWithinGrows(r: Recipe, rows: seq<Row>, a: set<string>, b: set<string>)
    requires a <= b && ExpandedWithin(r, rows, a)
    ensures ExpandedWithin(r, rows, b)
    decreases r
  {
    forall i | 0 <= i < |r.subRecipes| ensures ExpandedWithin(r.subRecipes[i], rows, b) {
      ExpandedWithinGrows(r.subRecipes[i], rows, a, b);
    }
  }

  /** Every material of the resolved tree that is a recipe name has been visited by
      the end of the call that built the tree. */
  lemma {:induction false} ResolveExpands(name: string, rows: seq<Row>, used: set<string>, r: Recipe)
    requires Resolve(name, rows, used).0 == Some(r)
    ensures ExpandedWithin(r, rows, Resolve(name, rows, used).1)
    decreases |RecipeNames(rows) - used|, 0
  {
    var used1 := used + {name};
    var materials := Tally(MaterialsOf(Matching(rows, name)));
    assert RecipeNames(rows) - used == (RecipeNames(rows) - used1) + {name};
    ResolveEachExpands(materials, rows, used1);
    ResolveEachVisits(materials, rows, used1);
    assert r.materials == materials && r.subRecipes == ResolveEach(materials, rows, used1).0;
  }

  lemma {:induction false} ResolveEachExpands(mats: seq<Material>, rows: seq<Row>, used: set<string>)
    ensures forall i :: 0 <= i < |ResolveEach(mats, rows, used).0| ==>
      ExpandedWithin(ResolveEach(mats, rows, used).0[i], rows, ResolveEach(mats, rows, used).1)
    decreases |RecipeNames(rows) - used|, |mats|
  {
    if mats != [] {
      var first := Resolve(mats[0].name, rows, used);
      SubsetCard(RecipeNames(rows) - first.1, RecipeNames(rows) - used);
      ResolveEachExpands(mats[1..], rows, first.1);
      var rest := ResolveEach(mats[1..], rows, first.1);
      var subs := ResolveEach(mats, rows, used).0;
      if first.0.Some? {
        ResolveExpands(mats[0].name, rows, used, first.0.value);
        ExpandedWithinGrows(first.0.value, rows, first.1, rest.1);
        assert subs == [first.0.value] + rest.0;
        AllCons((t: Recipe) => ExpandedWithin(t, rows, rest.1), first.0.value, rest.0);
      } else {
        assert subs == rest.0;
      }
    }
  }

  /** A top-level resolution, with its fresh empty set, expands each recipe it meets
      exactly once: every material of every node that is a recipe name is the name
      of one node of the tree, and no two nodes share a name. */
  lemma TopLevelTree(name: string, rows: seq<Row>, r: Recipe)
    requires Resolve(name, rows, {}).0 == Some(r)
    ensures NoDuplicates(TreeNames(r))
    ensures ExpandedWithin(r, rows, Elements(TreeNames(r)))
    ensures |TreeNames(r)| <= |RecipeNames(rows)|
  {
    ResolveTreeNames(name, rows, {}, r);
    ResolveExpands(name, rows, {}, r);
    assert Resolve(name, rows, {}).1 - {} == Resolve(name, rows, {}).1;
    TreeSizeBound(name, rows, {}, r);
  }

  /** Every tree of a forest has its names among the forest's names. */
  lemma {:induction false} ForestContains(subs: seq<Recipe>, k: nat)
    requires k < |subs|
    ensures Elements(TreeNames(subs[k])) <= Elements(ForestNames(subs))
  {
    assert ForestNames(subs) == TreeNames(subs[0]) + ForestNames(subs[1..]);
    if k > 0 {
      ForestContains(subs[1..], k - 1);
      assert subs[1..][k - 1] == subs[k];
    }
  }

  /** In a forest whose names are distinct, two different trees share no name. */
  lemma {:induction false} ForestDisjoint(subs: seq<Recipe>, i: nat, j: nat)
    requires NoDuplicates(ForestNames(subs)) && i < j < |subs|
    ensures Elements(TreeNames(subs[i])) !! Elements(TreeNames(subs[j]))
  {
    assert ForestNames(subs) == TreeNames(subs[0]) + ForestNames(subs[1..]);
    NoDuplicatesSplit(TreeNames(subs[0]), ForestNames(subs[1..]));
    assert subs[1..][j - 1] == subs[j];
    if i == 0 {
      ForestContains(subs[1..], j - 1);
    } else {
      assert subs[1..][i - 1] == subs[i];
      ForestDisjoint(subs[1..], i - 1, j - 1);
    }
  }

  /** Sub-recipes share nothing: a recipe needed by two siblings, directly or
      further down, is expanded under the first sibling that reaches it and under
      no later one, and no sibling's tree contains the node it hangs from. */
  lemma SiblingsShareNothing(name: string, rows: seq<Row>, used: set<string>, r: Recipe, i: nat, j: nat)
    requires Resolve(name, rows, used).0 == Some(r)
    requires i < j < |r.subRecipes|
    ensures Elements(TreeNames(r.subRecipes[i])) !! Elements(TreeNames(r.subRecipes[j]))
    ensures r.name !in TreeNames(r.subRecipes[i]) && r.name !in TreeNames(r.subRecipes[j])
  {
    ResolveTreeNames(name, rows, used, r);
    NoDuplicatesSplit([r.name], ForestNames(r.subRecipes));
    ForestDisjoint(r.subRecipes, i, j);
    ForestContains(r.subRecipes, i);
    ForestContains(r.subRecipes, j);
    assert r.name in Elements([r.name]);
  }
}
