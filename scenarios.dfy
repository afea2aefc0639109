/** Small recipe tables worked through the model: the merge of repeated rows, a leaf
    recipe, and a cycle. */
module Scenarios {
  import opened Sequences
  import opened Tallies
  import opened Recipes

  /** Two rows of the same material merge into one entry holding their sum. */
  lemma MergeRepeatedRows()
    ensures Tally([Material("Herb", 2), Material("Herb", 3)]) == [Material("Herb", 5)]
  {
  }

  /** A recipe whose materials have no rows of their own is a leaf: its totals are its
      own materials, and an empty category reads as "default". */
  lemma LeafRecipe()
    ensures Resolve("Potion", [Row("Potion", "", "100", 10, "Herb", 2)], {}) ==
      (Some(Recipe("default", "Potion", "100", 10, [Material("Herb", 2)], [Material("Herb", 2)], [])), {"Potion"})
  {
    var rows := [Row("Potion", "", "100", 10, "Herb", 2)];
    var herb := [Material("Herb", 2)];
    assert RowNames(rows) == ["Potion"];
    assert RecipeNames(rows) == {"Potion"};
    assert Matching(rows, "Potion") == rows;
    assert MaterialsOf(rows) == herb;
    assert Tally(herb) == herb;
    assert Resolve("Herb", rows, {"Potion"}) == (None, {"Potion"});
    assert ResolveEach(herb, rows, {"Potion"}) == ([], {"Potion"});
    var node := Recipe("default", "Potion", "100", 10, herb, [], []);
    assert node.materials + SubTotals(node.subRecipes) == herb;
    assert Totals(node) == herb;
    var res := Resolve("Potion", rows, {});
    assert res.1 == {"Potion"};
    assert res.0.Some?;
    assert res.0.value.materials == herb;
    assert res.0.value.subRecipes == [];
    assert res.0.value.totalMaterials == herb;
    assert res.0.value.category == "default";
  }

  /** Resolving a single material. */
  lemma ResolveOne(m: Material, rows: seq<Row>, used: set<string>)
    ensures ResolveEach([m], rows, used) ==
      (if Resolve(m.name, rows, used).0.Some? then [Resolve(m.name, rows, used).0.value] else [],
       Resolve(m.name, rows, used).1)
  {
    var first := Resolve(m.name, rows, used);
    assert [m][0] == m && [m][1..] == [];
    assert ResolveEach([], rows, first.1) == ([], first.1);
    assert (if first.0.Some? then [first.0.value] else []) + [] == if first.0.Some? then [first.0.value] else [];
  }

  /** One step of `Resolve` for a name that is not yet visited and has rows, with its
      parts named: the first row, the merged materials and the siblings' result. */
  lemma ResolveFound(name: string, rows: seq<Row>, used: set<string>, first: Row,
                     materials: seq<Material>, subs: seq<Recipe>, used': set<string>)
    requires name !in used && Matching(rows, name) != [] && Matching(rows, name)[0] == first
    requires materials == Tally(MaterialsOf(Matching(rows, name)))
    requires ResolveEach(materials, rows, used + {name}) == (subs, used')
    ensures Resolve(name, rows, used) ==
      (Some(Recipe(if first.category == "" then "default" else first.category, first.name, first.price,
                   first.cost, materials,
                   Totals(Recipe(first.category, first.name, first.price, first.cost, materials, [], subs)),
                   subs)),
       used')
  {
  }

  /** Two recipes that need each other. */
  const CycleTable := [Row("A", "c", "1", 1, "B", 1), Row("B", "c", "2", 2, "A", 1)]

  /** The names and row groups of `CycleTable`. */
  lemma CycleTableFacts()
    ensures RecipeNames(CycleTable) == {"A", "B"}
    ensures Matching(CycleTable, "A") == [CycleTable[0]] && Matching(CycleTable, "B") == [CycleTable[1]]
    ensures MaterialsOf([CycleTable[0]]) == [Material("B", 1)] && MaterialsOf([CycleTable[1]]) == [Material("A", 1)]
  {
    assert RowNames(CycleTable) == ["A", "B"];
  }

  /** Resolved after "A", recipe "B" finds "A" in the set and gets no sub-recipes. */
  lemma CycleInner()
    ensures Resolve("B", CycleTable, {"A"}) ==
      (Some(Recipe("c", "B", "2", 2, [Material("A", 1)], [Material("A", 1)], [])), {"A", "B"})
  {
    CycleTableFacts();
    var a := [Material("A", 1)];
    assert Tally(a) == a;
    assert {"A"} + {"B"} == {"A", "B"};
    ResolveOne(Material("A", 1), CycleTable, {"A", "B"});
    var node := Recipe("c", "B", "2", 2, a, [], []);
    assert node.materials + SubTotals(node.subRecipes) == a;
    assert Totals(node) == a;
  }

  /** Tallying two different names keeps both, in order. */
  lemma TallyTwo(x: Material, y: Material)
    requires x.name != y.name
    ensures Tally([x, y]) == [x, y]
  {
    assert [x, y][..1] == [x];
    assert Tally([x]) == [x];
  }

  /** The siblings of "A": "B" alone, resolved after "A" joined the set. */
  lemma CycleSiblings()
    ensures ResolveEach([Material("B", 1)], CycleTable, {"A"}) ==
      ([Recipe("c", "B", "2", 2, [Material("A", 1)], [Material("A", 1)], [])], {"A", "B"})
  {
    CycleInner();
    ResolveOne(Material("B", 1), CycleTable, {"A"});
  }

  /** The totals of the root of the cycle: its own material "B", then what "B"
      needs, "A". */
  lemma CycleRootTotals()
    ensures Totals(Recipe("c", "A", "1", 1, [Material("B", 1)], [],
                          [Recipe("c", "B", "2", 2, [Material("A", 1)], [Material("A", 1)], [])]))
         == [Material("B", 1), Material("A", 1)]
  {
    var a, b := [Material("A", 1)], [Material("B", 1)];
    var treeB := Recipe("c", "B", "2", 2, a, a, []);
    assert Tally(a) == a;
    assert SubTotals([treeB]) == Totals(treeB) == a;
    TallyTwo(Material("B", 1), Material("A", 1));
    assert b + a == [Material("B", 1), Material("A", 1)];
  }

  /** The parts of the root of the cycle: its first row, its merged materials, and
      its one sub-recipe, resolved after "A" joined the set. */
  lemma CycleRootParts()
    ensures Matching(CycleTable, "A") != [] && Matching(CycleTable, "A")[0] == CycleTable[0]
    ensures Tally(MaterialsOf(Matching(CycleTable, "A"))) == [Material("B", 1)]
    ensures ResolveEach([Material("B", 1)], CycleTable, {} + {"A"}) ==
      ([Recipe("c", "B", "2", 2, [Material("A", 1)], [Material("A", 1)], [])], {"A", "B"})
  {
    CycleTableFacts();
    CycleSiblings();
    var b := [Material("B", 1)];
    assert Tally(b) == b;
    var none: set<string> := {};
    assert none + {"A"} == {"A"};
  }

  /** The cycle stops after one turn: the tree is finite, and the root's totals list
      each material once. */
  lemma CycleStops()
    ensures Resolve("A", CycleTable, {}) ==
      (Some(Recipe("c", "A", "1", 1, [Material("B", 1)], [Material("B", 1), Material("A", 1)],
                   [Recipe("c", "B", "2", 2, [Material("A", 1)], [Material("A", 1)], [])])),
       {"A", "B"})
  {
    CycleRootParts();
    CycleRootTotals();
    ResolveFound("A", CycleTable, {}, CycleTable[0], [Material("B", 1)],
                 [Recipe("c", "B", "2", 2, [Material("A", 1)], [Material("A", 1)], [])], {"A", "B"});
  }
}
