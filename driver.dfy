/** The `filteredRecipes` chain of pages/index.tsx that decides which trees the page
    lists: rows whose normalised name includes the normalised filter text and whose
    category matches the selected one, reduced to their names, each name kept at its
    first occurrence, and each name resolved by a top-level `findRecipeByName` with a
    fresh set, the `null` results dropped. */
module Listing {
  import opened Sequences
  import opened Tallies
  import opened Recipes
  import opened Kana
  import opened ResolutionLaws

  /** `selectedCategory === 'all' ? true : selectedCategory === 'favorites' ?
      favorites.has(name) : category === selectedCategory`. */
  predicate CategoryMatch(row: Row, selectedCategory: string, favorites: set<string>) {
    if selectedCategory == "all" then true
    else if selectedCategory == "favorites" then row.name in favorites
    else row.category == selectedCategory
  }

  /** `normalizeKana(recipe.name).includes(normalizeKana(filterText))`. */
  predicate NameMatch(row: Row, filterText: string) {
    Includes(NormalizeKana(row.name), NormalizeKana(filterText))
  }

  /** The row passes both tests of the filter. */
  predicate Shown(row: Row, filterText: string, selectedCategory: string, favorites: set<string>) {
    NameMatch(row, filterText) && CategoryMatch(row, selectedCategory, favorites)
  }

  /** `.filter(...).map((recipe) => recipe.name)`: the names of the rows that pass,
      in table order, repeats included. */
  function ShownNames(rows: seq<Row>, filterText: string, selectedCategory: string, favorites: set<string>): seq<string> {
    if rows == [] then []
    else (if Shown(rows[0], filterText, selectedCategory, favorites) then [rows[0].name] else [])
         + ShownNames(rows[1..], filterText, selectedCategory, favorites)
  }

  /** `.filter((value, index, self) => self.indexOf(value) === index)` applied to the
      first `n` elements of `self`: an element is kept where it occurs first. */
  function FirstOccurrences(self: seq<string>, n: nat): seq<string>
    requires n <= |self|
  {
    if n == 0 then []
    else FirstOccurrences(self, n - 1) + (if IndexOf(self, self[n - 1]) == n - 1 then [self[n - 1]] else [])
  }

  /** The whole `indexOf` filter. */
  function Distinct(self: seq<string>): seq<string> {
    FirstOccurrences(self, |self|)
  }

  /** `.map((recipeName) => findRecipeByName(recipeName, recipes))`: every name is
      resolved on its own, with a fresh, empty set. */
  function Lookups(names: seq<string>, rows: seq<Row>): seq<Option<Recipe>> {
    seq(|names|, i requires 0 <= i < |names| => Resolve(names[i], rows, {}).0)
  }

  /** `.filter((r): r is CombinedRecipe => r !== null)`: the results that are not
      `null`, in order. */
  function Present(results: seq<Option<Recipe>>): seq<Recipe> {
    if results == [] then []
    else (if results[0].Some? then [results[0].value] else []) + Present(results[1..])
  }

  /** The `filteredRecipes` memo: the trees the page lists. */
  function FilteredRecipes(rows: seq<Row>, filterText: string, selectedCategory: string, favorites: set<string>): seq<Recipe> {
    Present(Lookups(Distinct(ShownNames(rows, filterText, selectedCategory, favorites)), rows))
  }

  /** A name is among the shown names exactly when some row of that name passes the
      filter. */
  lemma {:induction false} ShownNamesMembers(rows: seq<Row>, filterText: string, selectedCategory: string, favorites: set<string>, n: string)
    ensures n in ShownNames(rows, filterText, selectedCategory, favorites) <==>
      exists k :: 0 <= k < |rows| && rows[k].name == n && Shown(rows[k], filterText, selectedCategory, favorites)
  {
    if rows != [] {
      ShownNamesMembers(rows[1..], filterText, selectedCategory, favorites, n);
      if exists k :: 0 <= k < |rows| && rows[k].name == n && Shown(rows[k], filterText, selectedCategory, favorites) {
        var k :| 0 <= k < |rows| && rows[k].name == n && Shown(rows[k], filterText, selectedCategory, favorites);
        if k > 0 {
          assert rows[1..][k - 1] == rows[k];
        }
      }
      if exists k :: 0 <= k < |rows[1..]| && rows[1..][k].name == n && Shown(rows[1..][k], filterText, selectedCategory, favorites) {
        var k :| 0 <= k < |rows[1..]| && rows[1..][k].name == n && Shown(rows[1..][k], filterText, selectedCategory, favorites);
        assert rows[k + 1] == rows[1..][k];
      }
    }
  }

  /** Keeping first occurrences of a prefix keeps each of its distinct elements once,
      in the order of their first occurrences in `self`. */
  lemma {:induction false} FirstOccurrencesLaw(self: seq<string>, n: nat)
    requires n <= |self|
    ensures NoDuplicates(FirstOccurrences(self, n))
    ensures Elements(FirstOccurrences(self, n)) == Elements(self[..n])
    ensures OrderedBy(self, FirstOccurrences(self, n))
  {
    if n > 0 {
      FirstOccurrencesLaw(self, n - 1);
      var prev := FirstOccurrences(self, n - 1);
      var x := self[n - 1];
      assert self[..n] == self[..n - 1] + [x];
      assert Elements(self[..n]) == Elements(self[..n - 1]) + {x};
      if IndexOf(self, x) == n - 1 {
        forall k | 0 <= k < n - 1 ensures self[k] != x {
        }
        assert x !in Elements(self[..n - 1]);
        assert x !in Elements(prev);
        NoDuplicatesConcat(prev, [x]);
        forall i | 0 <= i < |prev| ensures IndexOf(self, prev[i]) < n - 1 {
          assert prev[i] in Elements(self[..n - 1]);
          var k :| 0 <= k < n - 1 && self[..n - 1][k] == prev[i];
          assert self[k] == prev[i];
        }
        assert (prev + [x])[|prev|] == x;
        assert forall i :: 0 <= i < |prev| ==> (prev + [x])[i] == prev[i];
      } else {
        assert IndexOf(self, x) < n - 1;
        assert self[IndexOf(self, x)] == x;
        assert self[..n - 1][IndexOf(self, x)] == x;
        assert x in Elements(self[..n - 1]);
        assert prev + [] == prev;
      }
    }
  }

  /** The `indexOf` filter keeps each distinct name exactly once, and in the order of
      first occurrence. */
  lemma DistinctLaw(self: seq<string>)
    ensures NoDuplicates(Distinct(self))
    ensures Elements(Distinct(self)) == Elements(self)
    ensures OrderedBy(self, Distinct(self))
    ensures |Distinct(self)| == |Elements(self)|
  {
    FirstOccurrencesLaw(self, |self|);
    assert self[..|self|] == self;
    NoDuplicatesCard(Distinct(self));
  }

  /** When no result is `null`, the filter drops nothing. */
  lemma {:induction false} PresentAll(results: seq<Option<Recipe>>)
    requires forall i :: 0 <= i < |results| ==> results[i].Some?
    ensures |Present(results)| == |results|
    ensures forall i :: 0 <= i < |results| ==> Present(results)[i] == results[i].value
  {
    if results != [] {
      PresentAll(results[1..]);
      assert Present(results) == [results[0].value] + Present(results[1..]);
      forall i | 1 <= i < |results| ensures Present(results)[i] == results[i].value {
        assert results[1..][i - 1] == results[i];
      }
    }
  }

  /** Names that have rows all resolve under a fresh set, so no `null` is dropped:
      there is one tree per name, in order, each the top-level tree of its name. */
  lemma ResolveRootsAll(names: seq<string>, rows: seq<Row>)
    requires forall i :: 0 <= i < |names| ==> names[i] in RecipeNames(rows)
    ensures |Present(Lookups(names, rows))| == |names|
    ensures forall i :: 0 <= i < |names| ==>
      Resolve(names[i], rows, {}).0 == Some(Present(Lookups(names, rows))[i])
    ensures Names(Present(Lookups(names, rows))) == names
  {
    var results := Lookups(names, rows);
    forall i | 0 <= i < |names| ensures results[i].Some? && results[i].value.name == names[i] {
      assert results[i] == Resolve(names[i], rows, {}).0;
    }
    PresentAll(results);
  }

  /** Every shown name is a recipe name. */
  lemma ShownNamesAreRecipes(rows: seq<Row>, filterText: string, selectedCategory: string, favorites: set<string>)
    ensures forall n :: n in ShownNames(rows, filterText, selectedCategory, favorites) ==> n in RecipeNames(rows)
  {
    forall n | n in ShownNames(rows, filterText, selectedCategory, favorites) ensures n in RecipeNames(rows) {
      ShownNamesMembers(rows, filterText, selectedCategory, favorites, n);
      var k :| 0 <= k < |rows| && rows[k].name == n && Shown(rows[k], filterText, selectedCategory, favorites);
      assert RowNames(rows)[k] == n;
    }
  }

  /** What the page lists: one tree for every recipe with a row that passes the
      filter and for no other, each recipe once, in the order in which the table
      first shows them, each the tree a fresh top-level `findRecipeByName` builds. */
  lemma FilteredRecipesLaw(rows: seq<Row>, filterText: string, selectedCategory: string, favorites: set<string>)
    ensures NoDuplicates(Names(FilteredRecipes(rows, filterText, selectedCategory, favorites)))
    ensures forall n :: n in Names(FilteredRecipes(rows, filterText, selectedCategory, favorites)) <==>
      exists k :: 0 <= k < |rows| && rows[k].name == n && Shown(rows[k], filterText, selectedCategory, favorites)
    ensures OrderedBy(ShownNames(rows, filterText, selectedCategory, favorites), Names(FilteredRecipes(rows, filterText, selectedCategory, favorites)))
    ensures forall i :: 0 <= i < |FilteredRecipes(rows, filterText, selectedCategory, favorites)| ==>
      Some(FilteredRecipes(rows, filterText, selectedCategory, favorites)[i])
        == Resolve(FilteredRecipes(rows, filterText, selectedCategory, favorites)[i].name, rows, {}).0
  {
    var shown := ShownNames(rows, filterText, selectedCategory, favorites);
    var names := Distinct(shown);
    DistinctLaw(shown);
    ShownNamesAreRecipes(rows, filterText, selectedCategory, favorites);
    forall i | 0 <= i < |names| ensures names[i] in RecipeNames(rows) {
      assert names[i] in Elements(names);
    }
    ResolveRootsAll(names, rows);
    forall n ensures n in names <==> n in shown {
      assert n in names <==> n in Elements(names);
    }
    forall n ensures n in shown <==>
      exists k :: 0 <= k < |rows| && rows[k].name == n && Shown(rows[k], filterText, selectedCategory, favorites)
    {
      ShownNamesMembers(rows, filterText, selectedCategory, favorites, n);
    }
    var roots := FilteredRecipes(rows, filterText, selectedCategory, favorites);
    forall i | 0 <= i < |roots| ensures Some(roots[i]) == Resolve(roots[i].name, rows, {}).0 {
      assert Names(roots)[i] == names[i];
    }
  }

  /** With an empty filter text and the category "all", every recipe of the table is
      listed exactly once. */
  lemma EverythingListed(rows: seq<Row>, favorites: set<string>)
    ensures NoDuplicates(Names(FilteredRecipes(rows, "", "all", favorites)))
    ensures Elements(Names(FilteredRecipes(rows, "", "all", favorites))) == RecipeNames(rows)
  {
    FilteredRecipesLaw(rows, "", "all", favorites);
    var listed := Names(FilteredRecipes(rows, "", "all", favorites));
    forall n | n in RecipeNames(rows) ensures n in Elements(listed) {
      var k :| 0 <= k < |RowNames(rows)| && RowNames(rows)[k] == n;
      IncludesTrivial(NormalizeKana(rows[k].name));
      assert NormalizeKana("") == "";
      assert Shown(rows[k], "", "all", favorites);
    }
    forall n | n in Elements(listed) ensures n in RecipeNames(rows) {
      var k :| 0 <= k < |rows| && rows[k].name == n && Shown(rows[k], "", "all", favorites);
      assert RowNames(rows)[k] == n;
    }
  }

  /** Every listed tree is a well-formed top-level tree: no recipe is expanded twice
      in it, every material that is a recipe name is one of its nodes, and it has at
      most as many nodes as the table has recipes. */
  lemma ListedTrees(rows: seq<Row>, filterText: string, selectedCategory: string, favorites: set<string>, i: nat)
    requires i < |FilteredRecipes(rows, filterText, selectedCategory, favorites)|
    ensures WellFormed(FilteredRecipes(rows, filterText, selectedCategory, favorites)[i])
    ensures NoDuplicates(TreeNames(FilteredRecipes(rows, filterText, selectedCategory, favorites)[i]))
    ensures ExpandedWithin(FilteredRecipes(rows, filterText, selectedCategory, favorites)[i], rows,
                           Elements(TreeNames(FilteredRecipes(rows, filterText, selectedCategory, favorites)[i])))
    ensures |TreeNames(FilteredRecipes(rows, filterText, selectedCategory, favorites)[i])| <= |RecipeNames(rows)|
  {
    FilteredRecipesLaw(rows, filterText, selectedCategory, favorites);
    var r := FilteredRecipes(rows, filterText, selectedCategory, favorites)[i];
    ResolveWellFormed(r.name, rows, {}, r);
    TopLevelTree(r.name, rows, r);
  }
}
