# Recipe resolution engine of atelier-cookpad, in Dafny

atelier-cookpad lists crafting recipes from a flat table of ingredient rows.
Each row reads: recipe `name` (with its `category`, `price` and `cost`) needs `quantity` of
`material`. The page turns the table into one tree per recipe:

- `findRecipeByName` merges a recipe's rows into one entry per material, in an
  insertion-ordered `Map`. It copies the header from the first row and resolves
  every material that is itself a recipe into a sub-tree.
- It stops on names already in a `usedRecipes` set. One top-level call creates that
  set, and every recursive call, siblings included, adds to it.
- `calculateTotalMaterials` flattens a node: its direct materials plus the totals of
  its sub-recipes, summed per name in first-seen order.
- The page filters the rows by a kana-insensitive name search (`normalizeKana`) and a
  category. It keeps each name once and resolves it with a fresh set, dropping the
  `null` results.

The project has these modules:

- `Sequences`: JavaScript's `indexOf`, duplicate-free sequences, ordered selections,
  element sets.
- `Tallies`: a `Map<string, number>` as the sequence of its entries.
  - `Put` is `map.set`: an existing key keeps its place, a new one is appended.
  - `GetOrZero` is `map.get(k) || 0`.
  - `Tally` is the accumulation loop run over a list.
  - It contains the keyed-sum laws.
- `Recipes`: the rows and nodes, and the specification functions.
  - `Resolve` is `findRecipeByName`. It takes the visited set as it is before the call
    and returns it as it is after.
  - `ResolveEach` is the `map`/`filter` over the siblings.
  - `Totals` is `calculateTotalMaterials`.
- `Engine`: the source's loops as methods, each proved to compute the function that
  specifies it.
  - `VisitedSet` is the mutable `Set` shared by all calls.
  - `MergeMaterials`, `AddEach` and `CalculateTotalMaterials` are the `Map`-filling
    `forEach` loops.
  - `FindRecipeByName` and `FindSubRecipes` are the mutually recursive resolution,
    with the `recipe` object updated after it is built.
- `ResolutionLaws`: what the trees satisfy.
  - Merge law and header fields.
  - Sub-recipes follow the materials' order.
  - No name appears twice in one tree, and tree size is bounded by the number of
    recipes.
  - Totals are keyed sums that begin with the direct materials.
  - Positivity is kept.
  - Siblings share nothing.
- `Kana`: `normalizeKana` and `includes`.
- `Listing`: the `filteredRecipes` chain that decides which trees the page lists.
- `Scenarios`: small tables worked through: two rows of one material, a leaf recipe,
  and the cycle A→B, B→A.

Termination is part of the model. `Resolve` and `ResolveEach` decrease the number of
table names not yet visited. That count is the measure that makes the recursion stop
on a cyclic table.

Two points of the code shape what the model states:

- The visited set is not scoped to a path. The code creates one set per top-level
  call (line 68), adds to it (line 75), hands the same set to every sibling call
  (line 96) and never removes from it.
  - So within one top-level tree, every recipe is expanded at most once across the
    whole tree (`ResolveTreeNames`).
  - An intermediate needed by two siblings is expanded only under the first one
    (`SiblingsShareNothing`).
  - The later sibling keeps its entry in `materials`, and the root's totals do not
    count the part below the repeated intermediate a second time.
- The code re-filters the whole table on every call (line 72), and `Matching` does
  the same.

## Model

| member | source | states |
|---|---|---|
| Sequences.IndexOf | pages/index.tsx:138 | `indexOf` gives the first position of the value, or -1 exactly when it is absent |
| Recipes.Matching | pages/index.tsx:72-73 | the filtered rows are empty exactly when no row has the name, and otherwise start with the table's first row of that name |
| Recipes.Resolve | pages/index.tsx:64-104 | `null` exactly when the name is already visited or has no rows, leaving the set unchanged; otherwise the node carries the name and the price and cost of the first row, its category is that row's category or "default" when empty, the name is added, and the set only grows within the table's names |
| Recipes.ResolveEach | pages/index.tsx:95-97 | resolving the siblings only grows the shared set, within the table's names, and yields at most one node per material |
| Engine.VisitedSet.constructor | pages/index.tsx:68 | the default `new Set()` is empty |
| Engine.VisitedSet.Add | pages/index.tsx:75 | `usedRecipes.add(name)` adds exactly that name |
| Engine.MergeMaterials | pages/index.tsx:77-81 | the `forEach` that fills `materialMap` leaves the keyed sum (`Tally`) of the recipe's rows |
| Engine.AddEach | pages/index.tsx:46-48 | the `totalMap.set(..., (get || 0) + quantity)` loop turns the keyed sum of `before` into that of `before + ms` |
| Engine.CalculateTotalMaterials | pages/index.tsx:43-61 | the nested loops leave exactly `Totals(recipe)`: the keyed sum of the direct materials followed by every sub-recipe's recursive totals |
| Engine.FindRecipeByName | pages/index.tsx:64-104 | the imperative resolution, with the shared set mutated in place, returns the node `Resolve` gives and leaves the set as `Resolve` says |
| Engine.FindSubRecipes | pages/index.tsx:95-97 | `materials.map(findRecipeByName).filter(non-null)` with the shared set gives what `ResolveEach` gives, nodes and set |
| Engine.FindRecipe | pages/index.tsx:139 | a top-level call with a fresh set gives `Resolve(name, rows, {})` |
| Tallies.AddAllTally | pages/index.tsx:46-48 | adding the entries of `b` one by one into the keyed sum of `a` gives the keyed sum of `a + b` |
| Tallies.AddLaw | pages/index.tsx:79-80 | one `set(k, (get(k) || 0) + q)` keeps keys distinct and in place, appends a new key, and raises only that key's value by `q` |
| Tallies.TallyKeys | pages/index.tsx:77-81 | the merged map has one key per distinct material name and no other |
| Tallies.TallySums | pages/index.tsx:77-81 | every key holds the sum of that name's quantities |
| Tallies.TallyOrder | pages/index.tsx:77-81 | keys come in the order in which the input first mentions them |
| Tallies.TallyLaw | pages/index.tsx:44-60 | the keyed-sum law: distinct keys, exactly the input's names, each entry the sum of its name's quantities, in first-seen order |
| Tallies.TallyOfDistinct | pages/index.tsx:44-60 | merging a list whose names are already distinct returns it unchanged |
| Tallies.TallyPrefix | pages/index.tsx:44-55 | adding more entries never moves or removes a key already in the map |
| Tallies.TallyPositive | pages/index.tsx:77-81 | positive quantities merge to positive quantities |
| ResolutionLaws.MatchingSound | pages/index.tsx:72 | the filter keeps only rows of the name, each taken from the table |
| ResolutionLaws.MatchingComplete | pages/index.tsx:72 | the filter keeps every row of the name |
| ResolutionLaws.MatchingQuantity | pages/index.tsx:78-81 | the merged rows sum each material to that recipe's row quantities of it |
| ResolutionLaws.MatchingMaterialNames | pages/index.tsx:78-81 | the recipe's rows mention exactly the recipe's materials |
| ResolutionLaws.ResolveMaterials | pages/index.tsx:77-91 | a node's `materials` has one entry per distinct material of its rows, holding the sum of those rows' quantities, in first-seen order |
| ResolutionLaws.ResolveEachVisits | pages/index.tsx:95-96 | after the siblings are resolved, every material that is a recipe name is in the shared set |
| ResolutionLaws.ResolveEachNames | pages/index.tsx:95-97 | every sub-recipe is named after one of the materials and was not visited before |
| ResolutionLaws.ResolveEachOrder | pages/index.tsx:95-97 | sub-recipes come in the order of their materials |
| ResolutionLaws.ResolveTreeNames | pages/index.tsx:70-96 | the names of a resolved tree are distinct, and are exactly the names the call added to the shared set |
| ResolutionLaws.ResolveEachTreeNames | pages/index.tsx:95-97 | the sibling trees' names are distinct, and are exactly the names added while resolving them |
| ResolutionLaws.TreeSizeBound | pages/index.tsx:70-75 | a resolved tree has at most as many nodes as the table has recipes, even for cyclic tables |
| ResolutionLaws.ResolveWellFormed | pages/index.tsx:83-99 | every node has distinct materials, ordered sub-recipes, and stored totals equal to `calculateTotalMaterials` |
| ResolutionLaws.ResolveEachWellFormed | pages/index.tsx:95-97 | every sibling node is well formed |
| ResolutionLaws.SubTotalsPositive | pages/index.tsx:50-55 | the sub-recipes' totals are positive when each one's are |
| ResolutionLaws.MatchingPositive | pages/index.tsx:72 | a recipe's rows are positive when the table's are |
| ResolutionLaws.NodeTotalsPositive | pages/index.tsx:43-61 | totals of positive direct materials and positive sub-trees are positive |
| ResolutionLaws.ResolvePositive | pages/index.tsx:77-99 | with positive rows, every direct and total quantity in the tree is at least one |
| ResolutionLaws.ResolveEachPositive | pages/index.tsx:95-97 | with positive rows, every sibling tree is positive |
| ResolutionLaws.TotalsLaw | pages/index.tsx:43-61 | the totals have one entry per distinct name among the direct materials and sub-totals, each the direct sum plus the sum below, in first-seen order, starting with the distinct direct materials |
| ResolutionLaws.TotalsTreeSum | pages/index.tsx:43-61 | the total stored under a name is the sum of that name's direct quantities over every node of the tree, at every nesting level |
| ResolutionLaws.SubTotalsForestSum | pages/index.tsx:50-55 | the sub-recipes' concatenated totals list each name as often as all nodes of those sub-trees do |
| ResolutionLaws.TotalsCoverDirect | pages/index.tsx:43-61 | with positive sub-totals, the totals begin with the direct materials, in order, each with at least its direct quantity |
| ResolutionLaws.ResolvedTotalsCoverDirect | pages/index.tsx:99 | for positive rows, a resolved node's `totalMaterials` begin with its direct materials, each with at least its direct quantity |
| ResolutionLaws.ExpandedWithinGrows | pages/index.tsx:75 | a tree expanded within a set stays so within any larger set |
| ResolutionLaws.ResolveExpands | pages/index.tsx:70-97 | every material of the tree that is a recipe name is in the set when the call returns |
| ResolutionLaws.ResolveEachExpands | pages/index.tsx:95-97 | the same for every sibling tree |
| ResolutionLaws.TopLevelTree | pages/index.tsx:68-97 | a top-level tree expands each recipe it meets exactly once: distinct node names, every recipe material among them, size bounded by the number of recipes |
| ResolutionLaws.ForestContains | pages/index.tsx:95-97 | each sibling tree's names are among its siblings' names |
| ResolutionLaws.ForestDisjoint | pages/index.tsx:95-97 | two sibling trees of a duplicate-free forest share no name |
| ResolutionLaws.SiblingsShareNothing | pages/index.tsx:95-96 | two sub-trees of a resolved node share no recipe, and neither contains their parent |
| Kana.ShiftHiraganaToKatakana | pages/index.tsx:38 | a hiragana letter moves 0x60 up into the katakana range and out of the hiragana range |
| Kana.KeepKatakanaIdentity | pages/index.tsx:39 | the second `replace` changes nothing |
| Kana.NormalizeKanaShape | pages/index.tsx:35-40 | the length is kept, no A–Z or hiragana remains, A–Z are lowered by 32, hiragana move 0x60 up, and every other character is kept |
| Kana.NormalizeKanaIdempotent | pages/index.tsx:35-40 | normalising twice is normalising once |
| Kana.KanaInsensitive | pages/index.tsx:128 | hiragana and katakana spellings of a word normalise alike |
| Kana.IncludesTrivial | pages/index.tsx:128 | every text includes the empty text, so an empty search matches every name |
| Listing.ShownNamesMembers | pages/index.tsx:126-137 | a name is among the filtered names exactly when some row of that name passes both tests |
| Listing.ShownNamesAreRecipes | pages/index.tsx:126-137 | every filtered name has rows |
| Listing.FirstOccurrencesLaw | pages/index.tsx:138 | the `indexOf` filter over a prefix keeps its distinct elements once each, in first-occurrence order |
| Listing.DistinctLaw | pages/index.tsx:138 | the `indexOf` filter keeps every distinct name exactly once, in first-occurrence order |
| Listing.PresentAll | pages/index.tsx:140 | the `null` filter drops nothing when nothing is `null` |
| Listing.ResolveRootsAll | pages/index.tsx:139-140 | names with rows all resolve under a fresh set: one tree per name, in order, each `Resolve(name, rows, {})` |
| Listing.FilteredRecipesLaw | pages/index.tsx:125-140 | the page lists one tree for every recipe with a row passing the filter and no other, each once, in table order, each a fresh top-level resolution |
| Listing.EverythingListed | pages/index.tsx:125-140 | an empty search in category "all" lists every recipe of the table exactly once |
| Listing.ListedTrees | pages/index.tsx:139 | every listed tree is well formed, expands no recipe twice, and has at most as many nodes as there are recipes |
| Scenarios.MergeRepeatedRows | pages/index.tsx:77-81 | rows Herb:2 and Herb:3 merge to Herb:5 |
| Scenarios.LeafRecipe | pages/index.tsx:83-99 | a recipe of raw materials is a leaf whose totals are its materials, with an empty category read as "default" |
| Scenarios.CycleInner | pages/index.tsx:70 | recipe B resolved after A finds A visited and gets no sub-recipes |
| Scenarios.CycleSiblings | pages/index.tsx:95-97 | A's sub-recipes are the single tree for B |
| Scenarios.CycleRootTotals | pages/index.tsx:43-61 | the root of the cycle totals to B:1 then A:1 |
| Scenarios.CycleStops | pages/index.tsx:64-104 | with rows A→B:1 and B→A:1, resolving A stops after one turn: root totals [B:1, A:1], a B child with no sub-recipes, both names visited |

## Left out

- The `RecipeItem` component, the JSX, icons and the expand/collapse state are user interface only.
- Favorites persistence (`localStorage`, `toggleFavorite`) is browser storage. The favorites set is a parameter of `Listing.CategoryMatch`.
- The category tab list is presentation and is not modelled.
- React's `useMemo`/`useCallback` caching is not modelled. Each call is evaluated afresh, which gives the same values.
- The `recipes` dataset lives in a file that is not part of this model. The table is a parameter everywhere.
- Kana.LowerChar: `toLowerCase` is modelled on A–Z only. Every other character is its own lower case, although JavaScript also lowers other scripts.
- Strings are sequences of Unicode scalar values, not UTF-16 code units. Characters outside the Basic Multilingual Plane therefore count as one character, not two.
- `cost` and `quantity` are JavaScript numbers. The model uses unbounded integers, so fractions, `NaN` and floating-point rounding are not modelled.
- `|| 0` and `|| 'default'` are modelled for the values these fields hold: a stored number and a string category. A missing or `undefined` category is not modelled.
- `subRecipes` is optional in `CombinedRecipe`. It is a plain sequence here, because `findRecipeByName` always assigns it before the node is used.
- Nodes are values. The source's `recipe` object is updated twice after construction, as `Engine.FindRecipeByName` does, but no reference to it escapes before that. So aliasing is not modelled.
