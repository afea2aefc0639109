/** The insertion-ordered `Map<string, number>` in which the recipe engine sums
    quantities by material name (`materialMap` in `findRecipeByName`, `totalMap` in
    `calculateTotalMaterials`), modelled as the sequence of its entries, together with
    the keyed-sum laws of adding a list of materials into such a map. */
module Tallies {
  import opened Sequences

  /** A material name with a quantity: one `Material` record, or one map entry. */
  datatype Material = Material(name: string, quantity: int)

  /** The keys of a map, in insertion order. */
  function Keys(m: seq<Material>): seq<string> {
    seq(|m|, i requires 0 <= i < |m| => m[i].name)
  }

  /** `map.get(key) || 0`: the value stored under `key`, or 0 when there is none. */
  function GetOrZero(m: seq<Material>, key: string): int {
    var i := IndexOf(Keys(m), key);
    if i < 0 then 0 else m[i].quantity
  }

  /** `map.set(key, value)`: a key already present keeps its position and takes the
      new value; a new key goes at the end. */
  function Put(m: seq<Material>, key: string, value: int): seq<Material> {
    var i := IndexOf(Keys(m), key);
    if i < 0 then m + [Material(key, value)] else m[i := Material(key, value)]
  }

  /** The body of every accumulation loop of the engine:
      `map.set(x.name, (map.get(x.name) || 0) + x.quantity)`. */
  function Add(m: seq<Material>, x: Material): seq<Material> {
    Put(m, x.name, GetOrZero(m, x.name) + x.quantity)
  }

  /** The map obtained by adding every entry of `ms`, in order, into an empty map,
      read back as `Array.from(map.entries())`. */
  function Tally(ms: seq<Material>): seq<Material> {
    if ms == [] then [] else Add(Tally(ms[..|ms| - 1]), ms[|ms| - 1])
  }

  /** Tallying one more entry is one more step of the accumulation loop. */
  lemma TallySnoc(ms: seq<Material>, x: Material)
    ensures Tally(ms + [x]) == Put(Tally(ms), x.name, GetOrZero(Tally(ms), x.name) + x.quantity)
  {
    assert (ms + [x])[..|ms|] == ms;
  }

  /** The map `m` after adding every entry of `ms`, first to last. */
  function AddAll(m: seq<Material>, ms: seq<Material>): seq<Material>
    decreases |ms|
  {
    if ms == [] then m else AddAll(Add(m, ms[0]), ms[1..])
  }

  lemma {:induction false} AddAllTally(a: seq<Material>, b: seq<Material>)
    ensures AddAll(Tally(a), b) == Tally(a + b)
    decreases |b|
  {
    if b == [] {
      assert a + b == a;
    } else {
      var a' := a + [b[0]];
      TallySnoc(a, b[0]);
      assert AddAll(Tally(a), b) == AddAll(Tally(a'), b[1..]);
      AddAllTally(a', b[1..]);
      assert a' + b[1..] == a + b;
    }
  }

  /** The total quantity that `ms` lists under `name` (0 when it lists none). */
  function SumOf(ms: seq<Material>, name: string): int {
    if ms == [] then 0
    else SumOf(ms[..|ms| - 1], name) + (if ms[|ms| - 1].name == name then ms[|ms| - 1].quantity else 0)
  }

  /** Every quantity is at least one. */
  predicate Positive(ms: seq<Material>) {
    forall i :: 0 <= i < |ms| ==> ms[i].quantity >= 1
  }

  /** Adding to a map whose keys are distinct keeps them distinct, leaves every key
      where it was, appends a new key at the end, and raises the value stored under
      that one key by the added quantity. */
  lemma AddLaw(m: seq<Material>, x: Material)
    requires NoDuplicates(Keys(m))
    ensures NoDuplicates(Keys(Add(m, x)))
    ensures Keys(Add(m, x)) == if x.name in Keys(m) then Keys(m) else Keys(m) + [x.name]
    ensures forall n :: GetOrZero(Add(m, x), n) == GetOrZero(m, n) + (if n == x.name then x.quantity else 0)
  {
    var r := Add(m, x);
    var i := IndexOf(Keys(m), x.name);
    if i < 0 {
      assert Keys(r) == Keys(m) + [x.name];
      forall n
        ensures GetOrZero(r, n) == GetOrZero(m, n) + (if n == x.name then x.quantity else 0)
      {
        IndexOfSnoc(Keys(m), x.name, n);
      }
    } else {
      assert Keys(r) == Keys(m);
    }
  }

  /** Tallying gives a map with one key per distinct name of `ms`, and no others. */
  lemma {:induction false} TallyKeys(ms: seq<Material>)
    ensures NoDuplicates(Keys(Tally(ms)))
    ensures Elements(Keys(Tally(ms))) == Elements(Keys(ms))
  {
    if ms != [] {
      var p, x := ms[..|ms| - 1], ms[|ms| - 1];
      var kp := Keys(Tally(p));
      TallyKeys(p);
      AddLaw(Tally(p), x);
      assert Keys(ms) == Keys(p) + [x.name];
      ElementsSnoc(Keys(p), x.name);
      if x.name in kp {
        assert x.name in Elements(kp);
      } else {
        ElementsSnoc(kp, x.name);
      }
    }
  }

  /** Tallying stores under every name the sum of that name's quantities. */
  lemma {:induction false} TallySums(ms: seq<Material>)
    ensures forall n :: GetOrZero(Tally(ms), n) == SumOf(ms, n)
  {
    if ms != [] {
      var p, x := ms[..|ms| - 1], ms[|ms| - 1];
      TallySums(p);
      TallyKeys(p);
      AddLaw(Tally(p), x);
    }
  }

  /** Tallying keeps names in the order in which `ms` first mentions them. */
  lemma {:induction false} TallyOrder(ms: seq<Material>)
    ensures OrderedBy(Keys(ms), Keys(Tally(ms)))
  {
    if ms != [] {
      var p, x := ms[..|ms| - 1], ms[|ms| - 1];
      var tp := Tally(p);
      TallyOrder(p);
      TallyKeys(p);
      AddLaw(tp, x);
      assert Keys(ms) == Keys(p) + [x.name];
      OrderedBySnoc(Keys(p), x.name, Keys(tp));
      if x.name !in Keys(tp) {
        assert x.name !in Elements(Keys(tp));
        assert x.name !in Elements(Keys(p));
      }
    }
  }

  /** The keyed-sum law: tallying `ms` gives one entry per distinct name of `ms`, each
      holding the sum of that name's quantities, in the order in which the names are
      first seen in `ms`. */
  lemma TallyLaw(ms: seq<Material>)
    ensures NoDuplicates(Keys(Tally(ms)))
    ensures Elements(Keys(Tally(ms))) == Elements(Keys(ms))
    ensures forall n :: GetOrZero(Tally(ms), n) == SumOf(ms, n)
    ensures forall i :: 0 <= i < |Tally(ms)| ==> Tally(ms)[i].quantity == SumOf(ms, Tally(ms)[i].name)
    ensures OrderedBy(Keys(ms), Keys(Tally(ms)))
  {
    var t := Tally(ms);
    TallyKeys(ms);
    TallySums(ms);
    TallyOrder(ms);
    forall i | 0 <= i < |t|
      ensures t[i].quantity == SumOf(ms, t[i].name)
    {
      assert Keys(t)[i] == t[i].name;
      IndexOfDistinct(Keys(t), i);
    }
  }

  /** Tallying a list whose names are already distinct returns it unchanged; in
      particular tallying a tally changes nothing. */
  lemma {:induction false} TallyOfDistinct(ms: seq<Material>)
    requires NoDuplicates(Keys(ms))
    ensures Tally(ms) == ms
  {
    if ms != [] {
      var p, x := ms[..|ms| - 1], ms[|ms| - 1];
      assert Keys(p) == Keys(ms)[..|ms| - 1];
      TallyOfDistinct(p);
      assert Keys(ms) == Keys(p) + [x.name];
      forall k | 0 <= k < |p| ensures Keys(p)[k] != x.name {
        assert Keys(p)[k] == Keys(ms)[k];
        assert Keys(ms)[|ms| - 1] == x.name;
      }
      assert ms == p + [x];
    }
  }

  /** Adding more entries never moves or removes a name already in the tally: the
      keys of `Tally(a)` are a prefix of the keys of `Tally(a + b)`. */
  lemma {:induction false} TallyPrefix(a: seq<Material>, b: seq<Material>)
    ensures Keys(Tally(a)) <= Keys(Tally(a + b))
  {
    if b == [] {
      assert a + b == a;
    } else {
      var b', y := b[..|b| - 1], b[|b| - 1];
      assert (a + b)[..|a + b| - 1] == a + b';
      assert (a + b)[|a + b| - 1] == y;
      TallyPrefix(a, b');
      TallyLaw(a + b');
      AddLaw(Tally(a + b'), y);
    }
  }

  /** Per-name sums add up over a concatenation. */
  lemma {:induction false} SumOfConcat(a: seq<Material>, b: seq<Material>, name: string)
    ensures SumOf(a + b, name) == SumOf(a, name) + SumOf(b, name)
  {
    if b == [] {
      assert a + b == a;
    } else {
      var b' := b[..|b| - 1];
      assert (a + b)[..|a + b| - 1] == a + b';
      assert (a + b)[|a + b| - 1] == b[|b| - 1];
      SumOfConcat(a, b', name);
    }
  }

  /** The sum over a list that starts with `x`. */
  lemma SumOfCons(x: Material, ms: seq<Material>, name: string)
    ensures SumOf([x] + ms, name) == (if x.name == name then x.quantity else 0) + SumOf(ms, name)
  {
    SumOfConcat([x], ms, name);
    assert [x][..0] == [];
  }

  /** Sums of positive quantities are at least zero, and at least one for a name
      that occurs. */
  lemma {:induction false} SumOfPositive(ms: seq<Material>, name: string)
    requires Positive(ms)
    ensures SumOf(ms, name) >= 0
    ensures name in Keys(ms) ==> SumOf(ms, name) >= 1
  {
    if ms != [] {
      var p := ms[..|ms| - 1];
      SumOfPositive(p, name);
      assert Keys(ms) == Keys(p) + [ms[|ms| - 1].name];
    }
  }

  /** Tallying positive quantities gives positive quantities. */
  lemma TallyPositive(ms: seq<Material>)
    requires Positive(ms)
    ensures Positive(Tally(ms))
  {
    TallyLaw(ms);
    forall i | 0 <= i < |Tally(ms)| ensures Tally(ms)[i].quantity >= 1 {
      assert Keys(Tally(ms))[i] in Elements(Keys(Tally(ms)));
      assert Tally(ms)[i].name in Elements(Keys(ms));
      SumOfPositive(ms, Tally(ms)[i].name);
    }
  }
}
