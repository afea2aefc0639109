/** Sequence facts the recipe model leans on: JavaScript's `Array.prototype.indexOf`,
    duplicate-free sequences, the set of elements of a sequence, and set sizes. */
module Sequences {

  /** `s.indexOf(x)`: the first position at which `x` occurs in `s`, or -1 when it
      does not occur at all. */
  function IndexOf<T(==)>(s: seq<T>, x: T): (i: int)
    ensures -1 <= i < |s|
    ensures i < 0 <==> x !in s
    ensures 0 <= i ==> s[i] == x && forall j :: 0 <= j < i ==> s[j] != x
  {
    if s == [] then -1
    else if s[0] == x then 0
    else
      var j := IndexOf(s[1..], x);
      assert forall k :: 1 <= k < |s| ==> s[k] == s[1..][k - 1];
      if j < 0 then -1 else j + 1
  }

  /** Appending an element leaves the first position of every earlier element alone,
      and puts a new element at the end. */
  lemma IndexOfSnoc<T>(s: seq<T>, y: T, x: T)
    ensures IndexOf(s + [y], x) == if x in s then IndexOf(s, x) else if x == y then |s| else -1
  {
    if x in s {
      var k := IndexOf(s, x);
      assert (s + [y])[k] == x;
    } else if x == y {
      assert (s + [y])[|s|] == x;
    } else {
      assert x !in s + [y];
    }
  }

  /** Putting an element in front shifts every other first position by one. */
  lemma IndexOfCons<T>(y: T, s: seq<T>, x: T)
    ensures IndexOf([y] + s, x) == if x == y then 0 else if x in s then 1 + IndexOf(s, x) else -1
  {
    assert ([y] + s)[1..] == s;
  }

  /** Concatenation is associative. */
  lemma ConcatAssoc<T>(a: seq<T>, b: seq<T>, c: seq<T>)
    ensures a + (b + c) == (a + b) + c
  {
  }

  /** A property of every element carries over to a sequence with one more element
      in front that has it too. */
  lemma AllCons<T>(P: T -> bool, x: T, s: seq<T>)
    requires P(x) && forall i :: 0 <= i < |s| ==> P(s[i])
    ensures forall i :: 0 <= i < |[x] + s| ==> P(([x] + s)[i])
  {
    forall i | 0 <= i < |[x] + s| ensures P(([x] + s)[i]) {
      if i > 0 {
        assert ([x] + s)[i] == s[i - 1];
      }
    }
  }

  /** No element occurs twice. */
  predicate NoDuplicates<T(==)>(s: seq<T>) {
    forall i, j :: 0 <= i < j < |s| ==> s[i] != s[j]
  }

  /** `s` lists elements of `order` in the order of their first positions in `order`,
      each at most once: an ordered selection from `order`. */
  predicate OrderedBy<T(==)>(order: seq<T>, s: seq<T>) {
    && (forall i :: 0 <= i < |s| ==> s[i] in order)
    && (forall i, j :: 0 <= i < j < |s| ==> IndexOf(order, s[i]) < IndexOf(order, s[j]))
  }

  /** An ordered selection stays one when a new element is put in front of `order`,
      whether or not the selection takes that element too. */
  lemma OrderedByCons<T>(y: T, order: seq<T>, s: seq<T>)
    requires y !in order && OrderedBy(order, s)
    ensures OrderedBy([y] + order, s) && OrderedBy([y] + order, [y] + s)
  {
    var o, t := [y] + order, [y] + s;
    forall i | 0 <= i < |s| ensures s[i] in o && IndexOf(o, s[i]) == 1 + IndexOf(order, s[i]) {
      IndexOfCons(y, order, s[i]);
    }
    IndexOfCons(y, order, y);
    forall i | 0 <= i < |t| ensures t[i] in o && (if i == 0 then IndexOf(o, t[i]) == 0 else t[i] == s[i - 1])
    {
    }
    forall i, j | 0 <= i < j < |t| ensures IndexOf(o, t[i]) < IndexOf(o, t[j]) {
      if i > 0 {
        assert IndexOf(order, s[i - 1]) < IndexOf(order, s[j - 1]);
      }
    }
  }

  /** An ordered selection stays one when a new element is appended to `order`, and
      may then take that element last. */
  lemma OrderedBySnoc<T>(order: seq<T>, y: T, s: seq<T>)
    requires OrderedBy(order, s)
    ensures OrderedBy(order + [y], s)
    ensures y !in order ==> OrderedBy(order + [y], s + [y])
  {
    var o := order + [y];
    forall i | 0 <= i < |s| ensures s[i] in o && IndexOf(o, s[i]) == IndexOf(order, s[i]) {
      IndexOfSnoc(order, y, s[i]);
    }
    if y !in order {
      var t := s + [y];
      IndexOfSnoc(order, y, y);
      forall i | 0 <= i < |t| ensures t[i] in o && (i < |s| ==> t[i] == s[i]) {
      }
      forall i, j | 0 <= i < j < |t| ensures IndexOf(o, t[i]) < IndexOf(o, t[j]) {
        if j < |s| {
          assert IndexOf(order, s[i]) < IndexOf(order, s[j]);
        }
      }
    }
  }

  /** The tail of a duplicate-free sequence is duplicate-free and lacks the head. */
  lemma NoDuplicatesTail<T>(s: seq<T>)
    requires NoDuplicates(s) && s != []
    ensures NoDuplicates(s[1..]) && s[0] !in s[1..]
  {
    assert forall k :: 0 <= k < |s| - 1 ==> s[1..][k] == s[k + 1];
  }

  /** The set of elements of a sequence. */
  function Elements<T>(s: seq<T>): set<T> {
    set x | x in s
  }

  /** Appending an element adds it to the set of elements. */
  lemma ElementsSnoc<T>(s: seq<T>, y: T)
    ensures Elements(s + [y]) == Elements(s) + {y}
  {
    assert forall x :: x in s + [y] <==> x in s || x == y;
  }

  /** Putting an element in front adds it to the set of elements. */
  lemma ElementsCons<T>(y: T, s: seq<T>)
    ensures Elements([y] + s) == {y} + Elements(s)
  {
    assert forall x :: x in [y] + s <==> x == y || x in s;
  }

  /** In a duplicate-free sequence, every element is found at its own position. */
  lemma IndexOfDistinct<T>(s: seq<T>, k: nat)
    requires NoDuplicates(s) && k < |s|
    ensures IndexOf(s, s[k]) == k
  {
  }

  /** Two duplicate-free sequences with no element in common concatenate to a
      duplicate-free sequence whose elements are those of both. */
  lemma NoDuplicatesConcat<T>(a: seq<T>, b: seq<T>)
    requires NoDuplicates(a) && NoDuplicates(b) && Elements(a) !! Elements(b)
    ensures NoDuplicates(a + b)
    ensures Elements(a + b) == Elements(a) + Elements(b)
  {
    forall i, j | 0 <= i < j < |a + b|
      ensures (a + b)[i] != (a + b)[j]
    {
      if i < |a| <= j {
        assert (a + b)[i] in Elements(a);
        assert (a + b)[j] == b[j - |a|];
        assert (a + b)[j] in Elements(b);
      }
    }
  }

  /** The two parts of a duplicate-free concatenation are duplicate-free and have
      no element in common. */
  lemma NoDuplicatesSplit<T>(a: seq<T>, b: seq<T>)
    requires NoDuplicates(a + b)
    ensures NoDuplicates(a) && NoDuplicates(b) && Elements(a) !! Elements(b)
  {
    forall i, j | 0 <= i < j < |a| ensures a[i] != a[j] {
      assert a[i] == (a + b)[i] && a[j] == (a + b)[j];
    }
    forall i, j | 0 <= i < j < |b| ensures b[i] != b[j] {
      assert b[i] == (a + b)[|a| + i] && b[j] == (a + b)[|a| + j];
    }
    forall x | x in Elements(a) ensures x !in Elements(b) {
      var i :| 0 <= i < |a| && a[i] == x;
      assert (a + b)[i] == x;
      forall j | 0 <= j < |b| ensures b[j] != x {
        assert (a + b)[|a| + j] == b[j];
      }
    }
  }

  /** A duplicate-free sequence has exactly as many elements as its set. */
  lemma {:induction false} NoDuplicatesCard<T>(s: seq<T>)
    requires NoDuplicates(s)
    ensures |Elements(s)| == |s|
  {
    if s != [] {
      NoDuplicatesCard(s[1..]);
      assert Elements(s) == Elements(s[1..]) + {s[0]};
      assert s[0] !in Elements(s[1..]);
    }
  }

  /** A subset is no larger than its superset. */
  lemma {:induction false} SubsetCard<T>(a: set<T>, b: set<T>)
    requires a <= b
    ensures |a| <= |b|
    decreases a
  {
    if a != {} {
      var x :| x in a;
      SubsetCard(a - {x}, b - {x});
    }
  }
}
