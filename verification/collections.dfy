/** Sequence helpers: the list-to-set conversion used by the signer rules and the list removal used
    to pick session parties. */
module Collections {

  /** No element of `s` occurs twice. */
  predicate Distinct<T(==)>(s: seq<T>) {
    forall i, j :: 0 <= i < j < |s| ==> s[i] != s[j]
  }

  /** The elements of `s` as a set: what building a hash set from a list yields,
      duplicates collapsing into one element. */
  function ToSet<T(!new)>(s: seq<T>): (r: set<T>)
    ensures forall x :: x in r <==> x in s
    ensures |r| <= |s|
  {
    if |s| == 0 then {} else {s[0]} + ToSet(s[1..])
  }

  /** A non-empty list has no duplicates iff its head does not recur in its tail and the tail has
      none. */
  lemma DistinctCons<T>(s: seq<T>)
    requires |s| > 0
    ensures Distinct(s) <==> s[0] !in s[1..] && Distinct(s[1..])
  {
    var tail := s[1..];
    if s[0] in tail {
      var j :| 0 <= j < |tail| && tail[j] == s[0];
      assert s[0] == s[j + 1];
    } else if Distinct(tail) {
      forall i, j | 0 <= i < j < |s|
        ensures s[i] != s[j]
      {
        if i == 0 {
          assert s[j] == tail[j - 1];
        } else {
          assert s[i] == tail[i - 1] && s[j] == tail[j - 1];
        }
      }
    } else {
      var i, j :| 0 <= i < j < |tail| && tail[i] == tail[j];
      assert s[i + 1] == s[j + 1];
    }
  }

  /** The set built from a list is exactly as large as the list iff the list has no duplicates. */
  lemma {:induction false} ToSetSizeIffDistinct<T(!new)>(s: seq<T>)
    ensures |ToSet(s)| == |s| <==> Distinct(s)
  {
    if |s| > 0 {
      var tail := s[1..];
      ToSetSizeIffDistinct(tail);
      DistinctCons(s);
      if s[0] in tail {
        assert ToSet(s) == ToSet(tail);
      } else {
        assert |ToSet(s)| == |ToSet(tail)| + 1 by {
          assert s[0] !in ToSet(tail);
        }
      }
    }
  }

  /** A two-element list makes a two-element set iff its elements differ. */
  lemma PairSize<T(!new)>(a: T, b: T)
    ensures ToSet([a, b]) == {a, b}
    ensures |ToSet([a, b])| == 2 <==> a != b
  {
    ToSetSizeIffDistinct([a, b]);
  }

  /** A three-element list makes a three-element set iff its elements are pairwise different. */
  lemma TripleSize<T(!new)>(a: T, b: T, c: T)
    ensures ToSet([a, b, c]) == {a, b, c}
    ensures |ToSet([a, b, c])| == 3 <==> a != b && a != c && b != c
  {
    var s := [a, b, c];
    assert s[1..] == [b, c];
    assert ToSet(s) == {a} + ToSet([b, c]);
    PairSize(b, c);
  }

  /** The set of a four-element list. */
  lemma QuadrupleSet<T(!new)>(a: T, b: T, c: T, d: T)
    ensures ToSet([a, b, c, d]) == {a, b, c, d}
  {
  }

  /** Taking the head out of the set of a list whose head does not recur leaves the set of its tail. */
  lemma DropUniqueHead<T(!new)>(s: seq<T>)
    requires |s| > 0 && s[0] !in s[1..]
    ensures ToSet(s) - {s[0]} == ToSet(s[1..])
  {
  }

  /** `s` with the first occurrence of `x` taken out, and unchanged when `x` does not occur:
      the behaviour of Kotlin's `List - element`. */
  function RemoveFirst<T(==)>(s: seq<T>, x: T): (r: seq<T>)
    ensures multiset(r) == multiset(s) - multiset{x}
    ensures x !in s ==> r == s
    ensures x in s ==> |r| == |s| - 1
  {
    if |s| == 0 then []
    else
      assert s == [s[0]] + s[1..];
      if s[0] == x then s[1..] else [s[0]] + RemoveFirst(s[1..], x)
  }

  /** The occurrence `RemoveFirst` takes out is the first one, at position `i`, and the other
      elements keep their order: those before `i` stay in place, those after move up by one. */
  lemma {:induction false} RemoveFirstSplitsAtFirst<T>(s: seq<T>, x: T) returns (i: nat)
    requires x in s
    ensures i < |s| && s[i] == x
    ensures forall k :: 0 <= k < i ==> s[k] != x
    ensures var r := RemoveFirst(s, x);
      && |r| == |s| - 1
      && (forall k :: 0 <= k < i ==> r[k] == s[k])
      && (forall k :: i <= k < |r| ==> r[k] == s[k + 1])
  {
    if s[0] == x {
      i := 0;
    } else {
      var j := RemoveFirstSplitsAtFirst(s[1..], x);
      i := j + 1;
      var r, rest := RemoveFirst(s, x), RemoveFirst(s[1..], x);
      assert r == [s[0]] + rest;
      forall k | 1 <= k < i ensures r[k] == s[k] {
        assert r[k] == rest[k - 1];
      }
      forall k | i <= k < |r| ensures r[k] == s[k + 1] {
        assert r[k] == rest[k - 1];
      }
    }
  }
}
