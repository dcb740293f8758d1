/** The stable sort of the standard libraries, as a specification and as insertion sort. */
module Sorting {
  predicate Sorted<T>(s: seq<T>, key: T -> int) {
    forall i, j :: 0 <= i < j < |s| ==> key(s[i]) <= key(s[j])
  }

  /** Sorted by the key, and by position where keys are equal. */
  predicate SortedBreakingTies<T>(s: seq<T>, key: T -> int, position: T -> int) {
    forall i, j :: 0 <= i < j < |s| ==> Precedes(s[i], s[j], key, position)
  }

  /** Inserts before the first element with a larger or equal key. */
  function Insert<T>(x: T, s: seq<T>, key: T -> int): seq<T> {
    if s == [] || key(x) <= key(s[0]) then [x] + s else [s[0]] + Insert(x, s[1..], key)
  }

  function Sort<T>(s: seq<T>, key: T -> int): seq<T> {
    if s == [] then [] else Insert(s[0], Sort(s[1..], key), key)
  }

  lemma {:induction false} InsertPermutes<T>(x: T, s: seq<T>, key: T -> int)
    ensures multiset(Insert(x, s, key)) == multiset{x} + multiset(s)
    decreases |s|
  {
    if s != [] && key(x) > key(s[0]) {
      InsertPermutes(x, s[1..], key);
      assert s == [s[0]] + s[1..];
    }
  }

  lemma {:induction false} InsertSorts<T>(x: T, s: seq<T>, key: T -> int)
    requires Sorted(s, key)
    ensures Sorted(Insert(x, s, key), key)
    decreases |s|
  {
    if s != [] && key(x) > key(s[0]) {
      InsertSorts(x, s[1..], key);
      InsertPermutes(x, s[1..], key);
      var r := Insert(x, s[1..], key);
      forall i | 0 <= i < |r| ensures key(s[0]) <= key(r[i]) {
        assert r[i] in multiset{x} + multiset(s[1..]);
      }
    }
  }

  lemma {:induction false} SortSorts<T>(s: seq<T>, key: T -> int)
    ensures Sorted(Sort(s, key), key) && multiset(Sort(s, key)) == multiset(s)
    decreases |s|
  {
    if s != [] {
      SortSorts(s[1..], key);
      InsertSorts(s[0], Sort(s[1..], key), key);
      InsertPermutes(s[0], Sort(s[1..], key), key);
      assert s == [s[0]] + s[1..];
    }
  }

  predicate Precedes<T>(x: T, y: T, key: T -> int, position: T -> int) {
    key(x) < key(y) || (key(x) == key(y) && position(x) < position(y))
  }

  lemma ConsBreaksTies<T>(x: T, s: seq<T>, key: T -> int, position: T -> int)
    requires SortedBreakingTies(s, key, position) && forall y :: y in s ==> Precedes(x, y, key, position)
    ensures SortedBreakingTies([x] + s, key, position)
  {
    var t := [x] + s;
    forall i, j | 0 <= i < j < |t| ensures Precedes(t[i], t[j], key, position) {
      assert t[j] == s[j - 1];
      if i == 0 {
        assert s[j - 1] in s;
      } else {
        assert t[i] == s[i - 1];
      }
    }
  }

  lemma {:induction false} InsertBreaksTies<T>(x: T, s: seq<T>, key: T -> int, position: T -> int)
    requires SortedBreakingTies(s, key, position) && forall y :: y in s ==> position(x) < position(y)
    ensures SortedBreakingTies(Insert(x, s, key), key, position)
    decreases |s|
  {
    if s == [] || key(x) <= key(s[0]) {
      forall y | y in s ensures Precedes(x, y, key, position) {
        var i :| 0 <= i < |s| && s[i] == y;
        assert i > 0 ==> Precedes(s[0], s[i], key, position);
      }
      ConsBreaksTies(x, s, key, position);
    } else {
      var r := Insert(x, s[1..], key);
      InsertBreaksTies(x, s[1..], key, position);
      InsertPermutes(x, s[1..], key);
      forall y | y in r ensures Precedes(s[0], y, key, position) {
        assert y in multiset{x} + multiset(s[1..]);
        if y != x {
          var i :| 1 <= i < |s| && s[i] == y;
        }
      }
      ConsBreaksTies(s[0], r, key, position);
    }
  }

  /** The sort is stable: elements with equal keys keep their order. */
  lemma {:induction false} SortIsStable<T>(s: seq<T>, key: T -> int, position: T -> int)
    requires forall i, j :: 0 <= i < j < |s| ==> position(s[i]) < position(s[j])
    ensures SortedBreakingTies(Sort(s, key), key, position)
    decreases |s|
  {
    if s != [] {
      var sorted := Sort(s[1..], key);
      SortIsStable(s[1..], key, position);
      SortSorts(s[1..], key);
      forall y | y in sorted ensures position(s[0]) < position(y) {
        assert y in multiset(s[1..]);
      }
      InsertBreaksTies(s[0], sorted, key, position);
    }
  }
}
