/** Sorting by an integer key, newest first: the comparator `(a, b) =>
    key(b) - key(a)` that the entry list and the download history hand to
    JavaScript's (stable) `Array.prototype.sort`, written as an insertion sort. */
module Sorting {
  import opened Seqs

  ghost predicate SortedDesc<T>(s: seq<T>, key: T -> int)
  {
    forall i, j :: 0 <= i < j < |s| ==> key(s[i]) >= key(s[j])
  }

  /** Sorted with no two elements sharing a key. */
  ghost predicate StrictlyDesc<T>(s: seq<T>, key: T -> int)
  {
    forall i, j :: 0 <= i < j < |s| ==> key(s[i]) > key(s[j])
  }

  /** Puts `x` in front of the first element whose key is not larger, so an
      element that came earlier in the input stays ahead of equal keys. */
  function InsertDesc<T(==,!new)>(x: T, s: seq<T>, key: T -> int): (r: seq<T>)
    ensures |r| == |s| + 1
    ensures forall y :: y in r <==> y == x || y in s
    ensures multiset(r) == multiset(s) + multiset{x}
  {
    if s == [] || key(x) >= key(s[0]) then [x] + s
    else
      assert s == [s[0]] + s[1..];
      [s[0]] + InsertDesc(x, s[1..], key)
  }

  /** A sorted sequence, split into its head and its tail. */
  lemma SortedTail<T>(s: seq<T>, key: T -> int)
    requires s != [] && SortedDesc(s, key)
    ensures SortedDesc(s[1..], key)
    ensures forall y :: y in s[1..] ==> key(y) <= key(s[0])
  {
    forall y | y in s[1..] ensures key(y) <= key(s[0]) {
      var j :| 0 <= j < |s[1..]| && s[1..][j] == y;
      assert s[j + 1] == y;
    }
  }

  /** A sorted sequence with an element in front that is at least as large. */
  lemma SortedCons<T>(a: T, t: seq<T>, key: T -> int)
    requires SortedDesc(t, key)
    requires forall y :: y in t ==> key(y) <= key(a)
    ensures SortedDesc([a] + t, key)
  {
    var r := [a] + t;
    forall i, j | 0 <= i < j < |r| ensures key(r[i]) >= key(r[j]) {
      assert r[j] == t[j - 1];
      if i == 0 {
        assert r[j] in t;
      } else {
        assert r[i] == t[i - 1];
      }
    }
  }

  lemma {:induction false} InsertSorted<T(!new)>(x: T, s: seq<T>, key: T -> int)
    requires SortedDesc(s, key)
    ensures SortedDesc(InsertDesc(x, s, key), key)
  {
    if s == [] || key(x) >= key(s[0]) {
      if s != [] {
        SortedTail(s, key);
        assert s == [s[0]] + s[1..];
      }
      SortedCons(x, s, key);
    } else {
      SortedTail(s, key);
      InsertSorted(x, s[1..], key);
      SortedCons(s[0], InsertDesc(x, s[1..], key), key);
    }
  }

  function SortDesc<T(==,!new)>(s: seq<T>, key: T -> int): (r: seq<T>)
    ensures |r| == |s|
    ensures multiset(r) == multiset(s)
    ensures SortedDesc(r, key)
  {
    if s == [] then []
    else
      assert s == [s[0]] + s[1..];
      InsertSorted(s[0], SortDesc(s[1..], key), key);
      InsertDesc(s[0], SortDesc(s[1..], key), key)
  }

  /** Sorting a sequence that is already sorted changes nothing. */
  lemma {:induction false} SortedFixpoint<T(!new)>(s: seq<T>, key: T -> int)
    requires SortedDesc(s, key)
    ensures SortDesc(s, key) == s
  {
    if s != [] {
      SortedFixpoint(s[1..], key);
      assert s == [s[0]] + s[1..];
    }
  }

  /** Inserting places `x` at a single position, leaving the rest in order. */
  lemma {:induction false} InsertSplit<T(!new)>(x: T, s: seq<T>, key: T -> int) returns (k: nat)
    requires SortedDesc(s, key)
    ensures k <= |s|
    ensures InsertDesc(x, s, key) == s[..k] + [x] + s[k..]
  {
    if s == [] || key(x) >= key(s[0]) {
      k := 0;
    } else {
      var k' := InsertSplit(x, s[1..], key);
      k := k' + 1;
      assert s[..k] == [s[0]] + s[1..][..k'];
      assert s[k..] == s[1..][k'..];
    }
  }

  /** Appending an element whose key is new to a strictly sorted sequence and
      sorting is the same as inserting it, and the result is strictly sorted. */
  lemma {:induction false} SortAppendFresh<T(!new)>(s: seq<T>, x: T, key: T -> int)
    requires StrictlyDesc(s, key)
    requires forall y :: y in s ==> key(y) != key(x)
    ensures SortDesc(s + [x], key) == InsertDesc(x, s, key)
    ensures StrictlyDesc(InsertDesc(x, s, key), key)
  {
    InsertStrict(x, s, key);
    if s == [] {
      assert s + [x] == [x];
    } else {
      var u, t := s + [x], s[1..];
      assert u[0] == s[0] && u[1..] == t + [x];
      assert SortDesc(u, key) == InsertDesc(s[0], SortDesc(t + [x], key), key);
      StrictTail(s, key);
      assert SortDesc(t + [x], key) == InsertDesc(x, t, key) by {
        assert forall y :: y in t ==> y in s;
        SortAppendFresh(t, x, key);
      }
      assert s[0] in s;
      InsertPastHead(x, s, key);
    }
  }

  /** Inserting `x` behind the head of a strictly sorted sequence and then
      putting the head back in front is inserting `x` into the whole sequence. */
  lemma InsertPastHead<T(!new)>(x: T, s: seq<T>, key: T -> int)
    requires s != []
    requires forall y :: y in s[1..] ==> key(y) < key(s[0])
    requires key(x) != key(s[0])
    ensures InsertDesc(s[0], InsertDesc(x, s[1..], key), key) == InsertDesc(x, s, key)
  {
    var t := s[1..];
    assert s == [s[0]] + t;
    if key(x) > key(s[0]) {
      assert t != [] ==> t[0] in t;
      assert InsertDesc(x, t, key) == [x] + t;
      assert InsertDesc(s[0], t, key) == s;
    } else {
      var r := InsertDesc(x, t, key);
      assert r[0] in r;
    }
  }

  lemma StrictTail<T>(s: seq<T>, key: T -> int)
    requires s != [] && StrictlyDesc(s, key)
    ensures StrictlyDesc(s[1..], key)
    ensures forall y :: y in s[1..] ==> key(y) < key(s[0])
  {
    forall y | y in s[1..] ensures key(y) < key(s[0]) {
      var j :| 0 <= j < |s[1..]| && s[1..][j] == y;
      assert s[j + 1] == y;
    }
  }

  lemma StrictCons<T>(a: T, t: seq<T>, key: T -> int)
    requires StrictlyDesc(t, key)
    requires forall y :: y in t ==> key(y) < key(a)
    ensures StrictlyDesc([a] + t, key)
  {
    var r := [a] + t;
    forall i, j | 0 <= i < j < |r| ensures key(r[i]) > key(r[j]) {
      assert r[j] == t[j - 1];
      if i == 0 {
        assert r[j] in t;
      } else {
        assert r[i] == t[i - 1];
      }
    }
  }

  lemma {:induction false} InsertStrict<T(!new)>(x: T, s: seq<T>, key: T -> int)
    requires StrictlyDesc(s, key)
    requires forall y :: y in s ==> key(y) != key(x)
    ensures StrictlyDesc(InsertDesc(x, s, key), key)
  {
    if s == [] || key(x) >= key(s[0]) {
      if s != [] {
        StrictTail(s, key);
        assert s == [s[0]] + s[1..];
        assert s[0] in s;
      }
      StrictCons(x, s, key);
    } else {
      StrictTail(s, key);
      assert forall y :: y in s[1..] ==> y in s;
      InsertStrict(x, s[1..], key);
      StrictCons(s[0], InsertDesc(x, s[1..], key), key);
    }
  }

  /** Filtering keeps a sorted sequence sorted. */
  lemma {:induction false} FilterSorted<T(!new)>(s: seq<T>, keep: T -> bool, key: T -> int)
    requires SortedDesc(s, key)
    ensures SortedDesc(Filter(s, keep), key)
  {
    if s != [] {
      FilterSorted(s[1..], keep, key);
      var t := Filter(s[1..], keep);
      forall y | y in t ensures key(y) <= key(s[0]) {
        assert y in s[1..];
      }
    }
  }

  /** Filtering keeps a strictly sorted sequence strictly sorted. */
  lemma {:induction false} FilterStrict<T(!new)>(s: seq<T>, keep: T -> bool, key: T -> int)
    requires StrictlyDesc(s, key)
    ensures StrictlyDesc(Filter(s, keep), key)
  {
    if s != [] {
      FilterStrict(s[1..], keep, key);
      var t := Filter(s[1..], keep);
      forall y | y in t ensures key(y) < key(s[0]) {
        assert y in s[1..];
      }
    }
  }
}
