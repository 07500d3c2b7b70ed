/** The stable sort that `Array.prototype.sort` performs with a numeric
    comparator, followed by `shift()`: the planner keeps both its Dijkstra
    frontier and its Yen candidate pool this way. Any stable sort produces
    the same sequence, so an insertion sort stands for it. */
module StableSort {
  import opened ExtReal

  ghost predicate Sorted<T>(s: seq<T>, key: T -> Ext) {
    forall i, j :: 0 <= i < j < |s| ==> Le(key(s[i]), key(s[j]))
  }

  /** Index of the first element whose key is minimal. */
  function FirstMin<T>(s: seq<T>, key: T -> Ext): (r: nat)
    requires |s| > 0
    ensures r < |s|
    ensures forall j :: 0 <= j < |s| ==> Le(key(s[r]), key(s[j]))
    ensures forall j :: 0 <= j < r ==> Lt(key(s[r]), key(s[j]))
  {
    if |s| == 1 then 0
    else
      var m := FirstMin(s[1..], key);
      if Le(key(s[0]), key(s[1..][m])) then 0 else m + 1
  }

  /** Places `x` in front of the first element it does not exceed, so that
      an element inserted earlier stays ahead of later equal ones. */
  function Insert<T>(x: T, t: seq<T>, key: T -> Ext): (r: seq<T>)
    ensures multiset(r) == multiset(t) + multiset{x}
    ensures |r| == |t| + 1
  {
    if |t| == 0 || Le(key(x), key(t[0])) then
      [x] + t
    else
      assert t == [t[0]] + t[1..];
      [t[0]] + Insert(x, t[1..], key)
  }

  lemma {:induction false} InsertKeepsSorted<T>(x: T, t: seq<T>, key: T -> Ext)
    requires Sorted(t, key)
    ensures Sorted(Insert(x, t, key), key)
  {
    if |t| > 0 && !Le(key(x), key(t[0])) {
      var rest := Insert(x, t[1..], key);
      assert Sorted(t[1..], key) by {
        forall i, j | 0 <= i < j < |t[1..]| ensures Le(key(t[1..][i]), key(t[1..][j])) {
          assert t[1..][i] == t[i + 1] && t[1..][j] == t[j + 1];
        }
      }
      InsertKeepsSorted(x, t[1..], key);
      InsertBounded(x, t[1..], key, key(t[0]));
      var r := [t[0]] + rest;
      forall i, j | 0 <= i < j < |r|
        ensures Le(key(r[i]), key(r[j]))
      {
        if i == 0 {
          assert r[j] == rest[j - 1];
        } else {
          assert r[i] == rest[i - 1] && r[j] == rest[j - 1];
        }
      }
    }
  }

  /** A lower bound of `x` and of every element of `t` bounds the result of
      inserting one into the other. */
  lemma InsertBounded<T>(x: T, t: seq<T>, key: T -> Ext, b: Ext)
    requires Le(b, key(x))
    requires forall i :: 0 <= i < |t| ==> Le(b, key(t[i]))
    ensures forall i :: 0 <= i < |Insert(x, t, key)| ==> Le(b, key(Insert(x, t, key)[i]))
  {
    var r := Insert(x, t, key);
    forall i | 0 <= i < |r| ensures Le(b, key(r[i])) {
      assert r[i] in multiset(r);
      if r[i] != x {
        assert r[i] in multiset(t);
      }
    }
  }

  function SortBy<T>(s: seq<T>, key: T -> Ext): (r: seq<T>)
    ensures multiset(r) == multiset(s)
    ensures |r| == |s|
  {
    if |s| == 0 then []
    else
      assert s == [s[0]] + s[1..];
      Insert(s[0], SortBy(s[1..], key), key)
  }

  lemma {:induction false} SortByIsSorted<T>(s: seq<T>, key: T -> Ext)
    ensures Sorted(SortBy(s, key), key)
  {
    if |s| > 0 {
      SortByIsSorted(s[1..], key);
      InsertKeepsSorted(s[0], SortBy(s[1..], key), key);
    }
  }

  /** The head of the stably sorted sequence is the earliest element of
      minimal key. */
  lemma {:induction false} SortHeadIsFirstMin<T>(s: seq<T>, key: T -> Ext)
    requires |s| > 0
    ensures SortBy(s, key)[0] == s[FirstMin(s, key)]
  {
    if |s| > 1 {
      SortHeadIsFirstMin(s[1..], key);
    }
  }

  /** `shift()` on a sorted sequence: the rest stays sorted and no element
      of it has a smaller key than the removed head. */
  lemma SortedPop<T>(s: seq<T>, key: T -> Ext)
    requires |s| > 0 && Sorted(s, key)
    ensures Sorted(s[1..], key)
    ensures forall x :: x in s[1..] ==> Le(key(s[0]), key(x))
    ensures multiset(s[1..]) + multiset{s[0]} == multiset(s)
  {
    assert s == [s[0]] + s[1..];
    forall x | x in s[1..] ensures Le(key(s[0]), key(x)) {
      var i :| 0 <= i < |s[1..]| && s[1..][i] == x;
      assert s[i + 1] == x;
    }
  }
}
