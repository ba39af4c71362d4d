/**
 * Python's stable `sorted(xs, key=k, reverse=True)` and `list.sort(key=k,
 * reverse=True)` on integer keys: non-increasing keys, and elements with
 * equal keys keep their original order. Modelled as an insertion sort on
 * values.
 */
module Sorting {

  predicate Descending<T>(s: seq<T>, key: T -> int) {
    forall i, j :: 0 <= i < j < |s| ==> key(s[i]) >= key(s[j])
  }

  /** `x` placed after every element whose key is at least its own. */
  function Insert<T>(s: seq<T>, x: T, key: T -> int): (r: seq<T>)
    ensures |r| == |s| + 1
    ensures multiset(r) == multiset(s) + multiset{x}
  {
    if |s| == 0 then [x]
    else if key(s[0]) >= key(x) then
      assert s == [s[0]] + s[1..];
      [s[0]] + Insert(s[1..], x, key)
    else [x] + s
  }

  /** The sorted list: each element in turn inserted into the sorted prefix. */
  function SortDesc<T>(xs: seq<T>, key: T -> int): (r: seq<T>)
    ensures multiset(r) == multiset(xs)
  {
    if |xs| == 0 then []
    else
      assert xs == xs[..|xs| - 1] + [xs[|xs| - 1]];
      Insert(SortDesc(xs[..|xs| - 1], key), xs[|xs| - 1], key)
  }

  /** The elements of `s` whose key is `v`, in order. */
  function WithKey<T>(s: seq<T>, key: T -> int, v: int): (r: seq<T>)
    ensures |r| <= |s|
  {
    if |s| == 0 then [] else (if key(s[0]) == v then [s[0]] else []) + WithKey(s[1..], key, v)
  }

  lemma {:induction false} WithKeyAppend<T>(a: seq<T>, b: seq<T>, key: T -> int, v: int)
    ensures WithKey(a + b, key, v) == WithKey(a, key, v) + WithKey(b, key, v)
  {
    if |a| > 0 {
      assert (a + b)[1..] == a[1..] + b;
      WithKeyAppend(a[1..], b, key, v);
    } else {
      assert a + b == b;
    }
  }

  lemma {:induction false} WithKeyNone<T>(s: seq<T>, key: T -> int, v: int)
    requires forall i :: 0 <= i < |s| ==> key(s[i]) != v
    ensures WithKey(s, key, v) == []
  {
    if |s| > 0 {
      WithKeyNone(s[1..], key, v);
    }
  }

  lemma InsertBounded<T>(s: seq<T>, x: T, key: T -> int, b: int)
    requires forall i :: 0 <= i < |s| ==> key(s[i]) <= b
    requires key(x) <= b
    ensures forall i :: 0 <= i < |Insert(s, x, key)| ==> key(Insert(s, x, key)[i]) <= b
  {
    var t := Insert(s, x, key);
    forall i | 0 <= i < |t| ensures key(t[i]) <= b {
      assert t[i] in multiset(t);
      if t[i] != x {
        assert t[i] in multiset(s);
        var j :| 0 <= j < |s| && s[j] == t[i];
      }
    }
  }

  lemma {:induction false} InsertDescending<T>(s: seq<T>, x: T, key: T -> int)
    requires Descending(s, key)
    ensures Descending(Insert(s, x, key), key)
  {
    if |s| > 0 && key(s[0]) >= key(x) {
      DescendingTail(s, key);
      InsertDescending(s[1..], x, key);
      InsertBounded(s[1..], x, key, key(s[0]));
      ConsDescending(s[0], Insert(s[1..], x, key), key);
      assert Insert(s, x, key) == [s[0]] + Insert(s[1..], x, key);
    } else if |s| > 0 {
      ConsDescending(x, s, key);
      assert Insert(s, x, key) == [x] + s;
    }
  }

  /** A head whose key bounds a sorted tail keeps the list sorted. */
  lemma ConsDescending<T>(h: T, t: seq<T>, key: T -> int)
    requires Descending(t, key)
    requires forall i :: 0 <= i < |t| ==> key(t[i]) <= key(h)
    ensures Descending([h] + t, key)
  {
    var r := [h] + t;
    forall i, j | 0 <= i < j < |r| ensures key(r[i]) >= key(r[j]) {
      assert r[j] == t[j - 1];
      if i > 0 {
        assert r[i] == t[i - 1];
      }
    }
  }


  lemma {:induction false} InsertWithKey<T>(s: seq<T>, x: T, key: T -> int, v: int)
    requires Descending(s, key)
    ensures WithKey(Insert(s, x, key), key, v) == WithKey(s, key, v) + (if key(x) == v then [x] else [])
  {
    if |s| == 0 {
      assert WithKey([x], key, v) == (if key(x) == v then [x] else []) + WithKey([x][1..], key, v);
    } else if key(s[0]) >= key(x) {
      DescendingTail(s, key);
      InsertWithKey(s[1..], x, key, v);
      InsertPastHead(s, x, key, v);
    } else {
      InsertAtFront(s, x, key, v);
    }
  }

  lemma DescendingTail<T>(s: seq<T>, key: T -> int)
    requires |s| > 0 && Descending(s, key)
    ensures Descending(s[1..], key)
  {
    forall i, j | 0 <= i < j < |s[1..]| ensures key(s[1..][i]) >= key(s[1..][j]) {
      assert s[1..][i] == s[i + 1] && s[1..][j] == s[j + 1];
    }
  }

  /** One step of `InsertWithKey` when `x` goes after the head. */
  lemma InsertPastHead<T>(s: seq<T>, x: T, key: T -> int, v: int)
    requires |s| > 0 && key(s[0]) >= key(x)
    requires WithKey(Insert(s[1..], x, key), key, v) == WithKey(s[1..], key, v) + (if key(x) == v then [x] else [])
    ensures WithKey(Insert(s, x, key), key, v) == WithKey(s, key, v) + (if key(x) == v then [x] else [])
  {
    var r := Insert(s, x, key);
    var t := Insert(s[1..], x, key);
    var head := if key(s[0]) == v then [s[0]] else [];
    var tail := if key(x) == v then [x] else [];
    assert r == [s[0]] + t;
    assert r[0] == s[0] && r[1..] == t;
    calc {
      WithKey(r, key, v);
      head + WithKey(t, key, v);
      head + (WithKey(s[1..], key, v) + tail);
      { Assoc(head, WithKey(s[1..], key, v), tail); }
      (head + WithKey(s[1..], key, v)) + tail;
      WithKey(s, key, v) + tail;
    }
  }

  lemma Assoc<T>(a: seq<T>, b: seq<T>, c: seq<T>)
    ensures a + (b + c) == (a + b) + c
  {
    assert |a + (b + c)| == |(a + b) + c|;
    forall i | 0 <= i < |a| + |b| + |c| ensures (a + (b + c))[i] == ((a + b) + c)[i] {
      if i < |a| {
      } else if i < |a| + |b| {
      }
    }
  }

  /** `InsertWithKey` when `x` goes in front of every element. */
  lemma InsertAtFront<T>(s: seq<T>, x: T, key: T -> int, v: int)
    requires |s| > 0 && key(s[0]) < key(x) && Descending(s, key)
    ensures WithKey(Insert(s, x, key), key, v) == WithKey(s, key, v) + (if key(x) == v then [x] else [])
  {
    var r := Insert(s, x, key);
    assert r[0] == x && r[1..] == s;
    assert WithKey(r, key, v) == (if key(x) == v then [x] else []) + WithKey(s, key, v);
    if key(x) == v {
      forall i | 0 <= i < |s| ensures key(s[i]) != v {
        assert key(s[0]) >= key(s[i]) || i == 0;
      }
      WithKeyNone(s, key, v);
    }
  }

  /** The result is sorted by non-increasing key. */
  lemma {:induction false} SortDescSorted<T>(xs: seq<T>, key: T -> int)
    ensures Descending(SortDesc(xs, key), key)
  {
    if |xs| > 0 {
      SortDescSorted(xs[..|xs| - 1], key);
      InsertDescending(SortDesc(xs[..|xs| - 1], key), xs[|xs| - 1], key);
    }
  }

  lemma LastSplit<T>(xs: seq<T>)
    requires |xs| > 0
    ensures xs == xs[..|xs| - 1] + [xs[|xs| - 1]]
  {
  }

  /** Stability: for every key, the elements with that key appear in their original order. */
  lemma {:induction false} SortDescStable<T>(xs: seq<T>, key: T -> int, v: int)
    ensures WithKey(SortDesc(xs, key), key, v) == WithKey(xs, key, v)
  {
    if |xs| > 0 {
      var init := xs[..|xs| - 1];
      var x := xs[|xs| - 1];
      var sorted := SortDesc(init, key);
      assert SortDesc(xs, key) == Insert(sorted, x, key);
      SortDescStable(init, key, v);
      SortDescSorted(init, key);
      InsertWithKey(sorted, x, key, v);
      LastSplit(xs);
      WithKeyAppend(init, [x], key, v);
      assert WithKey([x], key, v) == (if key(x) == v then [x] else []) by {
        assert [x][1..] == [];
      }
    }
  }
}
