/**
 * Sequence helpers: the first element satisfying a test (Python's
 * `for ... if ...: return/break` scans), the first-occurrence de-duplication
 * `list(dict.fromkeys(xs))`, and flattening of a list of lists.
 */
module Seqs {
  import opened Wrappers

  /** Index of the first element satisfying `p`, if any. */
  function FirstIndexWhere<T>(xs: seq<T>, p: T -> bool): (r: Option<nat>)
    ensures r.Some? ==> r.value < |xs| && p(xs[r.value]) && forall j :: 0 <= j < r.value ==> !p(xs[j])
    ensures r.None? ==> forall j :: 0 <= j < |xs| ==> !p(xs[j])
  {
    if |xs| == 0 then None
    else if p(xs[0]) then Some(0)
    else match FirstIndexWhere(xs[1..], p)
      case None => None
      case Some(i) => Some(i + 1)
  }

  /** The first element satisfying `p`, if any. */
  function FirstWhere<T>(xs: seq<T>, p: T -> bool): (r: Option<T>)
    ensures r.Some? ==> exists i :: 0 <= i < |xs| && xs[i] == r.value && p(xs[i]) && forall j :: 0 <= j < i ==> !p(xs[j])
    ensures r.None? ==> forall j :: 0 <= j < |xs| ==> !p(xs[j])
  {
    match FirstIndexWhere(xs, p)
    case None => None
    case Some(i) => Some(xs[i])
  }

  /** The last element satisfying `p`, if any (a loop that reassigns on every match). */
  function LastWhere<T>(xs: seq<T>, p: T -> bool): (r: Option<T>)
  {
    if |xs| == 0 then None
    else if p(xs[|xs| - 1]) then Some(xs[|xs| - 1])
    else LastWhere(xs[..|xs| - 1], p)
  }

  /** The answer is a matching element after which nothing matches; no answer means nothing matches. */
  lemma {:induction false} LastWhereSpec<T>(xs: seq<T>, p: T -> bool)
    ensures var r := LastWhere(xs, p);
      && (r.Some? ==> exists i :: 0 <= i < |xs| && xs[i] == r.value && p(xs[i]) && NoneAfter(xs, p, i))
      && (r.None? ==> forall j :: 0 <= j < |xs| ==> !p(xs[j]))
  {
    if |xs| > 0 && !p(xs[|xs| - 1]) {
      var init := xs[..|xs| - 1];
      LastWhereSpec(init, p);
      var r := LastWhere(init, p);
      if r.Some? {
        var i :| 0 <= i < |init| && init[i] == r.value && p(init[i]) && NoneAfter(init, p, i);
        assert xs[i] == init[i];
        assert NoneAfter(xs, p, i);
      } else {
        assert forall j :: 0 <= j < |init| ==> xs[j] == init[j];
      }
    }
  }

  /** The answer is one of the matching elements; there is none exactly when nothing matches. */
  lemma LastWhereIn<T>(xs: seq<T>, p: T -> bool)
    ensures LastWhere(xs, p).Some? ==> LastWhere(xs, p).value in xs && p(LastWhere(xs, p).value)
    ensures LastWhere(xs, p).None? <==> forall j :: 0 <= j < |xs| ==> !p(xs[j])
  {
    LastWhereSpec(xs, p);
  }

  /** One more element: it wins when it matches, otherwise the earlier answer stands. */
  lemma LastWhereStep<T>(xs: seq<T>, i: nat, p: T -> bool, r: Option<T>, r': Option<T>)
    requires i < |xs| && r == LastWhere(xs[..i], p)
    requires r' == (if p(xs[i]) then Some(xs[i]) else r)
    ensures r' == LastWhere(xs[..i + 1], p)
  {
    assert xs[..i + 1][..i] == xs[..i];
  }

  /** Sending one more element to one of two parts keeps the parts a split of the whole. */
  lemma PartitionStep<T>(a: seq<T>, b: seq<T>, t: seq<T>, x: T, toA: bool, a': seq<T>, b': seq<T>, t': seq<T>)
    requires multiset(a) + multiset(b) == multiset(t)
    requires a' == a + (if toA then [x] else []) && b' == b + (if toA then [] else [x]) && t' == t + [x]
    ensures multiset(a') + multiset(b') == multiset(t')
    ensures |a'| + |b'| == |a| + |b| + 1
  {
  }

  predicate NoneAfter<T>(xs: seq<T>, p: T -> bool, i: int)
    requires 0 <= i
  {
    forall j :: i < j < |xs| ==> !p(xs[j])
  }

  predicate NoDup(xs: seq<string>) {
    forall i, j :: 0 <= i < j < |xs| ==> xs[i] != xs[j]
  }

  /** Index of the first occurrence of `x` in `xs`. */
  function IndexOf(xs: seq<string>, x: string): (i: nat)
    requires x in xs
    ensures i < |xs| && xs[i] == x && x !in xs[..i]
  {
    if xs[0] == x then 0 else 1 + IndexOf(xs[1..], x)
  }

  /** `list(dict.fromkeys(xs))`: `xs` with every repeated element after its first occurrence removed. */
  function Dedupe(xs: seq<string>): (r: seq<string>)
    ensures NoDup(r)
    ensures forall x :: x in r <==> x in xs
    ensures |r| <= |xs|
  {
    if |xs| == 0 then []
    else
      var d := Dedupe(xs[..|xs| - 1]);
      var x := xs[|xs| - 1];
      assert forall y :: y in xs[..|xs| - 1] ==> y in xs;
      assert forall y :: y in xs ==> y in xs[..|xs| - 1] || y == x;
      if x in d then d else d + [x]
  }

  lemma IndexOfPrefix(xs: seq<string>, n: nat, x: string)
    requires n <= |xs| && x in xs[..n]
    ensures IndexOf(xs, x) == IndexOf(xs[..n], x)
  {
    var i := IndexOf(xs[..n], x);
    var k := IndexOf(xs, x);
    assert xs[..n][..i] == xs[..i];
  }

  /** The survivors of `Dedupe` keep the order of their first occurrences. */
  lemma {:induction false} DedupeKeepsFirstOrder(xs: seq<string>)
    ensures forall i, j :: 0 <= i < j < |Dedupe(xs)| ==> IndexOf(xs, Dedupe(xs)[i]) < IndexOf(xs, Dedupe(xs)[j])
  {
    if |xs| > 0 {
      var n := |xs| - 1;
      var init := xs[..n];
      var x := xs[n];
      DedupeKeepsFirstOrder(init);
      var d := Dedupe(init);
      var r := Dedupe(xs);
      forall y | y in d ensures IndexOf(xs, y) == IndexOf(init, y) && IndexOf(init, y) < n {
        IndexOfPrefix(xs, n, y);
      }
      if x !in d {
        assert x !in init;
        assert IndexOf(xs, x) == n by {
          var k := IndexOf(xs, x);
          assert init == xs[..n];
        }
        forall i, j | 0 <= i < j < |r| ensures IndexOf(xs, r[i]) < IndexOf(xs, r[j]) {
          assert r[i] == d[i];
          if j < |d| {
            assert r[j] == d[j];
          }
        }
      }
    }
  }

  /** Concatenation of a list of lists. */
  function Flatten<T>(xss: seq<seq<T>>): (r: seq<T>)
  {
    if |xss| == 0 then [] else Flatten(xss[..|xss| - 1]) + xss[|xss| - 1]
  }

  lemma FlattenSnoc<T>(xss: seq<seq<T>>, xs: seq<T>)
    ensures Flatten(xss + [xs]) == Flatten(xss) + xs
  {
    assert (xss + [xs])[..|xss|] == xss;
  }
}
