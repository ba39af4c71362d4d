/**
 * Python's insertion-ordered `dict[str, V]` as an association list with
 * distinct keys. Assigning to a key already present updates the value in
 * place and does not move the key; a new key is appended.
 */
module Dicts {
  import opened Wrappers

  type Dict<V> = seq<(string, V)>

  function Keys<V>(d: Dict<V>): (ks: seq<string>)
    ensures |ks| == |d|
    ensures forall i :: 0 <= i < |d| ==> ks[i] == d[i].0
  {
    seq(|d|, i requires 0 <= i < |d| => d[i].0)
  }

  predicate HasKey<V>(d: Dict<V>, k: string) {
    exists i | 0 <= i < |d| :: d[i].0 == k
  }

  predicate DistinctKeys<V>(d: Dict<V>) {
    forall i, j :: 0 <= i < j < |d| ==> d[i].0 != d[j].0
  }

  /** `d.get(k)`: the value stored under `k`, if any. */
  function Get<V>(d: Dict<V>, k: string): (r: Option<V>)
    ensures r.Some? <==> HasKey(d, k)
    ensures r.Some? ==> exists i | 0 <= i < |d| :: d[i] == (k, r.value)
  {
    if |d| == 0 then None
    else if d[0].0 == k then Some(d[0].1)
    else Get(d[1..], k)
  }

  /** `d.get(k, default)`. */
  function GetOr<V>(d: Dict<V>, k: string, default: V): (r: V)
  {
    Get(d, k).GetOr(default)
  }

  /** `d[k] = v`. */
  function Put<V>(d: Dict<V>, k: string, v: V): (r: Dict<V>)
    ensures HasKey(d, k) ==> |r| == |d| && forall i :: 0 <= i < |d| ==> r[i] == if d[i].0 == k then (k, v) else d[i]
    ensures !HasKey(d, k) ==> r == d + [(k, v)]
  {
    if HasKey(d, k) then seq(|d|, i requires 0 <= i < |d| => if d[i].0 == k then (k, v) else d[i])
    else d + [(k, v)]
  }

  lemma PutKeys<V>(d: Dict<V>, k: string, v: V)
    ensures Keys(Put(d, k, v)) == if HasKey(d, k) then Keys(d) else Keys(d) + [k]
    ensures HasKey(Put(d, k, v), k)
    ensures forall k' :: HasKey(Put(d, k, v), k') <==> k' == k || HasKey(d, k')
    ensures DistinctKeys(d) ==> DistinctKeys(Put(d, k, v))
  {
    var r := Put(d, k, v);
    if HasKey(d, k) {
      var i :| 0 <= i < |d| && d[i].0 == k;
      assert r[i].0 == k;
    } else {
      assert r[|d|].0 == k;
    }
    forall k' | HasKey(d, k')
      ensures HasKey(r, k')
    {
      var i :| 0 <= i < |d| && d[i].0 == k';
      assert r[i].0 == k';
    }
  }

  lemma DistinctUnique<V>(d: Dict<V>, i: int, j: int)
    requires DistinctKeys(d)
    requires 0 <= i < |d| && 0 <= j < |d| && d[i].0 == d[j].0
    ensures i == j
  {
  }

  lemma PutGet<V>(d: Dict<V>, k: string, v: V)
    requires DistinctKeys(d)
    ensures Get(Put(d, k, v), k) == Some(v)
    ensures forall k' :: k' != k ==> Get(Put(d, k, v), k') == Get(d, k')
  {
    PutKeys(d, k, v);
    var r := Put(d, k, v);
    var g := Get(r, k);
    var i :| 0 <= i < |r| && r[i] == (k, g.value);
    if HasKey(d, k) {
      var j :| 0 <= j < |d| && d[j].0 == k;
      assert r[j] == (k, v);
      DistinctUnique(r, i, j);
    } else {
      assert r[|d|] == (k, v);
      DistinctUnique(r, i, |d|);
    }
    forall k' | k' != k
      ensures Get(r, k') == Get(d, k')
    {
      if HasKey(d, k') {
        var a :| 0 <= a < |r| && r[a] == (k', Get(r, k').value);
        var b :| 0 <= b < |d| && d[b] == (k', Get(d, k').value);
        assert r[b] == d[b];
        DistinctUnique(r, a, b);
      }
    }
  }

  /** The first key of `prefs` present in `d`, with its value (`for key in prefs: if key in d: ...; break`). */
  function FirstPresent<V>(d: Dict<V>, prefs: seq<string>): (r: Option<(string, V)>)
    ensures r.Some? ==> r.value.0 in prefs && Get(d, r.value.0) == Some(r.value.1)
    ensures r.None? <==> forall k :: k in prefs ==> !HasKey(d, k)
    ensures r.Some? ==> FirstPresentAt(d, prefs) < |prefs| && r.value.0 == prefs[FirstPresentAt(d, prefs)]
  {
    if |prefs| == 0 then None
    else match Get(d, prefs[0])
      case Some(v) => Some((prefs[0], v))
      case None =>
        var r := FirstPresent(d, prefs[1..]);
        assert forall k :: k in prefs ==> k == prefs[0] || k in prefs[1..];
        r
  }

  /** The position of the first key of `prefs` present in `d`, or `|prefs|` when none is. */
  function FirstPresentAt<V>(d: Dict<V>, prefs: seq<string>): (i: nat)
    ensures i <= |prefs|
    ensures forall j :: 0 <= j < i ==> !HasKey(d, prefs[j])
    ensures i < |prefs| ==> HasKey(d, prefs[i])
  {
    if |prefs| == 0 || HasKey(d, prefs[0]) then 0 else 1 + FirstPresentAt(d, prefs[1..])
  }

  /** `any(k in d for k in prefs)`. */
  predicate AnyPresent<V>(d: Dict<V>, prefs: seq<string>) {
    exists k :: k in prefs && HasKey(d, k)
  }
}
