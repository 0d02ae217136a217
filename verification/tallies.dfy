/**
 The contributor and sub-tag tally objects of the Stats component, as maps
 from key to count, with the `(m[k] || 0) + 1` increment and the sum of all
 counts.
 */
module Tallies {

  /** The count of `k` in `m`, 0 when `k` has not been seen (`m[k] || 0`). */
  function CountOf<K>(m: map<K, nat>, k: K): nat
  {
    if k in m then m[k] else 0
  }

  /** `m[k] = (m[k] || 0) + 1`. */
  function Bump<K>(m: map<K, nat>, k: K): (r: map<K, nat>)
    ensures r.Keys == m.Keys + {k}
    ensures r[k] == CountOf(m, k) + 1
    ensures forall j :: j in m && j != k ==> r[j] == m[j]
  {
    m[k := CountOf(m, k) + 1]
  }

  /** The sum of all counts held in a tally. */
  ghost function MapTotal<K>(m: map<K, nat>): nat
    decreases |m|
  {
    if m == map[] then 0
    else
      var k :| k in m;
      m[k] + MapTotal(m - {k})
  }

  /** Any key, not only the one `MapTotal` happens to pick, can be split off the sum. */
  lemma {:induction false} MapTotalRemove<K>(m: map<K, nat>, k: K)
    requires k in m
    ensures MapTotal(m) == m[k] + MapTotal(m - {k})
    decreases |m|
  {
    assert m != map[];
    var j :| j in m && MapTotal(m) == m[j] + MapTotal(m - {j});
    if j != k {
      var mj := m - {j};
      var mk := m - {k};
      assert k in mj && j in mk;
      MapTotalRemove(mj, k);
      MapTotalRemove(mk, j);
      assert mj - {k} == mk - {j};
    }
  }

  /** One increment raises the total by exactly one. */
  lemma BumpTotal<K>(m: map<K, nat>, k: K)
    ensures MapTotal(Bump(m, k)) == MapTotal(m) + 1
  {
    var r := Bump(m, k);
    MapTotalRemove(r, k);
    if k in m {
      MapTotalRemove(m, k);
      assert r - {k} == m - {k};
    } else {
      assert r - {k} == m;
    }
  }

  /** The key each item of a list is tallied under, in order. */
  function KeysOf<T, K>(xs: seq<T>, key: T -> K): (r: seq<K>)
    ensures |r| == |xs|
    ensures forall i :: 0 <= i < |xs| ==> r[i] == key(xs[i])
  {
    if xs == [] then [] else [key(xs[0])] + KeysOf(xs[1..], key)
  }

  /** Taking keys distributes over concatenation. */
  lemma KeysOfAppend<T, K>(a: seq<T>, b: seq<T>, key: T -> K)
    ensures KeysOf(a + b, key) == KeysOf(a, key) + KeysOf(b, key)
  {
  }

  /** The reference tally of a list of keys: `m[k] = (m[k] || 0) + 1` for each key in turn. */
  function BumpAll<K>(m: map<K, nat>, ks: seq<K>): map<K, nat>
    decreases |ks|
  {
    if ks == [] then m else BumpAll(Bump(m, ks[0]), ks[1..])
  }

  /**
   What tallying a list does: every key of the list becomes a key of the
   tally, each count grows by the number of times its key occurs in the list,
   and the total grows by the list's length.
   */
  lemma BumpAllCounts<K(!new)>(m: map<K, nat>, ks: seq<K>)
    ensures BumpAll(m, ks).Keys == m.Keys + (set k | k in ks)
    ensures forall k :: CountOf(BumpAll(m, ks), k) == CountOf(m, k) + multiset(ks)[k]
    ensures MapTotal(BumpAll(m, ks)) == MapTotal(m) + |ks|
  {
    BumpAllKeys(m, ks);
    BumpAllMultiplicity(m, ks);
    BumpAllTotal(m, ks);
  }

  /** The keys of the `BumpAll` tally: the old ones and those of the list. */
  lemma {:induction false} BumpAllKeys<K(!new)>(m: map<K, nat>, ks: seq<K>)
    ensures BumpAll(m, ks).Keys == m.Keys + (set k | k in ks)
    decreases |ks|
  {
    if ks != [] {
      BumpAllKeys(Bump(m, ks[0]), ks[1..]);
      assert ks == [ks[0]] + ks[1..];
      assert (set k | k in ks) == {ks[0]} + (set k | k in ks[1..]);
    }
  }

  /** The counts of the `BumpAll` tally: the old ones plus the multiplicities in the list. */
  lemma {:induction false} BumpAllMultiplicity<K(!new)>(m: map<K, nat>, ks: seq<K>)
    ensures forall k :: CountOf(BumpAll(m, ks), k) == CountOf(m, k) + multiset(ks)[k]
    decreases |ks|
  {
    if ks != [] {
      BumpAllMultiplicity(Bump(m, ks[0]), ks[1..]);
      assert ks == [ks[0]] + ks[1..];
      assert multiset(ks) == multiset{ks[0]} + multiset(ks[1..]);
    }
  }

  /** The total of the `BumpAll` tally: the old one plus the list's length. */
  lemma {:induction false} BumpAllTotal<K>(m: map<K, nat>, ks: seq<K>)
    ensures MapTotal(BumpAll(m, ks)) == MapTotal(m) + |ks|
    decreases |ks|
  {
    if ks != [] {
      BumpTotal(m, ks[0]);
      BumpAllTotal(Bump(m, ks[0]), ks[1..]);
    }
  }

  /** Tallying `a + b` is tallying `a`, then `b`. */
  lemma {:induction false} BumpAllAppend<K>(m: map<K, nat>, a: seq<K>, b: seq<K>)
    ensures BumpAll(m, a + b) == BumpAll(BumpAll(m, a), b)
    decreases |a|
  {
    if a == [] {
      assert a + b == b;
    } else {
      assert (a + b)[0] == a[0];
      assert (a + b)[1..] == a[1..] + b;
      BumpAllAppend(Bump(m, a[0]), a[1..], b);
    }
  }

  /** Tallied from nothing, a key's count is its number of occurrences, and the total is the list's length. */
  lemma BumpAllFromEmpty<K(!new)>(ks: seq<K>)
    ensures forall k :: CountOf(BumpAll(map[], ks), k) == multiset(ks)[k]
    ensures BumpAll(map[], ks).Keys == set k | k in ks
    ensures MapTotal(BumpAll(map[], ks)) == |ks|
  {
    var e: map<K, nat> := map[];
    BumpAllCounts(e, ks);
    assert MapTotal(e) == 0;
    assert forall k :: CountOf(e, k) == 0;
  }
}
