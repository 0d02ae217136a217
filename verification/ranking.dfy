/**
 The ranking step: a tally map becomes the list of `{key, count}` entries
 sorted by count, largest first (`Object.keys(...).map(...).sort(...)`). Its
 length is the number of distinct contributors or sub-tags.
 */
module Ranking {
  import opened Tallies

  /** One leaderboard row: a uid with its contributions, or a tag value with its count. */
  datatype Entry<K> = Entry(key: K, count: nat)

  /** Counts never increase along the list. */
  predicate NonIncreasing<K>(s: seq<Entry<K>>)
  {
    forall i, j :: 0 <= i < j < |s| ==> s[i].count >= s[j].count
  }

  /** The sum of the counts of a list (the `reduce` that yields a modal's `total`). */
  function SumCounts<K>(s: seq<Entry<K>>): nat
  {
    if s == [] then 0 else s[0].count + SumCounts(s[1..])
  }

  /** The sum of counts splits over concatenation. */
  lemma {:induction false} SumCountsAppend<K>(a: seq<Entry<K>>, b: seq<Entry<K>>)
    ensures SumCounts(a + b) == SumCounts(a) + SumCounts(b)
  {
    if a == [] {
      assert a + b == b;
    } else {
      assert (a + b)[1..] == a[1..] + b;
      SumCountsAppend(a[1..], b);
    }
  }

  /** Places `e` before the first entry with a smaller count. */
  function Insert<K>(e: Entry<K>, s: seq<Entry<K>>): (r: seq<Entry<K>>)
    requires NonIncreasing(s)
    ensures NonIncreasing(r)
    ensures multiset(r) == multiset(s) + multiset{e}
    ensures |r| == |s| + 1
    ensures SumCounts(r) == SumCounts(s) + e.count
    ensures forall i :: 0 <= i < |r| ==> r[i] == e || r[i] in s
  {
    if s == [] || e.count >= s[0].count then
      assert ([e] + s)[1..] == s;
      [e] + s
    else
      var rest := Insert(e, s[1..]);
      InsertBehind(e, s, rest);
      [s[0]] + rest
  }

  /** Keeping `s[0]` in front of `e` inserted into the rest of `s`, when `e` counts less than `s[0]`. */
  lemma InsertBehind<K>(e: Entry<K>, s: seq<Entry<K>>, rest: seq<Entry<K>>)
    requires s != [] && NonIncreasing(s) && e.count < s[0].count
    requires NonIncreasing(rest)
    requires multiset(rest) == multiset(s[1..]) + multiset{e}
    requires |rest| == |s|
    requires SumCounts(rest) == SumCounts(s[1..]) + e.count
    requires forall i :: 0 <= i < |rest| ==> rest[i] == e || rest[i] in s[1..]
    ensures NonIncreasing([s[0]] + rest)
    ensures multiset([s[0]] + rest) == multiset(s) + multiset{e}
    ensures |[s[0]] + rest| == |s| + 1
    ensures SumCounts([s[0]] + rest) == SumCounts(s) + e.count
    ensures forall i :: 0 <= i < |[s[0]] + rest| ==> ([s[0]] + rest)[i] == e || ([s[0]] + rest)[i] in s
  {
    InsertBehindSorted(e, s, rest);
    var r := [s[0]] + rest;
    assert s == [s[0]] + s[1..];
    assert r[1..] == rest;
    assert forall i :: 1 <= i < |r| ==> r[i] == rest[i - 1];
  }

  /** `s[0]` counts at least as much as `e` and as every later entry of `s`, so it can lead. */
  lemma InsertBehindSorted<K>(e: Entry<K>, s: seq<Entry<K>>, rest: seq<Entry<K>>)
    requires s != [] && NonIncreasing(s) && e.count < s[0].count
    requires NonIncreasing(rest)
    requires forall i :: 0 <= i < |rest| ==> rest[i] == e || rest[i] in s[1..]
    ensures NonIncreasing([s[0]] + rest)
  {
    var r := [s[0]] + rest;
    forall i | 0 <= i < |rest|
      ensures s[0].count >= rest[i].count
    {
      if rest[i] != e {
        var k :| 0 <= k < |s[1..]| && s[1..][k] == rest[i];
        assert s[k + 1] == rest[i];
      }
    }
    assert forall i :: 1 <= i < |r| ==> r[i] == rest[i - 1];
  }

  /** Sorts by count, largest first; a permutation of its input. */
  function SortByCount<K>(s: seq<Entry<K>>): (r: seq<Entry<K>>)
    ensures NonIncreasing(r)
    ensures multiset(r) == multiset(s)
    ensures |r| == |s|
    ensures SumCounts(r) == SumCounts(s)
  {
    if s == [] then []
    else
      assert s == [s[0]] + s[1..];
      Insert(s[0], SortByCount(s[1..]))
  }

  /** The tally's entries, one per key, in an unspecified order (`Object.keys(...).map(...)`). */
  method EntriesOf<K>(m: map<K, nat>) returns (entries: seq<Entry<K>>)
    ensures |entries| == |m|
    ensures forall i :: 0 <= i < |entries| ==> entries[i].key in m && entries[i].count == m[entries[i].key]
    ensures forall k :: k in m ==> exists i :: 0 <= i < |entries| && entries[i].key == k
    ensures SumCounts(entries) == MapTotal(m)
  {
    entries := [];
    var rest := m.Keys;
    assert RestrictTo(m, rest) == m;
    while rest != {}
      invariant rest <= m.Keys
      invariant |entries| + |rest| == |m|
      invariant forall i :: 0 <= i < |entries| ==> entries[i].key in m && entries[i].key !in rest
      invariant forall i :: 0 <= i < |entries| ==> entries[i].count == m[entries[i].key]
      invariant forall k :: k in m && k !in rest ==> exists i :: 0 <= i < |entries| && entries[i].key == k
      invariant SumCounts(entries) + MapTotal(RestrictTo(m, rest)) == MapTotal(m)
      decreases |rest|
    {
      var k :| k in rest;
      RestrictStep(m, rest, k);
      AppendOne(entries, Entry(k, m[k]));
      ghost var before := entries;
      entries := entries + [Entry(k, m[k])];
      rest := rest - {k};
      forall k' | k' in m && k' !in rest
        ensures exists i :: 0 <= i < |entries| && entries[i].key == k'
      {
        if k' == k {
          assert entries[|entries| - 1].key == k';
        } else {
          var i :| 0 <= i < |before| && before[i].key == k';
          assert entries[i] == before[i];
        }
      }
    }
    assert RestrictTo(m, rest) == map[];
  }

  /** Taking one key out of the remaining part of a tally takes its count out of the sum. */
  lemma RestrictStep<K>(m: map<K, nat>, rest: set<K>, k: K)
    requires k in rest && rest <= m.Keys
    ensures MapTotal(RestrictTo(m, rest)) == m[k] + MapTotal(RestrictTo(m, rest - {k}))
  {
    MapTotalRemove(RestrictTo(m, rest), k);
    assert RestrictTo(m, rest) - {k} == RestrictTo(m, rest - {k});
  }

  /** Appending one entry adds its count to the sum. */
  lemma AppendOne<K>(s: seq<Entry<K>>, e: Entry<K>)
    ensures SumCounts(s + [e]) == SumCounts(s) + e.count
  {
    SumCountsAppend(s, [e]);
    assert [e][1..] == [];
  }

  /**
   The leaderboard of a tally: one entry per key, carrying that key's count,
   sorted by count with the largest first. No order among equal counts is
   promised (the Stats component enumerates keys in JavaScript property order).
   */
  method Rank<K>(m: map<K, nat>) returns (r: seq<Entry<K>>)
    ensures |r| == |m|
    ensures NonIncreasing(r)
    ensures forall i :: 0 <= i < |r| ==> r[i].key in m && r[i].count == m[r[i].key]
    ensures forall k :: k in m ==> exists i :: 0 <= i < |r| && r[i].key == k
    ensures SumCounts(r) == MapTotal(m)
  {
    var entries := EntriesOf(m);
    r := SortByCount(entries);
    forall i | 0 <= i < |r|
      ensures r[i].key in m && r[i].count == m[r[i].key]
    {
      assert r[i] in multiset(entries);
    }
    forall k | k in m
      ensures exists i :: 0 <= i < |r| && r[i].key == k
    {
      var j :| 0 <= j < |entries| && entries[j].key == k;
      assert entries[j] in multiset(r);
      var i :| 0 <= i < |r| && r[i] == entries[j];
    }
  }

  /** The part of a tally whose keys lie in `keys`. */
  function RestrictTo<K>(m: map<K, nat>, keys: set<K>): map<K, nat>
  {
    map k | k in m && k in keys :: m[k]
  }

  /** A leaderboard lists each key once: equal keys sit at the same position. */
  lemma RankedKeysDistinct<K>(m: map<K, nat>, r: seq<Entry<K>>)
    requires |r| == |m|
    requires forall i :: 0 <= i < |r| ==> r[i].key in m
    requires forall k :: k in m ==> exists i :: 0 <= i < |r| && r[i].key == k
    ensures forall i, j :: 0 <= i < j < |r| ==> r[i].key != r[j].key
  {
    if exists i, j :: 0 <= i < j < |r| && r[i].key == r[j].key {
      var i, j :| 0 <= i < j < |r| && r[i].key == r[j].key;
      // Without position j the list still reaches every key, so it needs |m| positions, not |m| - 1.
      var rest := r[..j] + r[j + 1..];
      var keys := set x | 0 <= x < |rest| :: rest[x].key;
      assert m.Keys <= keys by {
        forall k | k in m
          ensures k in keys
        {
          var p :| 0 <= p < |r| && r[p].key == k;
          if p < j {
            assert rest[p] == r[p];
          } else if p > j {
            assert rest[p - 1] == r[p];
          } else {
            assert rest[i] == r[i];
          }
        }
      }
      KeysBound(rest);
      SubsetCardinality(m.Keys, keys);
      assert false;
    }
  }

  /** A list names at most as many distinct keys as it has entries. */
  lemma {:induction false} KeysBound<K>(s: seq<Entry<K>>)
    ensures |set x | 0 <= x < |s| :: s[x].key| <= |s|
  {
    if s != [] {
      var last := |s| - 1;
      KeysBound(s[..last]);
      var front := set x | 0 <= x < last :: s[..last][x].key;
      var all := set x | 0 <= x < |s| :: s[x].key;
      assert all <= front + {s[last].key} by {
        forall k | k in all
          ensures k in front + {s[last].key}
        {
          var x :| 0 <= x < |s| && s[x].key == k;
          if x < last {
            assert s[..last][x] == s[x];
          }
        }
      }
      SubsetCardinality(all, front + {s[last].key});
    }
  }

  /** A subset is no larger than its superset. */
  lemma {:induction false} SubsetCardinality<T>(a: set<T>, b: set<T>)
    requires a <= b
    ensures |a| <= |b|
    decreases |b|
  {
    if a != {} {
      var x :| x in a;
      SubsetCardinality(a - {x}, b - {x});
    }
  }
}
