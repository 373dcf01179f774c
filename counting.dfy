/** Histograms built the way the source builds them: a `HashMap` whose entry
    for a key is created at 0 and incremented (`*m.entry(k).or_insert(0) += 1`). */
module Counting {

  /** One increment of the entry for `k`. */
  function Bump<K>(m: map<K, nat>, k: K): map<K, nat> {
    m[k := (if k in m then m[k] else 0) + 1]
  }

  /** The histogram of `ks`: the map after bumping each key in order. */
  function Tally<K>(ks: seq<K>): map<K, nat> {
    if |ks| == 0 then map[] else Bump(Tally(ks[..|ks| - 1]), ks[|ks| - 1])
  }

  /** Counting one more key is one more increment. */
  lemma TallySnoc<K>(ks: seq<K>, k: K)
    ensures Tally(ks + [k]) == Bump(Tally(ks), k)
  {
    assert (ks + [k])[..|ks|] == ks;
  }

  /** A key has an entry iff it occurs, and the entry is its number of occurrences. */
  lemma {:induction false} TallyCounts<K>(ks: seq<K>, k: K)
    ensures k in Tally(ks) <==> k in ks
    ensures k in Tally(ks) ==> Tally(ks)[k] == multiset(ks)[k]
  {
    if |ks| > 0 {
      var init := ks[..|ks| - 1];
      TallyCounts(init, k);
      assert ks == init + [ks[|ks| - 1]];
      assert k in ks <==> k in init || k == ks[|ks| - 1];
      if k !in init {
        assert multiset(init)[k] == 0;
      }
    }
  }

  /** Sum of the values of a map. */
  ghost function SumValues<K>(m: map<K, nat>): nat
    decreases |m|
  {
    if |m| == 0 then 0
    else
      var k :| k in m;
      m[k] + SumValues(m - {k})
  }

  /** The sum can be split at any key, whichever key the definition picks. */
  lemma {:induction false} SumValuesAt<K>(m: map<K, nat>, k: K)
    requires k in m
    ensures SumValues(m) == m[k] + SumValues(m - {k})
    decreases |m|
  {
    RemoveSize(m, k);
    var j := PickKey(m);
    if j != k {
      var mj := m - {j};
      var mk := m - {k};
      RemoveSize(m, j);
      assert k in mj && j in mk;
      assert mj[k] == m[k] && mk[j] == m[j];
      SumValuesAt(mj, k);
      SumValuesAt(mk, j);
      assert mj - {k} == mk - {j};
    }
  }

  /** The key the definition of `SumValues` splits a non-empty map at. */
  lemma PickKey<K>(m: map<K, nat>) returns (j: K)
    requires |m| > 0
    ensures j in m && SumValues(m) == m[j] + SumValues(m - {j})
  {
    j :| j in m && SumValues(m) == m[j] + SumValues(m - {j});
  }

  /** Removing a present key shrinks a map by one. */
  lemma RemoveSize<K>(m: map<K, nat>, k: K)
    requires k in m
    ensures |m - {k}| == |m| - 1
  {
    assert (m - {k}).Keys == m.Keys - {k};
  }

  /** One increment adds one to the sum. */
  lemma SumValuesBump<K>(m: map<K, nat>, k: K)
    ensures SumValues(Bump(m, k)) == SumValues(m) + 1
  {
    var b := Bump(m, k);
    SumValuesAt(b, k);
    assert b - {k} == m - {k};
    if k in m {
      SumValuesAt(m, k);
    } else {
      assert m - {k} == m;
    }
  }

  /** The values of a histogram add up to the number of keys counted. */
  lemma {:induction false} TallySum<K>(ks: seq<K>)
    ensures SumValues(Tally(ks)) == |ks|
  {
    if |ks| > 0 {
      TallySum(ks[..|ks| - 1]);
      SumValuesBump(Tally(ks[..|ks| - 1]), ks[|ks| - 1]);
    }
  }
}
