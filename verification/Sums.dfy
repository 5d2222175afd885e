/** Sums over the values of a finite map: what SQL's SUM computes. */
module Sums {

  ghost function Sum<K>(m: map<K, nat>): nat
    decreases m.Keys
  {
    if m == map[] then 0
    else var k :| k in m; m[k] + Sum(m - {k})
  }

  /** The order in which a sum takes its terms does not matter. */
  lemma {:induction false} SumTake<K>(m: map<K, nat>, k: K)
    requires k in m
    ensures Sum(m) == m[k] + Sum(m - {k})
    decreases m.Keys
  {
    var p :| p in m && Sum(m) == m[p] + Sum(m - {p});
    if p != k {
      SumTake(m - {p}, k);
      SumTake(m - {k}, p);
      assert m - {p} - {k} == m - {k} - {p};
    }
  }

  /** Lowering terms lowers the sum, strictly so when one term drops. */
  lemma {:induction false} SumPointwise<K>(low: map<K, nat>, high: map<K, nat>)
    requires low.Keys == high.Keys
    requires forall k :: k in low ==> low[k] <= high[k]
    ensures Sum(low) <= Sum(high)
    ensures (exists k :: k in low && low[k] < high[k]) ==> Sum(low) < Sum(high)
    decreases low.Keys
  {
    if low == map[] {
    } else {
      var k :| k in low;
      SumTake(low, k);
      SumTake(high, k);
      SumPointwise(low - {k}, high - {k});
      if low[k] == high[k] && exists j :: j in low && low[j] < high[j] {
        var j :| j in low && low[j] < high[j];
        assert j in low - {k} && (low - {k})[j] < (high - {k})[j];
      }
    }
  }

  /** Terms that may only grow, under a sum that did not, have not moved. */
  lemma SumEqual<K>(low: map<K, nat>, high: map<K, nat>)
    requires low.Keys == high.Keys
    requires forall k :: k in low ==> low[k] <= high[k]
    requires Sum(low) == Sum(high)
    ensures low == high
  {
    SumPointwise(low, high);
  }

  lemma SumAdd<K>(m: map<K, nat>, k: K, v: nat)
    ensures Sum(m[k := v]) == Sum(m) - (if k in m then m[k] else 0) + v
  {
    var n := m[k := v];
    SumTake(n, k);
    if k in m {
      SumTake(m, k);
      assert n - {k} == m - {k};
    } else {
      assert n - {k} == m;
    }
  }

  /** Of the terms outside `left`, one more. */
  lemma SumWithOneMore<K>(m: map<K, nat>, left: set<K>, k: K)
    requires k in left && k in m
    ensures Sum(m - (left - {k})) == Sum(m - left) + m[k]
  {
    assert m - (left - {k}) == (m - left)[k := m[k]];
    SumAdd(m - left, k, m[k]);
  }

  lemma SubsetCards<T>(small: set<T>, big: set<T>)
    requires small <= big
    ensures |small| <= |big|
    ensures |small| == |big| ==> small == big
  {
    assert big == small + (big - small);
  }

  /** How many elements satisfy `p`. */
  function CountIf<T>(xs: seq<T>, p: T -> bool): nat {
    if xs == [] then 0
    else CountIf(xs[..|xs| - 1], p) + (if p(xs[|xs| - 1]) then 1 else 0)
  }

  lemma {:induction false} CountIfZero<T>(xs: seq<T>, p: T -> bool)
    ensures CountIf(xs, p) == 0 <==> forall i :: 0 <= i < |xs| ==> !p(xs[i])
  {
    if xs != [] {
      var init := xs[..|xs| - 1];
      CountIfZero(init, p);
      assert forall i :: 0 <= i < |init| ==> init[i] == xs[i];
    }
  }
}
