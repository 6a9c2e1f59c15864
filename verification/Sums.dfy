/** Sums over finite maps, in whatever order the keys come. */
module Sums {

  ghost function Total<K>(f: map<K, nat>): nat {
    if f == map[] then 0
    else
      var k :| k in f;
      f[k] + Total(f - {k})
  }

  /** Any key may be taken out first. */
  lemma {:induction false} TakeOut<K>(f: map<K, nat>, k: K)
    requires k in f
    ensures Total(f) == f[k] + Total(f - {k})
    decreases |f|
  {
    var j :| j in f && Total(f) == f[j] + Total(f - {j});
    if j != k {
      TakeOut(f - {j}, k);
      TakeOut(f - {k}, j);
      assert f - {j} - {k} == f - {k} - {j};
    }
  }

  lemma Replace<K>(f: map<K, nat>, k: K, v: nat)
    ensures Total(f[k := v]) + (if k in f then f[k] else 0) == Total(f) + v
  {
    var g := f[k := v];
    TakeOut(g, k);
    assert g - {k} == f - {k};
    if k in f {
      TakeOut(f, k);
    } else {
      assert f - {k} == f;
    }
  }

  lemma {:induction false} Zero<K>(f: map<K, nat>)
    ensures Total(f) == 0 <==> forall k | k in f :: f[k] == 0
    decreases |f|
  {
    if f != map[] {
      var k :| k in f && Total(f) == f[k] + Total(f - {k});
      Zero(f - {k});
      assert forall j | j in f && j != k :: j in f - {k};
    }
  }
}
