/** Counter dictionaries: a missing key reads as zero. */
module Counters {

  function Get<K>(m: map<K, int>, k: K): int { if k in m then m[k] else 0 }

  function Add<K>(m: map<K, int>, k: K, n: int): map<K, int> { m[k := Get(m, k) + n] }

  /** Sum of the values whose key is picked. */
  ghost function TotalWhere<K>(m: map<K, int>, pick: K -> bool): int {
    if m == map[] then 0
    else
      var k :| k in m;
      (if pick(k) then m[k] else 0) + TotalWhere(m - {k}, pick)
  }

  ghost function Total<K>(m: map<K, int>): int { TotalWhere(m, k => true) }

  lemma {:induction false} TotalWithout<K>(m: map<K, int>, pick: K -> bool, k: K)
    requires k in m
    ensures TotalWhere(m, pick) == (if pick(k) then m[k] else 0) + TotalWhere(m - {k}, pick)
    decreases |m|
  {
    var j :| j in m && TotalWhere(m, pick) == (if pick(j) then m[j] else 0) + TotalWhere(m - {j}, pick);
    if j != k {
      TotalWithout(m - {j}, pick, k);
      TotalWithout(m - {k}, pick, j);
      assert m - {j} - {k} == m - {k} - {j};
    }
  }

  lemma TotalAdd<K>(m: map<K, int>, pick: K -> bool, k: K, n: int)
    ensures TotalWhere(Add(m, k, n), pick) == TotalWhere(m, pick) + if pick(k) then n else 0
  {
    var m' := Add(m, k, n);
    TotalWithout(m', pick, k);
    assert m' - {k} == m - {k};
    if k in m {
      TotalWithout(m, pick, k);
    } else {
      assert m - {k} == m;
    }
  }
}
