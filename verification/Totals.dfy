/** Sums over a finite map, the model of the database's aggregate(_sum). */
module Totals {

  ghost function Total(m: map<string, real>): real
    decreases |m|
  {
    if m == map[] then 0.0 else var k :| k in m; m[k] + Total(m - {k})
  }

  /** The sum does not depend on the order in which the entries are taken. */
  lemma {:induction false} TotalPick(m: map<string, real>, k: string)
    requires k in m
    ensures Total(m) == m[k] + Total(m - {k})
    decreases |m|
  {
    var j :| j in m && Total(m) == m[j] + Total(m - {j});
    if j != k {
      TotalPick(m - {j}, k);
      TotalPick(m - {k}, j);
      assert m - {j} - {k} == m - {k} - {j};
    }
  }

  lemma TotalNone(m: map<string, real>)
    requires m == map[]
    ensures Total(m) == 0.0
  {
  }

  /** A column loses one entry when one asset is taken out. */
  lemma TakeEntry(m: map<string, real>, rest: map<string, real>, s: string)
    requires s in m && rest == m - {s}
    ensures Total(m) == m[s] + Total(rest)
  {
    TotalPick(m, s);
  }

  lemma TotalUpdate(m: map<string, real>, k: string, v: real)
    ensures Total(m[k := v]) == Total(m) - (if k in m then m[k] else 0.0) + v
  {
    TotalPick(m[k := v], k);
    if k in m {
      TotalPick(m, k);
      assert m[k := v] - {k} == m - {k};
    } else {
      assert m[k := v] - {k} == m;
    }
  }
}
