/** Sums over finite maps of amounts. */
module Sums {

  ghost function SumOf(m: map<string, int>): int {
    if m == map[] then 0
    else
      var k :| k in m;
      m[k] + SumOf(m - {k})
  }

  /** Any key can be taken out of the sum. */
  lemma {:induction false} SumSplit(m: map<string, int>, k: string)
    requires k in m
    ensures SumOf(m) == m[k] + SumOf(m - {k})
    decreases |m|
  {
    var j :| j in m && SumOf(m) == m[j] + SumOf(m - {j});
    if j != k {
      SumSplit(m - {j}, k);
      SumSplit(m - {k}, j);
      assert m - {k} - {j} == m - {j} - {k};
    }
  }

  lemma SumPut(m: map<string, int>, k: string, v: int)
    ensures SumOf(m[k := v]) == SumOf(m) + v - if k in m then m[k] else 0
  {
    SumSplit(m[k := v], k);
    if k in m {
      SumSplit(m, k);
      assert m[k := v] - {k} == m - {k};
    } else {
      assert m[k := v] - {k} == m;
    }
  }

  /** Dropping keys with non-negative values cannot raise the sum. */
  lemma {:induction false} SumOfPart(part: map<string, int>, m: map<string, int>)
    requires forall k :: k in part ==> k in m && part[k] == m[k]
    requires forall k :: k in m ==> m[k] >= 0
    ensures 0 <= SumOf(part) <= SumOf(m)
    decreases |m|
  {
    if m == map[] {
      assert part == map[];
    } else {
      var k :| k in m;
      SumSplit(m, k);
      if k in part {
        SumSplit(part, k);
        SumOfPart(part - {k}, m - {k});
      } else {
        SumOfPart(part, m - {k});
      }
    }
  }
}
