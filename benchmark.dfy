/**
 * The retrieval benchmark: over a gold set of (question, correct chunk ID)
 * pairs it counts the queries whose correct ID is among the retrieved IDs
 * (hit rate) and sums the reciprocal rank of its first occurrence (MRR). The
 * embedding search is not modelled: each query comes with its ranked list of
 * retrieved IDs.
 */
module Benchmark {
  import opened Wrappers
  import opened Numeric

  /** A gold query with the IDs the search returned for its question, best first. */
  datatype GoldQuery = GoldQuery(correctId: string, retrieved: seq<string>)

  /** `{"Hit Rate@5": …, "MRR": …}` */
  datatype Report = Report(hitRate: real, mrr: real)

  /** `ids.index(id)`: the position of the first occurrence. */
  function IndexOf(ids: seq<string>, id: string): (i: nat)
    requires id in ids
    ensures i < |ids| && ids[i] == id
    ensures forall j :: 0 <= j < i ==> ids[j] != id
  {
    if ids[0] == id then 0 else 1 + IndexOf(ids[1..], id)
  }

  predicate Hit(q: GoldQuery) {
    q.correctId in q.retrieved
  }

  /** `1.0 / rank` with the 1-based rank of the first occurrence, or 0 for a miss. */
  function ReciprocalRank(q: GoldQuery): (r: real)
    ensures 0.0 <= r <= 1.0
    ensures !Hit(q) ==> r == 0.0
    ensures Hit(q) ==> r > 0.0
    ensures Hit(q) && q.retrieved[0] == q.correctId ==> r == 1.0
  {
    if Hit(q) then 1.0 / (IndexOf(q.retrieved, q.correctId) + 1) as real else 0.0
  }

  /** `hits` after the loop. */
  function Hits(gold: seq<GoldQuery>): nat
    decreases |gold|
  {
    if gold == [] then 0
    else Hits(gold[..|gold| - 1]) + (if Hit(gold[|gold| - 1]) then 1 else 0)
  }

  /** `mrr_sum` after the loop. */
  function MrrSum(gold: seq<GoldQuery>): real
    decreases |gold|
  {
    if gold == [] then 0.0
    else MrrSum(gold[..|gold| - 1]) + ReciprocalRank(gold[|gold| - 1])
  }

  /** `evaluate_retrieval` from the ranked lists on; an empty gold set raises
      `ZeroDivisionError`, which is `None` here. */
  method EvaluateRetrieval(gold: seq<GoldQuery>, round: Rounding) returns (report: Option<Report>)
    ensures gold == [] ==> report == None
    ensures gold != [] ==> report == Some(Report(
      round(Hits(gold) as real / |gold| as real, 4),
      round(MrrSum(gold) / |gold| as real, 4)))
  {
    var hits: nat := 0;
    var mrrSum: real := 0.0;
    var i := 0;
    while i < |gold|
      invariant 0 <= i <= |gold|
      invariant hits == Hits(gold[..i])
      invariant mrrSum == MrrSum(gold[..i])
    {
      var item := gold[i];
      assert gold[..i + 1][..i] == gold[..i];
      if item.correctId in item.retrieved {
        hits := hits + 1;
        var rank := IndexOf(item.retrieved, item.correctId) + 1;
        mrrSum := mrrSum + 1.0 / rank as real;
      }
      i := i + 1;
    }
    assert gold[..|gold|] == gold;
    if |gold| == 0 {
      return None;
    }
    return Some(Report(round(hits as real / |gold| as real, 4), round(mrrSum / |gold| as real, 4)));
  }

  /** `hits` is the number of gold queries whose correct ID was retrieved. */
  lemma {:induction false} HitsCountsFound(gold: seq<GoldQuery>)
    ensures Hits(gold) == |set k | 0 <= k < |gold| && Hit(gold[k])|
    decreases |gold|
  {
    if gold != [] {
      var m := |gold| - 1;
      HitsCountsFound(gold[..m]);
      var before := set k | 0 <= k < m && Hit(gold[..m][k]);
      var now := set k | 0 <= k < |gold| && Hit(gold[k]);
      assert before == set k | 0 <= k < m && Hit(gold[k]);
      if Hit(gold[m]) {
        assert now == before + {m};
      } else {
        assert now == before;
      }
    }
  }

  /** Each query adds at most 1 to the MRR sum and only when it is a hit, so
      0 <= mrr_sum <= hits <= number of queries. */
  lemma {:induction false} MrrBelowHits(gold: seq<GoldQuery>)
    ensures 0.0 <= MrrSum(gold) <= Hits(gold) as real
    ensures Hits(gold) <= |gold|
    decreases |gold|
  {
    if gold != [] {
      MrrBelowHits(gold[..|gold| - 1]);
    }
  }

  /** When every correct ID is ranked first, both sums equal the number of queries. */
  lemma {:induction false} AllRankedFirst(gold: seq<GoldQuery>)
    requires forall k :: 0 <= k < |gold| ==> gold[k].retrieved != [] && gold[k].retrieved[0] == gold[k].correctId
    ensures Hits(gold) == |gold|
    ensures MrrSum(gold) == |gold| as real
    decreases |gold|
  {
    if gold != [] {
      var m := |gold| - 1;
      assert forall k :: 0 <= k < m ==> gold[..m][k] == gold[k];
      AllRankedFirst(gold[..m]);
      assert Hit(gold[m]);
    }
  }

  /** When no correct ID is retrieved, both sums are zero. */
  lemma {:induction false} NoneRetrieved(gold: seq<GoldQuery>)
    requires forall k :: 0 <= k < |gold| ==> !Hit(gold[k])
    ensures Hits(gold) == 0 && MrrSum(gold) == 0.0
    decreases |gold|
  {
    if gold != [] {
      var m := |gold| - 1;
      assert forall k :: 0 <= k < m ==> gold[..m][k] == gold[k];
      NoneRetrieved(gold[..m]);
    }
  }

  lemma RoundingKeepsOrder(round: Rounding, x: real, y: real, d: nat)
    requires MonotoneRounding(round) && x <= y
    ensures round(x, d) <= round(y, d)
  {
  }

  lemma RatioBetween(x: real, y: real, n: real)
    requires n > 0.0 && 0.0 <= x <= y <= n
    ensures 0.0 <= x / n <= y / n <= 1.0
  {
    var p := x / n;
    var q := y / n;
    assert p * n == x;
    assert q * n == y;
  }

  /** Before rounding 0 <= MRR <= hit rate <= 1, and a rounding that is
      monotone and keeps 0 and 1 preserves that order. */
  lemma ReportedBounds(gold: seq<GoldQuery>, round: Rounding)
    requires gold != []
    requires MonotoneRounding(round) && round(0.0, 4) == 0.0 && round(1.0, 4) == 1.0
    ensures var hitRate := round(Hits(gold) as real / |gold| as real, 4);
      var mrr := round(MrrSum(gold) / |gold| as real, 4);
      0.0 <= mrr <= hitRate <= 1.0
  {
    var n := |gold| as real;
    var h := Hits(gold) as real / n;
    var m := MrrSum(gold) / n;
    MrrBelowHits(gold);
    RatioBetween(MrrSum(gold), Hits(gold) as real, n);
    RoundingKeepsOrder(round, 0.0, m, 4);
    RoundingKeepsOrder(round, m, h, 4);
    RoundingKeepsOrder(round, h, 1.0, 4);
  }

  /** A gold set whose correct IDs are all ranked first reports a hit rate and
      an MRR of exactly 1 (when rounding keeps 1). */
  lemma PerfectRankingReportsOne(gold: seq<GoldQuery>, round: Rounding)
    requires gold != []
    requires forall k :: 0 <= k < |gold| ==> gold[k].retrieved != [] && gold[k].retrieved[0] == gold[k].correctId
    requires round(1.0, 4) == 1.0
    ensures round(Hits(gold) as real / |gold| as real, 4) == 1.0
    ensures round(MrrSum(gold) / |gold| as real, 4) == 1.0
  {
    AllRankedFirst(gold);
    var n := |gold| as real;
    OverSelf(Hits(gold) as real, n);
    OverSelf(MrrSum(gold), n);
  }

  lemma OverSelf(x: real, n: real)
    requires n > 0.0 && x == n
    ensures x / n == 1.0
  {
  }
}
