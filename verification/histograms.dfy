/** The point histograms of pages 1, 5 and the miscellaneous page, the
    cumulative cutoff counts of page 1 and the discounted-withdrawal
    comparison of page 5. */
module PointHistograms {
  import opened Wrappers
  import opened Grouping
  import opened Ledger
  import opened UserMonths
  import opened MonthlyStats
  import opened Buckets

  /** The twelve buckets of a user-month total: 0-49, 50-99, 100-199, ...,
      900-999 and 1000+. */
  const PointBins: Bins := Bins([0, 50, 100, 200, 300, 400, 500, 600, 700, 800, 900, 1000], true)

  lemma PointBinsValid()
    ensures ValidBins(PointBins) && NumBuckets(PointBins) == 12
  {
  }

  /** Every non-negative total has a bucket and a negative total has none;
      the first bucket is [0, 50) and the last holds every total of at
      least 1000. */
  lemma PointBucketCoverage(x: int)
    ensures ValidBins(PointBins)
    ensures Bucket(PointBins, x).Some? <==> x >= 0
    ensures Bucket(PointBins, x) == Some(0) <==> 0 <= x < 50
    ensures Bucket(PointBins, x) == Some(11) <==> x >= Milestone
  {
    PointBinsValid();
    BucketIsInterval(PointBins, x, 0);
    BucketIsInterval(PointBins, x, 11);
  }

  function TotalOf(): Month -> int {
    (u: Month) => u.total
  }

  /** The user-month totals of month `p`. */
  function MonthTotals(rows: seq<Txn>, p: Period): (xs: seq<int>)
    ensures |xs| == TotalUsers(rows, p)
  {
    UserMonthsPerPeriod(rows, p);
    FilterLength(Table(rows), InPeriod(p));
    Project(Filter(Table(rows), InPeriod(p)), TotalOf())
  }

  function NonNegative(): int -> bool {
    (x: int) => x >= 0
  }

  /** `build_monthly_bucket_counts`: the bucket counts of month `p`. */
  function MonthBucketCounts(rows: seq<Txn>, p: Period): (h: seq<nat>)
    ensures |h| == 12
  {
    PointBinsValid();
    Histogram(PointBins, MonthTotals(rows, p))
  }

  /** A month's bucket counts add up to the number of its user-months with a
      non-negative total, which is at most its number of customers: a
      user-month with a negative total falls in no bucket. */
  lemma MonthBucketCountsPartition(rows: seq<Txn>, p: Period)
    ensures SumNat(MonthBucketCounts(rows, p)) == Count(MonthTotals(rows, p), NonNegative())
    ensures SumNat(MonthBucketCounts(rows, p)) <= TotalUsers(rows, p)
  {
    var xs := MonthTotals(rows, p);
    PointBinsValid();
    HistogramPartition(PointBins, xs);
    forall x | x in xs ensures InBins(PointBins)(x) <==> NonNegative()(x) {
      PointBucketCoverage(x);
    }
    CountAgree(xs, InBins(PointBins), NonNegative());
    CountAtMostLength(xs, NonNegative());
  }

  /** The `Percent` column of a month with a bucketed user-month adds up to
      100. */
  lemma MonthPercentsSumTo100(rows: seq<Txn>, p: Period)
    requires SumNat(MonthBucketCounts(rows, p)) > 0
    ensures SumReal(Percents(MonthBucketCounts(rows, p))) == 100.0
  {
    PercentsSumTo100(MonthBucketCounts(rows, p));
  }

  /** The cutoffs of the cumulative counts. */
  const Cutoffs: seq<int> := [400, 500, 600, 700, 800, 900]

  function CutoffMask(p: Period, c: int): Month -> bool {
    (u: Month) => PeriodOfMonth(u) == p && u.total < Milestone && u.total >= c
  }

  /** `load_segment_counts_cutoff_fast`: the user-months of `p` below the
      milestone with at least `c` points. */
  function CutoffCount(rows: seq<Txn>, p: Period, c: int): nat {
    Count(Table(rows), CutoffMask(p, c))
  }

  /** A higher cutoff never counts more user-months. */
  lemma CutoffMonotone(rows: seq<Txn>, p: Period, c1: int, c2: int)
    requires c1 <= c2
    ensures CutoffCount(rows, p, c2) <= CutoffCount(rows, p, c1)
  {
    CountMonotone(Table(rows), CutoffMask(p, c1), CutoffMask(p, c2));
  }

  /** Only user-months below the milestone are counted: every cutoff count is
      at most the month's `num_user_fail_1000`, and a cutoff at or above the
      milestone counts nothing. */
  lemma CutoffBounded(rows: seq<Txn>, p: Period, c: int)
    ensures CutoffCount(rows, p, c) <= StatOf(rows, p).failed
    ensures c >= Milestone ==> CutoffCount(rows, p, c) == 0
  {
    CountMonotone(Table(rows), MissedIn(p), CutoffMask(p, c));
    if c >= Milestone {
      CountNone(Table(rows), CutoffMask(p, c));
    }
  }

  /** The largest value of a non-empty column. */
  function Max(xs: seq<int>): (m: int)
    requires xs != []
    ensures m in xs
    ensures forall i :: 0 <= i < |xs| ==> xs[i] <= m
  {
    if |xs| == 1 then xs[0]
    else
      var r := Max(xs[1..]);
      assert forall i :: 1 <= i < |xs| ==> xs[i] == xs[1..][i - 1];
      if xs[0] >= r then xs[0] else r
  }

  /** The four buckets of page 1: 0-199, 200-499, 500-999 and 1000+, the last
      ending just above the largest total. */
  function Tab2Bins(max: int): Bins {
    Bins([0, 200, 500, 1000, max + 1], false)
  }

  /** The eleven buckets of page 5: 0-99, 100-199, ..., 900-999 and 1000+. */
  function Tab5Bins(max: int): Bins {
    Bins([0, 100, 200, 300, 400, 500, 600, 700, 800, 900, 1000, max + 1], false)
  }

  /** The bins are accepted exactly when the largest total is at least 1000;
      otherwise the last edge does not exceed 1000 and pandas raises. */
  lemma TabBinsValid(max: int)
    ensures ValidBins(Tab2Bins(max)) <==> max >= Milestone
    ensures ValidBins(Tab5Bins(max)) <==> max >= Milestone
    ensures NumBuckets(Tab2Bins(max)) == 4 && NumBuckets(Tab5Bins(max)) == 11
  {
    if max < Milestone {
      assert Tab2Bins(max).edges[4] <= Tab2Bins(max).edges[3];
      assert Tab5Bins(max).edges[11] <= Tab5Bins(max).edges[10];
    }
  }

  /** Every total in `[0, max]` lands in exactly one of the four page-1
      buckets and in exactly one of the eleven page-5 buckets. */
  lemma TabBinsCover(max: int, x: int)
    requires max >= Milestone && 0 <= x <= max
    ensures ValidBins(Tab2Bins(max)) && Bucket(Tab2Bins(max), x).Some?
    ensures ValidBins(Tab5Bins(max)) && Bucket(Tab5Bins(max), x).Some?
  {
    TabBinsValid(max);
  }

  /** The customer totals per month number (`monthly_customer_points`). */
  function CustomerTotals(rows: seq<Txn>): seq<int> {
    Project(UsersAgg(rows, ByMonthNumber(), RowCount), (u: UserMonth<CustMonth>) => u.total)
  }

  /** The page-5 segment counts over all months: `None` when there is no
      total or pandas rejects the bins. */
  function Tab5Counts(xs: seq<int>): (r: Option<seq<nat>>)
    ensures r.Some? <==> xs != [] && Max(xs) >= Milestone
    ensures r.Some? ==> |r.value| == 11
  {
    if xs == [] then None
    else
      TabBinsValid(Max(xs));
      if ValidBins(Tab5Bins(Max(xs))) then Some(Histogram(Tab5Bins(Max(xs)), xs)) else None
  }

  /** When the bins are accepted, the page-5 counts add up to the number of
      non-negative totals: no total is above the last edge. */
  lemma Tab5CountsPartition(xs: seq<int>)
    requires Tab5Counts(xs).Some?
    ensures SumNat(Tab5Counts(xs).value) == Count(xs, NonNegative())
  {
    var b := Tab5Bins(Max(xs));
    TabBinsValid(Max(xs));
    HistogramPartition(b, xs);
    forall x | x in xs ensures InBins(b)(x) <==> NonNegative()(x) {
      var i :| 0 <= i < |xs| && xs[i] == x;
    }
    CountAgree(xs, InBins(b), NonNegative());
  }

  /** The page-5 bucket labels. */
  const Tab5Labels: seq<string> := ["0-99", "100-199", "200-299", "300-399", "400-499", "500-599",
                                     "600-699", "700-799", "800-899", "900-999", "1000+"]

  /** `withdrawal_map`: the buckets whose customers could withdraw under the
      discounted threshold. */
  const WithdrawalMap: map<string, int> := map[
    "0-99" := 0, "100-199" := 0, "200-299" := 0, "300-399" := 0, "400-499" := 0,
    "500-599" := 1, "600-699" := 1, "700-799" := 1, "800-899" := 1, "900-999" := 1, "1000+" := 1]

  /** `Can_Withdraw_Discounted`: the map's value, 0 for a label it lacks. */
  predicate CanWithdrawDiscounted(i: nat)
    requires i < |Tab5Labels|
  {
    var name := Tab5Labels[i];
    (if name in WithdrawalMap then WithdrawalMap[name] else 0) == 1
  }

  /** `Can_Withdraw_Current`: only the 1000+ bucket. */
  predicate CanWithdrawCurrent(i: nat)
    requires i < |Tab5Labels|
  {
    Tab5Labels[i] == "1000+"
  }

  /** The discounted rule lets through every bucket from 500-599 upwards, and
      the current rule only 1000+, which the discounted rule also lets
      through. */
  lemma WithdrawalRules(i: nat)
    requires i < |Tab5Labels|
    ensures CanWithdrawDiscounted(i) <==> i >= 5
    ensures CanWithdrawCurrent(i) <==> i == 10
    ensures CanWithdrawCurrent(i) ==> CanWithdrawDiscounted(i)
  {
  }

  /** The counts of the buckets that satisfy `eligible`. */
  function Successes(h: seq<nat>, eligible: nat -> bool): nat {
    if h == [] then 0 else (if eligible(|h| - 1) then h[|h| - 1] else 0) + Successes(h[..|h| - 1], eligible)
  }

  /** A more permissive rule never has fewer successes. */
  lemma {:induction false} SuccessesMonotone(h: seq<nat>, strict: nat -> bool, loose: nat -> bool)
    requires forall i: nat :: i < |h| && strict(i) ==> loose(i)
    ensures Successes(h, strict) <= Successes(h, loose)
    ensures Successes(h, loose) <= SumNat(h)
  {
    if h != [] {
      SuccessesMonotone(h[..|h| - 1], strict, loose);
      SumNatSnoc(h[..|h| - 1], h[|h| - 1]);
      assert h[..|h| - 1] + [h[|h| - 1]] == h;
    }
  }

  lemma {:induction false} SumNatSnoc(h: seq<nat>, x: nat)
    ensures SumNat(h + [x]) == SumNat(h) + x
  {
    if h != [] {
      assert (h + [x])[1..] == h[1..] + [x];
      SumNatSnoc(h[1..], x);
    }
  }

  function Current(): nat -> bool {
    (i: nat) => i < |Tab5Labels| && CanWithdrawCurrent(i)
  }

  function Discounted(): nat -> bool {
    (i: nat) => i < |Tab5Labels| && CanWithdrawDiscounted(i)
  }

  /** `lift = discounted_rate - current_rate`, before rounding. */
  function Lift(h: seq<nat>): real
    requires SumNat(h) > 0
  {
    (Successes(h, Discounted()) as real - Successes(h, Current()) as real) / SumNat(h) as real * 100.0
  }

  /** Lowering the threshold never loses a success: `discounted_success >=
      current_success`, so the lift is never negative, and both are at
      most the number of bucketed totals. */
  lemma LiftNonNegative(h: seq<nat>)
    requires SumNat(h) > 0
    ensures Successes(h, Current()) <= Successes(h, Discounted()) <= SumNat(h)
    ensures Lift(h) >= 0.0
  {
    forall i: nat | i < |h| && Current()(i) ensures Discounted()(i) {
      WithdrawalRules(i);
    }
    SuccessesMonotone(h, Current(), Discounted());
  }
}
