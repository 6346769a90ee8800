/** The monthly milestone report of page 1.

    `get_monthly_customer_points` sums each customer's points per month
    number; `get_reached_1000_df` then counts, for every month present, the
    customers whose month total reached 1000 points and those whose total
    did not, and lists the months in calendar order (JAN before FEB ...).
    The chart adds `Total = reached + not reached` and
    `Percentage = reached / Total * 100`. Month names are modelled by their
    numbers 1-12, which name them one to one. */
module MilestoneByMonth {
  import opened Wrappers
  import opened Grouping
  import opened Ledger
  import opened UserMonths
  import Buckets
  import PointHistograms

  type CustPoints = UserMonth<CustMonth>

  /** `monthly_customer_points`: one row per month number and customer,
      holding the customer's `Total_Points` of that month. */
  function MonthlyCustomerPoints(rows: seq<Txn>): (us: seq<CustPoints>)
    ensures forall i, j :: 0 <= i < j < |us| ==> us[i].key != us[j].key
    ensures forall i :: 0 <= i < |us| ==> us[i].total == SumKey(rows, ByMonthNumber(), Points(), us[i].key)
  {
    var ks := Keys(rows, ByMonthNumber());
    var us := UsersAgg(rows, ByMonthNumber(), RowCount);
    forall i | 0 <= i < |us| ensures us[i].total == SumKey(rows, ByMonthNumber(), Points(), us[i].key) {
      AggregateOverAt(rows, ByMonthNumber(), ks, RowCount, i);
    }
    us
  }

  /** Every transaction has its customer-month row. */
  lemma RowHasCustPoints(rows: seq<Txn>, j: nat) returns (i: nat)
    requires j < |rows|
    ensures i < |MonthlyCustomerPoints(rows)|
    ensures MonthlyCustomerPoints(rows)[i].key == CustMonth(rows[j].cust, rows[j].date.month)
  {
    var ks := Keys(rows, ByMonthNumber());
    i :| 0 <= i < |ks| && ks[i] == ByMonthNumber()(rows[j]).value;
  }

  /** The table holds every point of the ledger, and as many transactions. */
  lemma MonthlyCustomerPointsConserves(rows: seq<Txn>)
    ensures TotalPoints(MonthlyCustomerPoints(rows)) == TotalAmount(rows)
    ensures TotalCount(MonthlyCustomerPoints(rows)) == |rows|
  {
    UsersAggConserves(rows, ByMonthNumber());
    SumKeyedAll(rows, ByMonthNumber(), Points());
    CountKeyedAll(rows, ByMonthNumber());
  }

  /** Every row of the table is the month of some transaction. */
  lemma CustPointsHasRow(rows: seq<Txn>, i: nat) returns (j: nat)
    requires i < |MonthlyCustomerPoints(rows)|
    ensures j < |rows|
    ensures MonthlyCustomerPoints(rows)[i].key == CustMonth(rows[j].cust, rows[j].date.month)
  {
    var ks := Keys(rows, ByMonthNumber());
    assert ks[i] in ks;
    j :| 0 <= j < |rows| && ByMonthNumber()(rows[j]) == Some(ks[i]);
  }

  function InMonth(m: int): CustPoints -> bool {
    (u: CustPoints) => u.key.month == m
  }

  function ReachedInMonth(m: int): CustPoints -> bool {
    (u: CustPoints) => u.key.month == m && u.total >= Milestone
  }

  function MissedInMonth(m: int): CustPoints -> bool {
    (u: CustPoints) => u.key.month == m && u.total < Milestone
  }

  /** A row of `reached_1000_df`: the month and its two counts. */
  datatype ReachedRow = ReachedRow(month: int, reached: nat, missed: nat)

  /** The counts of month `m`: together they count every customer-month
      of `m` once. */
  function ReachedRowOf(us: seq<CustPoints>, m: int): (r: ReachedRow)
    ensures r.month == m
    ensures r.reached + r.missed == Count(us, InMonth(m))
  {
    CountSplit(us, InMonth(m), (u: CustPoints) => u.total >= Milestone, ReachedInMonth(m), MissedInMonth(m));
    ReachedRow(m, Count(us, ReachedInMonth(m)), Count(us, MissedInMonth(m)))
  }

  predicate Present(us: seq<CustPoints>, m: int) {
    Count(us, InMonth(m)) > 0
  }

  /** The months `m, ..., 12` that occur in the table, in calendar order. */
  function MonthsFrom(us: seq<CustPoints>, m: int): (ms: seq<int>)
    requires 1 <= m <= 13
    ensures forall i :: 0 <= i < |ms| ==> m <= ms[i] <= 12 && Present(us, ms[i])
    ensures forall i, j :: 0 <= i < j < |ms| ==> ms[i] < ms[j]
    decreases 13 - m
  {
    if m == 13 then []
    else
      var rest := MonthsFrom(us, m + 1);
      if Present(us, m) then [m] + rest else rest
  }

  /** Every month from `m` to 12 that occurs is listed. */
  lemma {:induction false} MonthsFromHas(us: seq<CustPoints>, m: int, k: int) returns (idx: nat)
    requires 1 <= m <= k <= 12 && Present(us, k)
    ensures idx < |MonthsFrom(us, m)| && MonthsFrom(us, m)[idx] == k
    decreases 13 - m
  {
    var rest := MonthsFrom(us, m + 1);
    if k == m {
      idx := 0;
    } else {
      var r := MonthsFromHas(us, m + 1, k);
      if Present(us, m) {
        assert MonthsFrom(us, m) == [m] + rest;
        idx := r + 1;
      } else {
        idx := r;
      }
    }
  }

  function RowsFor(us: seq<CustPoints>, ms: seq<int>): (rs: seq<ReachedRow>)
    ensures |rs| == |ms|
    ensures forall i :: 0 <= i < |ms| ==> rs[i] == ReachedRowOf(us, ms[i])
    ensures forall i :: 0 <= i < |rs| ==> rs[i] == ReachedRowOf(us, rs[i].month)
  {
    if ms == [] then [] else [ReachedRowOf(us, ms[0])] + RowsFor(us, ms[1..])
  }

  /** `reached_1000_df`: one row per month present, in calendar order;
      every row counts at least one customer, so its `Total` is positive,
      and holds that month's reached and missed customer-months. */
  function ReachedTable(rows: seq<Txn>): (rs: seq<ReachedRow>)
    ensures forall i, j :: 0 <= i < j < |rs| ==> rs[i].month < rs[j].month
    ensures forall i :: 0 <= i < |rs| ==> rs[i] == ReachedRowOf(MonthlyCustomerPoints(rows), rs[i].month)
    ensures forall i :: 0 <= i < |rs| ==> 1 <= rs[i].month <= 12 && rs[i].reached + rs[i].missed >= 1
  {
    var us := MonthlyCustomerPoints(rows);
    RowsFor(us, MonthsFrom(us, 1))
  }

  lemma {:induction false} CountPositive<T>(s: seq<T>, p: T -> bool, i: nat)
    requires i < |s| && p(s[i])
    ensures Count(s, p) > 0
  {
    if i > 0 {
      assert s[i] == s[1..][i - 1];
      CountPositive(s[1..], p, i - 1);
    }
  }

  /** A month of the table that is a calendar month is listed. */
  lemma MonthListed(us: seq<CustPoints>, i: nat) returns (k: nat)
    requires i < |us| && 1 <= us[i].key.month <= 12
    ensures k < |MonthsFrom(us, 1)| && MonthsFrom(us, 1)[k] == us[i].key.month
  {
    CountPositive(us, InMonth(us[i].key.month), i);
    k := MonthsFromHas(us, 1, us[i].key.month);
  }

  /** A listed month has a customer-month. */
  lemma ListedHasCustomer(us: seq<CustPoints>, m: int) returns (k: nat)
    requires Present(us, m)
    ensures k < |us| && us[k].key.month == m
  {
    CountKeyIsCount(us, (u: CustPoints) => Some(u.key.month), m, InMonth(m));
    CountKeyPositive(us, (u: CustPoints) => Some(u.key.month), m);
    k :| 0 <= k < |us| && us[k].key.month == m;
  }

  /** Every calendar month with a transaction has its row, and every row is
      the month of a transaction. */
  lemma ReachedTableCovers(rows: seq<Txn>, m: int)
    requires 1 <= m <= 12
    ensures (exists i :: 0 <= i < |ReachedTable(rows)| && ReachedTable(rows)[i].month == m)
        <==> (exists j :: 0 <= j < |rows| && rows[j].date.month == m)
  {
    var us := MonthlyCustomerPoints(rows);
    var rs := ReachedTable(rows);
    if j :| 0 <= j < |rows| && rows[j].date.month == m {
      var i := RowHasCustPoints(rows, j);
      var k := MonthListed(us, i);
      assert rs[k].month == m;
    }
    if i :| 0 <= i < |rs| && rs[i].month == m {
      var k := ListedHasCustomer(us, m);
      var j := CustPointsHasRow(rows, k);
      assert rows[j].date.month == m;
    }
  }

  function SumReached(rs: seq<ReachedRow>): int {
    if rs == [] then 0 else rs[0].reached + SumReached(rs[1..])
  }

  function SumMissed(rs: seq<ReachedRow>): int {
    if rs == [] then 0 else rs[0].missed + SumMissed(rs[1..])
  }

  function ReachedKey(): CustPoints -> Option<int> {
    (u: CustPoints) => if u.total >= Milestone then Some(u.key.month) else None
  }

  function MissedKey(): CustPoints -> Option<int> {
    (u: CustPoints) => if u.total < Milestone then Some(u.key.month) else None
  }

  lemma {:induction false} RowSums(us: seq<CustPoints>, ms: seq<int>)
    ensures SumReached(RowsFor(us, ms)) == CountOver(ms, us, ReachedKey())
    ensures SumMissed(RowsFor(us, ms)) == CountOver(ms, us, MissedKey())
  {
    if ms != [] {
      RowSums(us, ms[1..]);
      CountKeyIsCount(us, ReachedKey(), ms[0], ReachedInMonth(ms[0]));
      CountKeyIsCount(us, MissedKey(), ms[0], MissedInMonth(ms[0]));
    }
  }

  lemma {:induction false} CountComplement<T>(s: seq<T>, p: T -> bool, q: T -> bool)
    requires forall x :: x in s ==> (p(x) <==> !q(x))
    ensures Count(s, p) + Count(s, q) == |s|
  {
    if s != [] {
      assert forall x :: x in s[1..] ==> x in s;
      CountComplement(s[1..], p, q);
    }
  }

  function IsReached(): CustPoints -> bool {
    (u: CustPoints) => u.total >= Milestone
  }

  function IsMissed(): CustPoints -> bool {
    (u: CustPoints) => u.total < Milestone
  }

  lemma TableSums(us: seq<CustPoints>)
    requires forall i :: 0 <= i < |us| ==> 1 <= us[i].key.month <= 12
    ensures SumReached(RowsFor(us, MonthsFrom(us, 1))) == Count(us, IsReached())
    ensures SumMissed(RowsFor(us, MonthsFrom(us, 1))) == Count(us, IsMissed())
  {
    var ms := MonthsFrom(us, 1);
    RowSums(us, ms);
    forall i | 0 <= i < |us| ensures us[i].key.month in ms {
      var k := MonthListed(us, i);
    }
    PartitionCount(ms, us, ReachedKey());
    PartitionCount(ms, us, MissedKey());
    CountKeyedIsCount(us, ReachedKey(), IsReached());
    CountKeyedIsCount(us, MissedKey(), IsMissed());
  }

  /** Over the whole table the reached counts add up to the customer-months
      at or above 1000 points, the missed counts to those below, and the two
      together to every row of `monthly_customer_points`. */
  lemma ReachedTableConserves(rows: seq<Txn>)
    ensures SumReached(ReachedTable(rows)) == Count(MonthlyCustomerPoints(rows), IsReached())
    ensures SumMissed(ReachedTable(rows)) == Count(MonthlyCustomerPoints(rows), IsMissed())
    ensures SumReached(ReachedTable(rows)) + SumMissed(ReachedTable(rows)) == |MonthlyCustomerPoints(rows)|
  {
    var us := MonthlyCustomerPoints(rows);
    TableSums(us);
    CountComplement(us, IsReached(), IsMissed());
  }

  /** `Total` of a row. */
  function Total(r: ReachedRow): nat {
    r.reached + r.missed
  }

  /** `Percentage`, before rounding: the share of the month's customers who
      reached 1000 points. */
  function Percentage(r: ReachedRow): (p: real)
    requires Total(r) > 0
    ensures 0.0 <= p <= 100.0
    ensures p == 100.0 <==> r.missed == 0
    ensures p == 0.0 <==> r.reached == 0
  {
    Buckets.ShareBounds(r.reached, Total(r));
    r.reached as real / Total(r) as real * 100.0
  }

  /** The last of the four page-1 point buckets ("1000+") holds exactly the
      customer-months that `reached_1000_df` counts as reached, and every
      non-negative total falls in some bucket; the buckets exist only when
      the largest total is at least 1000. */
  lemma TopBucketIsReached(rows: seq<Txn>, x: int)
    requires x in PointHistograms.CustomerTotals(rows) && x >= 0
    requires PointHistograms.Max(PointHistograms.CustomerTotals(rows)) >= Milestone
    ensures Buckets.ValidBins(PointHistograms.Tab2Bins(PointHistograms.Max(PointHistograms.CustomerTotals(rows))))
    ensures var b := PointHistograms.Tab2Bins(PointHistograms.Max(PointHistograms.CustomerTotals(rows)));
            Buckets.Bucket(b, x).Some? && (Buckets.Bucket(b, x) == Some(3) <==> x >= Milestone)
  {
    var xs := PointHistograms.CustomerTotals(rows);
    var max := PointHistograms.Max(xs);
    var i :| 0 <= i < |xs| && xs[i] == x;
    PointHistograms.TabBinsCover(max, x);
    PointHistograms.TabBinsValid(max);
    Buckets.BucketIsInterval(PointHistograms.Tab2Bins(max), x, 3);
  }
}
