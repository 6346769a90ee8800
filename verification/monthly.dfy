/** `pre_compute_user_and_monthly_data`: the monthly summary of page 1.

    For every calendar month from the first to the last with a transaction
    it reports the points earned, the number of distinct customers
    (`total_users`), how many of them reached the 1000-point milestone that
    month (`num_user_passed_1000`), how many did not (`num_user_fail_1000`)
    and how many were in their first month with the programme
    (`total_new_users`); a month in between without transactions has a row
    of zeros. The milestone and first-month counts are computed on the
    user-month table grouped by customer and calendar month. */
module MonthlyStats {
  import opened Wrappers
  import opened Grouping
  import opened Ledger
  import opened UserMonths
  import Buckets

  type Month = UserMonth<MonthKey>

  /** The page-1 user-month table (`user_level_stat_monthly`). */
  function Table(rows: seq<Txn>): seq<Month> {
    UsersAgg(rows, ByPeriod(), RowCount)
  }

  function PeriodKey(): Txn -> Option<Period> {
    (t: Txn) => Some(PeriodOf(t.date))
  }

  function CustOf(): Txn -> string {
    (t: Txn) => t.cust
  }

  function CustKey(): Txn -> Option<string> {
    (t: Txn) => Some(t.cust)
  }

  function PeriodOfMonth(u: Month): Period {
    Period(u.key.year, u.key.month)
  }

  function CustOfMonth(): Month -> string {
    (u: Month) => u.key.cust
  }

  /** The distinct customers of the ledger. */
  function Customers(rows: seq<Txn>): seq<string> {
    Keys(rows, CustKey())
  }

  /** `total_users`: the distinct customers with a transaction in `p`. */
  function TotalUsers(rows: seq<Txn>, p: Period): nat {
    |Keys(rows, Within(PeriodKey(), p, CustOf()))|
  }

  function InPeriod(p: Period): Month -> bool {
    (u: Month) => PeriodOfMonth(u) == p
  }

  function ReachedIn(p: Period): Month -> bool {
    (u: Month) => PeriodOfMonth(u) == p && Reached(u)
  }

  function MissedIn(p: Period): Month -> bool {
    (u: Month) => PeriodOfMonth(u) == p && !Reached(u)
  }

  /** `num_user_passed_1000`: user-months of `p` with at least 1000 points. */
  function Passed(rows: seq<Txn>, p: Period): nat {
    Count(Table(rows), ReachedIn(p))
  }

  /** `is_first_month`: no month of the same customer comes earlier. */
  predicate IsFirstMonth(us: seq<Month>, u: Month) {
    forall v :: v in us && v.key.cust == u.key.cust ==> !PeriodBefore(PeriodOfMonth(v), PeriodOfMonth(u))
  }

  function FirstMonthKey(us: seq<Month>): Month -> Option<Period> {
    (u: Month) => if IsFirstMonth(us, u) then Some(PeriodOfMonth(u)) else None
  }

  function IsFirst(us: seq<Month>): Month -> bool {
    (u: Month) => IsFirstMonth(us, u)
  }

  /** A user-month of `p` that is its customer's first. */
  function FirstIn(us: seq<Month>, p: Period): Month -> bool {
    (u: Month) => PeriodOfMonth(u) == p && IsFirstMonth(us, u)
  }

  /** `total_new_users`: the sum of `is_first_month` over the user-months
      of `p`. */
  function NewUsers(rows: seq<Txn>, p: Period): nat {
    CountKey(Table(rows), FirstMonthKey(Table(rows)), p)
  }

  /** Some transaction falls in month `p`. */
  predicate HasRowIn(rows: seq<Txn>, p: Period) {
    exists j :: 0 <= j < |rows| && PeriodOf(rows[j].date) == p
  }

  /** One row of `monthly_reward_stat`. */
  datatype MonthStat = MonthStat(period: Period, totalPoints: int, totalUsers: nat,
                                 passed: nat, failed: int, newUsers: nat)

  /** The summary of month `p`. `total_users` is the number of distinct
      customers of the month, which is also its number of user-months;
      `num_user_fail_1000` is computed as `total_users -
      num_user_passed_1000`, and the contract says that it is the number of
      that month's customers who missed the milestone. */
  function StatOf(rows: seq<Txn>, p: Period): (s: MonthStat)
    ensures s.period == p
    ensures s.totalPoints == SumKey(rows, PeriodKey(), Points(), p)
    ensures s.totalUsers == |ValuesIn(rows, PeriodKey(), p, CustOf())|
    ensures s.totalUsers == Count(Table(rows), InPeriod(p))
    ensures s.passed == Count(Table(rows), ReachedIn(p))
    ensures s.failed == Count(Table(rows), MissedIn(p))
    ensures s.newUsers == Count(Table(rows), FirstIn(Table(rows), p))
    ensures 0 <= s.passed <= s.totalUsers
    ensures s.passed + s.failed == s.totalUsers
  {
    PassedAndFailed(rows, p);
    UserMonthsPerPeriod(rows, p);
    TotalUsersIsNunique(rows, p);
    NewUsersAreFirstMonths(rows, p);
    MonthStat(p, SumKey(rows, PeriodKey(), Points(), p), TotalUsers(rows, p), Passed(rows, p),
              TotalUsers(rows, p) - Passed(rows, p), NewUsers(rows, p))
  }

  lemma TotalUsersIsNunique(rows: seq<Txn>, p: Period)
    ensures TotalUsers(rows, p) == |ValuesIn(rows, PeriodKey(), p, CustOf())|
  {
    WithinCount(rows, PeriodKey(), p, CustOf());
  }

  lemma NewUsersAreFirstMonths(rows: seq<Txn>, p: Period)
    ensures NewUsers(rows, p) == Count(Table(rows), FirstIn(Table(rows), p))
  {
    var us := Table(rows);
    CountKeyIsCount(us, FirstMonthKey(us), p, FirstIn(us, p));
  }

  /** A month without a transaction, which the month-end `Grouper` still
      emits between the first and the last month, has a row of zeros. */
  lemma EmptyMonthIsZero(rows: seq<Txn>, p: Period)
    requires !HasRowIn(rows, p)
    ensures StatOf(rows, p) == MonthStat(p, 0, 0, 0, 0, 0)
  {
    var us := Table(rows);
    SumKeyConstant(rows, PeriodKey(), Points(), p, 0);
    NoMonthIn(rows, p);
    CountNone(us, InPeriod(p));
    CountNone(us, ReachedIn(p));
    CountNone(us, FirstIn(us, p));
  }

  lemma NoMonthIn(rows: seq<Txn>, p: Period)
    requires !HasRowIn(rows, p)
    ensures forall u :: u in Table(rows) ==> PeriodOfMonth(u) != p
  {
    forall u | u in Table(rows) ensures PeriodOfMonth(u) != p {
      var j := MonthHasRow(rows, u);
      assert PeriodOf(rows[j].date) == PeriodOfMonth(u);
    }
  }

  /** A month with a transaction has a customer. */
  lemma BusyMonthHasUsers(rows: seq<Txn>, p: Period)
    requires HasRowIn(rows, p)
    ensures StatOf(rows, p).totalUsers > 0
  {
    var j :| 0 <= j < |rows| && PeriodOf(rows[j].date) == p;
    assert Within(PeriodKey(), p, CustOf())(rows[j]) == Some(rows[j].cust);
  }

  function StatsOver(rows: seq<Txn>, ps: seq<Period>): (ss: seq<MonthStat>)
    ensures |ss| == |ps|
    ensures forall i :: 0 <= i < |ps| ==> ss[i] == StatOf(rows, ps[i])
    ensures forall i :: 0 <= i < |ps| ==> ss[i].period == ps[i]
  {
    if ps == [] then [] else [StatOf(rows, ps[0])] + StatsOver(rows, ps[1..])
  }

  /** Some row of `ss` is that of month `p`. */
  predicate HasPeriod(ss: seq<MonthStat>, p: Period) {
    exists i :: 0 <= i < |ss| && ss[i].period == p
  }

  /** The calendar position of a transaction's month. */
  function RowMonth(t: Txn): int {
    MonthIndex(PeriodOf(t.date))
  }

  /** The position of the earliest month with a transaction. */
  function FirstIndex(rows: seq<Txn>): (n: int)
    requires rows != []
    ensures forall j :: 0 <= j < |rows| ==> n <= RowMonth(rows[j])
    ensures exists j :: 0 <= j < |rows| && RowMonth(rows[j]) == n
  {
    if |rows| == 1 then RowMonth(rows[0])
    else
      var m := FirstIndex(rows[1..]);
      assert forall j :: 1 <= j < |rows| ==> rows[j] == rows[1..][j - 1];
      if RowMonth(rows[0]) < m then RowMonth(rows[0]) else m
  }

  /** The position of the latest month with a transaction. */
  function LastIndex(rows: seq<Txn>): (n: int)
    requires rows != []
    ensures forall j :: 0 <= j < |rows| ==> RowMonth(rows[j]) <= n
    ensures exists j :: 0 <= j < |rows| && RowMonth(rows[j]) == n
  {
    if |rows| == 1 then RowMonth(rows[0])
    else
      var m := LastIndex(rows[1..]);
      assert forall j :: 1 <= j < |rows| ==> rows[j] == rows[1..][j - 1];
      if RowMonth(rows[0]) > m then RowMonth(rows[0]) else m
  }

  /** The bins of the month-end `Grouper`: every month from the earliest
      to the latest month with a transaction. */
  function Bins(rows: seq<Txn>): seq<Period> {
    if rows == [] then [] else MonthRange(FirstIndex(rows), LastIndex(rows))
  }

  /** A non-empty ledger has at least one bin. */
  lemma BinsNonEmpty(rows: seq<Txn>)
    ensures rows == [] <==> Bins(rows) == []
  {
    if rows != [] {
      assert FirstIndex(rows) <= RowMonth(rows[0]) <= LastIndex(rows);
    }
  }

  /** The bins cover every transaction's month. */
  lemma BinsCover(rows: seq<Txn>)
    ensures forall j :: 0 <= j < |rows| ==> PeriodOf(rows[j].date) in Bins(rows)
  {
    if rows != [] {
      var lo, hi := FirstIndex(rows), LastIndex(rows);
      forall j | 0 <= j < |rows| ensures PeriodOf(rows[j].date) in Bins(rows) {
        InRange(lo, hi, PeriodOf(rows[j].date));
      }
    }
  }

  /** Both end bins hold a transaction. */
  lemma BinsEnds(rows: seq<Txn>)
    ensures Bins(rows) != [] ==> HasRowIn(rows, Bins(rows)[0]) && HasRowIn(rows, Bins(rows)[|Bins(rows)| - 1])
  {
    if rows != [] {
      var lo, hi := FirstIndex(rows), LastIndex(rows);
      var ps := MonthRange(lo, hi);
      if ps != [] {
        var a :| 0 <= a < |rows| && RowMonth(rows[a]) == lo;
        var b :| 0 <= b < |rows| && RowMonth(rows[b]) == hi;
        SameIndexSameMonth(ps[0], PeriodOf(rows[a].date));
        SameIndexSameMonth(ps[|ps| - 1], PeriodOf(rows[b].date));
      }
    }
  }

  /** `monthly_reward_stat`: each row the summary of its month, no rows
      for an empty ledger; `SummaryMonths` states which months have a row. */
  function MonthlyRewardStat(rows: seq<Txn>): (ss: seq<MonthStat>)
    ensures rows == [] <==> ss == []
    ensures forall i :: 0 <= i < |ss| ==> ss[i] == StatOf(rows, ss[i].period)
  {
    BinsNonEmpty(rows);
    StatsOver(rows, Bins(rows))
  }

  /** Consecutive bins are consecutive months. */
  lemma BinsConsecutive(rows: seq<Txn>)
    ensures forall i :: 0 <= i < |Bins(rows)| ==> MonthIndex(Bins(rows)[i]) == MonthIndex(Bins(rows)[0]) + i
  {
  }

  lemma BinsAreSummarised(rows: seq<Txn>, ps: seq<Period>, ss: seq<MonthStat>)
    requires |ss| == |ps| && forall i :: 0 <= i < |ps| ==> ss[i].period == ps[i]
    requires forall i :: 0 <= i < |ps| ==> MonthIndex(ps[i]) == MonthIndex(ps[0]) + i
    requires ps != [] ==> HasRowIn(rows, ps[0]) && HasRowIn(rows, ps[|ps| - 1])
    requires forall j :: 0 <= j < |rows| ==> PeriodOf(rows[j].date) in ps
    ensures forall i :: 0 <= i < |ss| ==> MonthIndex(ss[i].period) == MonthIndex(ss[0].period) + i
    ensures ss != [] ==> HasRowIn(rows, ss[0].period) && HasRowIn(rows, ss[|ss| - 1].period)
    ensures forall j :: 0 <= j < |rows| ==> HasPeriod(ss, PeriodOf(rows[j].date))
  {
    forall j | 0 <= j < |rows| ensures HasPeriod(ss, PeriodOf(rows[j].date)) {
      var q := PeriodOf(rows[j].date);
      assert q in ps;
      var i :| 0 <= i < |ps| && ps[i] == q;
      assert ss[i].period == q;
    }
  }

  /** The summary has one row per month from the earliest to the latest
      month with a transaction, consecutive months in calendar order (a row
      of zeros for a month between them without transactions, by
      `EmptyMonthIsZero`). */
  lemma SummaryMonths(rows: seq<Txn>)
    ensures var ss := MonthlyRewardStat(rows);
      && (forall i :: 0 <= i < |ss| ==> MonthIndex(ss[i].period) == MonthIndex(ss[0].period) + i)
      && (ss != [] ==> HasRowIn(rows, ss[0].period) && HasRowIn(rows, ss[|ss| - 1].period))
      && (forall j :: 0 <= j < |rows| ==> HasPeriod(ss, PeriodOf(rows[j].date)))
  {
    var ss := MonthlyRewardStat(rows);
    BinsConsecutive(rows);
    BinsEnds(rows);
    BinsCover(rows);
    BinsAreSummarised(rows, Bins(rows), ss);
  }

  /** `percentage`, before rounding: the share of the month's customers who
      reached the milestone, NaN (here `None`) for a month without
      customers. */
  function Percentage(s: MonthStat): (r: Option<real>)
    ensures r.None? <==> s.totalUsers == 0
    ensures r.Some? ==> r.value * s.totalUsers as real == s.passed as real * 100.0
    ensures r.Some? && s.passed <= s.totalUsers ==> 0.0 <= r.value <= 100.0
    ensures r.Some? && s.passed <= s.totalUsers ==> (r.value == 100.0 <==> s.passed == s.totalUsers)
  {
    if s.totalUsers == 0 then None
    else
      var v := s.passed as real / s.totalUsers as real * 100.0;
      if s.passed <= s.totalUsers then Buckets.ShareBounds(s.passed, s.totalUsers); Some(v)
      else Some(v)
  }

  /** The summary's NaN percentages are exactly its months without
      transactions. */
  lemma PercentageUndefinedIffEmpty(rows: seq<Txn>, p: Period)
    ensures Percentage(StatOf(rows, p)).None? <==> !HasRowIn(rows, p)
  {
    if HasRowIn(rows, p) {
      BusyMonthHasUsers(rows, p);
    } else {
      EmptyMonthIsZero(rows, p);
    }
  }

  /** Two rows of the user-month table with the same key are the same row. */
  lemma SameKeySameMonth(rows: seq<Txn>, a: Month, b: Month)
    requires a in Table(rows) && b in Table(rows) && a.key == b.key
    ensures a == b
  {
    var us := Table(rows);
    var ks := Keys(rows, ByPeriod());
    var i :| 0 <= i < |us| && us[i] == a;
    var j :| 0 <= j < |us| && us[j] == b;
    assert ks[i] == ks[j];
  }

  /** Every row of the user-month table is the group of some transaction. */
  lemma MonthHasRow(rows: seq<Txn>, u: Month) returns (j: nat)
    requires u in Table(rows)
    ensures j < |rows| && ByPeriod()(rows[j]) == Some(u.key)
  {
    var us := Table(rows);
    var i :| 0 <= i < |us| && us[i] == u;
    assert Keys(rows, ByPeriod())[i] in Keys(rows, ByPeriod());
    j :| 0 <= j < |rows| && ByPeriod()(rows[j]) == Some(u.key);
  }

  /** Every transaction has its row in the user-month table. */
  lemma RowHasMonth(rows: seq<Txn>, j: nat) returns (i: nat)
    requires j < |rows|
    ensures i < |Table(rows)| && Table(rows)[i].key == ByPeriod()(rows[j]).value
  {
    var ks := Keys(rows, ByPeriod());
    i :| 0 <= i < |ks| && ks[i] == ByPeriod()(rows[j]).value;
  }

  lemma TableDistinct(rows: seq<Txn>)
    ensures Distinct(Table(rows))
  {
    var us := Table(rows);
    var ks := Keys(rows, ByPeriod());
    forall i, j | 0 <= i < j < |us| ensures us[i] != us[j] {
      assert ks[i] != ks[j];
    }
  }

  /** The customers of the user-months of `p`, one per user-month. */
  function CustomersOfMonths(rows: seq<Txn>, p: Period): seq<string> {
    Project(Filter(Table(rows), InPeriod(p)), CustOfMonth())
  }

  lemma CustomersOfMonthsDistinct(rows: seq<Txn>, p: Period)
    ensures Distinct(CustomersOfMonths(rows, p))
  {
    var us := Table(rows);
    var ms := Filter(us, InPeriod(p));
    TableDistinct(rows);
    FilterDistinct(us, InPeriod(p));
    forall i, j | 0 <= i < |ms| && 0 <= j < |ms| && CustOfMonth()(ms[i]) == CustOfMonth()(ms[j])
      ensures ms[i] == ms[j]
    {
      SameKeySameMonth(rows, ms[i], ms[j]);
    }
    ProjectDistinct(ms, CustOfMonth());
  }

  lemma CustomerOfMonthIsActive(rows: seq<Txn>, p: Period, c: string)
    requires c in CustomersOfMonths(rows, p)
    ensures c in Keys(rows, Within(PeriodKey(), p, CustOf()))
  {
    var ms := Filter(Table(rows), InPeriod(p));
    var cs := CustomersOfMonths(rows, p);
    var i :| 0 <= i < |cs| && cs[i] == c;
    var j := MonthHasRow(rows, ms[i]);
    assert Within(PeriodKey(), p, CustOf())(rows[j]) == Some(c);
  }

  lemma ActiveCustomerHasMonth(rows: seq<Txn>, p: Period, c: string)
    requires c in Keys(rows, Within(PeriodKey(), p, CustOf()))
    ensures c in CustomersOfMonths(rows, p)
  {
    var us := Table(rows);
    var ms := Filter(us, InPeriod(p));
    var j :| 0 <= j < |rows| && Within(PeriodKey(), p, CustOf())(rows[j]) == Some(c);
    assert PeriodOf(rows[j].date) == p && rows[j].cust == c;
    var i := RowHasMonth(rows, j);
    var u := us[i];
    assert u.key == MonthKey(c, p.year, p.month);
    assert InPeriod(p)(u) && CustOfMonth()(u) == c;
    InFilter(us, InPeriod(p), u);
    InProject(ms, CustOfMonth(), u);
  }

  /** A month `p` has as many user-months as it has distinct customers: the
      user-month table holds one row per customer active in `p`. */
  lemma UserMonthsPerPeriod(rows: seq<Txn>, p: Period)
    ensures Count(Table(rows), InPeriod(p)) == TotalUsers(rows, p)
  {
    var cs := CustomersOfMonths(rows, p);
    var ks := Keys(rows, Within(PeriodKey(), p, CustOf()));
    FilterLength(Table(rows), InPeriod(p));
    CustomersOfMonthsDistinct(rows, p);
    forall c ensures c in cs <==> c in ks {
      if c in cs {
        CustomerOfMonthIsActive(rows, p, c);
      }
      if c in ks {
        ActiveCustomerHasMonth(rows, p, c);
      }
    }
    SameElementsSameLength(cs, ks);
  }

  /** `num_user_passed_1000 <= total_users`, and `num_user_fail_1000` is the
      number of user-months of the month below the milestone. */
  lemma PassedAndFailed(rows: seq<Txn>, p: Period)
    ensures Passed(rows, p) <= TotalUsers(rows, p)
    ensures TotalUsers(rows, p) - Passed(rows, p) == Count(Table(rows), MissedIn(p))
  {
    var us := Table(rows);
    UserMonthsPerPeriod(rows, p);
    CountSplit(us, InPeriod(p), (u: Month) => Reached(u), ReachedIn(p), MissedIn(p));
  }

  /** Among a customer's user-months one is the earliest. */
  lemma {:induction false} EarliestMonth(s: seq<Month>, c: string) returns (m: Month)
    requires exists u :: u in s && u.key.cust == c
    ensures m in s && m.key.cust == c
    ensures forall v :: v in s && v.key.cust == c ==> !PeriodBefore(PeriodOfMonth(v), PeriodOfMonth(m))
  {
    var rest := s[1..];
    assert forall v :: v in s ==> v == s[0] || v in rest;
    if !exists u :: u in rest && u.key.cust == c {
      m := s[0];
    } else {
      var m' := EarliestMonth(rest, c);
      if s[0].key.cust == c && PeriodBefore(PeriodOfMonth(s[0]), PeriodOfMonth(m')) {
        m := s[0];
      } else {
        m := m';
      }
    }
  }

  /** Summed over the months of the summary, `total_new_users` counts every
      customer exactly once. */
  lemma {:induction false} NewUsersCountCustomers(rows: seq<Txn>)
    ensures SumNewUsers(MonthlyRewardStat(rows)) == |Customers(rows)|
  {
    var us := Table(rows);
    var ps := Bins(rows);
    assert MonthlyRewardStat(rows) == StatsOver(rows, ps);
    NewUsersOver(rows, ps);
    FirstMonthsInBins(rows);
    assert Distinct(ps);
    PartitionCount(ps, us, FirstMonthKey(us));
    CountKeyedIsCount(us, FirstMonthKey(us), IsFirst(us));
    FirstMonthsAreCustomers(rows);
  }

  /** The month of every first month is a bin of the summary. */
  lemma FirstMonthsInBins(rows: seq<Txn>)
    ensures forall u :: u in Table(rows) && FirstMonthKey(Table(rows))(u).Some?
                        ==> FirstMonthKey(Table(rows))(u).value in Bins(rows)
  {
    forall u | u in Table(rows) && FirstMonthKey(Table(rows))(u).Some?
      ensures FirstMonthKey(Table(rows))(u).value in Bins(rows)
    {
      MonthInBins(rows, u);
    }
  }

  lemma MonthInBins(rows: seq<Txn>, u: Month)
    requires u in Table(rows)
    ensures PeriodOfMonth(u) in Bins(rows)
  {
    BinsCover(rows);
    var j := MonthHasRow(rows, u);
    assert PeriodOf(rows[j].date) == PeriodOfMonth(u);
  }

  function SumNewUsers(ss: seq<MonthStat>): int {
    if ss == [] then 0 else ss[0].newUsers + SumNewUsers(ss[1..])
  }

  lemma {:induction false} NewUsersOver(rows: seq<Txn>, ps: seq<Period>)
    ensures SumNewUsers(StatsOver(rows, ps)) == CountOver(ps, Table(rows), FirstMonthKey(Table(rows)))
  {
    if ps != [] {
      NewUsersOver(rows, ps[1..]);
    }
  }

  /** The customers of the first months, one per first month. */
  function FirstMonthCustomers(rows: seq<Txn>): seq<string> {
    Project(Filter(Table(rows), IsFirst(Table(rows))), CustOfMonth())
  }

  /** Two first months of one customer fall in the same month. */
  lemma OneFirstMonth(us: seq<Month>, a: Month, b: Month)
    requires a in us && b in us && IsFirstMonth(us, a) && IsFirstMonth(us, b)
    requires a.key.cust == b.key.cust
    ensures a.key == b.key
  {
    assert !PeriodBefore(PeriodOfMonth(b), PeriodOfMonth(a));
    assert !PeriodBefore(PeriodOfMonth(a), PeriodOfMonth(b));
  }

  /** No customer has two first months. */
  lemma FirstMonthCustomersDistinct(rows: seq<Txn>)
    ensures Distinct(FirstMonthCustomers(rows))
  {
    var us := Table(rows);
    var fs := Filter(us, IsFirst(us));
    TableDistinct(rows);
    FilterDistinct(us, IsFirst(us));
    forall i, j | 0 <= i < |fs| && 0 <= j < |fs| && CustOfMonth()(fs[i]) == CustOfMonth()(fs[j])
      ensures fs[i] == fs[j]
    {
      OneFirstMonth(us, fs[i], fs[j]);
      SameKeySameMonth(rows, fs[i], fs[j]);
    }
    ProjectDistinct(fs, CustOfMonth());
  }

  lemma FirstMonthCustomerIsCustomer(rows: seq<Txn>, c: string)
    requires c in FirstMonthCustomers(rows)
    ensures c in Customers(rows)
  {
    var us := Table(rows);
    var fs := Filter(us, IsFirst(us));
    var i :| 0 <= i < |fs| && fs[i].key.cust == c;
    var j := MonthHasRow(rows, fs[i]);
    assert CustKey()(rows[j]) == Some(c);
  }

  lemma CustomerHasFirstMonth(rows: seq<Txn>, c: string)
    requires c in Customers(rows)
    ensures c in FirstMonthCustomers(rows)
  {
    var us := Table(rows);
    var fs := Filter(us, IsFirst(us));
    var j :| 0 <= j < |rows| && CustKey()(rows[j]) == Some(c);
    var i := RowHasMonth(rows, j);
    assert us[i].key.cust == c;
    var m := EarliestMonth(us, c);
    assert IsFirst(us)(m);
    InFilter(us, IsFirst(us), m);
    InProject(fs, CustOfMonth(), m);
  }

  /** Every customer has exactly one first month. */
  lemma FirstMonthsAreCustomers(rows: seq<Txn>)
    ensures Count(Table(rows), IsFirst(Table(rows))) == |Customers(rows)|
  {
    var cs := FirstMonthCustomers(rows);
    var ks := Customers(rows);
    FilterLength(Table(rows), IsFirst(Table(rows)));
    FirstMonthCustomersDistinct(rows);
    forall c ensures c in cs <==> c in ks {
      if c in cs {
        FirstMonthCustomerIsCustomer(rows, c);
      }
      if c in ks {
        CustomerHasFirstMonth(rows, c);
      }
    }
    SameElementsSameLength(cs, ks);
  }
}
