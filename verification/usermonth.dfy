/** The user-month table: one row per customer and month with the
    customer's points, number of transactions, distinct loyalty codes and
    distinct active days in that month, and the two flags every report
    reads: `Reached_1000_Flag` (at least 1000 points) and `Inactive` (at
    most one transaction).

    The pipeline builds this table four times, with two groupings and two
    ways of counting transactions:
    - the page-4 precomputation groups one year's rows by customer and
      `year_month` and counts rows (`size`);
    - the page-5 precomputation groups by year, customer and month number
      and counts rows;
    - the page-5 loader and the page-5 view group by customer and month
      number only and count the non-missing journal numbers
      (`("JRNO", "count")`).
    A grouping is a key function (see `Grouping`); the counting is a
    `Counting` value. */
module UserMonths {
  import opened Wrappers
  import opened Grouping
  import opened CodeClassifier
  import opened Ledger

  /** The monthly milestone of the programme. */
  const Milestone: int := 1000

  /** How `Transaction_Count` is computed: the size of the group, or the
      number of rows of the group whose journal number is present. */
  datatype Counting = RowCount | JournalCount

  /** One row of the user-month table, for the group `key`. */
  datatype UserMonth<K> = UserMonth(key: K, total: int, count: nat, codes: nat, days: nat)

  /** Customer, year and month: the `(CUST_CODE, year_month)` and
      `(year, CUST_CODE, MONTH_NUM)` groupings. */
  datatype MonthKey = MonthKey(cust: string, year: int, month: MonthNumber)

  /** Customer and month number: the `(CUST_CODE, MONTH_NUM)` grouping. */
  datatype CustMonth = CustMonth(cust: string, month: MonthNumber)

  function ByPeriod(): Txn -> Option<MonthKey> {
    (t: Txn) => Some(MonthKey(t.cust, t.date.year, t.date.month))
  }

  function ByMonthNumber(): Txn -> Option<CustMonth> {
    (t: Txn) => Some(CustMonth(t.cust, t.date.month))
  }

  function CodeOf(): Txn -> string {
    (t: Txn) => t.code
  }

  function DateOf(): Txn -> Date {
    (t: Txn) => t.date
  }

  /** The present journal numbers of group `k`. */
  function JournalsIn<K(==)>(key: Txn -> Option<K>, k: K): Txn -> Option<int> {
    (t: Txn) => if key(t) == Some(k) && t.journal.Some? then t.journal else None
  }

  /** A row of group `k` whose journal number is present. */
  function HasJournalIn<K(==)>(key: Txn -> Option<K>, k: K): Txn -> bool {
    (t: Txn) => key(t) == Some(k) && t.journal.Some?
  }

  /** The aggregate of group `k`: `sum` of the points, the transaction count,
      `nunique` of the codes and `nunique` of the dates. */
  function Aggregate<K(==)>(rows: seq<Txn>, key: Txn -> Option<K>, k: K, counting: Counting): (u: UserMonth<K>)
    ensures u.key == k
    ensures u.total == SumKey(rows, key, Points(), k)
    ensures u.count <= CountKey(rows, key, k)
    ensures counting == RowCount ==> u.count == CountKey(rows, key, k)
    ensures counting == JournalCount ==> u.count == Count(rows, HasJournalIn(key, k))
    ensures u.codes == |ValuesIn(rows, key, k, CodeOf())|
    ensures u.days == |ValuesIn(rows, key, k, DateOf())|
    ensures u.codes <= CountKey(rows, key, k) && u.days <= CountKey(rows, key, k)
    ensures CountKey(rows, key, k) > 0 ==> u.codes >= 1 && u.days >= 1
  {
    var size := CountKey(rows, key, k);
    var count := if counting == RowCount then size else CountKeyed(rows, JournalsIn(key, k));
    CountKeyedAtMost(rows, key, k, JournalsIn(key, k));
    CountKeyedIsCount(rows, JournalsIn(key, k), HasJournalIn(key, k));
    WithinCount(rows, key, k, CodeOf());
    WithinCount(rows, key, k, DateOf());
    KeysAtMostCount(rows, Within(key, k, CodeOf()));
    KeysAtMostCount(rows, Within(key, k, DateOf()));
    CountWithin(rows, key, k, CodeOf());
    CountWithin(rows, key, k, DateOf());
    KeysWithinNonEmpty(rows, key, k, CodeOf());
    KeysWithinNonEmpty(rows, key, k, DateOf());
    UserMonth(k, SumKey(rows, key, Points(), k), count,
              |Keys(rows, Within(key, k, CodeOf()))|, |Keys(rows, Within(key, k, DateOf()))|)
  }

  /** The aggregates of the groups listed in `ks`, in that order. */
  function AggregateOver<K(==)>(rows: seq<Txn>, key: Txn -> Option<K>, ks: seq<K>, counting: Counting): (us: seq<UserMonth<K>>)
    ensures |us| == |ks|
    ensures forall i :: 0 <= i < |ks| ==> us[i].key == ks[i]
  {
    if ks == [] then []
    else [Aggregate(rows, key, ks[0], counting)] + AggregateOver(rows, key, ks[1..], counting)
  }

  lemma {:induction false} AggregateOverAt<K>(rows: seq<Txn>, key: Txn -> Option<K>, ks: seq<K>, counting: Counting, i: nat)
    requires i < |ks|
    ensures AggregateOver(rows, key, ks, counting)[i] == Aggregate(rows, key, ks[i], counting)
  {
    if i > 0 {
      AggregateOverAt(rows, key, ks[1..], counting, i - 1);
    }
  }

  /** The user-month table: one row per group that occurs (the groups are
      listed once each, in an order the model does not fix), and no group
      without a row; `UsersAggRows` states that each row is the aggregate of
      its group. */
  function UsersAgg<K(==)>(rows: seq<Txn>, key: Txn -> Option<K>, counting: Counting): (us: seq<UserMonth<K>>)
    ensures |us| == |Keys(rows, key)|
    ensures forall i :: 0 <= i < |us| ==> us[i].key == Keys(rows, key)[i]
    ensures forall i :: 0 <= i < |us| ==> us[i].codes >= 1 && us[i].days >= 1
    ensures counting == RowCount ==> forall i :: 0 <= i < |us| ==> us[i].count >= 1
  {
    var ks := Keys(rows, key);
    var us := AggregateOver(rows, key, ks, counting);
    assert |us| == |ks| && forall i :: 0 <= i < |us| ==> us[i].key == ks[i];
    GroupsAreNonEmpty(rows, key, counting, us);
    us
  }

  /** Every row of the user-month table is the aggregate of its group. */
  lemma UsersAggRows<K>(rows: seq<Txn>, key: Txn -> Option<K>, counting: Counting)
    ensures forall i :: 0 <= i < |UsersAgg(rows, key, counting)| ==>
              UsersAgg(rows, key, counting)[i] == Aggregate(rows, key, UsersAgg(rows, key, counting)[i].key, counting)
  {
    GroupsAreAggregates(rows, key, counting, UsersAgg(rows, key, counting));
  }

  lemma GroupsAreAggregates<K>(rows: seq<Txn>, key: Txn -> Option<K>, counting: Counting, us: seq<UserMonth<K>>)
    requires us == AggregateOver(rows, key, Keys(rows, key), counting)
    ensures forall i :: 0 <= i < |us| ==> us[i] == Aggregate(rows, key, us[i].key, counting)
  {
    forall i | 0 <= i < |us| ensures us[i] == Aggregate(rows, key, us[i].key, counting) {
      AggregateOverAt(rows, key, Keys(rows, key), counting, i);
    }
  }

  lemma GroupsAreNonEmpty<K>(rows: seq<Txn>, key: Txn -> Option<K>, counting: Counting, us: seq<UserMonth<K>>)
    requires us == AggregateOver(rows, key, Keys(rows, key), counting)
    ensures forall i :: 0 <= i < |us| ==> us[i].codes >= 1 && us[i].days >= 1
    ensures counting == RowCount ==> forall i :: 0 <= i < |us| ==> us[i].count >= 1
  {
    var ks := Keys(rows, key);
    forall i | 0 <= i < |us|
      ensures us[i].codes >= 1 && us[i].days >= 1 && (counting == RowCount ==> us[i].count >= 1)
    {
      CountKeyPositive(rows, key, ks[i]);
      AggregateOverAt(rows, key, ks, counting, i);
    }
  }

  /** `Reached_1000_Flag`. */
  predicate Reached<K>(u: UserMonth<K>) {
    u.total >= Milestone
  }

  /** `Inactive`. */
  predicate Inactive<K>(u: UserMonth<K>) {
    u.count <= 1
  }

  function TotalPoints<K>(us: seq<UserMonth<K>>): int {
    if us == [] then 0 else us[0].total + TotalPoints(us[1..])
  }

  function TotalCount<K>(us: seq<UserMonth<K>>): int {
    if us == [] then 0 else us[0].count + TotalCount(us[1..])
  }

  lemma {:induction false} AggregateOverSums<K>(rows: seq<Txn>, key: Txn -> Option<K>, ks: seq<K>)
    ensures TotalPoints(AggregateOver(rows, key, ks, RowCount)) == SumOver(ks, rows, key, Points())
    ensures TotalCount(AggregateOver(rows, key, ks, RowCount)) == CountOver(ks, rows, key)
  {
    if ks != [] {
      AggregateOverSums(rows, key, ks[1..]);
    }
  }

  /** The user-month table neither loses nor double-counts a row: its points
      add up to the points of the grouped rows and, counting rows, its
      transaction counts add up to the number of grouped rows. */
  lemma UsersAggConserves<K>(rows: seq<Txn>, key: Txn -> Option<K>)
    ensures TotalPoints(UsersAgg(rows, key, RowCount)) == SumKeyed(rows, key, Points())
    ensures TotalCount(UsersAgg(rows, key, RowCount)) == CountKeyed(rows, key)
  {
    var ks := Keys(rows, key);
    AggregateOverSums(rows, key, ks);
    PartitionSum(ks, rows, key, Points());
    PartitionCount(ks, rows, key);
  }

  /** Grouping by customer and month, the table holds all the points and all
      the rows of the ledger. */
  lemma ByPeriodConserves(rows: seq<Txn>)
    ensures TotalPoints(UsersAgg(rows, ByPeriod(), RowCount)) == TotalAmount(rows)
    ensures TotalCount(UsersAgg(rows, ByPeriod(), RowCount)) == |rows|
  {
    UsersAggConserves(rows, ByPeriod());
    SumKeyedAll(rows, ByPeriod(), Points());
    CountKeyedAll(rows, ByPeriod());
  }

  /** Counting rows, a user-month is inactive exactly when it holds one
      transaction: every group has at least one row. */
  lemma InactiveIsSingleRow<K>(rows: seq<Txn>, key: Txn -> Option<K>, u: UserMonth<K>)
    requires u in UsersAgg(rows, key, RowCount)
    ensures Inactive(u) <==> u.count == 1
  {
  }

  /** Counting journal numbers, a user-month whose rows all miss their
      journal number has a count of 0 and is inactive, however many rows it
      has. */
  lemma JournalCountCanBeZero()
    ensures var t := Txn("c", Date(2025, 1, 1), 600, "X", "", None, Other);
            var u := Aggregate([t, t], ByPeriod(), MonthKey("c", 2025, 1), JournalCount);
            u.count == 0 && Inactive(u) && CountKey([t, t], ByPeriod(), MonthKey("c", 2025, 1)) == 2
  {
  }

  /** Within one year's rows, grouping by customer and month number makes the
      same groups as grouping by customer and calendar month: the page-4 and
      page-5 tables of a year agree on every user-month's points and size. */
  lemma YearSliceGroupsAgree(rows: seq<Txn>, y: int, c: string, m: MonthNumber)
    ensures var slice := FilterYear(rows, y);
            CountKey(slice, ByPeriod(), MonthKey(c, y, m)) == CountKey(slice, ByMonthNumber(), CustMonth(c, m))
            && SumKey(slice, ByPeriod(), Points(), MonthKey(c, y, m))
               == SumKey(slice, ByMonthNumber(), Points(), CustMonth(c, m))
  {
    var slice := FilterYear(rows, y);
    assert forall x :: x in slice ==> x.date.year == y;
    CountKeyAgree(slice, ByPeriod(), MonthKey(c, y, m), ByMonthNumber(), CustMonth(c, m));
    SumKeyAgree(slice, ByPeriod(), MonthKey(c, y, m), ByMonthNumber(), CustMonth(c, m), Points());
  }
}
