/** The reach-frequency distribution: how many customers reached the
    1000-point milestone in exactly one month, in exactly two, and so on.

    From a user-month table the achiever user-months are kept and counted per
    customer (`Times_Reached_1000`); the customers are then counted per
    number of times (`Number_of_Users`), the rows sorted by times, and
    `Total = Times_Reached_1000 * Number_of_Users`. The same computation
    serves the miscellaneous page and the page-5 loader; it is written once
    here over any user-month grouping, given the customer of a group. The
    precomputation `build_reach_frequency` groups by year as well, and so is
    this table applied to one year's user-months at a time
    (`YearReachFrequency`). */
module ReachFrequency {
  import opened Wrappers
  import opened Grouping
  import opened UserMonths
  import opened Ledger

  function ReachedMask<K>(): UserMonth<K> -> bool {
    (u: UserMonth<K>) => Reached(u)
  }

  /** The achiever user-months (`Reached_1000_Flag == 1`). */
  function Achievers<K(==)>(us: seq<UserMonth<K>>): seq<UserMonth<K>> {
    Filter(us, ReachedMask())
  }

  function CustKeyOf<K>(custOf: K -> string): UserMonth<K> -> Option<string> {
    (u: UserMonth<K>) => Some(custOf(u.key))
  }

  /** The customers with at least one achiever month. */
  function AchieverCustomers<K(==)>(us: seq<UserMonth<K>>, custOf: K -> string): seq<string> {
    Keys(Achievers(us), CustKeyOf(custOf))
  }

  /** `Times_Reached_1000` of customer `c`. */
  function TimesReached<K(==)>(us: seq<UserMonth<K>>, custOf: K -> string, c: string): nat {
    CountKey(Achievers(us), CustKeyOf(custOf), c)
  }

  function TimesKey<K(==)>(us: seq<UserMonth<K>>, custOf: K -> string): string -> Option<nat> {
    (c: string) => Some(TimesReached(us, custOf, c))
  }

  function TimesWeight<K(==)>(us: seq<UserMonth<K>>, custOf: K -> string): string -> int {
    (c: string) => TimesReached(us, custOf, c)
  }

  datatype FreqRow = FreqRow(times: nat, users: nat, total: nat)

  predicate TimesAbove(rows: seq<FreqRow>, lo: int) {
    forall i :: 0 <= i < |rows| ==> lo < rows[i].times
  }

  /** Strictly increasing times: sorted, and each times at most once. */
  predicate TimesAscending(rows: seq<FreqRow>) {
    forall i, j :: 0 <= i < j < |rows| ==> rows[i].times < rows[j].times
  }

  /** The rows for the times listed in `ts`, given each customer's times,
      skipping the times no customer has (`groupby` shows only the values
      that occur). A row's `users` is the number of customers with its
      times. */
  function FrequencyOver(cs: seq<string>, times: string -> Option<nat>, ts: seq<nat>): (rows: seq<FreqRow>)
    ensures forall i :: 0 <= i < |rows| ==> rows[i].users >= 1 && rows[i].total == rows[i].times * rows[i].users
    ensures forall i :: 0 <= i < |rows| ==> rows[i].users == CountKey(cs, times, rows[i].times)
  {
    if ts == [] then []
    else
      var n := CountKey(cs, times, ts[0]);
      var rest := FrequencyOver(cs, times, ts[1..]);
      if n == 0 then rest else [FreqRow(ts[0], n, ts[0] * n)] + rest
  }

  /** Every row's times is one of the listed times, so a bound on the
      listed times bounds the rows' times. */
  lemma {:induction false} FrequencyAbove(cs: seq<string>, times: string -> Option<nat>, ts: seq<nat>, lo: int)
    requires forall i :: 0 <= i < |ts| ==> lo < ts[i]
    ensures TimesAbove(FrequencyOver(cs, times, ts), lo)
  {
    if ts != [] {
      var rest := ts[1..];
      assert forall i :: 0 <= i < |rest| ==> rest[i] == ts[i + 1];
      FrequencyAbove(cs, times, rest, lo);
      var r := FrequencyOver(cs, times, rest);
      var n := CountKey(cs, times, ts[0]);
      var rows := FrequencyOver(cs, times, ts);
      if n != 0 {
        assert rows == [FreqRow(ts[0], n, ts[0] * n)] + r;
        forall i | 0 <= i < |rows| ensures lo < rows[i].times {
          if i > 0 {
            assert rows[i] == r[i - 1];
          }
        }
      } else {
        assert rows == r;
      }
    }
  }

  /** Every listed times that some customer has gets a row. */
  lemma {:induction false} FrequencyHas(cs: seq<string>, times: string -> Option<nat>, ts: seq<nat>, t: nat) returns (i: nat)
    requires t in ts && CountKey(cs, times, t) > 0
    ensures i < |FrequencyOver(cs, times, ts)| && FrequencyOver(cs, times, ts)[i].times == t
  {
    var rest := ts[1..];
    var rows := FrequencyOver(cs, times, ts);
    var n := CountKey(cs, times, ts[0]);
    if ts[0] == t {
      assert rows == [FreqRow(t, n, t * n)] + FrequencyOver(cs, times, rest);
      i := 0;
    } else {
      assert t in rest;
      var r := FrequencyHas(cs, times, rest, t);
      if n == 0 {
        i := r;
      } else {
        assert rows == [FreqRow(ts[0], n, ts[0] * n)] + FrequencyOver(cs, times, rest);
        i := r + 1;
      }
    }
  }

  /** `1, 2, ..., m`. */
  function OneTo(m: nat): (ts: seq<nat>)
    ensures |ts| == m
    ensures forall i :: 0 <= i < m ==> ts[i] == i + 1
  {
    if m == 0 then [] else OneTo(m - 1) + [m]
  }

  /** The frequency rows for the times `1, ..., m`: each row has a positive
      times and `users` counts the customers with that times (at least one),
      and `total` is their product. */
  function FrequencyTable(cs: seq<string>, times: string -> Option<nat>, m: nat): (rows: seq<FreqRow>)
    ensures forall i :: 0 <= i < |rows| ==> rows[i].times >= 1 && rows[i].users >= 1
                                              && rows[i].total == rows[i].times * rows[i].users
    ensures forall i :: 0 <= i < |rows| ==> rows[i].users == CountKey(cs, times, rows[i].times)
  {
    var ts := OneTo(m);
    FrequencyAbove(cs, times, ts, 0);
    FrequencyOver(cs, times, ts)
  }

  /** A customer of `cs` whose times lies in `1, ..., m` has its row. */
  lemma TableHas(cs: seq<string>, times: string -> Option<nat>, m: nat, c: string) returns (i: nat)
    requires c in cs && times(c).Some? && 1 <= times(c).value <= m
    ensures i < |FrequencyTable(cs, times, m)| && FrequencyTable(cs, times, m)[i].times == times(c).value
  {
    var t := times(c).value;
    var ts := OneTo(m);
    assert ts[t - 1] == t;
    var j :| 0 <= j < |cs| && cs[j] == c;
    CountKeyPositive(cs, times, t);
    i := FrequencyHas(cs, times, ts, t);
  }

  /** The reach-frequency table, sorted by `Times_Reached_1000`: a row's
      `Number_of_Users` is the number of achiever customers who reached the
      milestone exactly its `Times_Reached_1000` times. */
  function ReachFrequencyTable<K(==)>(us: seq<UserMonth<K>>, custOf: K -> string): (rows: seq<FreqRow>)
    ensures forall i :: 0 <= i < |rows| ==> rows[i].times >= 1 && rows[i].total == rows[i].times * rows[i].users
    ensures forall i :: 0 <= i < |rows| ==>
              rows[i].users == CountKey(AchieverCustomers(us, custOf), TimesKey(us, custOf), rows[i].times)
  {
    FrequencyTable(AchieverCustomers(us, custOf), TimesKey(us, custOf), |Achievers(us)|)
  }

  /** Every achiever customer's `Times_Reached_1000` has its row. */
  lemma ReachFrequencyComplete<K>(us: seq<UserMonth<K>>, custOf: K -> string, c: string) returns (i: nat)
    requires c in AchieverCustomers(us, custOf)
    ensures i < |ReachFrequencyTable(us, custOf)|
    ensures ReachFrequencyTable(us, custOf)[i].times == TimesReached(us, custOf, c)
  {
    TimesInRange(us, custOf, c);
    i := TableHas(AchieverCustomers(us, custOf), TimesKey(us, custOf), |Achievers(us)|, c);
  }

  /** The table lists the times in increasing order, each once. */
  lemma {:induction false} FrequencyAscending(cs: seq<string>, times: string -> Option<nat>, ts: seq<nat>)
    requires forall i, j :: 0 <= i < j < |ts| ==> ts[i] < ts[j]
    ensures TimesAscending(FrequencyOver(cs, times, ts))
  {
    if ts != [] {
      var rest := ts[1..];
      assert forall i :: 0 <= i < |rest| ==> rest[i] == ts[i + 1];
      FrequencyAscending(cs, times, rest);
      FrequencyAbove(cs, times, rest, ts[0]);
      var r := FrequencyOver(cs, times, rest);
      var n := CountKey(cs, times, ts[0]);
      var rows := FrequencyOver(cs, times, ts);
      if n != 0 {
        assert rows == [FreqRow(ts[0], n, ts[0] * n)] + r;
        forall i, j | 0 <= i < j < |rows| ensures rows[i].times < rows[j].times {
          assert rows[j] == r[j - 1];
          if i > 0 {
            assert rows[i] == r[i - 1];
          }
        }
      } else {
        assert rows == r;
      }
    }
  }

  lemma TableAscending(cs: seq<string>, times: string -> Option<nat>, m: nat)
    ensures TimesAscending(FrequencyTable(cs, times, m))
  {
    var ts := OneTo(m);
    assert forall i, j :: 0 <= i < j < |ts| ==> ts[i] < ts[j];
    FrequencyAscending(cs, times, ts);
  }

  /** Each times appears at most once in the table, in increasing order. */
  lemma ReachFrequencyAscending<K>(us: seq<UserMonth<K>>, custOf: K -> string)
    ensures TimesAscending(ReachFrequencyTable(us, custOf))
  {
    TableAscending(AchieverCustomers(us, custOf), TimesKey(us, custOf), |Achievers(us)|);
  }

  function SumUsers(rows: seq<FreqRow>): int {
    if rows == [] then 0 else rows[0].users + SumUsers(rows[1..])
  }

  function SumTotal(rows: seq<FreqRow>): int {
    if rows == [] then 0 else rows[0].total + SumTotal(rows[1..])
  }

  lemma {:induction false} FrequencySums(cs: seq<string>, times: string -> Option<nat>, w: string -> int, ts: seq<nat>)
    requires forall c :: c in cs && times(c).Some? ==> w(c) == times(c).value
    ensures SumUsers(FrequencyOver(cs, times, ts)) == CountOver(ts, cs, times)
    ensures SumTotal(FrequencyOver(cs, times, ts)) == SumOver(ts, cs, times, w)
  {
    if ts != [] {
      FrequencySums(cs, times, w, ts[1..]);
      SumKeyConstant(cs, times, w, ts[0], ts[0]);
    }
  }

  /** Every achiever customer reached the milestone between once and as many
      times as there are achiever user-months. */
  lemma TimesInRange<K>(us: seq<UserMonth<K>>, custOf: K -> string, c: string)
    requires c in AchieverCustomers(us, custOf)
    ensures 1 <= TimesReached(us, custOf, c) <= |Achievers(us)|
  {
    var a := Achievers(us);
    CountKeyPositive(a, CustKeyOf(custOf), c);
    CountKeyAtMostKeyed(a, CustKeyOf(custOf), c);
    CountKeyedAll(a, CustKeyOf(custOf));
  }

  lemma {:induction false} SumOfCounts<T, K>(ks: seq<K>, s: seq<T>, key: T -> Option<K>, w: K -> int)
    requires forall k :: k in ks ==> w(k) == CountKey(s, key, k)
    ensures Sum(ks, w) == CountOver(ks, s, key)
  {
    if ks != [] {
      assert forall k :: k in ks[1..] ==> k in ks;
      SumOfCounts(ks[1..], s, key, w);
    }
  }

  /** `Number_of_Users` adds up to the number of distinct achiever customers,
      and `Total` adds up to the number of achiever user-months. */
  lemma ReachFrequencyConserves<K>(us: seq<UserMonth<K>>, custOf: K -> string)
    ensures SumUsers(ReachFrequencyTable(us, custOf)) == |AchieverCustomers(us, custOf)|
    ensures SumTotal(ReachFrequencyTable(us, custOf)) == |Achievers(us)|
  {
    var a := Achievers(us);
    var cs := AchieverCustomers(us, custOf);
    var ts := OneTo(|a|);
    FrequencySums(cs, TimesKey(us, custOf), TimesWeight(us, custOf), ts);
    forall c | c in cs && TimesKey(us, custOf)(c).Some? ensures TimesKey(us, custOf)(c).value in ts {
      TimesInRange(us, custOf, c);
      var t := TimesReached(us, custOf, c);
      assert ts[t - 1] == t;
    }
    assert Distinct(ts);
    PartitionCount(ts, cs, TimesKey(us, custOf));
    CountKeyedAll(cs, TimesKey(us, custOf));
    PartitionSum(ts, cs, TimesKey(us, custOf), TimesWeight(us, custOf));
    SumKeyedAll(cs, TimesKey(us, custOf), TimesWeight(us, custOf));
    SumOfCounts(cs, a, CustKeyOf(custOf), TimesWeight(us, custOf));
    PartitionCount(cs, a, CustKeyOf(custOf));
    CountKeyedAll(a, CustKeyOf(custOf));
  }

  function KeyCust(): MonthKey -> string {
    (k: MonthKey) => k.cust
  }

  function InKeyYear(y: int): UserMonth<MonthKey> -> bool {
    (u: UserMonth<MonthKey>) => u.key.year == y
  }

  /** The `user_monthly` of `build_reach_frequency`: the points of every
      (year, customer, calendar month) group, here those of year `y`. */
  function YearUserMonths(rows: seq<Txn>, y: int): (us: seq<UserMonth<MonthKey>>)
    ensures forall i :: 0 <= i < |us| ==> us[i].key.year == y
  {
    Filter(UsersAgg(rows, ByPeriod(), RowCount), InKeyYear(y))
  }

  /** `build_reach_frequency`, the rows of year `y`: the customers are
      counted by the number of months of that year in which they reached the
      milestone, so a customer who reached it in two years is counted once
      in each year's rows. */
  function YearReachFrequency(rows: seq<Txn>, y: int): (fs: seq<FreqRow>)
    ensures forall i :: 0 <= i < |fs| ==> fs[i].times >= 1 && fs[i].total == fs[i].times * fs[i].users
    ensures forall i :: 0 <= i < |fs| ==>
              fs[i].users == CountKey(AchieverCustomers(YearUserMonths(rows, y), KeyCust()),
                                      TimesKey(YearUserMonths(rows, y), KeyCust()), fs[i].times)
  {
    ReachFrequencyTable(YearUserMonths(rows, y), KeyCust())
  }

  /** Within a year, `Number_of_Users` adds up to that year's distinct
      achievers and `Total` to that year's achiever months. */
  lemma YearReachFrequencyConserves(rows: seq<Txn>, y: int)
    ensures SumUsers(YearReachFrequency(rows, y)) == |AchieverCustomers(YearUserMonths(rows, y), KeyCust())|
    ensures SumTotal(YearReachFrequency(rows, y)) == |Achievers(YearUserMonths(rows, y))|
  {
    ReachFrequencyConserves(YearUserMonths(rows, y), KeyCust());
  }

  /** A customer who reached the milestone in some month of year `y` has the
      row of that year for their number of achiever months in `y`. */
  lemma YearAchieverHasRow(rows: seq<Txn>, u: UserMonth<MonthKey>) returns (i: nat)
    requires u in UsersAgg(rows, ByPeriod(), RowCount) && Reached(u)
    ensures var fs := YearReachFrequency(rows, u.key.year);
            i < |fs| && fs[i].times == TimesReached(YearUserMonths(rows, u.key.year), KeyCust(), u.key.cust)
  {
    var y := u.key.year;
    var all := UsersAgg(rows, ByPeriod(), RowCount);
    var j :| 0 <= j < |all| && all[j] == u;
    var ym := YearUserMonths(rows, y);
    assert InKeyYear(y)(all[j]);
    var k :| 0 <= k < |ym| && ym[k] == u;
    var a := Achievers(ym);
    assert ReachedMask()(ym[k]);
    var l :| 0 <= l < |a| && a[l] == u;
    assert CustKeyOf(KeyCust())(a[l]) == Some(u.key.cust);
    i := ReachFrequencyComplete(ym, KeyCust(), u.key.cust);
  }
}
