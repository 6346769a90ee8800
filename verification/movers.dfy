/** The "growth movers" of the code-level view: the loyalty codes whose
    monthly points grew the most over a year.

    The precomputation sums the points per year, code and month number,
    leaving out the rows whose code is the placeholder "None"
    (`build_movers_monthly`). For a selected year the loader keeps the codes
    active in more than six distinct months, takes each code's first and
    last monthly sums (the table is sorted by month, so these are the
    earliest and the latest month), keeps the codes whose first sum is
    positive, computes the percentage increase, keeps the codes that grew by
    more than 20% and ended above 100 000 points, and returns the four with
    the largest increase (`get_most_growing_loyal_code_from_monthly`). */
module GrowthMovers {
  import opened Wrappers
  import opened Grouping
  import opened Ledger
  import DatasetBuilder

  /** The `(year, LOYAL_CODE, MONTH_NUM)` grouping. */
  datatype MoverKey = MoverKey(year: int, code: string, month: int)

  /** One row of the movers table: a group and its summed points. */
  datatype MoverMonth = MoverMonth(key: MoverKey, total: int)

  /** The rows with the "None" placeholder code belong to no group. */
  function MoverKeyOf(): Txn -> Option<MoverKey> {
    (t: Txn) => if t.code != DatasetBuilder.MissingCode then Some(MoverKey(t.date.year, t.code, t.date.month)) else None
  }

  function GroupTotal(rows: seq<Txn>): MoverKey -> MoverMonth {
    (k: MoverKey) => MoverMonth(k, SumKey(rows, MoverKeyOf(), Points(), k))
  }

  /** `build_movers_monthly`: one row per year, code and month that occurs,
      with the summed points of that group. */
  function MoversMonthly(rows: seq<Txn>): (ms: seq<MoverMonth>)
    ensures forall i :: 0 <= i < |ms| ==> ms[i].key.code != DatasetBuilder.MissingCode
    ensures forall i, j :: 0 <= i < j < |ms| ==> ms[i].key != ms[j].key
    ensures forall i :: 0 <= i < |ms| ==> ms[i].total == SumKey(rows, MoverKeyOf(), Points(), ms[i].key)
    ensures forall i :: 0 <= i < |ms| ==> exists j :: 0 <= j < |rows| && MoverKeyOf()(rows[j]) == Some(ms[i].key)
  {
    var ks := Keys(rows, MoverKeyOf());
    var ms := Project(ks, GroupTotal(rows));
    assert forall i :: 0 <= i < |ms| ==> ms[i].key == ks[i];
    ms
  }

  /** Every group of the ledger has its row in the table. */
  lemma MonthlyHasGroup(rows: seq<Txn>, t: Txn) returns (i: nat)
    requires t in rows && t.code != DatasetBuilder.MissingCode
    ensures i < |MoversMonthly(rows)|
    ensures MoversMonthly(rows)[i].key == MoverKey(t.date.year, t.code, t.date.month)
  {
    var ks := Keys(rows, MoverKeyOf());
    var j :| 0 <= j < |rows| && rows[j] == t;
    assert MoverKeyOf()(rows[j]).Some?;
    i :| 0 <= i < |ks| && ks[i] == MoverKey(t.date.year, t.code, t.date.month);
    assert Project(ks, GroupTotal(rows))[i].key == ks[i];
  }

  function MoverTotal(): MoverMonth -> int {
    (m: MoverMonth) => m.total
  }

  /** The movers table carries all the points of the rows with a real code:
      no row is lost or counted twice. */
  lemma MoversMonthlyConserves(rows: seq<Txn>)
    ensures Sum(MoversMonthly(rows), MoverTotal()) == SumKeyed(rows, MoverKeyOf(), Points())
  {
    var ks := Keys(rows, MoverKeyOf());
    var ms := MoversMonthly(rows);
    PartitionSum(ks, rows, MoverKeyOf(), Points());
    GroupSums(rows, ks, ms);
  }

  lemma {:induction false} GroupSums(rows: seq<Txn>, ks: seq<MoverKey>, ms: seq<MoverMonth>)
    requires |ms| == |ks|
    requires forall i :: 0 <= i < |ks| ==> ms[i].total == SumKey(rows, MoverKeyOf(), Points(), ks[i])
    ensures Sum(ms, MoverTotal()) == SumOver(ks, rows, MoverKeyOf(), Points())
  {
    if ks != [] {
      GroupSums(rows, ks[1..], ms[1..]);
    }
  }

  /** The table rows of code `c` in year `y`. */
  function InCode(y: int, c: string): MoverMonth -> bool {
    (m: MoverMonth) => m.key.year == y && m.key.code == c
  }

  function CodeRows(ms: seq<MoverMonth>, y: int, c: string): seq<MoverMonth> {
    Filter(ms, InCode(y, c))
  }

  function MonthOfRow(): MoverMonth -> Option<int> {
    (m: MoverMonth) => Some(m.key.month)
  }

  /** `MONTH_NUM.nunique()` of a code's rows. */
  function ActiveMonths(ms: seq<MoverMonth>, y: int, c: string): (n: nat)
    ensures n > 0 ==> CodeRows(ms, y, c) != []
  {
    |Keys(CodeRows(ms, y, c), MonthOfRow())|
  }

  /** The row of the earliest month (`first` after the sort by month). */
  function Earliest(rs: seq<MoverMonth>): (m: MoverMonth)
    requires rs != []
    ensures m in rs
    ensures forall x :: x in rs ==> m.key.month <= x.key.month
  {
    if |rs| == 1 then rs[0]
    else
      var e := Earliest(rs[1..]);
      assert forall x :: x in rs ==> x == rs[0] || x in rs[1..];
      if rs[0].key.month <= e.key.month then rs[0] else e
  }

  /** The row of the latest month (`last` after the sort by month). */
  function Latest(rs: seq<MoverMonth>): (m: MoverMonth)
    requires rs != []
    ensures m in rs
    ensures forall x :: x in rs ==> x.key.month <= m.key.month
  {
    if |rs| == 1 then rs[0]
    else
      var e := Latest(rs[1..]);
      assert forall x :: x in rs ==> x == rs[0] || x in rs[1..];
      if e.key.month <= rs[0].key.month then rs[0] else e
  }

  /** `PCT_INCREASE`, in exact arithmetic. */
  function Pct(first: int, last: int): real
    requires first != 0
  {
    ((last - first) as real / first as real) * 100.0
  }

  /** The increase is the growth `last - first` as a percentage of `first`. */
  lemma PctScalesFirst(first: int, last: int)
    requires first != 0
    ensures Pct(first, last) * first as real == (last - first) as real * 100.0
  {
    var f := first as real;
    var d := (last - first) as real;
    assert (d / f) * f == d;
  }

  /** A code's statistics: first and last monthly sums and the increase. */
  datatype Mover = Mover(code: string, first: int, last: int, pct: real)

  /** `pct` is the growth from `first` to `last` as a percentage of `first`. */
  predicate IsIncrease(m: Mover) {
    m.pct * m.first as real == (m.last - m.first) as real * 100.0
  }

  /** The positive-first filter and the increase of a code with the given
      first and last monthly sums. */
  function WithIncrease(c: string, first: int, last: int): (s: Option<Mover>)
    ensures s.None? <==> first <= 0
    ensures s.Some? ==> s.value.code == c && s.value.first == first && s.value.last == last
    ensures s.Some? ==> s.value.pct == Pct(first, last)
    ensures s.Some? ==> IsIncrease(s.value)
  {
    if first <= 0 then None
    else
      PctScalesFirst(first, last);
      Some(Mover(c, first, last, Pct(first, last)))
  }

  /** The activity gate and the positive-first filter for one code: `None`
      for a code that is dropped. */
  function CodeStat(ms: seq<MoverMonth>, y: int, c: string): (s: Option<Mover>)
    ensures s.Some? ==> ActiveMonths(ms, y, c) > 6 && s.value.code == c && s.value.first > 0
    ensures s.Some? ==> s.value.first == Earliest(CodeRows(ms, y, c)).total
                        && s.value.last == Latest(CodeRows(ms, y, c)).total
    ensures s.None? <==> ActiveMonths(ms, y, c) <= 6 || Earliest(CodeRows(ms, y, c)).total <= 0
    ensures s.Some? ==> s.value.pct == Pct(s.value.first, s.value.last)
    ensures s.Some? ==> IsIncrease(s.value)
  {
    if ActiveMonths(ms, y, c) <= 6 then None
    else WithIncrease(c, Earliest(CodeRows(ms, y, c)).total, Latest(CodeRows(ms, y, c)).total)
  }

  function CodeOfRow(y: int): MoverMonth -> Option<string> {
    (m: MoverMonth) => if m.key.year == y then Some(m.key.code) else None
  }

  function StatOf(ms: seq<MoverMonth>, y: int): string -> Option<Mover> {
    (c: string) => CodeStat(ms, y, c)
  }

  /** The codes of year `y` that pass the gate, in order of first
      appearance. */
  function Candidates(ms: seq<MoverMonth>, y: int): seq<Mover> {
    FilterMap(Keys(ms, CodeOfRow(y)), StatOf(ms, y))
  }

  /** The output filter: more than 20% growth and more than 100 000 points
      in the last month. */
  predicate Grows(m: Mover) {
    m.pct > 20.0 && m.last > 100_000
  }

  function GrowsMask(): Mover -> bool {
    (m: Mover) => Grows(m)
  }

  predicate SortedByPct(s: seq<Mover>) {
    forall i, j :: 0 <= i < j < |s| ==> s[i].pct >= s[j].pct
  }

  /** Inserts `x` before the first element with a smaller increase. */
  function Insert(x: Mover, s: seq<Mover>): (r: seq<Mover>)
    ensures multiset(r) == multiset(s) + multiset{x}
    ensures |r| == |s| + 1
  {
    if s == [] || s[0].pct <= x.pct then [x] + s
    else
      assert s == [s[0]] + s[1..];
      [s[0]] + Insert(x, s[1..])
  }

  predicate AllAtMost(s: seq<Mover>, b: real) {
    forall i :: 0 <= i < |s| ==> s[i].pct <= b
  }

  lemma {:induction false} InsertAtMost(x: Mover, s: seq<Mover>, b: real)
    requires AllAtMost(s, b) && x.pct <= b
    ensures AllAtMost(Insert(x, s), b)
  {
    if s != [] && s[0].pct > x.pct {
      var rest := s[1..];
      assert forall i :: 0 <= i < |rest| ==> rest[i] == s[i + 1];
      InsertAtMost(x, rest, b);
      var r := Insert(x, rest);
      assert Insert(x, s) == [s[0]] + r;
    }
  }

  lemma {:induction false} InsertSorted(x: Mover, s: seq<Mover>)
    requires SortedByPct(s)
    ensures SortedByPct(Insert(x, s))
  {
    if s != [] && s[0].pct > x.pct {
      var rest := s[1..];
      assert forall i :: 0 <= i < |rest| ==> rest[i] == s[i + 1];
      InsertSorted(x, rest);
      InsertAtMost(x, rest, s[0].pct);
      var r := Insert(x, rest);
      var out := [s[0]] + r;
      assert Insert(x, s) == out;
      forall i, j | 0 <= i < j < |out| ensures out[i].pct >= out[j].pct {
        assert out[j] == r[j - 1];
        if i > 0 {
          assert out[i] == r[i - 1];
        }
      }
    }
  }

  /** `sort_values("PCT_INCREASE", ascending=False)`. */
  function SortByPct(s: seq<Mover>): (r: seq<Mover>)
    ensures multiset(r) == multiset(s)
    ensures |r| == |s|
    ensures SortedByPct(r)
  {
    if s == [] then []
    else
      assert s == [s[0]] + s[1..];
      var rest := SortByPct(s[1..]);
      InsertSorted(s[0], rest);
      Insert(s[0], rest)
  }

  /** `get_most_growing_loyal_code_from_monthly`: at most four movers, by
      decreasing increase. */
  function TopMovers(ms: seq<MoverMonth>, y: int): seq<Mover> {
    Head4(SortByPct(Filter(Candidates(ms, y), GrowsMask())))
  }

  /** `head(4)`. */
  function Head4(s: seq<Mover>): (r: seq<Mover>)
    ensures |r| <= 4 && |r| <= |s|
    ensures forall i :: 0 <= i < |r| ==> r[i] == s[i]
    ensures |s| <= 4 ==> r == s
  {
    if |s| <= 4 then s else s[..4]
  }

  /** An element of a sorted list that `head(4)` leaves out comes after
      four elements with at least its increase. */
  lemma Head4Top(s: seq<Mover>, m: Mover)
    requires SortedByPct(s) && m in s && m !in Head4(s)
    ensures |Head4(s)| == 4
    ensures forall i :: 0 <= i < 4 ==> Head4(s)[i].pct >= m.pct
  {
    var k :| 0 <= k < |s| && s[k] == m;
  }

  /** With a positive first month, growing by more than 20% is exactly the
      integer condition `5 * last > 6 * first`. */
  lemma PctThreshold(first: int, last: int)
    requires first > 0
    ensures Pct(first, last) > 20.0 <==> 5 * last > 6 * first
  {
    var f := first as real;
    var d := (last - first) as real;
    var q := d / f;
    assert q * f == d;
    assert Pct(first, last) == q * 100.0;
    assert 5 * last > 6 * first <==> 5.0 * d > f;
    if q > 0.2 {
      MulMonotone(0.2, q, f);
      assert d > 0.2 * f;
    } else {
      MulMonotone(q, 0.2, f);
      assert d <= 0.2 * f;
      assert q * 100.0 <= 20.0;
    }
  }

  lemma MulMonotone(a: real, b: real, f: real)
    requires f > 0.0
    ensures a < b ==> a * f < b * f
    ensures a <= b ==> a * f <= b * f
  {
  }

  /** Every mover is a candidate that grows. */
  lemma TopMoversAreSelected(ms: seq<MoverMonth>, y: int, m: Mover)
    requires m in TopMovers(ms, y)
    ensures m in Candidates(ms, y) && Grows(m)
  {
    var f := Filter(Candidates(ms, y), GrowsMask());
    var sorted := SortByPct(f);
    var i :| 0 <= i < |Head4(sorted)| && Head4(sorted)[i] == m;
    assert m in sorted;
    assert m in multiset(sorted);
    assert m in multiset(f);
  }

  /** Every candidate comes from a code of the year that passed the gate. */
  lemma CandidateGate(ms: seq<MoverMonth>, y: int, m: Mover)
    requires m in Candidates(ms, y)
    ensures CodeStat(ms, y, m.code) == Some(m)
  {
    var ks := Keys(ms, CodeOfRow(y));
    var i :| 0 <= i < |Candidates(ms, y)| && Candidates(ms, y)[i] == m;
    var j :| 0 <= j < |ks| && StatOf(ms, y)(ks[j]) == Some(m);
  }

  /** What every returned code satisfies: the activity gate, a positive
      first month, more than 20% growth (equivalently `5 * last > 6 *
      first`) and more than 100 000 points in the last month. */
  lemma TopMoversQualify(ms: seq<MoverMonth>, y: int, m: Mover)
    requires m in TopMovers(ms, y)
    ensures ActiveMonths(ms, y, m.code) > 6 && m.first > 0
    ensures m.first == Earliest(CodeRows(ms, y, m.code)).total
    ensures m.last == Latest(CodeRows(ms, y, m.code)).total
    ensures m.pct > 20.0 && m.last > 100_000 && 5 * m.last > 6 * m.first
  {
    TopMoversAreSelected(ms, y, m);
    CandidateGate(ms, y, m);
    PctThreshold(m.first, m.last);
  }

  /** At most four movers, by non-increasing increase; and they are the top
      of the list: a growing candidate left out means four movers were
      returned, none with a smaller increase. */
  lemma TopMoversAreTheTop(ms: seq<MoverMonth>, y: int, m: Mover)
    requires m in Candidates(ms, y) && Grows(m) && m !in TopMovers(ms, y)
    ensures |TopMovers(ms, y)| == 4
    ensures forall i :: 0 <= i < 4 ==> TopMovers(ms, y)[i].pct >= m.pct
  {
    var f := Filter(Candidates(ms, y), GrowsMask());
    var sorted := SortByPct(f);
    InFilter(Candidates(ms, y), GrowsMask(), m);
    assert m in multiset(f);
    assert m in multiset(sorted);
    Head4Top(sorted, m);
  }

  lemma TopMoversShape(ms: seq<MoverMonth>, y: int)
    ensures |TopMovers(ms, y)| <= 4
    ensures SortedByPct(TopMovers(ms, y))
    ensures |TopMovers(ms, y)| < 4 ==> multiset(TopMovers(ms, y)) == multiset(Filter(Candidates(ms, y), GrowsMask()))
  {
    Head4Sorted(Filter(Candidates(ms, y), GrowsMask()));
  }

  /** The first four of the sorted list are sorted, and when fewer than
      four come out they are the whole list. */
  lemma Head4Sorted(f: seq<Mover>)
    ensures |Head4(SortByPct(f))| <= 4
    ensures SortedByPct(Head4(SortByPct(f)))
    ensures |Head4(SortByPct(f))| < 4 ==> multiset(Head4(SortByPct(f))) == multiset(f)
  {
    var s := SortByPct(f);
    var r := Head4(s);
    forall i, j | 0 <= i < j < |r| ensures r[i].pct >= r[j].pct {
      assert r[i] == s[i] && r[j] == s[j];
    }
  }

  /** The earliest row of a code is a row of that code no later than any
      given row of it. */
  lemma EarliestBound(ms: seq<MoverMonth>, y: int, c: string, m0: MoverMonth)
    requires m0 in ms && m0.key.year == y && m0.key.code == c
    ensures CodeRows(ms, y, c) != []
    ensures Earliest(CodeRows(ms, y, c)) in ms
    ensures Earliest(CodeRows(ms, y, c)).key.year == y && Earliest(CodeRows(ms, y, c)).key.code == c
    ensures Earliest(CodeRows(ms, y, c)).key.month <= m0.key.month
  {
    InFilter(ms, InCode(y, c), m0);
    InCodeRows(ms, y, c, Earliest(CodeRows(ms, y, c)));
  }

  /** The latest row of a code is a row of that code no earlier than any
      given row of it. */
  lemma LatestBound(ms: seq<MoverMonth>, y: int, c: string, m0: MoverMonth)
    requires m0 in ms && m0.key.year == y && m0.key.code == c
    ensures CodeRows(ms, y, c) != []
    ensures Latest(CodeRows(ms, y, c)) in ms
    ensures Latest(CodeRows(ms, y, c)).key.year == y && Latest(CodeRows(ms, y, c)).key.code == c
    ensures m0.key.month <= Latest(CodeRows(ms, y, c)).key.month
  {
    InFilter(ms, InCode(y, c), m0);
    InCodeRows(ms, y, c, Latest(CodeRows(ms, y, c)));
  }

  /** The first row of a code is that of its earliest active month in the
      ledger. */
  lemma EarliestIsFirstMonth(rows: seq<Txn>, y: int, c: string, lo: int)
    requires c != DatasetBuilder.MissingCode
    requires exists t :: t in rows && t.date.year == y && t.code == c && t.date.month == lo
    requires forall t :: t in rows && t.date.year == y && t.code == c ==> lo <= t.date.month
    ensures CodeRows(MoversMonthly(rows), y, c) != []
    ensures Earliest(CodeRows(MoversMonthly(rows), y, c)).key == MoverKey(y, c, lo)
  {
    var ms := MoversMonthly(rows);
    var tl :| tl in rows && tl.date.year == y && tl.code == c && tl.date.month == lo;
    var il := MonthlyHasGroup(rows, tl);
    EarliestBound(ms, y, c, ms[il]);
    var e := Earliest(CodeRows(ms, y, c));
    RowOfMonthTable(rows, e);
  }

  /** The last row of a code is that of its latest active month. */
  lemma LatestIsLastMonth(rows: seq<Txn>, y: int, c: string, hi: int)
    requires c != DatasetBuilder.MissingCode
    requires exists t :: t in rows && t.date.year == y && t.code == c && t.date.month == hi
    requires forall t :: t in rows && t.date.year == y && t.code == c ==> t.date.month <= hi
    ensures CodeRows(MoversMonthly(rows), y, c) != []
    ensures Latest(CodeRows(MoversMonthly(rows), y, c)).key == MoverKey(y, c, hi)
  {
    var ms := MoversMonthly(rows);
    var th :| th in rows && th.date.year == y && th.code == c && th.date.month == hi;
    var ih := MonthlyHasGroup(rows, th);
    LatestBound(ms, y, c, ms[ih]);
    var l := Latest(CodeRows(ms, y, c));
    RowOfMonthTable(rows, l);
  }

  lemma InCodeRows(ms: seq<MoverMonth>, y: int, c: string, m: MoverMonth)
    requires m in CodeRows(ms, y, c)
    ensures m in ms && m.key.year == y && m.key.code == c
  {
    var i :| 0 <= i < |CodeRows(ms, y, c)| && CodeRows(ms, y, c)[i] == m;
  }

  /** A kept code's first sum is the ledger total of its earliest active
      month, and its last sum that of its latest. */
  lemma FirstAndLastMonths(rows: seq<Txn>, y: int, c: string, lo: int, hi: int)
    requires c != DatasetBuilder.MissingCode
    requires exists t :: t in rows && t.date.year == y && t.code == c && t.date.month == lo
    requires exists t :: t in rows && t.date.year == y && t.code == c && t.date.month == hi
    requires forall t :: t in rows && t.date.year == y && t.code == c ==> lo <= t.date.month <= hi
    ensures CodeStat(MoversMonthly(rows), y, c).Some? ==>
              CodeStat(MoversMonthly(rows), y, c).value.first == SumKey(rows, MoverKeyOf(), Points(), MoverKey(y, c, lo))
              && CodeStat(MoversMonthly(rows), y, c).value.last == SumKey(rows, MoverKeyOf(), Points(), MoverKey(y, c, hi))
  {
    var ms := MoversMonthly(rows);
    EarliestIsFirstMonth(rows, y, c, lo);
    LatestIsLastMonth(rows, y, c, hi);
    var rs := CodeRows(ms, y, c);
    InCodeRows(ms, y, c, Earliest(rs));
    InCodeRows(ms, y, c, Latest(rs));
    RowOfMonthTable(rows, Earliest(rs));
    RowOfMonthTable(rows, Latest(rs));
  }

  /** A row of the table is the total of a group whose month occurs in the
      ledger. */
  lemma RowOfMonthTable(rows: seq<Txn>, m: MoverMonth)
    requires m in MoversMonthly(rows)
    ensures m.total == SumKey(rows, MoverKeyOf(), Points(), m.key)
    ensures exists t :: t in rows && t.code == m.key.code && t.code != DatasetBuilder.MissingCode
                        && t.date.year == m.key.year && t.date.month == m.key.month
  {
    var ms := MoversMonthly(rows);
    var i :| 0 <= i < |ms| && ms[i] == m;
    var j :| 0 <= j < |rows| && MoverKeyOf()(rows[j]) == Some(ms[i].key);
    assert rows[j] in rows;
  }
}
