/** The cleaned ledger that every report is computed from: one row of the
    code-grouped dataset per loyalty-points transaction. */
module Ledger {
  import opened Wrappers
  import opened CodeClassifier
  import opened Grouping

  /** The month of a timestamp, January being 1. */
  type MonthNumber = m: int | 1 <= m <= 12 witness 1

  /** A `TXN_DATE` that parsed (day, month, year); parsing is not modelled. */
  datatype Date = Date(year: int, month: MonthNumber, day: int)

  /** A calendar month: the `year_month` period of a date. */
  datatype Period = Period(year: int, month: MonthNumber)

  /** A cleaned transaction: customer (`CUST_CODE`), date, points
      (`TXN_AMOUNT`, which may be negative), loyalty code, normalised
      description, journal number (`JRNO`, possibly missing) and the code's
      category (`CODE_GROUP`). */
  datatype Txn = Txn(cust: string, date: Date, amount: int, code: string, desc: string,
                     journal: Option<int>, group: CodeGroup)

  function PeriodOf(d: Date): Period {
    Period(d.year, d.month)
  }

  /** Calendar order on periods, the order of the month-end timestamps that
      the pipeline groups by. */
  predicate PeriodBefore(p: Period, q: Period) {
    p.year < q.year || (p.year == q.year && p.month < q.month)
  }

  /** The position of a month on the calendar, counted in months. */
  function MonthIndex(p: Period): int {
    p.year * 12 + p.month - 1
  }

  /** The month at a calendar position: the inverse of `MonthIndex`. */
  function PeriodAt(n: int): (p: Period)
    ensures MonthIndex(p) == n
  {
    Period(n / 12, n % 12 + 1)
  }

  /** A month is the month at its own position. */
  lemma MonthIndexRoundTrip(p: Period)
    ensures PeriodAt(MonthIndex(p)) == p
  {
    var n := MonthIndex(p);
    assert n / 12 == p.year && n % 12 == p.month - 1;
  }

  /** Two months at the same position are the same month. */
  lemma SameIndexSameMonth(p: Period, q: Period)
    requires MonthIndex(p) == MonthIndex(q)
    ensures p == q
  {
    MonthIndexRoundTrip(p);
    MonthIndexRoundTrip(q);
  }

  /** Calendar order is position order. */
  lemma IndexOrder(p: Period, q: Period)
    ensures PeriodBefore(p, q) <==> MonthIndex(p) < MonthIndex(q)
  {
  }

  /** The months from position `lo` to position `hi`, one after the other:
      the bins of a month-end `Grouper`, empty months included. */
  function MonthRange(lo: int, hi: int): (ps: seq<Period>)
    ensures |ps| == if lo <= hi then hi - lo + 1 else 0
    ensures forall i :: 0 <= i < |ps| ==> MonthIndex(ps[i]) == lo + i
    ensures Distinct(ps)
  {
    var ps := seq(if lo <= hi then hi - lo + 1 else 0, i => PeriodAt(lo + i));
    assert forall i :: 0 <= i < |ps| ==> ps[i] == PeriodAt(lo + i);
    ps
  }

  /** Every month whose position lies between `lo` and `hi` is in the range. */
  lemma InRange(lo: int, hi: int, p: Period)
    requires lo <= MonthIndex(p) <= hi
    ensures p in MonthRange(lo, hi)
  {
    var ps := MonthRange(lo, hi);
    var i := MonthIndex(p) - lo;
    SameIndexSameMonth(ps[i], p);
  }

  function InYear(y: int): Txn -> bool {
    (t: Txn) => t.date.year == y
  }

  /** `filter_df_by_year`: the rows of year `y`, in their original order
      (`FilterYearConcat`), each as often as it occurs in `rows`. */
  function FilterYear(rows: seq<Txn>, y: int): (r: seq<Txn>)
    ensures forall i :: 0 <= i < |r| ==> r[i].date.year == y && r[i] in rows
    ensures forall i :: 0 <= i < |rows| && rows[i].date.year == y ==> rows[i] in r
    ensures |r| == Count(rows, InYear(y))
    ensures forall t :: multiset(r)[t] == if t.date.year == y then multiset(rows)[t] else 0
  {
    FilterLength(rows, InYear(y));
    FilterMultiset(rows, InYear(y));
    Filter(rows, InYear(y))
  }

  /** The mask works row by row, so the slice keeps the rows' order: the
      slice of two ledgers one after the other is their two slices one
      after the other. */
  lemma FilterYearConcat(a: seq<Txn>, b: seq<Txn>, y: int)
    ensures FilterYear(a + b, y) == FilterYear(a, y) + FilterYear(b, y)
  {
    FilterConcat(a, b, InYear(y));
  }

  /** Selecting a year twice selects it once, and the rows of two different
      years are disjoint. */
  lemma FilterYearIdempotent(rows: seq<Txn>, y: int, z: int)
    ensures FilterYear(FilterYear(rows, y), y) == FilterYear(rows, y)
    ensures y != z ==> FilterYear(FilterYear(rows, y), z) == []
  {
    FilterIdempotent(rows, InYear(y));
    if y != z {
      var s := FilterYear(rows, y);
      CountNone(s, InYear(z));
    }
  }

  /** The points of a row (`TXN_AMOUNT`), the weight every `sum()` adds up. */
  function Points(): Txn -> int {
    (t: Txn) => t.amount
  }

  /** Total points of a list of rows (`TXN_AMOUNT.sum()`). */
  function TotalAmount(rows: seq<Txn>): int {
    Sum(rows, Points())
  }
}
