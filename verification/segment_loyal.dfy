/** The page-4 segment-loyal summary of one year: the points of every
    loyalty code, summed per user segment.

    The year's rows are summed per customer, loyalty code and `year_month`,
    joined (inner) with the segment of their user-month, and summed again
    per `(User_Segment, LOYAL_CODE)`. Both sums add up the same rows, so the
    summary is written here as one grouping of the rows by the segment of
    their user-month and their code. */
module SegmentLoyal {
  import opened Wrappers
  import opened Grouping
  import opened Ledger
  import opened UserMonths
  import opened Segmentation

  /** The `(User_Segment, LOYAL_CODE)` grouping. */
  datatype SegCode = SegCode(segment: string, code: string)

  datatype LoyalRow = LoyalRow(key: SegCode, total: int)

  /** The user-month table of the year (`users_agg_df`). */
  function YearTable(rows: seq<Txn>): seq<UserMonth<MonthKey>> {
    UsersAgg(rows, ByPeriod(), RowCount)
  }

  /** The user-month a transaction belongs to. */
  function UserMonthOf(rows: seq<Txn>, t: Txn): UserMonth<MonthKey> {
    Aggregate(rows, ByPeriod(), MonthKey(t.cust, t.date.year, t.date.month), RowCount)
  }

  /** A transaction's segment and code. */
  function SegCodeOf(rows: seq<Txn>, th: Thresholds): Txn -> Option<SegCode> {
    (t: Txn) => Some(SegCode(Page4Segment(FeaturesOf(UserMonthOf(rows, t)), th), t.code))
  }

  function LoyalRowOf(rows: seq<Txn>, th: Thresholds): SegCode -> LoyalRow {
    (k: SegCode) => LoyalRow(k, SumKey(rows, SegCodeOf(rows, th), Points(), k))
  }

  /** Every page-4 label is one of the six segment names. */
  lemma LabelIsListed(f: Features, th: Thresholds)
    ensures Page4Segment(f, th) in EnglishNames
  {
    OverrideIsPrecedence(f, th, English);
  }

  /** `segment_loyal_summary`: one row per segment and code that occur, each
      labelled with one of the six segments and carrying the points of its
      rows. */
  function SegmentLoyalSummary(rows: seq<Txn>, th: Thresholds): (ss: seq<LoyalRow>)
    ensures forall i, j :: 0 <= i < j < |ss| ==> ss[i].key != ss[j].key
    ensures forall i :: 0 <= i < |ss| ==> ss[i].total == SumKey(rows, SegCodeOf(rows, th), Points(), ss[i].key)
    ensures forall i :: 0 <= i < |ss| ==> ss[i].key.segment in EnglishNames
  {
    var ks := Keys(rows, SegCodeOf(rows, th));
    var ss := Project(ks, LoyalRowOf(rows, th));
    assert forall i :: 0 <= i < |ss| ==> ss[i] == LoyalRow(ks[i], SumKey(rows, SegCodeOf(rows, th), Points(), ks[i]));
    forall i | 0 <= i < |ss| ensures ss[i].key.segment in EnglishNames {
      KeyIsListed(rows, th, ks[i]);
    }
    ss
  }

  lemma KeyIsListed(rows: seq<Txn>, th: Thresholds, k: SegCode)
    requires k in Keys(rows, SegCodeOf(rows, th))
    ensures k.segment in EnglishNames
  {
    var j :| 0 <= j < |rows| && SegCodeOf(rows, th)(rows[j]) == Some(k);
    LabelIsListed(FeaturesOf(UserMonthOf(rows, rows[j])), th);
  }

  /** The inner join with the segment map keeps every row: each
      transaction's user-month is a row of the year's user-month table. */
  lemma RowHasUserMonth(rows: seq<Txn>, j: nat) returns (i: nat)
    requires j < |rows|
    ensures i < |YearTable(rows)| && YearTable(rows)[i] == UserMonthOf(rows, rows[j])
  {
    var ks := Keys(rows, ByPeriod());
    i :| 0 <= i < |ks| && ks[i] == ByPeriod()(rows[j]).value;
    AggregateOverAt(rows, ByPeriod(), ks, RowCount, i);
  }

  function LoyalTotal(): LoyalRow -> int {
    (r: LoyalRow) => r.total
  }

  lemma {:induction false} LoyalSums(rows: seq<Txn>, th: Thresholds, ks: seq<SegCode>, ss: seq<LoyalRow>)
    requires |ss| == |ks|
    requires forall i :: 0 <= i < |ks| ==> ss[i].total == SumKey(rows, SegCodeOf(rows, th), Points(), ks[i])
    ensures Sum(ss, LoyalTotal()) == SumOver(ks, rows, SegCodeOf(rows, th), Points())
  {
    if ks != [] {
      LoyalSums(rows, th, ks[1..], ss[1..]);
    }
  }

  /** The summary carries every point of the year exactly once, whatever
      the thresholds. */
  lemma SegmentLoyalConserves(rows: seq<Txn>, th: Thresholds)
    ensures Sum(SegmentLoyalSummary(rows, th), LoyalTotal()) == TotalAmount(rows)
  {
    var ks := Keys(rows, SegCodeOf(rows, th));
    var ss := SegmentLoyalSummary(rows, th);
    assert forall i :: 0 <= i < |ss| ==> ss[i].key == ks[i];
    LoyalSums(rows, th, ks, ss);
    PartitionSum(ks, rows, SegCodeOf(rows, th), Points());
    SumKeyedAll(rows, SegCodeOf(rows, th), Points());
  }
}
