/** The code-level tables of the transactions view.

    - The grouped reward: the points per category and month.
    - The transaction summary: per loyalty code, month and category, the
      number of transactions, the number of distinct customers, the points,
      and the code's description from the lookup table (the code itself when
      the lookup has no entry).
    - The padded summary: every (month, category) pair of the summary gets
      at least one row; a pair with no transaction gets one placeholder row
      with code "__PAD__", description "—" and a tiny positive value in
      every measure, so that the charts draw an empty slot.
    - The code map: per category, the loyalty codes that occur in it. */
module TransactionSummary {
  import opened Wrappers
  import opened Grouping
  import opened CodeClassifier
  import opened Ledger

  /** The `(CODE_GROUP, year_month)` grouping. */
  datatype GroupMonth = GroupMonth(group: CodeGroup, period: Period)

  datatype RewardRow = RewardRow(key: GroupMonth, total: int)

  function GroupMonthOf(): Txn -> Option<GroupMonth> {
    (t: Txn) => Some(GroupMonth(t.group, PeriodOf(t.date)))
  }

  function RewardOf(rows: seq<Txn>): GroupMonth -> RewardRow {
    (k: GroupMonth) => RewardRow(k, SumKey(rows, GroupMonthOf(), Points(), k))
  }

  /** `get_grouped_reward`: one row per category and month that occur. */
  function GroupedReward(rows: seq<Txn>): (gr: seq<RewardRow>)
    ensures forall i, j :: 0 <= i < j < |gr| ==> gr[i].key != gr[j].key
    ensures forall i :: 0 <= i < |gr| ==> gr[i].total == SumKey(rows, GroupMonthOf(), Points(), gr[i].key)
    ensures forall t :: t in rows ==> exists i :: 0 <= i < |gr| && gr[i].key == GroupMonth(t.group, PeriodOf(t.date))
  {
    var ks := Keys(rows, GroupMonthOf());
    var gr := Project(ks, RewardOf(rows));
    assert forall i :: 0 <= i < |gr| ==> gr[i].key == ks[i];
    forall t | t in rows ensures exists i :: 0 <= i < |gr| && gr[i].key == GroupMonth(t.group, PeriodOf(t.date)) {
      var j :| 0 <= j < |rows| && rows[j] == t;
      assert GroupMonthOf()(rows[j]).Some?;
      var i :| 0 <= i < |ks| && ks[i] == GroupMonth(t.group, PeriodOf(t.date));
      assert gr[i].key == ks[i];
    }
    gr
  }

  function RewardTotal(): RewardRow -> int {
    (r: RewardRow) => r.total
  }

  /** The grouped reward carries every point of the ledger exactly once. */
  lemma GroupedRewardConserves(rows: seq<Txn>)
    ensures Sum(GroupedReward(rows), RewardTotal()) == TotalAmount(rows)
  {
    var ks := Keys(rows, GroupMonthOf());
    var gr := GroupedReward(rows);
    RewardSums(rows, ks, gr);
    PartitionSum(ks, rows, GroupMonthOf(), Points());
    SumKeyedAll(rows, GroupMonthOf(), Points());
  }

  lemma {:induction false} RewardSums(rows: seq<Txn>, ks: seq<GroupMonth>, gr: seq<RewardRow>)
    requires |gr| == |ks|
    requires forall i :: 0 <= i < |ks| ==> gr[i].total == SumKey(rows, GroupMonthOf(), Points(), ks[i])
    ensures Sum(gr, RewardTotal()) == SumOver(ks, rows, GroupMonthOf(), Points())
  {
    if ks != [] {
      RewardSums(rows, ks[1..], gr[1..]);
    }
  }

  /** The `(LOYAL_CODE, year_month, CODE_GROUP)` grouping. */
  datatype TsKey = TsKey(code: string, period: Period, group: CodeGroup)

  /** One row of the summary: `Transaction_Freq`, `Total_Users`,
      `Total_Amount` and `DESC`. */
  datatype TsRow = TsRow(key: TsKey, freq: nat, users: nat, amount: int, desc: string)

  function TsKeyOf(): Txn -> Option<TsKey> {
    (t: Txn) => Some(TsKey(t.code, PeriodOf(t.date), t.group))
  }

  function CustOfTxn(): Txn -> string {
    (t: Txn) => t.cust
  }

  /** The description of a code: the lookup's entry, or the code itself. */
  function Describe(lookup: map<string, string>, code: string): string {
    if code in lookup then lookup[code] else code
  }

  /** The summary row of group `k`; `users` is `CUST_CODE.nunique()`. */
  function SummaryRow(rows: seq<Txn>, lookup: map<string, string>, k: TsKey): (r: TsRow)
    ensures r.key == k
    ensures r.freq == CountKey(rows, TsKeyOf(), k)
    ensures r.amount == SumKey(rows, TsKeyOf(), Points(), k)
    ensures r.users == |ValuesIn(rows, TsKeyOf(), k, CustOfTxn())|
    ensures r.users <= r.freq
    ensures r.freq > 0 ==> r.users >= 1
    ensures r.desc == (if k.code in lookup then lookup[k.code] else k.code)
  {
    WithinCount(rows, TsKeyOf(), k, CustOfTxn());
    KeysAtMostCount(rows, Within(TsKeyOf(), k, CustOfTxn()));
    CountWithin(rows, TsKeyOf(), k, CustOfTxn());
    KeysWithinNonEmpty(rows, TsKeyOf(), k, CustOfTxn());
    TsRow(k, CountKey(rows, TsKeyOf(), k), |Keys(rows, Within(TsKeyOf(), k, CustOfTxn()))|,
          SumKey(rows, TsKeyOf(), Points(), k), Describe(lookup, k.code))
  }

  function SummaryRowOf(rows: seq<Txn>, lookup: map<string, string>): TsKey -> TsRow {
    (k: TsKey) => SummaryRow(rows, lookup, k)
  }

  /** `build_transaction_summary_no_pad`: one row per code, month and
      category that occur, each the summary row of its group, with between
      one and `freq` customers. */
  function Summary(rows: seq<Txn>, lookup: map<string, string>): (ts: seq<TsRow>)
    ensures forall i, j :: 0 <= i < j < |ts| ==> ts[i].key != ts[j].key
    ensures forall i :: 0 <= i < |ts| ==> ts[i] == SummaryRow(rows, lookup, ts[i].key)
    ensures forall i :: 0 <= i < |ts| ==> 1 <= ts[i].users <= ts[i].freq
  {
    var ks := Keys(rows, TsKeyOf());
    var ts := Project(ks, SummaryRowOf(rows, lookup));
    SummaryRowsNonEmpty(rows, lookup, ks, ts);
    ts
  }

  lemma SummaryRowsNonEmpty(rows: seq<Txn>, lookup: map<string, string>, ks: seq<TsKey>, ts: seq<TsRow>)
    requires ks == Keys(rows, TsKeyOf()) && ts == Project(ks, SummaryRowOf(rows, lookup))
    ensures forall i, j :: 0 <= i < j < |ts| ==> ts[i].key != ts[j].key
    ensures forall i :: 0 <= i < |ts| ==> ts[i] == SummaryRow(rows, lookup, ts[i].key)
    ensures forall i :: 0 <= i < |ts| ==> 1 <= ts[i].users <= ts[i].freq
  {
    forall i | 0 <= i < |ts| ensures 1 <= ts[i].users <= ts[i].freq {
      CountKeyPositive(rows, TsKeyOf(), ks[i]);
    }
  }

  /** Every transaction of the ledger is in the summary, and its row
      describes it. */
  lemma SummaryHasRow(rows: seq<Txn>, lookup: map<string, string>, t: Txn) returns (i: nat)
    requires t in rows
    ensures i < |Summary(rows, lookup)|
    ensures Summary(rows, lookup)[i].key == TsKey(t.code, PeriodOf(t.date), t.group)
    ensures Summary(rows, lookup)[i].desc == Describe(lookup, t.code)
  {
    var ks := Keys(rows, TsKeyOf());
    var j :| 0 <= j < |rows| && rows[j] == t;
    assert TsKeyOf()(rows[j]).Some?;
    i :| 0 <= i < |ks| && ks[i] == TsKey(t.code, PeriodOf(t.date), t.group);
  }

  function Freq(): TsRow -> int {
    (r: TsRow) => r.freq
  }

  function Amount(): TsRow -> int {
    (r: TsRow) => r.amount
  }

  lemma {:induction false} SummarySums(rows: seq<Txn>, ks: seq<TsKey>, ts: seq<TsRow>)
    requires |ts| == |ks|
    requires forall i :: 0 <= i < |ks| ==> ts[i].freq == CountKey(rows, TsKeyOf(), ks[i])
    requires forall i :: 0 <= i < |ks| ==> ts[i].amount == SumKey(rows, TsKeyOf(), Points(), ks[i])
    ensures Sum(ts, Freq()) == CountOver(ks, rows, TsKeyOf())
    ensures Sum(ts, Amount()) == SumOver(ks, rows, TsKeyOf(), Points())
  {
    if ks != [] {
      SummarySums(rows, ks[1..], ts[1..]);
    }
  }

  /** The summary counts every transaction once and carries every point:
      its frequencies add up to the number of rows and its amounts to the
      ledger's total. */
  lemma SummaryConserves(rows: seq<Txn>, lookup: map<string, string>)
    ensures Sum(Summary(rows, lookup), Freq()) == |rows|
    ensures Sum(Summary(rows, lookup), Amount()) == TotalAmount(rows)
  {
    var ks := Keys(rows, TsKeyOf());
    var ts := Summary(rows, lookup);
    assert forall i :: 0 <= i < |ts| ==> ts[i] == SummaryRow(rows, lookup, ks[i]);
    SummarySums(rows, ks, ts);
    PartitionCount(ks, rows, TsKeyOf());
    CountKeyedAll(rows, TsKeyOf());
    PartitionSum(ks, rows, TsKeyOf(), Points());
    SumKeyedAll(rows, TsKeyOf(), Points());
  }

  /** A (month, category) slot of the padded summary. */
  datatype Slot = Slot(period: Period, group: CodeGroup)

  function SlotWith(m: Period): CodeGroup -> Slot {
    (g: CodeGroup) => Slot(m, g)
  }

  /** `MultiIndex.from_product([all_months, all_groups])`: every month with
      every category, month by month. */
  function Product(ms: seq<Period>, gs: seq<CodeGroup>): (ps: seq<Slot>)
    ensures |ps| == |ms| * |gs|
    ensures forall p :: p in ps <==> p.period in ms && p.group in gs
  {
    if ms == [] then []
    else
      var row := Project(gs, SlotWith(ms[0]));
      assert forall p :: p in row <==> p.period == ms[0] && p.group in gs by {
        forall p: Slot | p in row ensures p.period == ms[0] && p.group in gs {
          var i :| 0 <= i < |row| && row[i] == p;
        }
        forall p: Slot | p.period == ms[0] && p.group in gs ensures p in row {
          var i :| 0 <= i < |gs| && gs[i] == p.group;
          assert row[i] == p;
        }
      }
      var rest := Product(ms[1..], gs);
      assert forall m :: m in ms <==> m == ms[0] || m in ms[1..];
      assert |row + rest| == |gs| + (|ms| - 1) * |gs| == |ms| * |gs|;
      row + rest
  }

  /** With distinct months and categories every slot occurs once. */
  lemma {:induction false} ProductDistinct(ms: seq<Period>, gs: seq<CodeGroup>)
    requires Distinct(ms) && Distinct(gs)
    ensures Distinct(Product(ms, gs))
  {
    if ms != [] {
      var rest := ms[1..];
      assert Distinct(rest) by {
        forall i, j | 0 <= i < j < |rest| ensures rest[i] != rest[j] {
          assert rest[i] == ms[i + 1] && rest[j] == ms[j + 1];
        }
      }
      ProductDistinct(rest, gs);
      var row := Project(gs, SlotWith(ms[0]));
      ProjectDistinct(gs, SlotWith(ms[0]));
      assert ms[0] !in rest by {
        forall i | 0 <= i < |rest| ensures rest[i] != ms[0] {
          assert rest[i] == ms[i + 1];
        }
      }
      forall p | p in row ensures p !in Product(rest, gs) {
        var i :| 0 <= i < |row| && row[i] == p;
      }
      DistinctConcat(row, Product(rest, gs));
    }
  }

  /** `EPS`: the value of every measure of a placeholder row. */
  const Eps: real := 0.000001
  const PadCode: string := "__PAD__"
  /** "—", the description of a placeholder row. */
  const PadDesc: string := "—"

  /** One row of the padded summary; the measures are floats after the
      merge. */
  datatype PadRow = PadRow(period: Period, group: CodeGroup, code: string,
                           freq: real, users: real, amount: real, desc: string)

  function Lift(r: TsRow): PadRow {
    PadRow(r.key.period, r.key.group, r.key.code, r.freq as real, r.users as real, r.amount as real, r.desc)
  }

  function LiftF(): TsRow -> PadRow {
    (r: TsRow) => Lift(r)
  }

  function PadOf(p: Slot): PadRow {
    PadRow(p.period, p.group, PadCode, Eps, Eps, Eps, PadDesc)
  }

  function InSlot(p: Slot): TsRow -> bool {
    (r: TsRow) => r.key.period == p.period && r.key.group == p.group
  }

  function SlotOf(): TsRow -> Option<Slot> {
    (r: TsRow) => Some(Slot(r.key.period, r.key.group))
  }

  /** The left merge of one slot with the summary: its summary rows, or one
      placeholder row when it has none. */
  function Block(ts: seq<TsRow>, p: Slot): (b: seq<PadRow>)
    ensures |b| >= 1
  {
    var m := Filter(ts, InSlot(p));
    if m == [] then [PadOf(p)] else Project(m, LiftF())
  }

  function Blocks(ts: seq<TsRow>, ps: seq<Slot>): seq<PadRow> {
    if ps == [] then [] else Block(ts, ps[0]) + Blocks(ts, ps[1..])
  }

  function PeriodOfRow(): TsRow -> Option<Period> {
    (r: TsRow) => Some(r.key.period)
  }

  function GroupOfRow(): TsRow -> Option<CodeGroup> {
    (r: TsRow) => Some(r.key.group)
  }

  /** The slots of the padded summary: the months that occur times the
      categories that occur. */
  function Slots(ts: seq<TsRow>): seq<Slot> {
    Product(Keys(ts, PeriodOfRow()), Keys(ts, GroupOfRow()))
  }

  /** `build_transaction_summary_with_pad`, before its final sort by month. */
  function WithPad(rows: seq<Txn>, lookup: map<string, string>): seq<PadRow> {
    var ts := Summary(rows, lookup);
    Blocks(ts, Slots(ts))
  }

  function EmptySlot(ts: seq<TsRow>): Slot -> bool {
    (p: Slot) => Count(ts, InSlot(p)) == 0
  }

  lemma {:induction false} BlocksLength(ts: seq<TsRow>, ps: seq<Slot>)
    ensures |Blocks(ts, ps)| == CountOver(ps, ts, SlotOf()) + Count(ps, EmptySlot(ts))
  {
    if ps != [] {
      BlocksLength(ts, ps[1..]);
      var p := ps[0];
      FilterLength(ts, InSlot(p));
      CountKeyIsCount(ts, SlotOf(), p, InSlot(p));
    }
  }

  /** Every summary row falls in a slot. */
  lemma SlotsCover(ts: seq<TsRow>)
    ensures forall r :: r in ts ==> Slot(r.key.period, r.key.group) in Slots(ts)
  {
    forall r | r in ts ensures Slot(r.key.period, r.key.group) in Slots(ts) {
      var i :| 0 <= i < |ts| && ts[i] == r;
      assert PeriodOfRow()(ts[i]).Some? && GroupOfRow()(ts[i]).Some?;
    }
  }

  /** The padded summary has one row per summary row and one placeholder
      row per empty slot. */
  lemma PadLength(rows: seq<Txn>, lookup: map<string, string>)
    ensures var ts := Summary(rows, lookup);
            |WithPad(rows, lookup)| == |ts| + Count(Slots(ts), EmptySlot(ts))
  {
    var ts := Summary(rows, lookup);
    var ps := Slots(ts);
    BlocksLength(ts, ps);
    ProductDistinct(Keys(ts, PeriodOfRow()), Keys(ts, GroupOfRow()));
    SlotsCover(ts);
    PartitionCount(ps, ts, SlotOf());
    CountKeyedAll(ts, SlotOf());
  }

  lemma {:induction false} BlocksContent(ts: seq<TsRow>, ps: seq<Slot>, r: PadRow)
    requires r in Blocks(ts, ps)
    ensures (exists t :: t in ts && Slot(t.key.period, t.key.group) in ps && r == Lift(t))
            || (exists p :: p in ps && Count(ts, InSlot(p)) == 0 && r == PadOf(p))
  {
    var p := ps[0];
    var b := Block(ts, p);
    if r in b {
      var m := Filter(ts, InSlot(p));
      FilterLength(ts, InSlot(p));
      if m != [] {
        var i :| 0 <= i < |m| && Project(m, LiftF())[i] == r;
        assert m[i] in ts && InSlot(p)(m[i]);
        assert Slot(m[i].key.period, m[i].key.group) == p;
      }
    } else {
      assert r in Blocks(ts, ps[1..]);
      BlocksContent(ts, ps[1..], r);
    }
  }

  lemma {:induction false} BlocksKeep(ts: seq<TsRow>, ps: seq<Slot>, t: TsRow)
    requires t in ts && Slot(t.key.period, t.key.group) in ps
    ensures Lift(t) in Blocks(ts, ps)
  {
    var p := ps[0];
    if p == Slot(t.key.period, t.key.group) {
      InFilter(ts, InSlot(p), t);
      InProject(Filter(ts, InSlot(p)), LiftF(), t);
    } else {
      BlocksKeep(ts, ps[1..], t);
    }
  }

  lemma {:induction false} BlocksCover(ts: seq<TsRow>, ps: seq<Slot>, p: Slot)
    requires p in ps
    ensures exists r :: r in Blocks(ts, ps) && r.period == p.period && r.group == p.group
  {
    if ps[0] == p {
      var b := Block(ts, p);
      assert b[0] in Blocks(ts, ps);
      var m := Filter(ts, InSlot(p));
      if m != [] {
        assert b[0] == Lift(m[0]) && InSlot(p)(m[0]);
      }
    } else {
      BlocksCover(ts, ps[1..], p);
    }
  }

  /** The padding is complete: every month of the summary has a row for
      every category of the summary. */
  lemma PadCovers(rows: seq<Txn>, lookup: map<string, string>, m: Period, g: CodeGroup)
    requires exists r :: r in Summary(rows, lookup) && r.key.period == m
    requires exists r :: r in Summary(rows, lookup) && r.key.group == g
    ensures exists r :: r in WithPad(rows, lookup) && r.period == m && r.group == g
  {
    SlotCovered(Summary(rows, lookup), m, g);
  }

  lemma SlotCovered(ts: seq<TsRow>, m: Period, g: CodeGroup)
    requires exists r :: r in ts && r.key.period == m
    requires exists r :: r in ts && r.key.group == g
    ensures exists r :: r in Blocks(ts, Slots(ts)) && r.period == m && r.group == g
  {
    var a :| a in ts && a.key.period == m;
    var b :| b in ts && b.key.group == g;
    SlotsCover(ts);
    assert Slot(a.key.period, a.key.group) in Slots(ts);
    assert Slot(b.key.period, b.key.group) in Slots(ts);
    assert Slot(m, g) in Slots(ts);
    BlocksCover(ts, Slots(ts), Slot(m, g));
  }

  /** The padding keeps the summary: every summary row is in the padded
      table, and every other row is a placeholder for an empty slot. */
  lemma PadKeepsSummary(rows: seq<Txn>, lookup: map<string, string>, r: TsRow)
    requires r in Summary(rows, lookup)
    ensures Lift(r) in WithPad(rows, lookup)
  {
    var ts := Summary(rows, lookup);
    SlotsCover(ts);
    BlocksKeep(ts, Slots(ts), r);
  }

  lemma PadRowsAreSummaryOrPlaceholder(rows: seq<Txn>, lookup: map<string, string>, r: PadRow)
    requires r in WithPad(rows, lookup)
    ensures var ts := Summary(rows, lookup);
            (exists t :: t in ts && r == Lift(t)) || (exists p :: p in Slots(ts) && Count(ts, InSlot(p)) == 0 && r == PadOf(p))
  {
    var ts := Summary(rows, lookup);
    BlocksContent(ts, Slots(ts), r);
  }

  /** `build_codegroup_loyalcode_map`: per category that occurs, the codes
      that occur in it. */
  datatype CodeList = CodeList(group: CodeGroup, codes: seq<string>)

  function GroupOf(): Txn -> Option<CodeGroup> {
    (t: Txn) => Some(t.group)
  }

  function CodesOf(rows: seq<Txn>): CodeGroup -> CodeList {
    (g: CodeGroup) => CodeList(g, Keys(rows, Within(GroupOf(), g, CodeOf())))
  }

  function CodeOf(): Txn -> string {
    (t: Txn) => t.code
  }

  /** One list per category that occurs, listing each code of that category
      once (`.unique()`); the lists and the codes within a list come in an
      order the model does not fix. */
  function CodeGroupMap(rows: seq<Txn>): (cm: seq<CodeList>)
    ensures |cm| == |Keys(rows, GroupOf())|
    ensures forall i :: 0 <= i < |cm| ==> cm[i].group == Keys(rows, GroupOf())[i]
    ensures forall i, j :: 0 <= i < j < |cm| ==> cm[i].group != cm[j].group
    ensures forall i :: 0 <= i < |cm| ==> Distinct(cm[i].codes)
    ensures forall i :: 0 <= i < |cm| ==> |cm[i].codes| == |ValuesIn(rows, GroupOf(), cm[i].group, CodeOf())|
  {
    var ks := Keys(rows, GroupOf());
    var cm := Project(ks, CodesOf(rows));
    CodeListsAreUnique(rows, ks, cm);
    cm
  }

  lemma CodeListsAreUnique(rows: seq<Txn>, ks: seq<CodeGroup>, cm: seq<CodeList>)
    requires ks == Keys(rows, GroupOf()) && cm == Project(ks, CodesOf(rows))
    ensures forall i :: 0 <= i < |cm| ==> cm[i].group == ks[i]
    ensures forall i, j :: 0 <= i < j < |cm| ==> cm[i].group != cm[j].group
    ensures forall i :: 0 <= i < |cm| ==> Distinct(cm[i].codes)
    ensures forall i :: 0 <= i < |cm| ==> |cm[i].codes| == |ValuesIn(rows, GroupOf(), cm[i].group, CodeOf())|
  {
    forall i | 0 <= i < |cm|
      ensures cm[i].group == ks[i] && Distinct(cm[i].codes)
      ensures |cm[i].codes| == |ValuesIn(rows, GroupOf(), cm[i].group, CodeOf())|
    {
      assert cm[i] == CodesOf(rows)(ks[i]);
      WithinCount(rows, GroupOf(), ks[i], CodeOf());
    }
  }

  /** Every code that occurs is listed under its category: the map lists
      every code of every category. */
  lemma CodeIsListed(rows: seq<Txn>, t: Txn) returns (i: nat)
    requires t in rows
    ensures i < |CodeGroupMap(rows)|
    ensures CodeGroupMap(rows)[i].group == t.group && t.code in CodeGroupMap(rows)[i].codes
  {
    var ks := Keys(rows, GroupOf());
    var cm := CodeGroupMap(rows);
    var j :| 0 <= j < |rows| && rows[j] == t;
    assert GroupOf()(rows[j]).Some?;
    i :| 0 <= i < |ks| && ks[i] == t.group;
    assert cm[i] == CodesOf(rows)(ks[i]);
    assert Within(GroupOf(), t.group, CodeOf())(rows[j]) == Some(t.code);
  }

  /** A row as the builder leaves it: its category is its code's. */
  predicate Classified(t: Txn) {
    t.group == MapCodeGroup(Some(t.code))
  }

  /** A code listed under a category occurs in that category. On a ledger
      whose categories come from the classifier, each code is listed under
      exactly one category: the lists are disjoint. */
  lemma CodeListedInItsGroup(rows: seq<Txn>, l: CodeList, c: string)
    requires l in CodeGroupMap(rows) && c in l.codes
    ensures exists t :: t in rows && t.group == l.group && t.code == c
  {
    var j :| 0 <= j < |rows| && Within(GroupOf(), l.group, CodeOf())(rows[j]) == Some(c);
    assert rows[j] in rows;
  }

  lemma CodeListsDisjoint(rows: seq<Txn>, a: CodeList, b: CodeList, c: string)
    requires forall t :: t in rows ==> Classified(t)
    requires a in CodeGroupMap(rows) && b in CodeGroupMap(rows)
    requires c in a.codes && c in b.codes
    ensures a.group == b.group
  {
    CodeListedInItsGroup(rows, a, c);
    CodeListedInItsGroup(rows, b, c);
  }
}
