/** The normalised loyalty-code profile of the achiever user-months.

    For every user-month (customer and month number) whose points reach the
    milestone, the points of each of its loyalty codes are divided by the
    month's total (`True_Monthly_Total`) and scaled to 1000, leaving out the
    insurance-purchase code `10K_PURCH_INSUR`
    (`get_page5_loyal_normalized_profile`). The page-5 view then averages the
    profile over the user-months (a pivot with missing cells as 0, then the
    column means) and rescales the averages so that they add up to 1000.

    The page-5 view computes the same per-user-month profile from its own
    frame: its inner merge with the segment map keeps every user-month, and
    its `True_Monthly_Total >= 1000` filter is the achiever test. */
module NormalizedProfile {
  import opened Wrappers
  import opened Grouping
  import opened Ledger
  import opened UserMonths

  const InsuranceCode: string := "10K_PURCH_INSUR"

  /** The `(CUST_CODE, MONTH_NUM, LOYAL_CODE)` grouping. */
  datatype CodeKey = CodeKey(cust: string, month: MonthNumber, code: string)

  function MonthOfKey(k: CodeKey): CustMonth {
    CustMonth(k.cust, k.month)
  }

  function MonthOfRow(t: Txn): CustMonth {
    CustMonth(t.cust, t.date.month)
  }

  /** `True_Monthly_Total` of a user-month: all its points. */
  function MonthTotal(rows: seq<Txn>, cm: CustMonth): int {
    SumKey(rows, ByMonthNumber(), Points(), cm)
  }

  /** `Reached_1000_Flag` of a user-month. */
  predicate IsAchieverMonth(rows: seq<Txn>, cm: CustMonth) {
    MonthTotal(rows, cm) >= Milestone
  }

  /** The rows that enter the profile: those of achiever months, minus the
      insurance purchases. */
  function ProfileKey(rows: seq<Txn>): Txn -> Option<CodeKey> {
    (t: Txn) => if IsAchieverMonth(rows, MonthOfRow(t)) && t.code != InsuranceCode
                then Some(CodeKey(t.cust, t.date.month, t.code)) else None
  }

  /** One row of the profile: a user-month's code and its normalised points. */
  datatype ProfileRow = ProfileRow(key: CodeKey, points: real)

  /** `TXN_AMOUNT / True_Monthly_Total * 1000` for the group `k`. */
  function Normalized(rows: seq<Txn>, k: CodeKey): real
    requires IsAchieverMonth(rows, MonthOfKey(k))
  {
    SumKey(rows, ProfileKey(rows), Points(), k) as real / MonthTotal(rows, MonthOfKey(k)) as real * 1000.0
  }

  function ProfileOver(rows: seq<Txn>, ks: seq<CodeKey>): (ps: seq<ProfileRow>)
    requires forall k :: k in ks ==> IsAchieverMonth(rows, MonthOfKey(k))
    ensures |ps| == |ks|
    ensures forall i :: 0 <= i < |ks| ==> ps[i].key == ks[i]
    ensures forall i :: 0 <= i < |ks| ==> ps[i].points == Normalized(rows, ks[i])
  {
    if ks == [] then []
    else
      assert forall k :: k in ks[1..] ==> k in ks;
      [ProfileRow(ks[0], Normalized(rows, ks[0]))] + ProfileOver(rows, ks[1..])
  }

  /** Every group of the profile lies in an achiever month. */
  lemma KeysAreAchievers(rows: seq<Txn>)
    ensures forall k :: k in Keys(rows, ProfileKey(rows)) ==> IsAchieverMonth(rows, MonthOfKey(k)) && k.code != InsuranceCode
  {
  }

  /** The `(CUST_CODE, MONTH_NUM, LOYAL_CODE)` group of every row, before
      any filter (`loyal_code_agg`). */
  function ByCode(): Txn -> Option<CodeKey> {
    (t: Txn) => Some(CodeKey(t.cust, t.date.month, t.code))
  }

  /** Within an achiever month, the filters drop no row of a non-insurance
      code: its normalised points are all its points over the month's
      total. */
  lemma NormalizedIsShare(rows: seq<Txn>, k: CodeKey)
    requires IsAchieverMonth(rows, MonthOfKey(k)) && k.code != InsuranceCode
    ensures Normalized(rows, k) == SumKey(rows, ByCode(), Points(), k) as real / MonthTotal(rows, MonthOfKey(k)) as real * 1000.0
  {
    SumKeyAgree(rows, ProfileKey(rows), k, ByCode(), k, Points());
  }

  /** A profile row's points are all the points of its code in its
      user-month over the month's total (`True_Monthly_Total`), times 1000. */
  predicate IsNormalizedShare(rows: seq<Txn>, r: ProfileRow) {
    IsAchieverMonth(rows, MonthOfKey(r.key)) &&
    r.points == SumKey(rows, ByCode(), Points(), r.key) as real / MonthTotal(rows, MonthOfKey(r.key)) as real * 1000.0
  }

  /** Some profile row has key `k`. */
  predicate HasProfileRow(ps: seq<ProfileRow>, k: CodeKey) {
    exists i :: 0 <= i < |ps| && ps[i].key == k
  }

  /** `get_page5_loyal_normalized_profile`: one row per achiever user-month
      and code other than the insurance purchase, each `(customer, month,
      code)` once, each with its normalised share; every row divides by the
      total of a month that reached the milestone, so no division is by
      zero. Every transaction of an achiever month with
      another code has its row. */
  function Profile(rows: seq<Txn>): (ps: seq<ProfileRow>)
    ensures forall i :: 0 <= i < |ps| ==> MonthTotal(rows, MonthOfKey(ps[i].key)) >= Milestone
    ensures forall i :: 0 <= i < |ps| ==> ps[i].key.code != InsuranceCode
    ensures forall i, j :: 0 <= i < j < |ps| ==> ps[i].key != ps[j].key
    ensures forall i :: 0 <= i < |ps| ==> IsNormalizedShare(rows, ps[i])
    ensures forall j :: 0 <= j < |rows| && IsAchieverMonth(rows, MonthOfRow(rows[j])) && rows[j].code != InsuranceCode
              ==> HasProfileRow(ps, ByCode()(rows[j]).value)
  {
    var ks := Keys(rows, ProfileKey(rows));
    KeysAreAchievers(rows);
    var ps := ProfileOver(rows, ks);
    forall i | 0 <= i < |ps| ensures IsNormalizedShare(rows, ps[i]) {
      assert ks[i] in ks;
      NormalizedIsShare(rows, ks[i]);
    }
    ProfileCovers(rows, ks, ps);
    ps
  }

  lemma ProfileCovers(rows: seq<Txn>, ks: seq<CodeKey>, ps: seq<ProfileRow>)
    requires ks == Keys(rows, ProfileKey(rows))
    requires |ps| == |ks| && forall i :: 0 <= i < |ks| ==> ps[i].key == ks[i]
    ensures forall j :: 0 <= j < |rows| && IsAchieverMonth(rows, MonthOfRow(rows[j])) && rows[j].code != InsuranceCode
              ==> HasProfileRow(ps, ByCode()(rows[j]).value)
  {
    forall j | 0 <= j < |rows| && IsAchieverMonth(rows, MonthOfRow(rows[j])) && rows[j].code != InsuranceCode
      ensures HasProfileRow(ps, ByCode()(rows[j]).value)
    {
      assert ProfileKey(rows)(rows[j]) == ByCode()(rows[j]);
      var i :| 0 <= i < |ks| && ks[i] == ByCode()(rows[j]).value;
      assert ps[i].key == ks[i];
    }
  }

  /** The insurance purchases of a user-month. */
  function InsuranceKey(): Txn -> Option<CustMonth> {
    (t: Txn) => if t.code == InsuranceCode then Some(MonthOfRow(t)) else None
  }

  function InsuranceTotal(rows: seq<Txn>, cm: CustMonth): int {
    SumKey(rows, InsuranceKey(), Points(), cm)
  }

  /** The profile rows of one user-month. */
  function KeyIn(rows: seq<Txn>, cm: CustMonth): Txn -> Option<CodeKey> {
    (t: Txn) => var pk := ProfileKey(rows)(t);
                if pk.Some? && MonthOfKey(pk.value) == cm then pk else None
  }

  function PointsIn(cm: CustMonth): ProfileRow -> real {
    (r: ProfileRow) => if MonthOfKey(r.key) == cm then r.points else 0.0
  }

  /** The normalised points of group `k` as seen from user-month `cm`:
      its own normalised points when `k` lies in `cm`, and 0 otherwise. */
  lemma HeadPoints(rows: seq<Txn>, k: CodeKey, cm: CustMonth)
    requires IsAchieverMonth(rows, MonthOfKey(k)) && IsAchieverMonth(rows, cm)
    ensures PointsIn(cm)(ProfileRow(k, Normalized(rows, k)))
            == SumKey(rows, KeyIn(rows, cm), Points(), k) as real / MonthTotal(rows, cm) as real * 1000.0
  {
    if MonthOfKey(k) == cm {
      SumKeyAgree(rows, KeyIn(rows, cm), k, ProfileKey(rows), k, Points());
    } else {
      SumKeyConstant(rows, KeyIn(rows, cm), Points(), k, 0);
    }
  }

  lemma Distribute(a: int, b: int, t: real)
    requires t != 0.0
    ensures (a + b) as real / t * 1000.0 == a as real / t * 1000.0 + b as real / t * 1000.0
  {
  }

  lemma {:induction false} ProfileOverSum(rows: seq<Txn>, ks: seq<CodeKey>, cm: CustMonth)
    requires forall k :: k in ks ==> IsAchieverMonth(rows, MonthOfKey(k))
    requires IsAchieverMonth(rows, cm)
    ensures SumR(ProfileOver(rows, ks), PointsIn(cm))
            == SumOver(ks, rows, KeyIn(rows, cm), Points()) as real / MonthTotal(rows, cm) as real * 1000.0
  {
    if ks != [] {
      assert forall k :: k in ks[1..] ==> k in ks;
      ProfileOverSum(rows, ks[1..], cm);
      var k := ks[0];
      var ps := ProfileOver(rows, ks);
      assert ps[0] == ProfileRow(k, Normalized(rows, k));
      assert ps[1..] == ProfileOver(rows, ks[1..]);
      HeadPoints(rows, k, cm);
      Distribute(SumKey(rows, KeyIn(rows, cm), Points(), k), SumOver(ks[1..], rows, KeyIn(rows, cm), Points()),
                 MonthTotal(rows, cm) as real);
    }
  }

  /** The profile rows of a user-month are groups of the profile. */
  lemma KeyInCovered(rows: seq<Txn>, cm: CustMonth)
    ensures forall x :: x in rows && KeyIn(rows, cm)(x).Some? ==> KeyIn(rows, cm)(x).value in Keys(rows, ProfileKey(rows))
  {
    var ks := Keys(rows, ProfileKey(rows));
    forall x | x in rows && KeyIn(rows, cm)(x).Some? ensures KeyIn(rows, cm)(x).value in ks {
      var i :| 0 <= i < |rows| && rows[i] == x;
      assert ProfileKey(rows)(rows[i]).Some?;
    }
  }

  /** A user-month's rows are its profile rows plus its insurance purchases. */
  lemma MonthSplits(rows: seq<Txn>, cm: CustMonth)
    requires IsAchieverMonth(rows, cm)
    ensures MonthTotal(rows, cm) == SumKeyed(rows, KeyIn(rows, cm), Points()) + InsuranceTotal(rows, cm)
  {
    forall x | x in rows
      ensures ByMonthNumber()(x) == Some(cm) <==> KeyIn(rows, cm)(x).Some? || InsuranceKey()(x) == Some(cm)
      ensures !(KeyIn(rows, cm)(x).Some? && InsuranceKey()(x) == Some(cm))
    {
      var pk := ProfileKey(rows)(x);
      if MonthOfRow(x) == cm {
        assert IsAchieverMonth(rows, MonthOfRow(x));
        if x.code == InsuranceCode {
          assert InsuranceKey()(x) == Some(cm);
          assert pk.None?;
        } else {
          assert pk == Some(CodeKey(x.cust, x.date.month, x.code));
          assert KeyIn(rows, cm)(x) == pk;
        }
      } else {
        assert ByMonthNumber()(x) != Some(cm);
        assert InsuranceKey()(x) != Some(cm);
        assert KeyIn(rows, cm)(x).None?;
      }
    }
    SumKeySplit(rows, ByMonthNumber(), cm, KeyIn(rows, cm), InsuranceKey(), Points());
  }

  /** The normalised points of an achiever user-month add up to 1000 times
      the share of its points that are not insurance purchases. */
  lemma ProfileMonthSum(rows: seq<Txn>, cm: CustMonth)
    requires IsAchieverMonth(rows, cm)
    ensures SumR(Profile(rows), PointsIn(cm))
            == (MonthTotal(rows, cm) - InsuranceTotal(rows, cm)) as real / MonthTotal(rows, cm) as real * 1000.0
  {
    var ks := Keys(rows, ProfileKey(rows));
    KeysAreAchievers(rows);
    ProfileOverSum(rows, ks, cm);
    KeyInCovered(rows, cm);
    PartitionSum(ks, rows, KeyIn(rows, cm), Points());
    MonthSplits(rows, cm);
  }

  /** Without insurance purchases, an achiever user-month's profile adds up
      to exactly 1000. */
  lemma ProfileIs1000(rows: seq<Txn>, cm: CustMonth)
    requires IsAchieverMonth(rows, cm)
    requires forall t :: t in rows && MonthOfRow(t) == cm ==> t.code != InsuranceCode
    ensures SumR(Profile(rows), PointsIn(cm)) == 1000.0
  {
    NoInsurance(rows, cm);
    ProfileMonthSum(rows, cm);
    WholeShare(SumR(Profile(rows), PointsIn(cm)), MonthTotal(rows, cm), InsuranceTotal(rows, cm));
  }

  lemma WholeShare(x: real, t: int, i: int)
    requires t > 0 && i == 0 && x == (t - i) as real / t as real * 1000.0
    ensures x == 1000.0
  {
    Share(t, i);
  }

  lemma NoInsurance(rows: seq<Txn>, cm: CustMonth)
    requires forall t :: t in rows && MonthOfRow(t) == cm ==> t.code != InsuranceCode
    ensures InsuranceTotal(rows, cm) == 0
  {
    SumKeyConstant(rows, InsuranceKey(), Points(), cm, 0);
  }

  /** `(t - i) / t * 1000` is 1000 minus the share of `i`, and that share has
      the sign of `i`. */
  lemma Share(t: int, i: int)
    requires t > 0
    ensures (t - i) as real / t as real * 1000.0 == 1000.0 - i as real / t as real * 1000.0
    ensures i >= 0 <==> i as real / t as real >= 0.0
  {
    var q := i as real / t as real;
    var r := (t - i) as real / t as real;
    assert t as real / t as real == 1.0;
    assert r == t as real / t as real - q;
    if i >= 0 {
      assert q >= 0.0;
    } else {
      assert q < 0.0;
    }
  }

  /** The profile of an achiever user-month is at most 1000 exactly when its
      insurance purchases do not add up to a negative amount: a refunded
      insurance purchase pushes the other codes above 1000. */
  lemma ProfileAtMost1000(rows: seq<Txn>, cm: CustMonth)
    requires IsAchieverMonth(rows, cm)
    ensures SumR(Profile(rows), PointsIn(cm)) <= 1000.0 <==> InsuranceTotal(rows, cm) >= 0
  {
    ProfileMonthSum(rows, cm);
    Share(MonthTotal(rows, cm), InsuranceTotal(rows, cm));
  }

  /** One column of the averaged profile. */
  datatype CodePoints = CodePoints(code: string, points: real)

  function UserMonthOf(): ProfileRow -> Option<CustMonth> {
    (r: ProfileRow) => Some(MonthOfKey(r.key))
  }

  function CodeOfProfile(): ProfileRow -> Option<string> {
    (r: ProfileRow) => Some(r.key.code)
  }

  /** A profile row's code and user-month, as total keys, and its points. */
  function CodeOfRow(): ProfileRow -> string {
    (r: ProfileRow) => r.key.code
  }

  function MonthOfProfileRow(): ProfileRow -> CustMonth {
    (r: ProfileRow) => MonthOfKey(r.key)
  }

  function RowPoints(): ProfileRow -> real {
    (r: ProfileRow) => r.points
  }

  /** The mean of a code's column over `n` user-months, a missing cell
      counting as 0. */
  function MeanOf(ps: seq<ProfileRow>, n: nat): string -> CodePoints
    requires n > 0
  {
    (c: string) => CodePoints(c, SumRKey(ps, CodeOfRow(), RowPoints(), c) / n as real)
  }

  /** The number of user-months of the profile: the rows of the pivot. */
  function MonthCount(ps: seq<ProfileRow>): nat {
    |Keys(ps, UserMonthOf())|
  }

  /** `mean` is the mean of a total over `n` items. */
  predicate IsMeanOver(mean: real, n: nat, total: real) {
    mean * n as real == total
  }

  /** `c` is the mean of its code's column over the user-months, a missing
      cell counting as 0. */
  predicate IsColumnMean(ps: seq<ProfileRow>, c: CodePoints) {
    IsMeanOver(c.points, MonthCount(ps), SumRKey(ps, CodeOfRow(), RowPoints(), c.code))
  }

  /** `pivot_table(..., fill_value=0).mean()`: one column per code that
      occurs, each the mean of its column; no columns for an empty
      profile. */
  function AveragedProfile(ps: seq<ProfileRow>): (avg: seq<CodePoints>)
    ensures ps == [] <==> avg == []
    ensures |avg| == |Keys(ps, CodeOfProfile())|
    ensures forall i :: 0 <= i < |avg| ==> avg[i].code == Keys(ps, CodeOfProfile())[i]
    ensures forall i :: 0 <= i < |avg| ==> IsColumnMean(ps, avg[i])
  {
    var n := MonthCount(ps);
    var codes := Keys(ps, CodeOfProfile());
    if n == 0 then
      assert ps == [];
      []
    else
      assert ps[0].key.code in codes;
      var avg := Project(codes, MeanOf(ps, n));
      MeansScaleBack(ps, n, codes, avg);
      avg
  }

  lemma MeansScaleBack(ps: seq<ProfileRow>, n: nat, codes: seq<string>, avg: seq<CodePoints>)
    requires n == MonthCount(ps) && n > 0 && avg == Project(codes, MeanOf(ps, n))
    ensures forall i :: 0 <= i < |avg| ==> IsColumnMean(ps, avg[i])
  {
    forall i | 0 <= i < |avg| ensures IsColumnMean(ps, avg[i]) {
      assert avg[i] == MeanOf(ps, n)(codes[i]);
      MeanIsColumnMean(ps, codes[i]);
    }
  }

  lemma MeanIsColumnMean(ps: seq<ProfileRow>, c: string)
    requires MonthCount(ps) > 0
    ensures IsColumnMean(ps, MeanOf(ps, MonthCount(ps))(c))
  {
    var a := SumRKey(ps, CodeOfRow(), RowPoints(), c);
    var n := MonthCount(ps);
    assert MeanOf(ps, n)(c) == CodePoints(c, a / n as real);
    DivideBack(a, n);
  }

  lemma DivideBack(a: real, n: nat)
    requires n > 0
    ensures IsMeanOver(a / n as real, n, a)
  {
  }

  function CodePointsOf(): CodePoints -> real {
    (c: CodePoints) => c.points
  }

  function Rescale(s: real): CodePoints -> CodePoints
    requires s != 0.0
  {
    (c: CodePoints) => CodePoints(c.code, c.points / s * 1000.0)
  }

  /** `Normalized_Points / Normalized_Points.sum() * 1000`; `None` when the
      sum is 0, where the division yields NaN for a zero share and an
      infinity for any other. */
  function Renormalize(avg: seq<CodePoints>): (r: Option<seq<CodePoints>>)
    ensures r.None? <==> SumR(avg, CodePointsOf()) == 0.0
    ensures r.Some? ==> |r.value| == |avg|
    ensures r.Some? ==> forall i :: 0 <= i < |avg| ==> r.value[i].code == avg[i].code
  {
    var s := SumR(avg, CodePointsOf());
    if s == 0.0 then None else Some(Project(avg, Rescale(s)))
  }

  lemma {:induction false} RescaledSum(avg: seq<CodePoints>, s: real)
    requires s != 0.0
    ensures SumR(Project(avg, Rescale(s)), CodePointsOf()) == SumR(avg, CodePointsOf()) / s * 1000.0
  {
    if avg != [] {
      RescaledSum(avg[1..], s);
      var r := Project(avg, Rescale(s));
      assert r[1..] == Project(avg[1..], Rescale(s));
      var a := avg[0].points;
      var b := SumR(avg[1..], CodePointsOf());
      assert (a + b) / s * 1000.0 == a / s * 1000.0 + b / s * 1000.0;
    }
  }

  /** After the rescaling the averaged profile adds up to exactly 1000. */
  lemma RenormalizedSumsTo1000(avg: seq<CodePoints>)
    requires Renormalize(avg).Some?
    ensures SumR(Renormalize(avg).value, CodePointsOf()) == 1000.0
  {
    var s := SumR(avg, CodePointsOf());
    RescaledSum(avg, s);
    assert s / s == 1.0;
  }

  function NotInsurance(): CodePoints -> bool {
    (c: CodePoints) => c.code != InsuranceCode
  }

  /** The view's last filter, which drops the insurance column after the
      rescaling, removes nothing: the profile never holds that code. */
  lemma InsuranceFilterRemovesNothing(rows: seq<Txn>)
    requires Renormalize(AveragedProfile(Profile(rows))).Some?
    ensures var r := Renormalize(AveragedProfile(Profile(rows))).value;
            Filter(r, NotInsurance()) == r
  {
    var ps := Profile(rows);
    var codes := Keys(ps, CodeOfProfile());
    var avg := AveragedProfile(ps);
    var r := Renormalize(avg).value;
    forall i | 0 <= i < |r| ensures NotInsurance()(r[i]) {
      assert r[i].code == codes[i];
      assert codes[i] in codes;
      var j :| 0 <= j < |ps| && CodeOfProfile()(ps[j]) == Some(codes[i]);
    }
    FilterAll(r, NotInsurance());
  }

  /** Adding `a / n` to a mean adds `a` to its total. */
  lemma MeanStep(a: real, r: real, n: nat, rest: real)
    requires n > 0 && IsMeanOver(r, n, rest)
    ensures IsMeanOver(a / n as real + r, n, a + rest)
  {
    var m := n as real;
    assert (a / m + r) * m == a / m * m + r * m;
    assert a / m * m == a;
  }

  /** Column by column, the means add up to the column sums over the
      number of user-months. */
  lemma {:induction false} MeanSums(ps: seq<ProfileRow>, n: nat, codes: seq<string>)
    requires n > 0
    ensures IsMeanOver(SumR(Project(codes, MeanOf(ps, n)), CodePointsOf()), n, SumROver(codes, ps, CodeOfRow(), RowPoints()))
  {
    if codes != [] {
      MeanSums(ps, n, codes[1..]);
      var avg := Project(codes, MeanOf(ps, n));
      assert avg[1..] == Project(codes[1..], MeanOf(ps, n));
      MeanStep(SumRKey(ps, CodeOfRow(), RowPoints(), codes[0]), SumR(avg[1..], CodePointsOf()), n,
               SumROver(codes[1..], ps, CodeOfRow(), RowPoints()));
    }
  }

  /** The averaged profile adds up to the mean, over the user-months, of
      the user-months' profile sums: its sum times the number of
      user-months is the sum of all profile points. */
  lemma AveragedSum(ps: seq<ProfileRow>)
    ensures IsMeanOver(SumR(AveragedProfile(ps), CodePointsOf()), MonthCount(ps), SumR(ps, RowPoints()))
  {
    var codes := Keys(ps, CodeOfProfile());
    var avg := AveragedProfile(ps);
    if ps != [] {
      var n := MonthCount(ps);
      AveragedIsMeans(ps);
      assert avg == Project(codes, MeanOf(ps, n));
      MeanSums(ps, n, codes);
      CodesCover(ps);
      PartitionSumR(codes, ps, CodeOfRow(), RowPoints());
    } else {
      assert avg == [];
    }
  }

  lemma MonthCountPositive(ps: seq<ProfileRow>)
    requires ps != []
    ensures MonthCount(ps) > 0
  {
    assert UserMonthOf()(ps[0]).value in Keys(ps, UserMonthOf());
  }

  lemma AveragedIsMeans(ps: seq<ProfileRow>)
    requires ps != []
    ensures MonthCount(ps) > 0
    ensures AveragedProfile(ps) == Project(Keys(ps, CodeOfProfile()), MeanOf(ps, MonthCount(ps)))
  {
    MonthCountPositive(ps);
  }

  lemma CodesCover(ps: seq<ProfileRow>)
    ensures forall x :: x in ps ==> CodeOfRow()(x) in Keys(ps, CodeOfProfile())
  {
    forall x | x in ps ensures CodeOfRow()(x) in Keys(ps, CodeOfProfile()) {
      var i :| 0 <= i < |ps| && ps[i] == x;
      assert CodeOfProfile()(ps[i]) == Some(x.key.code);
    }
  }

  /** Seen from user-month `cm`, the profile's points are its group sum. */
  lemma {:induction false} PointsInIsGroupSum(ps: seq<ProfileRow>, cm: CustMonth)
    ensures SumR(ps, PointsIn(cm)) == SumRKey(ps, MonthOfProfileRow(), RowPoints(), cm)
  {
    if ps != [] {
      PointsInIsGroupSum(ps[1..], cm);
    }
  }

  /** A total of 1000 per item has a mean of 1000. */
  lemma MeanOf1000s(mean: real, n: nat, total: real)
    requires n > 0 && IsMeanOver(mean, n, total) && total == n as real * 1000.0
    ensures mean == 1000.0
  {
    var m := n as real;
    assert mean == mean * m / m;
  }

  /** When no achiever month holds an insurance purchase, every user-month
      of the profile adds up to 1000. */
  lemma MonthsSumTo1000(rows: seq<Txn>)
    requires forall t :: t in rows && IsAchieverMonth(rows, MonthOfRow(t)) ==> t.code != InsuranceCode
    ensures SumR(Profile(rows), RowPoints()) == MonthCount(Profile(rows)) as real * 1000.0
  {
    EachMonthIs1000(rows);
    MonthsOf1000(Profile(rows));
  }

  /** User-months that each add up to 1000 add up to 1000 once per
      user-month. */
  lemma {:induction false} MonthsOf1000(ps: seq<ProfileRow>)
    requires forall cm :: cm in Keys(ps, UserMonthOf()) ==> SumRKey(ps, MonthOfProfileRow(), RowPoints(), cm) == 1000.0
    ensures SumR(ps, RowPoints()) == MonthCount(ps) as real * 1000.0
  {
    MonthsCover(ps);
    SumOfConstantGroups(Keys(ps, UserMonthOf()), ps, MonthOfProfileRow(), RowPoints(), 1000.0);
  }

  lemma EachMonthIs1000(rows: seq<Txn>)
    requires forall t :: t in rows && IsAchieverMonth(rows, MonthOfRow(t)) ==> t.code != InsuranceCode
    ensures forall cm :: cm in Keys(Profile(rows), UserMonthOf()) ==>
              SumRKey(Profile(rows), MonthOfProfileRow(), RowPoints(), cm) == 1000.0
  {
    var ps := Profile(rows);
    forall cm | cm in Keys(ps, UserMonthOf()) ensures SumRKey(ps, MonthOfProfileRow(), RowPoints(), cm) == 1000.0 {
      var i :| 0 <= i < |ps| && UserMonthOf()(ps[i]) == Some(cm);
      ProfileIs1000(rows, cm);
      PointsInIsGroupSum(ps, cm);
    }
  }

  lemma MonthsCover(ps: seq<ProfileRow>)
    ensures forall x :: x in ps ==> MonthOfProfileRow()(x) in Keys(ps, UserMonthOf())
  {
    forall x | x in ps ensures MonthOfProfileRow()(x) in Keys(ps, UserMonthOf()) {
      var i :| 0 <= i < |ps| && ps[i] == x;
      assert UserMonthOf()(ps[i]) == Some(MonthOfKey(x.key));
    }
  }

  /** Rescaling by a sum of 1000 keeps every column. */
  lemma RescaleBy1000(avg: seq<CodePoints>)
    ensures Project(avg, Rescale(1000.0)) == avg
  {
    var r := Project(avg, Rescale(1000.0));
    forall i | 0 <= i < |avg| ensures r[i] == avg[i] {
      assert avg[i].points / 1000.0 * 1000.0 == avg[i].points;
    }
  }

  /** When no achiever month holds an insurance purchase, the averaged
      profile already adds up to 1000, so the rescaling changes nothing. */
  lemma AveragedProfileIs1000(rows: seq<Txn>)
    requires Profile(rows) != []
    requires forall t :: t in rows && IsAchieverMonth(rows, MonthOfRow(t)) ==> t.code != InsuranceCode
    ensures SumR(AveragedProfile(Profile(rows)), CodePointsOf()) == 1000.0
    ensures Renormalize(AveragedProfile(Profile(rows))) == Some(AveragedProfile(Profile(rows)))
  {
    MonthsSumTo1000(rows);
    AverageOf1000s(Profile(rows));
  }

  /** A profile whose user-months add up to 1000 on average has an averaged
      profile that adds up to 1000. */
  lemma AverageOf1000s(ps: seq<ProfileRow>)
    requires ps != []
    requires SumR(ps, RowPoints()) == MonthCount(ps) as real * 1000.0
    ensures SumR(AveragedProfile(ps), CodePointsOf()) == 1000.0
    ensures Renormalize(AveragedProfile(ps)) == Some(AveragedProfile(ps))
  {
    var avg := AveragedProfile(ps);
    AveragedSum(ps);
    MonthCountPositive(ps);
    MeanOf1000s(SumR(avg, CodePointsOf()), MonthCount(ps), SumR(ps, RowPoints()));
    RescaleBy1000(avg);
  }
}
