/** The user segmentation of pages 4 and 5.

    Every user-month gets one of six segments from its transaction count,
    its number of active days, its two flags and three per-year thresholds
    (quantiles of the non-achiever and achiever populations). The pipeline
    writes the rule three times:
    - the page-4 precomputation starts every row at Irregular_Participant
      and applies five masked assignments in order, so that the last
      matching assignment wins (English labels);
    - the page-5 loader applies the same five assignments with Mongolian
      labels;
    - the page-5 view tests the conditions in the opposite order in an
      if/elif chain and returns at the first that holds.
    The three agree because the Explorer and Consistent conditions can
    never hold together. Quantiles are inputs here; a quantile of an empty
    population is NaN, modelled as `None`, and every comparison with NaN is
    false. */
module Segmentation {
  import opened Wrappers
  import opened Grouping
  import opened UserMonths

  /** A quantile: a number, or NaN (`None`). */
  type Threshold = Option<real>

  predicate AtLeast(x: int, t: Threshold) {
    t.Some? && x as real >= t.value
  }

  predicate Below(x: int, t: Threshold) {
    t.Some? && x as real < t.value
  }

  predicate Above(x: int, t: Threshold) {
    t.Some? && x as real > t.value
  }

  predicate AtMost(x: int, t: Threshold) {
    t.Some? && x as real <= t.value
  }

  /** The three thresholds the segmentation reads: `txn_q75`, `days_q75` and
      `achievers_txn_q25`. */
  datatype Thresholds = Thresholds(txnQ75: Threshold, daysQ75: Threshold, achieversTxnQ25: Threshold)

  /** The columns of a user-month that the segmentation reads. */
  datatype Features = Features(count: int, days: int, reached: bool, inactive: bool)

  function FeaturesOf<K>(u: UserMonth<K>): Features {
    Features(u.count, u.days, Reached(u), Inactive(u))
  }

  predicate ConsistentCond(f: Features, th: Thresholds) {
    AtLeast(f.count, th.txnQ75) && Above(f.days, th.daysQ75)
  }

  predicate ExplorerCond(f: Features, th: Thresholds) {
    Below(f.count, th.txnQ75) && AtMost(f.days, th.daysQ75)
  }

  predicate HighEffortCond(f: Features, th: Thresholds) {
    AtLeast(f.count, th.achieversTxnQ25)
  }

  datatype Segment = InactiveUser | Achiever | HighEffort | Explorer | Consistent | Irregular

  /** The segment by precedence: Inactive, then Achiever, then High_Effort,
      then Explorer or Consistent, then Irregular_Participant. */
  function SegmentOf(f: Features, th: Thresholds): (s: Segment)
    ensures f.inactive ==> s == InactiveUser
    ensures !f.inactive && f.reached ==> s == Achiever
    ensures s == HighEffort <==> !f.inactive && !f.reached && HighEffortCond(f, th)
    ensures s == Explorer <==> !f.inactive && !f.reached && !HighEffortCond(f, th) && ExplorerCond(f, th)
    ensures s == Consistent <==> !f.inactive && !f.reached && !HighEffortCond(f, th) && ConsistentCond(f, th)
  {
    ConditionsDisjoint(f, th);
    if f.inactive then InactiveUser
    else if f.reached then Achiever
    else if HighEffortCond(f, th) then HighEffort
    else if ExplorerCond(f, th) then Explorer
    else if ConsistentCond(f, th) then Consistent
    else Irregular
  }

  /** Explorer needs `count < txn_q75` and Consistent needs
      `count >= txn_q75`: no user-month meets both. */
  lemma ConditionsDisjoint(f: Features, th: Thresholds)
    ensures !(ExplorerCond(f, th) && ConsistentCond(f, th))
  {
  }

  /** The six label strings of one implementation. */
  datatype Labels = Labels(irregular: string, consistent: string, explorer: string,
                           highEffort: string, achiever: string, inactive: string)
  {
    function Name(s: Segment): string {
      match s
      case InactiveUser => inactive
      case Achiever => achiever
      case HighEffort => highEffort
      case Explorer => explorer
      case Consistent => consistent
      case Irregular => irregular
    }

    predicate Distinct() {
      var all := [irregular, consistent, explorer, highEffort, achiever, inactive];
      forall i, j :: 0 <= i < j < |all| ==> all[i] != all[j]
    }
  }

  const English: Labels := Labels("Irregular_Participant", "Consistent", "Explorer",
                                  "High_Effort", "Achiever", "Inactive")

  /** Тогтмол_бус_оролцогч, Тогтвортой, Туршигч, Их_чармайлттай, Амжилттай,
      Идэвхгүй. */
  const Mongolian: Labels := Labels(
    "\U{422}\U{43e}\U{433}\U{442}\U{43c}\U{43e}\U{43b}_\U{431}\U{443}\U{441}_\U{43e}\U{440}\U{43e}\U{43b}\U{446}\U{43e}\U{433}\U{447}",
    "\U{422}\U{43e}\U{433}\U{442}\U{432}\U{43e}\U{440}\U{442}\U{43e}\U{439}",
    "\U{422}\U{443}\U{440}\U{448}\U{438}\U{433}\U{447}",
    "\U{418}\U{445}_\U{447}\U{430}\U{440}\U{43c}\U{430}\U{439}\U{43b}\U{442}\U{442}\U{430}\U{439}",
    "\U{410}\U{43c}\U{436}\U{438}\U{43b}\U{442}\U{442}\U{430}\U{439}",
    "\U{418}\U{434}\U{44d}\U{432}\U{445}\U{433}\U{4af}\U{439}")

  /** The override cascade: every row starts with the Irregular label and
      each masked assignment, in order, overwrites the label of the rows it
      matches. */
  function OverrideCascade(f: Features, th: Thresholds, names: Labels): string {
    var label0 := names.irregular;
    var label1 := if ConsistentCond(f, th) then names.consistent else label0;
    var label2 := if ExplorerCond(f, th) then names.explorer else label1;
    var label3 := if HighEffortCond(f, th) then names.highEffort else label2;
    var label4 := if f.reached then names.achiever else label3;
    if f.inactive then names.inactive else label4
  }

  /** The page-4 precomputation's `User_Segment`. */
  function Page4Segment(f: Features, th: Thresholds): string {
    OverrideCascade(f, th, English)
  }

  /** `assign_page5_segments`'s `User_Segment`. */
  function LoaderSegment(f: Features, th: Thresholds): string {
    OverrideCascade(f, th, Mongolian)
  }

  /** The page-5 view's `assign_segment`: an if/elif chain that returns at
      the first condition that holds. */
  function AssignSegment(f: Features, th: Thresholds): string {
    if f.inactive then Mongolian.inactive
    else if f.reached then Mongolian.achiever
    else if HighEffortCond(f, th) then Mongolian.highEffort
    else if ExplorerCond(f, th) then Mongolian.explorer
    else if ConsistentCond(f, th) then Mongolian.consistent
    else Mongolian.irregular
  }

  /** Last write wins in the override cascade, so it labels every user-month
      with the segment of highest precedence whose condition holds. */
  lemma OverrideIsPrecedence(f: Features, th: Thresholds, names: Labels)
    ensures OverrideCascade(f, th, names) == names.Name(SegmentOf(f, th))
  {
    ConditionsDisjoint(f, th);
  }

  /** The if/elif chain labels by the same precedence. */
  lemma IfElifIsPrecedence(f: Features, th: Thresholds)
    ensures AssignSegment(f, th) == Mongolian.Name(SegmentOf(f, th))
  {
  }

  /** The page-5 loader's cascade and the page-5 view's if/elif chain give
      every user-month the same label, for every choice of thresholds. */
  lemma IfElifEqualsOverrides(f: Features, th: Thresholds)
    ensures AssignSegment(f, th) == LoaderSegment(f, th)
  {
    OverrideIsPrecedence(f, th, Mongolian);
  }

  /** The English label of page 4 as the Mongolian label of page 5. */
  function Rename(name: string): string {
    if name == English.inactive then Mongolian.inactive
    else if name == English.achiever then Mongolian.achiever
    else if name == English.highEffort then Mongolian.highEffort
    else if name == English.explorer then Mongolian.explorer
    else if name == English.consistent then Mongolian.consistent
    else if name == English.irregular then Mongolian.irregular
    else name
  }

  lemma EnglishLabelsDistinct()
    ensures English.Distinct()
  {
  }

  lemma MongolianLabelsDistinct()
    ensures Mongolian.Distinct()
  {
  }

  /** Renaming maps each English label to the Mongolian label of the same
      segment. */
  lemma RenameLabels(s: Segment)
    ensures Rename(English.Name(s)) == Mongolian.Name(s)
  {
    EnglishLabelsDistinct();
    var all := [English.irregular, English.consistent, English.explorer,
                English.highEffort, English.achiever, English.inactive];
    assert all[0] != all[5] && all[0] != all[4] && all[0] != all[3] && all[0] != all[2] && all[0] != all[1];
    assert all[1] != all[5] && all[1] != all[4] && all[1] != all[3] && all[1] != all[2];
    assert all[2] != all[5] && all[2] != all[4] && all[2] != all[3];
    assert all[3] != all[5] && all[3] != all[4];
    assert all[4] != all[5];
  }

  /** The three implementations are one function up to the renaming of the
      labels: page 4 (English overrides), the page-5 loader (Mongolian
      overrides) and the page-5 view (if/elif). */
  lemma ThreeCascadesAgree(f: Features, th: Thresholds)
    ensures Rename(Page4Segment(f, th)) == LoaderSegment(f, th)
    ensures LoaderSegment(f, th) == AssignSegment(f, th)
  {
    OverrideIsPrecedence(f, th, English);
    OverrideIsPrecedence(f, th, Mongolian);
    RenameLabels(SegmentOf(f, th));
  }

  /** An inactive user-month is labelled Идэвхгүй and an active achiever
      Амжилттай, whatever the thresholds. */
  lemma FlagsDecideFirst(f: Features, th: Thresholds)
    ensures f.inactive ==> AssignSegment(f, th) == Mongolian.inactive
    ensures !f.inactive && f.reached ==> AssignSegment(f, th) == Mongolian.achiever
  {
  }

  /** The page-4 achiever threshold: the quantile of the achievers' counts,
      or 0.0 when the year has no achiever. */
  function Page4AchieverThreshold(hasAchievers: bool, quantile: Threshold): (t: Threshold)
    ensures !hasAchievers ==> t == Some(0.0)
    ensures hasAchievers ==> t == quantile
  {
    if hasAchievers then quantile else Some(0.0)
  }

  /** In a year without achievers, page 4 puts every active user-month that
      did not reach the milestone in High_Effort: the fallback threshold 0.0
      is met by every count. */
  lemma NoAchieversMeansHighEffort(f: Features, txnQ75: Threshold, daysQ75: Threshold, q: Threshold)
    requires f.count >= 0 && !f.inactive && !f.reached
    ensures Page4Segment(f, Thresholds(txnQ75, daysQ75, Page4AchieverThreshold(false, q))) == English.highEffort
  {
  }

  /** The page-5 loader has no fallback: without achievers its threshold is
      NaN, no user-month is High_Effort, and the two pages disagree on every
      active non-achiever. */
  lemma LoaderHasNoFallback(f: Features, txnQ75: Threshold, daysQ75: Threshold)
    requires f.count >= 0 && !f.inactive && !f.reached
    ensures LoaderSegment(f, Thresholds(txnQ75, daysQ75, None)) != Mongolian.highEffort
    ensures Rename(Page4Segment(f, Thresholds(txnQ75, daysQ75, Page4AchieverThreshold(false, None))))
            != LoaderSegment(f, Thresholds(txnQ75, daysQ75, None))
  {
    MongolianLabelsDistinct();
    var th := Thresholds(txnQ75, daysQ75, None);
    OverrideIsPrecedence(f, th, Mongolian);
    RenameLabels(HighEffort);
    var all := [Mongolian.irregular, Mongolian.consistent, Mongolian.explorer,
                Mongolian.highEffort, Mongolian.achiever, Mongolian.inactive];
    assert all[3] != all[0] && all[3] != all[1] && all[3] != all[2];
  }

  /** `assign_page5_segments`: the same user-months, in the same order, each
      with its Mongolian label. */
  function AssignSegments<K>(us: seq<UserMonth<K>>, th: Thresholds): (out: seq<(UserMonth<K>, string)>)
    ensures |out| == |us|
    ensures forall i :: 0 <= i < |us| ==> out[i].0 == us[i]
    ensures forall i :: 0 <= i < |us| ==> out[i].1 == Mongolian.Name(SegmentOf(FeaturesOf(us[i]), th))
    ensures forall i :: 0 <= i < |us| && Inactive(us[i]) ==> out[i].1 == Mongolian.inactive
  {
    var out := seq(|us|, i requires 0 <= i < |us| => (us[i], LoaderSegment(FeaturesOf(us[i]), th)));
    AssignSegmentsFollowPrecedence(us, th, out);
    out
  }

  lemma AssignSegmentsFollowPrecedence<K>(us: seq<UserMonth<K>>, th: Thresholds, out: seq<(UserMonth<K>, string)>)
    requires |out| == |us|
    requires forall i :: 0 <= i < |us| ==> out[i] == (us[i], LoaderSegment(FeaturesOf(us[i]), th))
    ensures forall i :: 0 <= i < |us| ==> out[i].1 == Mongolian.Name(SegmentOf(FeaturesOf(us[i]), th))
  {
    forall i | 0 <= i < |us| ensures out[i].1 == Mongolian.Name(SegmentOf(FeaturesOf(us[i]), th)) {
      OverrideIsPrecedence(FeaturesOf(us[i]), th, Mongolian);
    }
  }

  /** The page-4 labels, each once. */
  const EnglishNames: seq<string> := [English.irregular, English.consistent, English.explorer,
                                      English.highEffort, English.achiever, English.inactive]

  /** The page-4 label of the user-months of month `m` of year `y`; other
      user-months have none. */
  function SegmentKey(th: Thresholds, y: int, m: int): UserMonth<MonthKey> -> Option<string> {
    (u: UserMonth<MonthKey>) => if u.key.year == y && u.key.month == m then Some(Page4Segment(FeaturesOf(u), th)) else None
  }

  function InMonth(y: int, m: int): UserMonth<MonthKey> -> bool {
    (u: UserMonth<MonthKey>) => u.key.year == y && u.key.month == m
  }

  /** `user_segment_monthly_df`: the segment counts of a month add up to the
      number of user-months of that month, since every user-month gets
      exactly one of the six labels. */
  lemma SegmentCountsPartition(us: seq<UserMonth<MonthKey>>, th: Thresholds, y: int, m: int)
    ensures CountOver(EnglishNames, us, SegmentKey(th, y, m)) == Count(us, InMonth(y, m))
  {
    EnglishLabelsDistinct();
    assert Distinct(EnglishNames);
    forall u | u in us && SegmentKey(th, y, m)(u).Some? ensures SegmentKey(th, y, m)(u).value in EnglishNames {
      OverrideIsPrecedence(FeaturesOf(u), th, English);
    }
    PartitionCount(EnglishNames, us, SegmentKey(th, y, m));
    CountKeyedIsCount(us, SegmentKey(th, y, m), InMonth(y, m));
  }
}
