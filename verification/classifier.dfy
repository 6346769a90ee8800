/** The code classifier: a loyalty code is mapped to one of eight business
    categories ("code groups") by a cascade of exact-set, prefix, suffix and
    substring rules on the trimmed, upper-cased code; the first rule that
    fires decides (data/data_pre_compute.py, `map_code_group`).

    `MapCodeGroup` is the cascade as written. `Rules` is the same cascade as
    an explicit ordered table evaluated by `FirstMatch`;
    `CascadeIsFirstMatch` proves the two agree on every code, and
    `RuleOrderMatters` shows that the table's order is observable. */
module CodeClassifier {
  import opened Wrappers
  import opened Strings

  /** The eight business categories. */
  datatype CodeGroup =
    | CoreTransactions
    | CampaignsEvents
    | AccountOpening
    | FinancialTransactions
    | Insurance
    | MerchantLifestyle
    | InvestmentsSecurities
    | Other

  /** The category name the reports print. */
  function Name(g: CodeGroup): string {
    match g
    case CoreTransactions => "Core Transactions"
    case CampaignsEvents => "Campaigns & Events"
    case AccountOpening => "Account Opening"
    case FinancialTransactions => "Financial Transactions"
    case Insurance => "Insurance"
    case MerchantLifestyle => "Merchant & Lifestyle"
    case InvestmentsSecurities => "Investments & Securities"
    case Other => "Other"
  }

  /** The eight category names, in the order the reports list them. */
  const CategoryNames: seq<string> := [
    "Core Transactions", "Campaigns & Events", "Account Opening",
    "Financial Transactions", "Insurance", "Merchant & Lifestyle",
    "Investments & Securities", "Other"
  ]

  /** Different categories print differently, so a printed name identifies
      its category. */
  lemma NamesIdentifyGroups(g1: CodeGroup, g2: CodeGroup)
    ensures Name(g1) == Name(g2) <==> g1 == g2
  {
  }

  const CoreCodes: seq<string> := [
    "10K_TRANSACTION", "10K_CHARGE_CUPCAKE", "10K_CHARGE_CUPCAKE_1",
    "10K_TULBUR_TSES", "10K_TRANSACTION_CARD"
  ]

  /** `GEO_CODES`: the regional campaign codes. */
  const GeoCodes: seq<string> := [
    "BAGANUUR", "BULGAN", "DARKHAN", "ERDENET",
    "KHENTII", "CHOIR", "SAINSHAND", "SELENGE"
  ]

  const SecuritiesAccountCodes: seq<string> := ["ARD_SEC", "ARD_SEC1", "ARD_SEC100", "10K_KIDS61"]

  const FinancialCodes: seq<string> := ["LOYALTY_LIMIT", "ACO", "ZEEL_TULULT"]

  const CampaignPrefixes: seq<string> := [
    "INVESTORWEEK", "TVMEN", "SMART", "HURUNGU",
    "PENSION_SURGALT", "CREDIT_SURGALT", "CREDIT_ZEEL",
    "ARDCOIN", "CREDIT_AIRDROP"
  ]

  /** Membership in a fixed list of codes, `code in {...}`, tested entry
      by entry from index `i`. */
  predicate ListedFrom(code: string, codes: seq<string>, i: nat)
    decreases |codes| - i
  {
    i < |codes| && (code == codes[i] || ListedFrom(code, codes, i + 1))
  }

  predicate Listed(code: string, codes: seq<string>) {
    ListedFrom(code, codes, 0)
  }

  lemma {:induction false} ListedFromIsMembership(code: string, codes: seq<string>, i: nat)
    requires i <= |codes|
    ensures ListedFrom(code, codes, i) <==> code in codes[i..]
    decreases |codes| - i
  {
    if i < |codes| {
      ListedFromIsMembership(code, codes, i + 1);
      assert codes[i..] == [codes[i]] + codes[i + 1..];
    }
  }

  /** `Listed` is membership. */
  lemma ListedIsMembership(code: string, codes: seq<string>)
    ensures Listed(code, codes) <==> code in codes
  {
    ListedFromIsMembership(code, codes, 0);
    assert codes[0..] == codes;
  }

  /** `str(code).strip().upper()` */
  function Normalize(code: string): string {
    Upper(Strip(code))
  }

  /** `s.startswith(tuple(ps))`, scanning the tuple from index `i`. */
  predicate StartsWithAny(s: string, ps: seq<string>, i: nat)
    decreases |ps| - i
  {
    i < |ps| && (StartsWith(s, ps[i]) || StartsWithAny(s, ps, i + 1))
  }

  /** `code.startswith("INF") and len(code) >= 7 and code[3:7].isdigit()` */
  predicate IsCodedCampaign(code: string) {
    StartsWith(code, "INF") && |code| >= 7
    && IsDigit(code[3]) && IsDigit(code[4]) && IsDigit(code[5]) && IsDigit(code[6])
  }

  // The tests of the cascade, one predicate per `if` of the source.

  predicate IsAccountOpeningCode(code: string) {
    StartsWith(code, "10K_OPEN") || Listed(code, SecuritiesAccountCodes)
    || EndsWith(code, "UTSD") || Contains(code, "TETDANS")
  }

  predicate IsFinancialCode(code: string) {
    Contains(code, "TRANSACTION") || Contains(code, "CHARGE") || Contains(code, "CCA")
    || Contains(code, "AFFILIATE") || Listed(code, FinancialCodes)
  }

  predicate IsInsuranceCode(code: string) {
    Contains(code, "INSUR") || Contains(code, "DAATGAL")
  }

  predicate IsMerchantCode(code: string) {
    StartsWith(code, "MARAL") || StartsWith(code, "MARAN") || Contains(code, "KRYPTOS")
    || Contains(code, "PNP") || Contains(code, "LOTTO") || code == "10K_GAME"
  }

  predicate IsSocialCampaignCode(code: string) {
    Contains(code, "SOCIAL") || Contains(code, "FACEBOOK") || Contains(code, "SELFIE")
    || Contains(code, "MEDEE") || Contains(code, "TUUH")
  }

  predicate IsInvestmentCode(code: string) {
    StartsWith(code, "10K_BUY") || StartsWith(code, "ARD_") || Contains(code, "1072")
    || Contains(code, "HOS") || Contains(code, "HOUS")
  }

  /** The cascade on a code that is already trimmed and upper-cased. */
  function ClassifyNormalized(code: string): CodeGroup
  {
    if Listed(code, CoreCodes) then CoreTransactions
    else if Listed(code, GeoCodes) then CampaignsEvents
    else if IsAccountOpeningCode(code) then AccountOpening
    else if IsFinancialCode(code) then FinancialTransactions
    else if IsInsuranceCode(code) then Insurance
    else if IsMerchantCode(code) then MerchantLifestyle
    else if IsSocialCampaignCode(code) then CampaignsEvents
    else if IsInvestmentCode(code) then InvestmentsSecurities
    else if StartsWithAny(code, CampaignPrefixes, 0) then CampaignsEvents
    else if IsCodedCampaign(code) then CampaignsEvents
    else Other
  }

  /** `map_code_group`: a missing code (NaN) is a financial transaction;
      any other code gets the category of the first rule of `Rules` that
      fires on its stripped, upper-cased form, and Other when none fires. */
  function MapCodeGroup(code: Option<string>): (g: CodeGroup)
    ensures code.None? ==> g == FinancialTransactions
    ensures code.Some? ==> g == FirstMatch(Rules, Normalize(code.value), Other)
  {
    match code
    case None => FinancialTransactions
    case Some(c) =>
      CascadeIsFirstMatch(Normalize(c));
      ClassifyNormalized(Normalize(c))
  }

  // ---------------------------------------------------------------------
  // Normal forms

  lemma UpperCharKeepsSpace(c: char)
    ensures IsSpace(UpperChar(c)) <==> IsSpace(c)
  {
  }

  /** Normalising twice is normalising once. */
  lemma NormalizeIdempotent(code: string)
    ensures Normalize(Normalize(code)) == Normalize(code)
  {
    var s := Strip(code);
    var u := Upper(s);
    if u != [] {
      UpperCharKeepsSpace(s[0]);
      UpperCharKeepsSpace(s[|s| - 1]);
    }
    assert Strip(u) == u;
    UpperIdempotent(s);
  }

  /** The category of a code depends only on its normal form: padding with
      white space or changing letter case never changes the category. */
  lemma ClassifyDependsOnlyOnNormalForm(code: string)
    ensures MapCodeGroup(Some(code)) == MapCodeGroup(Some(Normalize(code)))
  {
    NormalizeIdempotent(code);
  }

  /** Every character from index `i` on is its own upper-case form. */
  predicate IsUpperFrom(s: string, i: nat)
    decreases |s| - i
  {
    i >= |s| || (UpperChar(s[i]) == s[i] && IsUpperFrom(s, i + 1))
  }

  lemma {:induction false} IsUpperFromAll(s: string, i: nat)
    requires IsUpperFrom(s, i)
    ensures forall k :: i <= k < |s| ==> UpperChar(s[k]) == s[k]
    decreases |s| - i
  {
    if i < |s| {
      IsUpperFromAll(s, i + 1);
    }
  }

  /** On a code without surrounding white space, normalising is
      upper-casing. */
  lemma NormalizeTrimmed(code: string)
    requires code == [] || (!IsSpace(code[0]) && !IsSpace(code[|code| - 1]))
    ensures Normalize(code) == Upper(code)
  {
  }

  /** A code without surrounding white space and without lower-case letters
      is its own normal form. */
  lemma NormalCodeIsFixed(code: string)
    requires code == [] || (!IsSpace(code[0]) && !IsSpace(code[|code| - 1]))
    requires IsUpperFrom(code, 0)
    ensures Normalize(code) == code
  {
    NormalizeTrimmed(code);
    IsUpperFromAll(code, 0);
  }

  // ---------------------------------------------------------------------
  // The cascade as an explicit ordered rule table

  /** The fixed code lists of the cascade. */
  datatype CodeList = CoreList | GeoList | SecuritiesAccountList | FinancialList

  function Members(l: CodeList): seq<string> {
    match l
    case CoreList => CoreCodes
    case GeoList => GeoCodes
    case SecuritiesAccountList => SecuritiesAccountCodes
    case FinancialList => FinancialCodes
  }

  datatype Pattern =
    | OneOf(list: CodeList)
    | Prefix(prefix: string)
    | CampaignPrefix
    | Suffix(suffix: string)
    | Infix(infix: string)
    | Exactly(exact: string)
    | CodedCampaign

  predicate PatternMatches(p: Pattern, code: string) {
    match p
    case OneOf(l) => Listed(code, Members(l))
    case Prefix(q) => StartsWith(code, q)
    case CampaignPrefix => StartsWithAny(code, CampaignPrefixes, 0)
    case Suffix(q) => EndsWith(code, q)
    case Infix(q) => Contains(code, q)
    case Exactly(q) => code == q
    case CodedCampaign => IsCodedCampaign(code)
  }

  /** A rule fires when any of its patterns matches. */
  datatype Rule = Rule(patterns: seq<Pattern>, group: CodeGroup)

  /** Some pattern of `ps` from index `j` on matches. */
  predicate AnyPatternFrom(ps: seq<Pattern>, code: string, j: nat)
    decreases |ps| - j
  {
    j < |ps| && (PatternMatches(ps[j], code) || AnyPatternFrom(ps, code, j + 1))
  }

  predicate Fires(r: Rule, code: string) {
    AnyPatternFrom(r.patterns, code, 0)
  }

  /** The group of the first rule from index `i` on that fires, if any. */
  function FirstMatchFrom(rules: seq<Rule>, code: string, i: nat): (g: Option<CodeGroup>)
    ensures g.Some? ==> exists k :: i <= k < |rules| && Fires(rules[k], code) && g.value == rules[k].group
    ensures g.None? ==> forall k :: i <= k < |rules| ==> !Fires(rules[k], code)
    decreases |rules| - i
  {
    if i >= |rules| then None
    else if Fires(rules[i], code) then Some(rules[i].group)
    else FirstMatchFrom(rules, code, i + 1)
  }

  /** First-match evaluation of a rule table with a default group. */
  function FirstMatch(rules: seq<Rule>, code: string, default: CodeGroup): CodeGroup {
    FirstMatchFrom(rules, code, 0).GetOr(default)
  }

  const Rules: seq<Rule> := [
    Rule([OneOf(CoreList)], CoreTransactions),
    Rule([OneOf(GeoList)], CampaignsEvents),
    Rule([Prefix("10K_OPEN"), OneOf(SecuritiesAccountList), Suffix("UTSD"), Infix("TETDANS")], AccountOpening),
    Rule([Infix("TRANSACTION"), Infix("CHARGE"), Infix("CCA"), Infix("AFFILIATE"), OneOf(FinancialList)],
         FinancialTransactions),
    Rule([Infix("INSUR"), Infix("DAATGAL")], Insurance),
    Rule([Prefix("MARAL"), Prefix("MARAN"), Infix("KRYPTOS"), Infix("PNP"), Infix("LOTTO"), Exactly("10K_GAME")],
         MerchantLifestyle),
    Rule([Infix("SOCIAL"), Infix("FACEBOOK"), Infix("SELFIE"), Infix("MEDEE"), Infix("TUUH")], CampaignsEvents),
    Rule([Prefix("10K_BUY"), Prefix("ARD_"), Infix("1072"), Infix("HOS"), Infix("HOUS")], InvestmentsSecurities),
    Rule([CampaignPrefix], CampaignsEvents),
    Rule([CodedCampaign], CampaignsEvents)
  ]

  lemma FiresCoreOrGeo(code: string)
    ensures Fires(Rules[0], code) <==> Listed(code, CoreCodes)
    ensures Fires(Rules[1], code) <==> Listed(code, GeoCodes)
  {
  }

  lemma FiresAccountOrFinancial(code: string)
    ensures Fires(Rules[2], code) <==> IsAccountOpeningCode(code)
    ensures Fires(Rules[3], code) <==> IsFinancialCode(code)
  {
  }

  lemma FiresInsuranceOrMerchant(code: string)
    ensures Fires(Rules[4], code) <==> IsInsuranceCode(code)
    ensures Fires(Rules[5], code) <==> IsMerchantCode(code)
  {
  }

  lemma FiresSocialOrInvestment(code: string)
    ensures Fires(Rules[6], code) <==> IsSocialCampaignCode(code)
    ensures Fires(Rules[7], code) <==> IsInvestmentCode(code)
  {
  }

  lemma FiresCampaign(code: string)
    ensures Fires(Rules[8], code) <==> StartsWithAny(code, CampaignPrefixes, 0)
    ensures Fires(Rules[9], code) <==> IsCodedCampaign(code)
  {
  }

  /** The last two rules of the table. */
  lemma FirstMatchLate(code: string)
    ensures FirstMatchFrom(Rules, code, 8) ==
      if StartsWithAny(code, CampaignPrefixes, 0) || IsCodedCampaign(code) then Some(CampaignsEvents) else None
  {
    FiresCampaign(code);
  }

  /** Rules four to seven, followed by the late ones. */
  lemma FirstMatchMiddle(code: string)
    ensures FirstMatchFrom(Rules, code, 4) ==
      if IsInsuranceCode(code) then Some(Insurance)
      else if IsMerchantCode(code) then Some(MerchantLifestyle)
      else if IsSocialCampaignCode(code) then Some(CampaignsEvents)
      else if IsInvestmentCode(code) then Some(InvestmentsSecurities)
      else FirstMatchFrom(Rules, code, 8)
  {
    FiresInsuranceOrMerchant(code);
    FiresSocialOrInvestment(code);
    assert FirstMatchFrom(Rules, code, 6) ==
      if IsSocialCampaignCode(code) then Some(CampaignsEvents)
      else if IsInvestmentCode(code) then Some(InvestmentsSecurities)
      else FirstMatchFrom(Rules, code, 8);
  }

  /** Rules two and three, followed by the rest. */
  lemma FirstMatchAccountOrFinancial(code: string)
    ensures FirstMatchFrom(Rules, code, 2) ==
      if IsAccountOpeningCode(code) then Some(AccountOpening)
      else if IsFinancialCode(code) then Some(FinancialTransactions)
      else FirstMatchFrom(Rules, code, 4)
  {
    FiresAccountOrFinancial(code);
  }

  /** The first two rules of the table, followed by the rest. */
  lemma FirstMatchEarly(code: string)
    ensures FirstMatchFrom(Rules, code, 0) ==
      if Listed(code, CoreCodes) then Some(CoreTransactions)
      else if Listed(code, GeoCodes) then Some(CampaignsEvents)
      else FirstMatchFrom(Rules, code, 2)
  {
    FiresCoreOrGeo(code);
  }

  /** The cascade is first-match evaluation of `Rules`, defaulting to Other. */
  lemma CascadeIsFirstMatch(code: string)
    ensures ClassifyNormalized(code) == FirstMatch(Rules, code, Other)
  {
    FirstMatchEarly(code);
    FirstMatchAccountOrFinancial(code);
    FirstMatchMiddle(code);
    FirstMatchLate(code);
    CascadeOfBlocks(code, FirstMatchFrom(Rules, code, 0), FirstMatchFrom(Rules, code, 2),
                    FirstMatchFrom(Rules, code, 4), FirstMatchFrom(Rules, code, 8));
  }

  /** The cascade read off the outcomes of the four blocks of rules. */
  lemma CascadeOfBlocks(code: string, early: Option<CodeGroup>, account: Option<CodeGroup>,
                        middle: Option<CodeGroup>, late: Option<CodeGroup>)
    requires late == if StartsWithAny(code, CampaignPrefixes, 0) || IsCodedCampaign(code) then Some(CampaignsEvents) else None
    requires middle ==
      if IsInsuranceCode(code) then Some(Insurance)
      else if IsMerchantCode(code) then Some(MerchantLifestyle)
      else if IsSocialCampaignCode(code) then Some(CampaignsEvents)
      else if IsInvestmentCode(code) then Some(InvestmentsSecurities)
      else late
    requires account ==
      if IsAccountOpeningCode(code) then Some(AccountOpening)
      else if IsFinancialCode(code) then Some(FinancialTransactions)
      else middle
    requires early ==
      if Listed(code, CoreCodes) then Some(CoreTransactions)
      else if Listed(code, GeoCodes) then Some(CampaignsEvents)
      else account
    ensures ClassifyNormalized(code) == early.GetOr(Other)
  {
  }

  /** The table with the Account Opening and the Investments & Securities
      rules exchanged. */
  const SwappedRules: seq<Rule> := Rules[2 := Rules[7]][7 := Rules[2]]

  lemma ArdSecSkipsFirstRules()
    ensures !Fires(Rules[0], "ARD_SEC") && !Fires(Rules[1], "ARD_SEC")
  {
    FiresCoreOrGeo("ARD_SEC");
  }

  lemma ArdSecFiresAccountRule()
    ensures Fires(Rules[2], "ARD_SEC")
  {
    FiresAccountOrFinancial("ARD_SEC");
  }

  lemma ArdSecIsInvestment()
    ensures Fires(Rules[7], "ARD_SEC")
  {
    FiresSocialOrInvestment("ARD_SEC");
  }

  lemma ArdSecInTable()
    ensures FirstMatch(Rules, "ARD_SEC", Other) == AccountOpening
  {
    ArdSecSkipsFirstRules();
    ArdSecFiresAccountRule();
  }

  lemma ArdSecInSwappedTable()
    ensures FirstMatch(SwappedRules, "ARD_SEC", Other) == InvestmentsSecurities
  {
    ArdSecSkipsFirstRules();
    ArdSecIsInvestment();
    assert SwappedRules[0] == Rules[0] && SwappedRules[1] == Rules[1] && SwappedRules[2] == Rules[7];
    assert FirstMatchFrom(SwappedRules, "ARD_SEC", 2) == Some(InvestmentsSecurities);
    assert FirstMatchFrom(SwappedRules, "ARD_SEC", 1) == Some(InvestmentsSecurities);
  }

  /** Rule order is observable: "ARD_SEC" fires both the Account Opening
      rule (it is a listed securities-account code) and the Investments &
      Securities rule (it starts with "ARD_"), and the two orders disagree. */
  lemma RuleOrderMatters()
    ensures FirstMatch(Rules, "ARD_SEC", Other) == AccountOpening
    ensures FirstMatch(SwappedRules, "ARD_SEC", Other) == InvestmentsSecurities
  {
    ArdSecInTable();
    ArdSecInSwappedTable();
  }

  /** The group of a code already in normal form is read off the cascade. */
  lemma GroupOfNormalCode(code: string, g: CodeGroup)
    requires Normalize(code) == code
    requires ClassifyNormalized(code) == g
    ensures MapCodeGroup(Some(code)) == g
  {
  }

  /** Every code, missing or not, is assigned exactly one of the eight
      category names. */
  lemma ClassifierIsTotal(code: Option<string>)
    ensures Name(MapCodeGroup(code)) in CategoryNames
    ensures forall i, j :: 0 <= i < j < |CategoryNames| ==> CategoryNames[i] != CategoryNames[j]
  {
    NameIsListed(MapCodeGroup(code));
  }

  lemma NameIsListed(g: CodeGroup)
    ensures Name(g) in CategoryNames
  {
  }
}
