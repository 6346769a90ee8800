/** Which rule of the code classifier a given code resolves to.

    Each example is proved from which tests of the cascade the code fails
    (a pattern one of whose characters the code lacks cannot match it) and
    which test it fires first (a pattern found at a known offset). Each
    fact about a code is its own small lemma, and the category follows from
    the facts alone. */
module ClassifierExamples {
  import opened Wrappers
  import opened Strings
  import opened CodeClassifier

  /** None of the example codes is a listed core or regional code. */
  lemma NotCoreOrGeo(c: string)
    requires c !in CoreCodes && c !in GeoCodes
    ensures !Listed(c, CoreCodes) && !Listed(c, GeoCodes)
  {
    ListedIsMembership(c, CoreCodes);
    ListedIsMembership(c, GeoCodes);
  }

  // A test of the cascade is ruled out for a code when each of its
  // patterns has a character that the code lacks and the code is not on
  // the test's list.

  lemma NotAccountOpening(c: string, a: nat, b: nat, d: nat)
    requires a < 8 && "10K_OPEN"[a] !in c
    requires b < 4 && "UTSD"[b] !in c
    requires d < 7 && "TETDANS"[d] !in c
    requires c !in SecuritiesAccountCodes
    ensures !IsAccountOpeningCode(c)
  {
    MissingCharNoMatch(c, "10K_OPEN", a);
    MissingCharNoMatch(c, "UTSD", b);
    MissingCharNoMatch(c, "TETDANS", d);
    ListedIsMembership(c, SecuritiesAccountCodes);
  }

  lemma NotFinancial(c: string, a: nat, b: nat, d: nat, e: nat)
    requires a < 11 && "TRANSACTION"[a] !in c
    requires b < 6 && "CHARGE"[b] !in c
    requires d < 3 && "CCA"[d] !in c
    requires e < 9 && "AFFILIATE"[e] !in c
    requires c !in FinancialCodes
    ensures !IsFinancialCode(c)
  {
    MissingCharNoMatch(c, "TRANSACTION", a);
    MissingCharNoMatch(c, "CHARGE", b);
    MissingCharNoMatch(c, "CCA", d);
    MissingCharNoMatch(c, "AFFILIATE", e);
    ListedIsMembership(c, FinancialCodes);
  }

  lemma NotInsurance(c: string, a: nat, b: nat)
    requires a < 5 && "INSUR"[a] !in c
    requires b < 7 && "DAATGAL"[b] !in c
    ensures !IsInsuranceCode(c)
  {
    MissingCharNoMatch(c, "INSUR", a);
    MissingCharNoMatch(c, "DAATGAL", b);
  }

  lemma NotMerchant(c: string, a: nat, b: nat, d: nat, e: nat, f: nat)
    requires a < 5 && "MARAL"[a] !in c
    requires b < 5 && "MARAN"[b] !in c
    requires d < 7 && "KRYPTOS"[d] !in c
    requires e < 3 && "PNP"[e] !in c
    requires f < 5 && "LOTTO"[f] !in c
    requires c != "10K_GAME"
    ensures !IsMerchantCode(c)
  {
    MissingCharNoMatch(c, "MARAL", a);
    MissingCharNoMatch(c, "MARAN", b);
    MissingCharNoMatch(c, "KRYPTOS", d);
    MissingCharNoMatch(c, "PNP", e);
    MissingCharNoMatch(c, "LOTTO", f);
  }

  lemma NotSocialCampaign(c: string, a: nat, b: nat, d: nat, e: nat, f: nat)
    requires a < 6 && "SOCIAL"[a] !in c
    requires b < 8 && "FACEBOOK"[b] !in c
    requires d < 6 && "SELFIE"[d] !in c
    requires e < 5 && "MEDEE"[e] !in c
    requires f < 4 && "TUUH"[f] !in c
    ensures !IsSocialCampaignCode(c)
  {
    MissingCharNoMatch(c, "SOCIAL", a);
    MissingCharNoMatch(c, "FACEBOOK", b);
    MissingCharNoMatch(c, "SELFIE", d);
    MissingCharNoMatch(c, "MEDEE", e);
    MissingCharNoMatch(c, "TUUH", f);
  }

  /** A code fires a substring test when the substring occurs at a known
      offset. */
  lemma OccursAtOffset(c: string, p: string, k: nat)
    requires k + |p| <= |c|
    requires forall i :: 0 <= i < |p| ==> c[k + i] == p[i]
    ensures Contains(c, p)
  {
    assert c[k..k + |p|] == p;
    OccurrenceContained(c, p, k);
  }

  // ---------------------------------------------------------------------
  // "10K_OPEN_TRANSACTION": Account Opening, although it contains TRANSACTION

  lemma OpenTransactionIsNormal()
    ensures Normalize("10K_OPEN_TRANSACTION") == "10K_OPEN_TRANSACTION"
  {
    assert IsUpperFrom("10K_OPEN_TRANSACTION", 10);
    NormalCodeIsFixed("10K_OPEN_TRANSACTION");
  }

  lemma OpenTransactionNotListed()
    ensures !Listed("10K_OPEN_TRANSACTION", CoreCodes) && !Listed("10K_OPEN_TRANSACTION", GeoCodes)
  {
    NotCoreOrGeo("10K_OPEN_TRANSACTION");
  }

  lemma OpenTransactionOpens()
    ensures StartsWith("10K_OPEN_TRANSACTION", "10K_OPEN")
  {
    PrefixStartsWith("10K_OPEN_TRANSACTION", "10K_OPEN");
  }

  lemma OpenTransactionIsTransaction()
    ensures Contains("10K_OPEN_TRANSACTION", "TRANSACTION")
  {
    OccursAtOffset("10K_OPEN_TRANSACTION", "TRANSACTION", 9);
  }

  /** The Account Opening rule is tested before the Financial Transactions
      rule, which the code also fires. */
  lemma OpenTransactionOpensAccount()
    ensures IsFinancialCode("10K_OPEN_TRANSACTION")
    ensures MapCodeGroup(Some("10K_OPEN_TRANSACTION")) == AccountOpening
  {
    OpenTransactionIsNormal();
    OpenTransactionNotListed();
    OpenTransactionOpens();
    OpenTransactionIsTransaction();
  }

  // ---------------------------------------------------------------------
  // "ARD_SEC": Account Opening, although it starts with "ARD_"

  lemma ArdSecIsNormal()
    ensures Normalize("ARD_SEC") == "ARD_SEC"
  {
    NormalCodeIsFixed("ARD_SEC");
  }

  lemma ArdSecNotListed()
    ensures !Listed("ARD_SEC", CoreCodes) && !Listed("ARD_SEC", GeoCodes)
  {
    NotCoreOrGeo("ARD_SEC");
  }

  lemma ArdSecIsSecuritiesAccount()
    ensures Listed("ARD_SEC", SecuritiesAccountCodes)
  {
    ListedIsMembership("ARD_SEC", SecuritiesAccountCodes);
  }

  lemma ArdSecHasArdPrefix()
    ensures StartsWith("ARD_SEC", "ARD_")
  {
    PrefixStartsWith("ARD_SEC", "ARD_");
  }

  /** "ARD_SEC" is on the securities-account list of the Account Opening
      rule, which is tested before the "ARD_" prefix of the Investments &
      Securities rule. */
  lemma ArdSecOpensAccount()
    ensures IsInvestmentCode("ARD_SEC")
    ensures MapCodeGroup(Some("ARD_SEC")) == AccountOpening
  {
    ArdSecIsNormal();
    ArdSecNotListed();
    ArdSecIsSecuritiesAccount();
    ArdSecHasArdPrefix();
    assert IsAccountOpeningCode("ARD_SEC");
    assert ClassifyNormalized(Normalize("ARD_SEC")) == AccountOpening;
  }

  // ---------------------------------------------------------------------
  // The lottery codes: Merchant & Lifestyle

  lemma ArdLottoIsNormal()
    ensures Normalize("ARD_LOTTO") == "ARD_LOTTO"
  {
    NormalCodeIsFixed("ARD_LOTTO");
  }

  lemma ArdLottoNotListed()
    ensures !Listed("ARD_LOTTO", CoreCodes) && !Listed("ARD_LOTTO", GeoCodes)
  {
    NotCoreOrGeo("ARD_LOTTO");
  }

  lemma ArdLottoNotAccountOpening()
    ensures !IsAccountOpeningCode("ARD_LOTTO")
  {
    NotAccountOpening("ARD_LOTTO", 0, 0, 1);
  }

  lemma ArdLottoNotFinancial()
    ensures !IsFinancialCode("ARD_LOTTO")
  {
    NotFinancial("ARD_LOTTO", 3, 0, 0, 1);
  }

  lemma ArdLottoNotInsurance()
    ensures !IsInsuranceCode("ARD_LOTTO")
  {
    NotInsurance("ARD_LOTTO", 0, 4);
  }

  lemma ArdLottoHasLotto()
    ensures Contains("ARD_LOTTO", "LOTTO")
  {
    OccursAtOffset("ARD_LOTTO", "LOTTO", 4);
  }

  lemma ArdLottoIsMerchant()
    ensures MapCodeGroup(Some("ARD_LOTTO")) == MerchantLifestyle
  {
    ArdLottoIsNormal();
    ArdLottoNotListed();
    ArdLottoNotAccountOpening();
    ArdLottoNotFinancial();
    ArdLottoNotInsurance();
    ArdLottoHasLotto();
  }

  lemma GetLottoIsNormal()
    ensures Normalize("10K_GET_LOTTO") == "10K_GET_LOTTO"
  {
    NormalCodeIsFixed("10K_GET_LOTTO");
  }

  lemma GetLottoNotListed()
    ensures !Listed("10K_GET_LOTTO", CoreCodes) && !Listed("10K_GET_LOTTO", GeoCodes)
  {
    NotCoreOrGeo("10K_GET_LOTTO");
  }

  lemma GetLottoNotAccountOpening()
    ensures !IsAccountOpeningCode("10K_GET_LOTTO")
  {
    NotAccountOpening("10K_GET_LOTTO", 5, 0, 4);
  }

  lemma GetLottoNotFinancial()
    ensures !IsFinancialCode("10K_GET_LOTTO")
  {
    NotFinancial("10K_GET_LOTTO", 1, 0, 0, 0);
  }

  lemma GetLottoNotInsurance()
    ensures !IsInsuranceCode("10K_GET_LOTTO")
  {
    NotInsurance("10K_GET_LOTTO", 0, 0);
  }

  lemma GetLottoHasLotto()
    ensures Contains("10K_GET_LOTTO", "LOTTO")
  {
    OccursAtOffset("10K_GET_LOTTO", "LOTTO", 8);
  }

  lemma GetLottoIsMerchant()
    ensures MapCodeGroup(Some("10K_GET_LOTTO")) == MerchantLifestyle
  {
    GetLottoIsNormal();
    GetLottoNotListed();
    GetLottoNotAccountOpening();
    GetLottoNotFinancial();
    GetLottoNotInsurance();
    GetLottoHasLotto();
  }

  /** The two codes the dataset builder assigns to lottery rows are both
      Merchant & Lifestyle, so reclassification moves a row into that
      category whatever its original code was. */
  lemma LotteryCodesAreMerchant()
    ensures MapCodeGroup(Some("ARD_LOTTO")) == MerchantLifestyle
    ensures MapCodeGroup(Some("10K_GET_LOTTO")) == MerchantLifestyle
  {
    ArdLottoIsMerchant();
    GetLottoIsMerchant();
  }

  // ---------------------------------------------------------------------
  // "INF1072X": Investments & Securities, before the INF-digits rule

  lemma Inf1072IsNormal()
    ensures Normalize("INF1072X") == "INF1072X"
  {
    NormalCodeIsFixed("INF1072X");
  }

  lemma Inf1072NotListed()
    ensures !Listed("INF1072X", CoreCodes) && !Listed("INF1072X", GeoCodes)
  {
    NotCoreOrGeo("INF1072X");
  }

  lemma Inf1072NotAccountOpening()
    ensures !IsAccountOpeningCode("INF1072X")
  {
    NotAccountOpening("INF1072X", 2, 0, 0);
  }

  lemma Inf1072NotFinancial()
    ensures !IsFinancialCode("INF1072X")
  {
    NotFinancial("INF1072X", 0, 0, 0, 0);
  }

  lemma Inf1072NotInsurance()
    ensures !IsInsuranceCode("INF1072X")
  {
    NotInsurance("INF1072X", 2, 0);
  }

  lemma Inf1072NotMerchant()
    ensures !IsMerchantCode("INF1072X")
  {
    NotMerchant("INF1072X", 0, 0, 0, 0, 0);
  }

  lemma Inf1072NotSocialCampaign()
    ensures !IsSocialCampaignCode("INF1072X")
  {
    NotSocialCampaign("INF1072X", 0, 1, 0, 0, 0);
  }

  lemma Inf1072HasMarker()
    ensures Contains("INF1072X", "1072")
    ensures StartsWith("INF1072X", "INF")
  {
    OccursAtOffset("INF1072X", "1072", 3);
    PrefixStartsWith("INF1072X", "INF");
  }

  lemma Inf1072Classified()
    ensures ClassifyNormalized("INF1072X") == InvestmentsSecurities
  {
    Inf1072NotListed();
    Inf1072NotAccountOpening();
    Inf1072NotFinancial();
    Inf1072NotInsurance();
    Inf1072NotMerchant();
    Inf1072NotSocialCampaign();
    Inf1072HasMarker();
  }

  lemma Inf1072IsCoded()
    ensures IsCodedCampaign("INF1072X")
  {
    Inf1072HasMarker();
  }

  lemma Inf1072Group()
    ensures MapCodeGroup(Some("INF1072X")) == InvestmentsSecurities
  {
    Inf1072IsNormal();
    Inf1072Classified();
    GroupOfNormalCode("INF1072X", InvestmentsSecurities);
  }

  /** "INF1072X" also starts with "INF" followed by digits, but the "1072"
      marker of the Investments & Securities rule is tested first. */
  lemma Inf1072IsInvestment()
    ensures IsCodedCampaign("INF1072X")
    ensures MapCodeGroup(Some("INF1072X")) == InvestmentsSecurities
  {
    Inf1072IsCoded();
    Inf1072Group();
  }

  // ---------------------------------------------------------------------
  // The "None" placeholder: Other

  lemma NoneUpper()
    ensures Upper("None") == "NONE"
  {
    UpperIs("None", "NONE");
  }

  lemma NoneNormalForm()
    ensures Normalize("None") == "NONE"
  {
    NormalizeTrimmed("None");
    NoneUpper();
  }

  lemma NoneEarlyTests()
    ensures !Listed("NONE", CoreCodes) && !Listed("NONE", GeoCodes)
    ensures !IsAccountOpeningCode("NONE") && !IsFinancialCode("NONE") && !IsInsuranceCode("NONE")
  {
  }

  lemma NoneLateTests()
    ensures !IsMerchantCode("NONE") && !IsSocialCampaignCode("NONE") && !IsInvestmentCode("NONE")
    ensures !StartsWithAny("NONE", CampaignPrefixes, 0) && !IsCodedCampaign("NONE")
  {
  }

  /** The "None" placeholder that the dataset builder writes for a missing
      code is classified Other, while a code that is still missing would be
      a Financial Transaction. */
  lemma NonePlaceholderIsOther()
    ensures MapCodeGroup(Some("None")) == Other
    ensures MapCodeGroup(None) == FinancialTransactions
  {
    NoneNormalForm();
    NoneEarlyTests();
    NoneLateTests();
    assert ClassifyNormalized("NONE") == Other;
  }
}
