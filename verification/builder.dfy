/** `build_code_grouped_dataset`: from the raw export to the cleaned,
    categorised ledger.

    A raw row is dropped when it is a test row (description "Тест" or code
    `LUNAR_RDXQR`) or when its date does not parse. A kept row gets the
    placeholder code "None" when its code is missing, 0 points when its
    amount is not numeric, a normalised description, and possibly a new code
    when the description names a lottery campaign; its category is then the
    classifier's verdict on the final code. */
module DatasetBuilder {
  import opened Wrappers
  import opened Strings
  import opened CodeClassifier
  import opened ClassifierExamples
  import opened Grouping
  import opened Ledger

  /** A row of the raw export; a `None` field is a missing (NaN) cell, and a
      `None` date is one that did not parse as `%d-%b-%y`. */
  datatype RawRow = RawRow(cust: string, date: Option<Date>, amount: Option<int>,
                           code: Option<string>, desc: Option<string>, journal: Option<int>)

  /** "Тест", the description of test transactions. */
  const TestDescription: string := "\U{422}\U{435}\U{441}\U{442}"
  const TestCode: string := "LUNAR_RDXQR"
  /** The placeholder written for a missing code. */
  const MissingCode: string := "None"

  /** "Крипто Вик" and "Кривто Вик", the two spellings of the crypto-week
      campaign that are rewritten to "Crypto Week". */
  const KriptoVik: string := "\U{41a}\U{440}\U{438}\U{43f}\U{442}\U{43e} \U{412}\U{438}\U{43a}"
  const KrivtoVik: string := "\U{41a}\U{440}\U{438}\U{432}\U{442}\U{43e} \U{412}\U{438}\U{43a}"
  const CryptoWeek: string := "Crypto Week"
  /** "лотто", the Cyrillic lottery keyword. */
  const LottoCyrillic: string := "\U{43b}\U{43e}\U{442}\U{442}\U{43e}"

  const CryptoWeekCode: string := "ARD_LOTTO"
  const LottoCode: string := "10K_GET_LOTTO"

  /** The test rows removed first. */
  predicate IsSentinel(r: RawRow) {
    Strip(r.desc.GetOr("")) == TestDescription || r.code.GetOr("") == TestCode
  }

  /** A row is kept when it is not a test row and its date parsed. */
  predicate Kept(r: RawRow) {
    !IsSentinel(r) && r.date.Some?
  }

  /** A description the cleaning leaves as it is: no surrounding white
      space, no full stop, no upper-case letter and no Cyrillic spelling of
      the crypto-week campaign. */
  predicate IsCleanDescription(x: string) {
    Strip(x) == x && '.' !in x && Lower(x) == x && !Contains(x, KriptoVik) && !Contains(x, KrivtoVik)
  }

  /** The cleaned `TXN_DESC`: missing becomes empty, white space is stripped,
      the two Cyrillic spellings of the crypto-week campaign become
      "Crypto Week", full stops are removed and the text is lower-cased.
      The result has no full stop and no upper-case letter, a missing
      description becomes the empty one, and a description that is already
      clean comes out unchanged. */
  function NormalizeDescription(desc: Option<string>): (d: string)
    ensures '.' !in d
    ensures Lower(d) == d
    ensures desc.None? ==> d == ""
    ensures IsCleanDescription(desc.GetOr("")) ==> d == desc.GetOr("")
  {
    var s0 := Strip(desc.GetOr(""));
    var s1 := Replace(s0, KriptoVik, CryptoWeek);
    var s2 := Replace(s1, KrivtoVik, CryptoWeek);
    var s3 := RemoveAll(s2, '.');
    LowerIdempotent(s3);
    LowerKeepsAbsent(s3, '.');
    CleanDescriptionKept(desc.GetOr(""));
    Lower(s3)
  }

  /** Each cleaning step leaves a clean description as it is. */
  lemma CleanDescriptionKept(x: string)
    ensures var s1 := Replace(Strip(x), KriptoVik, CryptoWeek);
            var s2 := Replace(s1, KrivtoVik, CryptoWeek);
            IsCleanDescription(x) ==> Lower(RemoveAll(s2, '.')) == x
  {
    if IsCleanDescription(x) {
      ReplaceAbsent(x, KriptoVik, CryptoWeek);
      ReplaceAbsent(x, KrivtoVik, CryptoWeek);
      RemoveAllAbsent(x, '.');
    }
  }

  /** Surrounding white space never matters: the description is stripped
      before anything else. */
  lemma DescriptionIgnoresSurroundingSpace(x: string)
    ensures NormalizeDescription(Some(x)) == NormalizeDescription(Some(Strip(x)))
  {
    StripIdempotent(x);
  }

  /** Without a Cyrillic spelling of the campaign, the cleaning keeps every
      character of the stripped description except the full stops, in
      order, each lower-cased; a description without full stops is just
      lower-cased. */
  lemma DescriptionKeepsText(desc: Option<string>)
    requires !Contains(Strip(desc.GetOr("")), KriptoVik) && !Contains(Strip(desc.GetOr("")), KrivtoVik)
    ensures NormalizeDescription(desc) == Lower(RemoveAll(Strip(desc.GetOr("")), '.'))
    ensures '.' !in Strip(desc.GetOr("")) ==> NormalizeDescription(desc) == Lower(Strip(desc.GetOr("")))
  {
    var s0 := Strip(desc.GetOr(""));
    ReplaceAbsent(s0, KriptoVik, CryptoWeek);
    ReplaceAbsent(s0, KrivtoVik, CryptoWeek);
    if '.' !in s0 {
      RemoveAllAbsent(s0, '.');
    }
  }

  /** Neither Cyrillic spelling of the crypto-week campaign survives the
      cleaning, not even one that the removal of full stops puts together. */
  lemma NoCyrillicSpellingLeft(desc: Option<string>)
    ensures !Contains(NormalizeDescription(desc), KriptoVik)
    ensures !Contains(NormalizeDescription(desc), KrivtoVik)
  {
    var d := NormalizeDescription(desc);
    forall k | 0 <= k < |d| ensures d[k] != KriptoVik[0] {
      assert Lower(d)[k] == LowerChar(d[k]);
    }
    MissingCharNoMatch(d, KriptoVik, 0);
    MissingCharNoMatch(d, KrivtoVik, 0);
  }

  /** The crypto-week marker, searched without regard to case. */
  predicate HasCryptoWeek(d: string) {
    ContainsIgnoreCase(d, "crypto week")
  }

  /** The lottery keywords `lotto|6/42|лотто`, searched without regard to case. */
  predicate HasLottoKeyword(d: string) {
    ContainsIgnoreCase(d, "lotto") || ContainsIgnoreCase(d, "6/42") || ContainsIgnoreCase(d, LottoCyrillic)
  }

  /** The promotional reclassification of a code from its row's
      description, as two masked writes: first `ARD_LOTTO` on the rows with
      the crypto-week marker, then `10K_GET_LOTTO` on the rows with a
      lottery keyword and without that marker. The crypto-week marker wins
      over a lottery keyword, and a description with neither keeps its
      code. */
  function Reclassify(code: string, d: string): (c: string)
    ensures HasCryptoWeek(d) ==> c == CryptoWeekCode
    ensures !HasCryptoWeek(d) && HasLottoKeyword(d) ==> c == LottoCode
    ensures !HasCryptoWeek(d) && !HasLottoKeyword(d) ==> c == code
  {
    var afterCrypto := if HasCryptoWeek(d) then CryptoWeekCode else code;
    if HasLottoKeyword(d) && !HasCryptoWeek(d) then LottoCode else afterCrypto
  }

  /** Running the two writes again changes nothing: the reclassification is
      idempotent, and its result is the original code or a lottery code. */
  lemma ReclassifyIdempotent(code: string, d: string)
    ensures Reclassify(Reclassify(code, d), d) == Reclassify(code, d)
    ensures Reclassify(code, d) in {code, CryptoWeekCode, LottoCode}
  {
  }

  /** One raw row through the cleaning steps. */
  function CleanRow(r: RawRow): (t: Option<Txn>)
    ensures t.None? <==> IsSentinel(r) || r.date.None?
    ensures t.Some? ==> t.value.cust == r.cust && t.value.date == r.date.value
                        && t.value.amount == r.amount.GetOr(0) && t.value.journal == r.journal
    ensures t.Some? ==> t.value.desc == NormalizeDescription(r.desc)
    ensures t.Some? ==> t.value.code == Reclassify(r.code.GetOr(MissingCode), t.value.desc)
    ensures t.Some? ==> t.value.group == MapCodeGroup(Some(t.value.code))
  {
    if IsSentinel(r) || r.date.None? then None
    else
      var d := NormalizeDescription(r.desc);
      var code := Reclassify(r.code.GetOr(MissingCode), d);
      Some(Txn(r.cust, r.date.value, r.amount.GetOr(0), code, d, r.journal, MapCodeGroup(Some(code))))
  }

  function CleanStep(): RawRow -> Option<Txn> {
    CleanRow
  }

  /** The cleaned dataset: the kept rows, cleaned, in their original order
      (`BuildDatasetConcat` and `BuildDatasetSingle` pin the order and the
      multiplicity down). */
  function BuildDataset(raws: seq<RawRow>): (out: seq<Txn>)
    ensures |out| == Count(raws, Kept)
    ensures forall i :: 0 <= i < |out| ==> exists j :: 0 <= j < |raws| && CleanRow(raws[j]) == Some(out[i])
    ensures forall j :: 0 <= j < |raws| && Kept(raws[j]) ==> CleanRow(raws[j]).value in out
  {
    var out := FilterMap(raws, CleanStep());
    FilterMapLength(raws, CleanStep(), Kept);
    out
  }

  /** Cleaning works row by row: the cleaning of two exports one after the
      other is the two cleanings one after the other. */
  lemma BuildDatasetConcat(a: seq<RawRow>, b: seq<RawRow>)
    ensures BuildDataset(a + b) == BuildDataset(a) + BuildDataset(b)
  {
    FilterMapConcat(a, b, CleanStep());
  }

  /** A single raw row yields its cleaned row when it is kept and nothing
      otherwise. */
  lemma BuildDatasetSingle(r: RawRow)
    ensures BuildDataset([r]) == if Kept(r) then [CleanRow(r).value] else []
  {
    assert [r][1..] == [];
  }

  /** The builder never leaves a code missing, so the classifier's branch for
      a missing code is never taken: a row whose code was missing and whose
      description names no lottery campaign is classified Other, not
      Financial Transactions. */
  lemma MissingCodeIsOther(r: RawRow)
    requires Kept(r) && r.code.None?
    requires !HasCryptoWeek(NormalizeDescription(r.desc)) && !HasLottoKeyword(NormalizeDescription(r.desc))
    ensures CleanRow(r).value.code == MissingCode
    ensures CleanRow(r).value.group == Other
  {
    NonePlaceholderIsOther();
  }

  /** Every row that the promotional reclassification touches ends up in
      the Merchant & Lifestyle category, whatever its original code was. */
  lemma LotteryRowsAreMerchant(r: RawRow)
    requires Kept(r)
    requires HasCryptoWeek(NormalizeDescription(r.desc)) || HasLottoKeyword(NormalizeDescription(r.desc))
    ensures CleanRow(r).value.code in {CryptoWeekCode, LottoCode}
    ensures CleanRow(r).value.group == MerchantLifestyle
  {
    LotteryCodesAreMerchant();
  }

  lemma CryptoWeekHasNoDot()
    ensures '.' !in CryptoWeek
  {
  }

  lemma CryptoWeekLowersTo()
    ensures Lower(CryptoWeek) == "crypto week"
  {
    LowerIs(CryptoWeek, "crypto week");
  }

  lemma LowerCryptoWeekFixed()
    ensures Lower("crypto week") == "crypto week"
  {
    LowerIs("crypto week", "crypto week");
  }

  /** Whatever the spelling of the campaign, the cleaned description of a
      raw description holding "Крипто Вик" or "Кривто Вик" carries the
      crypto-week marker: the rewriting survives the removal of full stops
      and lower-casing. */
  lemma CyrillicCryptoWeekMarker(desc: Option<string>)
    requires Contains(Strip(desc.GetOr("")), KriptoVik) || Contains(Strip(desc.GetOr("")), KrivtoVik)
    ensures HasCryptoWeek(NormalizeDescription(desc))
  {
    CryptoWeekHasNoDot();
    CryptoWeekLowersTo();
    LowerCryptoWeekFixed();
    var s0 := Strip(desc.GetOr(""));
    var s1 := Replace(s0, KriptoVik, CryptoWeek);
    var s2 := Replace(s1, KrivtoVik, CryptoWeek);
    var s3 := RemoveAll(s2, '.');
    if Contains(s0, KriptoVik) {
      ReplaceIntroduces(s0, KriptoVik, CryptoWeek);
    } else {
      ReplaceAbsent(s0, KriptoVik, CryptoWeek);
    }
    assert Contains(s1, CryptoWeek) || Contains(s1, KrivtoVik);
    if Contains(s1, KrivtoVik) {
      ReplaceIntroduces(s1, KrivtoVik, CryptoWeek);
    } else {
      ReplaceAbsent(s1, KrivtoVik, CryptoWeek);
    }
    RemoveAllKeepsContains(s2, CryptoWeek, '.');
    LowerKeepsContains(s3, CryptoWeek);
    LowerIdempotent(s3);
  }

  /** A raw row naming the crypto-week campaign in Cyrillic is kept as an
      `ARD_LOTTO` row of the Merchant & Lifestyle category. */
  lemma CyrillicCryptoWeekIsArdLotto(r: RawRow)
    requires Kept(r)
    requires Contains(Strip(r.desc.GetOr("")), KriptoVik) || Contains(Strip(r.desc.GetOr("")), KrivtoVik)
    ensures CleanRow(r).value.code == CryptoWeekCode
    ensures CleanRow(r).value.group == MerchantLifestyle
  {
    CyrillicCryptoWeekMarker(r.desc);
    LotteryCodesAreMerchant();
  }

  /** A raw row whose description, without its full stops and lower-cased,
      names a lottery keyword and not the crypto-week campaign becomes a
      `10K_GET_LOTTO` row of the Merchant & Lifestyle category. */
  lemma LottoDescriptionGetsLottoCode(r: RawRow)
    requires Kept(r)
    requires !Contains(Strip(r.desc.GetOr("")), KriptoVik) && !Contains(Strip(r.desc.GetOr("")), KrivtoVik)
    requires HasLottoKeyword(Lower(RemoveAll(Strip(r.desc.GetOr("")), '.')))
    requires !HasCryptoWeek(Lower(RemoveAll(Strip(r.desc.GetOr("")), '.')))
    ensures CleanRow(r).value.code == LottoCode
    ensures CleanRow(r).value.group == MerchantLifestyle
  {
    DescriptionKeepsText(r.desc);
    LotteryCodesAreMerchant();
  }

  /** "LOTTO 6/42." is cleaned to "lotto 6/42": the full stop goes and the
      letters are lower-cased. */
  lemma LottoTextCleaned()
    ensures NormalizeDescription(Some("LOTTO 6/42.")) == "lotto 6/42"
  {
    LottoTextPlain();
    LottoTextUndotted();
    LowerLottoText();
    DescriptionKeepsText(Some("LOTTO 6/42."));
  }

  lemma LottoTextPlain()
    ensures Strip("LOTTO 6/42.") == "LOTTO 6/42."
    ensures !Contains("LOTTO 6/42.", KriptoVik) && !Contains("LOTTO 6/42.", KrivtoVik)
  {
    MissingCharNoMatch("LOTTO 6/42.", KriptoVik, 0);
    MissingCharNoMatch("LOTTO 6/42.", KrivtoVik, 0);
  }

  lemma LottoTextUndotted()
    ensures RemoveAll("LOTTO 6/42.", '.') == "LOTTO 6/42"
  {
    var y := "LOTTO 6/42";
    assert "LOTTO 6/42." == y + ".";
    RemoveAllConcat(y, ".", '.');
    RemoveAllAbsent(y, '.');
    assert RemoveAll(".", '.') == [];
  }

  lemma LowerLottoText()
    ensures Lower("LOTTO 6/42") == "lotto 6/42"
  {
    LowerIs("LOTTO 6/42", "lotto 6/42");
  }

  lemma LowerLottoFixed(d: string)
    requires d == "lotto 6/42"
    ensures Lower(d) == d
  {
    LowerIs(d, d);
  }

  /** "lotto 6/42" names the lottery and not the crypto-week campaign. */
  lemma LottoTextIsLotto(d: string)
    requires d == "lotto 6/42"
    ensures HasLottoKeyword(d) && !HasCryptoWeek(d)
  {
    LowerLottoFixed(d);
    LottoPrefixIsLotto(d);
    NoCInLotto(d);
    NoCryptoWeekWithoutC(d);
  }

  lemma NoCInLotto(d: string)
    requires d == "lotto 6/42"
    ensures 'c' !in d
  {
    forall k | 0 <= k < |d| ensures d[k] != 'c' {
      assert d[k] in {'l', 'o', 't', ' ', '6', '/', '4', '2'};
    }
  }

  /** A lower-case text that starts with "lotto" names the lottery. */
  lemma LottoPrefixIsLotto(d: string)
    requires Lower(d) == d && |d| >= 5 && d[..5] == "lotto"
    ensures HasLottoKeyword(d)
  {
    LowerIs("lotto", "lotto");
    PrefixStartsWith(d, "lotto");
    StartsWithContains(d, "lotto");
  }

  /** A lower-case text without the letter c cannot name the crypto-week
      campaign. */
  lemma NoCryptoWeekWithoutC(d: string)
    requires Lower(d) == d && 'c' !in d
    ensures !HasCryptoWeek(d)
  {
    LowerCryptoWeekFixed();
    MissingCharNoMatch(d, "crypto week", 0);
  }

  /** A kept row described "LOTTO 6/42." becomes a `10K_GET_LOTTO` row,
      whatever its code was. */
  lemma LottoExample(r: RawRow)
    requires Kept(r) && r.desc == Some("LOTTO 6/42.")
    ensures CleanRow(r).value.desc == "lotto 6/42"
    ensures CleanRow(r).value.code == LottoCode
  {
    LottoTextCleaned();
    LottoTextIsLotto(CleanRow(r).value.desc);
  }
}
