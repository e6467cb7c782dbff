/**
 * The Islamic-finance compliance screen: three financial ratios, a business-activity
 * exclusion screen, and their aggregation into one compliance verdict with reasons.
 *
 * Numbers are exact reals; `Math.round(r * 100) / 100` is `Round2`.
 */
module IslamicCompliance {
  import opened Wrappers
  import opened JsMath
  import opened JsText

  /** Balance-sheet figures; an absent field was not reported (not the same as zero). */
  datatype FinancialData = FinancialData(
    longTermDebt: Option<real>,
    totalAssets: Option<real>,
    goodwillAndIntangibles: Option<real>)

  /** Company profile and market figures. */
  datatype InfoData = InfoData(
    marketCap: Option<real>,
    totalCash: Option<real>,
    shortTermInvestments: Option<real>,
    longTermInvestments: Option<real>,
    netReceivables: Option<real>,
    sector: Option<string>,
    industry: Option<string>,
    longName: Option<string>,
    longBusinessSummary: Option<string>)

  datatype ComplianceResult = ComplianceResult(
    debtRatio: Option<real>,
    liquidityRatio: real,
    receivablesRatio: real,
    isDebtCompliant: bool,
    isLiquidityCompliant: bool,
    isReceivablesCompliant: bool,
    isBusinessCompliant: bool,
    nonCompliantReasons: seq<string>,
    isFullyCompliant: bool)

  // ---------------------------------------------------------------------------
  // Reference lists
  // ---------------------------------------------------------------------------

  const ExclusionKeywords: seq<string> := [
    "alcohol", "gambling", "casino", "betting", "tobacco", "cigarette", "pork",
    "swine", "weapons", "firearm", "defense", "adult", "porn", "sex", "bank",
    "insurance", "asset management", "interest", "mortgage", "loan", "credit"
  ]

  const ExclusionSectors: seq<string> := [
    "Banks", "Insurance", "Diversified Financials", "Consumer Finance", "Tobacco",
    "Casinos & Gaming", "Aerospace & Defense", "Beverages", "Food Products"
  ]

  const ExclusionIndustries: seq<string> := [
    "Tobacco", "Casinos & Gaming", "Aerospace & Defense", "Brewers", "Distillers & Vintners",
    "Packaged Foods & Meats", "Pornography", "Adult Entertainment", "Banks", "Insurance"
  ]


  // ---------------------------------------------------------------------------
  // Business-activity screen
  // ---------------------------------------------------------------------------

  /** `containsExclusionKeyword`: an absent or empty text never matches; otherwise the
      lower-cased text is searched for each keyword in turn. */
  function ContainsExclusionKeyword(text: Option<string>): (r: bool)
    ensures text.None? ==> !r
    ensures text == Some("") ==> !r
  {
    if text.None? || text.value == "" then false
    else
      var lower := ToLower(text.value);
      exists j :: 0 <= j < |ExclusionKeywords| && Includes(lower, ExclusionKeywords[j])
  }

  /** A text is flagged exactly when it is present and, once lower-cased, holds some
      keyword as a substring. The empty-text guard changes nothing, as no keyword is empty. */
  lemma KeywordMatchIff(text: Option<string>)
    ensures ContainsExclusionKeyword(text) <==>
      text.Some? && exists k :: k in ExclusionKeywords && exists i :: OccursAt(ToLower(text.value), k, i)
  {
    if text.Some? {
      var lower := ToLower(text.value);
      forall k | k in ExclusionKeywords
        ensures Includes(lower, k) <==> exists i :: OccursAt(lower, k, i)
      {
        IncludesIffOccurs(lower, k);
      }
      if text.value == "" {
        assert forall k :: k in ExclusionKeywords ==> |k| > 0;
      }
    }
  }

  /** The screen ignores the case of ASCII letters. */
  lemma KeywordMatchIgnoresCase(s: string)
    ensures ContainsExclusionKeyword(Some(s)) == ContainsExclusionKeyword(Some(ToLower(s)))
  {
    ToLowerIdempotent(s);
  }

  const NameKeywordMessage := "Company name contains exclusion keyword"
  const SectorKeywordMessage := "Sector contains exclusion keyword"
  const IndustryKeywordMessage := "Industry contains exclusion keyword"
  const SummaryKeywordMessage := "Business summary contains exclusion keyword"

  function SectorExcludedMessage(sector: string): string {
    "Sector \"" + sector + "\" is excluded"
  }

  function IndustryExcludedMessage(industry: string): string {
    "Industry \"" + industry + "\" is excluded"
  }

  /** `field && list.includes(field)`: exact membership of a field that may be absent or
      empty (both are falsy, and neither is listed). */
  predicate IsListed(field: Option<string>, list: seq<string>) {
    field.Some? && field.value != "" && field.value in list
  }

  /** One test of the business screen: whether it fires, and the reason it reports. */
  datatype Check = Check(fires: bool, message: string)

  /** The six tests of the business screen, in the order their reasons are reported. */
  function ScreenChecks(info: InfoData): (cs: seq<Check>)
    ensures |cs| == 6
  {
    [ Check(ContainsExclusionKeyword(info.longName), NameKeywordMessage),
      Check(ContainsExclusionKeyword(info.sector), SectorKeywordMessage),
      Check(ContainsExclusionKeyword(info.industry), IndustryKeywordMessage),
      Check(ContainsExclusionKeyword(info.longBusinessSummary), SummaryKeywordMessage),
      Check(IsListed(info.sector, ExclusionSectors), SectorExcludedMessage(info.sector.GetOr(""))),
      Check(IsListed(info.industry, ExclusionIndustries), IndustryExcludedMessage(info.industry.GetOr(""))) ]
  }

  /** A text field that is absent or empty. */
  predicate Blank(text: Option<string>) {
    text.None? || text.value == ""
  }

  /** What `if (cond) reasons.push(...messages)` adds to the reasons. */
  function PushedIf(cond: bool, messages: seq<string>): (r: seq<string>)
    ensures cond ==> r == messages
    ensures !cond ==> r == []
  {
    if cond then messages else []
  }

  /** A step that started from the reasons `done` ends with `done` followed by what it adds. */
  lemma PushStep(after: seq<string>, done: seq<string>, cond: bool, messages: seq<string>)
    requires after == if cond then done + messages else done
    ensures after == done + PushedIf(cond, messages)
  {
  }

  /** The messages of the six checks that fire, in check order. */
  function ReportAll(cs: seq<Check>): (r: seq<string>)
    requires |cs| == 6
  {
    PushedIf(cs[0].fires, [cs[0].message]) + PushedIf(cs[1].fires, [cs[1].message]) +
    PushedIf(cs[2].fires, [cs[2].message]) + PushedIf(cs[3].fires, [cs[3].message]) +
    PushedIf(cs[4].fires, [cs[4].message]) + PushedIf(cs[5].fires, [cs[5].message])
  }

  /** The reasons `isBusinessCompliant` reports for `info`. */
  function BusinessReasons(info: InfoData): seq<string> {
    ReportAll(ScreenChecks(info))
  }

  /** `isBusinessCompliant`: runs the six tests in order, pushing a reason for each that fires. */
  method IsBusinessCompliant(info: InfoData) returns (compliant: bool, reasons: seq<string>)
    ensures reasons == BusinessReasons(info)
    ensures compliant <==> reasons == []
  {
    ghost var cs := ScreenChecks(info);
    reasons := [];
    if ContainsExclusionKeyword(info.longName) {
      reasons := reasons + [NameKeywordMessage];
    }
    ghost var done := PushedIf(cs[0].fires, [cs[0].message]);
    assert reasons == done;
    if ContainsExclusionKeyword(info.sector) {
      reasons := reasons + [SectorKeywordMessage];
    }
    PushStep(reasons, done, cs[1].fires, [cs[1].message]);
    done := done + PushedIf(cs[1].fires, [cs[1].message]);
    if ContainsExclusionKeyword(info.industry) {
      reasons := reasons + [IndustryKeywordMessage];
    }
    PushStep(reasons, done, cs[2].fires, [cs[2].message]);
    done := done + PushedIf(cs[2].fires, [cs[2].message]);
    if ContainsExclusionKeyword(info.longBusinessSummary) {
      reasons := reasons + [SummaryKeywordMessage];
    }
    PushStep(reasons, done, cs[3].fires, [cs[3].message]);
    done := done + PushedIf(cs[3].fires, [cs[3].message]);
    if IsListed(info.sector, ExclusionSectors) {
      reasons := reasons + [SectorExcludedMessage(info.sector.value)];
    }
    PushStep(reasons, done, cs[4].fires, [cs[4].message]);
    done := done + PushedIf(cs[4].fires, [cs[4].message]);
    if IsListed(info.industry, ExclusionIndustries) {
      reasons := reasons + [IndustryExcludedMessage(info.industry.value)];
    }
    PushStep(reasons, done, cs[5].fires, [cs[5].message]);
    compliant := |reasons| == 0;
  }

  /** Nothing is reported exactly when no check fires, and at most one message per check. */
  lemma ReportAllEmpty(cs: seq<Check>)
    requires |cs| == 6
    ensures ReportAll(cs) == [] <==>
      !cs[0].fires && !cs[1].fires && !cs[2].fires && !cs[3].fires && !cs[4].fires && !cs[5].fires
    ensures |ReportAll(cs)| <= 6
  {
  }

  /** How many of the first `i` checks fire: where check `i`'s message lands in the reasons. */
  function FiredBefore(cs: seq<Check>, i: nat): (n: nat)
    requires i <= |cs|
    ensures n <= i
  {
    if i == 0 then 0 else FiredBefore(cs, i - 1) + (if cs[i - 1].fires then 1 else 0)
  }

  /** Later checks land further on. */
  lemma {:induction false} FiredBeforeGrows(cs: seq<Check>, i: nat, j: nat)
    requires i < j <= |cs|
    requires cs[i].fires
    ensures FiredBefore(cs, i) < FiredBefore(cs, j)
    decreases j
  {
    if j > i + 1 {
      FiredBeforeGrows(cs, i, j - 1);
    }
  }

  /** The messages of the firing checks among the first `k`, in check order. */
  function Reported(cs: seq<Check>, k: nat): (r: seq<string>)
    requires k <= |cs|
    ensures |r| == FiredBefore(cs, k)
  {
    if k == 0 then [] else Reported(cs, k - 1) + PushedIf(cs[k - 1].fires, [cs[k - 1].message])
  }

  /** Once a firing check has been passed, its message stays where it was put. */
  lemma {:induction false} ReportedAt(cs: seq<Check>, i: nat, k: nat)
    requires i < k <= |cs|
    requires cs[i].fires
    ensures FiredBefore(cs, i) < |Reported(cs, k)|
    ensures Reported(cs, k)[FiredBefore(cs, i)] == cs[i].message
    decreases k
  {
    FiredBeforeGrows(cs, i, k);
    if k > i + 1 {
      ReportedAt(cs, i, k - 1);
    }
  }

  /** The six pushes of the business screen are the first six steps of `Reported`. */
  lemma ReportAllIsReported(cs: seq<Check>)
    requires |cs| == 6
    ensures ReportAll(cs) == Reported(cs, 6)
  {
    assert Reported(cs, 1) == PushedIf(cs[0].fires, [cs[0].message]);
    assert Reported(cs, 2) == Reported(cs, 1) + PushedIf(cs[1].fires, [cs[1].message]);
    assert Reported(cs, 3) == Reported(cs, 2) + PushedIf(cs[2].fires, [cs[2].message]);
    assert Reported(cs, 4) == Reported(cs, 3) + PushedIf(cs[3].fires, [cs[3].message]);
    assert Reported(cs, 5) == Reported(cs, 4) + PushedIf(cs[4].fires, [cs[4].message]);
    assert Reported(cs, 6) == Reported(cs, 5) + PushedIf(cs[5].fires, [cs[5].message]);
  }

  /** The reasons are exactly the messages of the firing checks, in check order: one reason per
      firing check, and the message of firing check `i` at position `FiredBefore(cs, i)`. */
  lemma ReportAllLayout(cs: seq<Check>, i: nat)
    requires |cs| == 6 && i < 6
    ensures |ReportAll(cs)| == FiredBefore(cs, 6)
    ensures cs[i].fires ==> FiredBefore(cs, i) < |ReportAll(cs)|
    ensures cs[i].fires ==> ReportAll(cs)[FiredBefore(cs, i)] == cs[i].message
  {
    ReportAllIsReported(cs);
    if cs[i].fires {
      ReportedAt(cs, i, 6);
    }
  }

  /** The company passes the business screen exactly when none of the six tests fires;
      every test reports at most one reason. */
  lemma BusinessCompliantIff(info: InfoData)
    ensures BusinessReasons(info) == [] <==>
      !ContainsExclusionKeyword(info.longName) && !ContainsExclusionKeyword(info.sector) &&
      !ContainsExclusionKeyword(info.industry) && !ContainsExclusionKeyword(info.longBusinessSummary) &&
      !IsListed(info.sector, ExclusionSectors) && !IsListed(info.industry, ExclusionIndustries)
    ensures |BusinessReasons(info)| <= 6
  {
    ReportAllEmpty(ScreenChecks(info));
  }

  /** Every match is reported, in the fixed order of the six tests, and nothing else: there is
      one reason per test that fires, and when tests `i < j` both fire, the reason of `i` comes
      first. */
  lemma BusinessReasonsInOrder(info: InfoData, i: nat, j: nat)
    requires i < j < 6
    requires ScreenChecks(info)[i].fires && ScreenChecks(info)[j].fires
    ensures |BusinessReasons(info)| == FiredBefore(ScreenChecks(info), 6)
    ensures var p, q := FiredBefore(ScreenChecks(info), i), FiredBefore(ScreenChecks(info), j);
      p < q < |BusinessReasons(info)| &&
      BusinessReasons(info)[p] == ScreenChecks(info)[i].message &&
      BusinessReasons(info)[q] == ScreenChecks(info)[j].message
  {
    var cs := ScreenChecks(info);
    ReportAllLayout(cs, i);
    ReportAllLayout(cs, j);
    FiredBeforeGrows(cs, i, j);
  }

  /** A text field that is absent or empty (falsy in the source) makes none of its tests fire:
      the name test, the sector keyword and exact tests, the industry keyword and exact tests,
      the summary test. */
  lemma BlankFieldSilent(info: InfoData)
    ensures Blank(info.longName) ==> !ScreenChecks(info)[0].fires
    ensures Blank(info.sector) ==> !ScreenChecks(info)[1].fires && !ScreenChecks(info)[4].fires
    ensures Blank(info.industry) ==> !ScreenChecks(info)[2].fires && !ScreenChecks(info)[5].fires
    ensures Blank(info.longBusinessSummary) ==> !ScreenChecks(info)[3].fires
  {
  }

  /** An absent field is not itself a violation: with no text fields at all, nothing is reported. */
  lemma AbsentFieldsPass(info: InfoData)
    requires info.longName.None? && info.sector.None? && info.industry.None? && info.longBusinessSummary.None?
    ensures BusinessReasons(info) == []
  {
    BusinessCompliantIff(info);
  }

  // ---------------------------------------------------------------------------
  // Ratios
  // ---------------------------------------------------------------------------

  /** `r` is the percentage `x` rounded to hundredths, as `Math.round(x * 100) / 100` does. */
  ghost predicate RoundedFrom(r: real, x: real) {
    IsCents(r) && x - 0.005 < r <= x + 0.005
  }

  /** All three balance-sheet figures are reported and the assets net of goodwill are positive. */
  predicate DebtComputable(data: FinancialData) {
    data.longTermDebt.Some? && data.totalAssets.Some? && data.goodwillAndIntangibles.Some? &&
    data.totalAssets.value - data.goodwillAndIntangibles.value > 0.0
  }

  /** Long-term debt as a percentage of assets net of goodwill and intangibles. */
  ghost function DebtPercent(data: FinancialData): real
    requires DebtComputable(data)
  {
    data.longTermDebt.value / (data.totalAssets.value - data.goodwillAndIntangibles.value) * 100.0
  }

  /** `calculateDebtRatio`: null when a figure is missing or the net assets are not positive. */
  function CalculateDebtRatio(data: FinancialData): (r: Option<real>)
    ensures r.Some? <==> DebtComputable(data)
    ensures r.Some? ==> RoundedFrom(r.value, DebtPercent(data))
  {
    if data.longTermDebt.None? || data.totalAssets.None? || data.goodwillAndIntangibles.None? then None
    else
      var adjustedAssets := data.totalAssets.value - data.goodwillAndIntangibles.value;
      if adjustedAssets <= 0.0 then None
      else Some(Round2(data.longTermDebt.value / adjustedAssets * 100.0))
  }

  /** `info.marketCap && info.marketCap > 0`: a market capitalisation that is reported and positive. */
  predicate HasMarketCap(info: InfoData) {
    info.marketCap.Some? && info.marketCap.value > 0.0
  }

  /** Cash plus short- and long-term investments as a percentage of market capitalisation,
      counting an unreported figure as zero. */
  ghost function LiquidityPercent(info: InfoData): real
    requires HasMarketCap(info)
  {
    var cash := info.totalCash.GetOr(0.0) + info.shortTermInvestments.GetOr(0.0) + info.longTermInvestments.GetOr(0.0);
    cash / info.marketCap.value * 100.0
  }

  /** `calculateLiquidityRatio`: 0 when there is no positive market capitalisation. */
  function CalculateLiquidityRatio(info: InfoData): (r: real)
    ensures !HasMarketCap(info) ==> r == 0.0
    ensures HasMarketCap(info) ==> RoundedFrom(r, LiquidityPercent(info))
  {
    var totalCash := info.totalCash.GetOr(0.0);
    var shortTermInvestments := info.shortTermInvestments.GetOr(0.0);
    var longTermInvestments := info.longTermInvestments.GetOr(0.0);
    var marketCap := info.marketCap.GetOr(0.0);
    if marketCap == 0.0 || marketCap <= 0.0 then 0.0
    else
      var cashAndInvestments := totalCash + shortTermInvestments + longTermInvestments;
      Round2(cashAndInvestments / marketCap * 100.0)
  }

  /** Net receivables as a percentage of market capitalisation, unreported receivables counting as zero. */
  ghost function ReceivablesPercent(info: InfoData): real
    requires HasMarketCap(info)
  {
    info.netReceivables.GetOr(0.0) / info.marketCap.value * 100.0
  }

  /** `calculateReceivablesRatio`: 0 when there is no positive market capitalisation. */
  function CalculateReceivablesRatio(info: InfoData): (r: real)
    ensures !HasMarketCap(info) ==> r == 0.0
    ensures HasMarketCap(info) ==> RoundedFrom(r, ReceivablesPercent(info))
  {
    var netReceivables := info.netReceivables.GetOr(0.0);
    var marketCap := info.marketCap.GetOr(0.0);
    if marketCap == 0.0 || marketCap <= 0.0 then 0.0
    else Round2(netReceivables / marketCap * 100.0)
  }

  /** A rounded percentage is determined by the unrounded one. */
  lemma RoundedFromIsRound2(r: real, x: real)
    requires RoundedFrom(r, x)
    ensures r == Round2(x)
  {
    var n := (r * 100.0).Floor;
    assert r == n as real / 100.0;
    Round2Unique(x, n);
  }

  // ---------------------------------------------------------------------------
  // Aggregation
  // ---------------------------------------------------------------------------

  /** Each ratio must stay strictly below 33 (percent) to comply. */
  const ComplianceThreshold := 33.0

  const DebtMessage := "Debt ratio >= 33% or data missing"
  const LiquidityMessage := "Liquidity ratio >= 33%"
  const ReceivablesMessage := "Receivables ratio >= 33%"

  /** The number of failing ratio tests. */
  function Failures(debtOk: bool, liquidityOk: bool, receivablesOk: bool): nat {
    (if debtOk then 0 else 1) + (if liquidityOk then 0 else 1) + (if receivablesOk then 0 else 1)
  }

  /** The messages of the failing ratio tests, in the order debt, liquidity, receivables: one
      message per failing test, each at its place. */
  function RatioReasons(debtOk: bool, liquidityOk: bool, receivablesOk: bool): (r: seq<string>)
    ensures |r| == Failures(debtOk, liquidityOk, receivablesOk)
    ensures !debtOk ==> r[0] == DebtMessage
    ensures !liquidityOk ==> r[if debtOk then 0 else 1] == LiquidityMessage
    ensures !receivablesOk ==> r[|r| - 1] == ReceivablesMessage
  {
    PushedIf(!debtOk, [DebtMessage]) + PushedIf(!liquidityOk, [LiquidityMessage]) + PushedIf(!receivablesOk, [ReceivablesMessage])
  }

  /** A ratio message is among the ratio reasons exactly when its test fails. */
  lemma RatioReasonsMembership(debtOk: bool, liquidityOk: bool, receivablesOk: bool)
    ensures var r := RatioReasons(debtOk, liquidityOk, receivablesOk);
      (DebtMessage in r <==> !debtOk) &&
      (LiquidityMessage in r <==> !liquidityOk) &&
      (ReceivablesMessage in r <==> !receivablesOk)
  {
    assert DebtMessage[0] == 'D' && LiquidityMessage[0] == 'L' && ReceivablesMessage[0] == 'R';
  }

  /** The verdict `calculateIslamicRatios` returns, field by field. The liquidity and receivables
      ratios are those of the calculators; the business reasons follow the ratio reasons. */
  function Evaluate(data: FinancialData, info: InfoData): ComplianceResult {
    var debtRatio := CalculateDebtRatio(data);
    var liquidityRatio := CalculateLiquidityRatio(info);
    var receivablesRatio := CalculateReceivablesRatio(info);
    var debtOk := debtRatio.Some? && debtRatio.value < ComplianceThreshold;
    var liquidityOk := liquidityRatio < ComplianceThreshold;
    var receivablesOk := receivablesRatio < ComplianceThreshold;
    var business := BusinessReasons(info);
    ComplianceResult(
      debtRatio, liquidityRatio, receivablesRatio,
      debtOk, liquidityOk, receivablesOk, business == [],
      RatioReasons(debtOk, liquidityOk, receivablesOk) + business,
      debtOk && liquidityOk && receivablesOk && business == [])
  }

  /** `calculateIslamicRatios`: the liquidity and receivables ratios keep their defaults (0,
      compliant) unless the market capitalisation is positive; the reasons are pushed in order. */
  method CalculateIslamicRatios(data: FinancialData, info: InfoData) returns (result: ComplianceResult)
    ensures result == Evaluate(data, info)
    ensures result.isFullyCompliant <==> result.nonCompliantReasons == []
  {
    var debtRatio := CalculateDebtRatio(data);
    var isDebtCompliant := debtRatio.Some? && debtRatio.value < 33.0;

    var liquidityRatio := 0.0;
    var isLiquidityCompliant := true;
    if info.marketCap.Some? && info.marketCap.value != 0.0 && info.marketCap.value > 0.0 {
      liquidityRatio := CalculateLiquidityRatio(info);
      isLiquidityCompliant := liquidityRatio < 33.0;
    }

    var receivablesRatio := 0.0;
    var isReceivablesCompliant := true;
    if info.marketCap.Some? && info.marketCap.value != 0.0 && info.marketCap.value > 0.0 {
      receivablesRatio := CalculateReceivablesRatio(info);
      isReceivablesCompliant := receivablesRatio < 33.0;
    }

    var isBusinessCompliant, businessReasons := IsBusinessCompliant(info);

    var isFullyCompliant :=
      isDebtCompliant && isLiquidityCompliant && isReceivablesCompliant && isBusinessCompliant;

    var nonCompliantReasons: seq<string> := [];
    if !isDebtCompliant {
      nonCompliantReasons := nonCompliantReasons + [DebtMessage];
    }
    ghost var done := PushedIf(!isDebtCompliant, [DebtMessage]);
    assert nonCompliantReasons == done;
    if !isLiquidityCompliant {
      nonCompliantReasons := nonCompliantReasons + [LiquidityMessage];
    }
    PushStep(nonCompliantReasons, done, !isLiquidityCompliant, [LiquidityMessage]);
    done := done + PushedIf(!isLiquidityCompliant, [LiquidityMessage]);
    if !isReceivablesCompliant {
      nonCompliantReasons := nonCompliantReasons + [ReceivablesMessage];
    }
    PushStep(nonCompliantReasons, done, !isReceivablesCompliant, [ReceivablesMessage]);
    done := done + PushedIf(!isReceivablesCompliant, [ReceivablesMessage]);
    if !isBusinessCompliant {
      nonCompliantReasons := nonCompliantReasons + businessReasons;
    }
    PushStep(nonCompliantReasons, done, !isBusinessCompliant, businessReasons);

    result := ComplianceResult(
      debtRatio, liquidityRatio, receivablesRatio,
      isDebtCompliant, isLiquidityCompliant, isReceivablesCompliant, isBusinessCompliant,
      nonCompliantReasons, isFullyCompliant);
  }

  /** The company is fully compliant exactly when no reason is reported. */
  lemma FullyCompliantIffNoReasons(data: FinancialData, info: InfoData)
    ensures Evaluate(data, info).isFullyCompliant <==> Evaluate(data, info).nonCompliantReasons == []
  {
  }

  /** The debt test compares the rounded ratio with 33, so it passes exactly when the figures
      are complete, the net assets positive and the unrounded percentage below 32.995; missing
      data still yields a verdict, non-compliant, whose first reason is the debt message. */
  lemma DebtVerdict(data: FinancialData, info: InfoData)
    ensures Evaluate(data, info).isDebtCompliant <==> DebtComputable(data) && DebtPercent(data) < 32.995
    ensures !DebtComputable(data) ==>
      Evaluate(data, info).debtRatio.None? && Evaluate(data, info).nonCompliantReasons[0] == DebtMessage
  {
    if DebtComputable(data) {
      RoundedFromIsRound2(CalculateDebtRatio(data).value, DebtPercent(data));
      Round2Below(DebtPercent(data), 33);
    }
  }

  /** Without a positive market capitalisation both market ratios are 0 and compliant; with one,
      each passes exactly when its unrounded percentage is below 32.995. */
  lemma MarketRatiosVerdict(data: FinancialData, info: InfoData)
    ensures !HasMarketCap(info) ==>
      Evaluate(data, info).liquidityRatio == 0.0 && Evaluate(data, info).isLiquidityCompliant &&
      Evaluate(data, info).receivablesRatio == 0.0 && Evaluate(data, info).isReceivablesCompliant
    ensures HasMarketCap(info) ==>
      (Evaluate(data, info).isLiquidityCompliant <==> LiquidityPercent(info) < 32.995) &&
      (Evaluate(data, info).isReceivablesCompliant <==> ReceivablesPercent(info) < 32.995)
  {
    if HasMarketCap(info) {
      RoundedFromIsRound2(CalculateLiquidityRatio(info), LiquidityPercent(info));
      Round2Below(LiquidityPercent(info), 33);
      RoundedFromIsRound2(CalculateReceivablesRatio(info), ReceivablesPercent(info));
      Round2Below(ReceivablesPercent(info), 33);
    }
  }

  /** The reasons are the ratio messages, one per failing ratio test in the order debt,
      liquidity, receivables, followed by the business reasons verbatim. */
  lemma ReasonsLayout(data: FinancialData, info: InfoData)
    ensures var r := Evaluate(data, info);
      var k := |r.nonCompliantReasons| - |BusinessReasons(info)|;
      var ratios := r.nonCompliantReasons[..k];
      k == Failures(r.isDebtCompliant, r.isLiquidityCompliant, r.isReceivablesCompliant) &&
      r.nonCompliantReasons[k..] == BusinessReasons(info) &&
      (!r.isDebtCompliant ==> ratios[0] == DebtMessage) &&
      (!r.isLiquidityCompliant ==> ratios[if r.isDebtCompliant then 0 else 1] == LiquidityMessage) &&
      (!r.isReceivablesCompliant ==> ratios[k - 1] == ReceivablesMessage) &&
      (DebtMessage in ratios <==> !r.isDebtCompliant) &&
      (LiquidityMessage in ratios <==> !r.isLiquidityCompliant) &&
      (ReceivablesMessage in ratios <==> !r.isReceivablesCompliant)
  {
    var r := Evaluate(data, info);
    var ratios := RatioReasons(r.isDebtCompliant, r.isLiquidityCompliant, r.isReceivablesCompliant);
    assert r.nonCompliantReasons[..|ratios|] == ratios;
    assert r.nonCompliantReasons[|ratios|..] == BusinessReasons(info);
    RatioReasonsMembership(r.isDebtCompliant, r.isLiquidityCompliant, r.isReceivablesCompliant);
  }
}
