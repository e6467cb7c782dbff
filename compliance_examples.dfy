/** Worked cases of the screen, one per scenario of the repository's own test suite, stated
    against the model so that each expectation is either confirmed or shown to differ. */
module ComplianceExamples {
  import opened Wrappers
  import opened JsMath
  import opened JsText
  import opened IslamicCompliance

  const NoInfo := InfoData(None, None, None, None, None, None, None, None, None)

  /** 100 of debt against 1000 of assets less 100 of goodwill is 11.11 percent. */
  lemma DebtRatioExample()
    ensures CalculateDebtRatio(FinancialData(Some(100.0), Some(1000.0), Some(100.0))) == Some(11.11)
  {
    Round2Unique(100.0 / 900.0 * 100.0, 1111);
  }

  /** A missing figure, or net assets of zero or less, gives no debt ratio. */
  lemma DebtRatioAbsentExamples()
    ensures CalculateDebtRatio(FinancialData(Some(100.0), Some(1000.0), None)).None?
    ensures CalculateDebtRatio(FinancialData(None, Some(1000.0), Some(100.0))).None?
    ensures CalculateDebtRatio(FinancialData(Some(100.0), None, Some(100.0))).None?
    ensures CalculateDebtRatio(FinancialData(Some(100.0), Some(100.0), Some(100.0))).None?
    ensures CalculateDebtRatio(FinancialData(Some(100.0), Some(50.0), Some(100.0))).None?
  {
  }

  /** 100 of cash and 50 each of short- and long-term investments against a market
      capitalisation of 400 is 50 percent; without a positive market capitalisation the ratio
      is 0, and with nothing but a market capitalisation it is 0 as well. */
  lemma LiquidityRatioExamples()
    ensures CalculateLiquidityRatio(NoInfo.(totalCash := Some(100.0), shortTermInvestments := Some(50.0),
      longTermInvestments := Some(50.0), marketCap := Some(400.0))) == 50.0
    ensures CalculateLiquidityRatio(NoInfo.(totalCash := Some(100.0), shortTermInvestments := Some(50.0),
      longTermInvestments := Some(50.0), marketCap := Some(0.0))) == 0.0
    ensures CalculateLiquidityRatio(NoInfo.(totalCash := Some(100.0), shortTermInvestments := Some(50.0),
      longTermInvestments := Some(50.0))) == 0.0
    ensures CalculateLiquidityRatio(NoInfo.(marketCap := Some(100.0))) == 0.0
  {
    Round2Unique(200.0 / 400.0 * 100.0, 5000);
    Round2Unique(0.0 / 100.0 * 100.0, 0);
  }

  /** 25 of receivables against a market capitalisation of 100 is 25 percent; the ratio is 0
      without a positive market capitalisation or without receivables. */
  lemma ReceivablesRatioExamples()
    ensures CalculateReceivablesRatio(NoInfo.(netReceivables := Some(25.0), marketCap := Some(100.0))) == 25.0
    ensures CalculateReceivablesRatio(NoInfo.(netReceivables := Some(25.0), marketCap := Some(0.0))) == 0.0
    ensures CalculateReceivablesRatio(NoInfo.(netReceivables := Some(25.0))) == 0.0
    ensures CalculateReceivablesRatio(NoInfo.(marketCap := Some(100.0))) == 0.0
  {
    Round2Unique(25.0 / 100.0 * 100.0, 2500);
    Round2Unique(0.0 / 100.0 * 100.0, 0);
  }

  /** Without goodwill the debt ratio cannot be computed, yet a verdict is still returned: the
      debt test fails and its message is the only reason. */
  lemma MissingGoodwillExample()
    ensures var r := Evaluate(FinancialData(Some(100.0), Some(1000.0), None), NoInfo.(marketCap := Some(1000.0)));
      r.debtRatio.None? && !r.isDebtCompliant && r.isLiquidityCompliant && r.isReceivablesCompliant &&
      r.nonCompliantReasons == [DebtMessage] && !r.isFullyCompliant
  {
    var info := NoInfo.(marketCap := Some(1000.0));
    AbsentFieldsPass(info);
    MarketRatiosVerdict(FinancialData(Some(100.0), Some(1000.0), None), info);
  }

  /** A ratio just under the threshold before rounding still fails once rounded: 32.996 percent
      rounds to 33. */
  lemma ThresholdRoundingExample()
    ensures var r := Evaluate(FinancialData(Some(32996.0), Some(100000.0), Some(0.0)), NoInfo);
      r.debtRatio == Some(33.0) && !r.isDebtCompliant
  {
    var data := FinancialData(Some(32996.0), Some(100000.0), Some(0.0));
    Round2Unique(DebtPercent(data), 3300);
  }

  /** 400 of debt against 900 of net assets fails the debt test; the reason recorded is the
      debt message, which differs from the shorter text the test suite looks for. */
  lemma HighDebtExample()
    ensures var r := Evaluate(FinancialData(Some(400.0), Some(1000.0), Some(100.0)),
      NoInfo.(marketCap := Some(1000.0), totalCash := Some(100.0), shortTermInvestments := Some(100.0),
        longTermInvestments := Some(100.0), netReceivables := Some(100.0)));
      !r.isDebtCompliant && r.isLiquidityCompliant && r.isReceivablesCompliant && !r.isFullyCompliant &&
      r.nonCompliantReasons == [DebtMessage] && "Debt ratio >= 33%" != DebtMessage
  {
    var data := FinancialData(Some(400.0), Some(1000.0), Some(100.0));
    var info := NoInfo.(marketCap := Some(1000.0), totalCash := Some(100.0), shortTermInvestments := Some(100.0),
      longTermInvestments := Some(100.0), netReceivables := Some(100.0));
    Round2Unique(DebtPercent(data), 4444);
    Round2Unique(LiquidityPercent(info), 3000);
    Round2Unique(ReceivablesPercent(info), 1000);
    AbsentFieldsPass(info);
  }

  /** Low debt (11.11 percent), liquidity of 30 percent and receivables of 10 percent pass every
      ratio test; with no exclusion in the text fields the company is fully compliant. */
  lemma CompliantExample()
    ensures var r := Evaluate(FinancialData(Some(100.0), Some(1000.0), Some(100.0)),
      NoInfo.(marketCap := Some(1000.0), totalCash := Some(100.0), shortTermInvestments := Some(100.0),
        longTermInvestments := Some(100.0), netReceivables := Some(100.0)));
      r.debtRatio == Some(11.11) && r.liquidityRatio == 30.0 && r.receivablesRatio == 10.0 &&
      r.isFullyCompliant && r.nonCompliantReasons == []
  {
    var info := NoInfo.(marketCap := Some(1000.0), totalCash := Some(100.0), shortTermInvestments := Some(100.0),
      longTermInvestments := Some(100.0), netReceivables := Some(100.0));
    DebtRatioExample();
    Round2Unique(LiquidityPercent(info), 3000);
    Round2Unique(ReceivablesPercent(info), 1000);
    AbsentFieldsPass(info);
  }

  /** A company in the "Banks" sector fails the business screen and so the whole screen. */
  lemma ExcludedSectorExample()
    ensures var r := Evaluate(FinancialData(Some(100.0), Some(1000.0), Some(100.0)),
      NoInfo.(marketCap := Some(1000.0), sector := Some("Banks")));
      !r.isBusinessCompliant && |r.nonCompliantReasons| > 0 && !r.isFullyCompliant
  {
    var info := NoInfo.(marketCap := Some(1000.0), sector := Some("Banks"));
    assert IsListed(info.sector, ExclusionSectors);
    BusinessCompliantIff(info);
  }
}
