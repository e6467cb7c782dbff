# Islamic-finance compliance screen

A Dafny model of the stock screen in `src/lib/islamicCompliance.ts`. The screen decides whether
a listed company is acceptable under Islamic-finance rules. It runs three tests, each passing
only strictly below 33 percent:

- **Debt ratio:** long-term debt over total assets less goodwill and intangibles.
- **Liquidity ratio:** cash plus short- and long-term investments over market capitalisation.
- **Receivables ratio:** net receivables over market capitalisation.

Each ratio is rounded to hundredths. The screen also runs a business-activity test. Four text
fields (name, sector, industry, summary) are searched, case-insensitively, for exclusion
keywords. The sector and industry are also looked up in lists of excluded sectors and industries.
The verdict lists the reasons for non-compliance in a fixed order.

Modules:

- `Wrappers` (`wrappers.dfy`): the `Option` type that models an optional field or a `null` result.
- `JsMath` (`js_math.dfy`): JavaScript's `Math.round` over exact reals and the
  round-to-hundredths idiom `Math.round(x * 100) / 100`. The idiom is characterised as "the
  unique multiple of 0.01 in `(x - 0.005, x + 0.005]`".
- `JsText` (`js_text.dfy`): `String.prototype.toLowerCase` (ASCII letters) and
  `String.prototype.includes`. The search is proved equivalent to "`word` occurs at some index".
- `IslamicCompliance` (`islamic_compliance.dfy`): the three reference lists, the keyword test, the
  business screen, the three ratio calculators and the aggregator `calculateIslamicRatios`.
  - The pure parts are functions.
  - The two imperative parts are methods: `isBusinessCompliant`, which pushes reasons one by one,
    and `calculateIslamicRatios`, which reassigns defaults and then pushes reasons. Each method is
    proved equal to a specification function, `BusinessReasons` and `Evaluate` respectively. The
    properties of the screen are proved about those functions.
- `ComplianceExamples` (`compliance_examples.dfy`): the scenarios of the repository's test suite,
  stated against the model. The whole-screen scenarios leave the company's text fields absent
  unless a field is what the scenario is about (see "## Left out").

Where the code and its test suite disagree, the model follows the code:

- **Missing goodwill.** When `Goodwill_And_Intangibles` is missing, `calculateIslamicRatios`
  returns a verdict, not `null`. The debt ratio is `null` and the debt test fails. Nothing in its
  `try` block can throw. The test at `src/lib/__tests__/islamicCompliance.test.ts:132-138` expects
  `null`. `ComplianceExamples.MissingGoodwillExample` proves the verdict the code gives.
- **Debt message.** The debt reason is "Debt ratio >= 33% or data missing" (line 146). The test at
  `src/lib/__tests__/islamicCompliance.test.ts:187` looks for the exact element
  "Debt ratio >= 33%". `ComplianceExamples.HighDebtExample` takes the test's figures with the text
  fields absent. It proves the reasons are then exactly `[DebtMessage]`, and that this message
  differs from the text the test looks for.

## Model

| member | source | states |
|---|---|---|
| Wrappers.Option.GetOr | src/lib/islamicCompliance.ts:92-95 | `field ?? d` is the field's value when present and `d` when absent |
| JsMath.Round | src/lib/islamicCompliance.ts:88 | `Math.round(x)` is the integer `n` with `n - 0.5 <= x < n + 0.5` (halves round up) |
| JsMath.RoundUnique | src/lib/islamicCompliance.ts:88 | that integer is unique: any `n` within half of `x` (halves up) is `Math.round(x)` |
| JsMath.Round2 | src/lib/islamicCompliance.ts:87-88 | `Math.round(ratio * 100) / 100` is a whole number of hundredths within `(x - 0.005, x + 0.005]` of `x` |
| JsMath.Round2Unique | src/lib/islamicCompliance.ts:87-88 | any whole number of hundredths in that window is the rounded value, so the window determines it |
| JsMath.Round2Below | src/lib/islamicCompliance.ts:117 | a rounded ratio is below an integer bound `b` exactly when the unrounded one is below `b - 0.005` |
| JsText.LowerChar | src/lib/islamicCompliance.ts:56 | a capital `A`-`Z` becomes the small letter at the same place in the alphabet; every other character is unchanged; no capital remains |
| JsText.ToLower | src/lib/islamicCompliance.ts:56 | `toLowerCase` keeps the length and lower-cases character by character |
| JsText.ToLowerIdempotent | src/lib/islamicCompliance.ts:56 | lower-casing twice is lower-casing once |
| JsText.IncludesIffOccurs | src/lib/islamicCompliance.ts:57 | `lower.includes(keyword)` holds exactly when the keyword occurs at some index of the text |
| IslamicCompliance.ContainsExclusionKeyword | src/lib/islamicCompliance.ts:54-58 | an absent or empty text never matches |
| IslamicCompliance.KeywordMatchIff | src/lib/islamicCompliance.ts:38-58 | a text matches exactly when it is present and its lower-cased form contains one of the 21 keywords as a substring |
| IslamicCompliance.KeywordMatchIgnoresCase | src/lib/islamicCompliance.ts:56-57 | the keyword test gives the same answer for a text and its lower-cased form |
| IslamicCompliance.IsBusinessCompliant | src/lib/islamicCompliance.ts:60-74 | the pushes produce exactly the reasons of the firing tests in test order (`BusinessReasons`), and `compliant` holds exactly when no reason was pushed |
| IslamicCompliance.FiredBefore | src/lib/islamicCompliance.ts:62-71 | the number of tests among the first `i` that fire is at most `i` |
| IslamicCompliance.FiredBeforeGrows | src/lib/islamicCompliance.ts:62-71 | a firing test pushes its reason after those of all firing tests before it |
| IslamicCompliance.Reported | src/lib/islamicCompliance.ts:62-71 | after `k` tests, as many reasons have been pushed as tests have fired |
| IslamicCompliance.ReportedAt | src/lib/islamicCompliance.ts:62-71 | the reason of a firing test stays at its position while later tests push theirs |
| IslamicCompliance.ReportAllIsReported | src/lib/islamicCompliance.ts:62-71 | the six pushes of the screen are the first six steps of the incremental report |
| IslamicCompliance.ReportAllLayout | src/lib/islamicCompliance.ts:62-71 | one reason per firing test, and the reason of firing test `i` sits after those of the firing tests before it |
| IslamicCompliance.ReportAllEmpty | src/lib/islamicCompliance.ts:62-73 | no reason is reported exactly when no test fires; at most six are reported |
| IslamicCompliance.BusinessCompliantIff | src/lib/islamicCompliance.ts:60-74 | a company passes exactly when none of the four keyword tests and neither exact-list test fires; there are at most six reasons |
| IslamicCompliance.BusinessReasonsInOrder | src/lib/islamicCompliance.ts:62-71 | when tests `i < j` both fire, the reason of `i` is reported before the reason of `j` |
| IslamicCompliance.BlankFieldSilent | src/lib/islamicCompliance.ts:55-70 | an absent or empty text field makes none of its tests fire |
| IslamicCompliance.AbsentFieldsPass | src/lib/islamicCompliance.ts:60-74 | with no text fields at all, nothing is reported |
| IslamicCompliance.CalculateDebtRatio | src/lib/islamicCompliance.ts:76-89 | null exactly when a figure is missing or assets net of goodwill are not positive; otherwise debt over net assets as a percentage, rounded to hundredths |
| IslamicCompliance.CalculateLiquidityRatio | src/lib/islamicCompliance.ts:91-100 | 0 without a positive market capitalisation, whatever the other fields hold; otherwise cash and investments, missing ones counting as 0, over market capitalisation as a percentage, rounded to hundredths |
| IslamicCompliance.CalculateReceivablesRatio | src/lib/islamicCompliance.ts:102-108 | 0 without a positive market capitalisation; otherwise receivables, missing counting as 0, over market capitalisation as a percentage, rounded to hundredths |
| IslamicCompliance.RoundedFromIsRound2 | src/lib/islamicCompliance.ts:87-88 | a value rounded from a percentage is the rounding of that percentage |
| IslamicCompliance.RatioReasons | src/lib/islamicCompliance.ts:146-148 | one message per failing ratio test, in the order debt, liquidity, receivables: the debt message first if debt fails, the liquidity message next, the receivables message last |
| IslamicCompliance.RatioReasonsMembership | src/lib/islamicCompliance.ts:146-148 | each ratio message is among the ratio reasons exactly when its test fails |
| IslamicCompliance.CalculateIslamicRatios | src/lib/islamicCompliance.ts:110-161 | the verdict is `Evaluate`: the ratios are those of the calculators, the reasons are the failing ratio messages followed by the business reasons, and the company is fully compliant exactly when there is no reason |
| IslamicCompliance.FullyCompliantIffNoReasons | src/lib/islamicCompliance.ts:139-149 | full compliance holds exactly when the reason list is empty |
| IslamicCompliance.DebtVerdict | src/lib/islamicCompliance.ts:116-117 | the debt test passes exactly when the ratio is computable and the unrounded percentage is below 32.995; missing data still yields a verdict whose first reason is the debt message pushed at line 146 |
| IslamicCompliance.MarketRatiosVerdict | src/lib/islamicCompliance.ts:119-133 | without a positive market capitalisation both ratios are 0 and both tests pass; otherwise each passes exactly when its unrounded percentage is below 32.995 |
| IslamicCompliance.ReasonsLayout | src/lib/islamicCompliance.ts:145-149 | the reasons are one ratio message per failing ratio test, in the order debt, liquidity, receivables, each present exactly when its test fails, followed by the business reasons verbatim |
| ComplianceExamples.DebtRatioExample | src/lib/__tests__/islamicCompliance.test.ts:10-18 | 100 of debt, 1000 of assets and 100 of goodwill give 11.11 |
| ComplianceExamples.DebtRatioAbsentExamples | src/lib/__tests__/islamicCompliance.test.ts:20-56 | a missing figure, or net assets of 0 or below, give null |
| ComplianceExamples.LiquidityRatioExamples | src/lib/__tests__/islamicCompliance.test.ts:59-96 | 200 over 400 gives 50; a zero or missing market capitalisation gives 0; missing cash and investments give 0 |
| ComplianceExamples.ReceivablesRatioExamples | src/lib/__tests__/islamicCompliance.test.ts:98-129 | 25 over 100 gives 25; a zero or missing market capitalisation or missing receivables give 0 |
| ComplianceExamples.MissingGoodwillExample | src/lib/__tests__/islamicCompliance.test.ts:132-138 | a verdict is returned: the debt ratio is null, the debt test fails and its message is the only reason |
| ComplianceExamples.ThresholdRoundingExample | src/lib/islamicCompliance.ts:117 | a raw 32.996 percent rounds to 33 and fails the debt test |
| ComplianceExamples.HighDebtExample | src/lib/__tests__/islamicCompliance.test.ts:165-188 | with the test's figures and no text fields, 400 of debt fails the debt test alone; the only reason is "Debt ratio >= 33% or data missing" |
| ComplianceExamples.CompliantExample | src/lib/__tests__/islamicCompliance.test.ts:141-163 | with the test's figures and no text fields, the ratios are 11.11, 30 and 10 and the verdict is fully compliant with no reasons |
| ComplianceExamples.ExcludedSectorExample | src/lib/__tests__/islamicCompliance.test.ts:190-213 | a company in the "Banks" sector fails the business screen and the whole screen, with at least one reason |

## Left out

- Numbers are exact reals, not IEEE-754 doubles. NaN, infinities and binary rounding error in
  `ratio * 100` are not modelled. Neither is the truthiness test `!marketCap` on NaN.
- `toLowerCase` folds ASCII `A`-`Z` only. Full Unicode case mapping is not modelled. Every keyword
  is lower-case ASCII.
- The `catch` branch of `calculateIslamicRatios` (lines 162-165) returns `null` on an exception.
  Nothing in the `try` block throws for well-typed inputs, so the verdict is a plain record and
  that path is not modelled.
- ComplianceExamples.CompliantExample: the text fields of the compliant company in the test suite
  ("Technology", "Software", "Halal Tech", "A software company.") are left absent. Proving that
  none of the 21 keywords occurs in them is too costly for the solver. `BlankFieldSilent` and
  `BusinessCompliantIff` state the general rule.
- ComplianceExamples.HighDebtExample: the same four text fields of the high-debt company in the
  test suite are left absent, for the same reason. So the lemma does not show that those texts
  stay silent. Its "only reason is the debt message" holds for the figures with no text fields.
- The concrete "Bank of Pork" name match (test lines 190-213) is not proved as an instance. A proof
  exists, but it costs between 1 and 3 million solver resource units depending on the random seed.
  On some seeds that is above the 2 million units every proof of this project must stay within.
  `KeywordMatchIff` states the rule it is an instance of: a text matches when its lower-cased form
  contains a keyword.
- The rest of the repository is not part of this model. That covers the page and its components
  (rendering, the download button, the chart), the stock API route (network I/O) and form input
  handling.
