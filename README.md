# dei-split: the deal validator and the payment report

`dei_split.py` splits an electricity bill among 2 to 10 roommates. Part of
the bill is split equally and part by a "deal", which is one ratio per
roommate. This project models and proves facts about the program's two
computational pieces:

- `process_input` is the start-up validator. It checks the roommate count
  against 2 and `MAX_ROOMMATES` (10). It accepts a deal of one ratio per
  roommate whose sum rounds to 1.0 at one decimal. It completes a deal that
  is one ratio short, when that deal sums to at most 0.99, by appending
  `1.0 - sum(deal)`. Every other input is refused with one of five errors,
  tested in a fixed order.
- `report` prints a header total and one line per roommate. Roommate `i`
  pays the equal amounts divided by the roommate count, plus the deal amounts
  times their ratio. The model keeps those numbers and drops the text.

Modules:

- `PyBuiltins` (`py_builtins.dfy`) holds Python's `sum`, as a left fold over
  `real`, and Python 2's `round(x, 1)`, which rounds half away from zero.
  For `round` it proves that `round(s, 1) == 1.0` holds exactly when
  `0.95 <= s < 1.05`.
- `DealValidator` (`deal_validator.dfy`) has three parts:
  - `ProcessInput` is a function from `(n, deal)` to
    `Result<(n, deal), ConfigError>`, with one error constructor per
    exception the source raises.
  - `ProcessArgs` is a method on the mutable argument record `Args`. It
    mirrors how the source appends the filled-in ratio to `args.deal` itself.
  - One lemma covers each branch, plus the scenarios of the source's
    self-test `test()` for every roommate count from 2 to 10.
- `PaymentReport` and `ReportProperties` (`payment_report.dfy`) hold the
  report's figures and what they promise:
  - with a deal that sums exactly to 1, the roommates' totals add up to the
    header;
  - with a deal that was accepted only by rounding, they stay within 5% of a
    non-negative deal amount of the header;
  - the report is linear in the bill's amounts.

Floats are exact `real`s here. The equal-deal scenarios of the self-test
therefore hold exactly, not just up to IEEE-754 rounding.

`process_input` raises five distinct errors, one per `raise` at
dei_split.py:65, 70, 79, 88 and 92. `main` (dei_split.py:222-248) calls
`report` once per bill and writes no file. `ReportAdditive` states the plain
linearity of `report` in the bill's amounts.

## Model

| member | source | states |
|---|---|---|
| PyBuiltins.SumAppend | dei_split.py:84-86 | `Sum`, Python's `sum` as a left fold from 0 over the list: appending `x` to the list adds `x` to its sum, as `deal.append(1.0 - sum(deal))` does |
| PyBuiltins.SumConcat | dei_split.py:209-211 | the `Sum` of two lists concatenated is the sum of their `Sum`s |
| PyBuiltins.SumConstant | dei_split.py:105 | `k` copies of one value `c` have `Sum` `k * c` |
| PyBuiltins.SumAffine | dei_split.py:212-214 | a list whose `i`-th element is `a + b * d[i]` has `Sum` `len(d) * a + b * Sum(d)` |
| PyBuiltins.Round1 | dei_split.py:76 | `round(x, 1)` is a multiple of 0.1 within 0.05 of `x`. A tie goes away from zero: up for a non-negative `x`, down for a negative one. |
| PyBuiltins.RoundsToOne | dei_split.py:76 | `round(x, 1) == 1.0` exactly when `0.95 <= x < 1.05`, in both directions |
| DealValidator.ProcessInput | dei_split.py:60-95 | Fewer than 2 roommates → TooFewRoommates, whatever the deal. Otherwise more than 10 → TooManyRoommates, before any deal check. On success: count in [2, 10], returned unchanged; deal of length exactly `n` that extends the input deal; sum in [0.95, 1.05). |
| DealValidator.FullDeal | dei_split.py:74-79 | With one ratio per roommate: the deal comes back unchanged if and only if its sum is in [0.95, 1.05), and otherwise DealSumNotOne carries the sum |
| DealValidator.AutoFill | dei_split.py:82-86 | A deal one short whose sum is ≤ 0.99 is accepted. The result has length `n`, its first `n-1` ratios are the input and its last ratio is `1 - sum`. It sums to exactly 1 and the added ratio is ≥ 0.01. |
| DealValidator.AutoFillTooHigh | dei_split.py:87-89 | a deal one short whose sum is > 0.99 → DealSumTooHigh with that sum |
| DealValidator.DealLengthMismatch | dei_split.py:91-93 | a deal whose length is neither `n` nor `n-1` → LengthMismatch with the count and the length |
| DealValidator.Accepted | dei_split.py:60-95 | Validation succeeds if and only if `2 <= n <= 10` and one of two holds: the deal has length `n` and sums to within [0.95, 1.05), or it has length `n-1` and sums to ≤ 0.99 |
| DealValidator.ProcessInputIdempotent | dei_split.py:60-95 | validating an accepted result again returns it unchanged |
| DealValidator.ProcessArgs | dei_split.py:60-95 | `process_input(args)` on the mutable record: its result is `ProcessInput` of the old fields. On success `args.deal` becomes the returned deal, the filled ratio appended in place. On every error `args.deal` is untouched. |
| DealValidator.EqualDeal | dei_split.py:105 | the equal deal: `k` ratios, each `1/n`, which together sum to `k/n` |
| DealValidator.EqualDealAccepted | dei_split.py:103-111 | the full equal deal is accepted unchanged, for every `n` in [2, 10] |
| DealValidator.EqualDealAutoFilled | dei_split.py:113-121 | the equal deal one short is completed into the full equal deal |
| DealValidator.EqualDealTooShort | dei_split.py:123-135 | the equal deal two short → LengthMismatch(n, n-2) |
| DealValidator.EqualDealShifted | dei_split.py:137-165 | a full equal deal whose last ratio is raised or lowered by 0.1 → DealSumNotOne(1 ± 0.1) |
| DealValidator.EqualDealDoubledTooHigh | dei_split.py:167-180 | an equal deal one short whose last ratio is doubled sums to 1 → DealSumTooHigh(1) |
| DealValidator.OverfullDealExample | dei_split.py:74-79 | `n = 2`, deal 0.5, 0.7 → DealSumNotOne(1.2) |
| DealValidator.NothingLeftExample | dei_split.py:82-89 | `n = 3`, deal 0.5, 0.5 → DealSumTooHigh(1.0) |
| PaymentReport.Lines | dei_split.py:212-219 | One line per ratio, in order. Line `i` is roommate `i+1` with ratio `deal[i]`. It pays the equal share plus `amount * deal[i]`, and its total is the two together. |
| PaymentReport.MakeReport | dei_split.py:207-219 | The header total is `sum(values_eq) + sum(values_dl)`. Its parts are `EqualShare`, which is `to_pay_eq` at line 210, and `Line`, which is one roommate's `to_pay` and `total` at lines 213-214. There is one line per deal ratio. Line `i` is roommate `i+1` with ratio `deal[i]`, and pays `sum(values_eq)/n + sum(values_dl)*deal[i]` in all. |
| ReportProperties.PaidLines | dei_split.py:210-214 | the lines' totals add up to `len(deal)` equal shares plus the deal amount times `sum(deal)` |
| ReportProperties.TotalsAddUp | dei_split.py:209-219 | with one ratio per roommate summing to exactly 1, the roommates' totals add up to the header total |
| ReportProperties.TotalsNearHeader | dei_split.py:209-219 | With one ratio per roommate summing to within [0.95, 1.05) and a non-negative deal amount, the totals are within 5% of the deal amount of the header. The rounding check at line 76 lets such deals through. |
| ReportProperties.ValidatedTotals | dei_split.py:207-219 | For every configuration `process_input` accepts and any amounts, an auto-filled deal makes the report's totals equal the header exactly. When the deal-split amounts are non-negative, the totals are within 5% of the deal amount of the header. |
| ReportProperties.ReportAdditive | dei_split.py:209-214 | reporting two bills' amounts concatenated gives the sum of the two reports, both the header and every roommate's total |
| ReportProperties.LinesAdditive | dei_split.py:212-214 | every line's total is additive in the equal share and the deal amount |
| ReportProperties.EvenSplitExample | dei_split.py:207-219 | Amounts 100 and 50 split equally, 30 by the deal, deal 0.5 / 0.5: header 180. Each roommate pays 75 + 15 = 90. |
| ReportProperties.AutoFilledExample | dei_split.py:207-219 | Deal 0.6 for two roommates is completed to 0.6 / 0.4. With 40 split equally and 20 by the deal, the roommates pay 32 and 28. |

## Left out

- `init_parser` (argparse, dei_split.py:41-57): the parsed flags are the
  inputs `n` and `deal` of `ProcessInput`, or the fields of `Args`.
- `loop` and `main` (dei_split.py:185-204 and 222-248): interactive `raw_input` reads,
  `sys.exit`, the restart and continue prompts and the ASCII art are I/O.
  The amounts they collect are inputs of `MakeReport`.
- `test()` (dei_split.py:98-180): it draws the roommate count at random and
  goes through argparse. Its scenarios are lemmas for every count in [2, 10].
- The text of the error messages and of the report: the `%d`, `%.1f` and
  `%.2f` formatting and the printing. The errors carry the values those
  messages show.
- Floating point: `sum`, `/` and `*` are exact over `real`. The inexact sum of
  the `1/n` ratios, and the `str`/`float` round trip in `test()`, are not
  modelled.
- `PaymentReport.MakeReport`: requires a non-zero roommate count. The
  source's `report` would raise ZeroDivisionError for zero, but its only
  caller passes a validated count in [2, 10].
- `DealValidator.EqualDealTooShort`: for two roommates the self-test's
  two-short scenario passes `-d` with no values. argparse's `nargs='+'`
  (dei_split.py:51) rejects that with `SystemExit`, which the test's
  `except Exception` does not catch, so at `n = 2` that scenario never reaches
  `process_input`. The lemma is about `process_input` itself, for every `n`.
- `ReportProperties.TotalsNearHeader`: the 5% bound is proved only for
  non-negative deal-split amounts. `loop` accepts negative values
  (dei_split.py:202), and for those the model states no bound.
- Exceptions: a raised `Exception` is the `Err` value of `ProcessInput`.
  Aborting the program is not modelled.
