# calc_mvp: the MVP screening rule, verified

calc_mvp screens stocks with the "MVP" rule. The rule has three factors:

- **M**omentum: the price rose on at least 12 of the 14 day-over-day steps
  of the 15-day window.
- **V**olume: volume grew by at least 25% over those 15 days.
- **P**rice: price grew by at least 20% over those 15 days.

The program reads each symbol's 15 most recent prices and volumes from a
database, newest first. It pads or truncates them to 15 slots and keeps the
symbols that pass. It then sends one message that lists those symbols, or
says that none passed.

This Dafny project models the three parts of `src/main.rs` that hold the logic:

- `screening.dfy`, module `Screening`: the record `StockRecord` and the rule
  `check_mvp`. It has the method `CheckMvp`, the predicate `Mvp` that
  specifies it, and lemmas about the thresholds and the tests of
  `src/main.rs`.
- `fetch.dfy`, module `Fetch`: the loop after the query in
  `fetch_stock_records`. It turns each row into a record: a missing list
  becomes empty, and the list is copied into a zero-filled 15-slot buffer in
  place, keeping at most 15 entries. This module also proves that a short
  history "fails closed", meaning the rule always rejects it.
- `report.dfy`, module `Report`: the filter in `main` and the message built
  with `push_str` and two `pop`s. The model proves that this message is the
  prefix followed by the symbols joined by `", "`.

Modelling choices:

- A `Decimal` is an exact `real`, and an `i64` volume is an unbounded `int`.
- The 15-slot record arrays are Rust value arrays. They become sequences of
  length 15, enforced by the subset types `Prices` and `Volumes`. The padding
  still works on a local `array` filled in place.
- The momentum test `up_days as f64 / 14.0 > 0.8` is kept as an exact ratio in
  `CheckMvp`. `MomentumThreshold` proves that it equals `up_days >= 12`, which
  is the form `Mvp` uses. The only possible ratios are k/14 for k = 0..14.
  11/14 ≈ 0.786 and 12/14 ≈ 0.857 are far from 0.8, so the `f64` comparison
  gives the same answer.
- Every division in `CheckMvp` is checked by the verifier to have a non-zero
  denominator. So the fact that `CheckMvp` verifies also shows that no
  division by zero is possible.

Three facts about the code that the model keeps:

- `check_mvp` returns only a `bool`. It keeps no per-factor diagnostics and no
  reason code. The reasons appear only in console output.
- A list that is too short or too long is padded or truncated silently. The
  code does not reject it.
- The code checks the volume guard before the price guard. Both guards return
  `false`, so the order can be seen only in the console output.

## Model

| member | source | states |
|---|---|---|
| `Screening.UpDaysIn` | src/main.rs:87-92 | the up-day counter over the first n comparisons never exceeds n |
| `Screening.UpDaysInCountsRises` | src/main.rs:87-92 | the counter equals the number of positions i < n with prices[i] > prices[i+1] (strict: equal prices are not a rise) |
| `Screening.UpDaysInAllRises` | src/main.rs:87-92 | the counter reaches n exactly when every one of the n comparisons is a rise |
| `Screening.UpDaysInNoRises` | src/main.rs:87-92 | the counter is 0 exactly when no comparison is a rise |
| `Screening.MomentumThreshold` | src/main.rs:93 | the ratio test up_days / 14 > 0.8 holds exactly when up_days >= 12 |
| `Screening.CheckMvp` | src/main.rs:86-119 | returns true iff volumes[14] ≠ 0, prices[14] ≠ 0, at least 12 of the 14 comparisons are rises, (v0 − v14)/v14 ≥ 0.25 and (p0 − p14)/p14 ≥ 0.20; every division happens after the guard on its denominator |
| `Screening.ZeroBaselineFails` | src/main.rs:96-107 | a zero baseline volume, or a zero baseline price, makes the rule false whatever the other values |
| `Screening.VolumeGrowthThreshold` | src/main.rs:100-101 | for a non-zero baseline, the volume ratio is at least 0.25 exactly when 4·v0 ≥ 5·v14 (≤ for a negative baseline), so the test is inclusive |
| `Screening.PriceGrowthThreshold` | src/main.rs:108-109 | for a non-zero baseline, the price ratio is at least 0.20 exactly when 5·p0 ≥ 6·p14 (≤ for a negative baseline), so the test is inclusive |
| `Screening.MvpWithPositiveBaselines` | src/main.rs:111-118 | with positive baselines the rule holds iff up-days ≥ 12, 4·v0 ≥ 5·v14 and 5·p0 ≥ 6·p14 |
| `Screening.AllRisesGiveFullMomentum` | src/main.rs:88-92 | a window that rises at every step has 14 up-days |
| `Screening.RisingSeriesPasses` | src/main.rs:133-149 | prices 134 down to 110 and volumes 2900 down to 1500 (newest first) pass |
| `Screening.ConstantSeriesFails` | src/main.rs:150-158 | all prices 100 and all volumes 1000 fail |
| `Screening.VolumeBoundaryPasses` | src/main.rs:180-197 | volume 1250 against 1000 (exactly 25%) with 14 rises and price 120 against 90 passes |
| `Screening.VolumeBelowBoundaryFails` | src/main.rs:199-216 | volume 1249 against 1000 fails with the same kind of price series |
| `Screening.ExactThresholdsPass` | src/main.rs:112-113 | price exactly 20% and volume exactly 25% above their baselines, with 14 rises, pass |
| `Fetch.Padded` | src/main.rs:63-70 | the window has 15 slots, and slot i is the input's i-th entry when there is one, otherwise zero |
| `Fetch.PadWindow` | src/main.rs:63-70 | filling the zero-initialised buffer in place yields exactly the padded window |
| `Fetch.FetchStockRecords` | src/main.rs:58-77 | one record per row, in row order, each the row's padded record |
| `Fetch.RecordOfSlots` | src/main.rs:72-76 | a record keeps its row's symbol, holds the row's entries or 0 in every slot, and is all zeros for a missing list |
| `Fetch.PaddedIgnoresTail` | src/main.rs:65-69 | entries beyond the 15th do not change the window |
| `Fetch.ShortHistoryFails` | src/main.rs:63-70 | a row with fewer than 15 volumes or fewer than 15 prices yields a record the rule rejects |
| `Report.Matching` | src/main.rs:25 | a record is among the matches exactly when it is in the input and passes the rule, and there are never more matches than records (the definition keeps input order) |
| `Report.FilterMvp` | src/main.rs:25 | running `CheckMvp` over the records in turn keeps exactly `Matching(records)` |
| `Report.Symbols` | src/main.rs:32-34 | the k-th symbol is the k-th record's symbol |
| `Report.TerminatedIsJoinPlusSeparator` | src/main.rs:31-37 | pushing symbol then ", " for each symbol gives the join plus one trailing ", ", so two pops give the join |
| `Report.BuildMessage` | src/main.rs:27-39 | no matches give exactly the no-match text; otherwise the message is the prefix and the symbols in order joined by ", ", with no trailing separator |
| `Report.ReportMessage` | src/main.rs:25-39 | the message sent is built from exactly the records that pass the rule |
| `Report.NoMatchIffNothingPasses` | src/main.rs:25-27 | the match list is empty exactly when no record passes |
| `Report.MatchMessageIsNotNoMatch` | src/main.rs:29-31 | a match message never equals the no-match text |

## Left out

- The database connection, `dotenv` and the `DATABASE_URL` lookup (src/main.rs:121-125) are environment and network I/O.
- The SQL query (src/main.rs:45-56) runs in the database. Its rows are a given sequence of `Fetch.Row`. Its order for two rows with the same symbol and date is defined by the database and is not modelled.
- The query's error result and the `?` propagation are left out, because they are I/O failures.
- `send_slack_message` and the `slack` module are not part of this model. They are an outbound HTTP call. Only the message string they would receive is modelled.
- `println!` diagnostics (src/main.rs:28, 97, 105, 115) are output side effects only.
- The `tokio` async runtime is left out. Everything runs sequentially, which gives the same result.
- Screening.CheckMvp: does not model `f64` arithmetic. The momentum ratio is an exact real, and `MomentumThreshold` shows that it equals the integer test. 11/14 and 12/14 are far from 0.8, so no rounding can flip the result.
- Screening.CheckMvp: does not model `rust_decimal`'s 28-digit division rounding or its overflow. Decimals are exact reals and volumes are unbounded integers. Both volumes are converted exactly to `Decimal` before they are subtracted, and the difference of two `i64` values always fits in a `Decimal`, so the unbounded `int` loses nothing there.
