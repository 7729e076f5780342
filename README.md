# Bollinger-band crossing alerts: detection and deduplication

A model, in Dafny, of the signal engine of `bb_cross_bot.py`, a bot that polls 5-minute bars for a
list of symbols, computes Bollinger bands (rolling mean ± mult × population standard deviation
over `BB_LENGTH` bars), detects a crossing of a band on the latest closed bar, and posts one
Discord alert per (symbol, bar timestamp, signal) triple, recorded in a SQLite `alerts` table so
that the same triple is never alerted twice.

Modules, one per component of the script, after a small shared `Types` module (`types.dfy`:
`Option` and the `Instant` timestamp type):

- `Bands` (`bands.dfy`): bars, band values that may be NaN, `compute_bb` (`ComputeBands`) and the
  `dropna` that follows it (`DropUndefined`); the warm-up shape and the band geometry
  (mean within the window, bands ordered, a flat window collapses the band). Prices are exact
  reals; the standard deviation is an input `sd` per bar with `sd >= 0` and `sd * sd` equal to the
  population variance (divisor L) of the trailing window, so no square root is taken.
- `Signals` (`signals.dfy`): `detect_cross` (`DetectCross`), the loose-mode fallback
  (`Classify`) and the backfill diagnostic loop (`Backfill`, proved against the backwards search
  `LatestCrossIndex`). Comparisons with NaN are false, as in IEEE 754.
- `Dedup` (`ledger.dfy`): the `alerts` table as a class `Ledger` whose field is the set of
  (symbol, bar timestamp, signal) keys; `db_init`, `already_sent` and `mark_sent` (INSERT OR IGNORE).
- `Pipeline` (`pipeline.dfy`): `process_symbol` as the specification function `Decide` and the
  method `ProcessSymbol` that updates a `Ledger`; `main` as `Run`, a loop over the symbols that
  skips a symbol whose processing raised. `fetch` is replaced by its result (a `Feed` of bars with
  their `sd` values) and `send_discord` by the boolean it returns.

## Model

| member | source | states |
|---|---|---|
| Bands.ComputeBands | bb_cross_bot.py:87-92 | one row per bar with its timestamp and close; rows before index length-1 have NaN basis, upper and lower (min_periods = length), every later row has all three defined |
| Bands.DropUndefined | bb_cross_bot.py:141 | the kept rows are all defined and are no more than the input rows |
| Bands.DropUndefinedMembers | bb_cross_bot.py:141 | no defined row is lost: a row is kept exactly when it is an input row with basis, upper and lower all defined |
| Bands.DropUndefinedAppend | bb_cross_bot.py:141 | row order is kept: dropping from a concatenation is the concatenation of dropping from each part |
| Bands.WarmUp | bb_cross_bot.py:88-89 | the number of undefined leading rows is below n exactly when at least length bars were fetched |
| Bands.DefinedBarsAreTheTail | bb_cross_bot.py:140-141 | after compute_bb and dropna exactly the rows from index length-1 on remain, in order |
| Bands.LastTwoDefinedAreLastTwoBars | bb_cross_bot.py:141-162 | when two rows survive dropna, `iloc[-2]` and `iloc[-1]` are the banded forms of the last two fetched bars |
| Bands.TooFewBarsLeaveNoPair | bb_cross_bot.py:141-145 | at least two defined rows remain if and only if at least length+1 bars were fetched |
| Bands.MeanWithin | bb_cross_bot.py:88 | the rolling mean lies between any lower and upper bound of the window's closes |
| Bands.BasisWithinWindow | bb_cross_bot.py:88 | every defined basis lies between the lowest and highest close of its trailing window |
| Bands.FlatWindowStatistics | bb_cross_bot.py:88-89 | a window of one repeated close c has mean c and population variance 0 |
| Bands.BandsOrdered | bb_cross_bot.py:89-91 | with mult >= 0 and sd the population standard deviation, lower <= basis <= upper on every defined row |
| Bands.FlatWindowCollapses | bb_cross_bot.py:88-91 | over a window of one repeated close c, basis, upper and lower are all c |
| Signals.DetectCross | bb_cross_bot.py:94-101 | CROSS_ABOVE exactly when both uppers are defined, prev close <= prev upper and cur close > cur upper; CROSS_BELOW exactly when that fails and the mirrored lower-band condition holds; nothing otherwise |
| Signals.Classify | bb_cross_bot.py:164-171 | a strict result is kept; with loose mode off nothing else is reported; OUTSIDE_ABOVE exactly when loose, no strict result and cur close > cur upper; OUTSIDE_BELOW exactly when loose, no strict result, not above and cur close < cur lower |
| Signals.UndefinedBandsNeverSignal | bb_cross_bot.py:95-98 | a NaN band on either bar rules out the strict crossing of that band, a NaN band on the current bar rules out the loose signal on that side, and a current bar without bands never signals |
| Signals.StrictCrossingsExclusive | bb_cross_bot.py:95-101 | with non-inverted current bands the two strict conditions never both hold, so CROSS_BELOW is reported exactly when its condition holds |
| Signals.AbovePriorityOnInvertedBands | bb_cross_bot.py:99-100 | on inverted bands both strict conditions can hold, and CROSS_ABOVE is then reported |
| Signals.NoRepeatedCrossing | bb_cross_bot.py:95-98 | edge triggering: a bar that crossed a band cannot cross the same band on the next pair |
| Signals.RisingThroughUpperFiresOnce | bb_cross_bot.py:95-99 | for closes at or below the upper band before bar k and above it from k on, CROSS_ABOVE fires on the pair ending at k and on no other |
| Signals.WithinBandNoSignal | bb_cross_bot.py:166-171 | a close within [lower, upper] yields no signal, for any previous bar, in either mode |
| Signals.SignalMatchesSide | bb_cross_bot.py:164-169 | an ABOVE signal means the current close exceeds the upper band, a BELOW signal that it undercuts the lower band |
| Signals.LooseSignalsWhileOutside | bb_cross_bot.py:166-169 | in loose mode a close above (below) non-inverted bands always yields an ABOVE (BELOW) kind, and a close inside them none, so loose mode fires on every bar spent outside |
| Signals.FlatSeriesNeverSignals | bb_cross_bot.py:87-101 | over a series of identical closes no pair of defined rows yields any signal, strict or loose |
| Signals.LatestCrossIndex | bb_cross_bot.py:150-155 | the result is the end index of a crossing pair with no crossing pair after it, or None when no pair crosses |
| Signals.LatestCrossIndexExtend | bb_cross_bot.py:151-155 | scanning one more pair: it becomes the latest crossing if it crosses, else the latest crossing is unchanged |
| Signals.Tail | bb_cross_bot.py:149 | the last min(n, len) rows |
| Signals.Backfill | bb_cross_bot.py:148-159 | the forward loop that overwrites last_sig/last_ts reports the kind and timestamp of the latest crossing pair among the last max(2, lookback) defined rows, or that none of them crossed; it modifies nothing |
| Dedup.Ledger.Open | bb_cross_bot.py:62-73 | opening the table keeps the rows of earlier runs |
| Dedup.Ledger.AlreadySent | bb_cross_bot.py:75-79 | true if and only if the exact triple has a row |
| Dedup.Ledger.MarkSent | bb_cross_bot.py:81-84 | insert-if-absent: the triple is present afterwards, inserting a present triple changes nothing, and no other triple gains or loses its row |
| Pipeline.LatestPair | bb_cross_bot.py:141-162 | a pair to compare exists exactly when length+1 bars were fetched, and it is the last two fetched bars with their bands |
| Pipeline.Decide | bb_cross_bot.py:133-195 | a key is only sent when it is absent from the ledger; a present key is suppressed; delivered and failed outcomes follow the send result; every key carries the processed symbol |
| Pipeline.Record | bb_cross_bot.py:194-195 | the ledger never shrinks and gains at most the delivered key, and only on delivery |
| Pipeline.ProcessSymbol | bb_cross_bot.py:133-195 | the outcome is Decide's on the ledger as it was, the new ledger is Record of the old one and that outcome, and the backfill report is produced exactly when enabled and two defined rows exist |
| Pipeline.ShortSeriesSkipped | bb_cross_bot.py:134-145 | fewer than length+1 bars end as no data or insufficient bars, before detection, send or ledger change |
| Pipeline.SignalOnLatestBar | bb_cross_bot.py:162-180 | every checked, sent or recorded key has the latest fetched bar's timestamp and the classification of the last two fetched bars, which requires length+1 bars |
| Pipeline.LatestSignalIsActedOn | bb_cross_bot.py:162-195 | with length+1 bars, a signal on the last two bars is always acted on: its key (symbol, last bar's timestamp, signal) is suppressed when already recorded, else sent, ending Delivered or SendFailed as the send returns; no signal on them ends as NoSignal |
| Pipeline.StrictModeSignalsOnlyCrossings | bb_cross_bot.py:164-171 | with loose mode off every key is CROSS_ABOVE or CROSS_BELOW |
| Pipeline.NotifiedAtMostOnce | bb_cross_bot.py:179-183 | a key already in the ledger is never sent, and after a delivery a rerun on the same data is suppressed whatever the sink would answer |
| Pipeline.RetriedAfterFailedSend | bb_cross_bot.py:194-195 | a failed send leaves the ledger unchanged, the next run on the same data sends the same key, and a successful send records it |
| Pipeline.TryProcessSymbol | bb_cross_bot.py:202-206 | an exception yields Raised with the ledger untouched; otherwise the outcome and ledger change are process_symbol's |
| Pipeline.Run | bb_cross_bot.py:197-206 | every symbol is processed in order against the ledger its predecessors left, a raising symbol is skipped, the ledger grows by exactly the delivered keys, and no key is delivered twice in a run or delivered when already recorded |

## Left out

- Data retrieval (`fetch`, yfinance) and its timezone normalisation: a `Feed` of bars is an input; timestamps are integers standing for normalised UTC instants, and the ledger key uses them directly where the script uses their ISO text, which is one-to-one on normalised instants.
- `send_discord`: its boolean result is an input; the message text, the emoji table, the DRY_RUN print and the HTTP call are not modelled.
- The rolling standard deviation's square root and all floating-point behaviour: prices are exact reals, `sd` is supplied per bar, and closes are never NaN.
- SQLite connections, transactions and cross-process atomicity: the table is a set held by one `Ledger` object.
- Configuration parsing, the exit on a missing webhook, the `.state` directory, logging, `tv_symbol`, `fmt_ts` and the `time.sleep` pacing. `BB_LENGTH >= 1` is assumed. A zero window (every band NaN, so every symbol is reported as having insufficient bars) and a negative one (compute_bb raises and main skips every symbol) are not modelled.
- Pipeline.Run: an exception is modelled only as happening before any ledger write (`Fails`); an exception raised by `mark_sent` after a successful send, which would leave a sent alert unrecorded, is not modelled.
- Signals.Backfill: its report is only logged by the script; the model returns it from `ProcessSymbol` instead of printing it.
