# green-metrics-ci in Dafny

This project is a model of the analysis core of green-metrics-ci. The experiment compares three
CI strategies (`baseline`, `parallel` test execution and `tia`, test impact analysis) by the time,
CPU and energy their GitHub Actions runs consume. The model covers four parts:

- **`/usr/bin/time -v` reports** (`scripts/analyze_simple_metrics.py`, module `TimeReport`):
  - each report is read into a record whose keys exist only where a pattern matched;
  - records with no key are dropped;
  - the derived columns are added: CPU total, estimated energy at 15 W per core, and the
    energy-delay product (EDP);
  - the hypothesis tests are gated on group sizes, and their percentages computed;
  - the descriptive report visits the strategies in a fixed order.
- **Eco-CI figures in Actions logs** (`scripts/extract_from_logs.py`, module `LogExtract`):
  - the energy, duration and CO2 patterns and their unit conversions;
  - strategy identification from the log text;
  - the loop that keeps a run only when it reports a non-zero energy.
- **Eco-CI JSON output** (`scripts/metrics.py`, module `EcoCi`):
  - round and strategy are decoded from the file path, and the four values from the JSON object;
  - files that raise are skipped;
  - `calcular_edp` extends the frame in place;
  - the H1 energy reduction and the H2 EDP increase are computed.
- **The CPU workload** the experiment's test suites run (`src/app.py`, module `Workload`).

Four shared modules support them:

- `Wrappers`: `Option`, `Result`, and keeping the present elements of a sequence.
- `Text`: character classes, Python `int()` on digit strings, `str.split`, `in` on strings, ASCII `lower()`.
- `Scan`: the handful of regular expressions the scripts use, as hand-written matchers with leftmost search and `findall`.
- `Summary`: pandas means that skip missing values, and the two percentage formulas.

Modelling choices:

- A Python dictionary whose keys appear one by one is a datatype of `Option` fields. `None` stands for a key that was never set.
- Pandas NaN and division by zero are `None`.
- An exception is a `Failure` carrying the exception's name (`KeyError` is named by its missing key).
- The data frames that the scripts extend column by column are classes whose methods reassign those columns.

## Model

| member | source | states |
|---|---|---|
| TimeReport.WordField | scripts/analyze_simple_metrics.py:22-26 | set iff the pattern matches; the value is the lower-cased captured word, which is non-empty and has no upper-case letter |
| TimeReport.DigitsField | scripts/analyze_simple_metrics.py:23-28 | set iff the pattern matches; the value is the captured `\d+` text, a non-empty run of digits |
| TimeReport.IntField | scripts/analyze_simple_metrics.py:49-67 | set iff the pattern matches; the value is `int()` of the captured digits |
| TimeReport.DecimalField | scripts/analyze_simple_metrics.py:39-46 | set iff the pattern matches; the value is `float()` of the captured `\d+\.\d+`, hence non-negative |
| TimeReport.ClockSeconds | scripts/analyze_simple_metrics.py:34-36 | `minutes * 60 + seconds` lies between 60·m + s and 60·m + s + 1 (whole seconds plus a fraction below one) |
| TimeReport.ClockField | scripts/analyze_simple_metrics.py:32-36 | set iff the pattern matches; the value is 60 × the captured minutes plus `float()` of the captured seconds |
| TimeReport.LastPassed | scripts/analyze_simple_metrics.py:70-72 | set iff `findall` of `(\d+) passed` is non-empty; the value is `int()` of its last capture |
| TimeReport.Megabytes | scripts/analyze_simple_metrics.py:57 | megabytes times 1024 is the kilobyte count |
| TimeReport.Parsed | scripts/analyze_simple_metrics.py:14-74 | each key is present iff its pattern matched (the test count iff `findall` found one); `mem_max_kb` and `mem_max_mb` are set together and agree by the factor 1024; the time fields are non-negative |
| TimeReport.ParseTimeOutput | scripts/analyze_simple_metrics.py:19-74 | the dictionary built key by key is the record `Parsed` describes |
| TimeReport.ElapsedOf | scripts/analyze_simple_metrics.py:32-36 | in any report whose first elapsed match is `M:SS.ss`, `tempo_s` is 60·M + SS.ss |
| TimeReport.ElapsedMinutes | scripts/analyze_simple_metrics.py:31-36 | a report in which `Elapsed` first occurs at the start of the line `Elapsed …: M:SS.ss` has `tempo_s` = 60·M + SS.ss; other lines starting with `E`, such as `Exit status`, do not matter |
| TimeReport.ElapsedHours | scripts/analyze_simple_metrics.py:31-36 | a report where `Elapsed` occurs only at the heading of a line reading `h:mm:ss` has no `tempo_s`, whatever other `E` lines (such as `Exit status: 0`) it holds |
| TimeReport.UserSeconds | scripts/analyze_simple_metrics.py:39-41 | a report in which `User time` first occurs at the start of the line `User time …: I.F` has `cpu_user_s` = I.F |
| TimeReport.SystemSeconds | scripts/analyze_simple_metrics.py:44-46 | a report in which `System time` first occurs at the start of the line `System time …: I.F` has `cpu_sys_s` = I.F |
| TimeReport.CountOf | scripts/analyze_simple_metrics.py:70-72 | in any report whose last `N passed` capture is N, `testes_executados` is N |
| TimeReport.LastCountWins | scripts/analyze_simple_metrics.py:70-72 | a report `a + "N passed" + b`, with no digit before N or anywhere in b, has `testes_executados` = N whatever counts `a` holds |
| TimeReport.Record | scripts/analyze_simple_metrics.py:82-89 | a walked file gives a record exactly when it is named `metrics.txt`, is readable and parses to a non-empty dictionary; that record is the parse |
| TimeReport.Loaded | scripts/analyze_simple_metrics.py:88-89 | every loaded record comes from some walked file |
| TimeReport.LoadedExactly | scripts/analyze_simple_metrics.py:88-89 | every file that yields a record is loaded, and no loaded record is empty |
| TimeReport.NoLabelInEmpty | scripts/analyze_simple_metrics.py:22-67 | no labelled pattern matches the empty text |
| TimeReport.EmptyReportDropped | scripts/analyze_simple_metrics.py:88-89 | an empty `metrics.txt` parses to an empty dictionary and is dropped |
| TimeReport.LoadAllMetrics | scripts/analyze_simple_metrics.py:76-94 | the walking loop collects exactly `Loaded(files)` |
| TimeReport.EdpCell | scripts/analyze_simple_metrics.py:99-107 | a row's EDP is present iff user, system and elapsed time are, and equals (user + sys) · 15 · elapsed |
| TimeReport.DerivedExample | scripts/analyze_simple_metrics.py:99-107 | 6 s user + 4 s system over 10 s gives 150 J and 1500 J·s |
| TimeReport.WorkedExample | scripts/analyze_simple_metrics.py:96-109 | one run per strategy: baseline 10 s with 6 + 4 s CPU, parallel 4 s with 3 + 1 s, tia 2 s with 1 + 1 s give energies 150/60/30 J and EDPs 1500/240/60 J·s |
| TimeReport.WorkedReduction | scripts/analyze_simple_metrics.py:129 | in that example the H1 reduction of tia's mean time below baseline's is 80 % |
| TimeReport.WorkedChange | scripts/analyze_simple_metrics.py:140 | in that example the H2 change of parallel's mean EDP against baseline's is −84 % |
| TimeReport.WorkedMeans | scripts/analyze_simple_metrics.py:117-119 | with one run per strategy, the baseline group's mean is the baseline row's value and another strategy's mean is its row's value |
| TimeReport.OneRunEach | scripts/analyze_simple_metrics.py:117-119 | runs baseline, parallel, tia in that order form the groups [0], [1] and [2] |
| TimeReport.WorkedExampleSkipped | scripts/analyze_simple_metrics.py:121-137 | with only those three runs, both hypothesis tests are skipped by the sample-size gate |
| TimeReport.GroupRows | scripts/analyze_simple_metrics.py:117-119 | the selected rows are exactly those whose strategy equals the name, in increasing order |
| TimeReport.GroupSize | scripts/analyze_simple_metrics.py:117-121 | `len(subset)` is at most the number of records, and is 0 iff no record has that strategy |
| TimeReport.GroupMean | scripts/analyze_simple_metrics.py:129-140 | `subset[col].mean()` exists iff some row of the strategy holds a value in the column; an empty strategy has no mean |
| TimeReport.GroupHasValue | scripts/analyze_simple_metrics.py:129-140 | the group keeps a value iff one of its rows holds one |
| TimeReport.SoleRow | scripts/analyze_simple_metrics.py:117-119 | a strategy with exactly one row k has the group [k] |
| TimeReport.SingleMean | scripts/analyze_simple_metrics.py:129 | a group of one row holding v has mean v |
| TimeReport.MetricsFrame.CalcularMetricasDerivadas | scripts/analyze_simple_metrics.py:96-109 | adds `cpu_total_s`, then `energia_estimada_j`, then `edp`; a missing input column raises `KeyError` and leaves the later columns unset |
| TimeReport.MetricsFrame.TesteHipoteses | scripts/analyze_simple_metrics.py:111-143 | stops with insufficient data exactly when baseline or tia is empty, and otherwise either runs the tests or fails; H1 runs iff baseline and tia both have ≥ 3 rows and then prints `PercentReduction` of the tia mean `tempo_s` from the baseline mean; H2 runs iff baseline and parallel both have ≥ 3 rows and then prints `PercentChange` of the parallel mean `edp` from the baseline mean; `KeyError` on `tempo_s` only when the H1 gate is open and the column is missing, on `edp` only when the H2 gate is open, the column is missing and H1 did not fail first; success needs the `estrategia` column |
| TimeReport.MetricsFrame.H1Runs | scripts/analyze_simple_metrics.py:127-129 | with ≥ 3 baseline and ≥ 3 tia rows and `tempo_s` present, H1 is compared unless H2 is due without `edp` |
| TimeReport.MetricsFrame.MissingEdpFails | scripts/analyze_simple_metrics.py:137-140 | with the H2 gate open, `edp` missing and H1 not failing first, the tests stop with `KeyError` on `edp` |
| TimeReport.MetricsFrame.SmallBaselineSkips | scripts/analyze_simple_metrics.py:121-137 | with baseline and tia present but fewer than 3 baseline rows, both tests are skipped |
| TimeReport.MetricsFrame.Summarize | scripts/analyze_simple_metrics.py:156-164 | a block counts its group's rows and exists iff every printed column exists; the test mean appears iff `testes_executados` is a column |
| TimeReport.MetricsFrame.Report | scripts/analyze_simple_metrics.py:151-164 | at most one block per strategy; an error is one of the columns the report reads |
| TimeReport.MetricsFrame.ReportNames | scripts/analyze_simple_metrics.py:151-154 | without an error, the blocks name exactly the strategies with rows, in visiting order; in any case a prefix of them |
| TimeReport.MetricsFrame.ReportCounts | scripts/analyze_simple_metrics.py:152-156 | each block's `n` is the size of its strategy's group |
| TimeReport.MetricsFrame.ReportStops | scripts/analyze_simple_metrics.py:157-162 | once a `KeyError` is raised, later strategies add nothing |
| TimeReport.MetricsFrame.ReportExtends | scripts/analyze_simple_metrics.py:151-164 | one step of the loop: skip an empty group, stop on an error, otherwise append the block |
| TimeReport.MetricsFrame.GerarRelatorio | scripts/analyze_simple_metrics.py:145-164 | the loop over baseline, parallel, tia produces `Report(Strategies)` |
| TimeReport.NamesAppend | scripts/analyze_simple_metrics.py:156 | appending a block appends its strategy name |
| TimeReport.WithRowsGrows | scripts/analyze_simple_metrics.py:151-154 | the strategies with rows among a prefix are a prefix of those among the whole list |
| Summary.Mean | scripts/analyze_simple_metrics.py:129 | a mean exists iff there is at least one value |
| Summary.SumBounds | scripts/analyze_simple_metrics.py:129 | a sum of values within [lo, hi] lies within [n·lo, n·hi] |
| Summary.MeanBounds | scripts/analyze_simple_metrics.py:129 | the mean of values within [lo, hi] lies within [lo, hi] |
| Summary.MeanOfConstant | scripts/analyze_simple_metrics.py:129 | the mean of a constant group is that constant |
| Summary.PercentReduction | scripts/analyze_simple_metrics.py:129 | defined iff both means exist and the base is non-zero; then other = base · (1 − r/100) |
| Summary.PercentChange | scripts/analyze_simple_metrics.py:140 | defined iff both means exist and the base is non-zero; then other = base · (1 + r/100) |
| Summary.ReductionIsNegatedChange | scripts/metrics.py:62 | the reduction is the negated change, and both are defined together |
| Summary.ReductionWithinPercent | scripts/metrics.py:62 | a group whose mean lies between 0 and a positive baseline is reduced by 0–100 % |
| Scan.Search | scripts/analyze_simple_metrics.py:22 | a search result is a match at a position at or after the start |
| Scan.First | scripts/analyze_simple_metrics.py:22 | the first match’s groups are well formed and shaped like the pattern |
| Scan.SearchFrom | scripts/analyze_simple_metrics.py:22 | with no match between the start and p, the search reports the match at p |
| Scan.FirstHere | scripts/analyze_simple_metrics.py:22 | a match at the start of the text is the first match |
| Scan.SearchHere | scripts/extract_from_logs.py:50 | a match at the start position is what the search reports |
| Scan.SearchNone | scripts/extract_from_logs.py:50 | with no matching position, the search finds nothing |
| Scan.FindAll | scripts/analyze_simple_metrics.py:70 | every `findall` capture is well formed and shaped like the pattern |
| Scan.FindAllHere | scripts/analyze_simple_metrics.py:70 | a match at i is the next `findall` element, which resumes where the match ends |
| Scan.FindAllSkip | scripts/analyze_simple_metrics.py:70 | without a match at i, `findall` moves on to i + 1 |
| Scan.FindAllNone | scripts/analyze_simple_metrics.py:70 | with no match from i on, `findall` is empty |
| Scan.FindAllLast | scripts/analyze_simple_metrics.py:70-72 | a match at p that every earlier match ends before, with nothing matching after it, is the last `findall` element |
| Scan.ClockLine | scripts/analyze_simple_metrics.py:32 | a text laid out as `pre heading: M:SS.ss rest`, where the tag starts nowhere in pre, has the clock groups (M, SS, ss) as its first elapsed match |
| Scan.ClockText | scripts/analyze_simple_metrics.py:32 | the same for the concatenated text |
| Scan.ClockAtNoPoint | scripts/analyze_simple_metrics.py:32 | digits, a colon and digits followed by neither a point nor a digit are no clock match, as in `h:mm:ss` |
| Scan.HoursLine | scripts/analyze_simple_metrics.py:31-32 | a line `heading: h:mm:ss` in a text where the tag starts nowhere but at the heading has no elapsed match |
| Scan.HoursText | scripts/analyze_simple_metrics.py:31-32 | the same for the concatenated text |
| Scan.DecimalLine | scripts/analyze_simple_metrics.py:39-46 | a text laid out as `pre heading: I.F rest`, where the tag starts nowhere in pre, has the groups (I, F) as its first match |
| Scan.DecimalText | scripts/analyze_simple_metrics.py:39-46 | the same for the concatenated text |
| Scan.PassedLast | scripts/analyze_simple_metrics.py:70-72 | digits at [p, n) followed by ` passed`, with no digit before p or after the word, are the last `findall` capture |
| Scan.PassedText | scripts/analyze_simple_metrics.py:70-72 | the same for `a + N + " passed" + b` |
| Scan.MeasuredLine | scripts/extract_from_logs.py:50 | `heading: I unit` or `heading: I.F unit`, with the tag in any case, is one match capturing I, F and the unit as written |
| Scan.MeasuredAbsent | scripts/extract_from_logs.py:57 | a text in which the tag occurs nowhere, in either case, has no match |
| LogExtract.Reading | scripts/extract_from_logs.py:51-53 | a reading exists iff the pattern matches; its value is `float` of the first match's `I.F` (so non-negative) and its unit is the captured unit |
| LogExtract.EnergyField | scripts/extract_from_logs.py:50-54 | energy is set iff the energy pattern matches, and is the first match's `I.F` kept for unit `mJ` and multiplied by 1000 otherwise |
| LogExtract.DurationField | scripts/extract_from_logs.py:57-61 | duration is set iff the duration pattern matches, and is the first match's `I.F` kept for unit `ms` and multiplied by 1000 otherwise |
| LogExtract.Co2Field | scripts/extract_from_logs.py:64-68 | CO2 is set iff the CO2 pattern matches, and is the first match's `I.F` kept for unit `g` and divided by 1000 otherwise |
| LogExtract.Millijoules | scripts/extract_from_logs.py:54 | `mJ` keeps the value, any other unit multiplies it by 1000; a non-negative value stays non-negative and does not shrink |
| LogExtract.Milliseconds | scripts/extract_from_logs.py:61 | `ms` keeps the value, any other unit multiplies it by 1000 |
| LogExtract.Grams | scripts/extract_from_logs.py:68 | `g` keeps the value, any other unit divides it by 1000 |
| LogExtract.Extracted | scripts/extract_from_logs.py:36-70 | keeps the run ID; each figure is set iff its pattern matches |
| LogExtract.ExtractMetricsFromLog | scripts/extract_from_logs.py:42-70 | the dictionary overwritten field by field is `Extracted(log, runId)` |
| LogExtract.ReadingOfLine | scripts/extract_from_logs.py:50-53 | `heading: I unit` or `heading: I.F unit` reads as (I.F, unit) |
| LogExtract.ReadingOfFirst | scripts/extract_from_logs.py:51-53 | any first match, with or without a fraction, reads as its `I.F` with its unit kept |
| LogExtract.EnergyUnits | scripts/extract_from_logs.py:50 | the energy unit group accepts `mJ`, `J` and, ignoring case, `mj` |
| LogExtract.EnergyHeadings | scripts/extract_from_logs.py:50 | `ENERGY` matches the tag `Energy` ignoring case |
| LogExtract.DurationUnits | scripts/extract_from_logs.py:57 | the duration unit group accepts `ms` and `s` |
| LogExtract.Co2Units | scripts/extract_from_logs.py:64 | the CO2 unit group accepts `g` and `mg` |
| LogExtract.EnergyInMillijoules | scripts/extract_from_logs.py:50-54 | `Energy: I.F mJ` is I.F millijoules |
| LogExtract.EnergyInJoules | scripts/extract_from_logs.py:50-54 | `Energy: I.F J` is 1000·I.F millijoules |
| LogExtract.EnergyUnitCaseSensitive | scripts/extract_from_logs.py:50-54 | `ENERGY: I.F mj` matches, but the case-sensitive unit test scales it by 1000 |
| LogExtract.DurationInMilliseconds | scripts/extract_from_logs.py:57-61 | `Duration: I.F ms` is I.F milliseconds |
| LogExtract.DurationInSeconds | scripts/extract_from_logs.py:57-61 | `Duration: I.F s` is 1000·I.F milliseconds |
| LogExtract.Co2InGrams | scripts/extract_from_logs.py:64-68 | `CO2: I.F g` is I.F grams |
| LogExtract.Co2InMilligrams | scripts/extract_from_logs.py:64-68 | `CO2: I.F mg` is I.F/1000 grams |
| LogExtract.EnergyDecimalExample | scripts/extract_from_logs.py:50-54 | the log `Energy: 1.5 J` has energy 1500 mJ |
| LogExtract.IdentifyStrategy | scripts/extract_from_logs.py:72-80 | the result is one of four names; each name is returned iff the lowered log contains it and no earlier name |
| LogExtract.NamesItself | scripts/extract_from_logs.py:74-79 | each strategy name is lower case and contains itself |
| LogExtract.IdentifiesBaseline | scripts/extract_from_logs.py:74-75 | the text `baseline` is identified as baseline |
| LogExtract.IdentifiesParallel | scripts/extract_from_logs.py:76-77 | the text `parallel` is identified as parallel |
| LogExtract.ParallelIsNotBaseline | scripts/extract_from_logs.py:74-77 | `parallel` does not contain `baseline` |
| LogExtract.IdentifiesTia | scripts/extract_from_logs.py:78-79 | the text `tia` is identified as tia |
| LogExtract.IdentifiesUnknown | scripts/extract_from_logs.py:80 | the text `unknown` is identified as unknown |
| LogExtract.IdentifyStrategyIdempotent | scripts/extract_from_logs.py:72-80 | identifying the identified name gives the same name |
| LogExtract.IdentifyStrategyIgnoresCase | scripts/extract_from_logs.py:74-78 | lowering the log first does not change the strategy |
| LogExtract.RunRecord | scripts/extract_from_logs.py:92-105 | a run is kept iff its log was downloaded, is non-empty and reports a non-zero energy; the record is its extraction plus its strategy |
| LogExtract.Collected | scripts/extract_from_logs.py:101-105 | every collected record is the record of some run |
| LogExtract.CollectedExactly | scripts/extract_from_logs.py:101-105 | every run with a record is collected, and every collected record has a non-zero energy |
| LogExtract.KeptAsWritten | scripts/extract_from_logs.py:101-105 | the loop as written fails only with `TypeError` |
| LogExtract.CollectedAsWritten | scripts/extract_from_logs.py:89-107 | when the loop as written completes, it has collected `Collected(runs)` |
| LogExtract.AsWrittenSucceedsAsKept | scripts/extract_from_logs.py:101-105 | a completed loop as written kept exactly the present records |
| LogExtract.AsWrittenFailsWithoutDuration | scripts/extract_from_logs.py:103 | a kept record without a duration makes the loop raise `TypeError` |
| LogExtract.AsWrittenAgreesWithDurations | scripts/extract_from_logs.py:101-105 | when every kept record has a duration, both loops agree |
| LogExtract.EnergyOnlyLog | scripts/extract_from_logs.py:50-61 | the log `Energy: 5 mJ` has energy 5.0 and no duration |
| LogExtract.NoDurationTag | scripts/extract_from_logs.py:57 | `Duration` occurs nowhere in that log, in either case |
| LogExtract.MissingDurationCrashes | scripts/extract_from_logs.py:101-103 | one run with that log: the loop as written raises `TypeError`, the corrected loop keeps one record |
| LogExtract.CollectFromLogs | scripts/extract_from_logs.py:89-105 | the loop, with a missing duration printed as absent, collects `Collected(runs)` |
| EcoCi.FirstContaining | scripts/metrics.py:24-25 | the index of the first component containing one of the pieces, or none when no component does |
| EcoCi.FirstContainingIs | scripts/metrics.py:24-25 | a qualifying component with no earlier qualifying component is the one picked |
| EcoCi.Rodada | scripts/metrics.py:23-24 | fails with `IndexError` or `ValueError` only; `IndexError` when no component contains `rodada` |
| EcoCi.RoundOfParts | scripts/metrics.py:24 | the same over the already split components |
| EcoCi.RoundNotInteger | scripts/metrics.py:24 | a first round component `rodada-W-…` whose W is not an integer fails with `ValueError` |
| EcoCi.RoundWithoutDash | scripts/metrics.py:24 | a first round component without `-` fails with `IndexError` |
| EcoCi.Estrategia | scripts/metrics.py:23-25 | succeeds iff some component names a strategy, and is that whole component; otherwise `IndexError` |
| EcoCi.StrategyComponent | scripts/metrics.py:25 | the same over the already split components |
| EcoCi.ValueOrZero | scripts/metrics.py:31-34 | `value` when the key holds an object with `value`, else 0 |
| EcoCi.DecodeFile | scripts/metrics.py:18-35 | a file gives a record iff its JSON loads and both its round and its strategy decode; duration in ms is 1000 × `duracao_s` |
| EcoCi.Decoded | scripts/metrics.py:17-39 | every row comes from some file that decodes |
| EcoCi.DecodedKeepsEvery | scripts/metrics.py:36-37 | no file that decodes is skipped |
| EcoCi.ParseEcoCiLogs | scripts/metrics.py:15-39 | the loop with its `try`/`except` collects `Decoded(files)` |
| EcoCi.RoundComponentNamesRound | scripts/metrics.py:24 | `rodada-N-…` contains `rodada` |
| EcoCi.RoundComponentPieces | scripts/metrics.py:24 | `rodada-N-…` split on `-` begins with `rodada` and the digits of N |
| EcoCi.RoundOfPartsIs | scripts/metrics.py:24 | components whose first round component is `rodada-N-…` are round N |
| EcoCi.RodadaOfPath | scripts/metrics.py:23-24 | the path joined from such components is round N |
| EcoCi.EstrategiaOfPath | scripts/metrics.py:23-25 | a path's strategy is its first strategy-naming component, whole |
| EcoCi.EcoFrame.CalcularEdp | scripts/metrics.py:41-45 | energy in J is the mJ value / 1000 and EDP is J × s, row by row; the records are unchanged |
| EcoCi.EcoFrame.EdpFromRaw | scripts/metrics.py:31-44 | EDP × 10⁶ is the raw millijoules times the raw milliseconds |
| EcoCi.EcoFrame.EnergyReductionAsWritten | scripts/metrics.py:55-62 | defined iff both equality-selected groups are non-empty with a non-zero baseline mean; then the reduction formula holds |
| EcoCi.EcoFrame.EdpIncreaseAsWritten | scripts/metrics.py:73-77 | the same for the EDP increase of parallel over baseline |
| EcoCi.EcoFrame.AsWrittenHypothesesUndefined | scripts/metrics.py:55-77 | when every strategy component also names the round, the baseline group is empty and both percentages are undefined |
| EcoCi.EcoFrame.EnergyReduction | scripts/metrics.py:62 | on the groups selected by named strategy: defined iff both are non-empty with a non-zero baseline mean, and the formula holds |
| EcoCi.EcoFrame.EdpIncrease | scripts/metrics.py:77 | the same for the EDP increase |
| EcoCi.EcoFrame.NamedGroupsKeepRows | scripts/metrics.py:55-62 | with a baseline row and a tia row, both groups hold them and the reduction is defined |
| EcoCi.StrategyOf | scripts/metrics.py:25 | a component names a strategy iff it contains one of the three names; the named one is the first it contains |
| EcoCi.Selected | scripts/metrics.py:55-57 | a selection is no longer than the column; `SelectedAtRows` and `GroupPicks` state which values it holds |
| EcoCi.SelectedRows | scripts/metrics.py:55-57 | the selected rows are exactly those of the group, in increasing order |
| EcoCi.SelectedAtRows | scripts/metrics.py:55-57 | a selection is the column read at the group’s rows, in order |
| EcoCi.GroupPicks | scripts/metrics.py:55-57 | a selection holds the value of every row of the group and only values of such rows |
| EcoCi.EcoFrame.GroupAsWritten | scripts/metrics.py:55-57 | `df[df['estrategia'] == name][column]` is the column at the rows whose strategy equals the name, in order |
| EcoCi.EcoFrame.Group | scripts/metrics.py:55-57 | the same selection by the strategy the row’s component names |
| EcoCi.SelectedKeeps | scripts/metrics.py:55-57 | a row naming the strategy is selected |
| EcoCi.SelectedAll | scripts/metrics.py:55-57 | when every row names the strategy, the group is the whole column |
| EcoCi.SelectedNone | scripts/metrics.py:55-57 | when no row qualifies, the group is empty |
| EcoCi.StrategyNamesNameNoRound | scripts/metrics.py:24-25 | no strategy name contains `rodada` |
| EcoCi.NamesNothing | scripts/metrics.py:24-25 | a component shorter than `rodada` and without `ti` names neither a round nor a strategy |
| EcoCi.LeadingComponentsNameNothing | scripts/metrics.py:13 | `data` and `raw` name neither a round nor a strategy |
| EcoCi.RunDirectoryIsBaseline | scripts/metrics.py:13 | `rodada-1-estrategia-baseline` names the baseline but is not equal to `baseline` |
| EcoCi.DocumentedLayout | scripts/metrics.py:13-35 | a file in the documented layout decodes as round 1 with strategy `rodada-1-estrategia-baseline` |
| EcoCi.DocumentedRound | scripts/metrics.py:13-24 | the documented path `data/raw/rodada-1-estrategia-baseline/eco-ci-output.json` is round 1 |
| EcoCi.DocumentedStrategy | scripts/metrics.py:13-25 | its strategy is the whole component `rodada-1-estrategia-baseline` |
| Workload.FactorialPositive | src/app.py:14-17 | the factorial is at least 1 |
| Workload.FactorialIsProduct | src/app.py:14-17 | n! is the product of 1..n |
| Workload.CpuIntensiveTask | src/app.py:5-17 | `ValueError` iff n < 0; otherwise the loop returns n!, which is at least 1 |
| Wrappers.KeptKeepsEvery | scripts/analyze_simple_metrics.py:88-89 | every present element is kept |
| Wrappers.KeptAppend | scripts/analyze_simple_metrics.py:88-89 | keeping distributes over concatenation, so order is preserved |
| Text.Lower | scripts/extract_from_logs.py:74 | `lower()` keeps the length, leaves no upper-case letter, changes only upper-case letters, each to its lower-case letter |
| Text.LowerIdempotent | scripts/extract_from_logs.py:74-78 | lowering twice is lowering once |
| Text.LowerFixesLowerCase | scripts/extract_from_logs.py:74-78 | a text without upper-case letters is its own lower case |
| Text.PyInt | scripts/metrics.py:24 | `int()` succeeds iff the stripped text is an integer literal, optionally signed |
| Text.PyIntOfDigits | scripts/metrics.py:24 | `int()` of a digit string is its value |
| Text.PyIntNatText | scripts/metrics.py:24 | `int(str(n)) == n` |
| Text.Split | scripts/metrics.py:23-24 | `split` gives at least one piece and no piece holds the separator |
| Text.JoinSplit | scripts/metrics.py:23 | joining the pieces of a split restores the text |
| Text.SplitJoin | scripts/metrics.py:23 | splitting a join of separator-free pieces gives the pieces back |

## Left out

- File and process I/O is left out: `open`, `os.walk`, `glob.glob`, `json.load` text parsing, `gh run view --log`, `subprocess`, `os.makedirs` and writing JSON or CSV. Each becomes an input: a walked file with its optional content, a run with its optional log, a JSON file with its optional decoded object. The walk and glob orders are taken as given.
- Printing is left out, including the `.2f` formatting. The exception is the one place where printing raises (see Findings).
- The statistical tests are left out: `mannwhitneyu`, `wilcoxon`, p-values, `std` and Cohen's d. These need floating point and SciPy. Only the gate that decides whether a test runs and the percentage it prints are modelled.
- In `scripts/metrics.py`, `stats.wilcoxon` and `stats.mannwhitneyu` may raise on empty or unequal groups before the percentage is reached. The model computes the percentages regardless.
- Plotting is left out: `visualizar`, `visualizar_resultados`, the `gerar_relatorio` of `scripts/metrics.py` and the figure scripts.
- `scripts/orchestrator.py` and `scripts/run_experiment.py` are not part of this model.
- `memory_intensive_task` and `io_simulation` are left out: they use randomness, sorting and sleeping, and nothing in the analysis reads their results.
- Floating point is modelled as exact reals, with NaN and infinity as `None`. Pandas `mean` skips missing cells, and a mean over no cell is `None`.
- Case folding is ASCII only: `str.lower()`, `re.IGNORECASE`, `\w` and `\d` are ASCII in the model. `\s` is Python's whitespace set.
- Regular expressions are modelled pattern by pattern, as matchers with leftmost search. General backtracking is not modelled; none of these patterns needs it.
- The path separator `os.sep` is taken to be `/`.
- `load_all_metrics` (around each `parse_time_output` call) and `parse_eco_ci_logs` catch every exception; `parse_time_output` itself catches none. The model fails in exactly the places where these exceptions are raised. Exceptions from reading a file are the file's content being `None`.
- TimeReport.MetricsFrame.Report: its own ensures states only the bounds and the possible errors. The order and the counts of its blocks are stated by `ReportNames` and `ReportCounts`.
- Workload.CpuIntensiveTask: the error keeps only the exception's class name, not its message text.
- EcoCi.EcoJson: the loaded JSON document is an object, and each entry in it is either absent or an object. A document that is a list, a number or a string makes `data.get` raise `AttributeError` at `scripts/metrics.py:31`. An entry that is a number, a list or `null` makes `.get` raise `AttributeError` in `scripts/metrics.py:31-34`. Either way the file is skipped, and the model cannot express such a document or entry.
- EcoCi.ValueOrZero: an object whose `"value"` is `null` yields `None` in the script, and `None / 1000` then raises `TypeError`, which skips the file. The model has no null value, so it never takes that path.
- Text.PyInt: `int()` is modelled on ASCII digits only. Python's `int()` also accepts any Unicode decimal digit, such as `٣` or a full-width `３`, and the model returns `None` for those texts where Python returns a number.
- EcoCi.EcoFrame.constructor: the frame starts with `energia_j` and `edp` as zero columns. In the script these columns do not exist until `calcular_edp` adds them, and reading them earlier raises `KeyError`. `main` always calls `calcular_edp` first (`scripts/metrics.py:170` before line 180), so the model never reads the zero columns.

## Findings

| source | as written | input that shows it | evidently intended | confidence | as-written member | corrected member |
|---|---|---|---|---|---|---|
| scripts/extract_from_logs.py:101-103 | a run is kept when its energy is non-zero, and `duracao_ms` is then printed with `:.2f`; when the log has no duration this is `None` and raises `TypeError`, which ends `main` before the results are saved | one run whose log is `Energy: 5 mJ` | keep the run and report the duration as absent | not executed | LogExtract.MissingDurationCrashes | LogExtract.CollectedExactly |
| scripts/metrics.py:25, 55-57 | `estrategia` is the whole path component that contains a strategy name, and the groups compare it with `== 'baseline'`; in the documented layout `data/raw/rodada-X-estrategia-Y/…` (line 13) no row equals `baseline`, so every group is empty and both percentages are NaN | the path `data/raw/rodada-1-estrategia-baseline/eco-ci-output.json` | group each row by the strategy name its component contains | not executed | EcoCi.EcoFrame.AsWrittenHypothesesUndefined | EcoCi.EcoFrame.NamedGroupsKeepRows |
