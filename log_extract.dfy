/** The Eco-CI figures read back from GitHub Actions logs (`scripts/extract_from_logs.py`):
    the first energy, duration and CO2 value in a log, each normalised to one unit, the
    strategy named in the log, and the loop that keeps the runs whose energy was found. */
module LogExtract {
  import opened Wrappers
  import opened Text
  import opened Scan

  // ---------------------------------------------------------------------------------------
  // extract_metrics_from_log
  // ---------------------------------------------------------------------------------------

  /** `Energy[:\s]+(\d+\.?\d*)\s*(mJ|J)`, ignoring case. */
  const EnergyPattern := Measured("Energy", "mJ", "J")
  /** `Duration[:\s]+(\d+\.?\d*)\s*(ms|s)`, ignoring case. */
  const DurationPattern := Measured("Duration", "ms", "s")
  /** `CO2[:\s]+(\d+\.?\d*)\s*(g|mg)`, ignoring case. */
  const Co2Pattern := Measured("CO2", "g", "mg")

  /** The dictionary `extract_metrics_from_log` returns. */
  datatype LogMetrics = LogMetrics(
    runId: nat,
    energiaMj: Option<real>,
    duracaoMs: Option<real>,
    co2G: Option<real>)

  /** `float(m.group(1))` and `m.group(2)` of the first match of a measured pattern: the
      value, and the unit exactly as the log spells it. */
  function Reading(pat: Pattern, log: string): (r: Option<(real, string)>)
    requires pat.Measured?
    ensures r.Some? ==> r.value.0 >= 0.0
    ensures r.Some? <==> First(pat, log).Some?
    ensures r.Some? ==> First(pat, log).value.Quantity?
    ensures r.Some? ==>
      r.value == (DecimalOf(First(pat, log).value.ip, First(pat, log).value.fp), First(pat, log).value.unit)
  {
    match First(pat, log)
    case None => None
    case Some(c) =>
      DecimalOfBounds(c.ip, c.fp);
      Some((DecimalOf(c.ip, c.fp), c.unit))
  }

  /** `value if unit == 'mJ' else value * 1000`: the comparison is case-sensitive. */
  function Millijoules(value: real, unit: string): (r: real)
    ensures unit == "mJ" ==> r == value
    ensures unit != "mJ" ==> r == value * 1000.0
    ensures value >= 0.0 ==> r >= 0.0 && r >= value
  {
    if unit == "mJ" then value else value * 1000.0
  }

  /** `value if unit == 'ms' else value * 1000`. */
  function Milliseconds(value: real, unit: string): (r: real)
    ensures unit == "ms" ==> r == value
    ensures unit != "ms" ==> r == value * 1000.0
    ensures value >= 0.0 ==> r >= 0.0 && r >= value
  {
    if unit == "ms" then value else value * 1000.0
  }

  /** `value if unit == 'g' else value / 1000`. */
  function Grams(value: real, unit: string): (r: real)
    ensures unit == "g" ==> r == value
    ensures unit != "g" ==> r * 1000.0 == value
    ensures value >= 0.0 ==> r >= 0.0 && r <= value
  {
    if unit == "g" then value else value / 1000.0
  }

  function EnergyField(log: string): (r: Option<real>)
    ensures r.Some? <==> First(EnergyPattern, log).Some?
    ensures r.Some? ==> r.value >= 0.0
    ensures r.Some? ==> First(EnergyPattern, log).value.Quantity?
    ensures r.Some? ==> var c := First(EnergyPattern, log).value; r.value == Millijoules(DecimalOf(c.ip, c.fp), c.unit)
  {
    match Reading(EnergyPattern, log)
    case None => None
    case Some((v, unit)) => Some(Millijoules(v, unit))
  }

  function DurationField(log: string): (r: Option<real>)
    ensures r.Some? <==> First(DurationPattern, log).Some?
    ensures r.Some? ==> r.value >= 0.0
    ensures r.Some? ==> First(DurationPattern, log).value.Quantity?
    ensures r.Some? ==> var c := First(DurationPattern, log).value; r.value == Milliseconds(DecimalOf(c.ip, c.fp), c.unit)
  {
    match Reading(DurationPattern, log)
    case None => None
    case Some((v, unit)) => Some(Milliseconds(v, unit))
  }

  function Co2Field(log: string): (r: Option<real>)
    ensures r.Some? <==> First(Co2Pattern, log).Some?
    ensures r.Some? ==> r.value >= 0.0
    ensures r.Some? ==> First(Co2Pattern, log).value.Quantity?
    ensures r.Some? ==> var c := First(Co2Pattern, log).value; r.value == Grams(DecimalOf(c.ip, c.fp), c.unit)
  {
    match Reading(Co2Pattern, log)
    case None => None
    case Some((v, unit)) => Some(Grams(v, unit))
  }

  /** The record `extract_metrics_from_log(log, run_id)` returns. */
  function Extracted(log: string, runId: nat): (r: LogMetrics)
    ensures r.runId == runId
    ensures r.energiaMj.Some? <==> First(EnergyPattern, log).Some?
    ensures r.duracaoMs.Some? <==> First(DurationPattern, log).Some?
    ensures r.co2G.Some? <==> First(Co2Pattern, log).Some?
  {
    LogMetrics(runId, EnergyField(log), DurationField(log), Co2Field(log))
  }

  /** `extract_metrics_from_log`: starts from a record of `None`s and overwrites a field when
      its pattern matches. */
  method ExtractMetricsFromLog(log: string, runId: nat) returns (metrics: LogMetrics)
    ensures metrics == Extracted(log, runId)
  {
    metrics := LogMetrics(runId, None, None, None);
    var energy := EnergyField(log);
    if energy.Some? {
      metrics := metrics.(energiaMj := energy);
    }
    var duration := DurationField(log);
    if duration.Some? {
      metrics := metrics.(duracaoMs := duration);
    }
    var co2 := Co2Field(log);
    if co2.Some? {
      metrics := metrics.(co2G := co2);
    }
  }

  /** A line `heading: I unit` or `heading: I.F unit` whose heading spells the tag in any case
      and whose unit is an alternative of the pattern is read as the decimal `I.F` and the unit
      as written. */
  lemma ReadingOfLine(pat: Pattern, heading: string, ip: string, fp: string, unit: string)
    requires pat.Measured?
    requires |heading| == |pat.tag| && StartsAtFold(heading, 0, pat.tag)
    requires |ip| >= 1 && AllDigits(ip) && AllDigits(fp)
    requires |unit| >= 1 && !IsSpace(unit[0]) && UnitAt(pat.first, pat.second, unit, 0) == Some(unit)
    ensures Reading(pat, Line(heading, Numeral(ip, fp), unit)) == Some((DecimalOf(ip, fp), unit))
  {
    var s := Line(heading, Numeral(ip, fp), unit);
    var m := Match(|heading| + |Numeral(ip, fp)| + 3 + |unit|, Quantity(ip, fp, unit));
    MeasuredLine(pat.tag, pat.first, pat.second, heading, ip, fp, unit);
    assert MatchAt(pat, s, 0) == Some(m);
    FirstHere(pat, s, m);
    ReadingOfFirst(pat, s, m.capture);
  }

  /** `Reading` converts the first match's groups: the digits before and after the point make
      the value and the unit is kept. */
  lemma ReadingOfFirst(pat: Pattern, log: string, c: Capture)
    requires pat.Measured? && First(pat, log) == Some(c) && c.Quantity?
    ensures Reading(pat, log) == Some((DecimalOf(c.ip, c.fp), c.unit))
  {
  }

  /** Each unit the energy pattern accepts, in the spellings used below, is read whole. */
  lemma EnergyUnits()
    ensures UnitAt("mJ", "J", "mJ", 0) == Some("mJ")
    ensures UnitAt("mJ", "J", "J", 0) == Some("J")
    ensures UnitAt("mJ", "J", "mj", 0) == Some("mj")
  {
    assert "mJ"[0..2] == "mJ" && "J"[0..1] == "J" && "mj"[0..2] == "mj";
  }

  /** The tag matches the heading whatever its case. */
  lemma EnergyHeadings()
    ensures StartsAtFold("ENERGY", 0, "Energy")
  {
    assert forall j :: 0 <= j < 6 ==> FoldEq("ENERGY"[j], "Energy"[j]);
  }

  lemma DurationUnits()
    ensures UnitAt("ms", "s", "ms", 0) == Some("ms")
    ensures UnitAt("ms", "s", "s", 0) == Some("s")
  {
    assert "ms"[0..2] == "ms" && "s"[0..1] == "s";
  }

  lemma Co2Units()
    ensures UnitAt("g", "mg", "g", 0) == Some("g")
    ensures UnitAt("g", "mg", "mg", 0) == Some("mg")
  {
    assert !FoldEq("mg"[0], "g"[0]);
    assert "g"[0..1] == "g" && "mg"[0..2] == "mg";
  }

  /** `Energy: I.F mJ` is I.F millijoules. */
  lemma EnergyInMillijoules(ip: string, fp: string)
    requires |ip| >= 1 && AllDigits(ip) && AllDigits(fp)
    ensures EnergyField(Line("Energy", Numeral(ip, fp), "mJ")) == Some(DecimalOf(ip, fp))
  {
    EnergyUnits();
    ReadingOfLine(EnergyPattern, "Energy", ip, fp, "mJ");
  }

  /** `Energy: I.F J` is I.F joules, that is 1000 · I.F millijoules. */
  lemma EnergyInJoules(ip: string, fp: string)
    requires |ip| >= 1 && AllDigits(ip) && AllDigits(fp)
    ensures EnergyField(Line("Energy", Numeral(ip, fp), "J")) == Some(DecimalOf(ip, fp) * 1000.0)
  {
    EnergyUnits();
    ReadingOfLine(EnergyPattern, "Energy", ip, fp, "J");
  }

  /** The pattern ignores case but the unit test does not: `ENERGY: I.F mj` matches and its unit
      `mj` is not `mJ`, so the value is scaled as if it were joules. */
  lemma EnergyUnitCaseSensitive(ip: string, fp: string)
    requires |ip| >= 1 && AllDigits(ip) && AllDigits(fp)
    ensures EnergyField(Line("ENERGY", Numeral(ip, fp), "mj")) == Some(DecimalOf(ip, fp) * 1000.0)
  {
    EnergyUnits();
    EnergyHeadings();
    ReadingOfLine(EnergyPattern, "ENERGY", ip, fp, "mj");
  }

  /** `Duration: I.F ms` is I.F milliseconds. */
  lemma DurationInMilliseconds(ip: string, fp: string)
    requires |ip| >= 1 && AllDigits(ip) && AllDigits(fp)
    ensures DurationField(Line("Duration", Numeral(ip, fp), "ms")) == Some(DecimalOf(ip, fp))
  {
    DurationUnits();
    ReadingOfLine(DurationPattern, "Duration", ip, fp, "ms");
  }

  /** `Duration: I.F s` is I.F seconds, that is 1000 · I.F milliseconds. */
  lemma DurationInSeconds(ip: string, fp: string)
    requires |ip| >= 1 && AllDigits(ip) && AllDigits(fp)
    ensures DurationField(Line("Duration", Numeral(ip, fp), "s")) == Some(DecimalOf(ip, fp) * 1000.0)
  {
    DurationUnits();
    ReadingOfLine(DurationPattern, "Duration", ip, fp, "s");
  }

  /** `CO2: I.F g` is I.F grams. */
  lemma Co2InGrams(ip: string, fp: string)
    requires |ip| >= 1 && AllDigits(ip) && AllDigits(fp)
    ensures Co2Field(Line("CO2", Numeral(ip, fp), "g")) == Some(DecimalOf(ip, fp))
  {
    Co2Units();
    ReadingOfLine(Co2Pattern, "CO2", ip, fp, "g");
  }

  /** `CO2: I.F mg` is I.F milligrams, that is I.F / 1000 grams. */
  lemma Co2InMilligrams(ip: string, fp: string)
    requires |ip| >= 1 && AllDigits(ip) && AllDigits(fp)
    ensures Co2Field(Line("CO2", Numeral(ip, fp), "mg")) == Some(DecimalOf(ip, fp) / 1000.0)
  {
    Co2Units();
    ReadingOfLine(Co2Pattern, "CO2", ip, fp, "mg");
  }
  /** `Energy: 1.5 J` is 1500 millijoules. */
  lemma EnergyDecimalExample()
    ensures EnergyField("Energy: 1.5 J") == Some(1500.0)
  {
    OnePointFive();
    EnergyInJoules("1", "5");
  }

  /** The numeral `1.5`: its text and its value. */
  lemma OnePointFive()
    ensures AllDigits("1") && AllDigits("5")
    ensures DecimalOf("1", "5") == 1.5
    ensures Line("Energy", Numeral("1", "5"), "J") == "Energy: 1.5 J"
  {
    assert AllDigits("1") && AllDigits("5");
    assert NatOf("1") == 1 && FractionOf("5") == 0.5;
  }



  // ---------------------------------------------------------------------------------------
  // identify_strategy
  // ---------------------------------------------------------------------------------------

  /** `identify_strategy`: the first of baseline, parallel and tia that occurs in the
      lower-cased log, or unknown. */
  function IdentifyStrategy(log: string): (r: string)
    ensures r in {"baseline", "parallel", "tia", "unknown"}
    ensures r == "baseline" <==> Contains(Lower(log), "baseline")
    ensures r == "parallel" <==> !Contains(Lower(log), "baseline") && Contains(Lower(log), "parallel")
    ensures r == "tia" <==>
      !Contains(Lower(log), "baseline") && !Contains(Lower(log), "parallel") && Contains(Lower(log), "tia")
  {
    var text := Lower(log);
    if Contains(text, "baseline") then "baseline"
    else if Contains(text, "parallel") then "parallel"
    else if Contains(text, "tia") then "tia"
    else "unknown"
  }

  /** Each strategy name is all lower case and contains itself. */
  lemma NamesItself(name: string)
    requires name in {"baseline", "parallel", "tia"}
    ensures Lower(name) == name && Contains(name, name)
  {
    LowerFixesLowerCase(name);
    assert StartsAt(name, 0, name);
  }

  lemma IdentifiesBaseline()
    ensures IdentifyStrategy("baseline") == "baseline"
  {
    NamesItself("baseline");
  }

  lemma IdentifiesParallel()
    ensures IdentifyStrategy("parallel") == "parallel"
  {
    NamesItself("parallel");
    ParallelIsNotBaseline();
  }

  lemma ParallelIsNotBaseline()
    ensures !Contains("parallel", "baseline")
  {
    forall k | 0 <= k <= |"parallel"| ensures !StartsAt("parallel", k, "baseline") {
      if k == 0 {
        assert "parallel"[0] != "baseline"[0];
      }
    }
  }

  lemma IdentifiesTia()
    ensures IdentifyStrategy("tia") == "tia"
  {
    NamesItself("tia");
    ShorterNotContained("tia", "baseline");
    ShorterNotContained("tia", "parallel");
  }

  lemma IdentifiesUnknown()
    ensures IdentifyStrategy("unknown") == "unknown"
  {
    LowerFixesLowerCase("unknown");
    ShorterNotContained("unknown", "baseline");
    ShorterNotContained("unknown", "parallel");
    MissingFirstCharNotContained("unknown", "tia");
  }

  /** The name a log is given is identified as itself again, so `identify_strategy` is
      idempotent. */
  lemma IdentifyStrategyIdempotent(log: string)
    ensures IdentifyStrategy(IdentifyStrategy(log)) == IdentifyStrategy(log)
  {
    IdentifiesBaseline();
    IdentifiesParallel();
    IdentifiesTia();
    IdentifiesUnknown();
  }

  /** The strategy does not depend on the case of the log's letters. */
  lemma IdentifyStrategyIgnoresCase(log: string)
    ensures IdentifyStrategy(Lower(log)) == IdentifyStrategy(log)
  {
    LowerIdempotent(log);
  }

  // ---------------------------------------------------------------------------------------
  // The loop of main
  // ---------------------------------------------------------------------------------------

  /** A run and its log as `gh run view --log` gave it: `None` when the download failed. */
  datatype Run = Run(id: nat, log: Option<string>)

  /** A kept record: the extracted figures and the strategy `main` adds. */
  datatype LogRecord = LogRecord(metrics: LogMetrics, estrategia: string)

  /** `if metrics['energia_mj']:` — `None` and `0.0` are both false. */
  predicate Truthy(x: Option<real>) {
    x.Some? && x.value != 0.0
  }

  /** What one run adds to `results`: nothing when its log is missing or empty, or when no
      non-zero energy was found. */
  function RunRecord(run: Run): (r: Option<LogRecord>)
    ensures r.Some? <==> run.log.Some? && run.log.value != [] && Truthy(EnergyField(run.log.value))
    ensures r.Some? ==>
      r.value.metrics == Extracted(run.log.value, run.id) && r.value.estrategia == IdentifyStrategy(run.log.value)
  {
    if run.log.Some? && run.log.value != [] then
      var metrics := Extracted(run.log.value, run.id);
      if Truthy(metrics.energiaMj) then Some(LogRecord(metrics, IdentifyStrategy(run.log.value))) else None
    else None
  }

  /** What each run adds, in run order. */
  function Records(runs: seq<Run>): (r: seq<Option<LogRecord>>)
    ensures |r| == |runs|
    ensures forall i :: 0 <= i < |runs| ==> r[i] == RunRecord(runs[i])
  {
    seq(|runs|, i requires 0 <= i < |runs| => RunRecord(runs[i]))
  }

  /** The records `main` keeps, in run order, had printing a missing duration not failed. */
  function Collected(runs: seq<Run>): (r: seq<LogRecord>)
    ensures |r| <= |runs|
    ensures forall k :: 0 <= k < |r| ==> exists i :: 0 <= i < |runs| && RunRecord(runs[i]) == Some(r[k])
  {
    Kept(Records(runs))
  }

  /** Every run whose log names a non-zero energy is among the collected records, and every
      collected record has a non-zero energy. */
  lemma CollectedExactly(runs: seq<Run>)
    ensures forall i :: 0 <= i < |runs| && RunRecord(runs[i]).Some? ==> RunRecord(runs[i]).value in Collected(runs)
    ensures forall k :: 0 <= k < |Collected(runs)| ==> Truthy(Collected(runs)[k].metrics.energiaMj)
  {
    var recs := Records(runs);
    forall i | 0 <= i < |runs| && RunRecord(runs[i]).Some?
      ensures RunRecord(runs[i]).value in Collected(runs)
    {
      KeptKeepsEvery(recs, i);
    }
  }

  /** The loop of `main` as written over the runs' records: printing `duracao_ms` with `:.2f`
      raises `TypeError` when a kept record has no duration, which ends the script. */
  function KeptAsWritten(recs: seq<Option<LogRecord>>): (r: Result<seq<LogRecord>, string>)
    ensures r.Failure? ==> r.error == "TypeError"
  {
    if recs == [] then Success([])
    else
      match KeptAsWritten(recs[..|recs| - 1])
      case Failure(e) => Failure(e)
      case Success(rest) =>
        match recs[|recs| - 1]
        case None => Success(rest)
        case Some(record) =>
          if record.metrics.duracaoMs.None? then Failure("TypeError") else Success(rest + [record])
  }

  /** The loop of `main` as written. */
  function CollectedAsWritten(runs: seq<Run>): (r: Result<seq<LogRecord>, string>)
    ensures r.Success? ==> r.value == Collected(runs)
  {
    AsWrittenSucceedsAsKept(Records(runs));
    KeptAsWritten(Records(runs))
  }

  /** When the loop as written gets through, it has kept what the corrected loop keeps. */
  lemma {:induction false} AsWrittenSucceedsAsKept(recs: seq<Option<LogRecord>>)
    ensures KeptAsWritten(recs).Success? ==> KeptAsWritten(recs).value == Kept(recs)
    decreases |recs|
  {
    if recs != [] {
      AsWrittenSucceedsAsKept(recs[..|recs| - 1]);
    }
  }

  /** As written, a kept record without a duration ends the loop with `TypeError`. */
  lemma {:induction false} AsWrittenFailsWithoutDuration(recs: seq<Option<LogRecord>>, i: nat)
    requires i < |recs| && recs[i].Some? && recs[i].value.metrics.duracaoMs.None?
    ensures KeptAsWritten(recs) == Failure("TypeError")
    decreases |recs|
  {
    var init := recs[..|recs| - 1];
    if i < |recs| - 1 {
      assert init[i] == recs[i];
      AsWrittenFailsWithoutDuration(init, i);
    }
  }

  /** When every kept record has a duration, the loop as written and the corrected loop agree. */
  lemma {:induction false} AsWrittenAgreesWithDurations(recs: seq<Option<LogRecord>>)
    requires forall i :: 0 <= i < |recs| && recs[i].Some? ==> recs[i].value.metrics.duracaoMs.Some?
    ensures KeptAsWritten(recs) == Success(Kept(recs))
    decreases |recs|
  {
    if recs != [] {
      var init := recs[..|recs| - 1];
      assert forall i :: 0 <= i < |init| ==> init[i] == recs[i];
      AsWrittenAgreesWithDurations(init);
    }
  }

  /** A log that reports an energy but no duration. */
  lemma EnergyOnlyLog()
    ensures EnergyField(Line("Energy", "5", "mJ")) == Some(5.0)
    ensures DurationField(Line("Energy", "5", "mJ")).None?
  {
    var log := Line("Energy", "5", "mJ");
    assert AllDigits("5") && NatOf("5") == 5 && Numeral("5", "") == "5";
    EnergyInMillijoules("5", "");
    NoDurationTag();
    MeasuredAbsent(DurationPattern, log);
  }

  lemma NoDurationTag()
    ensures forall k :: 0 <= k <= |Line("Energy", "5", "mJ")| ==> !StartsAtFold(Line("Energy", "5", "mJ"), k, "Duration")
  {
    var log := Line("Energy", "5", "mJ");
    assert log == "Energy: 5 mJ";
    forall k | 0 <= k <= |log| ensures !StartsAtFold(log, k, "Duration") {
      if k + 8 <= |log| {
        assert !FoldEq(log[k + 0], "Duration"[0]);
      }
    }
  }

  /** A run whose log reports an energy and no duration is dropped by the script as written,
      which stops with `TypeError`, and kept by the corrected loop. */
  lemma MissingDurationCrashes()
    ensures CollectedAsWritten([Run(1, Some(Line("Energy", "5", "mJ")))]) == Failure("TypeError")
    ensures |Collected([Run(1, Some(Line("Energy", "5", "mJ")))])| == 1
  {
    var runs := [Run(1, Some(Line("Energy", "5", "mJ")))];
    EnergyOnlyLog();
    var recs := Records(runs);
    assert recs[0].Some? && recs[0].value.metrics.duracaoMs.None?;
    AsWrittenFailsWithoutDuration(recs, 0);
    KeptKeepsEvery(recs, 0);
  }

  /** The loop of `main` with the crash removed: every run whose log names a non-zero energy
      is kept, whether or not a duration was found. */
  method CollectFromLogs(runs: seq<Run>) returns (results: seq<LogRecord>)
    ensures results == Collected(runs)
  {
    results := [];
    ghost var recs := Records(runs);
    for i := 0 to |runs|
      invariant results == Kept(recs[..i])
    {
      assert recs[..i + 1][..i] == recs[..i];
      var run := runs[i];
      if run.log.None? || run.log.value == [] {
        continue;
      }
      var metrics := ExtractMetricsFromLog(run.log.value, run.id);
      var strategy := IdentifyStrategy(run.log.value);
      if metrics.energiaMj.Some? && metrics.energiaMj.value != 0.0 {
        results := results + [LogRecord(metrics, strategy)];
      }
    }
    assert recs[..|runs|] == recs;
  }
}
