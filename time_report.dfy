/** The analysis of `/usr/bin/time -v` reports (`scripts/analyze_simple_metrics.py`):
    reading one report into a record whose keys exist only where a pattern matched, loading
    the reports of a run tree, the derived CPU, energy and EDP columns, the sample-size gate
    of the two hypothesis tests and the per-strategy descriptive report. */
module TimeReport {
  import opened Wrappers
  import opened Text
  import opened Scan
  import opened Summary

  // ---------------------------------------------------------------------------------------
  // The patterns of parse_time_output
  // ---------------------------------------------------------------------------------------

  const EstrategiaPattern := Labelled("Estratégia:", false, WordTail)
  const RunIdPattern := Labelled("Run ID:", false, IntTail)
  const ElapsedPattern := Labelled("Elapsed", true, ClockTail)
  const UserTimePattern := Labelled("User time", true, DecimalTail)
  const SystemTimePattern := Labelled("System time", true, DecimalTail)
  const CpuPercentPattern := Labelled("Percent of CPU", true, PercentTail)
  const MaxResidentPattern := Labelled("Maximum resident set size", true, IntTail)
  const VoluntaryPattern := Labelled("Voluntary context switches", true, IntTail)
  const InvoluntaryPattern := Labelled("Involuntary context switches", true, IntTail)

  /** The dictionary `parse_time_output` builds; `None` is a key that was never set. */
  datatype TimeMetrics = TimeMetrics(
    estrategia: Option<string>,
    runId: Option<string>,
    tempoS: Option<real>,
    cpuUserS: Option<real>,
    cpuSysS: Option<real>,
    cpuPct: Option<nat>,
    memMaxKb: Option<nat>,
    memMaxMb: Option<real>,
    ctxSwitchesVol: Option<nat>,
    ctxSwitchesInvol: Option<nat>,
    testesExecutados: Option<nat>)
  {
    /** The dictionary has no key: Python treats it as false. */
    predicate IsEmpty() {
      estrategia.None? && runId.None? && tempoS.None? && cpuUserS.None? && cpuSysS.None?
      && cpuPct.None? && memMaxKb.None? && memMaxMb.None? && ctxSwitchesVol.None?
      && ctxSwitchesInvol.None? && testesExecutados.None?
    }
  }

  const NoMetrics := TimeMetrics(None, None, None, None, None, None, None, None, None, None, None)

  /** A pattern `tag\s+(\w+)` or `tag.*?:\s+(\w+)`. */
  predicate WordPattern(pat: Pattern) { pat.Labelled? && pat.tail == WordTail }
  /** A pattern whose one group is a digit run. */
  predicate IntPattern(pat: Pattern) { pat.Labelled? && (pat.tail == IntTail || pat.tail == PercentTail) }

  /** `m.group(1).lower()` of the first match of a word pattern. */
  function WordField(pat: Pattern, content: string): (r: Option<string>)
    requires WordPattern(pat)
    ensures r.Some? <==> First(pat, content).Some?
    ensures r.Some? ==> r.value == Lower(First(pat, content).value.text)
    ensures r.Some? ==> |r.value| >= 1 && forall k :: 0 <= k < |r.value| ==> !IsUpper(r.value[k])
  {
    match First(pat, content)
    case None => None
    case Some(c) => Some(Lower(c.text))
  }

  /** `m.group(1)` of the first match of a digit pattern, kept as text. */
  function DigitsField(pat: Pattern, content: string): (r: Option<string>)
    requires IntPattern(pat)
    ensures r.Some? <==> First(pat, content).Some?
    ensures r.Some? ==> r.value == First(pat, content).value.text
    ensures r.Some? ==> |r.value| >= 1 && AllDigits(r.value)
  {
    match First(pat, content)
    case None => None
    case Some(c) => Some(c.text)
  }

  /** `int(m.group(1))` of the first match of a digit pattern. */
  function IntField(pat: Pattern, content: string): (r: Option<nat>)
    requires IntPattern(pat)
    ensures r.Some? <==> First(pat, content).Some?
    ensures r.Some? ==>
      AllDigits(First(pat, content).value.text) && r.value == NatOf(First(pat, content).value.text)
  {
    match First(pat, content)
    case None => None
    case Some(c) => Some(NatOf(c.text))
  }

  /** `float(m.group(1))` of the first match of `tag.*?:\s+(\d+\.\d+)`. */
  function DecimalField(pat: Pattern, content: string): (r: Option<real>)
    requires pat.Labelled? && pat.tail == DecimalTail
    ensures r.Some? <==> First(pat, content).Some?
    ensures r.Some? ==> var c := First(pat, content).value;
      AllDigits(c.ip) && AllDigits(c.fp) && r.value == DecimalOf(c.ip, c.fp)
    ensures r.Some? ==> r.value >= 0.0
  {
    match First(pat, content)
    case None => None
    case Some(c) =>
      DecimalOfBounds(c.ip, c.fp);
      Some(DecimalOf(c.ip, c.fp))
  }

  /** `int(m) * 60 + float(s)`: a wall-clock time of `m` minutes and `s` seconds, in seconds. */
  function ClockSeconds(minutes: string, ip: string, fp: string): (r: real)
    requires AllDigits(minutes) && AllDigits(ip) && AllDigits(fp)
    ensures NatOf(minutes) as real * 60.0 + NatOf(ip) as real <= r < NatOf(minutes) as real * 60.0 + NatOf(ip) as real + 1.0
  {
    DecimalOfBounds(ip, fp);
    NatOf(minutes) as real * 60.0 + DecimalOf(ip, fp)
  }

  /** The seconds of the first match of `tag.*?:\s+(\d+):(\d+\.\d+)`. */
  function ClockField(pat: Pattern, content: string): (r: Option<real>)
    requires pat.Labelled? && pat.tail == ClockTail
    ensures r.Some? <==> First(pat, content).Some?
    ensures r.Some? ==> var c := First(pat, content).value;
      AllDigits(c.minutes) && AllDigits(c.ip) && AllDigits(c.fp)
      && r.value == NatOf(c.minutes) as real * 60.0 + DecimalOf(c.ip, c.fp)
    ensures r.Some? ==> r.value >= 0.0
  {
    match First(pat, content)
    case None => None
    case Some(c) => Some(ClockSeconds(c.minutes, c.ip, c.fp))
  }

  /** `int(re.findall(r'(\d+) passed', content)[-1])`, when there is a match. */
  function LastPassed(content: string): (r: Option<nat>)
    ensures r.Some? <==> |FindAll(Passed, content, 0)| > 0
    ensures r.Some? ==>
      AllDigits(Last(FindAll(Passed, content, 0)).text) && r.value == NatOf(Last(FindAll(Passed, content, 0)).text)
  {
    var tests := FindAll(Passed, content, 0);
    if |tests| > 0 then Some(NatOf(Last(tests).text)) else None
  }

  /** `kb / 1024`: kilobytes as megabytes. */
  function Megabytes(kb: nat): (mb: real)
    ensures mb * 1024.0 == kb as real
  {
    kb as real / 1024.0
  }

  /** The record `parse_time_output` returns for the text of a report. */
  function Parsed(content: string): (r: TimeMetrics)
    ensures r.estrategia.Some? <==> First(EstrategiaPattern, content).Some?
    ensures r.runId.Some? <==> First(RunIdPattern, content).Some?
    ensures r.tempoS.Some? <==> First(ElapsedPattern, content).Some?
    ensures r.cpuUserS.Some? <==> First(UserTimePattern, content).Some?
    ensures r.cpuSysS.Some? <==> First(SystemTimePattern, content).Some?
    ensures r.cpuPct.Some? <==> First(CpuPercentPattern, content).Some?
    ensures r.memMaxKb.Some? <==> First(MaxResidentPattern, content).Some?
    ensures r.ctxSwitchesVol.Some? <==> First(VoluntaryPattern, content).Some?
    ensures r.ctxSwitchesInvol.Some? <==> First(InvoluntaryPattern, content).Some?
    ensures r.testesExecutados.Some? <==> |FindAll(Passed, content, 0)| > 0
    ensures r.memMaxKb.Some? <==> r.memMaxMb.Some?
    ensures r.memMaxKb.Some? ==> r.memMaxMb.value * 1024.0 == r.memMaxKb.value as real
    ensures r.tempoS.Some? ==> r.tempoS.value >= 0.0
    ensures r.cpuUserS.Some? ==> r.cpuUserS.value >= 0.0
    ensures r.cpuSysS.Some? ==> r.cpuSysS.value >= 0.0
  {
    var kb := IntField(MaxResidentPattern, content);
    TimeMetrics(
      estrategia := WordField(EstrategiaPattern, content),
      runId := DigitsField(RunIdPattern, content),
      tempoS := ClockField(ElapsedPattern, content),
      cpuUserS := DecimalField(UserTimePattern, content),
      cpuSysS := DecimalField(SystemTimePattern, content),
      cpuPct := IntField(CpuPercentPattern, content),
      memMaxKb := kb,
      memMaxMb := if kb.Some? then Some(Megabytes(kb.value)) else None,
      ctxSwitchesVol := IntField(VoluntaryPattern, content),
      ctxSwitchesInvol := IntField(InvoluntaryPattern, content),
      testesExecutados := LastPassed(content))
  }

  /** `parse_time_output` on the text of the report: starts with every key unset and sets a
      key for each pattern that matched, converting its groups as the script does. */
  method ParseTimeOutput(content: string) returns (metrics: TimeMetrics)
    ensures metrics == Parsed(content)
  {
    var estrategiaKey: Option<string> := None;
    var runIdKey: Option<string> := None;
    var tempoKey: Option<real> := None;
    var userKey: Option<real> := None;
    var sysKey: Option<real> := None;
    var pctKey: Option<nat> := None;
    var kbKey: Option<nat> := None;
    var mbKey: Option<real> := None;
    var volKey: Option<nat> := None;
    var involKey: Option<nat> := None;
    var testsKey: Option<nat> := None;
    var estrategia := WordField(EstrategiaPattern, content);
    var runId := DigitsField(RunIdPattern, content);
    if estrategia.Some? {
      estrategiaKey := estrategia;
    }
    if runId.Some? {
      runIdKey := runId;
    }
    var elapsed := ClockField(ElapsedPattern, content);
    if elapsed.Some? {
      tempoKey := elapsed;
    }
    var userTime := DecimalField(UserTimePattern, content);
    if userTime.Some? {
      userKey := userTime;
    }
    var sysTime := DecimalField(SystemTimePattern, content);
    if sysTime.Some? {
      sysKey := sysTime;
    }
    var cpuPct := IntField(CpuPercentPattern, content);
    if cpuPct.Some? {
      pctKey := cpuPct;
    }
    var mem := IntField(MaxResidentPattern, content);
    if mem.Some? {
      kbKey := mem;
      mbKey := Some(Megabytes(kbKey.value));
    }
    var volCtx := IntField(VoluntaryPattern, content);
    if volCtx.Some? {
      volKey := volCtx;
    }
    var involCtx := IntField(InvoluntaryPattern, content);
    if involCtx.Some? {
      involKey := involCtx;
    }
    var tests := LastPassed(content);
    if tests.Some? {
      testsKey := tests;
    }
    metrics := TimeMetrics(estrategiaKey, runIdKey, tempoKey, userKey, sysKey, pctKey, kbKey, mbKey,
      volKey, involKey, testsKey);
  }

  // ---------------------------------------------------------------------------------------
  // load_all_metrics
  // ---------------------------------------------------------------------------------------

  /** A file met while walking the data directory: its base name, and its text or `None`
      when reading it fails. */
  datatype WalkedFile = WalkedFile(name: string, content: Option<string>)

  /** What one file of the walk adds: the record of a readable `metrics.txt` whose report
      set at least one key. */
  function Record(f: WalkedFile): (r: Option<TimeMetrics>)
    ensures r.Some? <==> f.name == "metrics.txt" && f.content.Some? && !Parsed(f.content.value).IsEmpty()
    ensures r.Some? ==> r.value == Parsed(f.content.value) && !r.value.IsEmpty()
  {
    if f.name == "metrics.txt" && f.content.Some? && !Parsed(f.content.value).IsEmpty() then
      Some(Parsed(f.content.value))
    else None
  }

  /** What each file of the walk adds, in walk order. */
  function Records(files: seq<WalkedFile>): (r: seq<Option<TimeMetrics>>)
    ensures |r| == |files|
    ensures forall i :: 0 <= i < |files| ==> r[i] == Record(files[i])
  {
    seq(|files|, i requires 0 <= i < |files| => Record(files[i]))
  }

  /** The records `load_all_metrics` collects, in walk order. */
  function Loaded(files: seq<WalkedFile>): (r: seq<TimeMetrics>)
    ensures |r| <= |files|
    ensures forall k :: 0 <= k < |r| ==> exists i :: 0 <= i < |files| && Record(files[i]) == Some(r[k])
  {
    Kept(Records(files))
  }

  /** Every `metrics.txt` that reads and sets a key is collected, and no collected record is
      empty. */
  lemma LoadedExactly(files: seq<WalkedFile>)
    ensures forall i :: 0 <= i < |files| && Record(files[i]).Some? ==> Record(files[i]).value in Loaded(files)
    ensures forall k :: 0 <= k < |Loaded(files)| ==> !Loaded(files)[k].IsEmpty()
  {
    var recs := Records(files);
    forall i | 0 <= i < |files| && Record(files[i]).Some?
      ensures Record(files[i]).value in Loaded(files)
    {
      KeptKeepsEvery(recs, i);
    }
  }

  /** A labelled pattern finds nothing in an empty text. */
  lemma NoLabelInEmpty(pat: Pattern)
    requires pat.Labelled? && |pat.tag| >= 1
    ensures First(pat, "").None?
  {
    assert MatchAt(pat, "", 0).None?;
  }

  /** An empty report sets no key, so `if metrics:` drops it. */
  lemma EmptyReportDropped()
    ensures Parsed("").IsEmpty()
    ensures Record(WalkedFile("metrics.txt", Some(""))).None?
  {
    NoLabelInEmpty(EstrategiaPattern);
    NoLabelInEmpty(RunIdPattern);
    NoLabelInEmpty(ElapsedPattern);
    NoLabelInEmpty(UserTimePattern);
    NoLabelInEmpty(SystemTimePattern);
    NoLabelInEmpty(CpuPercentPattern);
    NoLabelInEmpty(MaxResidentPattern);
    NoLabelInEmpty(VoluntaryPattern);
    NoLabelInEmpty(InvoluntaryPattern);
    assert FindAll(Passed, "", 0) == [];
  }

  /** Whatever the report, a first elapsed match `M:SS.ss` sets `tempo_s` to its seconds. */
  lemma ElapsedOf(content: string, mins: string, ip: string, fp: string)
    requires AllDigits(mins) && AllDigits(ip) && AllDigits(fp)
    requires First(ElapsedPattern, content) == Some(Clock(mins, ip, fp))
    ensures Parsed(content).tempoS.Some?
    ensures Parsed(content).tempoS.value == NatOf(mins) as real * 60.0 + DecimalOf(ip, fp)
  {
    var v := ClockSeconds(mins, ip, fp);
    assert v == NatOf(mins) as real * 60.0 + DecimalOf(ip, fp);
    assert ClockField(ElapsedPattern, content) == Some(v);
    assert Parsed(content).tempoS == Some(v);
  }

  /** An elapsed-time line `Elapsed ...: M:SS.ss`, where `Elapsed` occurs nowhere before the
      heading: `tempo_s` is `M * 60 + SS.ss`. */
  lemma ElapsedMinutes(report: string, pre: string, heading: string, mins: string, ip: string, fp: string, rest: string)
    requires report == pre + heading + ":" + SpacedClock(mins, ip, fp, rest)
    requires Heading(heading, "Elapsed") && forall k :: 0 <= k < |pre| ==> !StartsAt(report, k, "Elapsed")
    requires |mins| >= 1 && |ip| >= 1 && |fp| >= 1 && AllDigits(mins) && AllDigits(ip) && AllDigits(fp)
    requires rest == [] || !IsDigit(rest[0])
    ensures Parsed(report).tempoS.Some?
    ensures Parsed(report).tempoS.value == NatOf(mins) as real * 60.0 + DecimalOf(ip, fp)
  {
    ClockText("Elapsed", pre, heading, mins, ip, fp, rest);
    ElapsedOf(report, mins, ip, fp);
  }

  /** An elapsed time written `h:mm:ss`, on a line of its own, in a report where `Elapsed`
      occurs only at that heading: `tempo_s` is not set. */
  lemma ElapsedHours(report: string, pre: string, heading: string, hours: string, mins: string, secs: string, post: string)
    requires report == pre + heading + ": " + hours + ":" + mins + ":" + secs + post
    requires Heading(heading, "Elapsed")
    requires forall k :: 0 <= k <= |report| && k != |pre| ==> !StartsAt(report, k, "Elapsed")
    requires |hours| >= 1 && |mins| >= 1 && |secs| >= 1 && AllDigits(hours) && AllDigits(mins) && AllDigits(secs)
    requires post == [] || post[0] == '\n'
    ensures Parsed(report).tempoS.None?
  {
    HoursText("Elapsed", pre, heading, hours, mins, secs, post);
  }

  /** A user-time line `User time ...: I.F`, where `User time` occurs nowhere before the
      heading: `cpu_user_s` is `I.F`. */
  lemma UserSeconds(report: string, pre: string, heading: string, ip: string, fp: string, rest: string)
    requires report == pre + heading + ":" + SpacedDecimal(ip, fp, rest)
    requires Heading(heading, "User time") && forall k :: 0 <= k < |pre| ==> !StartsAt(report, k, "User time")
    requires |ip| >= 1 && |fp| >= 1 && AllDigits(ip) && AllDigits(fp)
    requires rest == [] || !IsDigit(rest[0])
    ensures Parsed(report).cpuUserS == Some(DecimalOf(ip, fp))
  {
    DecimalText("User time", pre, heading, ip, fp, rest);
  }

  /** A system-time line `System time ...: I.F`, where `System time` occurs nowhere before the
      heading: `cpu_sys_s` is `I.F`. */
  lemma SystemSeconds(report: string, pre: string, heading: string, ip: string, fp: string, rest: string)
    requires report == pre + heading + ":" + SpacedDecimal(ip, fp, rest)
    requires Heading(heading, "System time") && forall k :: 0 <= k < |pre| ==> !StartsAt(report, k, "System time")
    requires |ip| >= 1 && |fp| >= 1 && AllDigits(ip) && AllDigits(fp)
    requires rest == [] || !IsDigit(rest[0])
    ensures Parsed(report).cpuSysS == Some(DecimalOf(ip, fp))
  {
    DecimalText("System time", pre, heading, ip, fp, rest);
  }

  /** The last `N passed` of the report wins: after `a`, which does not end in a digit, the
      count `N`, and then no digit, `testes_executados` is `N`, whatever counts `a` holds. */
  lemma LastCountWins(report: string, a: string, count: string, b: string)
    requires report == a + count + " passed" + b
    requires a == [] || !IsDigit(Last(a))
    requires |count| >= 1 && AllDigits(count)
    requires forall k :: 0 <= k < |b| ==> !IsDigit(b[k])
    ensures Parsed(report).testesExecutados.Some?
    ensures Parsed(report).testesExecutados.value == NatOf(count)
  {
    PassedText(a, count, b);
    CountOf(report, count);
  }

  /** Whatever the report, when its last `N passed` match is `count`, `testes_executados` is `count`. */
  lemma CountOf(content: string, count: string)
    requires AllDigits(count)
    requires FindAll(Passed, content, 0) != [] && Last(FindAll(Passed, content, 0)) == Digits(count)
    ensures Parsed(content).testesExecutados.Some?
    ensures Parsed(content).testesExecutados.value == NatOf(count)
  {
    assert LastPassed(content) == Some(NatOf(count));
  }

  /** `load_all_metrics` over the files of the walk, in order. */
  method LoadAllMetrics(files: seq<WalkedFile>) returns (results: seq<TimeMetrics>)
    ensures results == Loaded(files)
  {
    ghost var recs := Records(files);
    results := [];
    for i := 0 to |files|
      invariant results == Kept(recs[..i])
    {
      assert recs[..i + 1][..i] == recs[..i];
      var file := files[i];
      if file.name == "metrics.txt" {
        match file.content {
          case None =>
          case Some(content) =>
            var metrics := ParseTimeOutput(content);
            if !metrics.IsEmpty() {
              results := results + [metrics];
            }
        }
      }
    }
    assert recs[..|files|] == recs;
  }

  // ---------------------------------------------------------------------------------------
  // The data frame built from the records
  // ---------------------------------------------------------------------------------------

  /** The numeric columns the analysis reads from the records. */
  datatype Key = TempoS | CpuUserS | CpuSysS | CpuPct | MemMaxMb | TestesExecutados

  /** `Key`'s column name in the data frame. */
  function KeyName(key: Key): string {
    match key
    case TempoS => "tempo_s"
    case CpuUserS => "cpu_user_s"
    case CpuSysS => "cpu_sys_s"
    case CpuPct => "cpu_pct"
    case MemMaxMb => "mem_max_mb"
    case TestesExecutados => "testes_executados"
  }

  /** The value a record holds under `key`: NaN (`None`) when the record lacks the key. */
  function Cell(m: TimeMetrics, key: Key): Option<real> {
    match key
    case TempoS => m.tempoS
    case CpuUserS => m.cpuUserS
    case CpuSysS => m.cpuSysS
    case CpuPct => if m.cpuPct.Some? then Some(m.cpuPct.value as real) else None
    case MemMaxMb => m.memMaxMb
    case TestesExecutados => if m.testesExecutados.Some? then Some(m.testesExecutados.value as real) else None
  }

  /** `pd.DataFrame(records)` has a column for every key that some record holds. */
  predicate HasColumn(records: seq<TimeMetrics>, key: Key) {
    exists k :: 0 <= k < |records| && Cell(records[k], key).Some?
  }

  predicate HasEstrategiaColumn(records: seq<TimeMetrics>) {
    exists k :: 0 <= k < |records| && records[k].estrategia.Some?
  }

  /** `df[key]`, one cell per record. */
  function Column(records: seq<TimeMetrics>, key: Key): (col: seq<Option<real>>)
    ensures |col| == |records|
    ensures forall k :: 0 <= k < |records| ==> col[k] == Cell(records[k], key)
  {
    seq(|records|, k requires 0 <= k < |records| => Cell(records[k], key))
  }

  /** NaN-propagating `+` on two cells. */
  function AddCells(a: Option<real>, b: Option<real>): Option<real> {
    if a.Some? && b.Some? then Some(a.value + b.value) else None
  }

  /** NaN-propagating `*` on two cells. */
  function MulCells(a: Option<real>, b: Option<real>): Option<real> {
    if a.Some? && b.Some? then Some(a.value * b.value) else None
  }

  /** Column `+` column, row by row. */
  function AddColumns(a: seq<Option<real>>, b: seq<Option<real>>): (c: seq<Option<real>>)
    requires |a| == |b|
    ensures |c| == |a|
  {
    seq(|a|, k requires 0 <= k < |a| => AddCells(a[k], b[k]))
  }

  /** Column `*` column, row by row. */
  function MulColumns(a: seq<Option<real>>, b: seq<Option<real>>): (c: seq<Option<real>>)
    requires |a| == |b|
    ensures |c| == |a|
  {
    seq(|a|, k requires 0 <= k < |a| => MulCells(a[k], b[k]))
  }

  /** Column `*` a constant, row by row. */
  function ScaleColumn(a: seq<Option<real>>, factor: real): (c: seq<Option<real>>)
    ensures |c| == |a|
  {
    seq(|a|, k requires 0 <= k < |a| => MulCells(a[k], Some(factor)))
  }

  /** `TDP_PER_CORE`: the watts assumed per busy core. */
  const TdpPerCore: real := 15.0

  /** A row's `edp` is `(cpu_user_s + cpu_sys_s) * 15 * tempo_s`, and NaN when any of the
      three is missing from the record. */
  lemma EdpCell(records: seq<TimeMetrics>, k: nat)
    requires k < |records|
    ensures var m := records[k];
      var e := MulColumns(ScaleColumn(AddColumns(Column(records, CpuUserS), Column(records, CpuSysS)), TdpPerCore),
        Column(records, TempoS))[k];
      && (m.cpuUserS.Some? && m.cpuSysS.Some? && m.tempoS.Some? <==> e.Some?)
      && (e.Some? ==> e.value == (m.cpuUserS.value + m.cpuSysS.value) * 15.0 * m.tempoS.value)
  {
  }

  /** A run of 6 s user and 4 s system CPU time over 10 s of wall-clock time is estimated at
      150 J and an EDP of 1500 J·s. */
  lemma DerivedExample(m: TimeMetrics)
    requires m.cpuUserS == Some(6.0) && m.cpuSysS == Some(4.0) && m.tempoS == Some(10.0)
    ensures ScaleColumn(AddColumns(Column([m], CpuUserS), Column([m], CpuSysS)), TdpPerCore) == [Some(150.0)]
    ensures MulColumns(ScaleColumn(AddColumns(Column([m], CpuUserS), Column([m], CpuSysS)), TdpPerCore),
      Column([m], TempoS)) == [Some(1500.0)]
  {
    EdpCell([m], 0);
  }

  /** One run per strategy: baseline 10 s wall-clock and 6 + 4 s CPU, parallel 4 s and 3 + 1 s,
      tia 2 s and 1 + 1 s. The estimates are 150, 60 and 30 J and the EDPs 1500, 240 and 60 J·s. */
  lemma WorkedExample(b: TimeMetrics, p: TimeMetrics, t: TimeMetrics)
    requires b.cpuUserS == Some(6.0) && b.cpuSysS == Some(4.0) && b.tempoS == Some(10.0)
    requires p.cpuUserS == Some(3.0) && p.cpuSysS == Some(1.0) && p.tempoS == Some(4.0)
    requires t.cpuUserS == Some(1.0) && t.cpuSysS == Some(1.0) && t.tempoS == Some(2.0)
    ensures var records := [b, p, t];
      var energia := ScaleColumn(AddColumns(Column(records, CpuUserS), Column(records, CpuSysS)), TdpPerCore);
      && energia == [Some(150.0), Some(60.0), Some(30.0)]
      && MulColumns(energia, Column(records, TempoS)) == [Some(1500.0), Some(240.0), Some(60.0)]
  {
    var records := [b, p, t];
    forall k | 0 <= k < 3 {
      EdpCell(records, k);
    }
  }

  /** In that example, tia's mean time is 80 % below baseline's. */
  lemma WorkedReduction(b: TimeMetrics, p: TimeMetrics, t: TimeMetrics)
    requires b.estrategia == Some("baseline") && p.estrategia == Some("parallel") && t.estrategia == Some("tia")
    requires b.tempoS == Some(10.0) && t.tempoS == Some(2.0)
    ensures var records := [b, p, t];
      PercentReduction(GroupMean(records, Column(records, TempoS), "baseline"),
        GroupMean(records, Column(records, TempoS), "tia")) == Some(80.0)
  {
    var records := [b, p, t];
    WorkedMeans(records, Column(records, TempoS), 2, "tia", 10.0, 2.0);
    assert PercentReduction(Some(10.0), Some(2.0)) == Some(80.0);
  }

  /** In that example, parallel's mean EDP is 84 % below baseline's: the change is −84 %. */
  lemma WorkedChange(b: TimeMetrics, p: TimeMetrics, t: TimeMetrics)
    requires b.estrategia == Some("baseline") && p.estrategia == Some("parallel") && t.estrategia == Some("tia")
    requires b.cpuUserS == Some(6.0) && b.cpuSysS == Some(4.0) && b.tempoS == Some(10.0)
    requires p.cpuUserS == Some(3.0) && p.cpuSysS == Some(1.0) && p.tempoS == Some(4.0)
    requires t.cpuUserS == Some(1.0) && t.cpuSysS == Some(1.0) && t.tempoS == Some(2.0)
    ensures var records := [b, p, t];
      var edp := MulColumns(ScaleColumn(AddColumns(Column(records, CpuUserS), Column(records, CpuSysS)), TdpPerCore),
        Column(records, TempoS));
      PercentChange(GroupMean(records, edp, "baseline"), GroupMean(records, edp, "parallel")) == Some(-84.0)
  {
    var records := [b, p, t];
    var edp := MulColumns(ScaleColumn(AddColumns(Column(records, CpuUserS), Column(records, CpuSysS)), TdpPerCore),
      Column(records, TempoS));
    WorkedExample(b, p, t);
    WorkedMeans(records, edp, 1, "parallel", 1500.0, 240.0);
    assert PercentChange(Some(1500.0), Some(240.0)) == Some(-84.0);
  }

  /** In that example the baseline group and the group `name` (row `k`) have the means `v0`
      and `vk` of a column holding `v0` at row 0 and `vk` at row `k`. */
  lemma WorkedMeans(records: seq<TimeMetrics>, col: seq<Option<real>>, k: nat, name: string, v0: real, vk: real)
    requires |records| == 3 && |col| == 3 && (k, name) in {(1, "parallel"), (2, "tia")}
    requires records[0].estrategia == Some("baseline") && records[1].estrategia == Some("parallel")
    requires records[2].estrategia == Some("tia")
    requires col[0] == Some(v0) && col[k] == Some(vk)
    ensures GroupMean(records, col, "baseline") == Some(v0)
    ensures GroupMean(records, col, name) == Some(vk)
  {
    assert records == [records[0], records[1], records[2]];
    OneRunEach(records[0], records[1], records[2]);
    SingleMean(records, col, "baseline", 0, v0);
    SingleMean(records, col, name, k, vk);
  }

  /** The groups of one baseline, one parallel and one tia run, in that order. */
  lemma OneRunEach(b: TimeMetrics, p: TimeMetrics, t: TimeMetrics)
    requires b.estrategia == Some("baseline") && p.estrategia == Some("parallel") && t.estrategia == Some("tia")
    ensures GroupRows([b, p, t], "baseline") == [0]
    ensures GroupRows([b, p, t], "parallel") == [1]
    ensures GroupRows([b, p, t], "tia") == [2]
  {
    var records := [b, p, t];
    assert "baseline"[0] != "parallel"[0];
    assert forall j :: 0 <= j < 3 ==> records[j] == [b, p, t][j];
    SoleRow(records, "baseline", 0);
    SoleRow(records, "parallel", 1);
    SoleRow(records, "tia", 2);
  }

  /** A strategy with a single row `k` has the group `[k]`. */
  lemma {:induction false} SoleRow(records: seq<TimeMetrics>, name: string, k: nat)
    requires k < |records| && records[k].estrategia == Some(name)
    requires forall j :: 0 <= j < |records| && j != k ==> records[j].estrategia != Some(name)
    ensures GroupRows(records, name) == [k]
    decreases |records|
  {
    var n := |records| - 1;
    var prefix := records[..n];
    assert forall j :: 0 <= j < n ==> prefix[j] == records[j];
    if k == n {
      assert GroupSize(prefix, name) == 0;
    } else {
      SoleRow(prefix, name, k);
    }
  }

  /** A strategy whose one row holds `v` has mean `v`. */
  lemma SingleMean(records: seq<TimeMetrics>, col: seq<Option<real>>, name: string, k: nat, v: real)
    requires |col| == |records| && k < |records|
    requires GroupRows(records, name) == [k] && col[k] == Some(v)
    ensures GroupMean(records, col, name) == Some(v)
  {
    var sel := Select(col, [k]);
    assert sel == [Some(v)];
    assert Kept(sel) == [v] by {
      assert sel[..0] == [];
    }
    MeanOfConstant([v], v);
  }

  /** With a single run per strategy, the sample-size gate skips both hypothesis tests. */
  lemma WorkedExampleSkipped(f: MetricsFrame, b: TimeMetrics, p: TimeMetrics, t: TimeMetrics)
    requires f.Valid() && f.records == [b, p, t]
    requires b.estrategia == Some("baseline") && p.estrategia == Some("parallel") && t.estrategia == Some("tia")
    ensures f.TesteHipoteses() == Success(Tested(Skipped, Skipped))
  {
    var records := [b, p, t];
    OneRunEach(b, p, t);
    assert HasEstrategiaColumn(records) by {
      assert records[0].estrategia.Some?;
    }
    f.SmallBaselineSkips();
  }

  /** The rows of strategy `name`: `df[df['estrategia'] == name]`, as the indices of those rows. */
  function GroupRows(records: seq<TimeMetrics>, name: string): (rows: seq<nat>)
    ensures forall j :: 0 <= j < |rows| ==> rows[j] < |records| && records[rows[j]].estrategia == Some(name)
    ensures forall k :: 0 <= k < |records| && records[k].estrategia == Some(name) ==> k in rows
    ensures forall i, j :: 0 <= i < j < |rows| ==> rows[i] < rows[j]
    ensures |rows| <= |records|
  {
    if records == [] then []
    else
      var rest := GroupRows(records[..|records| - 1], name);
      if records[|records| - 1].estrategia == Some(name) then rest + [|records| - 1] else rest
  }

  /** `len(df[df['estrategia'] == name])`. */
  function GroupSize(records: seq<TimeMetrics>, name: string): (n: nat)
    ensures n <= |records|
    ensures n == 0 <==> forall k :: 0 <= k < |records| ==> records[k].estrategia != Some(name)
  {
    var rows := GroupRows(records, name);
    assert |rows| > 0 ==> records[rows[0]].estrategia == Some(name);
    |rows|
  }

  /** The cells of `col` in the rows of strategy `name`, in row order. */
  function Select(col: seq<Option<real>>, rows: seq<nat>): (r: seq<Option<real>>)
    requires forall j :: 0 <= j < |rows| ==> rows[j] < |col|
    ensures |r| == |rows|
  {
    seq(|rows|, j requires 0 <= j < |rows| => col[rows[j]])
  }

  /** `subset[col].mean()` for strategy `name`. */
  function GroupMean(records: seq<TimeMetrics>, col: seq<Option<real>>, name: string): (r: Option<real>)
    requires |col| == |records|
    ensures r.Some? <==> exists k :: 0 <= k < |records| && records[k].estrategia == Some(name) && col[k].Some?
    ensures GroupSize(records, name) == 0 ==> r.None?
  {
    GroupHasValue(records, col, name);
    MeanPresent(Select(col, GroupRows(records, name)))
  }

  /** The group keeps a value exactly when one of its rows holds one. */
  lemma GroupHasValue(records: seq<TimeMetrics>, col: seq<Option<real>>, name: string)
    requires |col| == |records|
    ensures |Kept(Select(col, GroupRows(records, name)))| > 0
      <==> exists k :: 0 <= k < |records| && records[k].estrategia == Some(name) && col[k].Some?
  {
    var rows := GroupRows(records, name);
    var sel := Select(col, rows);
    if |Kept(sel)| > 0 {
      var i :| 0 <= i < |sel| && sel[i] == Some(Kept(sel)[0]);
      assert records[rows[i]].estrategia == Some(name) && col[rows[i]].Some?;
    }
    if k :| 0 <= k < |records| && records[k].estrategia == Some(name) && col[k].Some? {
      var j :| 0 <= j < |rows| && rows[j] == k;
      assert sel[j] == col[k];
      KeptKeepsEvery(sel, j);
    }
  }

  /** The two comparisons of the hypothesis tests: `Skipped` when the sample-size gate
      keeps a test from running, otherwise the percentage it prints (`None` for NaN). */
  datatype Comparison = Skipped | Compared(percent: Option<real>)

  /** What `teste_hipoteses` reaches: it stops early when baseline or tia has no row. */
  datatype Hypotheses = InsufficientData | Tested(h1: Comparison, h2: Comparison)

  /** One block of the descriptive report: the group's size and column means. */
  datatype GroupSummary = GroupSummary(
    estrategia: string,
    n: nat,
    tempoS: Option<real>,
    cpuTotalS: Option<real>,
    cpuPct: Option<real>,
    memMaxMb: Option<real>,
    energiaEstimadaJ: Option<real>,
    edp: Option<real>,
    testesExecutados: Option<Option<real>>)

  /** The strategies, in the order the report visits them. */
  const Strategies: seq<string> := ["baseline", "parallel", "tia"]

  /** The data frame of the analysis: the loaded records and the columns derived from them.
      A derived column is `None` until it has been added. */
  class MetricsFrame {
    var records: seq<TimeMetrics>
    var cpuTotalS: Option<seq<Option<real>>>
    var energiaEstimadaJ: Option<seq<Option<real>>>
    var edp: Option<seq<Option<real>>>

    /** Every column has a cell per record. */
    predicate Valid()
      reads this
    {
      (cpuTotalS.Some? ==> |cpuTotalS.value| == |records|)
      && (energiaEstimadaJ.Some? ==> |energiaEstimadaJ.value| == |records|)
      && (edp.Some? ==> |edp.value| == |records|)
    }

    /** `pd.DataFrame(results)`. */
    constructor(records: seq<TimeMetrics>)
      ensures Valid()
      ensures this.records == records && cpuTotalS.None? && energiaEstimadaJ.None? && edp.None?
    {
      this.records := records;
      cpuTotalS := None;
      energiaEstimadaJ := None;
      edp := None;
    }

    /** `calcular_metricas_derivadas`: adds `cpu_total_s`, `energia_estimada_j` and `edp`
        in that order. Reading a column no record has raises `KeyError`, which stops the
        derivation with the columns added so far. */
    method CalcularMetricasDerivadas() returns (r: Result<(), string>)
      requires Valid()
      modifies this
      ensures Valid() && records == old(records)
      ensures !HasColumn(records, CpuUserS) || !HasColumn(records, CpuSysS) ==>
        r == Failure(if HasColumn(records, CpuUserS) then "cpu_sys_s" else "cpu_user_s")
        && cpuTotalS == old(cpuTotalS) && energiaEstimadaJ == old(energiaEstimadaJ) && edp == old(edp)
      ensures HasColumn(records, CpuUserS) && HasColumn(records, CpuSysS) ==>
        cpuTotalS == Some(AddColumns(Column(records, CpuUserS), Column(records, CpuSysS)))
        && energiaEstimadaJ == Some(ScaleColumn(cpuTotalS.value, TdpPerCore))
      ensures HasColumn(records, CpuUserS) && HasColumn(records, CpuSysS) && !HasColumn(records, TempoS) ==>
        r == Failure("tempo_s") && edp == old(edp)
      ensures HasColumn(records, CpuUserS) && HasColumn(records, CpuSysS) && HasColumn(records, TempoS) ==>
        r == Success(()) && edp == Some(MulColumns(energiaEstimadaJ.value, Column(records, TempoS)))
    {
      if !HasColumn(records, CpuUserS) {
        return Failure("cpu_user_s");
      }
      if !HasColumn(records, CpuSysS) {
        return Failure("cpu_sys_s");
      }
      cpuTotalS := Some(AddColumns(Column(records, CpuUserS), Column(records, CpuSysS)));
      energiaEstimadaJ := Some(ScaleColumn(cpuTotalS.value, TdpPerCore));
      if !HasColumn(records, TempoS) {
        return Failure("tempo_s");
      }
      edp := Some(MulColumns(energiaEstimadaJ.value, Column(records, TempoS)));
      r := Success(());
    }

    /** `teste_hipoteses`: the sample-size gate and the two percentages. H1 compares the mean
        `tempo_s` of tia with baseline, H2 the mean `edp` of parallel with baseline. */
    function TesteHipoteses(): (r: Result<Hypotheses, string>)
      reads this
      requires Valid()
      ensures !HasEstrategiaColumn(records) ==> r == Failure("estrategia")
      ensures HasEstrategiaColumn(records) && (GroupSize(records, "baseline") == 0 || GroupSize(records, "tia") == 0) ==>
        r == Success(InsufficientData)
      ensures r.Success? && r.value.Tested? ==>
        GroupSize(records, "baseline") > 0 && GroupSize(records, "tia") > 0
        && (r.value.h1.Compared? <==> GroupSize(records, "baseline") >= 3 && GroupSize(records, "tia") >= 3)
        && (r.value.h2.Compared? <==> GroupSize(records, "baseline") >= 3 && GroupSize(records, "parallel") >= 3)
      ensures HasEstrategiaColumn(records) && GroupSize(records, "baseline") > 0 && GroupSize(records, "tia") > 0 ==>
        r.Failure? || r.value.Tested?
      ensures r.Failure? && HasEstrategiaColumn(records) ==>
        (r.error == "tempo_s" && GroupSize(records, "baseline") >= 3 && GroupSize(records, "tia") >= 3
          && !HasColumn(records, TempoS))
        || (r.error == "edp" && GroupSize(records, "baseline") >= 3 && GroupSize(records, "parallel") >= 3
          && GroupSize(records, "tia") > 0 && edp.None? && (GroupSize(records, "tia") < 3 || HasColumn(records, TempoS)))
      ensures HasEstrategiaColumn(records) && GroupSize(records, "baseline") >= 3 && GroupSize(records, "tia") >= 3 ==>
        HasColumn(records, TempoS) || r == Failure("tempo_s")
      ensures r.Success? ==> HasEstrategiaColumn(records)
      ensures r.Success? && r.value.Tested? && r.value.h1.Compared? ==>
        HasColumn(records, TempoS)
        && r.value.h1.percent == PercentReduction(GroupMean(records, Column(records, TempoS), "baseline"),
          GroupMean(records, Column(records, TempoS), "tia"))
      ensures r.Success? && r.value.Tested? && r.value.h2.Compared? ==>
        edp.Some?
        && r.value.h2.percent == PercentChange(GroupMean(records, edp.value, "baseline"),
          GroupMean(records, edp.value, "parallel"))
    {
      if !HasEstrategiaColumn(records) then Failure("estrategia")
      else
        var nb := GroupSize(records, "baseline");
        var np := GroupSize(records, "parallel");
        var nt := GroupSize(records, "tia");
        if nb == 0 || nt == 0 then Success(InsufficientData)
        else if nb >= 3 && nt >= 3 && !HasColumn(records, TempoS) then Failure("tempo_s")
        else if nb >= 3 && np >= 3 && edp.None? then Failure("edp")
        else
          var tempo := Column(records, TempoS);
          var h1 := if nb >= 3 && nt >= 3
            then Compared(PercentReduction(GroupMean(records, tempo, "baseline"), GroupMean(records, tempo, "tia")))
            else Skipped;
          var h2 := if nb >= 3 && np >= 3
            then Compared(PercentChange(GroupMean(records, edp.value, "baseline"), GroupMean(records, edp.value, "parallel")))
            else Skipped;
          Success(Tested(h1, h2))
    }

    /** With at least three baseline and three tia runs and the `tempo_s` column present, H1
        runs, unless H2 is also due and the `edp` column is missing. */
    lemma H1Runs()
      requires Valid() && HasEstrategiaColumn(records) && HasColumn(records, TempoS)
      requires GroupSize(records, "baseline") >= 3 && GroupSize(records, "tia") >= 3
      requires GroupSize(records, "parallel") < 3 || edp.Some?
      ensures TesteHipoteses().Success? && TesteHipoteses().value.Tested? && TesteHipoteses().value.h1.Compared?
    {
    }

    /** When H2 is due and H1 passes its gate, a missing `edp` column stops the tests with
        `KeyError`. */
    lemma MissingEdpFails()
      requires Valid() && HasEstrategiaColumn(records) && edp.None?
      requires GroupSize(records, "baseline") >= 3 && GroupSize(records, "parallel") >= 3
      requires GroupSize(records, "tia") > 0 && (GroupSize(records, "tia") < 3 || HasColumn(records, TempoS))
      ensures TesteHipoteses() == Failure("edp")
    {
    }

    /** With baseline and tia present but fewer than three baseline runs, neither test runs. */
    lemma SmallBaselineSkips()
      requires Valid() && HasEstrategiaColumn(records)
      requires 0 < GroupSize(records, "baseline") < 3 && 0 < GroupSize(records, "tia")
      ensures TesteHipoteses() == Success(Tested(Skipped, Skipped))
    {
    }

    /** One block of `gerar_relatorio` for a strategy with rows: its size and the means of the
        columns it prints, in print order; reading a missing column raises `KeyError`. */
    function Summarize(name: string): (r: Result<GroupSummary, string>)
      reads this
      requires Valid()
      ensures r.Success? ==> r.value.estrategia == name && r.value.n == GroupSize(records, name)
      ensures r.Success? <==>
        HasColumn(records, TempoS) && cpuTotalS.Some? && HasColumn(records, CpuPct)
        && HasColumn(records, MemMaxMb) && energiaEstimadaJ.Some? && edp.Some?
      ensures r.Success? ==> (r.value.testesExecutados.Some? <==> HasColumn(records, TestesExecutados))
    {
      if !HasColumn(records, TempoS) then Failure("tempo_s")
      else if cpuTotalS.None? then Failure("cpu_total_s")
      else if !HasColumn(records, CpuPct) then Failure("cpu_pct")
      else if !HasColumn(records, MemMaxMb) then Failure("mem_max_mb")
      else if energiaEstimadaJ.None? then Failure("energia_estimada_j")
      else if edp.None? then Failure("edp")
      else
        Success(GroupSummary(
          estrategia := name,
          n := GroupSize(records, name),
          tempoS := GroupMean(records, Column(records, TempoS), name),
          cpuTotalS := GroupMean(records, cpuTotalS.value, name),
          cpuPct := GroupMean(records, Column(records, CpuPct), name),
          memMaxMb := GroupMean(records, Column(records, MemMaxMb), name),
          energiaEstimadaJ := GroupMean(records, energiaEstimadaJ.value, name),
          edp := GroupMean(records, edp.value, name),
          testesExecutados :=
            if HasColumn(records, TestesExecutados)
            then Some(GroupMean(records, Column(records, TestesExecutados), name))
            else None))
    }

    /** The blocks `gerar_relatorio` prints for `names`, in order, and the `KeyError` that
        stopped it, if any. */
    function Report(names: seq<string>): (r: (seq<GroupSummary>, Option<string>))
      reads this
      requires Valid()
      ensures |r.0| <= |names|
      ensures r.1.Some? ==> r.1.value in {"estrategia", "tempo_s", "cpu_total_s", "cpu_pct", "mem_max_mb", "energia_estimada_j", "edp"}
    {
      if names == [] then ([], None)
      else
        var prev := Report(names[..|names| - 1]);
        var name := names[|names| - 1];
        if prev.1.Some? then prev
        else if !HasEstrategiaColumn(records) then (prev.0, Some("estrategia"))
        else if GroupSize(records, name) == 0 then prev
        else
          match Summarize(name)
          case Failure(e) => (prev.0, Some(e))
          case Success(block) => (prev.0 + [block], None)
    }

    /** The blocks name, in order, the strategies that have rows, up to the first
        `KeyError`; with no error, every such strategy has its block. */
    lemma {:induction false} ReportNames(names: seq<string>)
      requires Valid()
      ensures Report(names).1.None? ==> Names(Report(names).0) == WithRows(records, names)
      ensures Names(Report(names).0) <= WithRows(records, names)
      decreases |names|
    {
      if names != [] {
        var init := names[..|names| - 1];
        var name := names[|names| - 1];
        ReportNames(init);
        var prev := Report(init);
        WithRowsGrows(records, names);
        if prev.1.None? && HasEstrategiaColumn(records) && GroupSize(records, name) > 0 && Summarize(name).Success? {
          NamesAppend(prev.0, Summarize(name).value);
        }
      }
    }

    /** Each block counts the rows of its strategy. */
    lemma {:induction false} ReportCounts(names: seq<string>)
      requires Valid()
      ensures forall k :: 0 <= k < |Report(names).0| ==>
        Report(names).0[k].n == GroupSize(records, Report(names).0[k].estrategia)
      decreases |names|
    {
      if names != [] {
        var init := names[..|names| - 1];
        ReportCounts(init);
        var prev := Report(init).0;
        var blocks := Report(names).0;
        assert blocks == prev || (blocks == prev + [blocks[|blocks| - 1]] && blocks[|blocks| - 1].n
          == GroupSize(records, blocks[|blocks| - 1].estrategia));
        forall k | 0 <= k < |blocks| ensures blocks[k].n == GroupSize(records, blocks[k].estrategia) {
          if k < |prev| {
            assert blocks[k] == prev[k];
          }
        }
      }
    }

    /** Once a `KeyError` is raised, the later strategies print nothing. */
    lemma {:induction false} ReportStops(names: seq<string>, j: nat)
      requires Valid() && j <= |names|
      requires Report(names[..j]).1.Some?
      ensures Report(names) == Report(names[..j])
      decreases |names|
    {
      if j < |names| {
        var init := names[..|names| - 1];
        assert init[..j] == names[..j];
        ReportStops(init, j);
      } else {
        assert names[..j] == names;
      }
    }

    /** How the report of a prefix grows by one strategy while no error has been raised. */
    lemma ReportExtends(names: seq<string>, i: nat)
      requires Valid() && i < |names| && Report(names[..i]).1.None?
      ensures var prev := Report(names[..i]);
        Report(names[..i + 1]) ==
          if !HasEstrategiaColumn(records) then (prev.0, Some("estrategia"))
          else if GroupSize(records, names[i]) == 0 then prev
          else if Summarize(names[i]).Failure? then (prev.0, Some(Summarize(names[i]).error))
          else (prev.0 + [Summarize(names[i]).value], None)
    {
      assert names[..i + 1][..i] == names[..i];
    }

    /** `gerar_relatorio`: visits the strategies in order, skipping a strategy without rows. */
    method GerarRelatorio() returns (blocks: seq<GroupSummary>, error: Option<string>)
      requires Valid()
      ensures (blocks, error) == Report(Strategies)
    {
      blocks := [];
      error := None;
      for i := 0 to |Strategies|
        invariant error.None? && (blocks, error) == Report(Strategies[..i])
      {
        var estrategia := Strategies[i];
        ReportExtends(Strategies, i);
        if !HasEstrategiaColumn(records) {
          ReportStops(Strategies, i + 1);
          return blocks, Some("estrategia");
        }
        if GroupSize(records, estrategia) == 0 {
          continue;
        }
        var block := Summarize(estrategia);
        if block.Failure? {
          ReportStops(Strategies, i + 1);
          return blocks, Some(block.error);
        }
        blocks := blocks + [block.value];
      }
      assert Strategies[..|Strategies|] == Strategies;
    }
  }

  /** The strategy names of the report's blocks. */
  function Names(blocks: seq<GroupSummary>): (r: seq<string>)
    ensures |r| == |blocks|
  {
    if blocks == [] then [] else Names(blocks[..|blocks| - 1]) + [blocks[|blocks| - 1].estrategia]
  }

  lemma NamesAppend(blocks: seq<GroupSummary>, b: GroupSummary)
    ensures Names(blocks + [b]) == Names(blocks) + [b.estrategia]
  {
    assert (blocks + [b])[..|blocks|] == blocks;
  }

  /** The names in `names` whose strategy has at least one row, in order. */
  function WithRows(records: seq<TimeMetrics>, names: seq<string>): (r: seq<string>)
    ensures |r| <= |names|
  {
    if names == [] then []
    else
      var init := WithRows(records, names[..|names| - 1]);
      if GroupSize(records, names[|names| - 1]) > 0 then init + [names[|names| - 1]] else init
  }

  /** Adding a name keeps what came before as a prefix. */
  lemma WithRowsGrows(records: seq<TimeMetrics>, names: seq<string>)
    requires names != []
    ensures WithRows(records, names[..|names| - 1]) <= WithRows(records, names)
  {
  }
}
