/** The Eco-CI analysis of `scripts/metrics.py`: each JSON file Eco-CI wrote is decoded into a
    record whose round and strategy come from the file's path, the energy-delay product is
    derived, and hypotheses H1 and H2 compare strategy groups by their means. */
module EcoCi {
  import opened Wrappers
  import opened Text
  import opened Summary

  // ---------------------------------------------------------------------------------------
  // The path of a JSON file
  // ---------------------------------------------------------------------------------------

  /** Some piece of `subs` occurs in `p`: `any(s in p for s in subs)`. */
  predicate ContainsAny(p: string, subs: seq<string>) {
    exists k :: 0 <= k < |subs| && Contains(p, subs[k])
  }

  /** The index of the first path component that contains a piece of `subs`: the element
      `[p for p in parts if ...][0]` picks, or `None` where that raises `IndexError`. */
  function FirstContaining(parts: seq<string>, subs: seq<string>): (r: Option<nat>)
    ensures r.Some? ==> r.value < |parts| && ContainsAny(parts[r.value], subs)
    ensures r.Some? ==> forall j :: 0 <= j < r.value ==> !ContainsAny(parts[j], subs)
    ensures r.None? ==> forall j :: 0 <= j < |parts| ==> !ContainsAny(parts[j], subs)
  {
    if parts == [] then None
    else if ContainsAny(parts[0], subs) then Some(0)
    else
      match FirstContaining(parts[1..], subs)
      case None => None
      case Some(k) => Some(k + 1)
  }

  const StrategyNames: seq<string> := ["baseline", "parallel", "tia"]

  /** `rodada`: the integer after the first `-` of the first component naming a round. */
  function Rodada(path: string): (r: Result<int, string>)
    ensures r.Failure? ==> r.error in {"IndexError", "ValueError"}
    ensures var parts := Split(path, '/');
      FirstContaining(parts, ["rodada"]).None? ==> r == Failure("IndexError")
    ensures var parts := Split(path, '/');
      FirstContaining(parts, ["rodada"]).Some? ==>
        var pieces := Split(parts[FirstContaining(parts, ["rodada"]).value], '-');
        && (|pieces| < 2 ==> r == Failure("IndexError"))
        && (|pieces| >= 2 && PyInt(pieces[1]).None? ==> r == Failure("ValueError"))
        && (|pieces| >= 2 && PyInt(pieces[1]).Some? ==> r == Success(PyInt(pieces[1]).value))
  {
    RoundOfParts(Split(path, '/'))
  }

  /** The round named by a path's components: `IndexError` when no component names a round or
      the first that does has no `-`, `ValueError` when the piece after its first `-` is not an
      integer. */
  function RoundOfParts(parts: seq<string>): (r: Result<int, string>)
    ensures r.Failure? ==> r.error in {"IndexError", "ValueError"}
    ensures FirstContaining(parts, ["rodada"]).None? ==> r == Failure("IndexError")
    ensures FirstContaining(parts, ["rodada"]).Some? ==>
      var pieces := Split(parts[FirstContaining(parts, ["rodada"]).value], '-');
      && (|pieces| < 2 ==> r == Failure("IndexError"))
      && (|pieces| >= 2 && PyInt(pieces[1]).None? ==> r == Failure("ValueError"))
      && (|pieces| >= 2 && PyInt(pieces[1]).Some? ==> r == Success(PyInt(pieces[1]).value))
  {
    match FirstContaining(parts, ["rodada"])
    case None => Failure("IndexError")
    case Some(i) =>
      var pieces := Split(parts[i], '-');
      if |pieces| < 2 then Failure("IndexError")
      else
        match PyInt(pieces[1])
        case None => Failure("ValueError")
        case Some(n) => Success(n)
  }

  /** The component `FirstContaining` picks is the first that qualifies. */
  lemma {:induction false} FirstContainingIs(parts: seq<string>, subs: seq<string>, i: nat)
    requires i < |parts| && ContainsAny(parts[i], subs)
    requires forall j :: 0 <= j < i ==> !ContainsAny(parts[j], subs)
    ensures FirstContaining(parts, subs) == Some(i)
    decreases i
  {
    if i > 0 {
      assert parts[1..][i - 1] == parts[i];
      assert forall j :: 0 <= j < i - 1 ==> parts[1..][j] == parts[j + 1];
      FirstContainingIs(parts[1..], subs, i - 1);
    }
  }

  /** `estrategia`: the whole first component that names a strategy, not the name itself. */
  function Estrategia(path: string): (r: Result<string, string>)
    ensures r.Success? <==> FirstContaining(Split(path, '/'), StrategyNames).Some?
    ensures r.Success? ==> r.value in Split(path, '/') && ContainsAny(r.value, StrategyNames)
    ensures r.Failure? ==> r.error == "IndexError"
  {
    StrategyComponent(Split(path, '/'))
  }

  /** The component of a path that names its strategy. */
  function StrategyComponent(parts: seq<string>): (r: Result<string, string>)
    ensures r.Success? <==> FirstContaining(parts, StrategyNames).Some?
    ensures r.Success? ==> r.value in parts && ContainsAny(r.value, StrategyNames)
    ensures r.Failure? ==> r.error == "IndexError"
  {
    match FirstContaining(parts, StrategyNames)
    case None => Failure("IndexError")
    case Some(i) => Success(parts[i])
  }

  // ---------------------------------------------------------------------------------------
  // The JSON content
  // ---------------------------------------------------------------------------------------

  /** A top-level key of the Eco-CI output: absent, or an object that may hold `value`. */
  datatype Entry = Absent | Object(value: Option<real>)

  /** The four keys the script reads. */
  datatype EcoJson = EcoJson(energyTotal: Entry, duration: Entry, co2Total: Entry, cpuAvg: Entry)

  /** `data.get(key, {}).get('value', 0)`. */
  function ValueOrZero(e: Entry): (r: real)
    ensures e.Object? && e.value.Some? ==> r == e.value.value
    ensures !(e.Object? && e.value.Some?) ==> r == 0.0
  {
    match e
    case Absent => 0.0
    case Object(v) => if v.Some? then v.value else 0.0
  }

  /** One row of the frame `parse_eco_ci_logs` returns. */
  datatype EcoRecord = EcoRecord(
    rodada: int,
    estrategia: string,
    energiaMj: real,
    duracaoS: real,
    co2G: real,
    cpuAvg: real)

  /** A file the glob found: its path and its content, `None` when `json.load` fails. */
  datatype JsonFile = JsonFile(path: string, data: Option<EcoJson>)

  /** The body of the `try` block for one file: the record, or the exception that makes the
      loop skip the file. */
  function DecodeFile(f: JsonFile): (r: Result<EcoRecord, string>)
    ensures r.Success? <==> f.data.Some? && Rodada(f.path).Success? && Estrategia(f.path).Success?
    ensures r.Success? ==>
      && r.value.rodada == Rodada(f.path).value
      && r.value.estrategia == Estrategia(f.path).value
      && r.value.energiaMj == ValueOrZero(f.data.value.energyTotal)
      && r.value.duracaoS * 1000.0 == ValueOrZero(f.data.value.duration)
      && r.value.co2G == ValueOrZero(f.data.value.co2Total)
      && r.value.cpuAvg == ValueOrZero(f.data.value.cpuAvg)
  {
    match f.data
    case None => Failure("JSONDecodeError")
    case Some(data) =>
      match Rodada(f.path)
      case Failure(e) => Failure(e)
      case Success(rodada) =>
        match Estrategia(f.path)
        case Failure(e) => Failure(e)
        case Success(estrategia) =>
          Success(EcoRecord(
            rodada,
            estrategia,
            ValueOrZero(data.energyTotal),
            ValueOrZero(data.duration) / 1000.0,
            ValueOrZero(data.co2Total),
            ValueOrZero(data.cpuAvg)))
  }

  /** The rows of the frame, in the order the files were found; failing files are skipped. */
  function Decoded(files: seq<JsonFile>): (r: seq<EcoRecord>)
    ensures |r| <= |files|
    ensures forall k :: 0 <= k < |r| ==> exists i :: 0 <= i < |files| && DecodeFile(files[i]) == Success(r[k])
  {
    if files == [] then []
    else
      var rest := Decoded(files[..|files| - 1]);
      match DecodeFile(files[|files| - 1])
      case Failure(_) => rest
      case Success(record) => rest + [record]
  }

  /** No file that decodes is skipped. */
  lemma {:induction false} DecodedKeepsEvery(files: seq<JsonFile>, i: nat)
    requires i < |files| && DecodeFile(files[i]).Success?
    ensures DecodeFile(files[i]).value in Decoded(files)
    decreases |files|
  {
    var init := files[..|files| - 1];
    var last := DecodeFile(files[|files| - 1]);
    assert Decoded(files) == Decoded(init) + (if last.Success? then [last.value] else []);
    if i < |files| - 1 {
      assert DecodeFile(files[i]).value in Decoded(init) by {
        assert init[i] == files[i];
        DecodedKeepsEvery(init, i);
      }
    }
  }

  /** `parse_eco_ci_logs` over the files the glob found: an exception skips the file and the
      batch goes on. */
  method ParseEcoCiLogs(files: seq<JsonFile>) returns (results: seq<EcoRecord>)
    ensures results == Decoded(files)
  {
    results := [];
    for i := 0 to |files|
      invariant results == Decoded(files[..i])
    {
      assert files[..i + 1][..i] == files[..i];
      var record := DecodeFile(files[i]);
      if record.Success? {
        results := results + [record.value];
      }
    }
    assert files[..|files|] == files;
  }

  // ---------------------------------------------------------------------------------------
  // Paths laid out as documented
  // ---------------------------------------------------------------------------------------

  /** A component `rodada-W-...` starts with the round marker. */
  lemma RoundComponentNamesRound(word: string, tail: string)
    ensures ContainsAny("rodada-" + word + "-" + tail, ["rodada"])
  {
    var c := "rodada-" + word + "-" + tail;
    assert StartsAt(c, 0, "rodada") by {
      assert forall j :: 0 <= j < 6 ==> c[j] == "rodada"[j];
    }
    assert Contains(c, ["rodada"][0]);
  }

  /** The pieces of `rodada-W-...` split on `-` begin with `rodada` and `W`, when `W` has no `-`. */
  lemma RoundComponentPieces(word: string, tail: string)
    requires '-' !in word
    ensures var pieces := Split("rodada-" + word + "-" + tail, '-');
      |pieces| >= 2 && pieces[1] == word
  {
    assert "rodada-" + word + "-" + tail == "rodada" + ['-'] + (word + ['-'] + tail);
    assert '-' !in "rodada";
    SplitAfter("rodada", '-', word + ['-'] + tail);
    SplitAfter(word, '-', tail);
  }

  /** A numeral has no `-` in it. */
  lemma NatTextNoDash(n: nat)
    ensures '-' !in NatText(n)
  {
    var digits := NatText(n);
    forall j | 0 <= j < |digits| ensures digits[j] != '-' {
      assert IsDigit(digits[j]);
    }
  }

  /** The round of components whose first round component is `rodada-N-...` is N. */
  lemma RoundOfPartsIs(parts: seq<string>, i: nat, n: nat, tail: string)
    requires i < |parts| && parts[i] == "rodada-" + NatText(n) + "-" + tail
    requires forall j :: 0 <= j < i ==> !ContainsAny(parts[j], ["rodada"])
    ensures RoundOfParts(parts) == Success(n)
  {
    RoundComponentNamesRound(NatText(n), tail);
    FirstContainingIs(parts, ["rodada"], i);
    NatTextNoDash(n);
    RoundComponentPieces(NatText(n), tail);
    PyIntNatText(n);
  }

  /** When the piece after the first `-` of the first round component is not an integer,
      `int()` raises `ValueError`. */
  lemma RoundNotInteger(parts: seq<string>, i: nat, word: string, tail: string)
    requires i < |parts| && parts[i] == "rodada-" + word + "-" + tail
    requires '-' !in word && PyInt(word).None?
    requires forall j :: 0 <= j < i ==> !ContainsAny(parts[j], ["rodada"])
    ensures RoundOfParts(parts) == Failure("ValueError")
  {
    RoundComponentNamesRound(word, tail);
    FirstContainingIs(parts, ["rodada"], i);
    RoundComponentPieces(word, tail);
  }

  /** A first round component without any `-` has no second piece: `IndexError`. */
  lemma RoundWithoutDash(parts: seq<string>, i: nat)
    requires i < |parts| && ContainsAny(parts[i], ["rodada"]) && '-' !in parts[i]
    requires forall j :: 0 <= j < i ==> !ContainsAny(parts[j], ["rodada"])
    ensures RoundOfParts(parts) == Failure("IndexError")
  {
    FirstContainingIs(parts, ["rodada"], i);
    assert IndexOf(parts[i], '-') == |parts[i]|;
  }

  /** The round of a path whose first round component is `rodada-N-...` is N. */
  lemma RodadaOfPath(parts: seq<string>, i: nat, n: nat, tail: string)
    requires |parts| >= 1 && forall p :: p in parts ==> '/' !in p
    requires i < |parts| && parts[i] == "rodada-" + NatText(n) + "-" + tail
    requires forall j :: 0 <= j < i ==> !ContainsAny(parts[j], ["rodada"])
    ensures Rodada(Join(parts, '/')) == Success(n)
  {
    SplitJoin(parts, '/');
    RoundOfPartsIs(parts, i, n, tail);
  }

  /** The strategy of a path is its first component that names a strategy, whole. */
  lemma EstrategiaOfPath(parts: seq<string>, i: nat)
    requires |parts| >= 1 && forall p :: p in parts ==> '/' !in p
    requires i < |parts| && ContainsAny(parts[i], StrategyNames)
    requires forall j :: 0 <= j < i ==> !ContainsAny(parts[j], StrategyNames)
    ensures Estrategia(Join(parts, '/')) == Success(parts[i])
  {
    SplitJoin(parts, '/');
    FirstContainingIs(parts, StrategyNames, i);
  }

  // ---------------------------------------------------------------------------------------
  // calcular_edp
  // ---------------------------------------------------------------------------------------

  /** The frame `calcular_edp` extends in place with the `energia_j` and `edp` columns. */
  class EcoFrame {
    var records: seq<EcoRecord>
    var energiaJ: seq<real>
    var edp: seq<real>

    predicate Valid()
      reads this
    {
      |energiaJ| == |records| && |edp| == |records|
    }

    constructor(records: seq<EcoRecord>)
      ensures this.records == records
      ensures energiaJ == seq(|records|, _ => 0.0) && edp == seq(|records|, _ => 0.0)
      ensures Valid()
    {
      this.records := records;
      energiaJ := seq(|records|, _ => 0.0);
      edp := seq(|records|, _ => 0.0);
    }

    /** `energia_j = energia_mj / 1000`, then `edp = energia_j * duracao_s`, row by row. */
    method CalcularEdp()
      modifies this
      ensures records == old(records) && Valid()
      ensures forall i :: 0 <= i < |records| ==> energiaJ[i] * 1000.0 == records[i].energiaMj
      ensures forall i :: 0 <= i < |records| ==> edp[i] == energiaJ[i] * records[i].duracaoS
    {
      var rows := records;
      var joules := seq(|rows|, i requires 0 <= i < |rows| => rows[i].energiaMj / 1000.0);
      energiaJ := joules;
      edp := seq(|rows|, i requires 0 <= i < |rows| => joules[i] * rows[i].duracaoS);
    }

    /** After `calcular_edp`, the product in joule-seconds is the raw millijoules times the raw
        milliseconds, over a million. */
    lemma EdpFromRaw(data: EcoJson, i: nat)
      requires Valid() && i < |records|
      requires energiaJ[i] * 1000.0 == records[i].energiaMj
      requires edp[i] == energiaJ[i] * records[i].duracaoS
      requires records[i].energiaMj == ValueOrZero(data.energyTotal)
      requires records[i].duracaoS * 1000.0 == ValueOrZero(data.duration)
      ensures edp[i] * 1000000.0 == ValueOrZero(data.energyTotal) * ValueOrZero(data.duration)
    {
      var e := energiaJ[i];
      var d := records[i].duracaoS;
      calc {
        edp[i] * 1000000.0;
        (e * 1000.0) * (d * 1000.0);
        ValueOrZero(data.energyTotal) * ValueOrZero(data.duration);
      }
    }

    // -------------------------------------------------------------------------------------
    // teste_hipoteses
    // -------------------------------------------------------------------------------------

    /** `df[df['estrategia'] == name][column]`: the column's values on the rows whose strategy
        is exactly `name`. */
    function GroupAsWritten(column: seq<real>, name: string): (r: seq<real>)
      reads this
      requires Valid() && |column| == |records|
      ensures |r| <= |column|
      ensures |r| == |SelectedRows(records, name, false)|
      ensures forall j :: 0 <= j < |r| ==> r[j] == column[SelectedRows(records, name, false)[j]]
    {
      SelectedAtRows(records, column, name, false);
      Selected(records, column, name, false)
    }

    /** The same selection by the strategy the row's path component names. */
    function Group(column: seq<real>, name: string): (r: seq<real>)
      reads this
      requires Valid() && |column| == |records|
      ensures |r| <= |column|
      ensures |r| == |SelectedRows(records, name, true)|
      ensures forall j :: 0 <= j < |r| ==> r[j] == column[SelectedRows(records, name, true)[j]]
    {
      SelectedAtRows(records, column, name, true);
      Selected(records, column, name, true)
    }

    /** H1, `(mean_b - mean_t) / mean_b * 100` on `energia_j`. */
    function EnergyReduction(): (r: Option<real>)
      reads this
      requires Valid()
      ensures r.Some? <==>
        (Mean(Group(energiaJ, "baseline")).Some? && Mean(Group(energiaJ, "tia")).Some?
         && Mean(Group(energiaJ, "baseline")).value != 0.0)
      ensures r.Some? ==>
        Mean(Group(energiaJ, "tia")).value == Mean(Group(energiaJ, "baseline")).value * (1.0 - r.value / 100.0)
    {
      PercentReduction(Mean(Group(energiaJ, "baseline")), Mean(Group(energiaJ, "tia")))
    }

    /** H2, `(mean_p - mean_b) / mean_b * 100` on `edp`. */
    function EdpIncrease(): (r: Option<real>)
      reads this
      requires Valid()
      ensures r.Some? <==>
        (Mean(Group(edp, "baseline")).Some? && Mean(Group(edp, "parallel")).Some?
         && Mean(Group(edp, "baseline")).value != 0.0)
      ensures r.Some? ==>
        Mean(Group(edp, "parallel")).value == Mean(Group(edp, "baseline")).value * (1.0 + r.value / 100.0)
    {
      PercentChange(Mean(Group(edp, "baseline")), Mean(Group(edp, "parallel")))
    }
    /** H1 as the script computes it, on the groups the exact comparison selects. */
    function EnergyReductionAsWritten(): (r: Option<real>)
      reads this
      requires Valid()
      ensures r.Some? <==>
        (Mean(GroupAsWritten(energiaJ, "baseline")).Some? && Mean(GroupAsWritten(energiaJ, "tia")).Some?
         && Mean(GroupAsWritten(energiaJ, "baseline")).value != 0.0)
      ensures r.Some? ==>
        Mean(GroupAsWritten(energiaJ, "tia")).value
          == Mean(GroupAsWritten(energiaJ, "baseline")).value * (1.0 - r.value / 100.0)
    {
      PercentReduction(Mean(GroupAsWritten(energiaJ, "baseline")), Mean(GroupAsWritten(energiaJ, "tia")))
    }

    /** H2 as the script computes it. */
    function EdpIncreaseAsWritten(): (r: Option<real>)
      reads this
      requires Valid()
      ensures r.Some? <==>
        (Mean(GroupAsWritten(edp, "baseline")).Some? && Mean(GroupAsWritten(edp, "parallel")).Some?
         && Mean(GroupAsWritten(edp, "baseline")).value != 0.0)
      ensures r.Some? ==>
        Mean(GroupAsWritten(edp, "parallel")).value
          == Mean(GroupAsWritten(edp, "baseline")).value * (1.0 + r.value / 100.0)
    {
      PercentChange(Mean(GroupAsWritten(edp, "baseline")), Mean(GroupAsWritten(edp, "parallel")))
    }

    /** When every strategy is a directory that also names the round, as in the documented
        layout, the exact comparison selects no row and both percentages are NaN. */
    lemma AsWrittenHypothesesUndefined()
      requires Valid()
      requires forall i :: 0 <= i < |records| ==> Contains(records[i].estrategia, "rodada")
      ensures GroupAsWritten(energiaJ, "baseline") == [] && GroupAsWritten(edp, "baseline") == []
      ensures EnergyReductionAsWritten().None? && EdpIncreaseAsWritten().None?
    {
      StrategyNamesNameNoRound();
      SelectedNone(records, energiaJ, "baseline", false);
      SelectedNone(records, edp, "baseline", false);
    }

    /** The selection by named strategy keeps every row that names it: with a baseline row and
        a tia row, H1 is defined whenever the baseline mean is not zero. */
    lemma NamedGroupsKeepRows(b: nat, t: nat)
      requires Valid() && b < |records| && t < |records|
      requires StrategyOf(records[b].estrategia) == Some("baseline")
      requires StrategyOf(records[t].estrategia) == Some("tia")
      requires Mean(Group(energiaJ, "baseline")) != Some(0.0)
      ensures energiaJ[b] in Group(energiaJ, "baseline") && energiaJ[t] in Group(energiaJ, "tia")
      ensures EnergyReduction().Some?
    {
      SelectedKeeps(records, energiaJ, "baseline", b);
      SelectedKeeps(records, energiaJ, "tia", t);
    }
  }


  /** The strategy a path component names: the first of baseline, parallel and tia it contains. */
  function StrategyOf(component: string): (r: Option<string>)
    ensures r.Some? <==> ContainsAny(component, StrategyNames)
    ensures r.Some? ==> r.value in StrategyNames && Contains(component, r.value)
  {
    if Contains(component, "baseline") then
      assert Contains(component, StrategyNames[0]);
      Some("baseline")
    else if Contains(component, "parallel") then
      assert Contains(component, StrategyNames[1]);
      Some("parallel")
    else if Contains(component, "tia") then
      assert Contains(component, StrategyNames[2]);
      Some("tia")
    else
      assert forall k :: 0 <= k < |StrategyNames| ==> StrategyNames[k] in {"baseline", "parallel", "tia"};
      None
  }

  /** Whether a record falls in the group of strategy `name`: its strategy compared whole when
      `byName` is false, as the script does, or through `StrategyOf` when it is true. */
  predicate Hit(record: EcoRecord, name: string, byName: bool) {
    if byName then StrategyOf(record.estrategia) == Some(name) else record.estrategia == name
  }

  /** The indices of the rows in the group of `name`, in increasing order. */
  function SelectedRows(records: seq<EcoRecord>, name: string, byName: bool): (rows: seq<nat>)
    ensures forall j :: 0 <= j < |rows| ==> rows[j] < |records| && Hit(records[rows[j]], name, byName)
    ensures forall k :: 0 <= k < |records| && Hit(records[k], name, byName) ==> k in rows
    ensures forall i, j :: 0 <= i < j < |rows| ==> rows[i] < rows[j]
  {
    if records == [] then []
    else
      var n := |records| - 1;
      var rest := SelectedRows(records[..n], name, byName);
      if Hit(records[n], name, byName) then rest + [n] else rest
  }

  /** `df[df['estrategia'] == name][column]`: the column's values on the group's rows, in row
      order, each row once. */
  function Selected(records: seq<EcoRecord>, column: seq<real>, name: string, byName: bool): (r: seq<real>)
    requires |column| == |records|
    ensures |r| <= |column|
  {
    if records == [] then []
    else
      var n := |records| - 1;
      var rest := Selected(records[..n], column[..n], name, byName);
      if Hit(records[n], name, byName) then rest + [column[n]] else rest
  }

  /** A selection is the column read at the group's rows, in order. */
  lemma {:induction false} SelectedAtRows(records: seq<EcoRecord>, column: seq<real>, name: string, byName: bool)
    requires |column| == |records|
    ensures |Selected(records, column, name, byName)| == |SelectedRows(records, name, byName)|
    ensures forall j :: 0 <= j < |Selected(records, column, name, byName)| ==>
      Selected(records, column, name, byName)[j] == column[SelectedRows(records, name, byName)[j]]
    decreases |records|
  {
    if records != [] {
      var n := |records| - 1;
      SelectedAtRows(records[..n], column[..n], name, byName);
      var rows := SelectedRows(records[..n], name, byName);
      var rest := Selected(records[..n], column[..n], name, byName);
      forall j | 0 <= j < |rows| ensures rest[j] == column[rows[j]] {
        assert rows[j] < n;
      }
      if Hit(records[n], name, byName) {
        assert SelectedRows(records, name, byName) == rows + [n];
        assert Selected(records, column, name, byName) == rest + [column[n]];
      } else {
        assert SelectedRows(records, name, byName) == rows;
        assert Selected(records, column, name, byName) == rest;
      }
    }
  }

  /** A selection holds the value of every row of the group, and only values of such rows. */
  lemma GroupPicks(records: seq<EcoRecord>, column: seq<real>, name: string, byName: bool)
    requires |column| == |records|
    ensures forall k :: 0 <= k < |records| && Hit(records[k], name, byName) ==>
      column[k] in Selected(records, column, name, byName)
    ensures forall j :: 0 <= j < |Selected(records, column, name, byName)| ==>
      exists k :: 0 <= k < |records| && Hit(records[k], name, byName)
        && Selected(records, column, name, byName)[j] == column[k]
  {
    var rows := SelectedRows(records, name, byName);
    var r := Selected(records, column, name, byName);
    SelectedAtRows(records, column, name, byName);
    forall k | 0 <= k < |records| && Hit(records[k], name, byName) ensures column[k] in r {
      var j :| 0 <= j < |rows| && rows[j] == k;
      assert r[j] == column[k];
    }
    forall j | 0 <= j < |r|
      ensures exists k :: 0 <= k < |records| && Hit(records[k], name, byName) && r[j] == column[k]
    {
      assert Hit(records[rows[j]], name, byName);
    }
  }

  /** A row that names the strategy is selected. */
  lemma {:induction false} SelectedKeeps(records: seq<EcoRecord>, column: seq<real>, name: string, i: nat)
    requires |column| == |records| && i < |records|
    requires StrategyOf(records[i].estrategia) == Some(name)
    ensures column[i] in Selected(records, column, name, true)
    decreases |records|
  {
    var n := |records| - 1;
    if i < n {
      SelectedKeeps(records[..n], column[..n], name, i);
    }
  }

  /** None of the strategy names contains `rodada`. */
  lemma StrategyNamesNameNoRound()
    ensures !Contains("baseline", "rodada") && !Contains("parallel", "rodada") && !Contains("tia", "rodada")
  {
    ShorterNotContained("tia", "rodada");
    var b := "baseline";
    forall k | 0 <= k <= |b| ensures !StartsAt(b, k, "rodada") {
      if k == 0 {
        assert b[0] != "rodada"[0];
      } else if k == 1 {
        assert b[1] != "rodada"[0];
      } else if k == 2 {
        assert b[2] != "rodada"[0];
      }
    }
    var p := "parallel";
    forall k | 0 <= k <= |p| ensures !StartsAt(p, k, "rodada") {
      if k == 0 {
        assert p[0] != "rodada"[0];
      } else if k == 1 {
        assert p[1] != "rodada"[0];
      } else if k == 2 {
        assert p[2 + 1] != "rodada"[1];
      }
    }
  }

  /** Every row whose strategy qualifies is selected, so the group is the whole column when
      every row qualifies. */
  lemma {:induction false} SelectedAll(records: seq<EcoRecord>, column: seq<real>, name: string)
    requires |column| == |records|
    requires forall i :: 0 <= i < |records| ==> StrategyOf(records[i].estrategia) == Some(name)
    ensures Selected(records, column, name, true) == column
    decreases |records|
  {
    if records != [] {
      var n := |records| - 1;
      SelectedAll(records[..n], column[..n], name);
      assert column[..n] + [column[n]] == column;
    }
  }

  /** No row is selected when no row's strategy equals the name. */
  lemma {:induction false} SelectedNone(records: seq<EcoRecord>, column: seq<real>, name: string, byName: bool)
    requires |column| == |records|
    requires forall i :: 0 <= i < |records| ==> !Hit(records[i], name, byName)
    ensures Selected(records, column, name, byName) == []
    decreases |records|
  {
    if records != [] {
      var n := |records| - 1;
      SelectedNone(records[..n], column[..n], name, byName);
    }
  }

  // ---------------------------------------------------------------------------------------
  // The documented layout: data/raw/rodada-X-estrategia-Y/eco-ci-output.json
  // ---------------------------------------------------------------------------------------

  const RunDirectory: string := "rodada-" + "1" + "-" + "estrategia-baseline"
  const DocumentedParts: seq<string> := ["data", "raw", RunDirectory, "eco-ci-output.json"]

  /** A component shorter than `rodada` without `ti` in it names neither a round nor a strategy. */
  lemma NamesNothing(s: string)
    requires |s| < 6
    requires forall k :: 0 <= k < |s| - 1 ==> !(s[k] == 't' && s[k + 1] == 'i')
    ensures !ContainsAny(s, ["rodada"]) && !ContainsAny(s, StrategyNames)
  {
    ShorterNotContained(s, "rodada");
    ShorterNotContained(s, "baseline");
    ShorterNotContained(s, "parallel");
    forall k | 0 <= k <= |s| ensures !StartsAt(s, k, "tia") {
      if k + 3 <= |s| {
        assert "tia"[0] == 't' && "tia"[1] == 'i';
        assert !(s[k] == 't' && s[k + 1] == 'i');
      }
    }
    assert StrategyNames[0] == "baseline" && StrategyNames[1] == "parallel" && StrategyNames[2] == "tia";
  }

  lemma LeadingComponentsNameNothing()
    ensures !ContainsAny("data", ["rodada"]) && !ContainsAny("data", StrategyNames)
    ensures !ContainsAny("raw", ["rodada"]) && !ContainsAny("raw", StrategyNames)
  {
    NamesNothing("data");
    NamesNothing("raw");
  }

  /** The run directory names the baseline strategy, yet is not the word `baseline`. */
  lemma RunDirectoryIsBaseline()
    ensures StrategyOf(RunDirectory) == Some("baseline")
    ensures RunDirectory != "baseline"
  {
    assert StartsAt(RunDirectory, 20, "baseline") by {
      assert forall j :: 0 <= j < 8 ==> RunDirectory[20 + j] == "baseline"[j];
    }
  }

  lemma RunDirectoryParts()
    ensures RunDirectory == "rodada-" + NatText(1) + "-" + "estrategia-baseline"
  {
    assert DigitChar(1) == '1' by {
      assert '0' as int + 1 == '1' as int;
    }
    assert NatText(1) == "1";
  }

  lemma DocumentedPartsSeparatorFree()
    ensures forall p :: p in DocumentedParts ==> '/' !in p
  {
    forall i | 0 <= i < |DocumentedParts| ensures '/' !in DocumentedParts[i] {
      var p := DocumentedParts[i];
      forall k | 0 <= k < |p| ensures p[k] != '/' {
      }
    }
  }

  lemma DocumentedRound()
    ensures Rodada(Join(DocumentedParts, '/')) == Success(1)
  {
    DocumentedPartsSeparatorFree();
    LeadingComponentsNameNothing();
    RunDirectoryParts();
    RodadaOfPath(DocumentedParts, 2, 1, "estrategia-baseline");
  }

  lemma DocumentedStrategy()
    ensures Estrategia(Join(DocumentedParts, '/')) == Success(RunDirectory)
  {
    DocumentedPartsSeparatorFree();
    LeadingComponentsNameNothing();
    RunDirectoryIsBaseline();
    EstrategiaOfPath(DocumentedParts, 2);
  }

  /** A file at `data/raw/rodada-1-estrategia-baseline/eco-ci-output.json` is round 1, and its
      strategy is the whole directory name, which names the baseline strategy. */
  lemma DocumentedLayout(data: EcoJson)
    ensures var r := DecodeFile(JsonFile(Join(DocumentedParts, '/'), Some(data)));
      && r.Success?
      && r.value.rodada == 1
      && r.value.estrategia == RunDirectory
      && StrategyOf(r.value.estrategia) == Some("baseline")
  {
    DocumentedRound();
    DocumentedStrategy();
    RunDirectoryIsBaseline();
  }
}
