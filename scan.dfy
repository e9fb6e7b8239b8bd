/** The regular expressions the scripts search with, each written out as a hand-made matcher.

    Every pattern here is built from runs of character classes that never overlap with
    what follows them (`\s+` then `\d+`, `\d+` then `:`), so a greedy run can only succeed by
    taking the longest run: backtracking into it leaves a character the next piece rejects.
    The matchers therefore take maximal runs, and `re.search` becomes "the match at the least
    start position", `.*?:` becomes "the least colon, on the same line, after which the rest
    of the pattern matches", and `re.findall` becomes a left-to-right scan that resumes at
    the end of each match. */
module Scan {
  import opened Wrappers
  import opened Text

  datatype CharClass = DigitClass | SpaceClass | WordClass | ColonOrSpaceClass | DotClass

  predicate InClass(c: char, cls: CharClass) {
    match cls
    case DigitClass => IsDigit(c)
    case SpaceClass => IsSpace(c)
    case WordClass => IsWordChar(c)
    case ColonOrSpaceClass => c == ':' || IsSpace(c)
    case DotClass => c != '\n'
  }

  /** The end of the longest run of `cls` characters starting at `i`: what a greedy
      `cls*` consumes there (a greedy `cls+` matches when the run is not empty). */
  function RunEnd(s: string, i: nat, cls: CharClass): (e: nat)
    requires i <= |s|
    ensures i <= e <= |s|
    ensures forall k :: i <= k < e ==> InClass(s[k], cls)
    ensures e == |s| || !InClass(s[e], cls)
    decreases |s| - i
  {
    if i == |s| || !InClass(s[i], cls) then i else RunEnd(s, i + 1, cls)
  }

  // ---------------------------------------------------------------------------------------
  // Patterns and what they capture
  // ---------------------------------------------------------------------------------------

  /** What follows `\s+` in a labelled field of the `/usr/bin/time -v` report. */
  datatype Tail =
    | WordTail      // (\w+)
    | IntTail       // (\d+)
    | DecimalTail   // (\d+\.\d+)
    | PercentTail   // (\d+)%
    | ClockTail     // (\d+):(\d+\.\d+)

  datatype Pattern =
      /** `tag\s+tail`, or `tag.*?:\s+tail` when `lazyColon` holds; case-sensitive. */
    | Labelled(tag: string, lazyColon: bool, tail: Tail)
      /** `tag[:\s]+(\d+\.?\d*)\s*(first|second)` compiled with `re.IGNORECASE`. */
    | Measured(tag: string, first: string, second: string)
      /** `(\d+) passed`. */
    | Passed

  /** The groups of one match, split where the script converts them. */
  datatype Capture =
    | Word(text: string)
    | Digits(text: string)
    | Decimal(ip: string, fp: string)
    | Clock(minutes: string, ip: string, fp: string)
    | Quantity(ip: string, fp: string, unit: string)

  /** Digit groups hold digits and the groups a `+` quantifier reads are not empty. */
  predicate WellFormed(c: Capture) {
    match c
    case Word(w) => |w| >= 1 && forall k :: 0 <= k < |w| ==> IsWordChar(w[k])
    case Digits(d) => |d| >= 1 && AllDigits(d)
    case Decimal(ip, fp) => |ip| >= 1 && |fp| >= 1 && AllDigits(ip) && AllDigits(fp)
    case Clock(m, ip, fp) => |m| >= 1 && |ip| >= 1 && |fp| >= 1 && AllDigits(m) && AllDigits(ip) && AllDigits(fp)
    case Quantity(ip, fp, _) => |ip| >= 1 && AllDigits(ip) && AllDigits(fp)
  }

  /** The groups a `tail` captures. */
  predicate TailShaped(t: Tail, c: Capture) {
    match t
    case WordTail => c.Word?
    case IntTail => c.Digits?
    case PercentTail => c.Digits?
    case DecimalTail => c.Decimal?
    case ClockTail => c.Clock?
  }

  /** The groups a match of `pat` captures. */
  predicate Shaped(pat: Pattern, c: Capture) {
    match pat
    case Labelled(_, _, t) => TailShaped(t, c)
    case Measured(_, _, _) => c.Quantity?
    case Passed => c.Digits?
  }

  /** A match: where it ends and what it captured. */
  datatype Match = Match(end: nat, capture: Capture)

  predicate GoodMatch(s: string, i: nat, m: Match) {
    i < m.end <= |s| && WellFormed(m.capture)
  }

  // ---------------------------------------------------------------------------------------
  // Matching at one position
  // ---------------------------------------------------------------------------------------

  /** `\d+\.\d+` at `q`: its end, integer digits and fraction digits. */
  function DecimalAt(s: string, q: nat): (r: Option<(nat, string, string)>)
    requires q <= |s|
    ensures r.Some? ==> q < r.value.0 <= |s| && |r.value.1| >= 1 && |r.value.2| >= 1
    ensures r.Some? ==> AllDigits(r.value.1) && AllDigits(r.value.2)
    ensures r.Some? ==> r.value.0 == |s| || !IsDigit(s[r.value.0])
  {
    var e1 := RunEnd(s, q, DigitClass);
    if e1 == q || e1 == |s| || s[e1] != '.' then None
    else
      var e2 := RunEnd(s, e1 + 1, DigitClass);
      if e2 == e1 + 1 then None else Some((e2, s[q..e1], s[e1 + 1..e2]))
  }

  /** `\s+` followed by the tail, at `p`. */
  function TailAt(t: Tail, s: string, p: nat): (r: Option<Match>)
    requires p <= |s|
    ensures r.Some? ==> GoodMatch(s, p, r.value)
    ensures r.Some? ==> p < |s| && IsSpace(s[p])
    ensures r.Some? ==> TailShaped(t, r.value.capture)
  {
    var w := RunEnd(s, p, SpaceClass);
    if w == p then None else GroupAt(t, s, w)
  }

  /** The groups of the tail, at `w`. */
  function GroupAt(t: Tail, s: string, w: nat): (r: Option<Match>)
    requires w <= |s|
    ensures r.Some? ==> GoodMatch(s, w, r.value) && TailShaped(t, r.value.capture)
  {
    match t
    case WordTail =>
      var e := RunEnd(s, w, WordClass);
      if e == w then None else Some(Match(e, Word(s[w..e])))
    case IntTail =>
      var e := RunEnd(s, w, DigitClass);
      if e == w then None else Some(Match(e, Digits(s[w..e])))
    case PercentTail =>
      var e := RunEnd(s, w, DigitClass);
      if e == w || e == |s| || s[e] != '%' then None else Some(Match(e + 1, Digits(s[w..e])))
    case DecimalTail =>
      (match DecimalAt(s, w)
       case None => None
       case Some((e, ip, fp)) => Some(Match(e, Decimal(ip, fp))))
    case ClockTail => ClockAt(s, w)
  }

  /** `(\d+):(\d+\.\d+)` at `w`. */
  function ClockAt(s: string, w: nat): (r: Option<Match>)
    requires w <= |s|
    ensures r.Some? ==> GoodMatch(s, w, r.value) && r.value.capture.Clock?
  {
    var e := RunEnd(s, w, DigitClass);
    if e == w || e == |s| || s[e] != ':' then None
    else
      match DecimalAt(s, e + 1)
      case None => None
      case Some((e2, ip, fp)) => Some(Match(e2, Clock(s[w..e], ip, fp)))
  }

  /** `.*?:\s+tail` tried with the lazy part ending at `k`: a colon at `k`, then the tail. */
  function ColonTail(t: Tail, s: string, k: nat): (r: Option<Match>)
    ensures r.Some? ==> k < |s| && s[k] == ':' && GoodMatch(s, k + 1, r.value)
    ensures r.Some? ==> k + 1 < |s| && IsSpace(s[k + 1])
    ensures r.Some? ==> TailShaped(t, r.value.capture)
  {
    if k < |s| && s[k] == ':' then TailAt(t, s, k + 1) else None
  }

  /** The least position in `[from, n]` where `f` succeeds, with what it returned there. */
  function FirstFrom<T>(f: nat -> Option<T>, n: nat, from: nat): (r: Option<(nat, T)>)
    requires from <= n
    ensures r.Some? ==> from <= r.value.0 <= n && f(r.value.0) == Some(r.value.1)
    ensures r.Some? ==> forall k :: from <= k < r.value.0 ==> f(k).None?
    ensures r.None? ==> forall k :: from <= k <= n ==> f(k).None?
    decreases n - from
  {
    match f(from)
    case Some(m) => Some((from, m))
    case None => if from == n then None else FirstFrom(f, n, from + 1)
  }

  /** `.*?:\s+tail` at `j`: `.` stops at a line break, so the lazy part can end anywhere up
      to the end of the line; the least end whose colon and tail match is taken. */
  function LazyColon(t: Tail, s: string, j: nat): (r: Option<(nat, Match)>)
    requires j <= |s|
    ensures r.Some? ==> j <= r.value.0 <= RunEnd(s, j, DotClass) && ColonTail(t, s, r.value.0) == Some(r.value.1)
    ensures r.Some? ==> forall m :: j <= m < r.value.0 ==> s[m] != '\n'
    ensures r.Some? ==> forall k :: j <= k < r.value.0 ==> ColonTail(t, s, k).None?
    ensures r.None? ==> forall k :: j <= k <= RunEnd(s, j, DotClass) ==> ColonTail(t, s, k).None?
  {
    var f := k => ColonTail(t, s, k);
    assert forall k :: f(k) == ColonTail(t, s, k);
    FirstFrom(f, RunEnd(s, j, DotClass), j)
  }

  /** `tag[:\s]+(\d+\.?\d*)\s*(first|second)`, letters compared without regard to case. */
  function MeasuredAt(tag: string, first: string, second: string, s: string, i: nat): (r: Option<Match>)
    requires i <= |s|
    ensures r.Some? ==> GoodMatch(s, i, r.value) && r.value.capture.Quantity?
  {
    if !StartsAtFold(s, i, tag) then None
    else
      var a := i + |tag|;
      var b := RunEnd(s, a, ColonOrSpaceClass);
      if b == a then None else QuantityAt(first, second, s, b)
  }

  /** `(\d+\.?\d*)\s*(first|second)` at `b`. */
  function QuantityAt(first: string, second: string, s: string, b: nat): (r: Option<Match>)
    requires b <= |s|
    ensures r.Some? ==> GoodMatch(s, b, r.value) && r.value.capture.Quantity?
  {
    match NumberAt(s, b)
    case None => None
    case Some((d, ip, fp)) => UnitAfter(first, second, s, d, ip, fp)
  }

  /** `\s*(first|second)` after a number that ends at `d`. */
  function UnitAfter(first: string, second: string, s: string, d: nat, ip: string, fp: string): (r: Option<Match>)
    requires d <= |s| && |ip| >= 1 && AllDigits(ip) && AllDigits(fp)
    ensures r.Some? ==> d <= r.value.end <= |s| && r.value.capture.Quantity?
    ensures r.Some? ==> r.value.capture.ip == ip && r.value.capture.fp == fp
  {
    var w := RunEnd(s, d, SpaceClass);
    match UnitAt(first, second, s, w)
    case None => None
    case Some(unit) => Some(Match(w + |unit|, Quantity(ip, fp, unit)))
  }

  /** `(\d+\.?\d*)` at `b`: where it ends, the digits before the point and those after it. */
  function NumberAt(s: string, b: nat): (r: Option<(nat, string, string)>)
    requires b <= |s|
    ensures r.Some? ==> b < r.value.0 <= |s| && |r.value.1| >= 1 && AllDigits(r.value.1) && AllDigits(r.value.2)
  {
    var d1 := RunEnd(s, b, DigitClass);
    if d1 == b then None
    else
      var point := d1 < |s| && s[d1] == '.';
      var d2 := if point then RunEnd(s, d1 + 1, DigitClass) else d1;
      var fp := if point then s[d1 + 1..d2] else "";
      Some((d2, s[b..d1], fp))
  }

  /** `(first|second)` at `w`, ignoring case: the unit as the text spells it. */
  function UnitAt(first: string, second: string, s: string, w: nat): (r: Option<string>)
    requires w <= |s|
    ensures r.Some? ==> w + |r.value| <= |s| && r.value == s[w..w + |r.value|]
    ensures r.Some? <==> StartsAtFold(s, w, first) || StartsAtFold(s, w, second)
  {
    if StartsAtFold(s, w, first) then Some(s[w..w + |first|])
    else if StartsAtFold(s, w, second) then Some(s[w..w + |second|])
    else None
  }

  /** `tag\s+tail` or `tag.*?:\s+tail` at `i`. */
  function LabelledAt(tag: string, lazyColon: bool, t: Tail, s: string, i: nat): (r: Option<Match>)
    requires i <= |s|
    ensures r.Some? ==> GoodMatch(s, i, r.value) && TailShaped(t, r.value.capture)
  {
    if !StartsAt(s, i, tag) then None
    else if lazyColon then
      (match LazyColon(t, s, i + |tag|)
       case None => None
       case Some((_, m)) => Some(m))
    else TailAt(t, s, i + |tag|)
  }

  /** `(\d+) passed` at `i`. */
  function PassedAt(s: string, i: nat): (r: Option<Match>)
    requires i <= |s|
    ensures r.Some? ==> GoodMatch(s, i, r.value) && r.value.capture.Digits?
  {
    var e := RunEnd(s, i, DigitClass);
    if e == i || !StartsAt(s, e, " passed") then None else Some(Match(e + 7, Digits(s[i..e])))
  }

  /** The match of `pat` that starts exactly at `i`, if any. */
  function MatchAt(pat: Pattern, s: string, i: nat): (r: Option<Match>)
    ensures r.Some? ==> GoodMatch(s, i, r.value) && Shaped(pat, r.value.capture)
  {
    if i > |s| then None
    else match pat
    case Labelled(tag, lazyColon, t) => LabelledAt(tag, lazyColon, t, s, i)
    case Measured(tag, first, second) => MeasuredAt(tag, first, second, s, i)
    case Passed => PassedAt(s, i)
  }

  // ---------------------------------------------------------------------------------------
  // re.search and re.findall
  // ---------------------------------------------------------------------------------------

  /** `re.search(pat, s[from..])`: the match at the least start position, with that position. */
  function Search(pat: Pattern, s: string, from: nat): (r: Option<(nat, Match)>)
    requires from <= |s|
    ensures r.Some? ==> from <= r.value.0 <= |s| && MatchAt(pat, s, r.value.0) == Some(r.value.1)
    ensures r.Some? ==> forall k :: from <= k < r.value.0 ==> MatchAt(pat, s, k).None?
    ensures r.None? ==> forall k :: from <= k <= |s| ==> MatchAt(pat, s, k).None?
  {
    var f := (k: nat) => MatchAt(pat, s, k);
    assert forall k: nat :: f(k) == MatchAt(pat, s, k);
    FirstFrom(f, |s|, from)
  }

  /** The captured groups of the first match in `s`, if there is one. */
  function First(pat: Pattern, s: string): (r: Option<Capture>)
    ensures r.Some? ==> WellFormed(r.value) && Shaped(pat, r.value)
  {
    match Search(pat, s, 0)
    case None => None
    case Some((_, m)) => Some(m.capture)
  }

  /** `f` reports, for each position of `[i, n]`, a match that starts there and ends after it,
      within `n`. */
  predicate Advances(f: nat -> Option<Match>, n: nat, i: nat) {
    forall k :: i <= k <= n && f(k).Some? ==> k < f(k).value.end <= n
  }

  /** The groups of the matches `f` reports, scanning `[i, n]` from left to right and resuming
      where each match ends. */
  function AllFrom(f: nat -> Option<Match>, n: nat, i: nat): (r: seq<Capture>)
    requires i <= n && Advances(f, n, i)
    decreases n - i
  {
    match f(i)
    case Some(m) => [m.capture] + AllFrom(f, n, m.end)
    case None => if i == n then [] else AllFrom(f, n, i + 1)
  }

  /** A property every reported match's groups have holds of every element of the scan. */
  lemma {:induction false} AllFromKeeps(f: nat -> Option<Match>, n: nat, i: nat, ok: Capture -> bool)
    requires i <= n && Advances(f, n, i)
    requires forall k :: i <= k <= n && f(k).Some? ==> ok(f(k).value.capture)
    ensures forall j :: 0 <= j < |AllFrom(f, n, i)| ==> ok(AllFrom(f, n, i)[j])
    decreases n - i
  {
    match f(i)
    case Some(m) => AllFromKeeps(f, n, m.end, ok);
    case None => if i < n { AllFromKeeps(f, n, i + 1, ok); }
  }

  /** `re.findall(pat, s[i..])`: every match, scanning left to right and resuming after each. */
  function FindAll(pat: Pattern, s: string, i: nat): (r: seq<Capture>)
    requires i <= |s|
    ensures forall k :: 0 <= k < |r| ==> WellFormed(r[k]) && Shaped(pat, r[k])
  {
    var f := (k: nat) => MatchAt(pat, s, k);
    assert forall k: nat :: f(k) == MatchAt(pat, s, k);
    AllFromKeeps(f, |s|, i, c => WellFormed(c) && Shaped(pat, c));
    AllFrom(f, |s|, i)
  }

  // ---------------------------------------------------------------------------------------
  // Leftmost matching
  // ---------------------------------------------------------------------------------------

  /** With no match between `from` and `p`, the search reports the match at `p`. */
  lemma SearchFrom(pat: Pattern, s: string, from: nat, p: nat, m: Match)
    requires from <= p <= |s|
    requires forall k :: from <= k < p ==> MatchAt(pat, s, k).None?
    requires MatchAt(pat, s, p) == Some(m)
    ensures Search(pat, s, from) == Some((p, m))
  {
    var r := Search(pat, s, from);
    assert r.Some? && r.value.0 == p;
  }

  /** A match at `p` is what a search starting at `p` reports. */
  lemma SearchHere(pat: Pattern, s: string, p: nat, m: Match)
    requires p <= |s|
    requires MatchAt(pat, s, p) == Some(m)
    ensures Search(pat, s, p) == Some((p, m))
  {
    SearchFrom(pat, s, p, p, m);
  }

  /** A match at the start of the text is the first match. */
  lemma FirstHere(pat: Pattern, s: string, m: Match)
    requires MatchAt(pat, s, 0) == Some(m)
    ensures First(pat, s) == Some(m.capture)
  {
    SearchHere(pat, s, 0, m);
  }

  /** When no position from `from` on matches, the search finds nothing. */
  lemma SearchNone(pat: Pattern, s: string, from: nat)
    requires from <= |s|
    requires forall k :: from <= k <= |s| ==> MatchAt(pat, s, k).None?
    ensures Search(pat, s, from).None?
  {
  }

  /** A match at `i` is the next one the scan returns; it resumes where the match ends. */
  lemma AllFromHere(f: nat -> Option<Match>, n: nat, i: nat, m: Match)
    requires i <= n && Advances(f, n, i) && f(i) == Some(m)
    ensures AllFrom(f, n, i) == [m.capture] + AllFrom(f, n, m.end)
  {
  }

  /** With no match from `i` on, the scan finds nothing. */
  lemma {:induction false} AllFromNone(f: nat -> Option<Match>, n: nat, i: nat)
    requires i <= n && Advances(f, n, i)
    requires forall k :: i <= k <= n ==> f(k).None?
    ensures AllFrom(f, n, i) == []
    decreases n - i
  {
    if i < n {
      AllFromNone(f, n, i + 1);
    }
  }

  /** The last element of a sequence. */
  function Last<T>(xs: seq<T>): T
    requires xs != []
  {
    xs[|xs| - 1]
  }

  /** The scan reaches a match at `p` when every match before it ends by `p`; when nothing
      matches after it, its groups are the last ones the scan returns. */
  lemma {:induction false} AllFromLast(f: nat -> Option<Match>, n: nat, i: nat, p: nat, m: Match)
    requires i <= p <= n && Advances(f, n, i)
    requires f(p) == Some(m)
    requires forall k :: i <= k < p && f(k).Some? ==> f(k).value.end <= p
    requires forall k :: m.end <= k <= n ==> f(k).None?
    ensures AllFrom(f, n, i) != [] && Last(AllFrom(f, n, i)) == m.capture
    decreases n - i
  {
    if i == p {
      AllFromNone(f, n, m.end);
    } else if f(i).Some? {
      AllFromLast(f, n, f(i).value.end, p, m);
    } else {
      AllFromLast(f, n, i + 1, p, m);
    }
  }

  /** With no match from `i` on, `findall` finds nothing. */
  lemma FindAllNone(pat: Pattern, s: string, i: nat)
    requires i <= |s|
    requires forall k :: i <= k <= |s| ==> MatchAt(pat, s, k).None?
    ensures FindAll(pat, s, i) == []
  {
    var f := (k: nat) => MatchAt(pat, s, k);
    assert forall k: nat :: f(k) == MatchAt(pat, s, k);
    AllFromNone(f, |s|, i);
  }

  /** A match at `i` is the next element of `findall`, which resumes where the match ends. */
  lemma FindAllHere(pat: Pattern, s: string, i: nat, m: Match)
    requires i <= |s| && MatchAt(pat, s, i) == Some(m)
    ensures i < m.end <= |s|
    ensures FindAll(pat, s, i) == [m.capture] + FindAll(pat, s, m.end)
  {
    var f := (k: nat) => MatchAt(pat, s, k);
    assert forall k: nat :: f(k) == MatchAt(pat, s, k);
    AllFromHere(f, |s|, i, m);
  }

  /** Without a match at `i`, `findall` moves on to the next position. */
  lemma FindAllSkip(pat: Pattern, s: string, i: nat)
    requires i < |s| && MatchAt(pat, s, i).None?
    ensures FindAll(pat, s, i) == FindAll(pat, s, i + 1)
  {
    var f := (k: nat) => MatchAt(pat, s, k);
    assert forall k: nat :: f(k) == MatchAt(pat, s, k);
    assert AllFrom(f, |s|, i) == AllFrom(f, |s|, i + 1);
  }

  /** The last match: when every match that starts before `p` ends by `p`, a match at `p`
      is found, and nothing matches after it, `findall` returns its groups last. */
  lemma FindAllLast(pat: Pattern, s: string, i: nat, p: nat, m: Match)
    requires i <= p <= |s|
    requires MatchAt(pat, s, p) == Some(m)
    requires forall k :: i <= k < p && MatchAt(pat, s, k).Some? ==> MatchAt(pat, s, k).value.end <= p
    requires forall k :: m.end <= k <= |s| ==> MatchAt(pat, s, k).None?
    ensures FindAll(pat, s, i) != [] && Last(FindAll(pat, s, i)) == m.capture
  {
    var f := (k: nat) => MatchAt(pat, s, k);
    assert forall k: nat :: f(k) == MatchAt(pat, s, k);
    AllFromLast(f, |s|, i, p, m);
  }

  // ---------------------------------------------------------------------------------------
  // Matches on known text
  // ---------------------------------------------------------------------------------------

  /** A run of `cls` from `i` that stops at `j` ends at `j`. */
  lemma {:induction false} RunEndIs(s: string, i: nat, j: nat, cls: CharClass)
    requires i <= j <= |s|
    requires forall k :: i <= k < j ==> InClass(s[k], cls)
    requires j == |s| || !InClass(s[j], cls)
    ensures RunEnd(s, i, cls) == j
    decreases j - i
  {
    if i < j {
      RunEndIs(s, i + 1, j, cls);
    }
  }

  /** A number with no point after its digits is those digits. */
  lemma NumberAtDigits(s: string, b: nat, d1: nat)
    requires b < d1 < |s| && RunEnd(s, b, DigitClass) == d1 && s[d1] != '.'
    ensures NumberAt(s, b) == Some((d1, s[b..d1], ""))
  {
  }

  /** A number `ip`, with the fraction `fp` if it has a point, up to `d`, followed by the rest
      of a quantity. */
  lemma QuantityAtParts(first: string, second: string, s: string, b: nat, d: nat, ip: string, fp: string, m: Match)
    requires b < d <= |s| && NumberAt(s, b) == Some((d, ip, fp))
    requires UnitAfter(first, second, s, d, ip, fp) == Some(m)
    ensures QuantityAt(first, second, s, b) == Some(m)
  {
  }

  /** Spaces up to `w` and the unit that ends the text. */
  lemma UnitAfterParts(first: string, second: string, s: string, d: nat, w: nat, ip: string, fp: string, unit: string)
    requires d <= w <= |s| && |ip| >= 1 && AllDigits(ip) && AllDigits(fp)
    requires RunEnd(s, d, SpaceClass) == w && UnitAt(first, second, s, w) == Some(unit) && w + |unit| == |s|
    ensures UnitAfter(first, second, s, d, ip, fp) == Some(Match(|s|, Quantity(ip, fp, unit)))
  {
  }

  /** The tag at the start of `s` and a separator run ending at `b`, followed by a quantity. */
  lemma MeasuredAtParts(tag: string, first: string, second: string, s: string, b: nat, m: Match)
    requires StartsAtFold(s, 0, tag)
    requires |tag| < b <= |s| && RunEnd(s, |tag|, ColonOrSpaceClass) == b
    requires QuantityAt(first, second, s, b) == Some(m)
    ensures MeasuredAt(tag, first, second, s, 0) == Some(m)
  {
  }

  /** Matching the unit after a prefix is matching it at the start of what follows. */
  lemma UnitShift(first: string, second: string, a: string, b: string)
    ensures UnitAt(first, second, a + b, |a|) == UnitAt(first, second, b, 0)
  {
    StartsAtFoldShift(a, b, 0, first);
    StartsAtFoldShift(a, b, 0, second);
    if StartsAtFold(b, 0, first) {
      assert (a + b)[|a|..|a| + |first|] == b[0..|first|];
    } else if StartsAtFold(b, 0, second) {
      assert (a + b)[|a|..|a| + |second|] == b[0..|second|];
    }
  }

  /** A number as a log prints it: `I`, or `I.F` when it has a fraction. */
  function Numeral(ip: string, fp: string): (s: string)
    ensures |s| == if fp == "" then |ip| else |ip| + 1 + |fp|
  {
    if fp == "" then ip else ip + "." + fp
  }

  /** The line `heading: number unit`. */
  function Line(heading: string, number: string, unit: string): (s: string)
    ensures |s| == |heading| + |number| + 3 + |unit|
  {
    heading + ": " + number + " " + unit
  }

  lemma LineTag(tag: string, heading: string, number: string, unit: string)
    requires |heading| == |tag| && StartsAtFold(heading, 0, tag)
    ensures StartsAtFold(Line(heading, number, unit), 0, tag)
  {
    var s := Line(heading, number, unit);
    forall j | 0 <= j < |tag| ensures FoldEq(s[j], tag[j]) {
      assert s[j] == heading[j];
    }
  }

  /** A colon and a space before a digit are the whole separator run. */
  lemma SeparatorRun(s: string, h: nat)
    requires h + 2 < |s| && s[h] == ':' && s[h + 1] == ' ' && IsDigit(s[h + 2])
    ensures RunEnd(s, h, ColonOrSpaceClass) == h + 2
  {
    assert RunEnd(s, h + 2, ColonOrSpaceClass) == h + 2;
  }

  lemma LineSeparator(heading: string, number: string, unit: string)
    requires |number| >= 1 && IsDigit(number[0])
    ensures RunEnd(Line(heading, number, unit), |heading|, ColonOrSpaceClass) == |heading| + 2
  {
    LineChars(heading, number, unit);
    SeparatorRun(Line(heading, number, unit), |heading|);
  }

  /** The characters around the number of a line. */
  lemma LineChars(heading: string, number: string, unit: string)
    requires |number| >= 1 && IsDigit(number[0])
    ensures var s := Line(heading, number, unit);
      s[|heading|] == ':' && s[|heading| + 1] == ' ' && IsDigit(s[|heading| + 2])
  {
    var s := Line(heading, number, unit);
    assert s[|heading| + 2] == number[0];
  }

  /** The digits of a line's number run from `b` up to the first character after them. */
  lemma LineDigits(s: string, b: nat, ds: string)
    requires b + |ds| < |s| && |ds| >= 1 && AllDigits(ds) && !IsDigit(s[b + |ds|])
    requires forall k :: 0 <= k < |ds| ==> s[b + k] == ds[k]
    ensures RunEnd(s, b, DigitClass) == b + |ds| && s[b..b + |ds|] == ds
  {
    forall k | b <= k < b + |ds| ensures InClass(s[k], DigitClass) {
      assert s[k] == ds[k - b];
    }
    RunEndIs(s, b, b + |ds|, DigitClass);
  }

  /** The number of a line is read back as its integer digits and its fraction digits. */
  lemma LineNumber(heading: string, ip: string, fp: string, unit: string)
    requires |ip| >= 1 && AllDigits(ip) && AllDigits(fp)
    ensures var number := Numeral(ip, fp);
      NumberAt(Line(heading, number, unit), |heading| + 2) == Some((|heading| + 2 + |number|, ip, fp))
  {
    var number := Numeral(ip, fp);
    LineNumberChars(heading, number, unit);
    NumeralChars(ip, fp);
    NumberOfNumeral(Line(heading, number, unit), |heading| + 2, number, ip, fp);
  }

  /** A numeral at `b`, followed by a space, is read back as its digits. */
  lemma NumberOfNumeral(s: string, b: nat, number: string, ip: string, fp: string)
    requires |ip| >= 1 && AllDigits(ip) && AllDigits(fp)
    requires |number| == if fp == "" then |ip| else |ip| + 1 + |fp|
    requires b + |number| < |s|
    requires forall k :: 0 <= k < |number| ==> s[b + k] == number[k]
    requires s[b + |number|] == ' '
    requires forall k :: 0 <= k < |ip| ==> number[k] == ip[k]
    requires fp != "" ==> number[|ip|] == '.' && forall k :: 0 <= k < |fp| ==> number[|ip| + 1 + k] == fp[k]
    ensures NumberAt(s, b) == Some((b + |number|, ip, fp))
  {
    assert forall k :: 0 <= k < |ip| ==> s[b + k] == ip[k];
    if fp == "" {
      LineDigits(s, b, ip);
      NumberAtDigits(s, b, b + |ip|);
    } else {
      assert s[b + |ip|] == '.';
      assert forall k :: 0 <= k < |fp| ==> s[b + |ip| + 1 + k] == fp[k] by {
        forall k | 0 <= k < |fp| ensures s[b + |ip| + 1 + k] == fp[k] {
          assert s[b + (|ip| + 1 + k)] == number[|ip| + 1 + k];
        }
      }
      NumberOfChars(s, b, ip, fp);
    }
  }

  /** Where the number of a line sits, and the space after it. */
  lemma LineNumberChars(heading: string, number: string, unit: string)
    ensures var s := Line(heading, number, unit);
      && (forall k :: 0 <= k < |number| ==> s[|heading| + 2 + k] == number[k])
      && s[|heading| + 2 + |number|] == ' '
  {
  }

  /** The characters of a numeral: the integer digits, then a point and the fraction digits
      when there is a fraction. */
  lemma NumeralChars(ip: string, fp: string)
    ensures var number := Numeral(ip, fp);
      && (forall k :: 0 <= k < |ip| ==> number[k] == ip[k])
      && (fp != "" ==> number[|ip|] == '.' && forall k :: 0 <= k < |fp| ==> number[|ip| + 1 + k] == fp[k])
  {
  }

  /** `ip`, a point and `fp` at `b`, followed by a character that is not a digit, are read as
      the number with those digits. */
  lemma NumberOfChars(s: string, b: nat, ip: string, fp: string)
    requires |ip| >= 1 && AllDigits(ip) && |fp| >= 1 && AllDigits(fp)
    requires b + |ip| + 1 + |fp| < |s| && !IsDigit(s[b + |ip| + 1 + |fp|])
    requires forall k :: 0 <= k < |ip| ==> s[b + k] == ip[k]
    requires s[b + |ip|] == '.'
    requires forall k :: 0 <= k < |fp| ==> s[b + |ip| + 1 + k] == fp[k]
    ensures NumberAt(s, b) == Some((b + |ip| + 1 + |fp|, ip, fp))
  {
    var d1 := b + |ip|;
    LineDigits(s, b, ip);
    LineDigits(s, d1 + 1, fp);
    NumberAtPoint(s, b, d1, d1 + 1 + |fp|);
  }

  /** A number with a point after its digits takes the digits after the point too. */
  lemma NumberAtPoint(s: string, b: nat, d1: nat, d2: nat)
    requires b < d1 < d2 <= |s| && RunEnd(s, b, DigitClass) == d1 && s[d1] == '.'
    requires RunEnd(s, d1 + 1, DigitClass) == d2
    ensures NumberAt(s, b) == Some((d2, s[b..d1], s[d1 + 1..d2]))
  {
  }

  lemma LineSpaces(heading: string, number: string, unit: string)
    requires |unit| >= 1 && !IsSpace(unit[0])
    ensures RunEnd(Line(heading, number, unit), |heading| + |number| + 2, SpaceClass) == |heading| + |number| + 3
  {
    var s := Line(heading, number, unit);
    var d1 := |heading| + |number| + 2;
    assert s[d1] == ' ' && s[d1 + 1] == unit[0];
    RunEndIs(s, d1, d1 + 1, SpaceClass);
  }

  lemma LineUnit(first: string, second: string, heading: string, number: string, unit: string)
    ensures UnitAt(first, second, Line(heading, number, unit), |heading| + |number| + 3)
      == UnitAt(first, second, unit, 0)
  {
    var head := heading + ": " + number + " ";
    assert Line(heading, number, unit) == head + unit;
    UnitShift(first, second, head, unit);
  }

  /** A line `heading: I unit` or `heading: I.F unit`, whose heading spells `tag` in any case
      and whose unit is all of `unit`, is one match of the measured pattern, which captures the
      digits before and after the point and keeps the unit as written. */
  lemma MeasuredLine(tag: string, first: string, second: string, heading: string, ip: string, fp: string, unit: string)
    requires |heading| == |tag| && StartsAtFold(heading, 0, tag)
    requires |ip| >= 1 && AllDigits(ip) && AllDigits(fp)
    requires |unit| >= 1 && !IsSpace(unit[0]) && UnitAt(first, second, unit, 0) == Some(unit)
    ensures MeasuredAt(tag, first, second, Line(heading, Numeral(ip, fp), unit), 0)
      == Some(Match(|heading| + |Numeral(ip, fp)| + 3 + |unit|, Quantity(ip, fp, unit)))
  {
    var number := Numeral(ip, fp);
    var s := Line(heading, number, unit);
    assert number[0] == ip[0];
    LineTag(tag, heading, number, unit);
    LineSeparator(heading, number, unit);
    QuantityOfLine(first, second, heading, ip, fp, unit);
    MeasuredAtParts(tag, first, second, s, |heading| + 2, Match(|s|, Quantity(ip, fp, unit)));
  }

  /** After the separator, the number and the unit of such a line make up the quantity. */
  lemma QuantityOfLine(first: string, second: string, heading: string, ip: string, fp: string, unit: string)
    requires |ip| >= 1 && AllDigits(ip) && AllDigits(fp)
    requires |unit| >= 1 && !IsSpace(unit[0]) && UnitAt(first, second, unit, 0) == Some(unit)
    ensures QuantityAt(first, second, Line(heading, Numeral(ip, fp), unit), |heading| + 2)
      == Some(Match(|heading| + |Numeral(ip, fp)| + 3 + |unit|, Quantity(ip, fp, unit)))
  {
    var number := Numeral(ip, fp);
    var s := Line(heading, number, unit);
    var b := |heading| + 2;
    var d := b + |number|;
    LineNumber(heading, ip, fp, unit);
    LineSpaces(heading, number, unit);
    LineUnit(first, second, heading, number, unit);
    UnitAfterParts(first, second, s, d, d + 1, ip, fp, unit);
    QuantityAtParts(first, second, s, b, d, ip, fp, Match(|s|, Quantity(ip, fp, unit)));
  }

  /** A text in which the tag occurs nowhere, in either case, has no match of a measured
      pattern anywhere. */
  lemma MeasuredAbsent(pat: Pattern, s: string)
    requires pat.Measured?
    requires forall k :: 0 <= k <= |s| ==> !StartsAtFold(s, k, pat.tag)
    ensures First(pat, s).None?
  {
    SearchNone(pat, s, 0);
  }

  // ---------------------------------------------------------------------------------------
  // Labelled lines
  // ---------------------------------------------------------------------------------------

  /** The heading of a labelled line: it starts with the tag, stays on one line, and none of
      its colons is followed by white space, so the lazy `.*?:` runs past all of them. */
  predicate Heading(heading: string, tag: string) {
    StartsAt(heading, 0, tag)
    && (forall k :: 0 <= k < |heading| ==> heading[k] != '\n')
    && forall k :: 0 <= k < |heading| && heading[k] == ':' ==> k + 1 < |heading| && !IsSpace(heading[k + 1])
  }

  /** In `s`, the tag starts at `p` and at no earlier index, and the line runs on from the tag
      to the colon at `h`, no earlier colon being followed by white space. */
  predicate LineAt(tag: string, s: string, p: nat, h: nat) {
    && 1 <= |tag| && p + |tag| <= h < |s|
    && StartsAt(s, p, tag) && s[h] == ':'
    && (forall k :: 0 <= k < p ==> !StartsAt(s, k, tag))
    && (forall k :: p + |tag| <= k < h ==> s[k] != '\n')
    && (forall k :: p + |tag| <= k < h && s[k] == ':' ==> k + 1 < |s| && !IsSpace(s[k + 1]))
  }

  /** The lazy part ends at the colon `h` of such a line when the tail matches after it. */
  lemma LazyColonAt(tag: string, t: Tail, s: string, p: nat, h: nat, m: Match)
    requires LineAt(tag, s, p, h)
    requires TailAt(t, s, h + 1) == Some(m)
    ensures LazyColon(t, s, p + |tag|) == Some((h, m))
  {
    assert ColonTail(t, s, h) == Some(m);
    LineReaches(s, p + |tag|, h);
    var r := LazyColon(t, s, p + |tag|);
    assert r.Some? && r.value.0 == h;
  }

  /** A line with no break between `j` and `h` runs on past `h`. */
  lemma LineReaches(s: string, j: nat, h: nat)
    requires j <= h < |s|
    requires forall k :: j <= k <= h ==> s[k] != '\n'
    ensures h < RunEnd(s, j, DotClass)
  {
    assert forall k :: j <= k <= h ==> InClass(s[k], DotClass);
  }

  /** Such a line, when the tail matches after its colon, is the first match. */
  lemma LabelledLine(tag: string, t: Tail, s: string, p: nat, h: nat, m: Match)
    requires LineAt(tag, s, p, h)
    requires TailAt(t, s, h + 1) == Some(m)
    ensures First(Labelled(tag, true, t), s) == Some(m.capture)
  {
    LazyColonAt(tag, t, s, p, h, m);
    NoTagBefore(tag, t, s, p);
    SearchFrom(Labelled(tag, true, t), s, 0, p, m);
  }

  /** A labelled pattern cannot match where its tag does not start. */
  lemma NoTagBefore(tag: string, t: Tail, s: string, p: nat)
    requires p <= |s|
    requires forall k :: 0 <= k < p ==> !StartsAt(s, k, tag)
    ensures forall k :: 0 <= k < p ==> MatchAt(Labelled(tag, true, t), s, k).None?
  {
  }

  /** `pre`, a heading and its colon spelled at the start of `s`, where the tag starts nowhere
      in `pre`: the heading makes a line up to its colon. */
  lemma HeadingAt(tag: string, s: string, pre: string, heading: string)
    requires 1 <= |tag| && Heading(heading, tag)
    requires forall k :: 0 <= k < |pre| ==> !StartsAt(s, k, tag)
    requires StartsAt(s, 0, pre + heading + ":")
    ensures LineAt(tag, s, |pre|, |pre| + |heading|)
  {
    var p := |pre|;
    var h := p + |heading|;
    StartsAtSplit(s, 0, pre + heading, ":");
    StartsAtSplit(s, 0, pre, heading);
    CharAt(s, h, ':');
    assert StartsAt(s, p, tag) by {
      forall j | 0 <= j < |tag| ensures s[p + j] == tag[j] {
        assert s[p + j] == heading[j];
        assert heading[0 + j] == tag[j];
      }
    }
    forall k | p + |tag| <= k < h
      ensures s[k] != '\n' && (s[k] == ':' ==> k + 1 < |s| && !IsSpace(s[k + 1]))
    {
      assert s[p + (k - p)] == heading[k - p];
      if s[k] == ':' {
        assert s[p + (k - p + 1)] == heading[k - p + 1];
      }
    }
  }

  /** Digits from `q` to a point at `d`, then digits up to `e`, where the run ends. */
  predicate DecimalLayout(s: string, q: nat, d: nat, e: nat) {
    && q < d && d + 1 < e <= |s|
    && (forall k :: q <= k < d ==> IsDigit(s[k]))
    && s[d] == '.'
    && (forall k :: d < k < e ==> IsDigit(s[k]))
    && (e == |s| || !IsDigit(s[e]))
  }

  /** Digits from `w` to a colon at `c`, then a decimal laid out up to `e`. */
  predicate ClockLayout(s: string, w: nat, c: nat, d: nat, e: nat) {
    && w < c && DecimalLayout(s, c + 1, d, e)
    && (forall k :: w <= k < c ==> IsDigit(s[k]))
    && s[c] == ':'
  }

  /** The decimal group of such a layout. */
  lemma DecimalAtParts(s: string, q: nat, d: nat, e: nat)
    requires DecimalLayout(s, q, d, e)
    ensures DecimalAt(s, q) == Some((e, s[q..d], s[d + 1..e]))
  {
    RunEndIs(s, q, d, DigitClass);
    RunEndIs(s, d + 1, e, DigitClass);
  }

  /** The clock group of such a layout. */
  lemma ClockAtParts(s: string, w: nat, c: nat, d: nat, e: nat)
    requires ClockLayout(s, w, c, d, e)
    ensures ClockAt(s, w) == Some(Match(e, Clock(s[w..c], s[c + 1..d], s[d + 1..e])))
  {
    RunEndIs(s, w, c, DigitClass);
    DecimalAtParts(s, c + 1, d, e);
  }

  /** A space at `q` before a clock layout: `\s+(\d+):(\d+\.\d+)` matches there. */
  lemma ClockTailParts(s: string, q: nat, c: nat, d: nat, e: nat, mins: string, ip: string, fp: string)
    requires q < |s| && s[q] == ' ' && ClockLayout(s, q + 1, c, d, e)
    requires s[q + 1..c] == mins && s[c + 1..d] == ip && s[d + 1..e] == fp
    ensures TailAt(ClockTail, s, q) == Some(Match(e, Clock(mins, ip, fp)))
  {
    RunEndIs(s, q, q + 1, SpaceClass);
    ClockAtParts(s, q + 1, c, d, e);
  }

  /** A space at `q` before a decimal layout: `\s+(\d+\.\d+)` matches there. */
  lemma DecimalTailParts(s: string, q: nat, d: nat, e: nat, ip: string, fp: string)
    requires q < |s| && s[q] == ' ' && DecimalLayout(s, q + 1, d, e)
    requires s[q + 1..d] == ip && s[d + 1..e] == fp
    ensures TailAt(DecimalTail, s, q) == Some(Match(e, Decimal(ip, fp)))
  {
    RunEndIs(s, q, q + 1, SpaceClass);
    DecimalAtParts(s, q + 1, d, e);
  }

  /** Digits from `w` to a colon at `c` and digits up to `d` not followed by a point: no
      clock group, as in `h:mm:ss`. */
  lemma ClockAtNoPoint(s: string, w: nat, c: nat, d: nat)
    requires w < c < d < |s|
    requires forall k :: w <= k < c ==> IsDigit(s[k])
    requires s[c] == ':'
    requires forall k :: c < k < d ==> IsDigit(s[k])
    requires s[d] != '.' && !IsDigit(s[d])
    ensures ClockAt(s, w).None?
  {
    RunEndIs(s, w, c, DigitClass);
    RunEndIs(s, c + 1, d, DigitClass);
  }

  /** A space, then `M:SS.ss`, then the rest of the text. */
  function SpacedClock(mins: string, ip: string, fp: string, rest: string): string {
    " " + mins + ":" + ip + "." + fp + rest
  }

  /** A space, then `I.F`, then the rest of the text. */
  function SpacedDecimal(ip: string, fp: string, rest: string): string {
    " " + ip + "." + fp + rest
  }

  /** A labelled line `pre + heading + ": M:SS.ss" + rest` spelled out as the whole of `s`:
      the first match of `tag.*?:\s+(\d+):(\d+\.\d+)` captures `M`, `SS` and `ss`. */
  lemma ClockLine(tag: string, s: string, pre: string, heading: string, mins: string, ip: string, fp: string, rest: string)
    requires 1 <= |tag| && Heading(heading, tag)
    requires forall k :: 0 <= k < |pre| ==> !StartsAt(s, k, tag)
    requires |mins| >= 1 && |ip| >= 1 && |fp| >= 1 && AllDigits(mins) && AllDigits(ip) && AllDigits(fp)
    requires rest == [] || !IsDigit(rest[0])
    requires StartsAt(s, 0, pre + heading + ":")
    requires StartsAt(s, |pre| + |heading| + 1, SpacedClock(mins, ip, fp, rest))
    requires |s| == |pre| + |heading| + 1 + |SpacedClock(mins, ip, fp, rest)|
    ensures First(Labelled(tag, true, ClockTail), s) == Some(Clock(mins, ip, fp))
  {
    var h := |pre| + |heading|;
    var c := h + 2 + |mins|;
    var d := c + 1 + |ip|;
    var e := d + 1 + |fp|;
    assert LineAt(tag, s, |pre|, h) by {
      HeadingAt(tag, s, pre, heading);
    }
    assert TailAt(ClockTail, s, h + 1) == Some(Match(e, Clock(mins, ip, fp))) by {
      ClockSpelled(s, h + 1, mins, ip, fp, rest, c, d, e);
    }
    LabelledLine(tag, ClockTail, s, |pre|, h, Match(e, Clock(mins, ip, fp)));
  }

  /** A space and `M:SS.ss` that end `s` from `q` on are the clock group at `q`. */
  lemma ClockSpelled(s: string, q: nat, mins: string, ip: string, fp: string, rest: string, c: nat, d: nat, e: nat)
    requires |mins| >= 1 && |ip| >= 1 && |fp| >= 1 && AllDigits(mins) && AllDigits(ip) && AllDigits(fp)
    requires rest == [] || !IsDigit(rest[0])
    requires StartsAt(s, q, SpacedClock(mins, ip, fp, rest))
    requires c == q + 1 + |mins| && d == c + 1 + |ip| && e == d + 1 + |fp| && e + |rest| == |s|
    ensures TailAt(ClockTail, s, q) == Some(Match(e, Clock(mins, ip, fp)))
  {
    ClockChars(s, q, mins, ip, fp, rest, c, d, e);
    ClockTailParts(s, q, c, d, e, mins, ip, fp);
  }

  /** The characters of a space and `M:SS.ss` that end `s` from `q` on. */
  lemma ClockChars(s: string, q: nat, mins: string, ip: string, fp: string, rest: string, c: nat, d: nat, e: nat)
    requires |mins| >= 1 && |ip| >= 1 && |fp| >= 1 && AllDigits(mins) && AllDigits(ip) && AllDigits(fp)
    requires rest == [] || !IsDigit(rest[0])
    requires StartsAt(s, q, " " + mins + ":" + ip + "." + fp + rest)
    requires c == q + 1 + |mins| && d == c + 1 + |ip| && e == d + 1 + |fp| && e + |rest| == |s|
    ensures q < |s| && s[q] == ' ' && ClockLayout(s, q + 1, c, d, e)
    ensures s[q + 1..c] == mins && s[c + 1..d] == ip && s[d + 1..e] == fp
  {
    StartsAtSplit(s, q, " " + mins + ":" + ip + "." + fp, rest);
    StartsAtSplit(s, q, " " + mins + ":" + ip + ".", fp);
    StartsAtSplit(s, q, " " + mins + ":" + ip, ".");
    StartsAtSplit(s, q, " " + mins + ":", ip);
    StartsAtSplit(s, q, " " + mins, ":");
    StartsAtSplit(s, q, " ", mins);
    DigitsAt(s, q + 1, mins);
    DigitsAt(s, c + 1, ip);
    DigitsAt(s, d + 1, fp);
    CharAt(s, q, ' ');
    CharAt(s, c, ':');
    CharAt(s, d, '.');
    if rest != [] {
      assert s[e + 0] == rest[0];
    }
  }

  /** A one-character literal spelled at `i` is the character there. */
  lemma CharAt(s: string, i: nat, c: char)
    requires StartsAt(s, i, [c])
    ensures i < |s| && s[i] == c
  {
    assert s[i + 0] == [c][0];
  }

  /** Digits spelled at `i`: each of their positions holds a digit, and the slice is them. */
  lemma DigitsAt(s: string, i: nat, ds: string)
    requires StartsAt(s, i, ds) && AllDigits(ds)
    ensures forall k :: i <= k < i + |ds| ==> IsDigit(s[k])
    ensures s[i..i + |ds|] == ds
  {
    forall k | i <= k < i + |ds| ensures IsDigit(s[k]) {
      assert s[i + (k - i)] == ds[k - i];
    }
    StartsAtSlice(s, i, ds);
  }

  /** A labelled line `pre + heading + ": I.F" + rest` spelled out as the whole of `s`: the
      first match of `tag.*?:\s+(\d+\.\d+)` captures `I` and `F`. */
  lemma DecimalLine(tag: string, s: string, pre: string, heading: string, ip: string, fp: string, rest: string)
    requires 1 <= |tag| && Heading(heading, tag)
    requires forall k :: 0 <= k < |pre| ==> !StartsAt(s, k, tag)
    requires |ip| >= 1 && |fp| >= 1 && AllDigits(ip) && AllDigits(fp)
    requires rest == [] || !IsDigit(rest[0])
    requires StartsAt(s, 0, pre + heading + ":")
    requires StartsAt(s, |pre| + |heading| + 1, SpacedDecimal(ip, fp, rest))
    requires |s| == |pre| + |heading| + 1 + |SpacedDecimal(ip, fp, rest)|
    ensures First(Labelled(tag, true, DecimalTail), s) == Some(Decimal(ip, fp))
  {
    var h := |pre| + |heading|;
    var d := h + 2 + |ip|;
    var e := d + 1 + |fp|;
    assert LineAt(tag, s, |pre|, h) by {
      HeadingAt(tag, s, pre, heading);
    }
    assert TailAt(DecimalTail, s, h + 1) == Some(Match(e, Decimal(ip, fp))) by {
      DecimalSpelled(s, h + 1, ip, fp, rest, d, e);
    }
    LabelledLine(tag, DecimalTail, s, |pre|, h, Match(e, Decimal(ip, fp)));
  }

  /** A space and `I.F` that end `s` from `q` on are the decimal group at `q`. */
  lemma DecimalSpelled(s: string, q: nat, ip: string, fp: string, rest: string, d: nat, e: nat)
    requires |ip| >= 1 && |fp| >= 1 && AllDigits(ip) && AllDigits(fp)
    requires rest == [] || !IsDigit(rest[0])
    requires StartsAt(s, q, SpacedDecimal(ip, fp, rest))
    requires d == q + 1 + |ip| && e == d + 1 + |fp| && e + |rest| == |s|
    ensures TailAt(DecimalTail, s, q) == Some(Match(e, Decimal(ip, fp)))
  {
    DecimalChars(s, q, ip, fp, rest, d, e);
    DecimalTailParts(s, q, d, e, ip, fp);
  }

  /** The characters of a space and `I.F` that end `s` from `q` on. */
  lemma DecimalChars(s: string, q: nat, ip: string, fp: string, rest: string, d: nat, e: nat)
    requires |ip| >= 1 && |fp| >= 1 && AllDigits(ip) && AllDigits(fp)
    requires rest == [] || !IsDigit(rest[0])
    requires StartsAt(s, q, " " + ip + "." + fp + rest)
    requires d == q + 1 + |ip| && e == d + 1 + |fp| && e + |rest| == |s|
    ensures q < |s| && s[q] == ' ' && DecimalLayout(s, q + 1, d, e)
    ensures s[q + 1..d] == ip && s[d + 1..e] == fp
  {
    StartsAtSplit(s, q, " " + ip + "." + fp, rest);
    StartsAtSplit(s, q, " " + ip + ".", fp);
    StartsAtSplit(s, q, " " + ip, ".");
    StartsAtSplit(s, q, " ", ip);
    DigitsAt(s, q + 1, ip);
    DigitsAt(s, d + 1, fp);
    CharAt(s, q, ' ');
    CharAt(s, d, '.');
    if rest != [] {
      assert s[e + 0] == rest[0];
    }
  }

  // ---------------------------------------------------------------------------------------
  // A wall-clock time written `h:mm:ss`
  // ---------------------------------------------------------------------------------------

  /** After the colon at `h`: a space, digits to a colon at `c`, digits to a colon at `d`,
      digits to `e`, and there the line ends. */
  predicate HoursLayout(s: string, h: nat, c: nat, d: nat, e: nat) {
    && h + 2 < c && c + 1 < d && d + 1 < e <= |s|
    && s[h] == ':' && s[h + 1] == ' ' && s[c] == ':' && s[d] == ':'
    && (forall k :: h + 2 <= k < c ==> IsDigit(s[k]))
    && (forall k :: c < k < d ==> IsDigit(s[k]))
    && (forall k :: d < k < e ==> IsDigit(s[k]))
    && (e == |s| || s[e] == '\n')
  }

  /** The pieces of `pre + heading + ": " + hours + ":" + mins + ":" + secs` spelled at the
      start of `s`, each where it begins. */
  lemma HoursPieces(s: string, pre: string, heading: string, hours: string, mins: string, secs: string)
    requires StartsAt(s, 0, pre + heading + ": " + hours + ":" + mins + ":" + secs)
    ensures var h := |pre| + |heading|;
      var c := h + 2 + |hours|;
      var d := c + 1 + |mins|;
      && StartsAt(s, 0, pre + heading + ":") && StartsAt(s, h, ":") && StartsAt(s, h + 1, " ")
      && StartsAt(s, h + 2, hours) && StartsAt(s, c, ":") && StartsAt(s, c + 1, mins)
      && StartsAt(s, d, ":") && StartsAt(s, d + 1, secs)
  {
    var h := |pre| + |heading|;
    StartsAtSplit(s, 0, pre + heading + ": " + hours + ":" + mins + ":", secs);
    StartsAtSplit(s, 0, pre + heading + ": " + hours + ":" + mins, ":");
    StartsAtSplit(s, 0, pre + heading + ": " + hours + ":", mins);
    StartsAtSplit(s, 0, pre + heading + ": " + hours, ":");
    StartsAtSplit(s, 0, pre + heading + ": ", hours);
    StartsAtSplit(s, 0, pre + heading, ": ");
    assert ": " == ":" + " ";
    StartsAtSplit(s, h, ":", " ");
    StartsAtJoin(s, 0, pre + heading, ":");
  }

  /** The text `heading + ": " + hours + ":" + mins + ":" + secs` after `pre`, then `post`
      beginning a new line, spelled out as the whole of `s`. */
  lemma HoursChars(s: string, pre: string, heading: string, hours: string, mins: string, secs: string, post: string)
    requires |hours| >= 1 && |mins| >= 1 && |secs| >= 1 && AllDigits(hours) && AllDigits(mins) && AllDigits(secs)
    requires post == [] || post[0] == '\n'
    requires StartsAt(s, 0, pre + heading + ": " + hours + ":" + mins + ":" + secs)
    requires StartsAt(s, |pre| + |heading| + |hours| + |mins| + |secs| + 4, post)
    requires |s| == |pre| + |heading| + |hours| + |mins| + |secs| + 4 + |post|
    ensures var h := |pre| + |heading|;
      HoursLayout(s, h, h + 2 + |hours|, h + 3 + |hours| + |mins|, h + 4 + |hours| + |mins| + |secs|)
    ensures StartsAt(s, 0, pre + heading + ":")
  {
    var h := |pre| + |heading|;
    var c := h + 2 + |hours|;
    var d := c + 1 + |mins|;
    var e := d + 1 + |secs|;
    HoursPieces(s, pre, heading, hours, mins, secs);
    CharAt(s, h, ':');
    CharAt(s, h + 1, ' ');
    CharAt(s, c, ':');
    CharAt(s, d, ':');
    DigitsAt(s, h + 2, hours);
    DigitsAt(s, c + 1, mins);
    DigitsAt(s, d + 1, secs);
    if post != [] {
      assert s[e + 0] == post[0];
    }
  }

  /** On a heading line whose colon is followed by an `h:mm:ss` time, no colon up to the end
      of the line is followed by `\s+(\d+):(\d+\.\d+)`. */
  lemma NoClockAfterColon(tag: string, s: string, p: nat, h: nat, c: nat, d: nat, e: nat, j: nat)
    requires LineAt(tag, s, p, h) && HoursLayout(s, h, c, d, e)
    requires p + |tag| <= j <= e
    ensures ColonTail(ClockTail, s, j).None?
  {
    if j == e || s[j] != ':' {
    } else if j == h {
      HoursColon(s, h, c, d, e);
    } else if j < h {
      UnspacedColon(ClockTail, s, j);
    } else {
      assert j == c || j == d;
      assert IsDigit(s[j + 1]);
      UnspacedColon(ClockTail, s, j);
    }
  }

  /** A colon followed by something other than white space starts no `:\s+` tail. */
  lemma UnspacedColon(t: Tail, s: string, j: nat)
    requires j + 1 < |s| && !IsSpace(s[j + 1])
    ensures ColonTail(t, s, j).None?
  {
    RunEndIs(s, j + 1, j + 1, SpaceClass);
  }

  /** The colon after the heading: the clock group fails on `h:mm:ss`, whose minutes are not
      followed by a point. */
  lemma HoursColon(s: string, h: nat, c: nat, d: nat, e: nat)
    requires HoursLayout(s, h, c, d, e)
    ensures ColonTail(ClockTail, s, h).None?
  {
    RunEndIs(s, h + 1, h + 2, SpaceClass);
    ClockAtNoPoint(s, h + 2, c, d);
  }

  /** On such a line the lazy `.*?:` finds no colon after which the clock group matches. */
  lemma NoClockOnLine(tag: string, s: string, p: nat, h: nat, c: nat, d: nat, e: nat)
    requires LineAt(tag, s, p, h) && HoursLayout(s, h, c, d, e)
    ensures LazyColon(ClockTail, s, p + |tag|).None?
  {
    forall k | p + |tag| <= k < e ensures InClass(s[k], DotClass) {
      if h <= k {
        assert s[k] == ':' || s[k] == ' ' || IsDigit(s[k]);
      }
    }
    RunEndIs(s, p + |tag|, e, DotClass);
    forall j | p + |tag| <= j <= e ensures ColonTail(ClockTail, s, j).None? {
      NoClockAfterColon(tag, s, p, h, c, d, e, j);
    }
  }

  /** A labelled line whose time is written `h:mm:ss`, in a text where the tag starts nowhere
      but at the heading: `tag.*?:\s+(\d+):(\d+\.\d+)` finds no match. */
  lemma HoursLine(tag: string, s: string, pre: string, heading: string, hours: string, mins: string, secs: string, post: string)
    requires 1 <= |tag| && Heading(heading, tag)
    requires forall k :: 0 <= k <= |s| && k != |pre| ==> !StartsAt(s, k, tag)
    requires |hours| >= 1 && |mins| >= 1 && |secs| >= 1 && AllDigits(hours) && AllDigits(mins) && AllDigits(secs)
    requires post == [] || post[0] == '\n'
    requires StartsAt(s, 0, pre + heading + ": " + hours + ":" + mins + ":" + secs)
    requires StartsAt(s, |pre| + |heading| + |hours| + |mins| + |secs| + 4, post)
    requires |s| == |pre| + |heading| + |hours| + |mins| + |secs| + 4 + |post|
    ensures First(Labelled(tag, true, ClockTail), s).None?
  {
    var p := |pre|;
    var h := p + |heading|;
    var c := h + 2 + |hours|;
    var d := c + 1 + |mins|;
    var e := d + 1 + |secs|;
    HoursChars(s, pre, heading, hours, mins, secs, post);
    HeadingAt(tag, s, pre, heading);
    NoClockOnLine(tag, s, p, h, c, d, e);
    HoursOnlyStart(tag, s, p);
    SearchNone(Labelled(tag, true, ClockTail), s, 0);
  }

  /** In a text where the tag starts only at `p`, the pattern can start only there, and when
      the lazy part fails after the tag it does not match at all. */
  lemma HoursOnlyStart(tag: string, s: string, p: nat)
    requires p + |tag| <= |s|
    requires forall k :: 0 <= k <= |s| && k != p ==> !StartsAt(s, k, tag)
    requires LazyColon(ClockTail, s, p + |tag|).None?
    ensures forall k :: 0 <= k <= |s| ==> MatchAt(Labelled(tag, true, ClockTail), s, k).None?
  {
  }

  // ---------------------------------------------------------------------------------------
  // The last `(\d+) passed`
  // ---------------------------------------------------------------------------------------

  /** No character of ` passed` is a digit. */
  lemma PassedHasNoDigit(i: nat)
    requires i < |" passed"|
    ensures !IsDigit(" passed"[i])
  {
  }

  /** A match of `(\d+) passed` that starts before a digit run preceded by a non-digit ends
      before that run: its digits stop at the non-digit, and ` passed` cannot overlap a digit. */
  lemma PassedEndsBefore(s: string, p: nat, k: nat)
    requires 0 < p < |s| && !IsDigit(s[p - 1]) && IsDigit(s[p]) && k < p
    requires MatchAt(Passed, s, k).Some?
    ensures MatchAt(Passed, s, k).value.end <= p
  {
    var e := RunEnd(s, k, DigitClass);
    assert e <= p - 1;
    if p < e + 7 {
      assert s[e + (p - e)] == " passed"[p - e];
      PassedHasNoDigit(p - e);
    }
  }

  /** A digit run from `p` to `n` not preceded by a digit, followed by ` passed`, with no digit
      after that: `findall` of `(\d+) passed` returns that run last. */
  lemma PassedLast(s: string, p: nat, n: nat)
    requires StartsAt(s, n, " passed")
    requires p < n && (p == 0 || !IsDigit(s[p - 1]))
    requires forall k :: p <= k < n ==> IsDigit(s[k])
    requires forall k :: n + 7 <= k < |s| ==> !IsDigit(s[k])
    ensures FindAll(Passed, s, 0) != [] && Last(FindAll(Passed, s, 0)) == Digits(s[p..n])
  {
    assert " passed" == " " + "passed";
    StartsAtSplit(s, n, " ", "passed");
    CharAt(s, n, ' ');
    RunEndIs(s, p, n, DigitClass);
    var m := Match(n + 7, Digits(s[p..n]));
    assert MatchAt(Passed, s, p) == Some(m);
    forall k | 0 <= k < p && MatchAt(Passed, s, k).Some? ensures MatchAt(Passed, s, k).value.end <= p {
      PassedEndsBefore(s, p, k);
    }
    forall k | n + 7 <= k <= |s| ensures MatchAt(Passed, s, k).None? {
      RunEndIs(s, k, k, DigitClass);
    }
    FindAllLast(Passed, s, 0, p, m);
  }

  // ---------------------------------------------------------------------------------------
  // Report lines written out
  // ---------------------------------------------------------------------------------------

  /** `pre + heading + ": M:SS.ss" + rest`, where the tag starts nowhere in `pre`: the first
      match of `tag.*?:\s+(\d+):(\d+\.\d+)` captures `M`, `SS` and `ss`. */
  lemma ClockText(tag: string, pre: string, heading: string, mins: string, ip: string, fp: string, rest: string)
    requires 1 <= |tag| && Heading(heading, tag)
    requires forall k :: 0 <= k < |pre| ==> !StartsAt(pre + heading + ":" + SpacedClock(mins, ip, fp, rest), k, tag)
    requires |mins| >= 1 && |ip| >= 1 && |fp| >= 1 && AllDigits(mins) && AllDigits(ip) && AllDigits(fp)
    requires rest == [] || !IsDigit(rest[0])
    ensures First(Labelled(tag, true, ClockTail), pre + heading + ":" + SpacedClock(mins, ip, fp, rest))
      == Some(Clock(mins, ip, fp))
  {
    var a := pre + heading + ":";
    StartsAtPrefix(a, SpacedClock(mins, ip, fp, rest));
    StartsAtSuffix(a, SpacedClock(mins, ip, fp, rest));
    ClockLine(tag, a + SpacedClock(mins, ip, fp, rest), pre, heading, mins, ip, fp, rest);
  }

  /** `pre + heading + ": I.F" + rest`, where the tag starts nowhere in `pre`: the first match
      of `tag.*?:\s+(\d+\.\d+)` captures `I` and `F`. */
  lemma DecimalText(tag: string, pre: string, heading: string, ip: string, fp: string, rest: string)
    requires 1 <= |tag| && Heading(heading, tag)
    requires forall k :: 0 <= k < |pre| ==> !StartsAt(pre + heading + ":" + SpacedDecimal(ip, fp, rest), k, tag)
    requires |ip| >= 1 && |fp| >= 1 && AllDigits(ip) && AllDigits(fp)
    requires rest == [] || !IsDigit(rest[0])
    ensures First(Labelled(tag, true, DecimalTail), pre + heading + ":" + SpacedDecimal(ip, fp, rest))
      == Some(Decimal(ip, fp))
  {
    var a := pre + heading + ":";
    StartsAtPrefix(a, SpacedDecimal(ip, fp, rest));
    StartsAtSuffix(a, SpacedDecimal(ip, fp, rest));
    DecimalLine(tag, a + SpacedDecimal(ip, fp, rest), pre, heading, ip, fp, rest);
  }

  /** `pre + heading + ": h:mm:ss" + post`, with the tag starting nowhere but at the heading
      and `post` starting a new line: no match. */
  lemma HoursText(tag: string, pre: string, heading: string, hours: string, mins: string, secs: string, post: string)
    requires 1 <= |tag| && Heading(heading, tag)
    requires var s := pre + heading + ": " + hours + ":" + mins + ":" + secs + post;
      forall k :: 0 <= k <= |s| && k != |pre| ==> !StartsAt(s, k, tag)
    requires |hours| >= 1 && |mins| >= 1 && |secs| >= 1 && AllDigits(hours) && AllDigits(mins) && AllDigits(secs)
    requires post == [] || post[0] == '\n'
    ensures First(Labelled(tag, true, ClockTail), pre + heading + ": " + hours + ":" + mins + ":" + secs + post).None?
  {
    var a := pre + heading + ": " + hours + ":" + mins + ":" + secs;
    StartsAtPrefix(a, post);
    StartsAtSuffix(a, post);
    HoursLine(tag, a + post, pre, heading, hours, mins, secs, post);
  }

  /** `a + count + " passed" + b`, where `a` does not end in a digit and `b` has none: the
      last groups `findall` of `(\d+) passed` returns are `count`. */
  lemma PassedText(a: string, count: string, b: string)
    requires a == [] || !IsDigit(Last(a))
    requires |count| >= 1 && AllDigits(count)
    requires forall k :: 0 <= k < |b| ==> !IsDigit(b[k])
    ensures FindAll(Passed, a + count + " passed" + b, 0) != []
    ensures Last(FindAll(Passed, a + count + " passed" + b, 0)) == Digits(count)
  {
    var t := a + count + " passed";
    var s := t + b;
    StartsAtPrefix(t, b);
    NoDigitAfter(t, b);
    PassedPlaces(s, a, count);
    PassedLast(s, |a|, |a| + |count|);
  }

  /** Where the count and its ` passed` lie in a text that starts with `a + count + " passed"`. */
  lemma PassedPlaces(s: string, a: string, count: string)
    requires StartsAt(s, 0, a + count + " passed")
    requires a == [] || !IsDigit(Last(a))
    requires AllDigits(count)
    ensures StartsAt(s, |a| + |count|, " passed")
    ensures |a| == 0 || !IsDigit(s[|a| - 1])
    ensures forall k :: |a| <= k < |a| + |count| ==> IsDigit(s[k])
    ensures s[|a|..|a| + |count|] == count
  {
    StartsAtSplit(s, 0, a + count, " passed");
    StartsAtSplit(s, 0, a, count);
    DigitsAt(s, |a|, count);
    if a != [] {
      assert s[0 + (|a| - 1)] == a[|a| - 1];
    }
  }

  /** Nothing after `t` in `t + b` is a digit when `b` has none. */
  lemma NoDigitAfter(t: string, b: string)
    requires forall k :: 0 <= k < |b| ==> !IsDigit(b[k])
    ensures forall k :: |t| <= k < |t + b| ==> !IsDigit((t + b)[k])
  {
    StartsAtSuffix(t, b);
    forall k | |t| <= k < |t + b| ensures !IsDigit((t + b)[k]) {
      assert (t + b)[|t| + (k - |t|)] == b[k - |t|];
    }
  }
}
