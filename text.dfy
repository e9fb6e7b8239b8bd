/** Characters, decimal numerals and string helpers standing for the Python built-ins the
    scripts rely on: the regular-expression classes `\d`, `\s` and `\w`, `str.lower`,
    `str.split`, `in` on strings, `int()` and `float()` on digit strings. */
module Text {
  import opened Wrappers

  // ---------------------------------------------------------------------------------------
  // Character classes
  // ---------------------------------------------------------------------------------------

  /** `\d`: an ASCII decimal digit. */
  predicate IsDigit(c: char) { '0' <= c <= '9' }

  /** `\s` and `str.isspace`: every code point Python counts as whitespace. */
  predicate IsSpace(c: char) {
    c == ' ' || ('\t' <= c <= '\r') || ('\U{1C}' <= c <= '\U{1F}') || c == '\U{85}'
    || c == '\U{A0}' || c == '\U{1680}' || ('\U{2000}' <= c <= '\U{200A}')
    || c == '\U{2028}' || c == '\U{2029}' || c == '\U{202F}' || c == '\U{205F}'
    || c == '\U{3000}'
  }

  /** `\w`: ASCII letters, digits and the underscore. */
  predicate IsWordChar(c: char) { ('a' <= c <= 'z') || ('A' <= c <= 'Z') || IsDigit(c) || c == '_' }

  predicate IsUpper(c: char) { 'A' <= c <= 'Z' }

  function LowerChar(c: char): char {
    if IsUpper(c) then (c as int - 'A' as int + 'a' as int) as char else c
  }

  /** `str.lower` on ASCII letters. */
  function Lower(s: string): (r: string)
    ensures |r| == |s|
    ensures forall k :: 0 <= k < |s| ==> !IsUpper(r[k])
    ensures forall k :: 0 <= k < |s| && !IsUpper(s[k]) ==> r[k] == s[k]
    ensures forall k :: 0 <= k < |s| && IsUpper(s[k]) ==> r[k] as int == s[k] as int + 32
  {
    seq(|s|, k requires 0 <= k < |s| => LowerChar(s[k]))
  }

  /** Lower-casing a string that holds no upper-case letter changes nothing. */
  lemma LowerFixesLowerCase(s: string)
    requires forall k :: 0 <= k < |s| ==> !IsUpper(s[k])
    ensures Lower(s) == s
  {
  }

  /** Lower-casing is idempotent. */
  lemma LowerIdempotent(s: string)
    ensures Lower(Lower(s)) == Lower(s)
  {
    LowerFixesLowerCase(Lower(s));
  }

  /** Two characters equal up to ASCII case, as a pattern compiled with `re.IGNORECASE` compares them. */
  predicate FoldEq(c: char, d: char) { LowerChar(c) == LowerChar(d) }

  // ---------------------------------------------------------------------------------------
  // Substrings
  // ---------------------------------------------------------------------------------------

  /** `lit` occurs in `s` starting at index `i`. */
  predicate StartsAt(s: string, i: nat, lit: string) {
    i + |lit| <= |s| && forall j :: 0 <= j < |lit| ==> s[i + j] == lit[j]
  }

  /** `lit` occurs in `s` at index `i`, comparing letters without regard to ASCII case. */
  predicate StartsAtFold(s: string, i: nat, lit: string) {
    i + |lit| <= |s| && forall j :: 0 <= j < |lit| ==> FoldEq(s[i + j], lit[j])
  }

  /** `sub in s` on Python strings. */
  predicate Contains(s: string, sub: string) {
    exists k :: 0 <= k <= |s| && StartsAt(s, k, sub)
  }

  lemma StartsAtSlice(s: string, i: nat, lit: string)
    requires StartsAt(s, i, lit)
    ensures s[i..i + |lit|] == lit
  {
  }

  /** An occurrence in the second part of a concatenation is an occurrence in the whole. */
  lemma StartsAtShift(a: string, b: string, k: nat, lit: string)
    ensures StartsAt(a + b, |a| + k, lit) <==> StartsAt(b, k, lit)
  {
    if StartsAt(b, k, lit) {
      forall j | 0 <= j < |lit| ensures (a + b)[|a| + k + j] == lit[j] {
        assert (a + b)[|a| + k + j] == b[k + j];
      }
    }
    if StartsAt(a + b, |a| + k, lit) {
      forall j | 0 <= j < |lit| ensures b[k + j] == lit[j] {
        assert (a + b)[|a| + k + j] == b[k + j];
      }
    }
  }

  /** The second part of a concatenation occurs where the first part ends. */
  lemma StartsAtSuffix(a: string, b: string)
    ensures StartsAt(a + b, |a|, b)
  {
    forall j | 0 <= j < |b| ensures (a + b)[|a| + j] == b[j] {
    }
  }

  /** The first part of a concatenation occurs at its start. */
  lemma StartsAtPrefix(a: string, b: string)
    ensures StartsAt(a + b, 0, a)
  {
    forall j | 0 <= j < |a| ensures (a + b)[0 + j] == a[j] {
    }
  }

  /** An occurrence of `x + y` is an occurrence of `x` followed by one of `y`. */
  lemma StartsAtSplit(s: string, i: nat, x: string, y: string)
    requires StartsAt(s, i, x + y)
    ensures StartsAt(s, i, x) && StartsAt(s, i + |x|, y)
  {
    forall j | 0 <= j < |x| ensures s[i + j] == x[j] {
      assert (x + y)[j] == x[j];
    }
    forall j | 0 <= j < |y| ensures s[i + |x| + j] == y[j] {
      assert (x + y)[|x| + j] == y[j];
    }
  }

  /** An occurrence of `x` followed by one of `y` is an occurrence of `x + y`. */
  lemma StartsAtJoin(s: string, i: nat, x: string, y: string)
    requires StartsAt(s, i, x) && StartsAt(s, i + |x|, y)
    ensures StartsAt(s, i, x + y)
  {
    forall j | 0 <= j < |x + y| ensures s[i + j] == (x + y)[j] {
      if j >= |x| {
        assert s[i + |x| + (j - |x|)] == y[j - |x|];
      }
    }
  }

  lemma StartsAtFoldShift(a: string, b: string, k: nat, lit: string)
    ensures StartsAtFold(a + b, |a| + k, lit) <==> StartsAtFold(b, k, lit)
  {
    if StartsAtFold(b, k, lit) {
      forall j | 0 <= j < |lit| ensures FoldEq((a + b)[|a| + k + j], lit[j]) {
        assert (a + b)[|a| + k + j] == b[k + j];
      }
    }
    if StartsAtFold(a + b, |a| + k, lit) {
      forall j | 0 <= j < |lit| ensures FoldEq(b[k + j], lit[j]) {
        assert (a + b)[|a| + k + j] == b[k + j];
      }
    }
  }

  /** A string that lacks the first character of `sub` does not contain `sub`. */
  lemma MissingFirstCharNotContained(s: string, sub: string)
    requires |sub| > 0 && sub[0] !in s
    ensures !Contains(s, sub)
  {
    forall k | 0 <= k <= |s| ensures !StartsAt(s, k, sub) {
      if k < |s| {
        assert s[k] in s;
      }
    }
  }

  /** A string shorter than `sub` does not contain it. */
  lemma ShorterNotContained(s: string, sub: string)
    requires |s| < |sub|
    ensures !Contains(s, sub)
  {
  }

  // ---------------------------------------------------------------------------------------
  // Decimal numerals: int() and float() on the digit strings a pattern captured
  // ---------------------------------------------------------------------------------------

  predicate AllDigits(s: string) { forall k :: 0 <= k < |s| ==> IsDigit(s[k]) }

  function DigitValue(c: char): nat
    requires IsDigit(c)
  {
    c as int - '0' as int
  }

  /** The value of a string of decimal digits (0 for the empty string). */
  function NatOf(ds: string): nat
    requires AllDigits(ds)
    decreases |ds|
  {
    if ds == [] then 0 else NatOf(ds[..|ds| - 1]) * 10 + DigitValue(ds[|ds| - 1])
  }

  function DigitChar(d: nat): (c: char)
    requires d < 10
    ensures IsDigit(c) && DigitValue(c) == d
  {
    ('0' as int + d) as char
  }

  /** `str(n)`: the shortest decimal numeral of `n`. */
  function NatText(n: nat): (s: string)
    ensures 1 <= |s| && AllDigits(s)
    decreases n
  {
    if n < 10 then [DigitChar(n)] else NatText(n / 10) + [DigitChar(n % 10)]
  }

  /** Reading back a printed number gives the number. */
  lemma {:induction false} NatOfNatText(n: nat)
    ensures NatOf(NatText(n)) == n
  {
    if n >= 10 {
      var s := NatText(n);
      assert s[..|s| - 1] == NatText(n / 10);
      NatOfNatText(n / 10);
    }
  }

  /** The value of the digits after a decimal point: `0.d1d2...` read from the right. */
  function FractionOf(fp: string): (r: real)
    requires AllDigits(fp)
    ensures 0.0 <= r < 1.0
    decreases |fp|
  {
    if fp == [] then 0.0 else (DigitValue(fp[0]) as real + FractionOf(fp[1..])) / 10.0
  }

  /** `float("I.F")` for digit strings `I` and `F` (either may be empty where the pattern allows it). */
  function DecimalOf(ip: string, fp: string): real
    requires AllDigits(ip) && AllDigits(fp)
  {
    NatOf(ip) as real + FractionOf(fp)
  }

  /** The integer part of a decimal numeral is its floor: the fraction adds less than one. */
  lemma DecimalOfBounds(ip: string, fp: string)
    requires AllDigits(ip) && AllDigits(fp)
    ensures NatOf(ip) as real <= DecimalOf(ip, fp) < NatOf(ip) as real + 1.0
  {
  }

  // ---------------------------------------------------------------------------------------
  // str.split with a one-character separator, and its inverse
  // ---------------------------------------------------------------------------------------

  /** Index of the first `c` in `s`, or `|s|` when there is none. */
  function IndexOf(s: string, c: char): (k: nat)
    ensures k <= |s|
    ensures k < |s| ==> s[k] == c
    ensures forall j :: 0 <= j < k ==> s[j] != c
  {
    if s == [] then 0 else if s[0] == c then 0 else 1 + IndexOf(s[1..], c)
  }

  /** `s.split(sep)`: the pieces between separators, empty pieces included. */
  function Split(s: string, sep: char): (parts: seq<string>)
    ensures |parts| >= 1
    ensures forall p :: p in parts ==> sep !in p
    decreases |s|
  {
    var k := IndexOf(s, sep);
    if k == |s| then [s] else [s[..k]] + Split(s[k + 1..], sep)
  }

  /** `sep.join(parts)`. */
  function Join(parts: seq<string>, sep: char): string
    requires |parts| >= 1
  {
    if |parts| == 1 then parts[0] else parts[0] + [sep] + Join(parts[1..], sep)
  }

  /** Joining the pieces of a split restores the string. */
  lemma {:induction false} JoinSplit(s: string, sep: char)
    ensures Join(Split(s, sep), sep) == s
    decreases |s|
  {
    var k := IndexOf(s, sep);
    if k < |s| {
      var rest := Split(s[k + 1..], sep);
      var parts := [s[..k]] + rest;
      assert Split(s, sep) == parts;
      assert parts[1..] == rest;
      assert Join(parts, sep) == s[..k] + [sep] + Join(rest, sep);
      JoinSplit(s[k + 1..], sep);
      assert s == s[..k] + [sep] + s[k + 1..];
    }
  }

  /** The first separator of `a + [sep] + b` is the one after `a` when `a` has none. */
  lemma {:induction false} IndexOfAfter(a: string, sep: char, b: string)
    requires sep !in a
    ensures IndexOf(a + [sep] + b, sep) == |a|
    decreases |a|
  {
    if a != [] {
      assert (a + [sep] + b)[1..] == a[1..] + [sep] + b;
      IndexOfAfter(a[1..], sep, b);
    }
  }

  /** A separator-free piece followed by the separator is the first piece of the split. */
  lemma SplitAfter(a: string, sep: char, b: string)
    requires sep !in a
    ensures Split(a + [sep] + b, sep) == [a] + Split(b, sep)
  {
    var s := a + [sep] + b;
    IndexOfAfter(a, sep, b);
    assert s[..|a|] == a;
    assert s[|a| + 1..] == b;
  }

  /** Splitting a join of separator-free pieces gives the pieces back. */
  lemma {:induction false} SplitJoin(parts: seq<string>, sep: char)
    requires |parts| >= 1
    requires forall p :: p in parts ==> sep !in p
    ensures Split(Join(parts, sep), sep) == parts
    decreases |parts|
  {
    var s := Join(parts, sep);
    assert parts[0] in parts;
    if |parts| > 1 {
      var rest := Join(parts[1..], sep);
      assert s == parts[0] + [sep] + rest;
      IndexOfAfter(parts[0], sep, rest);
      assert s[|parts[0]| + 1..] == rest;
      assert s[..|parts[0]|] == parts[0];
      assert forall p :: p in parts[1..] ==> p in parts;
      SplitJoin(parts[1..], sep);
    }
  }

  // ---------------------------------------------------------------------------------------
  // int() on a string
  // ---------------------------------------------------------------------------------------

  /** `s` without its leading whitespace. */
  function TrimStart(s: string): (r: string)
    ensures |r| <= |s| && r == s[|s| - |r|..]
    ensures r == [] || !IsSpace(r[0])
    ensures forall k :: 0 <= k < |s| - |r| ==> IsSpace(s[k])
  {
    if s != [] && IsSpace(s[0]) then TrimStart(s[1..]) else s
  }

  /** `s` without its trailing whitespace. */
  function TrimEnd(s: string): (r: string)
    ensures |r| <= |s| && r == s[..|r|]
    ensures r == [] || !IsSpace(r[|r| - 1])
    ensures forall k :: |r| <= k < |s| ==> IsSpace(s[k])
  {
    if s != [] && IsSpace(s[|s| - 1]) then TrimEnd(s[..|s| - 1]) else s
  }

  /** `s.strip()`. */
  function Strip(s: string): string { TrimEnd(TrimStart(s)) }

  /** A base-10 literal as `int()` reads it: digits, with single underscores allowed between two digits. */
  predicate IsIntLiteral(t: string) {
    |t| >= 1 && IsDigit(t[0]) && IsDigit(t[|t| - 1])
    && forall k :: 0 <= k < |t| ==> IsDigit(t[k]) || (t[k] == '_' && k + 1 < |t| && IsDigit(t[k + 1]))
  }

  /** The digits of a literal, underscores removed. */
  function DigitsOnly(t: string): (r: string)
    ensures AllDigits(r)
  {
    if t == [] then [] else (if IsDigit(t[0]) then [t[0]] else []) + DigitsOnly(t[1..])
  }

  /** `int(s)` on ASCII digits: `None` where Python raises `ValueError` on such a text. Python
      also reads Unicode decimal digits, which this model does not. */
  function PyInt(s: string): (r: Option<int>)
    ensures r.Some? <==>
      var t := Strip(s);
      IsIntLiteral(t) || (|t| >= 1 && (t[0] == '+' || t[0] == '-') && IsIntLiteral(t[1..]))
  {
    var t := Strip(s);
    if IsIntLiteral(t) then Some(NatOf(DigitsOnly(t)))
    else if |t| >= 1 && (t[0] == '+' || t[0] == '-') && IsIntLiteral(t[1..]) then
      var n: int := NatOf(DigitsOnly(t[1..]));
      Some(if t[0] == '-' then -n else n)
    else None
  }

  lemma {:induction false} DigitsOnlyOfDigits(t: string)
    requires AllDigits(t)
    ensures DigitsOnly(t) == t
    decreases |t|
  {
    if t != [] {
      DigitsOnlyOfDigits(t[1..]);
    }
  }

  /** A digit string has nothing to strip. */
  lemma StripDigits(s: string)
    requires |s| >= 1 && AllDigits(s)
    ensures Strip(s) == s
  {
    assert TrimStart(s) == s;
    assert TrimEnd(s) == s;
  }

  /** `int()` of a digit string is its value. */
  lemma PyIntOfDigits(s: string)
    requires |s| >= 1 && AllDigits(s)
    ensures PyInt(s) == Some(NatOf(s))
  {
    StripDigits(s);
    DigitsOnlyOfDigits(s);
  }

  /** `int(str(n)) == n`. */
  lemma PyIntNatText(n: nat)
    ensures PyInt(NatText(n)) == Some(n)
  {
    PyIntOfDigits(NatText(n));
    NatOfNatText(n);
  }
}
