/** The parts of Python's `str` that the panel's parsers rely on, with Python's
    semantics: `strip()`, `splitlines()`, line iteration over a text file,
    `split(sep)`, `split(sep, 1)`, `partition(sep)`, `startswith`, `endswith`,
    `isdigit()`, `int(s)`, `replace(pat, "")`, string ordering and `sorted()`
    of a set of strings. */
module PyStr {
  import opened Wrappers

  // ---------------------------------------------------------------------
  // Whitespace and strip()
  // ---------------------------------------------------------------------

  /** `c.isspace()`: the characters Python treats as whitespace. */
  predicate IsSpace(c: char) {
    || c == ' '
    || ('\t' <= c <= '\r')
    || ('\U{1C}' <= c <= '\U{1F}')
    || c == '\U{85}' || c == '\U{A0}' || c == '\U{1680}'
    || ('\U{2000}' <= c <= '\U{200A}')
    || c == '\U{2028}' || c == '\U{2029}' || c == '\U{202F}'
    || c == '\U{205F}' || c == '\U{3000}'
  }

  predicate AllSpace(s: string) {
    forall i :: 0 <= i < |s| ==> IsSpace(s[i])
  }

  /** `s.lstrip()`. */
  function LStrip(s: string): (r: string)
    ensures |r| <= |s|
  {
    if s != [] && IsSpace(s[0]) then LStrip(s[1..]) else s
  }

  /** `s.rstrip()`. */
  function RStrip(s: string): (r: string)
    ensures |r| <= |s|
  {
    if s != [] && IsSpace(s[|s| - 1]) then RStrip(s[..|s| - 1]) else s
  }

  /** `s.strip()`. */
  function Strip(s: string): (r: string)
    ensures |r| <= |s|
  {
    RStrip(LStrip(s))
  }

  /** `lstrip()` keeps a suffix: what it drops is whitespace, and what it keeps
      does not start with whitespace. */
  lemma {:induction false} LStripDrops(s: string)
    ensures |LStrip(s)| <= |s| && LStrip(s) == s[|s| - |LStrip(s)|..]
    ensures AllSpace(s[..|s| - |LStrip(s)|])
    ensures LStrip(s) == [] || !IsSpace(LStrip(s)[0])
    decreases |s|
  {
    if s != [] && IsSpace(s[0]) {
      var t := s[1..];
      LStripDrops(t);
      var n := |s| - |LStrip(s)|;
      assert t[|t| - |LStrip(t)|..] == s[n..];
      assert forall i :: 1 <= i < n ==> s[..n][i] == t[..n - 1][i - 1];
    } else {
      assert s[0..] == s;
    }
  }

  /** `rstrip()` keeps a prefix: what it drops is whitespace, and what it keeps
      does not end with whitespace. */
  lemma {:induction false} RStripDrops(s: string)
    ensures |RStrip(s)| <= |s| && RStrip(s) == s[..|RStrip(s)|]
    ensures AllSpace(s[|RStrip(s)|..])
    ensures RStrip(s) == [] || !IsSpace(RStrip(s)[|RStrip(s)| - 1])
    decreases |s|
  {
    if s != [] && IsSpace(s[|s| - 1]) {
      var t := s[..|s| - 1];
      RStripDrops(t);
      var n := |RStrip(s)|;
      assert t[..n] == s[..n];
      assert s[n..] == t[n..] + [s[|s| - 1]];
    } else {
      assert s[..|s|] == s;
    }
  }

  /** `strip()` keeps a middle part of `s`: what it drops on either side is
      whitespace, and neither end of what it keeps is whitespace. */
  lemma StripDrops(s: string)
    ensures var r := Strip(s); var i := |s| - |LStrip(s)|;
      i + |r| <= |s| && r == s[i..i + |r|] &&
      AllSpace(s[..i]) && AllSpace(s[i + |r|..]) &&
      (r == [] || (!IsSpace(r[0]) && !IsSpace(r[|r| - 1])))
  {
    var l := LStrip(s);
    var r := Strip(s);
    var i := |s| - |l|;
    LStripDrops(s);
    RStripDrops(l);
    assert r == l[..|r|];
    assert s[i..i + |r|] == l[..|r|];
    assert s[i + |r|..] == l[|r|..];
    assert r != [] ==> r[0] == l[0];
  }

  /** A string whose ends are not whitespace is left alone by `strip()`. */
  lemma StripTrimmed(s: string)
    requires s == [] || (!IsSpace(s[0]) && !IsSpace(s[|s| - 1]))
    ensures Strip(s) == s
  {
  }

  lemma StripIdempotent(s: string)
    ensures Strip(Strip(s)) == Strip(s)
  {
    StripDrops(s);
    StripTrimmed(Strip(s));
  }

  /** `strip()` gives the empty string exactly for all-whitespace input. */
  lemma StripEmpty(s: string)
    ensures Strip(s) == [] <==> AllSpace(s)
  {
    StripDrops(s);
    var r := Strip(s);
    var i := |s| - |LStrip(s)|;
    if r == [] {
      assert forall j :: 0 <= j < i ==> s[j] == s[..i][j];
      assert forall j :: i <= j < |s| ==> s[j] == s[i..][j - i];
    } else {
      assert r[0] == s[i];
    }
  }

  // ---------------------------------------------------------------------
  // Lines
  // ---------------------------------------------------------------------

  /** The line boundaries of `str.splitlines()`. */
  predicate IsLineBoundary(c: char) {
    || c == '\n' || c == '\r' || c == '\U{B}' || c == '\U{C}'
    || ('\U{1C}' <= c <= '\U{1E}')
    || c == '\U{85}' || c == '\U{2028}' || c == '\U{2029}'
  }

  /** How a text is cut into lines: `str.splitlines()`, or iterating over a
      file opened in text mode (universal newlines: `\n`, `\r` and `\r\n`). */
  datatype LineRule = SplitLinesRule | UniversalNewlines

  predicate EndsLine(rule: LineRule, c: char) {
    match rule
    case SplitLinesRule => IsLineBoundary(c)
    case UniversalNewlines => c == '\n' || c == '\r'
  }

  predicate NoLineEnd(rule: LineRule, s: string) {
    forall i :: 0 <= i < |s| ==> !EndsLine(rule, s[i])
  }

  /** Position of the first line end in `s`, or `|s|`. */
  function LineEndIndex(s: string, rule: LineRule): (k: nat)
    ensures k <= |s|
    ensures k < |s| ==> EndsLine(rule, s[k])
  {
    if s == [] || EndsLine(rule, s[0]) then 0 else 1 + LineEndIndex(s[1..], rule)
  }

  /** No line ends before the first line end. */
  lemma {:induction false} LineEndIndexFirst(s: string, rule: LineRule)
    ensures NoLineEnd(rule, s[..LineEndIndex(s, rule)])
    decreases |s|
  {
    if s != [] && !EndsLine(rule, s[0]) {
      var k := LineEndIndex(s, rule);
      LineEndIndexFirst(s[1..], rule);
      assert forall i :: 1 <= i < k ==> s[..k][i] == s[1..][..k - 1][i - 1];
    }
  }

  /** The lines of `s` without their terminators; `\r\n` is one terminator,
      and a final terminator does not start an extra empty line. */
  function Lines(s: string, rule: LineRule): seq<string>
    decreases |s|
  {
    if s == [] then []
    else
      var k := LineEndIndex(s, rule);
      if k == |s| then [s]
      else
        var next := if s[k] == '\r' && k + 1 < |s| && s[k + 1] == '\n' then k + 2 else k + 1;
        [s[..k]] + Lines(s[next..], rule)
  }

  /** `s.splitlines()`. */
  function SplitLines(s: string): seq<string> {
    Lines(s, SplitLinesRule)
  }

  /** The lines `for line in open(path)` yields, once each is stripped of its newline. */
  function FileLines(s: string): seq<string> {
    Lines(s, UniversalNewlines)
  }

  /** No line holds a line end. */
  lemma {:induction false} LinesHaveNoEnds(s: string, rule: LineRule)
    ensures forall i :: 0 <= i < |Lines(s, rule)| ==> NoLineEnd(rule, Lines(s, rule)[i])
    decreases |s|
  {
    if s != [] {
      var k := LineEndIndex(s, rule);
      LineEndIndexFirst(s, rule);
      if k < |s| {
        var next := if s[k] == '\r' && k + 1 < |s| && s[k + 1] == '\n' then k + 2 else k + 1;
        LinesHaveNoEnds(s[next..], rule);
      } else {
        assert s[..k] == s;
      }
    }
  }

  /** `"\n".join(ls)`. */
  function JoinLines(ls: seq<string>): string {
    if ls == [] then [] else if |ls| == 1 then ls[0] else ls[0] + "\n" + JoinLines(ls[1..])
  }

  lemma {:induction false} LineEndAfter(a: string, b: string, rule: LineRule)
    requires NoLineEnd(rule, a)
    requires b == [] || EndsLine(rule, b[0])
    ensures LineEndIndex(a + b, rule) == |a|
  {
    if a == [] {
      assert a + b == b;
    } else {
      var s := a + b;
      assert s[0] == a[0] && !EndsLine(rule, a[0]);
      assert s[1..] == a[1..] + b;
      assert NoLineEnd(rule, a[1..]) by {
        assert forall i :: 0 <= i < |a[1..]| ==> a[1..][i] == a[i + 1];
      }
      LineEndAfter(a[1..], b, rule);
    }
  }

  /** A line that ends at a `\n` is followed by the lines of the rest. */
  lemma LinesCons(a: string, tail: string, rule: LineRule)
    requires NoLineEnd(rule, a)
    ensures Lines(a + "\n" + tail, rule) == [a] + Lines(tail, rule)
  {
    var s := a + "\n" + tail;
    assert s == a + ("\n" + tail);
    LineEndAfter(a, "\n" + tail, rule);
    var k := |a|;
    assert s[k] == '\n';
    assert s[..k] == a;
    assert s[k + 1..] == tail;
  }

  /** Splitting lines undoes joining them with `\n`, as long as no line holds a
      line boundary and the last one is not empty. */
  lemma {:induction false} LinesOfJoin(ls: seq<string>, rule: LineRule)
    requires ls != [] && ls[|ls| - 1] != []
    requires forall i :: 0 <= i < |ls| ==> NoLineEnd(rule, ls[i])
    ensures Lines(JoinLines(ls), rule) == ls
  {
    if |ls| == 1 {
      LineEndAfter(ls[0], [], rule);
      assert ls[0] + [] == ls[0];
    } else {
      var rest := ls[1..];
      assert rest[|rest| - 1] == ls[|ls| - 1];
      assert forall i :: 0 <= i < |rest| ==> rest[i] == ls[i + 1];
      assert JoinLines(ls) == ls[0] + "\n" + JoinLines(rest);
      LinesCons(ls[0], JoinLines(rest), rule);
      LinesOfJoin(rest, rule);
      assert ls == [ls[0]] + rest;
    }
  }

  // ---------------------------------------------------------------------
  // split, partition, prefixes
  // ---------------------------------------------------------------------

  /** Position of the first `c` in `s`, or `|s|`. */
  function IndexOf(s: string, c: char): (k: nat)
    ensures k <= |s|
    ensures k < |s| ==> s[k] == c
    ensures c !in s[..k]
    ensures k < |s| <==> c in s
  {
    if s == [] || s[0] == c then 0
    else
      var k := 1 + IndexOf(s[1..], c);
      assert s[..k] == [s[0]] + s[1..][..k - 1];
      k
  }

  /** `s.split(sep)` for a one-character separator: never empty. */
  function Split(s: string, sep: char): (r: seq<string>)
    ensures |r| >= 1
    decreases |s|
  {
    var k := IndexOf(s, sep);
    if k == |s| then [s] else [s[..k]] + Split(s[k + 1..], sep)
  }

  /** `sep.join(parts)`. */
  function Join(parts: seq<string>, sep: char): string
    requires |parts| >= 1
  {
    if |parts| == 1 then parts[0] else parts[0] + [sep] + Join(parts[1..], sep)
  }

  /** A field that ends at a separator is followed by the fields of the rest. */
  lemma SplitCons(a: string, tail: string, sep: char)
    requires sep !in a
    ensures Split(a + [sep] + tail, sep) == [a] + Split(tail, sep)
  {
    var s := a + [sep] + tail;
    assert s == a + ([sep] + tail);
    IndexOfAt(a, [sep] + tail, sep);
    assert s[..|a|] == a;
    assert s[|a| + 1..] == tail;
  }

  /** No field of a split holds the separator. */
  lemma {:induction false} SplitFieldsLackSep(s: string, sep: char)
    ensures forall i :: 0 <= i < |Split(s, sep)| ==> sep !in Split(s, sep)[i]
    decreases |s|
  {
    var k := IndexOf(s, sep);
    if k < |s| {
      SplitFieldsLackSep(s[k + 1..], sep);
    }
  }

  /** Joining the fields of a split gives back the original string. */
  lemma {:induction false} JoinSplit(s: string, sep: char)
    ensures Join(Split(s, sep), sep) == s
    decreases |s|
  {
    var k := IndexOf(s, sep);
    if k < |s| {
      var rest := s[k + 1..];
      assert s == s[..k] + [sep] + rest;
      SplitCons(s[..k], rest, sep);
      JoinSplit(rest, sep);
      var fs := Split(rest, sep);
      assert Split(s, sep) == [s[..k]] + fs;
      assert ([s[..k]] + fs)[1..] == fs;
    }
  }

  /** Splitting a join of separator-free fields gives back the fields. */
  lemma {:induction false} SplitJoin(parts: seq<string>, sep: char)
    requires |parts| >= 1
    requires forall i :: 0 <= i < |parts| ==> sep !in parts[i]
    ensures Split(Join(parts, sep), sep) == parts
  {
    if |parts| == 1 {
      IndexOfAbsent(parts[0], sep);
    } else {
      SplitCons(parts[0], Join(parts[1..], sep), sep);
      SplitJoin(parts[1..], sep);
      assert parts == [parts[0]] + parts[1..];
    }
  }

  lemma IndexOfAbsent(s: string, c: char)
    requires c !in s
    ensures IndexOf(s, c) == |s|
  {
  }

  lemma {:induction false} IndexOfAt(a: string, b: string, c: char)
    requires c !in a && b != [] && b[0] == c
    ensures IndexOf(a + b, c) == |a|
  {
    if a != [] {
      assert (a + b)[1..] == a[1..] + b;
      assert a[0] in a;
      IndexOfAt(a[1..], b, c);
    }
  }

  /** `s.split(sep, 1)`: one field when `sep` does not occur, otherwise the
      text before and after its first occurrence. */
  function SplitOnce(s: string, sep: char): (r: seq<string>)
    ensures 1 <= |r| <= 2
    ensures |r| == 1 <==> sep !in s
    ensures |r| == 1 ==> r[0] == s
    ensures |r| == 2 ==> s == r[0] + [sep] + r[1] && sep !in r[0]
  {
    var k := IndexOf(s, sep);
    if k == |s| then
      assert s[..k] == s;
      [s]
    else
      assert s == s[..k] + [sep] + s[k + 1..];
      [s[..k], s[k + 1..]]
  }

  /** `head, _, tail = s.partition(sep)`: `tail` is empty when `sep` does not occur. */
  function Partition(s: string, sep: char): (r: (string, string))
    ensures sep !in r.0
    ensures sep in s ==> s == r.0 + [sep] + r.1
    ensures sep !in s ==> r == (s, [])
  {
    var parts := SplitOnce(s, sep);
    if |parts| == 1 then (s, []) else (parts[0], parts[1])
  }

  predicate StartsWith(s: string, p: string) {
    |p| <= |s| && s[..|p|] == p
  }

  predicate EndsWith(s: string, p: string) {
    |p| <= |s| && s[|s| - |p|..] == p
  }

  /** For a `key=` prefix, `line.split("=", 1)[1]` is the text after the prefix. */
  lemma ValueAfterKey(line: string, name: string)
    requires '=' !in name
    requires StartsWith(line, name + "=")
    ensures SplitOnce(line, '=') == [name, line[|name| + 1..]]
  {
    assert line == name + ("=" + line[|name| + 1..]);
    IndexOfAt(name, "=" + line[|name| + 1..], '=');
    assert line[..|name|] == name;
  }

  // ---------------------------------------------------------------------
  // Digits and int()
  // ---------------------------------------------------------------------

  predicate IsDigit(c: char) {
    '0' <= c <= '9'
  }

  /** `s.isdigit()`, for ASCII digits. */
  predicate IsDigits(s: string) {
    |s| > 0 && forall i :: 0 <= i < |s| ==> IsDigit(s[i])
  }

  /** The digits of an `int()` literal: digits, each `_` followed by a digit,
      starting with a digit (so `1_000` but not `_1`, `1_` or `1__0`). */
  predicate DigitGroups(b: string) {
    |b| > 0 && IsDigit(b[0]) && forall i :: 0 <= i < |b| ==> GroupChar(b, i)
  }

  /** Position `i` holds a digit, or an underscore with a digit after it. */
  predicate GroupChar(b: string, i: nat)
    requires i < |b|
  {
    IsDigit(b[i]) || (b[i] == '_' && i + 1 < |b| && IsDigit(b[i + 1]))
  }

  /** The value of one digit character (0 for anything else). */
  function DigitValue(c: char): nat {
    if IsDigit(c) then c as int - '0' as int else 0
  }

  /** The number the digits of `d` spell, underscores skipped. */
  function DigitsValue(d: string): nat {
    if d == [] then 0
    else if d[|d| - 1] == '_' then DigitsValue(d[..|d| - 1])
    else DigitsValue(d[..|d| - 1]) * 10 + DigitValue(d[|d| - 1])
  }

  /** A whitespace byte of C's `isspace`: blank, tab, newline, vertical tab,
      form feed, carriage return. */
  predicate IsAsciiSpace(c: char) {
    c == ' ' || ('\t' <= c <= '\r')
  }

  predicate IsAscii(s: string) {
    forall i :: 0 <= i < |s| ==> s[i] < '\U{80}'
  }

  /** `s.strip(" \t\n\v\f\r")`. */
  function StripAscii(s: string): (r: string)
    ensures |r| <= |s|
    decreases |s|
  {
    if s != [] && IsAsciiSpace(s[0]) then StripAscii(s[1..])
    else if s != [] && IsAsciiSpace(s[|s| - 1]) then StripAscii(s[..|s| - 1])
    else s
  }

  /** The text `int()` reads digits from. An all-ASCII string goes to the
      parser as it is, which skips only ASCII whitespace at either end;
      any other string first has every Unicode whitespace character turned
      into a blank, so what is skipped is what `strip()` removes. */
  function IntText(s: string): string {
    if IsAscii(s) then StripAscii(s) else Strip(s)
  }

  /** Python's `int(s)` in base 10, with `None` where it raises ValueError:
      surrounding whitespace is ignored, then one optional sign and digit groups. */
  function ParseInt(s: string): Option<int> {
    ParseSigned(IntText(s))
  }

  /** `int("\x1f70")` raises: U+001F is whitespace to `str.strip()` but not to
      the parser of an ASCII string; next to a non-ASCII blank it is skipped. */
  lemma IntInformationSeparator()
    ensures ParseInt("\U{1F}70") == None
    ensures ParseInt("\U{1F}70\U{A0}") == Some(70)
  {
    var a := "\U{1F}70";
    assert IsAscii(a);
    assert StripAscii(a) == a;
    assert !DigitGroups(a);
    var b := "\U{1F}70\U{A0}";
    assert !IsAscii(b) by { assert b[3] == '\U{A0}'; }
    assert LStrip(b) == "70\U{A0}";
    assert LStrip(b)[..2] == "70";
    assert Strip(b) == "70";
    assert DigitsValue("70") == 70 by { assert "70"[..1] == "7"; }
  }

  /** `int()` of text with no surrounding whitespace. */
  function ParseSigned(t: string): Option<int> {
    if t == [] then None
    else if t[0] == '-' then (if DigitGroups(t[1..]) then Some(-(DigitsValue(t[1..]) as int)) else None)
    else if t[0] == '+' then (if DigitGroups(t[1..]) then Some(DigitsValue(t[1..]) as int) else None)
    else if DigitGroups(t) then Some(DigitsValue(t) as int)
    else None
  }

  function DigitChar(d: nat): char
    requires d < 10
  {
    ('0' as int + d) as char
  }

  /** The decimal digits of `n` without leading zeros. */
  function Digits(n: nat): (r: string)
    ensures IsDigits(r)
  {
    if n < 10 then [DigitChar(n)] else Digits(n / 10) + [DigitChar(n % 10)]
  }

  /** `str(n)`. */
  function Decimal(n: int): string {
    if n < 0 then "-" + Digits(-n) else Digits(n)
  }

  lemma {:induction false} DigitsValueOfDigits(n: nat)
    ensures DigitsValue(Digits(n)) == n
  {
    var d := Digits(n);
    if n >= 10 {
      assert d[..|d| - 1] == Digits(n / 10);
      DigitsValueOfDigits(n / 10);
    }
  }

  lemma DigitsAreGroups(n: nat)
    ensures DigitGroups(Digits(n))
  {
  }

  /** `int(str(n)) == n`. */
  lemma ParseIntDecimal(n: int)
    ensures ParseInt(Decimal(n)) == Some(n)
  {
    var m: nat := if n < 0 then -n else n;
    var d := Digits(m);
    var s := Decimal(n);
    assert IsDigit(d[0]) && IsDigit(d[|d| - 1]);
    assert s[|s| - 1] == d[|d| - 1];
    assert s[0] == '-' || IsDigit(s[0]);
    assert IsAscii(s);
    assert StripAscii(s) == s;
    DigitsAreGroups(m);
    DigitsValueOfDigits(m);
    if n < 0 {
      assert s[1..] == d;
    } else {
      assert s == d;
    }
  }

  // ---------------------------------------------------------------------
  // replace(pat, "")
  // ---------------------------------------------------------------------

  /** `s.replace(pat, "")`: occurrences removed left to right, without rescanning. */
  function RemoveAll(s: string, pat: string): (r: string)
    requires pat != []
    ensures |r| <= |s|
    decreases |s|
  {
    if s == [] then []
    else if StartsWith(s, pat) then RemoveAll(s[|pat|..], pat)
    else [s[0]] + RemoveAll(s[1..], pat)
  }

  /** Text without an occurrence of `pat` is unchanged. */
  lemma {:induction false} RemoveAllAbsent(s: string, pat: string)
    requires pat != []
    requires forall i :: 0 <= i <= |s| ==> !StartsWith(s[i..], pat)
    ensures RemoveAll(s, pat) == s
    decreases |s|
  {
    if s != [] {
      assert s[0..] == s;
      forall i | 0 <= i <= |s[1..]| ensures !StartsWith(s[1..][i..], pat) {
        assert s[1..][i..] == s[i + 1..];
      }
      RemoveAllAbsent(s[1..], pat);
    }
  }

  // ---------------------------------------------------------------------
  // String order and sorted()
  // ---------------------------------------------------------------------

  /** Python's `a < b` on strings: lexicographic on code points, a proper
      prefix first. */
  predicate StrLess(a: string, b: string)
    decreases |a|
  {
    if a == [] then b != []
    else b != [] && (a[0] < b[0] || (a[0] == b[0] && StrLess(a[1..], b[1..])))
  }

  lemma {:induction false} StrLessIrreflexive(a: string)
    ensures !StrLess(a, a)
    decreases |a|
  {
    if a != [] {
      StrLessIrreflexive(a[1..]);
    }
  }

  lemma {:induction false} StrLessTransitive(a: string, b: string, c: string)
    requires StrLess(a, b) && StrLess(b, c)
    ensures StrLess(a, c)
    decreases |a|
  {
    if a != [] && a[0] == b[0] && b[0] == c[0] {
      StrLessTransitive(a[1..], b[1..], c[1..]);
    }
  }

  lemma {:induction false} StrLessTotal(a: string, b: string)
    requires a != b
    ensures StrLess(a, b) || StrLess(b, a)
    decreases |a|
  {
    if a != [] && b != [] && a[0] == b[0] {
      assert a == [a[0]] + a[1..] && b == [b[0]] + b[1..];
      StrLessTotal(a[1..], b[1..]);
    }
  }

  predicate StrictlySorted(r: seq<string>) {
    forall i, j :: 0 <= i < j < |r| ==> StrLess(r[i], r[j])
  }

  /** `sorted(list(s))` for a set of strings: each element once, ascending. */
  method SortedList(s: set<string>) returns (r: seq<string>)
    ensures StrictlySorted(r)
    ensures forall x :: x in r <==> x in s
    ensures |r| == |s|
  {
    r := [];
    var rest := s;
    while rest != {}
      invariant rest <= s
      invariant StrictlySorted(r)
      invariant forall x :: x in r <==> x in s && x !in rest
      invariant |r| + |rest| == |s|
      decreases |rest|
    {
      var x :| x in rest;
      var k := 0;
      while k < |r| && StrLess(r[k], x)
        invariant 0 <= k <= |r|
        invariant forall i :: 0 <= i < k ==> StrLess(r[i], x)
      {
        k := k + 1;
      }
      if k < |r| {
        StrLessTotal(r[k], x);
        forall j | k < j < |r| ensures StrLess(x, r[j]) {
          StrLessTransitive(x, r[k], r[j]);
        }
      }
      r := r[..k] + [x] + r[k..];
      rest := rest - {x};
    }
  }
}
