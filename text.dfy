/**
 * The Python string operations the tools rely on, stated over `seq<char>`:
 * `in` on strings, `strip()`, `splitlines()` and text-mode line iteration,
 * `str(int)`, `int(str)`, `replace("\\", "/")`, `removeprefix` and `upper()`.
 */
module Text {
  import opened Wrappers

  // ---------------------------------------------------------------------------
  // Character classes
  // ---------------------------------------------------------------------------

  /** The characters for which Python's `str.isspace()` holds. */
  predicate IsSpace(c: char)
  {
    var n := c as int;
    n == 0x20 || 0x09 <= n <= 0x0D || 0x1C <= n <= 0x1F || n == 0x85 || n == 0xA0
    || n == 0x1680 || 0x2000 <= n <= 0x200A || n == 0x2028 || n == 0x2029
    || n == 0x202F || n == 0x205F || n == 0x3000
  }

  predicate IsDigit(c: char)
  {
    '0' <= c <= '9'
  }

  function DigitValue(c: char): (d: nat)
    requires IsDigit(c)
    ensures d < 10
  {
    (c as int) - ('0' as int)
  }

  function DigitChar(d: nat): (c: char)
    requires d < 10
    ensures IsDigit(c) && DigitValue(c) == d
  {
    (('0' as int) + d) as char
  }

  // ---------------------------------------------------------------------------
  // Substring search: Python's `pat in text`
  // ---------------------------------------------------------------------------

  /** `pat` occurs in `text` starting at index `i`. */
  predicate OccursAt(text: string, pat: string, i: int)
  {
    0 <= i && i + |pat| <= |text| && text[i..i + |pat|] == pat
  }

  /** Python's `pat in text`, computed by scanning from the left. */
  predicate Contains(text: string, pat: string)
    decreases |text|
  {
    if |pat| > |text| then false
    else if text[..|pat|] == pat then true
    else |text| > 0 && Contains(text[1..], pat)
  }

  /** The scan agrees with the definition "occurs at some index". */
  lemma {:induction false} ContainsIff(text: string, pat: string)
    ensures Contains(text, pat) <==> exists i :: OccursAt(text, pat, i)
    decreases |text|
  {
    if |pat| > |text| {
      assert forall i :: !OccursAt(text, pat, i);
    } else if text[..|pat|] == pat {
      assert OccursAt(text, pat, 0);
    } else {
      ContainsIff(text[1..], pat);
      forall i | 0 < i && OccursAt(text, pat, i)
        ensures OccursAt(text[1..], pat, i - 1)
      {
        assert text[1..][i - 1..i - 1 + |pat|] == text[i..i + |pat|];
      }
      forall i | OccursAt(text[1..], pat, i)
        ensures OccursAt(text, pat, i + 1)
      {
        assert text[1..][i..i + |pat|] == text[i + 1..i + 1 + |pat|];
      }
      assert !OccursAt(text, pat, 0);
    }
  }

  /** Every string contains the empty string. */
  lemma ContainsEmpty(text: string)
    ensures Contains(text, "")
  {
    assert text[..0] == "";
  }

  /** A string contains itself. */
  lemma ContainsSelf(text: string)
    ensures Contains(text, text)
  {
    assert text[..|text|] == text;
  }

  /** What a slice contains, the whole string contains. */
  lemma ContainsInSlice(text: string, lo: int, hi: int, pat: string)
    requires 0 <= lo <= hi <= |text|
    requires Contains(text[lo..hi], pat)
    ensures Contains(text, pat)
  {
    ContainsIff(text[lo..hi], pat);
    var i :| OccursAt(text[lo..hi], pat, i);
    var a, b := text[lo + i..lo + i + |pat|], text[lo..hi][i..i + |pat|];
    assert forall j :: 0 <= j < |pat| ==> a[j] == b[j];
    assert a == pat;
    assert OccursAt(text, pat, lo + i);
    ContainsIff(text, pat);
  }

  /** A string that contains `pat` contains it in the left or right part, or across the cut. */
  lemma ContainsConcat(a: string, b: string, pat: string)
    requires Contains(a, pat) || Contains(b, pat)
    ensures Contains(a + b, pat)
  {
    if Contains(a, pat) {
      assert (a + b)[0..|a|] == a;
      ContainsInSlice(a + b, 0, |a|, pat);
    } else {
      assert (a + b)[|a|..|a + b|] == b;
      ContainsInSlice(a + b, |a|, |a + b|, pat);
    }
  }

  // ---------------------------------------------------------------------------
  // strip(), and blank lines
  // ---------------------------------------------------------------------------

  /** Python's `s.lstrip()`. */
  function StripLeft(s: string): (r: string)
    ensures |r| <= |s|
    decreases |s|
  {
    if s != [] && IsSpace(s[0]) then StripLeft(s[1..]) else s
  }

  /** Python's `s.rstrip()`. */
  function StripRight(s: string): (r: string)
    ensures |r| <= |s|
    decreases |s|
  {
    if s != [] && IsSpace(s[|s| - 1]) then StripRight(s[..|s| - 1]) else s
  }

  /** Python's `s.strip()`. */
  function Strip(s: string): string
  {
    StripRight(StripLeft(s))
  }

  /** `lstrip` removes exactly the leading whitespace. */
  lemma {:induction false} StripLeftSpec(s: string)
    ensures StripLeft(s) == s[|s| - |StripLeft(s)|..]
    ensures StripLeft(s) == [] || !IsSpace(StripLeft(s)[0])
    ensures forall i :: 0 <= i < |s| - |StripLeft(s)| ==> IsSpace(s[i])
    decreases |s|
  {
    if s != [] && IsSpace(s[0]) {
      StripLeftSpec(s[1..]);
    }
  }

  /** `rstrip` removes exactly the trailing whitespace. */
  lemma {:induction false} StripRightSpec(s: string)
    ensures StripRight(s) == s[..|StripRight(s)|]
    ensures StripRight(s) == [] || !IsSpace(StripRight(s)[|StripRight(s)| - 1])
    ensures forall i :: |StripRight(s)| <= i < |s| ==> IsSpace(s[i])
    decreases |s|
  {
    if s != [] && IsSpace(s[|s| - 1]) {
      StripRightSpec(s[..|s| - 1]);
    }
  }

  /** `strip` keeps a slice of the input, with whitespace only outside it and at neither of its ends. */
  lemma StripSpec(s: string)
    ensures |s| - |StripLeft(s)| + |Strip(s)| <= |s|
    ensures Strip(s) == s[|s| - |StripLeft(s)|..|s| - |StripLeft(s)| + |Strip(s)|]
    ensures Strip(s) == [] || (!IsSpace(Strip(s)[0]) && !IsSpace(Strip(s)[|Strip(s)| - 1]))
  {
    var l := StripLeft(s);
    var r := Strip(s);
    StripLeftSpec(s);
    StripRightSpec(l);
    var lo := |s| - |l|;
    assert r == l[..|r|];
    assert r == s[lo..lo + |r|];
  }

  /** The string is empty or all whitespace. */
  predicate IsBlank(s: string)
  {
    forall i :: 0 <= i < |s| ==> IsSpace(s[i])
  }

  /** `IsBlank` is Python's `not s.strip()`. */
  lemma IsBlankIff(s: string)
    ensures IsBlank(s) <==> Strip(s) == []
  {
    if IsBlank(s) {
      StripLeftAllSpace(s);
    } else {
      StripLeftSpec(s);
      StripRightSpec(StripLeft(s));
    }
  }

  lemma {:induction false} StripLeftAllSpace(s: string)
    requires forall i :: 0 <= i < |s| ==> IsSpace(s[i])
    ensures StripLeft(s) == []
    decreases |s|
  {
    if s != [] {
      StripLeftAllSpace(s[1..]);
    }
  }

  /** Stripping a string that has no whitespace at either end changes nothing. */
  lemma StripNoEdges(s: string)
    requires s != [] ==> !IsSpace(s[0]) && !IsSpace(s[|s| - 1])
    ensures Strip(s) == s
  {
  }

  // ---------------------------------------------------------------------------
  // Line splitting
  // ---------------------------------------------------------------------------

  /**
   * Which characters end a line. `StrSplitLines` is Python's `str.splitlines()`;
   * `FileIteration` is iterating a file opened in text mode with universal
   * newlines, where "\r\n", "\r" and "\n" all end a line and `rstrip("\n")` then
   * removes the terminator.
   */
  datatype LineMode = StrSplitLines | FileIteration

  predicate IsBreak(c: char, mode: LineMode)
  {
    match mode
    case FileIteration => c == '\n' || c == '\r'
    case StrSplitLines =>
      var n := c as int;
      0x0A <= n <= 0x0D || 0x1C <= n <= 0x1E || n == 0x85 || n == 0x2028 || n == 0x2029
  }

  /** Index of the first line break at or after `i`, or `|s|` when there is none. */
  function FirstBreak(s: string, mode: LineMode, i: nat): (k: nat)
    requires i <= |s|
    ensures i <= k <= |s|
    ensures k < |s| ==> IsBreak(s[k], mode)
    ensures forall j :: i <= j < k ==> !IsBreak(s[j], mode)
    decreases |s| - i
  {
    if i == |s| || IsBreak(s[i], mode) then i else FirstBreak(s, mode, i + 1)
  }

  /** Length of the terminator starting at index `k` ("\r\n" counts as one). */
  function BreakWidth(s: string, k: nat): (w: nat)
    requires k < |s|
    ensures 1 <= w <= 2 && k + w <= |s|
  {
    if s[k] == '\r' && k + 1 < |s| && s[k + 1] == '\n' then 2 else 1
  }

  /** The lines of `s` without their terminators; a final terminator opens no empty line. */
  function SplitLines(s: string, mode: LineMode): seq<string>
    decreases |s|
  {
    if s == [] then []
    else
      var k := FirstBreak(s, mode, 0);
      if k == |s| then [s]
      else [s[..k]] + SplitLines(s[k + BreakWidth(s, k)..], mode)
  }

  /** No line holds a line break. */
  lemma {:induction false} SplitLinesNoBreaks(s: string, mode: LineMode)
    ensures forall l, j :: l in SplitLines(s, mode) && 0 <= j < |l| ==> !IsBreak(l[j], mode)
    decreases |s|
  {
    if s != [] {
      var k := FirstBreak(s, mode, 0);
      if k < |s| {
        var rest := s[k + BreakWidth(s, k)..];
        SplitLinesNoBreaks(rest, mode);
        assert SplitLines(s, mode) == [s[..k]] + SplitLines(rest, mode);
        forall l, j | l in SplitLines(s, mode) && 0 <= j < |l| ensures !IsBreak(l[j], mode) {
          if l !in SplitLines(rest, mode) {
            assert l == s[..k] && l[j] == s[j];
          }
        }
      } else {
        assert SplitLines(s, mode) == [s];
      }
    }
  }

  /** Lines each followed by "\n". */
  function JoinTerminated(lines: seq<string>): string
  {
    if lines == [] then "" else lines[0] + "\n" + JoinTerminated(lines[1..])
  }

  /** Splitting undoes joining with terminators, in both line modes. */
  lemma {:induction false} SplitJoinTerminated(lines: seq<string>, mode: LineMode)
    requires forall l, j :: l in lines && 0 <= j < |l| ==> !IsBreak(l[j], mode)
    ensures SplitLines(JoinTerminated(lines), mode) == lines
  {
    if lines != [] {
      assert lines[0] in lines;
      SplitLinesCons(lines[0], JoinTerminated(lines[1..]), mode);
      SplitJoinTerminated(lines[1..], mode);
    }
  }

  /** A break-free line followed by "\n" is split off as the first line. */
  lemma SplitLinesCons(l: string, rest: string, mode: LineMode)
    requires forall j :: 0 <= j < |l| ==> !IsBreak(l[j], mode)
    ensures SplitLines(l + "\n" + rest, mode) == [l] + SplitLines(rest, mode)
  {
    var s := l + "\n" + rest;
    assert s[|l|] == '\n';
    assert forall j :: 0 <= j < |l| ==> s[j] == l[j];
    FirstBreakAt(s, mode, 0, |l|);
    assert s[..|l|] == l;
    assert s[|l| + 1..] == rest;
  }

  /** The first break is at `k` when `k` is a break and nothing before it is. */
  lemma {:induction false} FirstBreakAt(s: string, mode: LineMode, i: nat, k: nat)
    requires i <= k < |s| && IsBreak(s[k], mode)
    requires forall j :: i <= j < k ==> !IsBreak(s[j], mode)
    ensures FirstBreak(s, mode, i) == k
    decreases k - i
  {
    if i < k {
      FirstBreakAt(s, mode, i + 1, k);
    }
  }

  /** Index of the first `c` at or after `i`, or `|s|` when there is none. */
  function FindChar(s: string, c: char, i: nat): (k: nat)
    requires i <= |s|
    ensures i <= k <= |s|
    ensures k < |s| ==> s[k] == c
    ensures forall j :: i <= j < k ==> s[j] != c
    decreases |s| - i
  {
    if i == |s| || s[i] == c then i else FindChar(s, c, i + 1)
  }

  /** Python's `s.split(c)` for a one-character separator: always at least one piece. */
  function SplitOnChar(s: string, c: char): (r: seq<string>)
    ensures |r| >= 1
    decreases |s|
  {
    var k := FindChar(s, c, 0);
    if k == |s| then [s] else [s[..k]] + SplitOnChar(s[k + 1..], c)
  }

  /** Joining the pieces with the separator gives back the string; no piece holds the separator. */
  lemma {:induction false} SplitOnCharJoin(s: string, c: char)
    ensures Join([c], SplitOnChar(s, c)) == s
    ensures forall p, j :: p in SplitOnChar(s, c) && 0 <= j < |p| ==> p[j] != c
    decreases |s|
  {
    var k := FindChar(s, c, 0);
    if k < |s| {
      var rest := SplitOnChar(s[k + 1..], c);
      SplitOnCharJoin(s[k + 1..], c);
      assert SplitOnChar(s, c) == [s[..k]] + rest;
      assert s == s[..k] + [c] + s[k + 1..];
    }
  }

  // ---------------------------------------------------------------------------
  // str(int) and int(str)
  // ---------------------------------------------------------------------------

  /** Python's `str(n)` for a non-negative integer. */
  function NatToString(n: nat): (r: string)
    ensures |r| >= 1
    ensures forall i :: 0 <= i < |r| ==> IsDigit(r[i])
    decreases n
  {
    if n < 10 then [DigitChar(n)] else NatToString(n / 10) + [DigitChar(n % 10)]
  }

  /** Python's `str(i)` for any integer. */
  function IntToString(i: int): string
  {
    if i < 0 then "-" + NatToString(-i) else NatToString(i)
  }

  /** The value of a string of decimal digits. */
  function DigitsValue(ds: string): nat
    requires forall i :: 0 <= i < |ds| ==> IsDigit(ds[i])
  {
    if ds == [] then 0 else DigitsValue(ds[..|ds| - 1]) * 10 + DigitValue(ds[|ds| - 1])
  }

  /**
   * The digit part Python's `int()` accepts: digits, with single underscores
   * allowed between two digits.
   */
  predicate WellFormedDigits(s: string)
  {
    && |s| >= 1 && IsDigit(s[0]) && IsDigit(s[|s| - 1])
    && (forall i :: 0 <= i < |s| ==> IsDigit(s[i]) || s[i] == '_')
    && (forall i :: 0 <= i < |s| - 1 ==> !(s[i] == '_' && s[i + 1] == '_'))
  }

  function RemoveUnderscores(s: string): (r: string)
    ensures forall c :: c in r ==> c in s && c != '_'
  {
    if s == [] then ""
    else (if s[0] == '_' then "" else [s[0]]) + RemoveUnderscores(s[1..])
  }

  lemma RemoveUnderscoresNone(s: string)
    requires forall i :: 0 <= i < |s| ==> s[i] != '_'
    ensures RemoveUnderscores(s) == s
  {
  }

  /** The sign and digits of an already stripped integer literal. */
  function ParseSigned(t: string): Option<int>
  {
    var neg := |t| > 0 && t[0] == '-';
    var body := if |t| > 0 && (t[0] == '-' || t[0] == '+') then t[1..] else t;
    if !WellFormedDigits(body) then None
    else
      var ds := RemoveUnderscores(body);
      assert forall i :: 0 <= i < |ds| ==> ds[i] in ds;
      var v: int := DigitsValue(ds);
      Some(if neg then -v else v)
  }

  /**
   * Python's `int(s)` in base 10: surrounding whitespace is ignored, an
   * optional sign, then ASCII digits; anything else is a `ValueError` (`None`).
   */
  function ParseInt(s: string): Option<int>
  {
    ParseSigned(Strip(s))
  }

  /** The value of `str(n)` is `n`. */
  lemma {:induction false} DigitsValueOfNatToString(n: nat)
    ensures DigitsValue(NatToString(n)) == n
    decreases n
  {
    var r := NatToString(n);
    if n >= 10 {
      DigitsValueOfNatToString(n / 10);
      assert r[..|r| - 1] == NatToString(n / 10);
    }
  }

  /** An unsigned run of digits parses to its value. */
  lemma ParseSignedDigits(d: string)
    requires |d| >= 1 && forall i :: 0 <= i < |d| ==> IsDigit(d[i])
    ensures ParseSigned(d) == Some(DigitsValue(d) as int)
  {
    assert d[0] != '-' && d[0] != '+';
    assert WellFormedDigits(d);
    RemoveUnderscoresNone(d);
  }

  /** `int(str(n)) == n` for every non-negative integer. */
  lemma NatRoundTrip(n: nat)
    ensures ParseInt(NatToString(n)) == Some(n)
  {
    var r := NatToString(n);
    assert !IsSpace(r[0]) && !IsSpace(r[|r| - 1]);
    StripNoEdges(r);
    ParseSignedDigits(r);
    DigitsValueOfNatToString(n);
  }

  /** A minus sign before the digits of `n` reads back as `-n`. */
  lemma ParseSignedNegative(n: nat)
    ensures ParseSigned("-" + NatToString(n)) == Some(-(n as int))
  {
    var d := NatToString(n);
    var r := "-" + d;
    assert r[1..] == d;
    ParseSignedDigits(d);
    DigitsValueOfNatToString(n);
    assert WellFormedDigits(d);
    RemoveUnderscoresNone(d);
  }

  /** `int(str(i)) == i` for every integer. */
  lemma IntRoundTrip(i: int)
    ensures ParseInt(IntToString(i)) == Some(i)
  {
    if i < 0 {
      NegativeNoEdges(NatToString(-i));
      ParseSignedNegative(-i);
    } else {
      NatRoundTrip(i);
    }
  }

  /** A minus sign before digits has no whitespace to strip. */
  lemma NegativeNoEdges(d: string)
    requires |d| >= 1 && forall i :: 0 <= i < |d| ==> IsDigit(d[i])
    ensures Strip("-" + d) == "-" + d
  {
    var r := "-" + d;
    assert r[|r| - 1] == d[|d| - 1];
    StripNoEdges(r);
  }

  /** A field without any digit is rejected by `int()`. */
  lemma ParseIntNeedsDigit(s: string)
    requires forall i :: 0 <= i < |s| ==> !IsDigit(s[i])
    ensures ParseInt(s) == None
  {
    var t := Strip(s);
    StripLeftSpec(s);
    StripRightSpec(StripLeft(s));
    assert StripLeft(s) == s[|s| - |StripLeft(s)|..];
    assert forall i :: 0 <= i < |t| ==> t[i] == StripLeft(s)[i];
    if |t| > 0 {
      var body := if t[0] == '-' || t[0] == '+' then t[1..] else t;
      if |body| > 0 {
        assert body[0] == t[if t[0] == '-' || t[0] == '+' then 1 else 0];
      }
    }
  }

  // ---------------------------------------------------------------------------
  // Other string helpers
  // ---------------------------------------------------------------------------

  /** Python's `s.replace("\\", "/")`. */
  function Slashes(s: string): (r: string)
  {
    seq(|s|, i requires 0 <= i < |s| => if s[i] == '\\' then '/' else s[i])
  }

  /** The result has no backslash, differs from the input only at backslashes, and keeps its length. */
  lemma SlashesSpec(s: string)
    ensures |Slashes(s)| == |s|
    ensures forall i :: 0 <= i < |s| ==> Slashes(s)[i] != '\\'
    ensures forall i :: 0 <= i < |s| && s[i] != '\\' ==> Slashes(s)[i] == s[i]
    ensures Slashes(Slashes(s)) == Slashes(s)
  {
  }

  predicate StartsWith(s: string, prefix: string)
  {
    |prefix| <= |s| && s[..|prefix|] == prefix
  }

  /** Python's `s.removeprefix(prefix)`. */
  function RemovePrefix(s: string, prefix: string): (r: string)
    ensures StartsWith(s, prefix) ==> prefix + r == s
    ensures !StartsWith(s, prefix) ==> r == s
  {
    if StartsWith(s, prefix) then s[|prefix|..] else s
  }

  /** Dotless i (U+0131) and long s (U+017F): the two non-ASCII letters whose upper case is an ASCII letter. */
  const DotlessI: char := '\U{0131}'
  const LongS: char := '\U{017F}'

  /** The upper case of one character, on ASCII letters, dotless i and long s. */
  function UpperChar(c: char): char
  {
    if 'a' <= c <= 'z' then (c as int - 'a' as int + 'A' as int) as char
    else if c == DotlessI then 'I'
    else if c == LongS then 'S'
    else c
  }

  /**
   * Python's `s.upper()`, as far as it can yield ASCII letters: lower-case
   * ASCII letters, dotless i and long s become upper-case ASCII letters.
   */
  function Upper(s: string): (r: string)
    ensures |r| == |s|
    ensures forall i :: 0 <= i < |s| ==> !('a' <= r[i] <= 'z') && r[i] != DotlessI && r[i] != LongS
    ensures forall i :: 0 <= i < |s| && !('a' <= s[i] <= 'z') && s[i] != DotlessI && s[i] != LongS ==> r[i] == s[i]
    ensures forall i :: 0 <= i < |s| && ('a' <= s[i] <= 'z' || s[i] == DotlessI || s[i] == LongS) ==> 'A' <= r[i] <= 'Z'
  {
    seq(|s|, i requires 0 <= i < |s| => UpperChar(s[i]))
  }

  /** Python's `sep.join(parts)`. */
  function Join(sep: string, parts: seq<string>): string
  {
    if parts == [] then ""
    else if |parts| == 1 then parts[0]
    else parts[0] + sep + Join(sep, parts[1..])
  }

  /** Concatenation of a sequence of strings. */
  function Concat(parts: seq<string>): string
  {
    if parts == [] then "" else parts[0] + Concat(parts[1..])
  }

  lemma {:induction false} ConcatAppend(parts: seq<string>, s: string)
    ensures Concat(parts + [s]) == Concat(parts) + s
  {
    if parts != [] {
      assert (parts + [s])[1..] == parts[1..] + [s];
      ConcatAppend(parts[1..], s);
    }
  }
}
