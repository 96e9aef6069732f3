/**
 * The parts of JavaScript's string built-ins that the client scripts rely on:
 * the `\s` character class and `trim`, `replace(/\D/g, '')`, `substring`,
 * `split`, UTF-16 `length`, `parseInt` and number-to-string conversion.
 */
module JsString {

  import opened Wrappers
  import Text

  /** The `\s` class of a regular expression, which is also the set `trim` removes. */
  predicate IsWhiteSpace(c: char) {
    c == '\t' || c == '\n' || c == '\U{000B}' || c == '\U{000C}' || c == '\r' || c == ' '
    || c == '\U{00A0}' || c == '\U{1680}' || ('\U{2000}' <= c <= '\U{200A}')
    || c == '\U{2028}' || c == '\U{2029}' || c == '\U{202F}' || c == '\U{205F}'
    || c == '\U{3000}' || c == '\U{FEFF}'
  }

  predicate AllWhiteSpace(s: string) { forall i :: 0 <= i < |s| ==> IsWhiteSpace(s[i]) }

  /** `s.replace(/\D/g, '')`, equally `s.replace(/[^\d]/g, '')`: keeps the ASCII digits, in order. */
  function KeepDigits(s: string): (r: string)
    ensures Text.AllDigits(r)
    ensures |r| <= |s|
  {
    if s == [] then ""
    else if Text.IsDigit(s[0]) then [s[0]] + KeepDigits(s[1..])
    else KeepDigits(s[1..])
  }

  /** Filtering distributes over concatenation. */
  lemma {:induction false} KeepDigitsAppend(a: string, b: string)
    ensures KeepDigits(a + b) == KeepDigits(a) + KeepDigits(b)
  {
    if a == [] {
      assert a + b == b;
    } else {
      assert (a + b)[1..] == a[1..] + b;
      KeepDigitsAppend(a[1..], b);
    }
  }

  /** A string made of digits only is left as it is. */
  lemma {:induction false} KeepDigitsOfDigits(s: string)
    requires Text.AllDigits(s)
    ensures KeepDigits(s) == s
  {
    if s != [] {
      KeepDigitsOfDigits(s[1..]);
    }
  }

  /** Filtering twice is filtering once. */
  lemma KeepDigitsIdempotent(s: string)
    ensures KeepDigits(KeepDigits(s)) == KeepDigits(s)
  {
    KeepDigitsOfDigits(KeepDigits(s));
  }

  /** `s.substring(from, to)`: both ends clamped to [0, |s|], swapped when out of order. */
  function Substring(s: string, from: int, to: int): (r: string)
    ensures from <= to ==> |r| == Clamp(to, |s|) - Clamp(from, |s|)
    ensures 0 <= from <= to <= |s| ==> r == s[from..to]
  {
    var a := Clamp(from, |s|);
    var b := Clamp(to, |s|);
    if a <= b then s[a..b] else s[b..a]
  }

  function Clamp(i: int, n: nat): (r: nat)
    ensures r <= n
  {
    if i < 0 then 0 else if i > n then n else i
  }

  lemma AllWhiteSpaceConcat(a: string, b: string)
    requires AllWhiteSpace(a) && AllWhiteSpace(b)
    ensures AllWhiteSpace(a + b)
  {
    assert forall i :: |a| <= i < |a + b| ==> (a + b)[i] == b[i - |a|];
  }

  /** Leading white space removed. */
  function TrimStart(s: string): string {
    if s != [] && IsWhiteSpace(s[0]) then TrimStart(s[1..]) else s
  }

  /** `TrimStart` drops a white-space prefix and stops at the first other character. */
  lemma {:induction false} TrimStartShape(s: string)
    ensures var r := TrimStart(s);
      |r| <= |s| && r == s[|s| - |r|..] && AllWhiteSpace(s[..|s| - |r|]) &&
      (r == [] || !IsWhiteSpace(r[0]))
  {
    if s != [] && IsWhiteSpace(s[0]) {
      var t := s[1..];
      var r := TrimStart(t);
      assert TrimStart(s) == r;
      TrimStartShape(t);
      var n := |s| - |r|;
      assert r == s[n..] by { assert t[n - 1..] == s[n..]; }
      assert AllWhiteSpace(s[1..n]) by { assert t[..n - 1] == s[1..n]; }
      AllWhiteSpaceConcat([s[0]], s[1..n]);
      assert s[..n] == [s[0]] + s[1..n];
    }
  }

  /** Trailing white space removed. */
  function TrimEnd(s: string): string {
    if s != [] && IsWhiteSpace(s[|s| - 1]) then TrimEnd(s[..|s| - 1]) else s
  }

  /** `TrimEnd` drops a white-space suffix and stops at the last other character. */
  lemma {:induction false} TrimEndShape(s: string)
    ensures var r := TrimEnd(s);
      |r| <= |s| && r == s[..|r|] && AllWhiteSpace(s[|r|..]) &&
      (r == [] || !IsWhiteSpace(r[|r| - 1]))
  {
    if s != [] && IsWhiteSpace(s[|s| - 1]) {
      var t := s[..|s| - 1];
      var r := TrimEnd(t);
      assert TrimEnd(s) == r;
      TrimEndShape(t);
      assert r == s[..|r|] by { assert t[..|r|] == s[..|r|]; }
      assert AllWhiteSpace(s[|r|..|s| - 1]) by { assert t[|r|..] == s[|r|..|s| - 1]; }
      AllWhiteSpaceConcat(s[|r|..|s| - 1], [s[|s| - 1]]);
      assert s[|r|..] == s[|r|..|s| - 1] + [s[|s| - 1]];
    }
  }

  /** `s.trim()`. */
  function Trim(s: string): string { TrimEnd(TrimStart(s)) }

  /** `!s.trim()`: the string is empty once trimmed. */
  predicate IsBlank(s: string) { Trim(s) == "" }

  /** A string is blank exactly when every character in it is white space. */
  lemma BlankIffAllWhiteSpace(s: string)
    ensures IsBlank(s) <==> AllWhiteSpace(s)
  {
    var t := TrimStart(s);
    TrimStartShape(s);
    TrimEndShape(t);
    if IsBlank(s) {
      assert s == s[..|s| - |t|] + t;
      assert AllWhiteSpace(t[|TrimEnd(t)|..]);
    }
  }

  /** A string holding a digit is not blank. */
  lemma DigitMeansNotBlank(s: string, i: int)
    requires 0 <= i < |s| && Text.IsDigit(s[i])
    ensures !IsBlank(s)
  {
    BlankIffAllWhiteSpace(s);
  }

  /** A string from which at least one digit survives filtering is not blank. */
  lemma {:induction false} DigitsMeanNotBlank(s: string)
    requires KeepDigits(s) != ""
    ensures !IsBlank(s)
  {
    BlankIffAllWhiteSpace(s);
    if !Text.IsDigit(s[0]) {
      DigitsMeanNotBlank(s[1..]);
      BlankIffAllWhiteSpace(s[1..]);
    }
  }

  /** `s.length`: the number of UTF-16 code units, two for a character outside the BMP. */
  function Utf16Length(s: string): (n: nat)
    ensures |s| <= n <= 2 * |s|
  {
    if s == [] then 0 else (if s[0] as int > 0xFFFF then 2 else 1) + Utf16Length(s[1..])
  }

  /** `s.split(sep)` for a one-character separator. */
  function Split(s: string, sep: char): (parts: seq<string>)
    ensures |parts| >= 1
    ensures forall i :: 0 <= i < |parts| ==> sep !in parts[i]
  {
    if s == [] then [""]
    else
      var rest := Split(s[1..], sep);
      if s[0] == sep then [""] + rest else [[s[0]] + rest[0]] + rest[1..]
  }

  /** Splitting and joining with the same separator gives back the string. */
  lemma {:induction false} JoinSplit(s: string, sep: char)
    ensures Text.Join(Split(s, sep), [sep]) == s
  {
    if s != [] {
      var rest := Split(s[1..], sep);
      JoinSplit(s[1..], sep);
      if s[0] == sep {
        assert Split(s, sep) == [""] + rest;
        assert ([""] + rest)[1..] == rest;
      } else {
        var parts := [[s[0]] + rest[0]] + rest[1..];
        assert Split(s, sep) == parts;
        if |rest| == 1 {
          assert Text.Join(parts, [sep]) == [s[0]] + rest[0];
        } else {
          assert parts[1..] == rest[1..];
          assert Text.Join(rest, [sep]) == rest[0] + [sep] + Text.Join(rest[1..], [sep]);
        }
      }
    }
  }

  /** The longest prefix of `s` made of digits of the radix. */
  function DigitRun(s: string, radix: nat): (r: string)
    requires radix == 10 || radix == 16
    ensures Text.AllRadixDigits(r, radix)
    ensures |r| <= |s| && r == s[..|r|]
    ensures |r| < |s| ==> Text.RadixDigit(s[|r|], radix).None?
  {
    if s != [] && Text.RadixDigit(s[0], radix).Some? then
      var r := [s[0]] + DigitRun(s[1..], radix);
      r
    else ""
  }

  /**
   * `parseInt(s)` with no radix: leading white space skipped, an optional sign,
   * then the magnitude; `None` stands for `NaN`.
   */
  function ParseInt(s: string): Option<int> {
    var t := TrimStart(s);
    var negative := |t| > 0 && t[0] == '-';
    var magnitude := ParseMagnitude(if |t| > 0 && (t[0] == '-' || t[0] == '+') then t[1..] else t);
    if magnitude.None? then None
    else Some(if negative then -(magnitude.value as int) else magnitude.value as int)
  }

  /**
   * The unsigned part of `parseInt`: a `0x`/`0X` prefix selects radix 16, then the
   * longest run of digits is read; an empty run gives `NaN`.
   */
  function ParseMagnitude(u: string): Option<nat> {
    var hex := |u| >= 2 && u[0] == '0' && (u[1] == 'x' || u[1] == 'X');
    var radix := if hex then 16 else 10;
    var z := DigitRun(if hex then u[2..] else u, radix);
    if z == [] then None else Some(Text.ValueIn(z, radix))
  }

  /** `String(n)` for an integer-valued number: an optional `-`, then the decimal numeral. */
  function IntToString(n: int): string {
    if n < 0 then "-" + Text.NatToString(-n) else Text.NatToString(n)
  }

  /** `String(x)` for the result of `parseInt`: `NaN` prints as "NaN". */
  function NumberToString(x: Option<int>): string {
    if x.None? then "NaN" else IntToString(x.value)
  }

  /** A string of decimal digits is one run of digits. */
  lemma {:induction false} DigitRunOfDigits(s: string)
    requires Text.AllDigits(s)
    ensures DigitRun(s, 10) == s
  {
    if s != [] {
      DigitRunOfDigits(s[1..]);
    }
  }

  /** A numeral without leading zeros reads back as its value. */
  lemma ParseMagnitudeOfNumeral(m: nat)
    ensures ParseMagnitude(Text.NatToString(m)) == Some(m)
  {
    var digits := Text.NatToString(m);
    Text.ValueOfNatToString(m);
    DigitRunOfDigits(digits);
    assert !(|digits| >= 2 && digits[0] == '0');
  }

  /** `parseInt(String(n)) === n`: what the quantity handlers write reads back as the same number. */
  lemma ParseIntOfIntToString(n: int)
    ensures ParseInt(IntToString(n)) == Some(n)
  {
    if n < 0 {
      ParseIntOfNegative(-n);
    } else {
      ParseIntOfNumeral(n);
    }
  }

  lemma ParseIntOfNumeral(m: nat)
    ensures ParseInt(Text.NatToString(m)) == Some(m)
  {
    var s := Text.NatToString(m);
    assert Text.IsDigit(s[0]);
    assert TrimStart(s) == s;
    ParseMagnitudeOfNumeral(m);
  }

  lemma ParseIntOfNegative(m: nat)
    ensures ParseInt("-" + Text.NatToString(m)) == Some(-(m as int))
  {
    var s := "-" + Text.NatToString(m);
    assert TrimStart(s) == s;
    assert s[1..] == Text.NatToString(m);
    ParseMagnitudeOfNumeral(m);
  }

  /** Leading white space is dropped whatever follows it. */
  lemma {:induction false} TrimStartOfWhiteSpacePrefix(w: string, s: string)
    requires AllWhiteSpace(w)
    ensures TrimStart(w + s) == TrimStart(s)
  {
    if w == [] {
      assert w + s == s;
    } else {
      assert (w + s)[0] == w[0];
      assert (w + s)[1..] == w[1..] + s;
      TrimStartOfWhiteSpacePrefix(w[1..], s);
    }
  }

  /** `parseInt` ignores leading white space: `"  12"` reads as `"12"`. */
  lemma ParseIntSkipsWhiteSpace(w: string, s: string)
    requires AllWhiteSpace(w)
    ensures ParseInt(w + s) == ParseInt(s)
  {
    TrimStartOfWhiteSpacePrefix(w, s);
  }

  /** An empty or blank field reads as `NaN`. */
  lemma ParseIntOfBlank(s: string)
    requires AllWhiteSpace(s)
    ensures ParseInt(s) == None
  {
    assert s + "" == s;
    TrimStartOfWhiteSpacePrefix(s, "");
  }

  /** Writing a `parseInt` result into a field and reading it back gives the same result, `NaN` included. */
  lemma ParseIntOfNumberToString(x: Option<int>)
    ensures ParseInt(NumberToString(x)) == x
  {
    if x.Some? {
      ParseIntOfIntToString(x.value);
    } else {
      ParseIntOfNaN();
    }
  }

  lemma ParseIntOfNaN()
    ensures ParseInt("NaN") == None
  {
    var s := "NaN";
    assert s[0] == 'N' && !IsWhiteSpace(s[0]);
    assert TrimStart(s) == s;
    assert Text.RadixDigit(s[0], 10).None?;
    assert DigitRun(s, 10) == "";
    assert ParseMagnitude(s) == None;
  }
}
