/**
 * The two regular expressions shared by the registration and checkout scripts:
 * the e-mail pattern `^[^\s@]+@[^\s@]+\.[^\s@]+$` and the login pattern
 * `^[a-zA-Z0-9_]{3,30}$` (the same text the server's login validator uses).
 */
module Patterns {

  import opened Wrappers
  import JsString

  /** `[^\s@]` */
  predicate IsEmailChar(c: char) { !JsString.IsWhiteSpace(c) && c != '@' }

  predicate AllEmailChars(s: string) { forall i :: 0 <= i < |s| ==> IsEmailChar(s[i]) }

  /**
   * What the e-mail regular expression matches: a non-empty local part, one `@`,
   * then a domain with a `.` that is neither its first nor its last character,
   * every part free of white space and of `@`.
   */
  ghost predicate EmailMatches(s: string) {
    exists at, dot :: 0 < at && at + 1 < dot < |s| - 1 && s[at] == '@' && s[dot] == '.'
      && AllEmailChars(s[..at]) && AllEmailChars(s[at + 1..dot]) && AllEmailChars(s[dot + 1..])
  }

  /** Position of the first occurrence of `c`. */
  function IndexOf(s: string, c: char): (r: Option<nat>)
    ensures r.Some? ==> r.value < |s| && s[r.value] == c && c !in s[..r.value]
    ensures r.None? ==> c !in s
  {
    if s == [] then None
    else if s[0] == c then Some(0)
    else
      var r := IndexOf(s[1..], c);
      if r.None? then None
      else
        assert s[..r.value + 1] == [s[0]] + s[1..][..r.value];
        Some(r.value + 1)
  }

  /** The domain after the first `@`: three or more characters, a `.` inside. */
  predicate DomainOk(d: string) {
    |d| >= 3 && AllEmailChars(d) && '.' in d[1..|d| - 1]
  }

  /** The scan: the first `@` has a non-empty local part before it and a valid domain after it. */
  predicate ScanOk(s: string) {
    var at := IndexOf(s, '@');
    at.Some? && at.value > 0 && AllEmailChars(s[..at.value]) && DomainOk(s[at.value + 1..])
  }

  /** `re.test(s)` for the e-mail pattern, as a direct scan. */
  function EmailTest(s: string): (r: bool)
    ensures r <==> EmailMatches(s)
  {
    if ScanOk(s) then
      EmailTestSound(s);
      true
    else
      EmailTestComplete(s);
      false
  }

  lemma EmailTestSound(s: string)
    requires ScanOk(s)
    ensures EmailMatches(s)
  {
    var k := IndexOf(s, '@').value;
    var d := s[k + 1..];
    var p :| 0 <= p < |d| - 2 && d[1..|d| - 1][p] == '.';
    var dot := k + 2 + p;
    assert s[dot] == '.';
    assert s[k + 1..dot] == d[..p + 1];
    assert s[dot + 1..] == d[p + 2..];
    assert AllEmailChars(s[k + 1..dot]);
    assert AllEmailChars(s[dot + 1..]);
  }

  lemma EmailTestComplete(s: string)
    ensures EmailMatches(s) ==> ScanOk(s)
  {
    if EmailMatches(s) {
      var at, dot :| 0 < at && at + 1 < dot < |s| - 1 && s[at] == '@' && s[dot] == '.'
        && AllEmailChars(s[..at]) && AllEmailChars(s[at + 1..dot]) && AllEmailChars(s[dot + 1..]);
      ScanFindsMatch(s, at, dot);
    }
  }

  /** A split of `s` the pattern accepts is one the scan accepts too. */
  lemma ScanFindsMatch(s: string, at: nat, dot: nat)
    requires 0 < at && at + 1 < dot < |s| - 1 && s[at] == '@' && s[dot] == '.'
    requires AllEmailChars(s[..at]) && AllEmailChars(s[at + 1..dot]) && AllEmailChars(s[dot + 1..])
    ensures ScanOk(s)
  {
    FirstAt(s, at);
    DomainChars(s, at, dot);
    DomainDot(s, at, dot);
  }

  /** The dot lies strictly inside the domain. */
  lemma DomainDot(s: string, at: nat, dot: nat)
    requires at + 1 < dot < |s| - 1 && s[dot] == '.'
    ensures var d := s[at + 1..]; |d| >= 3 && '.' in d[1..|d| - 1]
  {
    var d := s[at + 1..];
    assert d[1..|d| - 1][dot - at - 2] == '.';
  }

  /** An `@` with no `@` before it is the one `IndexOf` finds. */
  lemma FirstAt(s: string, at: nat)
    requires at < |s| && s[at] == '@' && AllEmailChars(s[..at])
    ensures IndexOf(s, '@') == Some(at)
  {
    assert s[at] in s;
  }

  /** The domain part, dot included, is free of white space and `@`. */
  lemma DomainChars(s: string, at: nat, dot: nat)
    requires at + 1 < dot < |s| && s[dot] == '.'
    requires AllEmailChars(s[at + 1..dot]) && AllEmailChars(s[dot + 1..])
    ensures AllEmailChars(s[at + 1..])
  {
    var d := s[at + 1..];
    forall i | 0 <= i < |d| ensures IsEmailChar(d[i]) {
      if i < dot - at - 1 {
        assert d[i] == s[at + 1..dot][i];
      } else if i > dot - at - 1 {
        assert d[i] == s[dot + 1..][i - (dot - at)];
      }
    }
  }

  /** An address the pattern accepts is never blank: its first character is not white space. */
  lemma EmailNotBlank(s: string)
    requires EmailMatches(s)
    ensures !JsString.IsBlank(s)
  {
    var at, dot :| 0 < at && at + 1 < dot < |s| - 1 && AllEmailChars(s[..at]);
    assert s[..at][0] == s[0];
    JsString.BlankIffAllWhiteSpace(s);
  }

  /** `[a-zA-Z0-9_]` */
  predicate IsWordChar(c: char) {
    'a' <= c <= 'z' || 'A' <= c <= 'Z' || '0' <= c <= '9' || c == '_'
  }

  /** `^[a-zA-Z0-9_]{3,30}$` matched by JavaScript's `test`: the whole string, 3 to 30 word characters. */
  predicate UsernameMatches(s: string) {
    3 <= |s| <= 30 && forall i :: 0 <= i < |s| ==> IsWordChar(s[i])
  }
}
