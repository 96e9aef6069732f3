/** The main script's cookie reader, `getCsrfToken()`. */
module MainScript {

  import opened Wrappers
  import JsString

  /** `cookie.substring(0, 10) === 'csrftoken='` */
  predicate IsCsrfEntry(entry: string) {
    JsString.Substring(entry, 0, 10) == "csrftoken="
  }

  /** The entry must start with exactly that name: anything shorter or any other prefix fails. */
  lemma CsrfEntryShape(entry: string)
    ensures IsCsrfEntry(entry) <==> |entry| >= 10 && entry[..10] == "csrftoken="
  {
  }

  lemma NoLooseMatch()
    ensures !IsCsrfEntry("xcsrftoken=abc")
    ensures IsCsrfEntry("csrftoken=abc")
  {
    assert "xcsrftoken=abc"[..10][0] == 'x';
    CsrfEntryShape("xcsrftoken=abc");
    CsrfEntryShape("csrftoken=abc");
  }

  /** Entry `i` is the first one, after trimming, named `csrftoken`. */
  predicate FirstCsrfEntry(entries: seq<string>, i: nat)
    requires i < |entries|
  {
    IsCsrfEntry(JsString.Trim(entries[i])) &&
    forall j :: 0 <= j < i ==> !IsCsrfEntry(JsString.Trim(entries[j]))
  }

  /** The token carried by the first `csrftoken` entry of `entries`, if any. */
  function TokenIn(entries: seq<string>, decode: string -> string): (r: Option<string>)
  {
    if entries == [] then None
    else
      var entry := JsString.Trim(entries[0]);
      if IsCsrfEntry(entry) then Some(decode(JsString.Substring(entry, 10, |entry|)))
      else TokenIn(entries[1..], decode)
  }

  /** No token exactly when no trimmed entry is named `csrftoken`. */
  lemma {:induction false} TokenInNone(entries: seq<string>, decode: string -> string)
    ensures TokenIn(entries, decode).None? <==>
      forall i :: 0 <= i < |entries| ==> !IsCsrfEntry(JsString.Trim(entries[i]))
  {
    if entries != [] && !IsCsrfEntry(JsString.Trim(entries[0])) {
      TokenInNone(entries[1..], decode);
      forall i | 1 <= i < |entries|
        ensures JsString.Trim(entries[i]) == JsString.Trim(entries[1..][i - 1])
      {
        assert entries[i] == entries[1..][i - 1];
      }
    }
  }

  /** When entry `i` is the first one named `csrftoken`, the token is its value, decoded. */
  lemma {:induction false} TokenInIsFirst(entries: seq<string>, decode: string -> string, i: nat)
    requires i < |entries| && FirstCsrfEntry(entries, i)
    ensures TokenIn(entries, decode) == Some(decode(JsString.Trim(entries[i])[10..]))
  {
    if i == 0 {
      FirstEntryToken(JsString.Trim(entries[0]), decode);
    } else {
      FirstAfterSkip(entries, i - 1);
      assert TokenIn(entries, decode) == TokenIn(entries[1..], decode);
      TokenInIsFirst(entries[1..], decode, i - 1);
    }
  }

  /** The token of an entry named `csrftoken` is the rest of it after the name. */
  lemma FirstEntryToken(entry: string, decode: string -> string)
    requires IsCsrfEntry(entry)
    ensures |entry| >= 10 && decode(JsString.Substring(entry, 10, |entry|)) == decode(entry[10..])
  {
    CsrfEntryShape(entry);
    assert JsString.Substring(entry, 10, |entry|) == entry[10..];
  }

  /** Dropping an entry not named `csrftoken` moves the first match down by one. */
  lemma FirstAfterSkip(entries: seq<string>, k: nat)
    requires k + 1 < |entries| && FirstCsrfEntry(entries, k + 1)
    ensures !IsCsrfEntry(JsString.Trim(entries[0]))
    ensures FirstCsrfEntry(entries[1..], k)
    ensures entries[k + 1] == entries[1..][k]
  {
    forall j | 0 <= j < k
      ensures !IsCsrfEntry(JsString.Trim(entries[1..][j]))
    {
      assert entries[1..][j] == entries[j + 1];
    }
  }

  /**
   * `getCsrfToken()` over `document.cookie`: `None` (null) for an empty cookie string;
   * otherwise the entries between `;` are trimmed and the first one named `csrftoken`
   * gives the token, its value passed through `decode` (`decodeURIComponent`).
   */
  method GetCsrfToken(cookie: string, decode: string -> string) returns (token: Option<string>)
    ensures token == if cookie == "" then None else TokenIn(JsString.Split(cookie, ';'), decode)
  {
    token := None;
    if cookie != "" {
      var cookies := JsString.Split(cookie, ';');
      for i := 0 to |cookies|
        invariant TokenIn(cookies, decode) == TokenIn(cookies[i..], decode)
      {
        var entry := JsString.Trim(cookies[i]);
        if JsString.Substring(entry, 0, 10) == "csrftoken=" {
          token := Some(decode(JsString.Substring(entry, 10, |entry|)));
          return;
        }
        assert cookies[i..][1..] == cookies[i + 1..];
      }
      assert cookies[|cookies|..] == [];
    }
  }
}
