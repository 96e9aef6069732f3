/** The shop's user record: its name helpers and the server-side rule for logins. */
module Users {

  import Patterns

  /** The fields of `CustomUser` the core reads; blank text fields are `""`. */
  datatype User = User(username: string, email: string, firstName: string, lastName: string, phone: string)

  /** `get_full_name()`: "last first" when both names are filled in, otherwise the login. */
  function FullName(u: User): (r: string)
    ensures u.firstName != "" && u.lastName != "" ==>
              |r| == |u.lastName| + 1 + |u.firstName| && r[..|u.lastName|] == u.lastName &&
              r[|u.lastName|] == ' ' && r[|u.lastName| + 1..] == u.firstName
    ensures u.firstName == "" || u.lastName == "" ==> r == u.username
  {
    if u.firstName != "" && u.lastName != "" then u.lastName + " " + u.firstName else u.username
  }

  /** `get_short_name()`: the first name when filled in, otherwise the login. */
  function ShortName(u: User): (r: string)
    ensures u.firstName != "" ==> r == u.firstName
    ensures u.firstName == "" ==> r == u.username
  {
    if u.firstName != "" then u.firstName else u.username
  }

  /**
   * The two names agree: with both names filled in the short name ends the full name,
   * and without a first name both fall back to the login.
   */
  lemma ShortNameEndsFullName(u: User)
    ensures u.firstName != "" && u.lastName != "" ==>
              FullName(u)[|FullName(u)| - |ShortName(u)|..] == ShortName(u)
    ensures u.firstName == "" ==> FullName(u) == ShortName(u) == u.username
  {
  }

  /** A user with a valid login always has a displayable name. */
  lemma NamesNeverEmpty(u: User)
    requires ServerUsernameValid(u.username)
    ensures FullName(u) != "" && ShortName(u) != ""
  {
  }

  /**
   * The model-level checks on `username`: at most 30 characters, and a match of
   * `^[a-zA-Z0-9_]{3,30}$` by Python's regex search, where `$` also matches just
   * before a final line feed.
   */
  predicate ServerUsernameValid(s: string) {
    |s| <= 30 &&
    (Patterns.UsernameMatches(s) ||
     (|s| > 0 && s[|s| - 1] == '\n' && Patterns.UsernameMatches(s[..|s| - 1])))
  }

  /** Every login the registration page accepts is accepted by the server. */
  lemma ClientLoginAcceptedByServer(s: string)
    requires Patterns.UsernameMatches(s)
    ensures ServerUsernameValid(s)
  {
  }

  /**
   * The server's rule is looser than the page's by one case only: a valid login
   * followed by a single line feed.
   */
  lemma ServerLoginShape(s: string)
    requires ServerUsernameValid(s) && !Patterns.UsernameMatches(s)
    ensures |s| >= 4 && s[|s| - 1] == '\n' && Patterns.UsernameMatches(s[..|s| - 1])
  {
  }

  /** "abc" followed by a line feed passes the server's checks but not the page's. */
  lemma TrailingLineFeedAccepted()
    ensures ServerUsernameValid("abc\n")
    ensures !Patterns.UsernameMatches("abc\n")
  {
    assert "abc\n"[..3] == "abc";
    assert !Patterns.IsWordChar("abc\n"[3]);
  }
}
