/** The registration page script: live field checks, the submit-time check and the phone mask. */
module Auth {

  import opened Wrappers
  import JsString
  import Patterns
  import PhoneMask
  import Dom

  /** `validateUsername(username)`: 3 to 30 characters, each a letter, digit or underscore. */
  function ValidateUsername(username: string): (r: bool)
    ensures r ==> 3 <= |username| <= 30
    ensures r <==> Patterns.UsernameMatches(username)
  {
    Patterns.UsernameMatches(username)
  }

  /** `validateEmail(email)`: the same expression as the checkout page's `isValidEmail`. */
  function ValidateEmail(email: string): (r: bool)
    ensures r <==> Patterns.EmailMatches(email)
  {
    Patterns.EmailTest(email)
  }

  /** `formatPhoneNumber(input)`: a copy of the checkout page's mask. */
  method FormatPhoneNumber(input: Dom.TextInput)
    modifies input
    ensures input.value == PhoneMask.Formatted(old(input.value))
  {
    var value := JsString.KeepDigits(input.value);
    if |value| == 0 {
      return;
    }
    var formatted := "+7 ";
    if |value| > 1 {
      formatted := formatted + "(" + JsString.Substring(value, 1, 4);
    }
    ghost var mask := "+7 " + PhoneMask.Piece(|value| > 1, "(", JsString.Substring(value, 1, 4));
    assert formatted == mask;
    if |value| >= 4 {
      formatted := formatted + ") " + JsString.Substring(value, 4, 7);
    }
    mask := mask + PhoneMask.Piece(|value| >= 4, ") ", JsString.Substring(value, 4, 7));
    assert formatted == mask;
    if |value| >= 7 {
      formatted := formatted + "-" + JsString.Substring(value, 7, 9);
    }
    mask := mask + PhoneMask.Piece(|value| >= 7, "-", JsString.Substring(value, 7, 9));
    assert formatted == mask;
    if |value| >= 9 {
      formatted := formatted + "-" + JsString.Substring(value, 9, 11);
    }
    mask := mask + PhoneMask.Piece(|value| >= 9, "-", JsString.Substring(value, 9, 11));
    assert formatted == mask;
    input.value := formatted;
  }

  /** The fields the submit-time check marks as wrong, and whether it raised the terms notice. */
  datatype RegistrationReport = RegistrationReport(
    username: bool, email: bool, password1: bool, password2: bool, termsNotice: bool)

  /**
   * `validateRegistrationForm()`. The terms checkbox may be missing from the page
   * (`None`); a password's length is counted in UTF-16 code units, as `value.length` does.
   */
  method ValidateRegistrationForm(username: string, email: string, password1: string, password2: string,
                                  agreeTerms: Option<bool>)
    returns (isValid: bool, report: RegistrationReport)
    ensures report == RegistrationReport(
      !ValidateUsername(username), !ValidateEmail(email), JsString.Utf16Length(password1) < 8,
      password1 != password2, agreeTerms != Some(true))
    ensures isValid <==> ValidateUsername(username) && ValidateEmail(email)
                         && JsString.Utf16Length(password1) >= 8 && password1 == password2
                         && agreeTerms == Some(true)
  {
    isValid := true;
    var badUsername, badEmail, badPassword1, badPassword2 := false, false, false, false;
    if !ValidateUsername(username) {
      badUsername, isValid := true, false;
    }
    if !ValidateEmail(email) {
      badEmail, isValid := true, false;
    }
    if JsString.Utf16Length(password1) < 8 {
      badPassword1, isValid := true, false;
    }
    if password1 != password2 {
      badPassword2, isValid := true, false;
    }
    var noTerms := agreeTerms.None? || !agreeTerms.value;
    if noTerms {
      isValid := false;
    }
    report := RegistrationReport(badUsername, badEmail, badPassword1, badPassword2, noTerms);
  }

  /** The error marks `validatePasswords` leaves on the two password fields. */
  datatype PasswordMarks = PasswordMarks(password1: bool, password2: bool)

  /**
   * `validatePasswords()`, run while typing: nothing happens when either field is
   * missing; an empty field is never marked, a short one is, and a mismatch is
   * marked only once something was typed in the confirmation field.
   */
  function ValidatePasswords(password1: Option<string>, password2: Option<string>): (r: Option<PasswordMarks>)
    ensures r.None? <==> password1.None? || password2.None?
    ensures r.Some? ==> (r.value.password1 <==> password1.value != "" && JsString.Utf16Length(password1.value) < 8)
    ensures r.Some? ==> (r.value.password2 <==> password2.value != "" && password1.value != password2.value)
  {
    if password1.None? || password2.None? then None
    else
      var p1, p2 := password1.value, password2.value;
      Some(PasswordMarks(0 < JsString.Utf16Length(p1) < 8, JsString.Utf16Length(p2) > 0 && p1 != p2))
  }

  /** A form that passes the submit-time check carries no live password marks. */
  lemma AcceptedFormHasNoPasswordMarks(username: string, email: string, password1: string, password2: string)
    requires ValidateUsername(username) && ValidateEmail(email)
    requires JsString.Utf16Length(password1) >= 8 && password1 == password2
    ensures ValidatePasswords(Some(password1), Some(password2)) == Some(PasswordMarks(false, false))
  {
  }

  /** An empty first password is not marked while typing, yet the submit-time check rejects it. */
  lemma EmptyPasswordOnlyRejectedAtSubmit(password2: string)
    ensures ValidatePasswords(Some(""), Some(password2)).value.password1 == false
    ensures JsString.Utf16Length("") < 8
  {
  }
}
