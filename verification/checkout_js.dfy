/** The checkout page script: the phone mask and the submit-time form check. */
module Checkout {

  import JsString
  import Patterns
  import PhoneMask
  import Dom

  /**
   * `formatPhoneNumber(input)`: the digits of the field are rebuilt into the mask
   * step by step; a field without digits is left as it is.
   */
  method FormatPhoneNumber(input: Dom.TextInput)
    modifies input
    ensures input.value == PhoneMask.Formatted(old(input.value))
  {
    var value := JsString.KeepDigits(input.value);
    if |value| == 0 {
      return;
    }
    var formatted := "+7 ";
    if |value| > 1 {
      formatted := formatted + "(" + JsString.Substring(value, 1, 4);
    }
    ghost var mask := "+7 " + PhoneMask.Piece(|value| > 1, "(", JsString.Substring(value, 1, 4));
    assert formatted == mask;
    if |value| >= 4 {
      formatted := formatted + ") " + JsString.Substring(value, 4, 7);
    }
    mask := mask + PhoneMask.Piece(|value| >= 4, ") ", JsString.Substring(value, 4, 7));
    assert formatted == mask;
    if |value| >= 7 {
      formatted := formatted + "-" + JsString.Substring(value, 7, 9);
    }
    mask := mask + PhoneMask.Piece(|value| >= 7, "-", JsString.Substring(value, 7, 9));
    assert formatted == mask;
    if |value| >= 9 {
      formatted := formatted + "-" + JsString.Substring(value, 9, 11);
    }
    mask := mask + PhoneMask.Piece(|value| >= 9, "-", JsString.Substring(value, 9, 11));
    assert formatted == mask;
    input.value := formatted;
  }

  /** `isValidEmail(email)`: the e-mail regular expression, tested on the raw (untrimmed) value. */
  function IsValidEmail(email: string): (r: bool)
    ensures r <==> Patterns.EmailMatches(email)
    ensures r ==> !JsString.IsBlank(email)
  {
    if Patterns.EmailTest(email) then Patterns.EmailNotBlank(email); true else false
  }

  /** `isValidPhone(phone)`: at least ten digits once every non-digit is dropped. */
  function IsValidPhone(phone: string): (r: bool)
    ensures r <==> |JsString.KeepDigits(phone)| >= 10
    ensures r ==> !JsString.IsBlank(phone)
  {
    if |JsString.KeepDigits(phone)| >= 10 then JsString.DigitsMeanNotBlank(phone); true else false
  }

  /** A formatted phone field passes the phone check exactly when at least ten digits were typed. */
  lemma FormattedPhoneValid(value: string)
    requires JsString.KeepDigits(value) != ""
    ensures IsValidPhone(PhoneMask.Formatted(value)) <==> |JsString.KeepDigits(value)| >= 10
  {
    PhoneMask.FormattedKeepsTenDigits(value);
  }

  /** What the form check shows next to a field. */
  datatype FieldCheck = Cleared | Missing | Malformed

  /** The error marks left on the page by one run of the check. */
  datatype CheckoutReport = CheckoutReport(email: FieldCheck, phone: FieldCheck, address: FieldCheck, termsNotice: bool)

  /**
   * `validateCheckoutForm()`: every field is checked, none short-circuits the others,
   * and `isValid` is cleared by each failing check.
   */
  method ValidateCheckoutForm(email: string, phone: string, address: string, agreeTerms: bool)
    returns (isValid: bool, report: CheckoutReport)
    ensures report.email == if JsString.IsBlank(email) then Missing else if !IsValidEmail(email) then Malformed else Cleared
    ensures report.phone == if JsString.IsBlank(phone) then Missing else if !IsValidPhone(phone) then Malformed else Cleared
    ensures report.address == if JsString.IsBlank(address) then Missing else Cleared
    ensures report.termsNotice == !agreeTerms
    ensures isValid <==> report.email == Cleared && report.phone == Cleared && report.address == Cleared && !report.termsNotice
    ensures isValid <==> IsValidEmail(email) && IsValidPhone(phone) && !JsString.IsBlank(address) && agreeTerms
  {
    isValid := true;
    var emailCheck, phoneCheck, addressCheck := Cleared, Cleared, Cleared;
    if JsString.IsBlank(email) {
      emailCheck, isValid := Missing, false;
    } else if !IsValidEmail(email) {
      emailCheck, isValid := Malformed, false;
    }
    if JsString.IsBlank(phone) {
      phoneCheck, isValid := Missing, false;
    } else if !IsValidPhone(phone) {
      phoneCheck, isValid := Malformed, false;
    }
    if JsString.IsBlank(address) {
      addressCheck, isValid := Missing, false;
    }
    if !agreeTerms {
      isValid := false;
    }
    report := CheckoutReport(emailCheck, phoneCheck, addressCheck, !agreeTerms);
  }
}
