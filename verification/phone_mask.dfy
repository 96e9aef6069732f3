/**
 * The `+7 (XXX) XXX-XX-XX` phone mask that the checkout and registration
 * pages apply to the phone field on every keystroke.
 */
module PhoneMask {

  import Text
  import JsString

  function Min(a: int, b: int): int { if a < b then a else b }

  /**
   * The mask built from the digits of the field: `+7 ` replaces the first digit,
   * then digits 2-4, 5-7, 8-9 and 10-11 follow `(`, `) `, `-` and `-`, each
   * separator written only once the digits reach it; digits past the 11th are dropped.
   */
  function Masked(d: string): string {
    "+7 "
    + Piece(|d| > 1, "(", JsString.Substring(d, 1, 4))
    + Piece(|d| >= 4, ") ", JsString.Substring(d, 4, 7))
    + Piece(|d| >= 7, "-", JsString.Substring(d, 7, 9))
    + Piece(|d| >= 9, "-", JsString.Substring(d, 9, 11))
  }

  /** One `formatted += sep + group` step, taken only when its condition holds. */
  function Piece(taken: bool, sep: string, group: string): string {
    if taken then sep + group else ""
  }

  /** The field's value after the input handler: untouched when it holds no digit, the mask otherwise. */
  function Formatted(value: string): string {
    var d := JsString.KeepDigits(value);
    if d == "" then value else Masked(d)
  }

  /** The mask is at most 18 characters long, whatever was typed. */
  lemma MaskedLength(d: string)
    ensures |Masked(d)| <= 18
    ensures |d| >= 11 ==> |Masked(d)| == 18
  {
  }

  /** A string without digits filters to nothing. */
  lemma {:induction false} KeepDigitsOfNonDigits(s: string)
    requires forall i :: 0 <= i < |s| ==> !Text.IsDigit(s[i])
    ensures JsString.KeepDigits(s) == ""
  {
    if s != [] {
      KeepDigitsOfNonDigits(s[1..]);
    }
  }

  /** The separators and the leading `+` are not digits. */
  lemma DigitsOfPiece(sep: string, g: string)
    requires forall i :: 0 <= i < |sep| ==> !Text.IsDigit(sep[i])
    requires Text.AllDigits(g)
    ensures JsString.KeepDigits(sep + g) == g
  {
    JsString.KeepDigitsAppend(sep, g);
    JsString.KeepDigitsOfDigits(g);
    KeepDigitsOfNonDigits(sep);
  }

  /** The clamped slice a group takes from the digits. */
  function Group(d: string, from: nat, to: nat): string
    requires from <= to
  {
    d[Min(from, |d|)..Min(to, |d|)]
  }

  /** The digits a step contributes: its group when taken, nothing otherwise. */
  lemma PieceDigits(d: string, taken: bool, sep: string, from: nat, to: nat)
    requires Text.AllDigits(d) && from <= to
    requires forall i :: 0 <= i < |sep| ==> !Text.IsDigit(sep[i])
    requires taken ==> |d| >= from
    requires !taken ==> |d| <= from
    ensures JsString.KeepDigits(Piece(taken, sep, JsString.Substring(d, from, to))) == Group(d, from, to)
  {
    if taken {
      DigitsOfPiece(sep, Group(d, from, to));
    }
  }

  /**
   * The digits of the mask are `7` followed by the 2nd to 11th typed digits:
   * the first digit is replaced, the rest kept in order, the surplus dropped.
   */
  lemma {:induction false} MaskedDigits(d: string)
    requires Text.AllDigits(d) && |d| >= 1
    ensures JsString.KeepDigits(Masked(d)) == "7" + d[1..Min(|d|, 11)]
  {
    var n := |d|;
    var p1 := Piece(n > 1, "(", JsString.Substring(d, 1, 4));
    var p2 := Piece(n >= 4, ") ", JsString.Substring(d, 4, 7));
    var p3 := Piece(n >= 7, "-", JsString.Substring(d, 7, 9));
    var p4 := Piece(n >= 9, "-", JsString.Substring(d, 9, 11));
    PieceDigits(d, n > 1, "(", 1, 4);
    PieceDigits(d, n >= 4, ") ", 4, 7);
    PieceDigits(d, n >= 7, "-", 7, 9);
    PieceDigits(d, n >= 9, "-", 9, 11);
    PrefixDigits();
    KeepDigitsOfFive("+7 ", p1, p2, p3, p4);
    GroupsCover(d);
  }

  lemma PrefixDigits()
    ensures JsString.KeepDigits("+7 ") == "7"
  {
    DigitsOfPiece("+", "7");
    KeepDigitsOfNonDigits(" ");
    JsString.KeepDigitsAppend("+7", " ");
  }

  lemma KeepDigitsOfFive(a: string, b: string, c: string, d: string, e: string)
    ensures JsString.KeepDigits(a + b + c + d + e)
         == JsString.KeepDigits(a) + JsString.KeepDigits(b) + JsString.KeepDigits(c)
          + JsString.KeepDigits(d) + JsString.KeepDigits(e)
  {
    JsString.KeepDigitsAppend(a, b);
    JsString.KeepDigitsAppend(a + b, c);
    JsString.KeepDigitsAppend(a + b + c, d);
    JsString.KeepDigitsAppend(a + b + c + d, e);
  }

  lemma GroupsCover(d: string)
    requires |d| >= 1
    ensures "7" + Group(d, 1, 4) + Group(d, 4, 7) + Group(d, 7, 9) + Group(d, 9, 11) == "7" + d[1..Min(|d|, 11)]
  {
    var n := |d|;
    assert Group(d, 1, 4) + Group(d, 4, 7) == d[1..Min(7, n)];
    assert Group(d, 1, 4) + Group(d, 4, 7) + Group(d, 7, 9) == d[1..Min(9, n)];
    assert Group(d, 1, 4) + Group(d, 4, 7) + Group(d, 7, 9) + Group(d, 9, 11) == d[1..Min(11, n)];
  }

  /** Two digit strings that agree on positions 1..10 and on every threshold give the same mask. */
  lemma MaskedAgrees(d: string, e: string)
    requires |e| == Min(|d|, 11)
    requires forall k :: 1 <= k < |e| ==> e[k] == d[k]
    ensures Masked(e) == Masked(d)
  {
    assert JsString.Substring(e, 1, 4) == JsString.Substring(d, 1, 4);
    assert JsString.Substring(e, 4, 7) == JsString.Substring(d, 4, 7);
    assert JsString.Substring(e, 7, 9) == JsString.Substring(d, 7, 9);
    assert JsString.Substring(e, 9, 11) == JsString.Substring(d, 9, 11);
  }

  /**
   * Re-running the handler on a formatted value changes nothing, so the mask is
   * stable while the user keeps typing into the already formatted field.
   */
  lemma FormattedIdempotent(value: string)
    ensures Formatted(Formatted(value)) == Formatted(value)
  {
    var d := JsString.KeepDigits(value);
    if d != "" {
      MaskedDigits(d);
      var e := "7" + d[1..Min(|d|, 11)];
      assert JsString.KeepDigits(Masked(d)) == e;
      MaskedAgrees(d, e);
    }
  }

  /** The formatted field has at least ten digits exactly when the typed text had. */
  lemma FormattedKeepsTenDigits(value: string)
    requires JsString.KeepDigits(value) != ""
    ensures |JsString.KeepDigits(Formatted(value))| >= 10 <==> |JsString.KeepDigits(value)| >= 10
  {
    MaskedDigits(JsString.KeepDigits(value));
  }
}
