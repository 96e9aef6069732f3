/**
 * The product page script: the quantity selector, the wishlist button and the
 * header count.
 */
module ProductPage {

  import opened Wrappers
  import JsString
  import LocalCart

  /** `a < b` on `parseInt` results: every comparison with `NaN` is false. */
  predicate Below(a: Option<int>, b: Option<int>) { a.Some? && b.Some? && a.value < b.value }

  /** The field after a click on minus: one less, but only from a value above 1. */
  function AfterMinus(value: string): (r: string)
    ensures var v := JsString.ParseInt(value);
            if v.Some? && v.value > 1 then JsString.ParseInt(r) == Some(v.value - 1) else r == value
    ensures r == value || JsString.ParseInt(r).value >= 1
  {
    var v := JsString.ParseInt(value);
    if v.Some? && v.value > 1 then
      JsString.ParseIntOfIntToString(v.value - 1);
      JsString.IntToString(v.value - 1)
    else value
  }

  /** The field after a click on plus: one more, but only from a value below `max`. */
  function AfterPlus(value: string, max: string): (r: string)
    ensures var v, m := JsString.ParseInt(value), JsString.ParseInt(max);
            if Below(v, m) then JsString.ParseInt(r) == Some(v.value + 1) else r == value
    ensures r == value || JsString.ParseInt(r).value <= JsString.ParseInt(max).value
  {
    var v, m := JsString.ParseInt(value), JsString.ParseInt(max);
    if Below(v, m) then
      JsString.ParseIntOfIntToString(v.value + 1);
      JsString.IntToString(v.value + 1)
    else value
  }

  /**
   * The field after a `change` event: `NaN` or a value below `min` becomes `min`,
   * one above `max` becomes `max`, anything else stays exactly as typed.
   */
  function AfterChange(value: string, min: string, max: string): (r: string)
    ensures var v, lo, hi := JsString.ParseInt(value), JsString.ParseInt(min), JsString.ParseInt(max);
            if v.None? || Below(v, lo) then JsString.ParseInt(r) == lo
            else if Below(hi, v) then JsString.ParseInt(r) == hi
            else r == value
    ensures var lo, hi := JsString.ParseInt(min), JsString.ParseInt(max);
            lo.Some? && hi.Some? && lo.value <= hi.value ==>
              JsString.ParseInt(r).Some? && lo.value <= JsString.ParseInt(r).value <= hi.value
  {
    var v, lo, hi := JsString.ParseInt(value), JsString.ParseInt(min), JsString.ParseInt(max);
    if v.None? || Below(v, lo) then
      JsString.ParseIntOfNumberToString(lo);
      JsString.NumberToString(lo)
    else if Below(hi, v) then
      JsString.ParseIntOfNumberToString(hi);
      JsString.NumberToString(hi)
    else value
  }

  /** The quantity `<input>` with its `min` and `max` attributes, and its four handlers. */
  class QuantityInput {
    var value: string
    const min: string
    const max: string

    constructor (value: string, min: string, max: string)
      ensures this.value == value && this.min == min && this.max == max
    {
      this.value, this.min, this.max := value, min, max;
    }

    method OnMinusClick()
      modifies this
      ensures value == AfterMinus(old(value))
    {
      var v := JsString.ParseInt(value);
      if v.Some? && v.value > 1 {
        value := JsString.IntToString(v.value - 1);
      }
    }

    method OnPlusClick()
      modifies this
      ensures value == AfterPlus(old(value), max)
    {
      var v := JsString.ParseInt(value);
      var m := JsString.ParseInt(max);
      if Below(v, m) {
        value := JsString.IntToString(v.value + 1);
      }
    }

    method OnChange()
      modifies this
      ensures value == AfterChange(old(value), min, max)
    {
      var v := JsString.ParseInt(value);
      var lo := JsString.ParseInt(min);
      var hi := JsString.ParseInt(max);
      if v.None? || Below(v, lo) {
        value := JsString.NumberToString(lo);
      } else if Below(hi, v) {
        value := JsString.NumberToString(hi);
      }
    }

    /** Every character that is not a digit is removed as it is typed. */
    method OnInput()
      modifies this
      ensures value == JsString.KeepDigits(old(value))
      ensures JsString.KeepDigits(value) == value
    {
      value := JsString.KeepDigits(value);
      JsString.KeepDigitsIdempotent(old(value));
    }
  }

  /** Clicks keep a quantity that starts between 1 and `max` between 1 and `max`. */
  lemma ClicksStayInRange(value: string, max: string)
    requires JsString.ParseInt(value).Some? && JsString.ParseInt(max).Some?
    requires 1 <= JsString.ParseInt(value).value <= JsString.ParseInt(max).value
    ensures var m := JsString.ParseInt(max).value;
            1 <= JsString.ParseInt(AfterMinus(value)).value <= m
            && 1 <= JsString.ParseInt(AfterPlus(value, max)).value <= m
  {
  }

  /** An entry of the `voentorg_wishlist` list in `localStorage`. */
  datatype WishEntry = WishEntry(id: string, name: string, addedAt: string)

  predicate Listed(entries: seq<WishEntry>, id: string) {
    exists i :: 0 <= i < |entries| && entries[i].id == id
  }

  /** `wishlist.filter(item => item.id != productId)` */
  function Without(entries: seq<WishEntry>, id: string): (r: seq<WishEntry>)
    ensures !Listed(r, id)
    ensures forall e :: e in r ==> e in entries
    ensures forall e :: e in entries && e.id != id ==> e in r
    ensures !Listed(entries, id) ==> r == entries
    ensures |r| <= |entries|
  {
    if entries == [] then []
    else
      var rest := Without(entries[1..], id);
      if entries[0].id == id then
        assert Listed(entries, id) by { assert entries[0].id == id; }
        rest
      else
        var r := [entries[0]] + rest;
        assert !Listed(r, id) by {
          assert forall i :: 1 <= i < |r| ==> r[i] == rest[i - 1];
        }
        assert !Listed(entries, id) ==> !Listed(entries[1..], id) by {
          assert forall i :: 0 <= i < |entries| - 1 ==> entries[1..][i] == entries[i + 1];
        }
        assert entries == [entries[0]] + entries[1..];
        r
  }

  /**
   * `filter` keeps the order of the surviving entries: filtering a concatenation is the
   * concatenation of the filtered parts.
   */
  lemma {:induction false} WithoutAppend(a: seq<WishEntry>, b: seq<WishEntry>, id: string)
    ensures Without(a + b, id) == Without(a, id) + Without(b, id)
  {
    if a == [] {
      assert a + b == b;
    } else {
      assert (a + b)[1..] == a[1..] + b;
      WithoutAppend(a[1..], b, id);
    }
  }

  /** Each entry with another id survives as often as it occurred; none with `id` survives. */
  lemma {:induction false} WithoutCounts(entries: seq<WishEntry>, id: string, e: WishEntry)
    ensures multiset(Without(entries, id))[e] == if e.id == id then 0 else multiset(entries)[e]
  {
    if entries != [] {
      var head, tail := entries[0], entries[1..];
      WithoutCounts(tail, id, e);
      assert entries == [head] + tail;
      assert multiset(entries) == multiset{head} + multiset(tail);
      if head.id == id {
        assert Without(entries, id) == Without(tail, id);
      } else {
        assert Without(entries, id) == [head] + Without(tail, id);
        assert multiset(Without(entries, id)) == multiset{head} + multiset(Without(tail, id));
      }
    }
  }

  /** The stored name: the page heading's text, or "Товар #<id>" when it is missing or empty. */
  function DisplayName(heading: Option<string>, productId: string): (r: string)
    ensures r != ""
    ensures heading.Some? && heading.value != "" ==> r == heading.value
    ensures heading.None? || heading.value == "" ==>
              |r| > |productId| && r[|r| - |productId|..] == productId
  {
    if heading.Some? && heading.value != "" then heading.value else "Товар #" + productId
  }

  /**
   * The list after a click on the wishlist button: one new entry at the end when the
   * product was absent, every entry with its id removed when it was present.
   */
  function Toggled(entries: seq<WishEntry>, productId: string, name: string, now: string): (r: seq<WishEntry>)
    ensures Listed(r, productId) <==> !Listed(entries, productId)
    ensures !Listed(entries, productId) ==> r == entries + [WishEntry(productId, name, now)]
    ensures Listed(entries, productId) ==> |r| < |entries|
  {
    if !Listed(entries, productId) then
      var r := entries + [WishEntry(productId, name, now)];
      assert r[|entries|].id == productId;
      r
    else
      var r := Without(entries, productId);
      WithoutShrinks(entries, productId);
      r
  }

  lemma {:induction false} WithoutShrinks(entries: seq<WishEntry>, id: string)
    requires Listed(entries, id)
    ensures |Without(entries, id)| < |entries|
  {
    if entries[0].id != id {
      WithoutShrinks(entries[1..], id);
    }
  }

  /** The parsed `voentorg_wishlist` value in `localStorage`. */
  class WishlistStore {
    var entries: seq<WishEntry>

    constructor ()
      ensures entries == []
    {
      entries := [];
    }
  }

  /**
   * The wishlist button's click handler. `inWishlist` is the state the button is
   * switched to; `now` is the timestamp the script takes from the clock.
   */
  method ToggleWishlist(store: WishlistStore, productId: string, heading: Option<string>, now: string)
    returns (inWishlist: bool)
    modifies store
    ensures inWishlist <==> !Listed(old(store.entries), productId)
    ensures store.entries == Toggled(old(store.entries), productId, DisplayName(heading, productId), now)
  {
    var name := DisplayName(heading, productId);
    var wishlist := store.entries;
    if !Listed(wishlist, productId) {
      wishlist := wishlist + [WishEntry(productId, name, now)];
      store.entries := wishlist;
      inWishlist := true;
    } else {
      wishlist := Without(wishlist, productId);
      store.entries := wishlist;
      inWishlist := false;
    }
  }

  /** `updateCartCount()`: the header shows the sum of the stored quantities. */
  function UpdateCartCount(stored: seq<LocalCart.StoredItem>): (shown: int)
    ensures shown == LocalCart.SumQuantities(stored)
  {
    LocalCart.CartCount(stored)
  }
}
