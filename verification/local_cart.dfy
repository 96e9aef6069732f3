/**
 * The cart copy the scripts keep in `localStorage` under `voentorg_cart`, and the
 * item count both `updateCartCount` functions (the product page's, and the main
 * script's fallback when the count request fails) show in the header.
 */
module LocalCart {

  /** A stored entry; the script reads only its `quantity`. */
  datatype StoredItem = StoredItem(id: string, name: string, quantity: int)

  /** `items.reduce((sum, item) => sum + item.quantity, acc)`, in the order `reduce` visits them. */
  function Reduce(acc: int, items: seq<StoredItem>): int
    decreases |items|
  {
    if items == [] then acc else Reduce(acc + items[0].quantity, items[1..])
  }

  /** The total of the quantities, summed from the last item back. */
  function SumQuantities(items: seq<StoredItem>): int {
    if items == [] then 0 else SumQuantities(items[..|items| - 1]) + items[|items| - 1].quantity
  }

  lemma {:induction false} ReduceIsSum(acc: int, items: seq<StoredItem>)
    ensures Reduce(acc, items) == acc + SumQuantities(items)
    decreases |items|
  {
    if items != [] {
      ReduceIsSum(acc + items[0].quantity, items[1..]);
      SumFront(items);
    }
  }

  /** Summing from the front agrees with summing from the back. */
  lemma {:induction false} SumFront(items: seq<StoredItem>)
    requires items != []
    ensures SumQuantities(items) == items[0].quantity + SumQuantities(items[1..])
  {
    if |items| > 1 {
      SumFront(items[..|items| - 1]);
      assert items[..|items| - 1][1..] == items[1..][..|items[1..]| - 1];
    }
  }

  /** The header count: the sum of the stored quantities, 0 for an empty cart. */
  function CartCount(items: seq<StoredItem>): (r: int)
    ensures r == SumQuantities(items)
    ensures items == [] ==> r == 0
  {
    ReduceIsSum(0, items);
    Reduce(0, items)
  }

  /** The count of two stored lists side by side is the sum of their counts. */
  lemma {:induction false} CartCountAppend(a: seq<StoredItem>, b: seq<StoredItem>)
    ensures CartCount(a + b) == CartCount(a) + CartCount(b)
    decreases |b|
  {
    if b != [] {
      CartCountAppend(a, b[..|b| - 1]);
      assert (a + b)[..|a + b| - 1] == a + b[..|b| - 1];
    } else {
      assert a + b == a;
    }
  }
}
