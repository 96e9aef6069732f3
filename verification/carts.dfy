/**
 * A user's cart: one line per product with a positive quantity, the operations that
 * change it, and checkout (`create_order`), which turns it into an order and takes
 * the ordered quantities off the stock. Amounts are whole kopecks.
 */
module Carts {

  import opened Wrappers
  import Users
  import Catalog
  import Orders

  /** A cart line (`CartItem`). */
  datatype CartItem = CartItem(product: Catalog.Product, quantity: int)

  /**
   * `CartItem.total_price`: the product's current price times the quantity; it is
   * never negative and a line of at least one unit costs at least one unit's price.
   */
  function LineTotal(item: CartItem): (r: int)
    ensures item.quantity >= 0 ==> r >= 0
    ensures item.quantity >= 1 ==> r >= item.product.price
  {
    item.product.price * item.quantity
  }

  /** `total_items` over a list of lines. */
  function SumQuantities(items: seq<CartItem>): int {
    if items == [] then 0 else SumQuantities(items[..|items| - 1]) + items[|items| - 1].quantity
  }

  /** `total_price` over a list of lines. */
  function SumPrices(items: seq<CartItem>): int {
    if items == [] then 0 else SumPrices(items[..|items| - 1]) + LineTotal(items[|items| - 1])
  }

  /** One line per product: the `unique_together = ['cart', 'product']` rule. */
  predicate DistinctProducts(items: seq<CartItem>) {
    forall i, j :: 0 <= i < j < |items| ==> items[i].product != items[j].product
  }

  /** Every line holds at least one unit. */
  predicate PositiveQuantities(items: seq<CartItem>) {
    forall i :: 0 <= i < |items| ==> items[i].quantity >= 1
  }

  predicate ValidItems(items: seq<CartItem>) {
    DistinctProducts(items) && PositiveQuantities(items)
  }

  /** The line of product `p`, or -1. */
  function IndexOf(items: seq<CartItem>, p: Catalog.Product): (r: int)
    ensures -1 <= r < |items|
    ensures r >= 0 ==> items[r].product == p
    ensures r < 0 ==> forall i :: 0 <= i < |items| ==> items[i].product != p
  {
    if items == [] then -1
    else if items[|items| - 1].product == p then |items| - 1
    else IndexOf(items[..|items| - 1], p)
  }

  /** The quantity of `p` in the cart, 0 when it has no line. */
  function QuantityOf(items: seq<CartItem>, p: Catalog.Product): int {
    var k := IndexOf(items, p);
    if k < 0 then 0 else items[k].quantity
  }

  /** With one line per product, a product's quantity is the one on its line. */
  lemma QuantityAt(items: seq<CartItem>, i: int)
    requires DistinctProducts(items) && 0 <= i < |items|
    ensures IndexOf(items, items[i].product) == i
    ensures QuantityOf(items, items[i].product) == items[i].quantity
  {
  }

  /**
   * Two carts whose lines agree away from product `p` give every other product the
   * same quantity.
   */
  lemma QuantitiesAgree(a: seq<CartItem>, b: seq<CartItem>, p: Catalog.Product, other: Catalog.Product)
    requires DistinctProducts(a) && DistinctProducts(b) && other != p
    requires forall x :: x in a && x.product != p ==> x in b
    requires forall x :: x in b && x.product != p ==> x in a
    ensures QuantityOf(a, other) == QuantityOf(b, other)
  {
    var i := IndexOf(a, other);
    var j := IndexOf(b, other);
    if i >= 0 {
      var k :| 0 <= k < |b| && b[k] == a[i];
      QuantityAt(a, i);
      QuantityAt(b, k);
    }
  }

  /** `add_product` on the lines: a product already held grows, a new one comes first. */
  function Added(items: seq<CartItem>, p: Catalog.Product, q: int): seq<CartItem> {
    var k := IndexOf(items, p);
    if k < 0 then [CartItem(p, q)] + items else items[k := CartItem(p, items[k].quantity + q)]
  }

  /** `remove_product` on the lines: the line of `p`, if any, is deleted. */
  function Removed(items: seq<CartItem>, p: Catalog.Product): seq<CartItem> {
    var k := IndexOf(items, p);
    if k < 0 then items else items[..k] + items[k + 1..]
  }

  /** `update_quantity` with a positive quantity on the lines: `p` ends with exactly `q`. */
  function WithQuantity(items: seq<CartItem>, p: Catalog.Product, q: int): seq<CartItem> {
    var k := IndexOf(items, p);
    if k < 0 then [CartItem(p, q)] + items else items[k := CartItem(p, q)]
  }

  /** Adding `q > 0` units keeps the cart well formed, adds exactly `q` to `p` and nothing elsewhere. */
  lemma AddedSpec(items: seq<CartItem>, p: Catalog.Product, q: int)
    requires ValidItems(items) && q > 0
    ensures ValidItems(Added(items, p, q))
    ensures QuantityOf(Added(items, p, q), p) == QuantityOf(items, p) + q
    ensures forall other :: other != p ==> QuantityOf(Added(items, p, q), other) == QuantityOf(items, other)
  {
    var r := Added(items, p, q);
    var k := IndexOf(items, p);
    if k < 0 {
      assert forall i :: 1 <= i < |r| ==> r[i] == items[i - 1];
      QuantityAt(r, 0);
    } else {
      assert forall i :: 0 <= i < |r| && i != k ==> r[i] == items[i];
      QuantityAt(r, k);
    }
    forall other | other != p
      ensures QuantityOf(r, other) == QuantityOf(items, other)
    {
      QuantitiesAgree(r, items, p, other);
    }
  }

  /** Removing keeps the cart well formed, leaves `p` with no line and touches nothing else. */
  lemma RemovedSpec(items: seq<CartItem>, p: Catalog.Product)
    requires ValidItems(items)
    ensures ValidItems(Removed(items, p))
    ensures forall i :: 0 <= i < |Removed(items, p)| ==> Removed(items, p)[i].product != p
    ensures IndexOf(items, p) >= 0 ==> |Removed(items, p)| == |items| - 1
    ensures IndexOf(items, p) < 0 ==> Removed(items, p) == items
    ensures forall other :: other != p ==> QuantityOf(Removed(items, p), other) == QuantityOf(items, other)
  {
    var r := Removed(items, p);
    var k := IndexOf(items, p);
    if k >= 0 {
      assert forall i :: 0 <= i < |r| ==> r[i] == items[if i < k then i else i + 1];
      forall x | x in items && x.product != p
        ensures x in r
      {
        var i :| 0 <= i < |items| && items[i] == x;
        assert r[if i < k then i else i - 1] == x;
      }
    }
    forall other | other != p
      ensures QuantityOf(r, other) == QuantityOf(items, other)
    {
      QuantitiesAgree(r, items, p, other);
    }
  }

  /** Setting `q > 0` keeps the cart well formed, gives `p` exactly `q` and touches nothing else. */
  lemma WithQuantitySpec(items: seq<CartItem>, p: Catalog.Product, q: int)
    requires ValidItems(items) && q > 0
    ensures ValidItems(WithQuantity(items, p, q))
    ensures QuantityOf(WithQuantity(items, p, q), p) == q
    ensures forall other :: other != p ==> QuantityOf(WithQuantity(items, p, q), other) == QuantityOf(items, other)
  {
    var r := WithQuantity(items, p, q);
    var k := IndexOf(items, p);
    if k < 0 {
      assert forall i :: 1 <= i < |r| ==> r[i] == items[i - 1];
      QuantityAt(r, 0);
    } else {
      assert forall i :: 0 <= i < |r| && i != k ==> r[i] == items[i];
      QuantityAt(r, k);
    }
    forall other | other != p
      ensures QuantityOf(r, other) == QuantityOf(items, other)
    {
      QuantitiesAgree(r, items, p, other);
    }
  }

  /** For an absent product, setting a quantity is the same as adding it. */
  lemma WithQuantityOfAbsentIsAdded(items: seq<CartItem>, p: Catalog.Product, q: int)
    requires IndexOf(items, p) < 0
    ensures WithQuantity(items, p, q) == Added(items, p, q)
  {
  }

  /** In a well-formed cart the unit count is zero exactly when there are no lines. */
  lemma {:induction false} NoUnitsMeansEmpty(items: seq<CartItem>)
    requires PositiveQuantities(items)
    ensures SumQuantities(items) >= |items|
    ensures SumQuantities(items) == 0 <==> items == []
  {
    if items != [] {
      NoUnitsMeansEmpty(items[..|items| - 1]);
    }
  }

  /** In a well-formed cart the total price is never negative. */
  lemma {:induction false} TotalPriceNonNegative(items: seq<CartItem>)
    requires PositiveQuantities(items)
    ensures SumPrices(items) >= 0
  {
    if items != [] {
      TotalPriceNonNegative(items[..|items| - 1]);
    }
  }

  /** The order line `create_order` writes for a cart line: price snapshot and subtotal. */
  function OrderLine(item: CartItem): Orders.OrderItem {
    Orders.OrderItem(item.product, item.quantity, item.product.price,
                     Orders.SavedSubtotal(Some(LineTotal(item)), item.product.price, item.quantity))
  }

  function OrderLines(items: seq<CartItem>): (r: seq<Orders.OrderItem>)
    ensures |r| == |items|
    ensures forall i :: 0 <= i < |items| ==> r[i] == OrderLine(items[i])
  {
    if items == [] then [] else OrderLines(items[..|items| - 1]) + [OrderLine(items[|items| - 1])]
  }

  /** An order's subtotals add up to the cart total it was created with. */
  lemma {:induction false} SubtotalsMatchTotal(items: seq<CartItem>)
    ensures Orders.SumSubtotals(OrderLines(items)) == SumPrices(items)
  {
    if items != [] {
      SubtotalsMatchTotal(items[..|items| - 1]);
      var lines := OrderLines(items);
      assert lines[..|lines| - 1] == OrderLines(items[..|items| - 1]);
      Orders.SnapshotSubtotalKept(items[|items| - 1].product.price, items[|items| - 1].quantity);
    }
  }

  /** The products a list of lines refers to. */
  function Products(items: seq<CartItem>): set<Catalog.Product> {
    set i | 0 <= i < |items| :: items[i].product
  }

  /** The product is available and has at least the line's quantity in stock. */
  predicate Orderable(item: CartItem)
    reads item.product
  {
    item.product.isAvailable && item.product.stock >= item.quantity
  }

  /** Line `i` is the first line that cannot be ordered. */
  predicate FirstUnorderable(items: seq<CartItem>, i: int)
    reads Products(items)
  {
    0 <= i < |items| && !Orderable(items[i]) &&
    forall j :: 0 <= j < i ==> Orderable(items[j])
  }

  /** A line of an orderable cart holds a product that is in stock. */
  lemma OrderableLineInStock(item: CartItem)
    requires Orderable(item) && item.quantity >= 1
    ensures item.product.InStock()
  {
  }

  /**
   * A product's slug after the save inside `decrease_stock`: a set slug is kept, and
   * an empty slug of a product stored in the table is replaced by a non-empty one.
   */
  predicate SlugSettled(before: string, after: string, stored: bool) {
    (before != "" ==> after == before) && (before == "" && stored ==> after != "")
  }

  /**
   * What checkout did to the product of `item`, given its stock and slug before and
   * after: the quantity was taken off, leaving a stock of at least zero, and the slug
   * settled as `SlugSettled` says.
   */
  predicate LineTaken(item: CartItem, stockBefore: int, slugBefore: string,
                      stockAfter: int, slugAfter: string, stored: bool) {
    stockAfter == stockBefore - item.quantity >= 0 && SlugSettled(slugBefore, slugAfter, stored)
  }

  /**
   * The second loop of `create_order`: one order line per cart line, each followed by
   * `decrease_stock`. The lines passed the check, so no stock decrease is refused.
   * `table` is the product table the saves look slugs up in.
   */
  method Fulfil(order: Orders.Order, lines: seq<CartItem>, table: set<Catalog.Product>,
                slugify: string -> string)
    requires ValidItems(lines)
    requires forall i :: 0 <= i < |lines| ==> Orderable(lines[i])
    modifies order, Products(lines)
    ensures order.items == old(order.items) + OrderLines(lines)
    ensures order.status == old(order.status) && order.contactPhone == old(order.contactPhone)
    ensures forall i :: 0 <= i < |lines| ==>
              LineTaken(lines[i], old(lines[i].product.stock), old(lines[i].product.slug),
                        lines[i].product.stock, lines[i].product.slug, lines[i].product in table)
  {
    for i := 0 to |lines|
      invariant order.items == old(order.items) + OrderLines(lines[..i])
      invariant order.status == old(order.status) && order.contactPhone == old(order.contactPhone)
      invariant forall j :: 0 <= j < |lines| ==>
                  if j < i then
                    LineTaken(lines[j], old(lines[j].product.stock), old(lines[j].product.slug),
                              lines[j].product.stock, lines[j].product.slug, lines[j].product in table)
                  else
                    lines[j].product.stock == old(lines[j].product.stock) &&
                    lines[j].product.slug == old(lines[j].product.slug)
    {
      var item := lines[i];
      assert item.product in Products(lines);
      FulfilLine(order, item, table, slugify);
      assert OrderLines(lines[..i + 1]) == OrderLines(lines[..i]) + [OrderLine(item)] by {
        assert lines[..i + 1][..i] == lines[..i];
      }
    }
    assert lines[..|lines|] == lines;
  }

  /**
   * One pass of the loop: the order line is written, the quantity taken off the stock
   * and the product saved against the slugs stored in `table`.
   */
  method FulfilLine(order: Orders.Order, item: CartItem, table: set<Catalog.Product>,
                    slugify: string -> string)
    requires Orderable(item) && item.quantity > 0
    modifies order, item.product
    ensures order.items == old(order.items) + [OrderLine(item)]
    ensures order.status == old(order.status) && order.contactPhone == old(order.contactPhone)
    ensures Catalog.SlugAfterSave(old(item.product.slug), item.product.slug,
                                  old(Catalog.StoredSlugs(table)), slugify(item.product.name))
    ensures LineTaken(item, old(item.product.stock), old(item.product.slug),
                      item.product.stock, item.product.slug, item.product in table)
  {
    order.AddItem(item.product, item.quantity, item.product.price, Some(LineTotal(item)));
    var slugs := Catalog.StoredSlugs(table);
    assert item.product in table ==> item.product.slug in slugs;
    var taken := item.product.DecreaseStock(item.quantity, slugs, slugify);
    assert taken.Pass?;
  }

  /** Why checkout was refused. */
  datatype CheckoutError = EmptyCart | Unavailable(productName: string)

  /** What `update_quantity` returns: the removal result, or the line now stored. */
  datatype UpdateOutcome = Removal(existed: bool) | Line(item: CartItem)

  /** Why `add_product` was refused. */
  datatype CartError = NonPositiveQuantity

  /** The cart of one user. */
  class Cart {
    const user: Users.User
    var items: seq<CartItem>

    /** The empty cart created for each new user. */
    constructor (user: Users.User)
      ensures this.user == user && items == []
    {
      this.user := user;
      items := [];
    }

    predicate Valid()
      reads this
    {
      ValidItems(items)
    }

    /** `total_items`: zero exactly for an empty cart, and at least one unit per line. */
    function TotalItems(): (r: int)
      reads this
      requires Valid()
      ensures r >= |items|
      ensures r == 0 <==> items == []
    {
      NoUnitsMeansEmpty(items);
      SumQuantities(items)
    }

    /** `total_price`: the line totals summed, never negative. */
    function TotalPrice(): (r: int)
      reads this
      requires Valid()
      ensures r >= 0
    {
      TotalPriceNonNegative(items);
      SumPrices(items)
    }

    /**
     * `add_product(product, quantity)`: refuses a non-positive quantity; otherwise adds
     * it to the product's line, creating the line when missing, with no stock check.
     */
    method AddProduct(product: Catalog.Product, quantity: int) returns (result: Result<CartItem, CartError>)
      requires Valid()
      modifies this
      ensures Valid()
      ensures quantity <= 0 ==> result == Failure(NonPositiveQuantity) && items == old(items)
      ensures quantity > 0 ==> items == Added(old(items), product, quantity)
      ensures quantity > 0 ==> result == Success(CartItem(product, QuantityOf(items, product)))
    {
      if quantity <= 0 {
        return Failure(NonPositiveQuantity);
      }
      AddedSpec(items, product, quantity);
      var k := IndexOf(items, product);
      if k < 0 {
        items := [CartItem(product, quantity)] + items;
        QuantityAt(items, 0);
        result := Success(items[0]);
      } else {
        items := items[k := CartItem(product, items[k].quantity + quantity)];
        QuantityAt(items, k);
        result := Success(items[k]);
      }
    }

    /** `remove_product(product)`: deletes the product's line; says whether there was one. */
    method RemoveProduct(product: Catalog.Product) returns (removed: bool)
      requires Valid()
      modifies this
      ensures Valid()
      ensures removed <==> IndexOf(old(items), product) >= 0
      ensures items == Removed(old(items), product)
      ensures !removed ==> items == old(items)
    {
      RemovedSpec(items, product);
      var k := IndexOf(items, product);
      if k < 0 {
        return false;
      }
      items := items[..k] + items[k + 1..];
      removed := true;
    }

    /**
     * `update_quantity(product, quantity)`: a non-positive quantity removes the line;
     * otherwise the line is set to exactly `quantity`, or created through `add_product`.
     */
    method UpdateQuantity(product: Catalog.Product, quantity: int) returns (outcome: UpdateOutcome)
      requires Valid()
      modifies this
      ensures Valid()
      ensures quantity <= 0 ==>
                outcome == Removal(IndexOf(old(items), product) >= 0) && items == Removed(old(items), product)
      ensures quantity > 0 ==>
                outcome == Line(CartItem(product, quantity)) && items == WithQuantity(old(items), product, quantity)
    {
      if quantity <= 0 {
        var removed := RemoveProduct(product);
        return Removal(removed);
      }
      WithQuantitySpec(items, product, quantity);
      var k := IndexOf(items, product);
      if k >= 0 {
        items := items[k := CartItem(product, quantity)];
        return Line(CartItem(product, quantity));
      }
      var added := AddProduct(product, quantity);
      QuantityAt(items, 0);
      outcome := Line(added.value);
    }

    /** `clear()`: every line is deleted. */
    method Clear()
      modifies this
      ensures items == []
    {
      items := [];
    }

    /** The check loop of `create_order`: the first line that cannot be ordered, or -1. */
    method FindUnorderable() returns (bad: int)
      ensures bad == -1 <==> forall i :: 0 <= i < |items| ==> Orderable(items[i])
      ensures bad != -1 ==> FirstUnorderable(items, bad)
    {
      for i := 0 to |items|
        invariant forall j :: 0 <= j < i ==> Orderable(items[j])
      {
        if !Orderable(items[i]) {
          return i;
        }
      }
      bad := -1;
    }

    /**
     * `create_order(shipping_address, contact_phone, notes)`. First it refuses an empty
     * cart, then the first line whose product is unavailable or short of stock; a
     * refusal changes nothing. Otherwise it creates an order with the default status
     * and the cart total, writes one order line per cart line with the price of the
     * moment, takes each line's quantity off its product's stock and empties the cart.
     * Each stock change saves its product, which re-runs the slug rule against the
     * slugs stored in `table`, the product table.
     */
    method CreateOrder(shippingAddress: string, contactPhone: string, notes: string,
                       statuses: Orders.StatusTable, table: set<Catalog.Product>,
                       slugify: string -> string)
      returns (result: Result<Orders.Order, CheckoutError>)
      requires Valid() && statuses.Valid()
      modifies this, statuses, Products(items)
      ensures Valid() && statuses.Valid()
      ensures result == Failure(EmptyCart) <==> old(items) == []
      ensures result.Failure? <==>
                old(items) == [] || exists i :: 0 <= i < |old(items)| && !old(Orderable(items[i]))
      ensures result.Failure? ==>
                items == old(items) && statuses.statuses == old(statuses.statuses) &&
                forall i :: 0 <= i < |items| ==>
                  items[i].product.stock == old(items[i].product.stock) &&
                  items[i].product.slug == old(items[i].product.slug)
      ensures result.Failure? && result.error.Unavailable? ==>
                exists i :: FirstUnorderable(items, i) && result.error.productName == items[i].product.name
      ensures result.Success? ==>
                var order := result.value;
                fresh(order) && order.user == user &&
                order.status.code == "new" &&
                order.status == (if Orders.FindByCode(old(statuses.statuses), "new").Some?
                                 then Orders.FindByCode(old(statuses.statuses), "new").value
                                 else Orders.DefaultStatus) &&
                order.totalAmount == SumPrices(old(items)) &&
                order.items == OrderLines(old(items)) &&
                Orders.SumSubtotals(order.items) == order.totalAmount &&
                order.shippingAddress == shippingAddress && order.notes == notes &&
                order.contactPhone == Orders.ContactPhoneOnSave(contactPhone, user.phone)
      ensures result.Success? ==>
                items == [] &&
                forall i :: 0 <= i < |old(items)| ==>
                  LineTaken(old(items)[i], old(items[i].product.stock), old(items[i].product.slug),
                            old(items)[i].product.stock, old(items)[i].product.slug, old(items)[i].product in table)
      ensures result.Success? ==>
                statuses.statuses == if Orders.FindByCode(old(statuses.statuses), "new").Some?
                                     then old(statuses.statuses)
                                     else old(statuses.statuses) + [Orders.DefaultStatus]
    {
      if TotalItems() == 0 {
        return Failure(EmptyCart);
      }
      var bad := FindUnorderable();
      if bad >= 0 {
        return Failure(Unavailable(items[bad].product.name));
      }
      var order := PlaceOrder(shippingAddress, contactPhone, notes, statuses, table, slugify);
      result := Success(order);
    }

    /**
     * The part of `create_order` after both checks passed: the order with the default
     * status, its lines, the stock taken and the cart emptied.
     */
    method PlaceOrder(shippingAddress: string, contactPhone: string, notes: string,
                      statuses: Orders.StatusTable, table: set<Catalog.Product>,
                      slugify: string -> string)
      returns (order: Orders.Order)
      requires Valid() && statuses.Valid()
      requires forall i :: 0 <= i < |items| ==> Orderable(items[i])
      modifies this, statuses, Products(items)
      ensures Valid() && statuses.Valid()
      ensures fresh(order) && order.user == user
      ensures order.status.code == "new"
      ensures order.status == (if Orders.FindByCode(old(statuses.statuses), "new").Some?
                               then Orders.FindByCode(old(statuses.statuses), "new").value
                               else Orders.DefaultStatus)
      ensures order.totalAmount == SumPrices(old(items))
      ensures order.items == OrderLines(old(items))
      ensures Orders.SumSubtotals(order.items) == order.totalAmount
      ensures order.shippingAddress == shippingAddress && order.notes == notes
      ensures order.contactPhone == Orders.ContactPhoneOnSave(contactPhone, user.phone)
      ensures items == []
      ensures forall i :: 0 <= i < |old(items)| ==>
                LineTaken(old(items)[i], old(items[i].product.stock), old(items[i].product.slug),
                          old(items)[i].product.stock, old(items)[i].product.slug, old(items)[i].product in table)
      ensures statuses.statuses == if Orders.FindByCode(old(statuses.statuses), "new").Some?
                                   then old(statuses.statuses)
                                   else old(statuses.statuses) + [Orders.DefaultStatus]
    {
      ghost var lines := items;
      var status := statuses.GetDefaultStatus();
      var phone := if contactPhone != "" then contactPhone else user.phone;
      var order' := new Orders.Order(user, status, TotalPrice(), shippingAddress, phone, notes);
      SubtotalsMatchTotal(items);
      Fulfil(order', items, table, slugify);
      // `self.clear()`
      items := [];
      order := order';
    }
  }
}
