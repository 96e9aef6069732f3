/** Orders, their status table and their items. Amounts are whole kopecks. */
module Orders {

  import opened Wrappers
  import Users
  import Catalog

  /** A row of the status table. */
  datatype OrderStatus = OrderStatus(code: string, name: string, description: string, isActive: bool)

  /** The status `get_default_status` creates when no status has the code `new`. */
  const DefaultStatus := OrderStatus("new", "Новый заказ", "Заказ создан клиентом, ожидает обработки", true)

  /** Status codes are unique. */
  predicate UniqueCodes(statuses: seq<OrderStatus>) {
    forall i, j :: 0 <= i < j < |statuses| ==> statuses[i].code != statuses[j].code
  }

  /** The status with `code`, active or not (the lookup of `get_or_create`). */
  function FindByCode(statuses: seq<OrderStatus>, code: string): (r: Option<OrderStatus>)
    ensures r.Some? <==> exists i :: 0 <= i < |statuses| && statuses[i].code == code
    ensures r.Some? ==> r.value in statuses && r.value.code == code
  {
    if statuses == [] then None
    else if statuses[0].code == code then Some(statuses[0])
    else
      var r := FindByCode(statuses[1..], code);
      assert forall i :: 1 <= i < |statuses| ==> statuses[i] == statuses[1..][i - 1];
      r
  }

  /** `OrderStatus.objects.get(code=code, is_active=True)`: the active status with `code`. */
  function FindActive(statuses: seq<OrderStatus>, code: string): (r: Option<OrderStatus>)
    ensures r.Some? <==> exists i :: 0 <= i < |statuses| && statuses[i].code == code && statuses[i].isActive
    ensures r.Some? ==> r.value in statuses && r.value.code == code && r.value.isActive
  {
    if statuses == [] then None
    else if statuses[0].code == code && statuses[0].isActive then Some(statuses[0])
    else
      var r := FindActive(statuses[1..], code);
      assert forall i :: 1 <= i < |statuses| ==> statuses[i] == statuses[1..][i - 1];
      r
  }

  /**
   * With unique codes the active lookup finds the same row as the plain lookup
   * whenever that row is active, and nothing otherwise.
   */
  lemma {:induction false} FindActiveAgrees(statuses: seq<OrderStatus>, code: string)
    requires UniqueCodes(statuses)
    ensures FindActive(statuses, code) ==
            (if FindByCode(statuses, code).Some? && FindByCode(statuses, code).value.isActive
             then FindByCode(statuses, code) else None)
  {
    if statuses != [] && statuses[0].code != code {
      assert UniqueCodes(statuses[1..]) by {
        forall i, j | 0 <= i < j < |statuses[1..]|
          ensures statuses[1..][i].code != statuses[1..][j].code
        {
          assert statuses[1..][i] == statuses[i + 1] && statuses[1..][j] == statuses[j + 1];
        }
      }
      FindActiveAgrees(statuses[1..], code);
    } else if statuses != [] && !statuses[0].isActive {
      assert forall i :: 0 < i < |statuses| ==> statuses[i].code != code;
    }
  }

  /** The status table. */
  class StatusTable {
    var statuses: seq<OrderStatus>

    constructor (statuses: seq<OrderStatus>)
      ensures this.statuses == statuses
    {
      this.statuses := statuses;
    }

    predicate Valid()
      reads this
    {
      UniqueCodes(statuses)
    }

    /**
     * `OrderStatus.get_default_status()`: the status coded `new`, created with its
     * default name and description when missing. An existing `new` row is returned
     * whether or not it is active.
     */
    method GetDefaultStatus() returns (status: OrderStatus)
      requires Valid()
      modifies this
      ensures Valid()
      ensures status.code == "new" && status in statuses
      ensures FindByCode(old(statuses), "new").Some? ==>
                status == FindByCode(old(statuses), "new").value && statuses == old(statuses)
      ensures FindByCode(old(statuses), "new").None? ==>
                status == DefaultStatus && statuses == old(statuses) + [DefaultStatus]
    {
      var found := FindByCode(statuses, "new");
      if found.Some? {
        return found.value;
      }
      statuses := statuses + [DefaultStatus];
      status := DefaultStatus;
    }
  }

  /**
   * The default status is looked up by code only, so a deactivated `new` row is still
   * handed to new orders, while `update_status("new")` refuses it.
   */
  lemma InactiveDefaultStillUsed(statuses: seq<OrderStatus>, i: nat)
    requires UniqueCodes(statuses)
    requires i < |statuses| && statuses[i].code == "new" && !statuses[i].isActive
    ensures FindByCode(statuses, "new") == Some(statuses[i])
    ensures FindActive(statuses, "new") == None
  {
    FindByCodeUnique(statuses, "new", i);
  }

  /** Under unique codes the lookup by code returns the one row carrying that code. */
  lemma {:induction false} FindByCodeUnique(statuses: seq<OrderStatus>, code: string, i: nat)
    requires UniqueCodes(statuses)
    requires i < |statuses| && statuses[i].code == code
    ensures FindByCode(statuses, code) == Some(statuses[i])
  {
    if i > 0 {
      assert statuses[0].code != code;
      FindByCodeUnique(statuses[1..], code, i - 1);
    }
  }

  /**
   * The contact phone an order is saved with: `Order.save()` fills an empty phone from
   * the user's profile (an empty profile phone leaves it empty).
   */
  function ContactPhoneOnSave(given: string, userPhone: string): (r: string)
    ensures given != "" ==> r == given
    ensures given == "" ==> r == userPhone
  {
    if given == "" && userPhone != "" then userPhone else given
  }

  /** Saving twice gives the same phone as saving once. */
  lemma ContactPhoneStable(given: string, userPhone: string)
    ensures ContactPhoneOnSave(ContactPhoneOnSave(given, userPhone), userPhone) ==
            ContactPhoneOnSave(given, userPhone)
  {
  }

  /** A line of an order: the product, the quantity and the price at purchase time. */
  datatype OrderItem = OrderItem(product: Catalog.Product, quantity: int, price: int, subtotal: int)

  /**
   * `OrderItem.save()`: a missing or zero subtotal is replaced by price × quantity;
   * any other subtotal is kept.
   */
  function SavedSubtotal(subtotal: Option<int>, price: int, quantity: int): (r: int)
    ensures subtotal.Some? && subtotal.value != 0 ==> r == subtotal.value
    ensures subtotal.None? || subtotal.value == 0 ==> r == price * quantity
  {
    if subtotal.None? || subtotal.value == 0 then price * quantity else subtotal.value
  }

  /** A subtotal given as price × quantity is stored as price × quantity, zero or not. */
  lemma SnapshotSubtotalKept(price: int, quantity: int)
    ensures SavedSubtotal(Some(price * quantity), price, quantity) == price * quantity
  {
  }

  function SumSubtotals(items: seq<OrderItem>): int {
    if items == [] then 0 else SumSubtotals(items[..|items| - 1]) + items[|items| - 1].subtotal
  }

  function SumQuantities(items: seq<OrderItem>): int {
    if items == [] then 0 else SumQuantities(items[..|items| - 1]) + items[|items| - 1].quantity
  }

  /** With every quantity at least one, an order holds at least as many units as lines. */
  lemma {:induction false} UnitsAtLeastLines(items: seq<OrderItem>)
    ensures (forall i :: 0 <= i < |items| ==> items[i].quantity >= 1) ==> SumQuantities(items) >= |items|
  {
    if items != [] {
      UnitsAtLeastLines(items[..|items| - 1]);
    }
  }

  /** An order. */
  class Order {
    const user: Users.User
    var status: OrderStatus
    /** Kopecks. */
    const totalAmount: int
    const shippingAddress: string
    var contactPhone: string
    const notes: string
    var items: seq<OrderItem>

    /** `Order.objects.create(...)`, including the phone fallback of `save()`. */
    constructor (user: Users.User, status: OrderStatus, totalAmount: int, shippingAddress: string,
                 contactPhone: string, notes: string)
      ensures this.user == user && this.status == status && this.totalAmount == totalAmount
      ensures this.shippingAddress == shippingAddress && this.notes == notes
      ensures this.contactPhone == ContactPhoneOnSave(contactPhone, user.phone)
      ensures items == []
    {
      this.user := user;
      this.status := status;
      this.totalAmount := totalAmount;
      this.shippingAddress := shippingAddress;
      this.contactPhone := ContactPhoneOnSave(contactPhone, user.phone);
      this.notes := notes;
      this.items := [];
    }

    /** `total_items`: the units over all lines. */
    function TotalItems(): (r: int)
      reads this
      ensures (forall i :: 0 <= i < |items| ==> items[i].quantity >= 1) ==> r >= |items|
    {
      UnitsAtLeastLines(items);
      SumQuantities(items)
    }

    /** `OrderItem.objects.create(order=this, ...)`, with the subtotal rule of `save()`. */
    method AddItem(product: Catalog.Product, quantity: int, price: int, subtotal: Option<int>)
      modifies this
      ensures items == old(items) + [OrderItem(product, quantity, price, SavedSubtotal(subtotal, price, quantity))]
      ensures status == old(status) && contactPhone == old(contactPhone)
    {
      items := items + [OrderItem(product, quantity, price, SavedSubtotal(subtotal, price, quantity))];
    }

    /**
     * `update_status(code)`: moves to the active status with that code, from whatever
     * status the order is in, and saves; with no such status nothing changes.
     */
    method UpdateStatus(code: string, table: StatusTable) returns (updated: bool)
      modifies this
      ensures updated <==> FindActive(table.statuses, code).Some?
      ensures updated ==> status == FindActive(table.statuses, code).value && status.code == code
      ensures updated ==> contactPhone == ContactPhoneOnSave(old(contactPhone), user.phone)
      ensures !updated ==> status == old(status) && contactPhone == old(contactPhone)
      ensures items == old(items)
    {
      var found := FindActive(table.statuses, code);
      if found.None? {
        return false;
      }
      status := found.value;
      contactPhone := ContactPhoneOnSave(contactPhone, user.phone);
      updated := true;
    }
  }
}
