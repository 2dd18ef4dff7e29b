/**
 * Order assembly (src/lib/actions.ts): `placeOrder` validates the phone,
 * totals the submitted cart, inserts one `orders` row and then one
 * `order_items` row per cart line; `getOrderStatus` selects a phone's latest
 * order. The two tables are the fields of an in-memory `OrderTables`; what the
 * database answers to each call is a parameter.
 */
module Orders {
  import opened Wrappers
  import opened Records
  import opened CartLines
  import opened PhoneRules

  const PhoneMessage := "Please enter a valid 10-digit phone number."
  const InvalidDataMessage := "Invalid data provided."
  const OrderInsertMessage := "Could not create your order in the database."
  const ItemsInsertMessage := "Could not save order items to the database."
  const UnexpectedMessage := "An unexpected error occurred while placing your order."

  /** A row of `orders`; `orderTime` is the database's timestamp, as a number. */
  datatype OrderRow = OrderRow(id: OrderId, orderTime: int, orderedByPhone: string, status: OrderStatus, total: int)

  /** A row of `order_items`: the price is the one captured from the cart at order time. */
  datatype OrderItemRow = OrderItemRow(orderId: OrderId, menuItemId: ItemId, quantity: int, price: int)

  /**
   * The form fields `placeOrder` validates: the phone, and the cart snapshot
   * (already decoded from its JSON string; None when the field is missing).
   */
  datatype OrderForm = OrderForm(phone: string, cart: Option<seq<CartLine>>)

  /** `{ orderId }` or `{ error }`. */
  datatype PlaceOrderResult = Placed(orderId: OrderId) | Failed(error: string)

  /**
   * How the database answers one `placeOrder` call: the reply to the order
   * insert, the id and time it gives the new row, and the reply to the items insert.
   */
  datatype InsertReplies = InsertReplies(orderInsert: DbReply, newId: OrderId, orderTime: int, itemsInsert: DbReply)

  /** The message `placeOrder` returns for an invalid form, or None when the form is valid. */
  function ValidationFailure(form: OrderForm): (r: Option<string>)
    ensures r.None? <==> IsTenDigitPhone(form.phone) && form.cart.Some?
    ensures r != Some(PhoneMessage) <==> IsTenDigitPhone(form.phone)
    ensures IsTenDigitPhone(form.phone) && form.cart.None? ==> r == Some(InvalidDataMessage)
  {
    if !IsTenDigitPhone(form.phone) then Some(PhoneMessage)
    else if form.cart.None? then Some(InvalidDataMessage)
    else None
  }

  /** `orderItemsToInsert`: one row per cart line, in cart order. */
  function ItemRows(orderId: OrderId, lines: seq<CartLine>): seq<OrderItemRow> {
    seq(|lines|, i requires 0 <= i < |lines| =>
      OrderItemRow(orderId, lines[i].item.id, lines[i].quantity, lines[i].item.price))
  }

  /** The sum of price times quantity over item rows. */
  function RowsTotal(rows: seq<OrderItemRow>): int {
    if rows == [] then 0 else rows[0].price * rows[0].quantity + RowsTotal(rows[1..])
  }

  /** Every built row belongs to the order and copies its line's item id, quantity and price. */
  lemma ItemRowsCopyLines(orderId: OrderId, lines: seq<CartLine>)
    ensures |ItemRows(orderId, lines)| == |lines|
    ensures forall i :: 0 <= i < |lines| ==>
      var row := ItemRows(orderId, lines)[i];
      row.orderId == orderId && row.menuItemId == lines[i].item.id
      && row.quantity == lines[i].quantity && row.price == lines[i].item.price
  {
  }

  /** The item rows add up to the order's total. */
  lemma {:induction false} RowsTotalIsCartTotal(orderId: OrderId, lines: seq<CartLine>)
    ensures RowsTotal(ItemRows(orderId, lines)) == Total(lines)
  {
    if lines != [] {
      assert ItemRows(orderId, lines)[1..] == ItemRows(orderId, lines[1..]);
      RowsTotalIsCartTotal(orderId, lines[1..]);
    }
  }

  /** The two tables `placeOrder` writes. */
  class OrderTables {
    var orders: seq<OrderRow>
    var orderItems: seq<OrderItemRow>

    constructor (orders: seq<OrderRow>, orderItems: seq<OrderItemRow>)
      ensures this.orders == orders && this.orderItems == orderItems
    {
      this.orders := orders;
      this.orderItems := orderItems;
    }
  }

  /**
   * `placeOrder`. An invalid form returns before any insert; a failed order
   * insert returns before the item insert; a failed item insert leaves the
   * order row where it is.
   */
  method PlaceOrder(db: OrderTables, form: OrderForm, replies: InsertReplies) returns (r: PlaceOrderResult)
    modifies db
    ensures ValidationFailure(form).Some? ==> r == Failed(ValidationFailure(form).value) && unchanged(db)
    ensures IsTenDigitPhone(form.phone) && form.cart.Some? ==>
      && (replies.orderInsert == DbError ==> r == Failed(OrderInsertMessage) && unchanged(db))
      && (replies.orderInsert == Threw ==> r == Failed(UnexpectedMessage) && unchanged(db))
      && (replies.orderInsert == Ok ==>
            && db.orders == old(db.orders) + [OrderRow(replies.newId, replies.orderTime, form.phone, New, Total(form.cart.value))]
            && (replies.itemsInsert == Ok ==>
                  r == Placed(replies.newId) && db.orderItems == old(db.orderItems) + ItemRows(replies.newId, form.cart.value))
            && (replies.itemsInsert == DbError ==> r == Failed(ItemsInsertMessage) && db.orderItems == old(db.orderItems))
            && (replies.itemsInsert == Threw ==> r == Failed(UnexpectedMessage) && db.orderItems == old(db.orderItems)))
    ensures r.Placed? ==>
      && IsTenDigitPhone(form.phone)
      && |db.orders| == |old(db.orders)| + 1
      && db.orders[|db.orders| - 1].id == r.orderId
      && |db.orderItems| >= |old(db.orderItems)|
      && RowsTotal(db.orderItems[|old(db.orderItems)|..]) == db.orders[|db.orders| - 1].total
  {
    var invalid := ValidationFailure(form);
    if invalid.Some? {
      return Failed(invalid.value);
    }
    var phone, cart := form.phone, form.cart.value;
    var total := Total(cart);

    // 1. the `orders` row
    if replies.orderInsert == Threw {
      return Failed(UnexpectedMessage);
    }
    if replies.orderInsert == DbError {
      return Failed(OrderInsertMessage);
    }
    db.orders := db.orders + [OrderRow(replies.newId, replies.orderTime, phone, New, total)];
    var orderId := replies.newId;

    // 2. the `order_items` rows
    var rows := ItemRows(orderId, cart);
    if replies.itemsInsert == Threw {
      return Failed(UnexpectedMessage);
    }
    if replies.itemsInsert == DbError {
      return Failed(ItemsInsertMessage);
    }
    ghost var before := db.orderItems;
    db.orderItems := db.orderItems + rows;
    assert db.orderItems[|before|..] == rows;
    RowsTotalIsCartTotal(orderId, cart);
    return Placed(orderId);
  }

  /** `{ id, status }`, what `getOrderStatus` selects. */
  datatype OrderSummary = OrderSummary(id: OrderId, status: OrderStatus)

  /** Some order was placed from this phone. */
  predicate HasOrderFrom(orders: seq<OrderRow>, phone: string) {
    exists i :: 0 <= i < |orders| && orders[i].orderedByPhone == phone
  }

  /**
   * The phone's order with the greatest `order_time` (of equal times, the
   * first in table order), or None when the phone has no order.
   */
  function LatestOrder(orders: seq<OrderRow>, phone: string): (r: Option<OrderRow>)
    ensures r.None? <==> !HasOrderFrom(orders, phone)
    ensures r.Some? ==> r.value in orders && r.value.orderedByPhone == phone
    ensures r.Some? ==> forall i :: 0 <= i < |orders| && orders[i].orderedByPhone == phone ==>
      orders[i].orderTime <= r.value.orderTime
  {
    if orders == [] then None
    else
      var rest := LatestOrder(orders[1..], phone);
      assert forall i :: 1 <= i < |orders| ==> orders[i] == orders[1..][i - 1];
      if orders[0].orderedByPhone != phone then rest
      else if rest.Some? && rest.value.orderTime > orders[0].orderTime then rest
      else Some(orders[0])
  }

  /**
   * `getOrderStatus`: None for an empty phone (no query is made), on a query
   * error, or when the phone has no order; otherwise the latest order's id and status.
   */
  function GetOrderStatus(orders: seq<OrderRow>, phone: string, queryError: bool): (r: Option<OrderSummary>)
    ensures r.Some? <==> phone != "" && !queryError && HasOrderFrom(orders, phone)
    ensures r.Some? ==>
      exists i :: (0 <= i < |orders| && orders[i].orderedByPhone == phone
        && r.value == OrderSummary(orders[i].id, orders[i].status)
        && forall j :: 0 <= j < |orders| && orders[j].orderedByPhone == phone ==> orders[j].orderTime <= orders[i].orderTime)
  {
    if phone == "" then None
    else if queryError then None
    else
      match LatestOrder(orders, phone)
      case None => None
      case Some(o) => Some(OrderSummary(o.id, o.status))
  }
}
