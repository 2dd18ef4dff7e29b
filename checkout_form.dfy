/**
 * The checkout form (src/components/checkout-form.tsx): its field rules, and
 * `onSubmit`, which sends the phone and a snapshot of the cart to
 * `placeOrder` and then clears the cart.
 */
module CheckoutForm {
  import opened Wrappers
  import opened Records
  import opened CartLines
  import opened PhoneRules
  import CartStore
  import Orders

  const NameMessage := "Name must be at least 2 characters."

  /** `z.string().min(2)` */
  predicate IsValidName(name: string) {
    |name| >= 2
  }

  /** `checkoutFormSchema`: a name of two characters or more and an Indian mobile number. */
  predicate IsValidForm(name: string, phone: string) {
    IsValidName(name) && IsIndianMobile(phone)
  }

  /** The default values, an empty name and an empty phone, both fail. */
  lemma DefaultsInvalid()
    ensures !IsValidName("") && !IsIndianMobile("") && !IsValidForm("", "")
  {
  }

  /** Whatever this form accepts passes `placeOrder`'s validation, whatever cart goes with it. */
  lemma AcceptedFormPassesOrderCheck(name: string, phone: string)
    requires IsValidForm(name, phone)
    ensures forall c :: Orders.ValidationFailure(Orders.OrderForm(phone, Some(c))) == None
  {
    MobileImpliesTenDigits(phone);
  }

  /** What the user sees after pressing "Place Order". */
  datatype SubmitOutcome = FieldErrors | OrderPlacedToast | SubmissionErrorToast

  /**
   * `form.handleSubmit(onSubmit)`. An invalid form never calls `onSubmit`.
   * `callThrows` is a failure of the call to the server action itself. The cart is
   * cleared whenever `placeOrder` returns, also when it returns `{ error }`; it is kept
   * only when the call throws. `reply` is what `placeOrder` returned, which the form ignores.
   */
  method Submit(cart: CartStore.Cart, db: Orders.OrderTables, name: string, phone: string,
                replies: Orders.InsertReplies, callThrows: bool)
    returns (outcome: SubmitOutcome, reply: Option<Orders.PlaceOrderResult>)
    requires cart.Valid()
    modifies cart, db
    ensures cart.Valid()
    ensures !IsValidForm(name, phone) ==>
      outcome == FieldErrors && reply == None && cart.cartItems == old(cart.cartItems) && unchanged(db)
    ensures IsValidForm(name, phone) && callThrows ==>
      outcome == SubmissionErrorToast && reply == None && cart.cartItems == old(cart.cartItems) && unchanged(db)
    ensures IsValidForm(name, phone) && !callThrows ==>
      && outcome == OrderPlacedToast && reply.Some? && cart.cartItems == []
      && reply.value != Orders.Failed(Orders.PhoneMessage)
      && (replies.orderInsert == Ok ==>
            db.orders == old(db.orders) + [Orders.OrderRow(replies.newId, replies.orderTime, phone, New, Total(old(cart.cartItems)))])
      && (replies.orderInsert == Ok && replies.itemsInsert == Ok ==>
            reply.value == Orders.Placed(replies.newId)
            && db.orderItems == old(db.orderItems) + Orders.ItemRows(replies.newId, old(cart.cartItems)))
    ensures IsValidForm(name, phone) && !callThrows ==>
      && (replies.orderInsert == DbError ==> reply == Some(Orders.Failed(Orders.OrderInsertMessage)) && unchanged(db))
      && (replies.orderInsert == Threw ==> reply == Some(Orders.Failed(Orders.UnexpectedMessage)) && unchanged(db))
      && (replies.orderInsert == Ok && replies.itemsInsert == DbError ==>
            reply == Some(Orders.Failed(Orders.ItemsInsertMessage)) && db.orderItems == old(db.orderItems))
      && (replies.orderInsert == Ok && replies.itemsInsert == Threw ==>
            reply == Some(Orders.Failed(Orders.UnexpectedMessage)) && db.orderItems == old(db.orderItems))
    ensures cart.userPhone == old(cart.userPhone) && cart.cookie == old(cart.cookie) && cart.isLoadingUser == old(cart.isLoadingUser)
  {
    if !IsValidForm(name, phone) {
      return FieldErrors, None;
    }
    // onSubmit
    if callThrows {
      return SubmissionErrorToast, None;
    }
    MobileImpliesTenDigits(phone);
    var snapshot := cart.cartItems;
    var result := Orders.PlaceOrder(db, Orders.OrderForm(phone, Some(snapshot)), replies);
    cart.ClearCart();
    return OrderPlacedToast, Some(result);
  }
}
