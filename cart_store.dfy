/**
 * The `CartProvider` of src/hooks/use-cart.tsx: the session's cart lines and
 * logged-in phone, updated in place by its mutators. The browser cookie
 * `userPhone` is a field holding the value and lifetime last written to it.
 */
module CartStore {
  import opened Wrappers
  import opened Records
  import opened CartLines

  /** The lifetime `loginUser` gives the `userPhone` cookie: 30 days, in seconds. */
  const CookieMaxAge: nat := 60 * 60 * 24 * 30

  /** The `userPhone` cookie: its value and its `maxAge` in seconds. */
  datatype Cookie = Cookie(value: string, maxAge: nat)

  class Cart {
    var cartItems: seq<CartLine>
    var userPhone: Option<string>
    var cookie: Option<Cookie>
    var isLoadingUser: bool

    ghost predicate Valid()
      reads this
    {
      WellFormed(cartItems)
    }

    /**
     * Mounting the provider: an empty cart, and the user read back from the
     * cookie jar. An empty cookie value is falsy in the source and logs no one in.
     */
    constructor (jar: Option<Cookie>)
      ensures Valid()
      ensures cartItems == [] && cookie == jar && !isLoadingUser
      ensures userPhone == (if jar.Some? && jar.value.value != "" then Some(jar.value.value) else None)
    {
      cartItems := [];
      userPhone := None;
      cookie := jar;
      isLoadingUser := true;
      if jar.Some? && jar.value.value != "" {
        userPhone := Some(jar.value.value);
      }
      isLoadingUser := false;
    }

    /** `addToCart`; returns the title of the toast it shows. */
    method AddToCart(item: MenuItem) returns (toast: string)
      requires Valid()
      modifies this
      ensures Valid()
      ensures cartItems == Added(old(cartItems), item)
      ensures userPhone == old(userPhone) && cookie == old(cookie) && isLoadingUser == old(isLoadingUser)
      ensures CartCount() == old(CartCount()) + 1
      ensures !HasId(old(cartItems), item.id) ==> CartTotal() == old(CartTotal()) + item.price
      ensures forall k :: 0 <= k < |old(cartItems)| && old(cartItems)[k].item.id == item.id ==>
        CartTotal() == old(CartTotal()) + old(cartItems)[k].item.price
      ensures toast == item.name + " added to cart!"
    {
      AddedWellFormed(cartItems, item);
      AddedCount(cartItems, item);
      if !HasId(cartItems, item.id) {
        AddedTotalAbsent(cartItems, item);
      }
      forall k | 0 <= k < |cartItems| && cartItems[k].item.id == item.id
        ensures Total(Added(cartItems, item)) == Total(cartItems) + cartItems[k].item.price
      {
        AddedTotalPresent(cartItems, item, k);
      }
      cartItems := Added(cartItems, item);
      toast := item.name + " added to cart!";
    }

    /** `removeFromCart`. */
    method RemoveFromCart(id: ItemId)
      requires Valid()
      modifies this
      ensures Valid()
      ensures cartItems == Removed(old(cartItems), id)
      ensures !HasId(cartItems, id)
      ensures userPhone == old(userPhone) && cookie == old(cookie) && isLoadingUser == old(isLoadingUser)
    {
      RemovedWellFormed(cartItems, id);
      cartItems := Removed(cartItems, id);
    }

    /** `updateQuantity`: a quantity of zero or less is a call to `removeFromCart`. */
    method UpdateQuantity(id: ItemId, quantity: int)
      requires Valid()
      modifies this
      ensures Valid()
      ensures cartItems == Updated(old(cartItems), id, quantity)
      ensures userPhone == old(userPhone) && cookie == old(cookie) && isLoadingUser == old(isLoadingUser)
    {
      if quantity <= 0 {
        RemoveFromCart(id);
      } else {
        UpdatedWellFormed(cartItems, id, quantity);
        cartItems := WithQuantity(cartItems, id, quantity);
      }
    }

    /** `clearCart`: count and total both become 0. */
    method ClearCart()
      requires Valid()
      modifies this
      ensures Valid()
      ensures cartItems == [] && CartCount() == 0 && CartTotal() == 0
      ensures userPhone == old(userPhone) && cookie == old(cookie) && isLoadingUser == old(isLoadingUser)
    {
      cartItems := [];
    }

    /** `loginUser`: sets the phone and persists it for 30 days; the cart is untouched. */
    method LoginUser(phone: string)
      requires Valid()
      modifies this
      ensures Valid()
      ensures userPhone == Some(phone)
      ensures cookie == Some(Cookie(phone, CookieMaxAge))
      ensures cartItems == old(cartItems) && isLoadingUser == old(isLoadingUser)
    {
      userPhone := Some(phone);
      cookie := Some(Cookie(phone, CookieMaxAge));
    }

    /** `logoutUser`: no user, no cookie and an empty cart, whatever the prior state. */
    method LogoutUser()
      requires Valid()
      modifies this
      ensures Valid()
      ensures userPhone == None && cookie == None
      ensures cartItems == [] && CartCount() == 0
      ensures isLoadingUser == old(isLoadingUser)
    {
      userPhone := None;
      cookie := None;
      ClearCart();
    }

    /** `cartCount`: 0 exactly when the cart is empty, and never below the number of lines. */
    function CartCount(): (n: int)
      reads this
      ensures Valid() ==> n >= |cartItems| && (n == 0 <==> cartItems == [])
    {
      CountAtLeastLines(cartItems);
      Count(cartItems)
    }

    /** `cartTotal`. */
    function CartTotal(): (t: int)
      reads this
      ensures cartItems == [] ==> t == 0
    {
      Total(cartItems)
    }
  }
}
