/**
 * The menu-item card (src/components/menu-item-card.tsx): the quantity it
 * shows for its item and the add / + / - controls that change the cart.
 */
module MenuItemCard {
  import opened Records
  import opened CartLines
  import CartStore

  /** `cartItems.find(ci => ci.item.id === id)?.quantity || 0` */
  function QuantityOf(lines: seq<CartLine>, id: ItemId): (q: int)
    ensures !HasId(lines, id) ==> q == 0
    ensures HasId(lines, id) ==> exists k :: 0 <= k < |lines| && lines[k].item.id == id && q == lines[k].quantity
                                   && forall j :: 0 <= j < k ==> lines[j].item.id != id
  {
    if lines == [] then 0
    else if lines[0].item.id == id then lines[0].quantity
    else
      assert forall i :: 1 <= i < |lines| ==> lines[i] == lines[1..][i - 1];
      QuantityOf(lines[1..], id)
  }

  /** In a well-formed cart the shown quantity is the quantity of the item's line, and 0 only when there is none. */
  lemma QuantityOfLine(lines: seq<CartLine>, id: ItemId, k: nat)
    requires WellFormed(lines) && k < |lines| && lines[k].item.id == id
    ensures QuantityOf(lines, id) == lines[k].quantity >= 1
  {
    var j :| 0 <= j < |lines| && lines[j].item.id == id && QuantityOf(lines, id) == lines[j].quantity;
    if j < k {} else if k < j {}
  }

  /** The "add" button is drawn instead of the +/- controls exactly when the item is not in the cart. */
  predicate ShowsAddButton(quantity: int) {
    quantity == 0
  }

  /** The minus control is drawn as a trash icon exactly when one is left. */
  predicate ShowsTrash(quantity: int) {
    quantity == 1
  }

  lemma AddButtonIffAbsent(lines: seq<CartLine>, id: ItemId)
    requires WellFormed(lines)
    ensures ShowsAddButton(QuantityOf(lines, id)) <==> !HasId(lines, id)
  {
    if HasId(lines, id) {
      var k :| 0 <= k < |lines| && lines[k].item.id == id;
      QuantityOfLine(lines, id, k);
    }
  }

  /** The trash icon is drawn exactly when pressing "-" takes the item out of the cart. */
  lemma TrashIffDecreaseRemoves(lines: seq<CartLine>, id: ItemId)
    requires WellFormed(lines) && HasId(lines, id)
    ensures ShowsTrash(QuantityOf(lines, id)) <==> !HasId(Decreased(lines, id), id)
  {
    var k :| 0 <= k < |lines| && lines[k].item.id == id;
    QuantityOfLine(lines, id, k);
    var q := lines[k].quantity;
    if q > 1 {
      WithQuantityPresent(lines, id, q - 1, k);
      assert Decreased(lines, id)[k].item.id == id;
    } else {
      RemovedWellFormed(lines, id);
    }
  }

  /** `handleIncrease`: only an item in the cart, set to one more. */
  function Increased(lines: seq<CartLine>, id: ItemId): seq<CartLine> {
    var q := QuantityOf(lines, id);
    if q > 0 then Updated(lines, id, q + 1) else lines
  }

  /** `handleDecrease`: one fewer while more than one is left, otherwise remove the line. */
  function Decreased(lines: seq<CartLine>, id: ItemId): seq<CartLine> {
    var q := QuantityOf(lines, id);
    if q > 1 then Updated(lines, id, q - 1) else Removed(lines, id)
  }

  /** "+" on the item of line k gives that line one more unit. */
  lemma IncreasedLine(lines: seq<CartLine>, id: ItemId, k: nat)
    requires WellFormed(lines) && k < |lines| && lines[k].item.id == id
    ensures Increased(lines, id) == lines[k := lines[k].(quantity := lines[k].quantity + 1)]
  {
    QuantityOfLine(lines, id, k);
    WithQuantityPresent(lines, id, lines[k].quantity + 1, k);
  }

  /** "+" on an item in the cart does what adding it again does. */
  lemma IncreasedIsAdded(lines: seq<CartLine>, item: MenuItem)
    requires WellFormed(lines) && HasId(lines, item.id)
    ensures Increased(lines, item.id) == Added(lines, item)
  {
    var k :| 0 <= k < |lines| && lines[k].item.id == item.id;
    IncreasedLine(lines, item.id, k);
    AddedPresent(lines, item, k);
  }

  /** "+" for an item not in the cart does nothing. */
  lemma IncreasedAbsent(lines: seq<CartLine>, id: ItemId)
    requires !HasId(lines, id)
    ensures Increased(lines, id) == lines
  {
  }

  /** "-" removes exactly one unit and never leaves a line with quantity 0. */
  lemma DecreasedOneLess(lines: seq<CartLine>, id: ItemId)
    requires WellFormed(lines) && HasId(lines, id)
    ensures WellFormed(Decreased(lines, id))
    ensures Count(Decreased(lines, id)) == Count(lines) - 1
  {
    var k :| 0 <= k < |lines| && lines[k].item.id == id;
    QuantityOfLine(lines, id, k);
    var q := lines[k].quantity;
    if q > 1 {
      WithQuantityPresent(lines, id, q - 1, k);
      ReplacedSums(lines, k, q - 1);
      ReplacedWellFormed(lines, k, q - 1);
    } else {
      RemovedSums(lines, id, k);
      RemovedWellFormed(lines, id);
    }
  }

  /** "-" then "+" restores the cart while more than one unit is left. */
  lemma DecreasedThenIncreased(lines: seq<CartLine>, id: ItemId, k: nat)
    requires WellFormed(lines) && k < |lines| && lines[k].item.id == id && lines[k].quantity > 1
    ensures Increased(Decreased(lines, id), id) == lines
  {
    var q := lines[k].quantity;
    QuantityOfLine(lines, id, k);
    WithQuantityPresent(lines, id, q - 1, k);
    var mid := lines[k := lines[k].(quantity := q - 1)];
    ReplacedWellFormed(lines, k, q - 1);
    IncreasedLine(mid, id, k);
    assert mid[k := mid[k].(quantity := q)] == lines;
  }

  /** The card's event handlers, acting on the cart store. */
  method HandleAdd(cart: CartStore.Cart, item: MenuItem)
    requires cart.Valid()
    modifies cart
    ensures cart.Valid() && cart.cartItems == Added(old(cart.cartItems), item)
    ensures cart.userPhone == old(cart.userPhone) && cart.cookie == old(cart.cookie) && cart.isLoadingUser == old(cart.isLoadingUser)
  {
    var _ := cart.AddToCart(item);
  }

  method HandleIncrease(cart: CartStore.Cart, item: MenuItem)
    requires cart.Valid()
    modifies cart
    ensures cart.Valid() && cart.cartItems == Increased(old(cart.cartItems), item.id)
    ensures cart.userPhone == old(cart.userPhone) && cart.cookie == old(cart.cookie) && cart.isLoadingUser == old(cart.isLoadingUser)
  {
    var quantity := QuantityOf(cart.cartItems, item.id);
    if quantity > 0 {
      cart.UpdateQuantity(item.id, quantity + 1);
    }
  }

  method HandleDecrease(cart: CartStore.Cart, item: MenuItem)
    requires cart.Valid()
    modifies cart
    ensures cart.Valid() && cart.cartItems == Decreased(old(cart.cartItems), item.id)
    ensures HasId(old(cart.cartItems), item.id) ==> cart.CartCount() == old(cart.CartCount()) - 1
    ensures cart.userPhone == old(cart.userPhone) && cart.cookie == old(cart.cookie) && cart.isLoadingUser == old(cart.isLoadingUser)
  {
    if HasId(cart.cartItems, item.id) {
      DecreasedOneLess(cart.cartItems, item.id);
    }
    var quantity := QuantityOf(cart.cartItems, item.id);
    if quantity > 1 {
      cart.UpdateQuantity(item.id, quantity - 1);
    } else {
      cart.RemoveFromCart(item.id);
    }
  }
}
