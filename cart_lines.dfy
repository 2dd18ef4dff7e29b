/**
 * The pure side of the cart store (src/hooks/use-cart.tsx): each state update
 * there is a `find`/`map`/`filter`/spread expression over the list of lines, and
 * `cartCount`/`cartTotal` are `reduce` folds. They are the functions below; the
 * class in module CartStore applies them to its fields.
 */
module CartLines {
  import opened Records

  /** Some line of the cart holds the item with this id (`find` succeeds). */
  predicate HasId(lines: seq<CartLine>, id: ItemId) {
    exists i :: 0 <= i < |lines| && lines[i].item.id == id
  }

  /** The store's invariant: at most one line per item id, every quantity at least 1. */
  predicate WellFormed(lines: seq<CartLine>) {
    && (forall i, j :: 0 <= i < j < |lines| ==> lines[i].item.id != lines[j].item.id)
    && (forall i :: 0 <= i < |lines| ==> lines[i].quantity >= 1)
  }

  /** The `map` of `addToCart`: every line with this id gets one more. */
  function Incremented(lines: seq<CartLine>, id: ItemId): seq<CartLine> {
    seq(|lines|, i requires 0 <= i < |lines| =>
      if lines[i].item.id == id then lines[i].(quantity := lines[i].quantity + 1) else lines[i])
  }

  /** `addToCart`: increment the existing line, or append a new line with quantity 1. */
  function Added(lines: seq<CartLine>, item: MenuItem): seq<CartLine> {
    if HasId(lines, item.id) then Incremented(lines, item.id)
    else lines + [CartLine(item, 1)]
  }

  /** `removeFromCart`: the `filter` that keeps the lines of every other item. */
  function Removed(lines: seq<CartLine>, id: ItemId): seq<CartLine> {
    if lines == [] then []
    else if lines[0].item.id != id then [lines[0]] + Removed(lines[1..], id)
    else Removed(lines[1..], id)
  }

  /** The `map` of `updateQuantity` for a positive quantity. */
  function WithQuantity(lines: seq<CartLine>, id: ItemId, quantity: int): seq<CartLine> {
    seq(|lines|, i requires 0 <= i < |lines| =>
      if lines[i].item.id == id then lines[i].(quantity := quantity) else lines[i])
  }

  /** `updateQuantity`: a quantity of zero or less removes the line. */
  function Updated(lines: seq<CartLine>, id: ItemId, quantity: int): seq<CartLine> {
    if quantity <= 0 then Removed(lines, id) else WithQuantity(lines, id, quantity)
  }

  /** `cartCount`: the sum of the quantities. */
  function Count(lines: seq<CartLine>): int {
    if lines == [] then 0 else lines[0].quantity + Count(lines[1..])
  }

  /** `cartTotal`: the sum of price times quantity. */
  function Total(lines: seq<CartLine>): int {
    if lines == [] then 0 else lines[0].item.price * lines[0].quantity + Total(lines[1..])
  }

  // ---------------------------------------------------------------- addToCart

  /** Adding an item already in the cart increments exactly its line, by exactly 1. */
  lemma AddedPresent(lines: seq<CartLine>, item: MenuItem, k: nat)
    requires WellFormed(lines)
    requires k < |lines| && lines[k].item.id == item.id
    ensures Added(lines, item) == lines[k := lines[k].(quantity := lines[k].quantity + 1)]
  {
    var r := Added(lines, item);
    assert HasId(lines, item.id);
    forall i | 0 <= i < |lines| && i != k
      ensures r[i] == lines[i]
    {
      assert lines[i].item.id != item.id by {
        if i < k {} else {}
      }
    }
  }

  /** Adding an item not in the cart appends one line with quantity 1 at the end. */
  lemma AddedAbsent(lines: seq<CartLine>, item: MenuItem)
    requires !HasId(lines, item.id)
    ensures Added(lines, item) == lines + [CartLine(item, 1)]
    ensures |Added(lines, item)| == |lines| + 1
  {
  }

  /** `addToCart` keeps the invariant. */
  lemma AddedWellFormed(lines: seq<CartLine>, item: MenuItem)
    requires WellFormed(lines)
    ensures WellFormed(Added(lines, item))
  {
    if HasId(lines, item.id) {
      var k :| 0 <= k < |lines| && lines[k].item.id == item.id;
      AddedPresent(lines, item, k);
    }
  }

  // ----------------------------------------------------------- removeFromCart

  /** Removing an id that is not in the cart changes nothing. */
  lemma {:induction false} RemovedAbsent(lines: seq<CartLine>, id: ItemId)
    requires !HasId(lines, id)
    ensures Removed(lines, id) == lines
  {
    if lines != [] {
      assert lines[0].item.id != id;
      assert !HasId(lines[1..], id);
      RemovedAbsent(lines[1..], id);
    }
  }

  /** Removing the item at position k deletes exactly that line and keeps the others in order. */
  lemma {:induction false} RemovedPresent(lines: seq<CartLine>, id: ItemId, k: nat)
    requires WellFormed(lines)
    requires k < |lines| && lines[k].item.id == id
    ensures Removed(lines, id) == lines[..k] + lines[k + 1..]
  {
    if k == 0 {
      assert !HasId(lines[1..], id);
      RemovedAbsent(lines[1..], id);
    } else {
      assert lines[0].item.id != id;
      RemovedPresent(lines[1..], id, k - 1);
      assert lines[..k] == [lines[0]] + lines[1..][..k - 1];
      assert lines[k + 1..] == lines[1..][k..];
    }
  }

  /** Deleting one line of a well-formed cart leaves a well-formed cart. */
  lemma DeletedWellFormed(lines: seq<CartLine>, k: nat)
    requires WellFormed(lines) && k < |lines|
    ensures WellFormed(lines[..k] + lines[k + 1..])
  {
    var r := lines[..k] + lines[k + 1..];
    forall i | 0 <= i < |r|
      ensures r[i] == lines[if i < k then i else i + 1]
    {
    }
  }

  /** `removeFromCart` keeps the invariant. */
  lemma RemovedWellFormed(lines: seq<CartLine>, id: ItemId)
    requires WellFormed(lines)
    ensures WellFormed(Removed(lines, id))
    ensures !HasId(Removed(lines, id), id)
  {
    if HasId(lines, id) {
      var k :| 0 <= k < |lines| && lines[k].item.id == id;
      RemovedPresent(lines, id, k);
      DeletedWellFormed(lines, k);
      var r := lines[..k] + lines[k + 1..];
      forall i | 0 <= i < |r|
        ensures r[i].item.id != id
      {
        assert r[i] == lines[if i < k then i else i + 1];
      }
    } else {
      RemovedAbsent(lines, id);
    }
  }

  // ----------------------------------------------------------- updateQuantity

  /** A positive quantity replaces exactly the quantity of the matching line. */
  lemma WithQuantityPresent(lines: seq<CartLine>, id: ItemId, quantity: int, k: nat)
    requires WellFormed(lines)
    requires k < |lines| && lines[k].item.id == id
    ensures WithQuantity(lines, id, quantity) == lines[k := lines[k].(quantity := quantity)]
  {
    var r := WithQuantity(lines, id, quantity);
    forall i | 0 <= i < |lines| && i != k
      ensures r[i] == lines[i]
    {
      assert lines[i].item.id != id by {
        if i < k {} else {}
      }
    }
  }

  /** Giving one line another positive quantity keeps the invariant. */
  lemma ReplacedWellFormed(lines: seq<CartLine>, k: nat, quantity: int)
    requires WellFormed(lines) && k < |lines| && quantity >= 1
    ensures WellFormed(lines[k := lines[k].(quantity := quantity)])
  {
  }

  /** Setting the quantity of an absent id changes nothing. */
  lemma WithQuantityAbsent(lines: seq<CartLine>, id: ItemId, quantity: int)
    requires !HasId(lines, id)
    ensures WithQuantity(lines, id, quantity) == lines
  {
  }

  /** `updateQuantity(id, q)` is `removeFromCart(id)` when q <= 0, and a no-op for an absent id. */
  lemma UpdatedCases(lines: seq<CartLine>, id: ItemId, quantity: int)
    ensures quantity <= 0 ==> Updated(lines, id, quantity) == Removed(lines, id)
    ensures !HasId(lines, id) ==> Updated(lines, id, quantity) == lines
  {
    if !HasId(lines, id) {
      RemovedAbsent(lines, id);
    }
  }

  /** `updateQuantity` keeps the invariant, whatever the quantity. */
  lemma UpdatedWellFormed(lines: seq<CartLine>, id: ItemId, quantity: int)
    requires WellFormed(lines)
    ensures WellFormed(Updated(lines, id, quantity))
  {
    if quantity <= 0 {
      RemovedWellFormed(lines, id);
    } else if HasId(lines, id) {
      var k :| 0 <= k < |lines| && lines[k].item.id == id;
      WithQuantityPresent(lines, id, quantity, k);
    }
  }

  // ------------------------------------------------------ cartCount, cartTotal

  lemma {:induction false} CountAppend(a: seq<CartLine>, b: seq<CartLine>)
    ensures Count(a + b) == Count(a) + Count(b)
  {
    if a == [] {
      assert a + b == b;
    } else {
      assert (a + b)[1..] == a[1..] + b;
      CountAppend(a[1..], b);
    }
  }

  lemma {:induction false} TotalAppend(a: seq<CartLine>, b: seq<CartLine>)
    ensures Total(a + b) == Total(a) + Total(b)
  {
    if a == [] {
      assert a + b == b;
    } else {
      assert (a + b)[1..] == a[1..] + b;
      TotalAppend(a[1..], b);
    }
  }

  /** Count and total of a cart split around line k. */
  lemma SplitAt(lines: seq<CartLine>, k: nat)
    requires k < |lines|
    ensures Count(lines) == Count(lines[..k]) + lines[k].quantity + Count(lines[k + 1..])
    ensures Total(lines) == Total(lines[..k]) + lines[k].item.price * lines[k].quantity + Total(lines[k + 1..])
  {
    assert lines == lines[..k] + ([lines[k]] + lines[k + 1..]);
    CountAppend(lines[..k], [lines[k]] + lines[k + 1..]);
    TotalAppend(lines[..k], [lines[k]] + lines[k + 1..]);
  }

  /** Replacing line k by a line for the same item changes the sums by the difference of that line only. */
  lemma ReplacedSums(lines: seq<CartLine>, k: nat, quantity: int)
    requires k < |lines|
    ensures var r := lines[k := lines[k].(quantity := quantity)];
      && Count(r) == Count(lines) - lines[k].quantity + quantity
      && Total(r) == Total(lines) - lines[k].item.price * lines[k].quantity + lines[k].item.price * quantity
  {
    var r := lines[k := lines[k].(quantity := quantity)];
    SplitAt(lines, k);
    SplitAt(r, k);
    assert r[..k] == lines[..k];
    assert r[k + 1..] == lines[k + 1..];
  }

  /** In a well-formed cart the count is at least the number of lines, so it is 0 exactly for the empty cart. */
  lemma {:induction false} CountAtLeastLines(lines: seq<CartLine>)
    ensures WellFormed(lines) ==> Count(lines) >= |lines| && (Count(lines) == 0 <==> lines == [])
  {
    if lines != [] {
      CountAtLeastLines(lines[1..]);
    }
  }

  /** `addToCart` adds exactly one to the count. */
  lemma AddedCount(lines: seq<CartLine>, item: MenuItem)
    requires WellFormed(lines)
    ensures Count(Added(lines, item)) == Count(lines) + 1
  {
    if HasId(lines, item.id) {
      var k :| 0 <= k < |lines| && lines[k].item.id == item.id;
      AddedPresent(lines, item, k);
      ReplacedSums(lines, k, lines[k].quantity + 1);
    } else {
      CountAppend(lines, [CartLine(item, 1)]);
    }
  }

  /** Adding an item already present adds the price stored in its line to the total. */
  lemma AddedTotalPresent(lines: seq<CartLine>, item: MenuItem, k: nat)
    requires WellFormed(lines)
    requires k < |lines| && lines[k].item.id == item.id
    ensures Total(Added(lines, item)) == Total(lines) + lines[k].item.price
  {
    AddedPresent(lines, item, k);
    IncrementedLineTotal(lines, k);
  }

  /** One more unit on line k adds that line's price to the total. */
  lemma IncrementedLineTotal(lines: seq<CartLine>, k: nat)
    requires k < |lines|
    ensures Total(lines[k := lines[k].(quantity := lines[k].quantity + 1)]) == Total(lines) + lines[k].item.price
  {
    ReplacedSums(lines, k, lines[k].quantity + 1);
    MulSucc(lines[k].item.price, lines[k].quantity);
  }

  lemma MulSucc(p: int, q: int)
    ensures p * (q + 1) == p * q + p
  {
  }

  /** Adding a new item adds its price to the total. */
  lemma AddedTotalAbsent(lines: seq<CartLine>, item: MenuItem)
    requires !HasId(lines, item.id)
    ensures Total(Added(lines, item)) == Total(lines) + item.price
  {
    TotalAppend(lines, [CartLine(item, 1)]);
  }

  /** `removeFromCart` subtracts exactly the removed line from both sums. */
  lemma RemovedSums(lines: seq<CartLine>, id: ItemId, k: nat)
    requires WellFormed(lines)
    requires k < |lines| && lines[k].item.id == id
    ensures Count(Removed(lines, id)) == Count(lines) - lines[k].quantity
    ensures Total(Removed(lines, id)) == Total(lines) - lines[k].item.price * lines[k].quantity
  {
    RemovedPresent(lines, id, k);
    SplitAt(lines, k);
    CountAppend(lines[..k], lines[k + 1..]);
    TotalAppend(lines[..k], lines[k + 1..]);
  }

  /** Two additions of the same item to an empty cart give one line with quantity 2. */
  lemma AddTwiceToEmpty(item: MenuItem)
    ensures Added(Added([], item), item) == [CartLine(item, 2)]
  {
    var once := Added([], item);
    assert once == [CartLine(item, 1)];
    AddedPresent(once, item, 0);
  }

  // ------------------------------------------------ any sequence of mutations

  /** The mutations a user can make through the store's interface. */
  datatype CartOp = AddItem(item: MenuItem) | SetQuantity(id: ItemId, quantity: int) | RemoveItem(id: ItemId)

  function Apply(lines: seq<CartLine>, op: CartOp): seq<CartLine> {
    match op
    case AddItem(item) => Added(lines, item)
    case SetQuantity(id, q) => Updated(lines, id, q)
    case RemoveItem(id) => Removed(lines, id)
  }

  function ApplyAll(lines: seq<CartLine>, ops: seq<CartOp>): seq<CartLine>
    decreases ops
  {
    if ops == [] then lines else ApplyAll(Apply(lines, ops[0]), ops[1..])
  }

  /** No sequence of add/update/remove calls ever produces a duplicate id or a quantity below 1. */
  lemma {:induction false} ApplyAllWellFormed(lines: seq<CartLine>, ops: seq<CartOp>)
    requires WellFormed(lines)
    ensures WellFormed(ApplyAll(lines, ops))
    decreases ops
  {
    if ops != [] {
      match ops[0] {
        case AddItem(item) => AddedWellFormed(lines, item);
        case SetQuantity(id, q) => UpdatedWellFormed(lines, id, q);
        case RemoveItem(id) => RemovedWellFormed(lines, id);
      }
      ApplyAllWellFormed(Apply(lines, ops[0]), ops[1..]);
    }
  }
}
