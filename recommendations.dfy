/**
 * Smart recommendations (src/components/smart-recommendations.tsx): the names
 * the recommender returns are filtered against the cart and the catalog, and
 * adding one puts its menu item in the cart. The recommender itself is
 * foreign: its answer (or its failure) is a parameter.
 */
module Recommendations {
  import opened Wrappers
  import opened Records
  import opened CartLines
  import CartStore

  /** `cartItems.map(ci => ci.item.name)` */
  function CartNames(lines: seq<CartLine>): (names: seq<string>)
    ensures |names| == |lines|
    ensures forall i :: 0 <= i < |lines| ==> names[i] == lines[i].item.name
  {
    seq(|lines|, i requires 0 <= i < |lines| => lines[i].item.name)
  }

  /** `allMenuItems.some(item => item.name === name)` */
  predicate InCatalog(catalog: seq<MenuItem>, name: string) {
    exists i :: 0 <= i < |catalog| && catalog[i].name == name
  }

  /** A recommendation is shown when it is not already in the cart and names a catalog item. */
  predicate Shown(name: string, cartNames: seq<string>, catalog: seq<MenuItem>) {
    name !in cartNames && InCatalog(catalog, name)
  }

  /** The `filter` of `handleGetRecommendations`. */
  function Filtered(recs: seq<string>, cartNames: seq<string>, catalog: seq<MenuItem>): seq<string> {
    if recs == [] then []
    else (if Shown(recs[0], cartNames, catalog) then [recs[0]] else [])
         + Filtered(recs[1..], cartNames, catalog)
  }

  /** A name is in the filtered list exactly when the recommender returned it and it is shown. */
  lemma {:induction false} FilteredMembers(recs: seq<string>, cartNames: seq<string>, catalog: seq<MenuItem>)
    ensures forall x :: x in Filtered(recs, cartNames, catalog) <==> x in recs && Shown(x, cartNames, catalog)
    ensures |Filtered(recs, cartNames, catalog)| <= |recs|
  {
    if recs != [] {
      FilteredMembers(recs[1..], cartNames, catalog);
      assert recs == [recs[0]] + recs[1..];
    }
  }

  /** Filtering keeps the recommender's order: it distributes over concatenation. */
  lemma {:induction false} FilteredAppend(a: seq<string>, b: seq<string>, cartNames: seq<string>, catalog: seq<MenuItem>)
    ensures Filtered(a + b, cartNames, catalog) == Filtered(a, cartNames, catalog) + Filtered(b, cartNames, catalog)
  {
    if a == [] {
      assert a + b == b;
    } else {
      assert (a + b)[1..] == a[1..] + b;
      FilteredAppend(a[1..], b, cartNames, catalog);
    }
  }

  /**
   * Against the names of a cart, a recommendation is shown exactly when it was
   * returned, names a catalog item and no cart line holds an item of that name.
   */
  lemma FilteredAgainstCart(recs: seq<string>, lines: seq<CartLine>, catalog: seq<MenuItem>)
    ensures forall x :: x in Filtered(recs, CartNames(lines), catalog) <==>
      x in recs && InCatalog(catalog, x) && forall k :: 0 <= k < |lines| ==> lines[k].item.name != x
  {
    FilteredMembers(recs, CartNames(lines), catalog);
  }

  /** `allMenuItems.find(item => item.name === name)`: the first catalog item with that name. */
  function FindByName(catalog: seq<MenuItem>, name: string): (r: Option<MenuItem>)
    ensures r.Some? <==> InCatalog(catalog, name)
    ensures r.Some? ==> r.value in catalog && r.value.name == name
    ensures r.Some? ==> exists k :: 0 <= k < |catalog| && catalog[k] == r.value
                          && forall j :: 0 <= j < k ==> catalog[j].name != name
  {
    if catalog == [] then None
    else if catalog[0].name == name then Some(catalog[0])
    else
      var r := FindByName(catalog[1..], name);
      assert forall i :: 1 <= i < |catalog| ==> catalog[i] == catalog[1..][i - 1];
      r
  }

  /** `prev.filter(rec => rec !== name)` */
  function Without(recs: seq<string>, name: string): seq<string> {
    if recs == [] then []
    else (if recs[0] != name then [recs[0]] else []) + Without(recs[1..], name)
  }

  /** Every occurrence of the name goes, and every other name stays. */
  lemma {:induction false} WithoutMembers(recs: seq<string>, name: string)
    ensures name !in Without(recs, name)
    ensures forall x :: x != name ==> (x in Without(recs, name) <==> x in recs)
  {
    if recs != [] {
      WithoutMembers(recs[1..], name);
      assert recs == [recs[0]] + recs[1..];
    }
  }

  /** The toast a call of `handleGetRecommendations` shows, if any. */
  datatype Toast = NoToast | GreatCombo | FetchFailed

  class Panel {
    /** `allMenuItems`, the static catalog. */
    const catalog: seq<MenuItem>
    var recommendations: seq<string>
    var isLoading: bool
    var isDialogOpen: bool

    constructor (catalog: seq<MenuItem>)
      ensures this.catalog == catalog
      ensures recommendations == [] && !isLoading && !isDialogOpen
    {
      this.catalog := catalog;
      recommendations := [];
      isLoading := false;
      isDialogOpen := false;
    }

    /**
     * `handleGetRecommendations`; `reply` is the recommender's list, or None when the call throws.
     * The dialog is opened exactly when something survives the filter; a failure keeps the
     * previous list. Loading always ends.
     */
    method GetRecommendations(cart: CartStore.Cart, reply: Option<seq<string>>) returns (toast: Toast)
      modifies this
      ensures !isLoading
      ensures reply.None? ==>
        toast == FetchFailed && recommendations == old(recommendations) && isDialogOpen == old(isDialogOpen)
      ensures reply.Some? ==>
        && recommendations == Filtered(reply.value, CartNames(cart.cartItems), catalog)
        && (|recommendations| > 0 ==> isDialogOpen && toast == NoToast)
        && (recommendations == [] ==> isDialogOpen == old(isDialogOpen) && toast == GreatCombo)
      ensures forall x :: x in recommendations && x !in old(recommendations) ==>
        x !in CartNames(cart.cartItems) && InCatalog(catalog, x)
    {
      isLoading := true;
      var names := CartNames(cart.cartItems);
      if reply.None? {
        toast := FetchFailed;
      } else {
        var shown := Filtered(reply.value, names, catalog);
        FilteredMembers(reply.value, names, catalog);
        recommendations := shown;
        if |shown| > 0 {
          isDialogOpen := true;
          toast := NoToast;
        } else {
          toast := GreatCombo;
        }
      }
      isLoading := false;
    }

    /**
     * `handleAddRecommendation`: a catalog name adds its item to the cart once and
     * leaves the list; any other name changes nothing.
     */
    method AddRecommendation(cart: CartStore.Cart, name: string)
      requires cart.Valid()
      modifies this, cart
      ensures cart.Valid()
      ensures !InCatalog(catalog, name) ==>
        recommendations == old(recommendations) && cart.cartItems == old(cart.cartItems)
      ensures InCatalog(catalog, name) ==>
        && recommendations == Without(old(recommendations), name)
        && cart.cartItems == Added(old(cart.cartItems), FindByName(catalog, name).value)
        && cart.CartCount() == old(cart.CartCount()) + 1
      ensures name !in recommendations || !InCatalog(catalog, name)
      ensures isLoading == old(isLoading) && isDialogOpen == old(isDialogOpen)
      ensures cart.userPhone == old(cart.userPhone) && cart.cookie == old(cart.cookie) && cart.isLoadingUser == old(cart.isLoadingUser)
    {
      var found := FindByName(catalog, name);
      if found.Some? {
        var _ := cart.AddToCart(found.value);
        WithoutMembers(recommendations, name);
        recommendations := Without(recommendations, name);
      }
    }
  }
}
