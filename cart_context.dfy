/** The cart store of context/CartContext.tsx: `CartProvider` keeps one
    state cell, the list of cart lines, and each mutator replaces it with a
    function of its old value; `total` and `count` are recomputed from it
    on every read. */
module CartContext {
  import opened CartLines

  class CartStore {
    /** The `items` state cell. */
    var items: seq<CartItem>

    /** Ids are unique and every quantity is at least 1. */
    ghost predicate Valid()
      reads this
    {
      CartLines.Valid(items)
    }

    /** The provider starts with an empty cart. */
    constructor ()
      ensures items == [] && Valid()
    {
      items := [];
    }

    /** The derived `count`: the number of units in the cart. */
    function Count(): (n: int)
      reads this
      ensures CartLines.AllPositive(items) ==> n >= |items|
    {
      CartLines.Count(items)
    }

    /** The derived `total`, in cents. */
    function Total(): (t: int)
      reads this
      ensures items == [] ==> t == 0
      ensures (CartLines.AllPositive(items)
               && forall i :: 0 <= i < |items| ==> items[i].price >= 0) ==> t >= 0
    {
      CartLines.Total(items)
    }

    method AddToCart(newItem: Product)
      modifies this
      ensures items == AddTo(old(items), newItem)
      ensures old(Valid()) ==> Valid() && Count() == old(Count()) + 1
    {
      if CartLines.Valid(items) {
        AddPreservesValid(items, newItem);
        AddCount(items, newItem);
      }
      items := AddTo(items, newItem);
    }

    method RemoveFromCart(itemId: string)
      modifies this
      ensures items == RemoveId(old(items), itemId)
      ensures !HasId(items, itemId)
      ensures old(Valid()) ==> Valid()
    {
      if CartLines.Valid(items) {
        RemovePreservesValid(items, itemId);
      }
      items := RemoveId(items, itemId);
    }

    method UpdateQuantity(itemId: string, delta: int)
      modifies this
      ensures items == UpdateQuantityOf(old(items), itemId, delta)
      ensures CartLines.AllPositive(items)
      ensures old(Valid()) ==> Valid()
    {
      if CartLines.Valid(items) {
        UpdatePreservesValid(items, itemId, delta);
      }
      items := UpdateQuantityOf(items, itemId, delta);
    }

    method ClearCart()
      modifies this
      ensures items == [] && Valid()
      ensures Count() == 0 && Total() == 0
    {
      items := [];
    }
  }
}
