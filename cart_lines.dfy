/** The list of cart lines held by the cart store and the pure list
    transformations its mutators apply to it (`find`, `map`, `filter`,
    `reduce` in context/CartContext.tsx), with the invariants they keep.
    Prices are integer cents; quantities and deltas are integers. */
module CartLines {
  import opened Wrappers

  /** One product line of the cart. */
  datatype CartItem = CartItem(
    id: string,
    name: string,
    price: int,
    quantity: int,
    image: string,
    restaurantId: string)

  /** What `addToCart` receives: a cart line without its quantity. */
  datatype Product = Product(
    id: string,
    name: string,
    price: int,
    image: string,
    restaurantId: string)

  /** The line `{ ...newItem, quantity }`. */
  function LineOf(p: Product, quantity: int): CartItem
  {
    CartItem(p.id, p.name, p.price, quantity, p.image, p.restaurantId)
  }

  predicate HasId(s: seq<CartItem>, id: string)
  {
    exists i :: 0 <= i < |s| && s[i].id == id
  }

  /** At most one line per product id. */
  predicate UniqueIds(s: seq<CartItem>)
  {
    forall i, j :: 0 <= i < j < |s| ==> s[i].id != s[j].id
  }

  /** No line is kept with a quantity below 1. */
  predicate AllPositive(s: seq<CartItem>)
  {
    forall i :: 0 <= i < |s| ==> s[i].quantity >= 1
  }

  /** The cart invariant: ids are unique and every quantity is at least 1. */
  predicate Valid(s: seq<CartItem>)
  {
    UniqueIds(s) && AllPositive(s)
  }

  function Max(a: int, b: int): int
  {
    if a < b then b else a
  }

  // ---------------------------------------------------------------------
  // find

  /** The position of the first line carrying `id` (the line that
      `currentItems.find(item => item.id === id)` returns). */
  function FindIndex(s: seq<CartItem>, id: string): (r: Option<nat>)
    ensures r.None? <==> !HasId(s, id)
    ensures r.Some? ==> r.value < |s| && s[r.value].id == id
    ensures r.Some? ==> forall j :: 0 <= j < r.value ==> s[j].id != id
  {
    if s == [] then None
    else if s[0].id == id then Some(0)
    else
      match FindIndex(s[1..], id)
      case None =>
        assert forall i :: 0 < i < |s| ==> s[i] == s[1..][i - 1];
        None
      case Some(k) => Some(k + 1)
  }

  // ---------------------------------------------------------------------
  // filter

  /** The two `filter` callbacks of the cart: drop one id, or keep only
      lines whose quantity is positive. */
  datatype Criterion = IdOtherThan(id: string) | QuantityPositive

  predicate Keeps(c: Criterion, x: CartItem)
  {
    match c
    case IdOtherThan(id) => x.id != id
    case QuantityPositive => x.quantity > 0
  }

  /** `Array.prototype.filter`: the lines satisfying `c`, in their order. */
  function Filter(s: seq<CartItem>, c: Criterion): (r: seq<CartItem>)
    ensures |r| <= |s|
    ensures forall i :: 0 <= i < |r| ==> Keeps(c, r[i])
  {
    if s == [] then []
    else (if Keeps(c, s[0]) then [s[0]] else []) + Filter(s[1..], c)
  }

  /** A line is in the filtered list exactly when it is in the list and
      passes. */
  lemma {:induction false} FilterMembers(s: seq<CartItem>, c: Criterion)
    ensures forall x :: x in Filter(s, c) <==> x in s && Keeps(c, x)
  {
    if s != [] {
      FilterMembers(s[1..], c);
      assert s == [s[0]] + s[1..];
    }
  }

  lemma {:induction false} FilterAppend(a: seq<CartItem>, b: seq<CartItem>, c: Criterion)
    ensures Filter(a + b, c) == Filter(a, c) + Filter(b, c)
  {
    if a == [] {
      assert a + b == b;
    } else {
      var head := if Keeps(c, a[0]) then [a[0]] else [];
      calc {
        Filter(a + b, c);
        { assert (a + b)[0] == a[0] && (a + b)[1..] == a[1..] + b; }
        head + Filter(a[1..] + b, c);
        { FilterAppend(a[1..], b, c); }
        head + (Filter(a[1..], c) + Filter(b, c));
        (head + Filter(a[1..], c)) + Filter(b, c);
        Filter(a, c) + Filter(b, c);
      }
    }
  }

  /** Filtering a list whose every line passes leaves it unchanged. */
  lemma {:induction false} FilterKeepsAll(s: seq<CartItem>, c: Criterion)
    requires forall i :: 0 <= i < |s| ==> Keeps(c, s[i])
    ensures Filter(s, c) == s
  {
    if s != [] {
      FilterKeepsAll(s[1..], c);
    }
  }

  /** Filtering keeps ids unique: the result is a sub-list. */
  lemma {:induction false} FilterUnique(s: seq<CartItem>, c: Criterion)
    requires UniqueIds(s)
    ensures UniqueIds(Filter(s, c))
  {
    if s != [] {
      var rest := Filter(s[1..], c);
      FilterUnique(s[1..], c);
      FilterMembers(s[1..], c);
      forall y | y in rest
        ensures y.id != s[0].id
      {
        var j :| 0 <= j < |s[1..]| && s[1..][j] == y;
        assert s[j + 1] == y;
      }
    }
  }

  /** Filtering splits around position `k`: the lines before it, the line
      itself, and the lines after it are filtered separately. */
  lemma SplitAt(s: seq<CartItem>, k: nat, c: Criterion)
    requires k < |s|
    ensures Filter(s, c) == Filter(s[..k], c) + Filter([s[k]], c) + Filter(s[k + 1..], c)
  {
    assert s == s[..k] + [s[k]] + s[k + 1..];
    FilterAppend(s[..k] + [s[k]], s[k + 1..], c);
    FilterAppend(s[..k], [s[k]], c);
  }

  /** When every line but the one at `k` passes, filtering can only drop
      that line. */
  lemma FilterAllBut(s: seq<CartItem>, k: nat, c: Criterion)
    requires k < |s|
    requires forall i :: 0 <= i < |s| && i != k ==> Keeps(c, s[i])
    ensures Filter(s, c) == s[..k] + Filter([s[k]], c) + s[k + 1..]
  {
    var before, after := s[..k], s[k + 1..];
    SplitAt(s, k, c);
    forall i | 0 <= i < |before|
      ensures Keeps(c, before[i])
    {
      assert before[i] == s[i];
    }
    FilterKeepsAll(before, c);
    forall i | 0 <= i < |after|
      ensures Keeps(c, after[i])
    {
      assert after[i] == s[k + 1 + i];
    }
    FilterKeepsAll(after, c);
  }

  // ---------------------------------------------------------------------
  // reduce

  /** `count`: the sum of the quantities of all lines. */
  function Count(s: seq<CartItem>): (n: int)
    ensures AllPositive(s) ==> n >= |s|
  {
    if s == [] then 0 else s[0].quantity + Count(s[1..])
  }

  /** What one line adds to `total`. */
  function LineTotal(x: CartItem): int
  {
    x.price * x.quantity
  }

  /** One more of a line adds its price to its share of `total`. */
  lemma LineTotalBump(x: CartItem)
    ensures LineTotal(x.(quantity := x.quantity + 1)) == LineTotal(x) + x.price
  {
  }

  /** `total`: the sum of price times quantity over all lines. */
  function Total(s: seq<CartItem>): (t: int)
    ensures AllPositive(s) && (forall i :: 0 <= i < |s| ==> s[i].price >= 0) ==> t >= 0
  {
    if s == [] then 0 else LineTotal(s[0]) + Total(s[1..])
  }

  lemma {:induction false} CountAppend(a: seq<CartItem>, b: seq<CartItem>)
    ensures Count(a + b) == Count(a) + Count(b)
  {
    if a == [] {
      assert a + b == b;
    } else {
      assert (a + b)[1..] == a[1..] + b;
      CountAppend(a[1..], b);
    }
  }

  lemma {:induction false} TotalAppend(a: seq<CartItem>, b: seq<CartItem>)
    ensures Total(a + b) == Total(a) + Total(b)
  {
    if a == [] {
      assert a + b == b;
    } else {
      assert (a + b)[1..] == a[1..] + b;
      TotalAppend(a[1..], b);
    }
  }

  /** Replacing the line at `k` by the lines `mid` changes the sums by
      the difference of those lines alone. */
  lemma SpliceSums(s: seq<CartItem>, k: nat, mid: seq<CartItem>)
    requires k < |s|
    ensures Count(s[..k] + mid + s[k + 1..]) == Count(s) - s[k].quantity + Count(mid)
    ensures Total(s[..k] + mid + s[k + 1..])
            == Total(s) - LineTotal(s[k]) + Total(mid)
  {
    assert s == s[..k] + [s[k]] + s[k + 1..];
    CountAppend(s[..k] + [s[k]], s[k + 1..]);
    CountAppend(s[..k], [s[k]]);
    CountAppend(s[..k] + mid, s[k + 1..]);
    CountAppend(s[..k], mid);
    TotalAppend(s[..k] + [s[k]], s[k + 1..]);
    TotalAppend(s[..k], [s[k]]);
    TotalAppend(s[..k] + mid, s[k + 1..]);
    TotalAppend(s[..k], mid);
  }

  /** Under the cart invariant the cart is empty exactly when `count` is 0. */
  lemma {:induction false} CountZeroIffEmpty(s: seq<CartItem>)
    requires AllPositive(s)
    ensures Count(s) == 0 <==> s == []
  {
    if s != [] {
      assert Count(s[1..]) >= 0;
    }
  }

  // ---------------------------------------------------------------------
  // addToCart

  /** The `map` of `addToCart`: one more of every line carrying `id`. */
  function Increment(s: seq<CartItem>, id: string): (r: seq<CartItem>)
    ensures |r| == |s|
    ensures forall i :: 0 <= i < |s| ==> r[i].(quantity := s[i].quantity) == s[i]
    ensures forall i :: 0 <= i < |s| && s[i].id == id ==> r[i].quantity == s[i].quantity + 1
    ensures forall i :: 0 <= i < |s| && s[i].id != id ==> r[i] == s[i]
    ensures !HasId(s, id) ==> r == s
  {
    seq(|s|, i requires 0 <= i < |s| =>
      if s[i].id == id then s[i].(quantity := s[i].quantity + 1) else s[i])
  }

  /** `addToCart(p)`: bump the existing line, or append a new line of
      quantity 1. */
  function AddTo(s: seq<CartItem>, p: Product): (r: seq<CartItem>)
    ensures HasId(r, p.id)
    ensures |r| == if HasId(s, p.id) then |s| else |s| + 1
    ensures forall i :: 0 <= i < |s| ==> r[i].(quantity := s[i].quantity) == s[i]
  {
    match FindIndex(s, p.id)
    case Some(k) =>
      var r := Increment(s, p.id);
      assert r[k].id == p.id;
      r
    case None =>
      var r := s + [LineOf(p, 1)];
      assert r[|s|].id == p.id;
      r
  }

  /** A new id is appended at the end with quantity 1, the existing lines
      untouched and in order; `count` rises by 1 and `total` by the price. */
  lemma AddAbsent(s: seq<CartItem>, p: Product)
    requires !HasId(s, p.id)
    ensures AddTo(s, p) == s + [LineOf(p, 1)]
    ensures AddTo(s, p)[..|s|] == s && AddTo(s, p)[|s|].quantity == 1
    ensures Count(AddTo(s, p)) == Count(s) + 1
    ensures Total(AddTo(s, p)) == Total(s) + p.price
  {
    CountAppend(s, [LineOf(p, 1)]);
    TotalAppend(s, [LineOf(p, 1)]);
  }

  /** With unique ids, the `map` of `addToCart` touches line `k` alone. */
  lemma IncrementAt(s: seq<CartItem>, k: nat)
    requires UniqueIds(s) && k < |s|
    ensures Increment(s, s[k].id) == s[k := s[k].(quantity := s[k].quantity + 1)]
  {
  }

  /** A present id: the list keeps its length and order, the matching line
      gains exactly 1 and keeps its own name, price, image and restaurant
      (not the new descriptor's), every other line is unchanged, `count`
      rises by 1 and `total` by that line's own price. */
  lemma AddPresent(s: seq<CartItem>, p: Product, k: nat)
    requires UniqueIds(s)
    requires k < |s| && s[k].id == p.id
    ensures AddTo(s, p) == s[k := s[k].(quantity := s[k].quantity + 1)]
    ensures Count(AddTo(s, p)) == Count(s) + 1
    ensures Total(AddTo(s, p)) == Total(s) + s[k].price
  {
    assert FindIndex(s, p.id).Some?;
    IncrementAt(s, k);
    BumpSums(s, k);
  }

  /** One more of line `k` adds 1 to `count` and its price to `total`. */
  lemma BumpSums(s: seq<CartItem>, k: nat)
    requires k < |s|
    ensures Count(s[k := s[k].(quantity := s[k].quantity + 1)]) == Count(s) + 1
    ensures Total(s[k := s[k].(quantity := s[k].quantity + 1)]) == Total(s) + s[k].price
  {
    var bumped := s[k].(quantity := s[k].quantity + 1);
    assert s[k := bumped] == s[..k] + [bumped] + s[k + 1..];
    SpliceSums(s, k, [bumped]);
    assert Count([bumped]) == bumped.quantity;
    assert Total([bumped]) == LineTotal(bumped);
    LineTotalBump(s[k]);
  }

  /** With unique ids, every `addToCart` adds exactly 1 to `count`. */
  lemma AddCount(s: seq<CartItem>, p: Product)
    requires UniqueIds(s)
    ensures Count(AddTo(s, p)) == Count(s) + 1
  {
    match FindIndex(s, p.id)
    case None => AddAbsent(s, p);
    case Some(k) => AddPresent(s, p, k);
  }

  lemma AddPreservesValid(s: seq<CartItem>, p: Product)
    requires Valid(s)
    ensures Valid(AddTo(s, p))
  {
    if !HasId(s, p.id) {
      AddAbsent(s, p);
    }
  }

  /** Adding the same new product twice yields one line of quantity 2. */
  lemma AddTwice(s: seq<CartItem>, p: Product)
    requires !HasId(s, p.id)
    ensures AddTo(AddTo(s, p), p) == s + [LineOf(p, 2)]
  {
    AddAbsent(s, p);
    var once := s + [LineOf(p, 1)];
    assert once[|s|].id == p.id;
    assert FindIndex(once, p.id).Some?;
    assert Increment(once, p.id) == s + [LineOf(p, 2)];
  }

  // ---------------------------------------------------------------------
  // removeFromCart

  /** `removeFromCart(id)`: the `filter` dropping that id. */
  function RemoveId(s: seq<CartItem>, id: string): (r: seq<CartItem>)
    ensures !HasId(r, id)
    ensures forall x :: x in r <==> x in s && x.id != id
  {
    var r := Filter(s, IdOtherThan(id));
    FilterMembers(s, IdOtherThan(id));
    assert forall i :: 0 <= i < |r| ==> r[i] in r;
    r
  }

  /** Removing an absent id changes nothing. */
  lemma RemoveAbsent(s: seq<CartItem>, id: string)
    requires !HasId(s, id)
    ensures RemoveId(s, id) == s
  {
    FilterKeepsAll(s, IdOtherThan(id));
  }

  lemma RemoveIdempotent(s: seq<CartItem>, id: string)
    ensures RemoveId(RemoveId(s, id), id) == RemoveId(s, id)
  {
    RemoveAbsent(RemoveId(s, id), id);
  }

  /** With unique ids, removing the id of line `k` removes exactly that
      line and keeps the others in their order. */
  lemma RemoveAt(s: seq<CartItem>, k: nat)
    requires UniqueIds(s) && k < |s|
    ensures RemoveId(s, s[k].id) == s[..k] + s[k + 1..]
  {
    var c := IdOtherThan(s[k].id);
    FilterAllBut(s, k, c);
    assert Filter([s[k]], c) == [];
    assert s[..k] + [] + s[k + 1..] == s[..k] + s[k + 1..];
  }

  /** Removing line `k` of a cart with unique ids takes that line's share
      off `count` and `total`. */
  lemma RemoveSums(s: seq<CartItem>, k: nat)
    requires UniqueIds(s) && k < |s|
    ensures Count(RemoveId(s, s[k].id)) == Count(s) - s[k].quantity
    ensures Total(RemoveId(s, s[k].id)) == Total(s) - LineTotal(s[k])
  {
    var r := RemoveId(s, s[k].id);
    RemoveAt(s, k);
    assert r == s[..k] + [] + s[k + 1..];
    SpliceSums(s, k, []);
    assert Count([]) == 0 && Total([]) == 0;
  }

  lemma RemovePreservesValid(s: seq<CartItem>, id: string)
    requires Valid(s)
    ensures Valid(RemoveId(s, id))
  {
    FilterUnique(s, IdOtherThan(id));
    var r := RemoveId(s, id);
    assert forall i :: 0 <= i < |r| ==> r[i] in s;
  }

  // ---------------------------------------------------------------------
  // updateQuantity

  /** The `map` of `updateQuantity`: lines carrying `id` get
      `Math.max(0, quantity + delta)`. */
  function Adjust(s: seq<CartItem>, id: string, delta: int): (r: seq<CartItem>)
    ensures |r| == |s|
    ensures forall i :: 0 <= i < |s| ==> r[i].(quantity := s[i].quantity) == s[i]
    ensures forall i :: 0 <= i < |s| && s[i].id == id ==> r[i].quantity == Max(0, s[i].quantity + delta)
    ensures forall i :: 0 <= i < |s| && s[i].id != id ==> r[i] == s[i]
    ensures forall i :: 0 <= i < |s| && s[i].id == id ==> r[i].quantity >= 0
  {
    seq(|s|, i requires 0 <= i < |s| =>
      if s[i].id == id then s[i].(quantity := Max(0, s[i].quantity + delta)) else s[i])
  }

  /** `updateQuantity(id, delta)`: adjust, then drop every line whose
      quantity is not positive. */
  function UpdateQuantityOf(s: seq<CartItem>, id: string, delta: int): (r: seq<CartItem>)
    ensures AllPositive(r)
    ensures |r| <= |s|
    ensures forall i :: 0 <= i < |r| ==> HasId(s, r[i].id)
  {
    var a := Adjust(s, id, delta);
    var r := Filter(a, QuantityPositive);
    FilterMembers(a, QuantityPositive);
    forall i | 0 <= i < |r|
      ensures r[i].quantity >= 1 && HasId(s, r[i].id)
    {
      assert r[i] in r;
      var j :| 0 <= j < |a| && a[j] == r[i];
      assert s[j].id == r[i].id;
    }
    r
  }

  /** On an absent id, a cart whose quantities are all positive is left
      unchanged. */
  lemma UpdateAbsent(s: seq<CartItem>, id: string, delta: int)
    requires AllPositive(s) && !HasId(s, id)
    ensures UpdateQuantityOf(s, id, delta) == s
  {
    assert Adjust(s, id, delta) == s;
    FilterKeepsAll(s, QuantityPositive);
  }

  /** On the line at `k` of a valid cart: its quantity becomes
      max(0, q + delta), it is removed when that is 0, and the other lines
      stay as they were and in order. */
  lemma UpdateAt(s: seq<CartItem>, k: nat, delta: int)
    requires Valid(s) && k < |s|
    ensures UpdateQuantityOf(s, s[k].id, delta)
            == WithQuantityAt(s, k, Max(0, s[k].quantity + delta))
  {
    var nq := Max(0, s[k].quantity + delta);
    var line := s[k].(quantity := nq);
    var a := Adjust(s, s[k].id, delta);
    assert a == s[k := line];
    assert a[..k] == s[..k] && a[k + 1..] == s[k + 1..];
    FilterAllBut(a, k, QuantityPositive);
    assert Filter([line], QuantityPositive) == if nq > 0 then [line] else [];
  }

  /** `updateQuantity` on line `k` changes `count` by that line's
      difference alone. */
  lemma UpdateCount(s: seq<CartItem>, k: nat, delta: int)
    requires Valid(s) && k < |s|
    ensures Count(UpdateQuantityOf(s, s[k].id, delta))
            == Count(s) - s[k].quantity + Max(0, s[k].quantity + delta)
  {
    UpdateAt(s, k, delta);
    SetQuantityCount(s, k, Max(0, s[k].quantity + delta));
  }

  /** `updateQuantity` on line `k` replaces that line's share of `total`
      by the share of the line with its new quantity (none when it is
      removed): price times max(0, q + delta) instead of price times q. */
  lemma UpdateTotal(s: seq<CartItem>, k: nat, delta: int)
    requires Valid(s) && k < |s|
    ensures Total(UpdateQuantityOf(s, s[k].id, delta))
            == Total(s) - LineTotal(s[k])
               + LineTotal(s[k].(quantity := Max(0, s[k].quantity + delta)))
  {
    UpdateAt(s, k, delta);
    SetQuantityTotal(s, k, Max(0, s[k].quantity + delta));
  }

  /** The lines left when line `k` gets the quantity `nq` and is dropped
      if that is 0. */
  function WithQuantityAt(s: seq<CartItem>, k: nat, nq: int): seq<CartItem>
    requires k < |s|
  {
    s[..k] + (if nq > 0 then [s[k].(quantity := nq)] else []) + s[k + 1..]
  }

  lemma SetQuantityCount(s: seq<CartItem>, k: nat, nq: nat)
    requires k < |s|
    ensures Count(WithQuantityAt(s, k, nq)) == Count(s) - s[k].quantity + nq
  {
    var mid := if nq > 0 then [s[k].(quantity := nq)] else [];
    SpliceSums(s, k, mid);
    assert Count(mid) == nq;
  }

  lemma SetQuantityTotal(s: seq<CartItem>, k: nat, nq: nat)
    requires k < |s|
    ensures Total(WithQuantityAt(s, k, nq))
            == Total(s) - LineTotal(s[k]) + LineTotal(s[k].(quantity := nq))
  {
    var mid := if nq > 0 then [s[k].(quantity := nq)] else [];
    SpliceSums(s, k, mid);
    assert Total(mid) == LineTotal(s[k].(quantity := nq)) by {
      if nq == 0 {
        assert LineTotal(s[k].(quantity := nq)) == s[k].price * 0;
      }
    }
  }

  /** Decrementing a line of quantity 1 removes it. */
  lemma DecrementLastRemoves(s: seq<CartItem>, k: nat)
    requires Valid(s) && k < |s| && s[k].quantity == 1
    ensures UpdateQuantityOf(s, s[k].id, -1) == s[..k] + s[k + 1..]
    ensures !HasId(UpdateQuantityOf(s, s[k].id, -1), s[k].id)
  {
    UpdateAt(s, k, -1);
    var r := s[..k] + s[k + 1..];
    forall i | 0 <= i < |r|
      ensures r[i].id != s[k].id
    {
      if i < k { assert r[i] == s[i]; } else { assert r[i] == s[i + 1]; }
    }
  }

  lemma UpdatePreservesValid(s: seq<CartItem>, id: string, delta: int)
    requires Valid(s)
    ensures Valid(UpdateQuantityOf(s, id, delta))
  {
    var a := Adjust(s, id, delta);
    assert UniqueIds(a) by {
      forall i, j | 0 <= i < j < |a|
        ensures a[i].id != a[j].id
      {
        assert a[i].id == s[i].id && a[j].id == s[j].id;
      }
    }
    FilterUnique(a, QuantityPositive);
  }

  // ---------------------------------------------------------------------
  // sequences of user actions

  /** One call of a cart mutator. */
  datatype CartAction =
    | AddToCart(item: Product)
    | RemoveFromCart(itemId: string)
    | UpdateQuantity(itemId: string, delta: int)
    | ClearCart

  function Apply(s: seq<CartItem>, a: CartAction): seq<CartItem>
  {
    match a
    case AddToCart(p) => AddTo(s, p)
    case RemoveFromCart(id) => RemoveId(s, id)
    case UpdateQuantity(id, delta) => UpdateQuantityOf(s, id, delta)
    case ClearCart => []
  }

  function Replay(s: seq<CartItem>, actions: seq<CartAction>): seq<CartItem>
    decreases |actions|
  {
    if actions == [] then s else Replay(Apply(s, actions[0]), actions[1..])
  }

  /** Every mutator keeps the cart invariant. */
  lemma ApplyPreservesValid(s: seq<CartItem>, a: CartAction)
    requires Valid(s)
    ensures Valid(Apply(s, a))
  {
    match a
    case AddToCart(p) => AddPreservesValid(s, p);
    case RemoveFromCart(id) => RemovePreservesValid(s, id);
    case UpdateQuantity(id, delta) => UpdatePreservesValid(s, id, delta);
    case ClearCart =>
  }

  /** Starting from a valid cart (the empty one in particular), any sequence
      of mutator calls leaves unique ids, no line with quantity below 1,
      and a `count` no smaller than the number of lines. */
  lemma {:induction false} ReplayPreservesValid(s: seq<CartItem>, actions: seq<CartAction>)
    requires Valid(s)
    ensures Valid(Replay(s, actions))
    ensures Count(Replay(s, actions)) >= |Replay(s, actions)|
    decreases |actions|
  {
    if actions != [] {
      ApplyPreservesValid(s, actions[0]);
      ReplayPreservesValid(Apply(s, actions[0]), actions[1..]);
    }
  }
}
