/** The cart aggregate as pure transformations of the cart list: the bodies of
    the root component's `addToCart`, `updateQuantity` and `removeFromCart`
    state updates, and the totals derived from the cart. */
module CartOps {
  import opened Types
  import opened Seqs
  import Catalog

  /** The flat delivery fee added at checkout, in dong. */
  const DeliveryFee: int := 15000

  predicate HasId(c: seq<CartItem>, id: string)
  {
    exists j :: 0 <= j < |c| && c[j].Id() == id
  }

  predicate UniqueIds(c: seq<CartItem>)
  {
    forall i, j :: 0 <= i < j < |c| ==> c[i].Id() != c[j].Id()
  }

  predicate AllPositive(c: seq<CartItem>)
  {
    forall j :: 0 <= j < |c| ==> c[j].quantity > 0
  }

  /** The cart invariant: one entry per menu item, and no entry with quantity 0 or less. */
  predicate ValidCart(c: seq<CartItem>)
  {
    UniqueIds(c) && AllPositive(c)
  }

  // ---------------------------------------------------------------------------
  // Element functions passed to map, filter and reduce

  function Quantity(ci: CartItem): int { ci.quantity }

  /** What one cart line contributes to the subtotal. */
  function LineTotal(ci: CartItem): int { ci.item.price * ci.quantity }

  function Positive(ci: CartItem): bool { ci.quantity > 0 }

  function Increment(q: int): int { q + 1 }

  function Max0(x: int): int { if x < 0 then 0 else x }

  /** `Math.max(0, q + delta)` as a function of q. */
  function ClampAdd(delta: int): int -> int
  {
    q => Max0(q + delta)
  }

  /** The filter predicate `item.id !== id`. */
  function OtherId(id: string): CartItem -> bool
  {
    (ci: CartItem) => ci.Id() != id
  }

  /** `prev.map(i => i.id === id ? { ...i, quantity: f(i.quantity) } : i)`:
      every entry with the id gets its quantity through f; nothing else moves. */
  function WithQuantity(c: seq<CartItem>, id: string, f: int -> int): (r: seq<CartItem>)
    ensures |r| == |c|
    ensures forall j :: 0 <= j < |c| ==> r[j].item == c[j].item
    ensures forall j :: 0 <= j < |c| ==>
      r[j].quantity == if c[j].Id() == id then f(c[j].quantity) else c[j].quantity
  {
    seq(|c|, j requires 0 <= j < |c| =>
      if c[j].Id() == id then c[j].(quantity := f(c[j].quantity)) else c[j])
  }

  /** With unique ids the map touches exactly the one entry carrying the id. */
  lemma WithQuantityAt(c: seq<CartItem>, k: int, f: int -> int)
    requires UniqueIds(c) && 0 <= k < |c|
    ensures WithQuantity(c, c[k].Id(), f) == c[k := c[k].(quantity := f(c[k].quantity))]
  {
  }

  lemma WithQuantityAbsent(c: seq<CartItem>, id: string, f: int -> int)
    requires !HasId(c, id)
    ensures WithQuantity(c, id, f) == c
  {
  }

  // ---------------------------------------------------------------------------
  // addToCart

  /** Add-with-merge: an item already in the cart has its quantity raised by one
      (keeping the stored fields); a new item is appended with quantity 1. */
  function AddToCart(c: seq<CartItem>, item: MenuItem): (r: seq<CartItem>)
    ensures HasId(c, item.id) ==> |r| == |c|
    ensures HasId(c, item.id) ==> forall j :: 0 <= j < |c| ==>
      r[j].item == c[j].item && r[j].quantity == c[j].quantity + (if c[j].Id() == item.id then 1 else 0)
    ensures !HasId(c, item.id) ==> r == c + [CartItem(item, 1)]
  {
    if HasId(c, item.id) then WithQuantity(c, item.id, Increment)
    else c + [CartItem(item, 1)]
  }

  /** Adding keeps ids unique and quantities positive. */
  lemma AddToCartKeepsValid(c: seq<CartItem>, item: MenuItem)
    requires ValidCart(c)
    ensures ValidCart(AddToCart(c, item))
  {
  }

  /** Adding an item that is in the cart at position k bumps exactly that entry. */
  lemma AddToCartExisting(c: seq<CartItem>, item: MenuItem, k: int)
    requires UniqueIds(c) && 0 <= k < |c| && c[k].Id() == item.id
    ensures AddToCart(c, item) == c[k := c[k].(quantity := c[k].quantity + 1)]
    ensures ItemCount(AddToCart(c, item)) == ItemCount(c) + 1
    ensures Subtotal(AddToCart(c, item)) == Subtotal(c) + c[k].item.price
  {
    WithQuantityAt(c, k, Increment);
    SumOfUpdate(c, k, c[k].(quantity := c[k].quantity + 1), Quantity);
    SumOfUpdate(c, k, c[k].(quantity := c[k].quantity + 1), LineTotal);
  }

  /** Adding a new item grows the count by one and the subtotal by its price. */
  lemma AddToCartNew(c: seq<CartItem>, item: MenuItem)
    requires !HasId(c, item.id)
    ensures ItemCount(AddToCart(c, item)) == ItemCount(c) + 1
    ensures Subtotal(AddToCart(c, item)) == Subtotal(c) + item.price
  {
    assert (c + [CartItem(item, 1)])[..|c|] == c;
  }

  /** Whatever the cart holds, one add raises the badge count by exactly one. */
  lemma AddToCartCount(c: seq<CartItem>, item: MenuItem)
    requires UniqueIds(c)
    ensures ItemCount(AddToCart(c, item)) == ItemCount(c) + 1
  {
    if HasId(c, item.id) {
      var k :| 0 <= k < |c| && c[k].Id() == item.id;
      AddToCartExisting(c, item, k);
    } else {
      AddToCartNew(c, item);
    }
  }

  /** The cart reached from an empty cart by adding `item` n times. */
  function AddTimes(item: MenuItem, n: nat): seq<CartItem>
  {
    if n == 0 then [] else AddToCart(AddTimes(item, n - 1), item)
  }

  /** Adding the same item n times to an empty cart yields one entry of quantity n. */
  lemma {:induction false} AddRepeatedly(item: MenuItem, n: nat)
    requires n >= 1
    ensures AddTimes(item, n) == [CartItem(item, n)]
  {
    if n > 1 {
      AddRepeatedly(item, n - 1);
      AddToCartExisting([CartItem(item, n - 1)], item, 0);
    }
  }

  // ---------------------------------------------------------------------------
  // updateQuantity

  /** Sets every entry with the id to `max(0, q + delta)`, then drops every
      entry whose quantity is not positive. */
  function UpdateQuantity(c: seq<CartItem>, id: string, delta: int): (r: seq<CartItem>)
    ensures AllPositive(r)
    ensures |r| <= |c|
  {
    Filter(WithQuantity(c, id, ClampAdd(delta)), Positive)
  }

  /** The list with position k cut out is still a valid cart. */
  lemma CutKeepsValid(c: seq<CartItem>, k: int)
    requires ValidCart(c) && 0 <= k < |c|
    ensures ValidCart(c[..k] + c[k + 1..])
  {
  }

  /** The entry at position k ends at `q + delta`, or disappears when that is not
      positive; every other entry stays where it was, unchanged. */
  lemma UpdateQuantityAt(c: seq<CartItem>, k: int, delta: int)
    requires ValidCart(c) && 0 <= k < |c|
    ensures UpdateQuantity(c, c[k].Id(), delta) ==
      if c[k].quantity + delta > 0 then c[k := c[k].(quantity := c[k].quantity + delta)]
      else c[..k] + c[k + 1..]
  {
    if c[k].quantity + delta > 0 {
      UpdateKeepsEntry(c, k, delta);
    } else {
      UpdateDropsEntry(c, k, delta);
    }
  }

  lemma UpdateKeepsEntry(c: seq<CartItem>, k: int, delta: int)
    requires ValidCart(c) && 0 <= k < |c| && c[k].quantity + delta > 0
    ensures UpdateQuantity(c, c[k].Id(), delta) == c[k := c[k].(quantity := c[k].quantity + delta)]
  {
    var w := c[k := c[k].(quantity := c[k].quantity + delta)];
    assert ClampAdd(delta)(c[k].quantity) == c[k].quantity + delta;
    WithQuantityAt(c, k, ClampAdd(delta));
    FilterAll(w, Positive);
  }

  lemma UpdateDropsEntry(c: seq<CartItem>, k: int, delta: int)
    requires ValidCart(c) && 0 <= k < |c| && c[k].quantity + delta <= 0
    ensures UpdateQuantity(c, c[k].Id(), delta) == c[..k] + c[k + 1..]
  {
    var w := c[k := c[k].(quantity := 0)];
    assert Max0(c[k].quantity + delta) == 0;
    assert ClampAdd(delta)(c[k].quantity) == 0;
    WithQuantityAt(c, k, ClampAdd(delta));
    FilterCutsOne(w, k, Positive);
    assert w[..k] == c[..k] && w[k + 1..] == c[k + 1..];
  }

  /** An id that is not in the cart leaves the cart unchanged. */
  lemma UpdateQuantityAbsent(c: seq<CartItem>, id: string, delta: int)
    requires AllPositive(c) && !HasId(c, id)
    ensures UpdateQuantity(c, id, delta) == c
  {
    WithQuantityAbsent(c, id, ClampAdd(delta));
    FilterAll(c, Positive);
  }

  /** A quantity update keeps the cart invariant. */
  lemma UpdateQuantityKeepsValid(c: seq<CartItem>, id: string, delta: int)
    requires ValidCart(c)
    ensures ValidCart(UpdateQuantity(c, id, delta))
  {
    if HasId(c, id) {
      var k :| 0 <= k < |c| && c[k].Id() == id;
      if c[k].quantity + delta > 0 {
        UpdateKeepsEntry(c, k, delta);
      } else {
        UpdateDropsEntry(c, k, delta);
        CutKeepsValid(c, k);
      }
    } else {
      UpdateQuantityAbsent(c, id, delta);
    }
  }

  /** Lowering an entry by its whole quantity removes it: zero-quantity
      entries are never observable. */
  lemma UpdateToZeroRemoves(c: seq<CartItem>, k: int)
    requires ValidCart(c) && 0 <= k < |c|
    ensures !HasId(UpdateQuantity(c, c[k].Id(), -c[k].quantity), c[k].Id())
  {
    UpdateDropsEntry(c, k, -c[k].quantity);
    var r := c[..k] + c[k + 1..];
    forall j | 0 <= j < |r| ensures r[j].Id() != c[k].Id() {
      if j < k {
        assert r[j] == c[j];
      } else {
        assert r[j] == c[j + 1];
      }
    }
  }

  /** The badge count and the subtotal follow the one entry that changed. */
  lemma UpdateQuantityTotals(c: seq<CartItem>, k: int, delta: int)
    requires ValidCart(c) && 0 <= k < |c|
    ensures ItemCount(UpdateQuantity(c, c[k].Id(), delta)) ==
      ItemCount(c) - c[k].quantity + Max0(c[k].quantity + delta)
    ensures Subtotal(UpdateQuantity(c, c[k].Id(), delta)) ==
      Subtotal(c) - LineTotal(c[k]) + c[k].item.price * Max0(c[k].quantity + delta)
  {
    var q, price := c[k].quantity, c[k].item.price;
    if q + delta > 0 {
      var e := c[k].(quantity := q + delta);
      UpdateKeepsEntry(c, k, delta);
      SumOfUpdate(c, k, e, Quantity);
      SumOfUpdate(c, k, e, LineTotal);
      assert LineTotal(e) == price * Max0(q + delta);
    } else {
      UpdateDropsEntry(c, k, delta);
      SumOfCut(c, k, Quantity);
      SumOfCut(c, k, LineTotal);
      assert price * Max0(q + delta) == 0;
    }
  }

  /** The minus button undoes an add: adding an item and then lowering it by one
      gives back the cart one started with. */
  lemma AddThenDecrement(c: seq<CartItem>, item: MenuItem)
    requires ValidCart(c)
    ensures UpdateQuantity(AddToCart(c, item), item.id, -1) == c
  {
    AddToCartKeepsValid(c, item);
    if HasId(c, item.id) {
      var k :| 0 <= k < |c| && c[k].Id() == item.id;
      DecrementAfterBump(c, item, k);
    } else {
      DecrementAfterAppend(c, item);
    }
  }

  lemma DecrementAfterBump(c: seq<CartItem>, item: MenuItem, k: int)
    requires ValidCart(c) && 0 <= k < |c| && c[k].Id() == item.id
    requires ValidCart(AddToCart(c, item))
    ensures UpdateQuantity(AddToCart(c, item), item.id, -1) == c
  {
    var r := AddToCart(c, item);
    AddToCartExisting(c, item, k);
    UpdateQuantityAt(r, k, -1);
    assert r[k := r[k].(quantity := r[k].quantity - 1)] == c;
  }

  lemma DecrementAfterAppend(c: seq<CartItem>, item: MenuItem)
    requires ValidCart(c) && !HasId(c, item.id)
    requires ValidCart(AddToCart(c, item))
    ensures UpdateQuantity(AddToCart(c, item), item.id, -1) == c
  {
    var r := AddToCart(c, item);
    assert r[|c|].Id() == item.id;
    UpdateQuantityAt(r, |c|, -1);
    assert r[..|c|] + r[|c| + 1..] == c;
  }

  /** For an item already in the cart, the plus button does what add-to-cart does. */
  lemma IncrementMatchesAdd(c: seq<CartItem>, item: MenuItem)
    requires ValidCart(c) && HasId(c, item.id)
    ensures UpdateQuantity(c, item.id, 1) == AddToCart(c, item)
  {
    var k :| 0 <= k < |c| && c[k].Id() == item.id;
    UpdateQuantityAt(c, k, 1);
    AddToCartExisting(c, item, k);
  }

  // ---------------------------------------------------------------------------
  // removeFromCart

  /** Drops every entry with the id and keeps the rest in order. */
  function RemoveFromCart(c: seq<CartItem>, id: string): (r: seq<CartItem>)
    ensures !HasId(r, id)
    ensures forall x :: x in r <==> x in c && x.Id() != id
  {
    Filter(c, OtherId(id))
  }

  /** Removing an id that is not in the cart leaves the cart unchanged. */
  lemma RemoveAbsent(c: seq<CartItem>, id: string)
    requires !HasId(c, id)
    ensures RemoveFromCart(c, id) == c
  {
    FilterAll(c, OtherId(id));
  }

  /** With unique ids, removal cuts out exactly the one entry and its share of the totals. */
  lemma RemoveAt(c: seq<CartItem>, k: int)
    requires UniqueIds(c) && 0 <= k < |c|
    ensures RemoveFromCart(c, c[k].Id()) == c[..k] + c[k + 1..]
    ensures ItemCount(RemoveFromCart(c, c[k].Id())) == ItemCount(c) - c[k].quantity
    ensures Subtotal(RemoveFromCart(c, c[k].Id())) == Subtotal(c) - LineTotal(c[k])
  {
    FilterCutsOne(c, k, OtherId(c[k].Id()));
    SumOfCut(c, k, Quantity);
    SumOfCut(c, k, LineTotal);
  }

  /** Removal keeps the cart invariant. */
  lemma RemoveKeepsValid(c: seq<CartItem>, id: string)
    requires ValidCart(c)
    ensures ValidCart(RemoveFromCart(c, id))
  {
    if HasId(c, id) {
      var k :| 0 <= k < |c| && c[k].Id() == id;
      RemoveAt(c, k);
      CutKeepsValid(c, k);
    } else {
      RemoveAbsent(c, id);
    }
  }

  /** Removing a freshly added item gives back the cart one started with. */
  lemma RemoveAfterAdd(c: seq<CartItem>, item: MenuItem)
    requires !HasId(c, item.id)
    ensures RemoveFromCart(AddToCart(c, item), item.id) == c
  {
    var r := c + [CartItem(item, 1)];
    FilterConcat(c, [CartItem(item, 1)], OtherId(item.id));
    FilterAll(c, OtherId(item.id));
    FilterNone([CartItem(item, 1)], OtherId(item.id));
    assert c + [] == c;
  }

  // ---------------------------------------------------------------------------
  // Totals

  /** `cart.reduce((sum, item) => sum + item.price * item.quantity, 0)`. */
  function Subtotal(c: seq<CartItem>): int
  {
    SumOf(c, LineTotal)
  }

  /** The amount shown as payable at checkout. */
  function Payable(c: seq<CartItem>): int
  {
    Subtotal(c) + DeliveryFee
  }

  /** The navbar badge: `cart.reduce((a, b) => a + b.quantity, 0)`. */
  function ItemCount(c: seq<CartItem>): int
  {
    SumOf(c, Quantity)
  }

  /** In a valid cart the badge count is at least the number of lines, and it
      is zero exactly when the cart is empty. */
  lemma ItemCountBounds(c: seq<CartItem>)
    requires AllPositive(c)
    ensures ItemCount(c) >= |c|
    ensures ItemCount(c) == 0 <==> c == []
  {
    SumOfLowerBound(c, Quantity, 1);
  }

  /** With non-negative prices and quantities the subtotal is non-negative and
      the payable amount is at least the delivery fee. */
  lemma TotalsNonNegative(c: seq<CartItem>)
    requires forall j :: 0 <= j < |c| ==> c[j].item.price >= 0 && c[j].quantity >= 0
    ensures Subtotal(c) >= 0
    ensures Payable(c) >= DeliveryFee
  {
    forall j | 0 <= j < |c| ensures LineTotal(c[j]) >= 0 {
      assert c[j].item.price >= 0 && c[j].quantity >= 0;
    }
    SumOfLowerBound(c, LineTotal, 0);
  }

  /** An empty cart: nothing to pay for the food, only the delivery fee, and no badge. */
  lemma EmptyCartTotals()
    ensures Subtotal([]) == 0 && Payable([]) == 15000 && ItemCount([]) == 0
  {
  }

  /** A cart holding one m1 at 65000: adding m1 again merges into quantity 2,
      the subtotal is 130000 and 145000 is payable. */
  lemma PhoTwiceScenario()
    ensures AddToCart([CartItem(Catalog.PhoTaiLan, 1)], Catalog.PhoTaiLan) == [CartItem(Catalog.PhoTaiLan, 2)]
    ensures Subtotal([CartItem(Catalog.PhoTaiLan, 2)]) == 130000
    ensures Payable([CartItem(Catalog.PhoTaiLan, 2)]) == 145000
    ensures ItemCount([CartItem(Catalog.PhoTaiLan, 2)]) == 2
  {
    var one := [CartItem(Catalog.PhoTaiLan, 1)];
    AddToCartExisting(one, Catalog.PhoTaiLan, 0);
    var two := [CartItem(Catalog.PhoTaiLan, 2)];
    assert two[..0] == [];
    assert SumOf(two, LineTotal) == LineTotal(two[0]);
    assert SumOf(two, Quantity) == Quantity(two[0]);
  }

  // ---------------------------------------------------------------------------
  // Sequences of cart operations

  /** The cart mutations the root component offers its children. */
  datatype CartOp =
    | Add(item: MenuItem)
    | Update(id: string, delta: int)
    | Remove(id: string)
    | Clear

  function Apply(c: seq<CartItem>, op: CartOp): seq<CartItem>
  {
    match op
    case Add(item) => AddToCart(c, item)
    case Update(id, delta) => UpdateQuantity(c, id, delta)
    case Remove(id) => RemoveFromCart(c, id)
    case Clear => []
  }

  function Run(c: seq<CartItem>, ops: seq<CartOp>): seq<CartItem>
    decreases ops
  {
    if ops == [] then c else Run(Apply(c, ops[0]), ops[1..])
  }

  /** No sequence of cart operations ever produces two entries with the same id
      or an entry with a non-positive quantity. */
  lemma {:induction false} RunKeepsValid(c: seq<CartItem>, ops: seq<CartOp>)
    requires ValidCart(c)
    ensures ValidCart(Run(c, ops))
    decreases ops
  {
    if ops != [] {
      match ops[0] {
        case Add(item) => AddToCartKeepsValid(c, item);
        case Update(id, delta) => UpdateQuantityKeepsValid(c, id, delta);
        case Remove(id) => RemoveKeepsValid(c, id);
        case Clear =>
      }
      RunKeepsValid(Apply(c, ops[0]), ops[1..]);
    }
  }
}
