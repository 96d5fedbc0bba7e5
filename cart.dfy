/**
 The shopping cart of the storefront: its lines, the badge count, and the two
 state transitions (add one unit of a product, remove one unit of a product).
 Each transition is the pure updater that the component hands to its state
 hook: it maps the previous cart to the next one and never mutates the old one.
 */
module ShoppingCart {

  datatype Option<T> = None | Some(value: T)

  /** A JavaScript number kept as its IEEE-754 bit pattern; the cart never computes on prices. */
  datatype Price = Price(bits: bv64)

  /** One cart line: the product's fields plus the quantity held in the cart. */
  datatype CartItem = CartItem(
    id: int,
    category: string,
    description: string,
    image: string,
    price: Price,
    title: string,
    amount: int)

  /** Two lines that agree on every product field (the amount may differ). */
  predicate SameProduct(a: CartItem, b: CartItem)
  {
    a.id == b.id && a.category == b.category && a.description == b.description
    && a.image == b.image && a.price == b.price && a.title == b.title
  }

  /** Some line of `items` carries the product identifier `id`. */
  predicate HasId(items: seq<CartItem>, id: int)
  {
    exists i :: 0 <= i < |items| && items[i].id == id
  }

  /** The number of lines of `items` that carry the identifier `id`. */
  function Count(items: seq<CartItem>, id: int): (n: nat)
    ensures n <= |items|
    ensures n == 0 <==> !HasId(items, id)
  {
    if items == [] then 0
    else (if items[0].id == id then 1 else 0) + Count(items[1..], id)
  }

  /** Sum of the amounts, read head first: the reference meaning of the badge count. */
  function AmountSum(items: seq<CartItem>): int
  {
    if items == [] then 0 else items[0].amount + AmountSum(items[1..])
  }

  // ---------------------------------------------------------------------------
  // getTotalItems
  // ---------------------------------------------------------------------------

  /** The reducer of the badge count (src/App.tsx:38): visits the lines from left to
      right, adding each line's amount to the running total `acc`. */
  function AccumulateAmounts(acc: int, items: seq<CartItem>): (total: int)
    ensures total == acc + AmountSum(items)
    decreases |items|
  {
    if items == [] then acc else AccumulateAmounts(acc + items[0].amount, items[1..])
  }

  /** The badge count: a left fold over the lines starting from 0. */
  function TotalItems(items: seq<CartItem>): (total: int)
    ensures total == AmountSum(items)
  {
    AccumulateAmounts(0, items)
  }

  // ---------------------------------------------------------------------------
  // handleAddToCart
  // ---------------------------------------------------------------------------

  /** The lookup of src/App.tsx:45: the first line whose identifier equals `id`, if any. */
  function Find(items: seq<CartItem>, id: int): (r: Option<CartItem>)
    ensures r.Some? <==> HasId(items, id)
    ensures r.Some? ==> r.value.id == id && r.value in items
    ensures r.Some? ==> exists k :: 0 <= k < |items| && items[k] == r.value && !HasId(items[..k], id)
  {
    if items == [] then None
    else if items[0].id == id then
      assert items[..0] == [] && !HasId(items[..0], id);
      Some(items[0])
    else
      var r := Find(items[1..], id);
      HasIdCons(items, id);
      if r.Some? then
        var k :| 0 <= k < |items[1..]| && items[1..][k] == r.value && !HasId(items[1..][..k], id);
        NotInPrefixCons(items, id, k);
        assert items[k + 1] == items[1..][k];
        r
      else
        r
  }

  lemma HasIdCons(items: seq<CartItem>, id: int)
    requires items != []
    ensures HasId(items, id) <==> items[0].id == id || HasId(items[1..], id)
  {
    if HasId(items[1..], id) {
      var j :| 0 <= j < |items[1..]| && items[1..][j].id == id;
      assert items[j + 1] == items[1..][j];
    }
    if HasId(items, id) && items[0].id != id {
      var j :| 0 <= j < |items| && items[j].id == id;
      assert items[1..][j - 1] == items[j];
    }
  }

  lemma NotInPrefixCons(items: seq<CartItem>, id: int, k: int)
    requires 0 <= k < |items| - 1 && items[0].id != id && !HasId(items[1..][..k], id)
    ensures !HasId(items[..k + 1], id)
  {
    assert items[..k + 1] == [items[0]] + items[1..][..k];
    forall j | 0 <= j < k + 1 ensures items[j].id != id {
      if j > 0 {
        assert items[j] == items[1..][..k][j - 1];
      }
    }
  }

  /** The callback of the `map` in src/App.tsx:47-51: a line with one more unit when it
      carries `id`, the line itself otherwise. */
  function Bump(item: CartItem, id: int): (r: CartItem)
    ensures SameProduct(r, item)
    ensures r.amount == if item.id == id then item.amount + 1 else item.amount
  {
    if item.id == id then item.(amount := item.amount + 1) else item
  }

  /** The `map` of src/App.tsx:47-51: every line passed through `Bump`, in order. */
  function IncrementMatching(items: seq<CartItem>, id: int): (r: seq<CartItem>)
    ensures |r| == |items|
    ensures forall i :: 0 <= i < |items| ==> r[i] == Bump(items[i], id)
  {
    if items == [] then [] else [Bump(items[0], id)] + IncrementMatching(items[1..], id)
  }

  /** The updater of `handleAddToCart(clicked)`: bump the matching lines if there is one,
      otherwise append a copy of the clicked product with amount 1. */
  function AddToCart(prev: seq<CartItem>, clicked: CartItem): (next: seq<CartItem>)
    ensures HasId(next, clicked.id)
    ensures |next| == if HasId(prev, clicked.id) then |prev| else |prev| + 1
  {
    var found := Find(prev, clicked.id);
    if found.Some? then
      IncrementMatching(prev, clicked.id)
    else
      var line := clicked.(amount := 1);
      assert (prev + [line])[|prev|] == line;
      prev + [line]
  }

  // ---------------------------------------------------------------------------
  // handleRemoveFromCart
  // ---------------------------------------------------------------------------

  /** The reducer callback of src/App.tsx:61-69: what the accumulated cart `ack` becomes
      after visiting `item`. */
  function RemoveStep(ack: seq<CartItem>, item: CartItem, id: int): (r: seq<CartItem>)
    ensures r == ack + LineAfterRemove(item, id)
  {
    if item.id == id then
      if item.amount == 1 then
        assert ack + [] == ack;
        ack
      else ack + [item.(amount := item.amount - 1)]
    else
      ack + [item]
  }

  /** The `reduce` of src/App.tsx:60-70: `RemoveStep` applied to every line from left to
      right, starting from the accumulator `ack`, with no early exit. */
  function ReduceRemove(ack: seq<CartItem>, items: seq<CartItem>, id: int): (r: seq<CartItem>)
    ensures r == ack + RemoveOneUnit(items, id)
    decreases |items|
  {
    if items == [] then
      assert RemoveOneUnit(items, id) == [] && ack + [] == ack;
      ack
    else
      var line := LineAfterRemove(items[0], id);
      var rest := RemoveOneUnit(items[1..], id);
      RemoveOneUnitCons(items, id);
      assert (ack + line) + rest == ack + RemoveOneUnit(items, id);
      ReduceRemove(RemoveStep(ack, items[0], id), items[1..], id)
  }

  /** A line with one unit fewer when it carries `id`, the line itself otherwise. */
  function Unbump(item: CartItem, id: int): CartItem
  {
    if item.id == id then item.(amount := item.amount - 1) else item
  }

  /** Every line carrying `id` loses one unit; the rest are untouched. */
  function DecrementMatching(items: seq<CartItem>, id: int): (r: seq<CartItem>)
    ensures |r| == |items|
    ensures forall i :: 0 <= i < |items| ==> r[i] == Unbump(items[i], id)
  {
    if items == [] then [] else [Unbump(items[0], id)] + DecrementMatching(items[1..], id)
  }

  /** Drops the lines carrying `id` whose amount is 0, keeping the others in order. */
  function DropEmptied(items: seq<CartItem>, id: int): (r: seq<CartItem>)
    ensures |r| <= |items|
  {
    if items == [] then []
    else (if items[0].id == id && items[0].amount == 0 then [] else [items[0]]) + DropEmptied(items[1..], id)
  }

  /** Reference meaning of removing one unit: decrement every matching line, then drop
      the matching lines that reached zero. */
  function RemoveOneUnit(items: seq<CartItem>, id: int): seq<CartItem>
  {
    DropEmptied(DecrementMatching(items, id), id)
  }

  /** The updater of `handleRemoveFromCart(id)`: reduce from the empty cart. */
  function RemoveFromCart(prev: seq<CartItem>, id: int): (next: seq<CartItem>)
    ensures next == RemoveOneUnit(prev, id)
    ensures |next| <= |prev|
  {
    ReduceRemove([], prev, id)
  }

  /** What the reference removal makes of the first line of a cart. */
  function LineAfterRemove(item: CartItem, id: int): seq<CartItem>
  {
    if item.id == id && item.amount == 1 then [] else [Unbump(item, id)]
  }

  lemma RemoveOneUnitCons(items: seq<CartItem>, id: int)
    requires items != []
    ensures RemoveOneUnit(items, id) == LineAfterRemove(items[0], id) + RemoveOneUnit(items[1..], id)
  {
    var d := DecrementMatching(items, id);
    assert d[0] == Unbump(items[0], id);
    assert d[1..] == DecrementMatching(items[1..], id);
  }
}
