/**
 A shopping session: the sequence of add and remove clicks the component
 receives, each handed to the state hook as its updater, in order.
 */
module CartSession {
  import opened ShoppingCart
  import opened ShoppingCartProperties

  /** A click on an add-to-cart control (with the product it carries) or on a remove control. */
  datatype Action = Add(clicked: CartItem) | Remove(id: int)

  /** The updater one click installs, applied to the cart it finds. */
  function Apply(cart: seq<CartItem>, action: Action): seq<CartItem>
  {
    match action
    case Add(clicked) => AddToCart(cart, clicked)
    case Remove(id) => RemoveFromCart(cart, id)
  }

  /** The cart after every click of `actions`, first to last. */
  function Replay(cart: seq<CartItem>, actions: seq<Action>): seq<CartItem>
    decreases |actions|
  {
    if actions == [] then cart else Replay(Apply(cart, actions[0]), actions[1..])
  }

  /** The number of add clicks. */
  function AddClicks(actions: seq<Action>): nat
  {
    if actions == [] then 0
    else (if actions[0].Add? then 1 else 0) + AddClicks(actions[1..])
  }

  /** The number of remove clicks that find a line for their product when they run. */
  function EffectiveRemoves(cart: seq<CartItem>, actions: seq<Action>): nat
    decreases |actions|
  {
    if actions == [] then 0
    else
      (if actions[0].Remove? && HasId(cart, actions[0].id) then 1 else 0)
      + EffectiveRemoves(Apply(cart, actions[0]), actions[1..])
  }

  lemma ApplyKeepsValid(cart: seq<CartItem>, action: Action)
    requires ValidCart(cart)
    ensures ValidCart(Apply(cart, action))
    ensures TotalItems(Apply(cart, action))
         == TotalItems(cart) + (if action.Add? then 1 else 0)
            - (if action.Remove? && HasId(cart, action.id) then 1 else 0)
  {
    match action
    case Add(clicked) =>
      AddPreservesValid(cart, clicked);
      AddTotalDistinct(cart, clicked);
    case Remove(id) =>
      RemovePreservesValid(cart, id);
      if HasId(cart, id) {
        RemoveTotalDistinct(cart, id);
      } else {
        RemoveAbsentIsNoOp(cart, id);
      }
  }

  /** Along any sequence of clicks the cart stays valid, and the badge count moves by
      the add clicks minus the remove clicks that found a line. */
  lemma {:induction false} ReplayTotal(cart: seq<CartItem>, actions: seq<Action>)
    requires ValidCart(cart)
    ensures ValidCart(Replay(cart, actions))
    ensures TotalItems(Replay(cart, actions))
         == TotalItems(cart) + AddClicks(actions) - EffectiveRemoves(cart, actions)
    decreases |actions|
  {
    if actions != [] {
      ApplyKeepsValid(cart, actions[0]);
      ReplayTotal(Apply(cart, actions[0]), actions[1..]);
    }
  }

  /** From the empty cart, the badge shows the add clicks minus the effective removes. */
  lemma SessionFromEmpty(actions: seq<Action>)
    ensures ValidCart(Replay([], actions))
    ensures TotalItems(Replay([], actions)) == AddClicks(actions) - EffectiveRemoves([], actions)
  {
    ReplayTotal([], actions);
  }

  /** The three worked scenarios: first add into the empty cart, a remove from a line of
      two, and a remove of the last unit. */
  lemma Scenarios(p: CartItem)
    ensures AddToCart([], p) == [p.(amount := 1)] && TotalItems(AddToCart([], p)) == 1
    ensures RemoveFromCart([p.(amount := 2)], p.id) == [p.(amount := 1)]
    ensures TotalItems(RemoveFromCart([p.(amount := 2)], p.id)) == 1
    ensures RemoveFromCart([p.(amount := 1)], p.id) == []
    ensures TotalItems(RemoveFromCart([p.(amount := 1)], p.id)) == 0
  {
    FirstAdd(p);
    RemoveFromTwo(p);
    RemoveLastUnit(p);
  }

  lemma FirstAdd(p: CartItem)
    ensures AddToCart([], p) == [p.(amount := 1)] && TotalItems(AddToCart([], p)) == 1
  {
    AddTotal([], p);
    assert TotalItems([]) == 0;
  }

  lemma RemoveFromTwo(p: CartItem)
    ensures RemoveFromCart([p.(amount := 2)], p.id) == [p.(amount := 1)]
    ensures TotalItems(RemoveFromCart([p.(amount := 2)], p.id)) == 1
  {
    RemoveDecrementsInPlace([p.(amount := 2)], 0);
  }

  lemma RemoveLastUnit(p: CartItem)
    ensures RemoveFromCart([p.(amount := 1)], p.id) == []
    ensures TotalItems(RemoveFromCart([p.(amount := 1)], p.id)) == 0
  {
    RemoveDropsLastUnit([p.(amount := 1)], 0);
  }
}
