# Shopping cart of the storefront component

This project models the shopping cart of a small React storefront: the product
lines held in the cart, the badge count shown on the cart button, and the two
transitions triggered by the add and remove controls. The component keeps the
cart as an ordered array of `CartItemType` records in a state hook. Each click
installs a functional updater that builds a new array from the previous one
without mutating it. The model therefore makes each updater a pure Dafny
function from the previous cart (`seq<CartItem>`) to the next one.

- `cart.dfy`, module `ShoppingCart`: the `CartItem` record, `TotalItems` (the
  left fold behind `getTotalItems`), `Find` (the `find` call), `AddToCart` (the
  updater of `handleAddToCart`) and `RemoveFromCart` (the `reduce` updater of
  `handleRemoveFromCart`). Each one is tied to an independent reference
  definition. `TotalItems` equals `AmountSum`, a head-first sum. The fold in
  `RemoveFromCart` equals `RemoveOneUnit`: decrement every line with that id,
  then drop the lines with that id whose amount reached 0.
- `cart_properties.dfy`, module `ShoppingCartProperties`: what the transitions
  guarantee. This covers the lines they touch and leave alone, line order, the
  effect on the badge count, and the cart invariant `ValidCart`: every amount is
  at least 1 and no two lines share a product id. It also gives the view of the
  cart as a map from product id to quantity (`AmountOf`).
- `cart_session.dfy`, module `CartSession`: a sequence of clicks replayed from
  a starting cart, plus the worked scenarios.

## Model

| member | source | states |
|---|---|---|
| `ShoppingCart.TotalItems` | src/App.tsx:37-39 | the `reduce` from 0 equals the sum of `amount` over the lines in order (`AmountSum`) |
| `ShoppingCart.AccumulateAmounts` | src/App.tsx:38 | the as-written reducer of the badge count: folding the lines left to right from a running total `acc` ends at `acc` plus their amount sum (`AmountSum`) |
| `ShoppingCart.Find` | src/App.tsx:45 | a line is found exactly when some line carries the id; the one found carries that id, belongs to the cart, and no earlier line carries the id |
| `ShoppingCart.Bump` | src/App.tsx:48-50 | the as-written `map` callback: only the amount can change, and it rises by exactly 1 when the line carries the clicked id; `IncrementMatching`'s pointwise contract ties the `map` to it |
| `ShoppingCart.IncrementMatching` | src/App.tsx:47-51 | the `map` keeps the length; at every position a line with the id gains one unit and any other line is kept |
| `ShoppingCart.AddToCart` | src/App.tsx:43-55 | afterwards the clicked id is in the cart; the length stays the same when the id was present and grows by one when it was absent |
| `ShoppingCart.RemoveFromCart` | src/App.tsx:59-71 | the left-to-right `reduce` from `[]` equals "decrement every line with the id, then drop the lines with the id that reached 0"; the cart never grows |
| `ShoppingCart.RemoveStep` | src/App.tsx:61-69 | the as-written reducer callback: it appends to the accumulator nothing for a matching line of amount 1, and otherwise that line with one unit fewer when it matches or unchanged when it does not (`LineAfterRemove`) |
| `ShoppingCart.ReduceRemove` | src/App.tsx:60-70 | the as-written `reduce`: run from any accumulator, it appends the reference result `RemoveOneUnit` to that accumulator, so every line is visited and there is no early exit |
| `ShoppingCartProperties.TotalItemsAppend` | src/App.tsx:37-39 | the empty cart counts 0, and the badge count of two carts laid end to end is the sum of their counts |
| `ShoppingCartProperties.TotalItemsAtLeastLines` | src/App.tsx:37-39 | when every amount is at least 1, the badge count is at least the number of lines |
| `ShoppingCartProperties.AmountOfLine` | src/App.tsx:45 | with distinct ids, the quantity read through `find` is the amount of the one line carrying that id |
| `ShoppingCartProperties.AddAbsentAppendsLine` | src/App.tsx:53-54 | for an absent id the result is the old cart followed by one line; that line has the clicked item's id, category, description, image, price and title, and amount 1 whatever the clicked amount |
| `ShoppingCartProperties.AddPresentBumpsLine` | src/App.tsx:45-51 | for a present id the length is unchanged; each line with the id keeps its product fields and gains one unit; every other line is unchanged |
| `ShoppingCartProperties.AddTotal` | src/App.tsx:37-54 | adding raises the badge count by the number of lines already carrying the id, or by 1 when there is none |
| `ShoppingCartProperties.AddTotalDistinct` | src/App.tsx:37-54 | with distinct ids, adding raises the badge count by exactly 1 |
| `ShoppingCartProperties.AddPreservesValid` | src/App.tsx:43-55 | adding keeps every amount at least 1 and the ids pairwise distinct |
| `ShoppingCartProperties.AddKeepsIdsDistinct` | src/App.tsx:43-55 | adding never gives two lines the same product id |
| `ShoppingCartProperties.AddAmountOf` | src/App.tsx:43-55 | on a cart with distinct ids, adding raises the clicked product's quantity by 1 and leaves every other product's quantity unchanged |
| `ShoppingCartProperties.AddTwice` | src/App.tsx:43-55 | on a cart with distinct ids, adding a product twice leaves exactly one line for it, holding two more units than before (0 before if absent) |
| `ShoppingCartProperties.RemoveAbsentIsNoOp` | src/App.tsx:60-70 | removing an id that no line carries returns the cart unchanged |
| `ShoppingCartProperties.RemoveAroundLine` | src/App.tsx:60-70 | with distinct ids, the lines before and after the matching line pass through unchanged around what becomes of that line |
| `ShoppingCartProperties.RemoveDropsLastUnit` | src/App.tsx:61-63 | with distinct ids, the matching line of amount 1 is deleted and all other lines keep their relative order |
| `ShoppingCartProperties.RemoveDecrementsInPlace` | src/App.tsx:64-66 | with distinct ids, the matching line of any other amount stays in place with `amount - 1`, and every other line is unchanged |
| `ShoppingCartProperties.RemoveTotal` | src/App.tsx:59-71 | removing lowers the badge count by the number of lines carrying the id, whatever their amounts |
| `ShoppingCartProperties.RemoveTotalDistinct` | src/App.tsx:59-71 | with distinct ids and the id present, removing lowers the badge count by exactly 1 |
| `ShoppingCartProperties.RemoveKeepsOrder` | src/App.tsx:60-70 | the result is the input with some lines dropped and some amounts lowered by one, in the original relative order, and it is never longer |
| `ShoppingCartProperties.RemovePreservesValid` | src/App.tsx:59-71 | removing keeps every amount at least 1 and the ids pairwise distinct |
| `ShoppingCartProperties.RemoveAmountOfOther` | src/App.tsx:67-68 | on a valid cart, removing one product leaves every other product's quantity unchanged |
| `ShoppingCartProperties.RemoveAmountOfSame` | src/App.tsx:61-66 | on a valid cart, removing a product lowers its quantity by 1 while positive, and leaves it at 0 otherwise |
| `ShoppingCartProperties.RemoveAmountOf` | src/App.tsx:59-71 | the two cases above, stated together for the cart read as a map |
| `ShoppingCartProperties.RemoveUntilGone` | src/App.tsx:59-71 | on a valid cart, removing a product as many times as its line holds units deletes exactly that line, and one more removal is a no-op |
| `ShoppingCartProperties.OffValidCartBehaviour` | src/App.tsx:43-70 | on carts outside the invariant: a matching line of amount 0 is kept with amount -1; with two lines for one product, remove drops the one of amount 1 and lowers the other, and add raises both |
| `CartSession.ApplyKeepsValid` | src/App.tsx:41-72 | one click keeps the cart valid and moves the badge count by +1 (add), -1 (remove of a present id) or 0 |
| `CartSession.ReplayTotal` | src/App.tsx:41-72 | after any sequence of clicks the cart is still valid, and the badge count has moved by the add clicks minus the remove clicks that found a line |
| `CartSession.SessionFromEmpty` | src/App.tsx:31-72 | starting from the initial empty cart, the badge count equals the add clicks minus the effective removes |
| `CartSession.Scenarios` | src/App.tsx:41-72 | the first add into the empty cart gives one line of amount 1 (badge 1); removing from a line of 2 leaves 1 (badge 1); removing the last unit leaves the empty cart (badge 0) |

## Left out

- The catalog fetch (`getProducts`, `useQuery`) and its loading, error and success branches: network I/O and JSON decoding done by the browser and a library.
- All rendering (JSX, the `Item` and `Cart` components, the drawer and the badge widget), and the `cartOpen` drawer flag with its setters: UI with no logic.
- React's `useState` and `setCartItems` scheduling: each updater is modelled as a plain function from the previous cart to the next. Batching and re-rendering are not modelled.
- The `debugger` statement in `handleAddToCart`: it has no effect on the cart.
- `price` is carried as the 64-bit pattern of a JavaScript number (`Price`) and never computed on, as in the source. Floating-point semantics are not modelled.
- `id` and `amount` are JavaScript numbers. They are modelled as unbounded integers, so precision loss above 2^53, fractional values and `NaN` are not modelled.
- `AddToCart` copies only the seven typed fields of the clicked item. The object spread in the source also copies any extra run-time properties a product object carries.
- `ShoppingCart.AddToCart`: its own contract only gives membership and length. The full effect (which lines change and how) is stated by `AddAbsentAppendsLine` and `AddPresentBumpsLine`.

## Behaviour off valid carts

The component only ever builds carts that satisfy `ValidCart`, starting from the empty cart (`SessionFromEmpty`). On other carts the code does the following, and `OffValidCartBehaviour` proves each point on a concrete cart:
- Add increments every line that carries the clicked id, not only the first.
- Remove drops a matching line only when its amount is exactly 1. A matching line with any other amount, including 0 or a negative amount, is kept with one unit fewer.
- Remove acts on every matching line, because the fold has no early exit.
