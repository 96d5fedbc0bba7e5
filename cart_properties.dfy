/**
 What the cart transitions guarantee: the badge count they produce, the lines
 they touch and the ones they leave alone, the order of the lines, and the
 cart invariant (every amount at least 1, at most one line per product).
 */
module ShoppingCartProperties {
  import opened ShoppingCart

  /** Every line holds at least one unit. */
  ghost predicate AmountsPositive(items: seq<CartItem>)
  {
    forall i :: 0 <= i < |items| ==> items[i].amount >= 1
  }

  /** At most one line per product identifier. */
  ghost predicate IdsDistinct(items: seq<CartItem>)
  {
    forall i, j :: 0 <= i < j < |items| ==> items[i].id != items[j].id
  }

  /** The cart invariant the component relies on. */
  ghost predicate ValidCart(items: seq<CartItem>)
  {
    AmountsPositive(items) && IdsDistinct(items)
  }

  /** The quantity of product `id` in the cart, 0 when it has no line: the cart read as a map. */
  function AmountOf(items: seq<CartItem>, id: int): int
  {
    match Find(items, id)
    case Some(line) => line.amount
    case None => 0
  }

  /** `r` is obtained from `c` by dropping lines and lowering by one the amount of kept
      lines that carry `id`; the kept lines stay in their relative order. */
  ghost predicate KeptInOrder(r: seq<CartItem>, c: seq<CartItem>, id: int)
    decreases |c|
  {
    if c == [] then r == []
    else
      (r != [] && r[0] == Unbump(c[0], id) && KeptInOrder(r[1..], c[1..], id))
      || KeptInOrder(r, c[1..], id)
  }

  // ---------------------------------------------------------------------------
  // Helpers on sums, counts and identifiers
  // ---------------------------------------------------------------------------

  lemma {:induction false} AmountSumAppend(a: seq<CartItem>, b: seq<CartItem>)
    ensures AmountSum(a + b) == AmountSum(a) + AmountSum(b)
    decreases |a|
  {
    if a != [] {
      assert (a + b)[0] == a[0] && (a + b)[1..] == a[1..] + b;
      assert AmountSum(a + b) == a[0].amount + AmountSum(a[1..] + b);
      AmountSumAppend(a[1..], b);
    } else {
      assert a + b == b;
    }
  }

  lemma {:induction false} CountAtMostOneWhenDistinct(items: seq<CartItem>, id: int)
    requires IdsDistinct(items)
    ensures Count(items, id) <= 1
    decreases |items|
  {
    if items != [] {
      var rest := items[1..];
      assert IdsDistinct(rest) by {
        forall i, j | 0 <= i < j < |rest| ensures rest[i].id != rest[j].id {
          assert rest[i] == items[i + 1] && rest[j] == items[j + 1];
        }
      }
      CountAtMostOneWhenDistinct(rest, id);
      if items[0].id == id {
        assert !HasId(rest, id) by {
          forall j | 0 <= j < |rest| ensures rest[j].id != id {
            assert rest[j] == items[j + 1];
          }
        }
      }
    }
  }

  lemma DistinctIdsPinLine(items: seq<CartItem>, k: int, j: int)
    requires IdsDistinct(items)
    requires 0 <= k < |items| && 0 <= j < |items|
    requires items[j].id == items[k].id
    ensures j == k
  {
  }

  lemma {:induction false} AbsentFromBothSides(items: seq<CartItem>, k: int)
    requires IdsDistinct(items) && 0 <= k < |items|
    ensures !HasId(items[..k], items[k].id) && !HasId(items[k + 1..], items[k].id)
  {
    forall j | 0 <= j < k ensures items[..k][j].id != items[k].id {
      assert items[..k][j] == items[j];
    }
    var suffix := items[k + 1..];
    forall j | 0 <= j < |suffix| ensures suffix[j].id != items[k].id {
      assert suffix[j] == items[k + 1 + j];
    }
  }

  /** Under distinct identifiers, the amount read through `find` is the amount of the
      one line carrying that identifier. */
  lemma AmountOfLine(items: seq<CartItem>, k: int)
    requires IdsDistinct(items) && 0 <= k < |items|
    ensures AmountOf(items, items[k].id) == items[k].amount
  {
    var r := Find(items, items[k].id);
    assert r.Some?;
    var j :| 0 <= j < |items| && items[j] == r.value && !HasId(items[..j], items[k].id);
    DistinctIdsPinLine(items, k, j);
  }

  lemma HasIdAppend(a: seq<CartItem>, b: seq<CartItem>, id: int)
    ensures HasId(a + b, id) <==> HasId(a, id) || HasId(b, id)
  {
    if HasId(a, id) {
      var i :| 0 <= i < |a| && a[i].id == id;
      assert (a + b)[i] == a[i];
    }
    if HasId(b, id) {
      var i :| 0 <= i < |b| && b[i].id == id;
      assert (a + b)[|a| + i] == b[i];
    }
    if HasId(a + b, id) {
      var i :| 0 <= i < |a + b| && (a + b)[i].id == id;
      if i < |a| {
        assert (a + b)[i] == a[i];
      } else {
        assert (a + b)[i] == b[i - |a|];
      }
    }
  }

  lemma {:induction false} AmountOfAbsent(items: seq<CartItem>, id: int)
    requires !HasId(items, id)
    ensures AmountOf(items, id) == 0
  {
  }

  // ---------------------------------------------------------------------------
  // getTotalItems
  // ---------------------------------------------------------------------------

  /** The badge count of two carts laid end to end is the sum of their counts; the
      empty cart counts 0. */
  lemma TotalItemsAppend(a: seq<CartItem>, b: seq<CartItem>)
    ensures TotalItems([]) == 0
    ensures TotalItems(a + b) == TotalItems(a) + TotalItems(b)
  {
    AmountSumAppend(a, b);
  }

  /** A valid cart shows at least one unit per line on the badge. */
  lemma {:induction false} TotalItemsAtLeastLines(items: seq<CartItem>)
    requires AmountsPositive(items)
    ensures TotalItems(items) >= |items|
    decreases |items|
  {
    if items != [] {
      assert AmountsPositive(items[1..]) by {
        forall i | 0 <= i < |items[1..]| ensures items[1..][i].amount >= 1 {
          assert items[1..][i] == items[i + 1];
        }
      }
      TotalItemsAtLeastLines(items[1..]);
    }
  }

  // ---------------------------------------------------------------------------
  // handleAddToCart
  // ---------------------------------------------------------------------------

  /** A product with no line yet is appended as one new line after the old cart: same
      product fields as the clicked item, amount 1 whatever amount the item carried. */
  lemma AddAbsentAppendsLine(prev: seq<CartItem>, clicked: CartItem)
    requires !HasId(prev, clicked.id)
    ensures var next := AddToCart(prev, clicked);
      && |next| == |prev| + 1
      && next[..|prev|] == prev
      && SameProduct(next[|prev|], clicked)
      && next[|prev|].amount == 1
  {
    var next := AddToCart(prev, clicked);
    assert next == prev + [clicked.(amount := 1)];
    assert next[..|prev|] == prev;
  }

  /** A product that has a line keeps the length; each line carrying its identifier
      gains one unit and keeps every other field; every other line is untouched. */
  lemma AddPresentBumpsLine(prev: seq<CartItem>, clicked: CartItem)
    requires HasId(prev, clicked.id)
    ensures var next := AddToCart(prev, clicked);
      && |next| == |prev|
      && forall i :: 0 <= i < |prev| ==>
           if prev[i].id == clicked.id
           then SameProduct(next[i], prev[i]) && next[i].amount == prev[i].amount + 1
           else next[i] == prev[i]
  {
  }

  lemma {:induction false} IncrementMatchingSum(items: seq<CartItem>, id: int)
    ensures AmountSum(IncrementMatching(items, id)) == AmountSum(items) + Count(items, id)
    decreases |items|
  {
    if items != [] {
      var r := IncrementMatching(items, id);
      assert r[1..] == IncrementMatching(items[1..], id);
      IncrementMatchingSum(items[1..], id);
    }
  }

  /** Adding raises the badge count by the number of lines already carrying the
      product, or by 1 when it had none. */
  lemma AddTotal(prev: seq<CartItem>, clicked: CartItem)
    ensures TotalItems(AddToCart(prev, clicked))
         == TotalItems(prev) + (if HasId(prev, clicked.id) then Count(prev, clicked.id) else 1)
  {
    if HasId(prev, clicked.id) {
      IncrementMatchingSum(prev, clicked.id);
    } else {
      AmountSumAppend(prev, [clicked.(amount := 1)]);
    }
  }

  /** With distinct identifiers, adding raises the badge count by exactly 1. */
  lemma AddTotalDistinct(prev: seq<CartItem>, clicked: CartItem)
    requires IdsDistinct(prev)
    ensures TotalItems(AddToCart(prev, clicked)) == TotalItems(prev) + 1
  {
    AddTotal(prev, clicked);
    CountAtMostOneWhenDistinct(prev, clicked.id);
  }

  /** Adding never gives two lines the same product identifier. */
  lemma AddKeepsIdsDistinct(prev: seq<CartItem>, clicked: CartItem)
    requires IdsDistinct(prev)
    ensures IdsDistinct(AddToCart(prev, clicked))
  {
    var next := AddToCart(prev, clicked);
    if HasId(prev, clicked.id) {
      AddPresentBumpsLine(prev, clicked);
    } else {
      AddAbsentAppendsLine(prev, clicked);
      forall i, j | 0 <= i < j < |next| ensures next[i].id != next[j].id {
        if j == |prev| {
          assert next[i] == prev[i];
        } else {
          assert next[i] == prev[i] && next[j] == prev[j];
        }
      }
    }
  }

  /** Adding keeps the cart invariant. */
  lemma AddPreservesValid(prev: seq<CartItem>, clicked: CartItem)
    requires ValidCart(prev)
    ensures ValidCart(AddToCart(prev, clicked))
  {
    var next := AddToCart(prev, clicked);
    AddKeepsIdsDistinct(prev, clicked);
    if HasId(prev, clicked.id) {
      AddPresentBumpsLine(prev, clicked);
    } else {
      AddAbsentAppendsLine(prev, clicked);
      forall i | 0 <= i < |next| ensures next[i].amount >= 1 {
        if i < |prev| { assert next[i] == prev[i]; }
      }
    }
  }

  /** Read as a map from product to quantity, adding raises the clicked product's
      quantity by 1 and leaves every other product's quantity alone. */
  lemma AddAmountOf(prev: seq<CartItem>, clicked: CartItem, id: int)
    requires IdsDistinct(prev)
    ensures AmountOf(AddToCart(prev, clicked), id)
         == AmountOf(prev, id) + (if id == clicked.id then 1 else 0)
  {
    if HasId(prev, clicked.id) {
      AddAmountOfPresent(prev, clicked, id);
    } else {
      AddAmountOfAbsent(prev, clicked, id);
    }
  }

  lemma AddAmountOfPresent(prev: seq<CartItem>, clicked: CartItem, id: int)
    requires IdsDistinct(prev) && HasId(prev, clicked.id)
    ensures AmountOf(AddToCart(prev, clicked), id)
         == AmountOf(prev, id) + (if id == clicked.id then 1 else 0)
  {
    var next := AddToCart(prev, clicked);
    AddKeepsIdsDistinct(prev, clicked);
    AddPresentBumpsLine(prev, clicked);
    if HasId(prev, id) {
      var k :| 0 <= k < |prev| && prev[k].id == id;
      AmountOfLine(prev, k);
      AmountOfLine(next, k);
    } else {
      forall k | 0 <= k < |next| ensures next[k].id != id {
        assert next[k].id == prev[k].id;
      }
      AmountOfAbsent(next, id);
    }
  }

  lemma AddAmountOfAbsent(prev: seq<CartItem>, clicked: CartItem, id: int)
    requires IdsDistinct(prev) && !HasId(prev, clicked.id)
    ensures AmountOf(AddToCart(prev, clicked), id)
         == AmountOf(prev, id) + (if id == clicked.id then 1 else 0)
  {
    var next := AddToCart(prev, clicked);
    AddKeepsIdsDistinct(prev, clicked);
    AddAbsentAppendsLine(prev, clicked);
    if id == clicked.id {
      AmountOfAbsent(prev, id);
      AmountOfLine(next, |prev|);
    } else {
      assert next == prev + [next[|prev|]];
      HasIdAppend(prev, [next[|prev|]], id);
      if HasId(prev, id) {
        var k :| 0 <= k < |prev| && prev[k].id == id;
        assert next[k] == prev[k];
        AmountOfLine(prev, k);
        AmountOfLine(next, k);
      } else {
        AmountOfAbsent(next, id);
      }
    }
  }

  /** Adding the same product twice leaves exactly one line for it, holding two more
      units than before (none before if it had no line). */
  lemma AddTwice(c: seq<CartItem>, p: CartItem)
    requires IdsDistinct(c)
    ensures var twice := AddToCart(AddToCart(c, p), p);
      && Count(twice, p.id) == 1
      && AmountOf(twice, p.id) == AmountOf(c, p.id) + 2
  {
    var once := AddToCart(c, p);
    var twice := AddToCart(once, p);
    AddKeepsIdsDistinct(c, p);
    AddKeepsIdsDistinct(once, p);
    AddAmountOf(c, p, p.id);
    AddAmountOf(once, p, p.id);
    CountAtMostOneWhenDistinct(twice, p.id);
  }

  // ---------------------------------------------------------------------------
  // handleRemoveFromCart
  // ---------------------------------------------------------------------------

  lemma {:induction false} RemoveOneUnitAppend(a: seq<CartItem>, b: seq<CartItem>, id: int)
    ensures RemoveOneUnit(a + b, id) == RemoveOneUnit(a, id) + RemoveOneUnit(b, id)
    decreases |a|
  {
    if a == [] {
      assert a + b == b;
      assert RemoveOneUnit(a, id) == [];
    } else {
      var line := LineAfterRemove(a[0], id);
      calc {
        RemoveOneUnit(a + b, id);
        == { assert (a + b)[0] == a[0] && (a + b)[1..] == a[1..] + b;
             RemoveOneUnitCons(a + b, id); }
        line + RemoveOneUnit(a[1..] + b, id);
        == { RemoveOneUnitAppend(a[1..], b, id); }
        line + (RemoveOneUnit(a[1..], id) + RemoveOneUnit(b, id));
        (line + RemoveOneUnit(a[1..], id)) + RemoveOneUnit(b, id);
        == { RemoveOneUnitCons(a, id); }
        RemoveOneUnit(a, id) + RemoveOneUnit(b, id);
      }
    }
  }

  lemma {:induction false} RemoveOneUnitAbsent(items: seq<CartItem>, id: int)
    requires !HasId(items, id)
    ensures RemoveOneUnit(items, id) == items
    decreases |items|
  {
    if items == [] {
      assert RemoveOneUnit(items, id) == [];
    } else {
      assert items[0].id != id;
      assert !HasId(items[1..], id) by {
        forall j | 0 <= j < |items[1..]| ensures items[1..][j].id != id {
          assert items[1..][j] == items[j + 1];
        }
      }
      RemoveOneUnitCons(items, id);
      RemoveOneUnitAbsent(items[1..], id);
      assert items == [items[0]] + items[1..];
    }
  }

  /** Removing a product that has no line returns the cart unchanged. */
  lemma RemoveAbsentIsNoOp(prev: seq<CartItem>, id: int)
    requires !HasId(prev, id)
    ensures RemoveFromCart(prev, id) == prev
  {
    RemoveOneUnitAbsent(prev, id);
  }

  /** Removal splits at line `k`: the lines before and after it, which do not carry its
      identifier, come through unchanged around what becomes of line `k`. */
  lemma RemoveSplit(before: seq<CartItem>, line: CartItem, after: seq<CartItem>, id: int)
    requires !HasId(before, id) && !HasId(after, id)
    ensures RemoveOneUnit(before + [line] + after, id) == before + LineAfterRemove(line, id) + after
  {
    var tail := [line] + after;
    assert tail[0] == line && tail[1..] == after;
    calc {
      RemoveOneUnit(before + tail, id);
      == { RemoveOneUnitAppend(before, tail, id); }
      RemoveOneUnit(before, id) + RemoveOneUnit(tail, id);
      == { RemoveOneUnitAbsent(before, id); }
      before + RemoveOneUnit(tail, id);
      == { RemoveOneUnitCons(tail, id); }
      before + (LineAfterRemove(line, id) + RemoveOneUnit(after, id));
      == { RemoveOneUnitAbsent(after, id); }
      before + (LineAfterRemove(line, id) + after);
    }
    assert before + [line] + after == before + tail;
    assert before + (LineAfterRemove(line, id) + after) == before + LineAfterRemove(line, id) + after;
  }

  lemma RemoveAroundLine(prev: seq<CartItem>, k: int)
    requires IdsDistinct(prev) && 0 <= k < |prev|
    ensures RemoveFromCart(prev, prev[k].id)
         == prev[..k] + LineAfterRemove(prev[k], prev[k].id) + prev[k + 1..]
  {
    AbsentFromBothSides(prev, k);
    assert prev == prev[..k] + [prev[k]] + prev[k + 1..];
    RemoveSplit(prev[..k], prev[k], prev[k + 1..], prev[k].id);
  }

  /** The only line of a product with amount 1 is deleted; all other lines keep their
      relative order. */
  lemma RemoveDropsLastUnit(prev: seq<CartItem>, k: int)
    requires IdsDistinct(prev) && 0 <= k < |prev|
    requires prev[k].amount == 1
    ensures RemoveFromCart(prev, prev[k].id) == prev[..k] + prev[k + 1..]
  {
    RemoveAroundLine(prev, k);
  }

  /** The only line of a product with an amount other than 1 stays in place with one
      unit fewer; every other line is untouched. */
  lemma RemoveDecrementsInPlace(prev: seq<CartItem>, k: int)
    requires IdsDistinct(prev) && 0 <= k < |prev|
    requires prev[k].amount != 1
    ensures RemoveFromCart(prev, prev[k].id)
         == prev[k := prev[k].(amount := prev[k].amount - 1)]
  {
    var lowered := prev[k].(amount := prev[k].amount - 1);
    RemoveAroundLine(prev, k);
    assert LineAfterRemove(prev[k], prev[k].id) == [lowered];
    SpliceIsUpdate(prev, k, lowered);
  }

  lemma SpliceIsUpdate(s: seq<CartItem>, k: int, v: CartItem)
    requires 0 <= k < |s|
    ensures s[..k] + [v] + s[k + 1..] == s[k := v]
  {
  }

  lemma {:induction false} RemoveOneUnitSum(items: seq<CartItem>, id: int)
    ensures AmountSum(RemoveOneUnit(items, id)) == AmountSum(items) - Count(items, id)
    decreases |items|
  {
    if items == [] {
      assert RemoveOneUnit(items, id) == [];
    } else {
      RemoveOneUnitCons(items, id);
      AmountSumAppend(LineAfterRemove(items[0], id), RemoveOneUnit(items[1..], id));
      RemoveOneUnitSum(items[1..], id);
    }
  }

  /** Every line carrying the identifier loses exactly one unit (dropping a line of
      amount 1 loses that unit), so the badge count falls by the number of such lines. */
  lemma RemoveTotal(prev: seq<CartItem>, id: int)
    ensures TotalItems(RemoveFromCart(prev, id)) == TotalItems(prev) - Count(prev, id)
  {
    RemoveOneUnitSum(prev, id);
  }

  /** With distinct identifiers, removing a product that has a line lowers the badge
      count by exactly 1. */
  lemma RemoveTotalDistinct(prev: seq<CartItem>, id: int)
    requires IdsDistinct(prev) && HasId(prev, id)
    ensures TotalItems(RemoveFromCart(prev, id)) == TotalItems(prev) - 1
  {
    RemoveTotal(prev, id);
    CountAtMostOneWhenDistinct(prev, id);
  }

  lemma {:induction false} RemoveOneUnitKeptInOrder(items: seq<CartItem>, id: int)
    ensures KeptInOrder(RemoveOneUnit(items, id), items, id)
    decreases |items|
  {
    if items == [] {
      assert RemoveOneUnit(items, id) == [];
    } else {
      var r := RemoveOneUnit(items, id);
      var rest := RemoveOneUnit(items[1..], id);
      RemoveOneUnitCons(items, id);
      RemoveOneUnitKeptInOrder(items[1..], id);
      if items[0].id == id && items[0].amount == 1 {
        assert r == rest;
      } else {
        assert r == [Unbump(items[0], id)] + rest;
        assert r[1..] == rest;
      }
    }
  }

  lemma {:induction false} KeptInOrderShorter(r: seq<CartItem>, c: seq<CartItem>, id: int)
    requires KeptInOrder(r, c, id)
    ensures |r| <= |c|
    decreases |c|
  {
    if c != [] {
      if r != [] && r[0] == Unbump(c[0], id) && KeptInOrder(r[1..], c[1..], id) {
        KeptInOrderShorter(r[1..], c[1..], id);
      } else {
        KeptInOrderShorter(r, c[1..], id);
      }
    }
  }

  /** Removal never lengthens the cart, and its result is the old cart with some lines
      dropped and some amounts lowered, in the old relative order. */
  lemma RemoveKeepsOrder(prev: seq<CartItem>, id: int)
    ensures KeptInOrder(RemoveFromCart(prev, id), prev, id)
    ensures |RemoveFromCart(prev, id)| <= |prev|
  {
    RemoveOneUnitKeptInOrder(prev, id);
    KeptInOrderShorter(RemoveFromCart(prev, id), prev, id);
  }

  lemma DeleteLineKeepsValid(prev: seq<CartItem>, k: int)
    requires ValidCart(prev) && 0 <= k < |prev|
    ensures ValidCart(prev[..k] + prev[k + 1..])
  {
    var next := prev[..k] + prev[k + 1..];
    forall i | 0 <= i < |next| ensures next[i] == prev[if i < k then i else i + 1] {
    }
  }

  lemma DecrementLineKeepsValid(prev: seq<CartItem>, k: int)
    requires ValidCart(prev) && 0 <= k < |prev| && prev[k].amount != 1
    ensures ValidCart(prev[k := prev[k].(amount := prev[k].amount - 1)])
  {
  }

  /** Removing keeps the cart invariant. */
  lemma RemovePreservesValid(prev: seq<CartItem>, id: int)
    requires ValidCart(prev)
    ensures ValidCart(RemoveFromCart(prev, id))
  {
    if !HasId(prev, id) {
      RemoveAbsentIsNoOp(prev, id);
    } else {
      var k :| 0 <= k < |prev| && prev[k].id == id;
      if prev[k].amount == 1 {
        RemoveDropsLastUnit(prev, k);
        DeleteLineKeepsValid(prev, k);
      } else {
        RemoveDecrementsInPlace(prev, k);
        DecrementLineKeepsValid(prev, k);
      }
    }
  }

  /** Removing one product leaves the quantity of every other product alone. */
  lemma RemoveAmountOfOther(prev: seq<CartItem>, removed: int, id: int)
    requires ValidCart(prev) && id != removed
    ensures AmountOf(RemoveFromCart(prev, removed), id) == AmountOf(prev, id)
  {
    if !HasId(prev, removed) {
      RemoveAbsentIsNoOp(prev, removed);
    } else if !HasId(prev, id) {
      RemoveNeverIntroducesId(prev, removed, id);
    } else {
      var k :| 0 <= k < |prev| && prev[k].id == removed;
      var m :| 0 <= m < |prev| && prev[m].id == id;
      RemoveKeepsOtherLine(prev, k, m);
    }
  }

  lemma RemoveNeverIntroducesId(prev: seq<CartItem>, removed: int, id: int)
    requires !HasId(prev, id)
    ensures AmountOf(RemoveFromCart(prev, removed), id) == AmountOf(prev, id)
  {
    var next := RemoveFromCart(prev, removed);
    RemoveKeepsOrder(prev, removed);
    forall j | 0 <= j < |next| ensures next[j].id != id {
      KeptInOrderHasId(next, prev, removed, j);
    }
    AmountOfAbsent(next, id);
    AmountOfAbsent(prev, id);
  }

  lemma RemoveKeepsOtherLine(prev: seq<CartItem>, k: int, m: int)
    requires ValidCart(prev) && 0 <= k < |prev| && 0 <= m < |prev| && k != m
    ensures AmountOf(RemoveFromCart(prev, prev[k].id), prev[m].id) == AmountOf(prev, prev[m].id)
  {
    AmountOfLine(prev, m);
    RemovePreservesValid(prev, prev[k].id);
    var next := RemoveFromCart(prev, prev[k].id);
    var j := if prev[k].amount == 1 && k < m then m - 1 else m;
    OtherLineSurvives(prev, k, m);
    AmountOfLine(next, j);
  }

  /** The line `m` comes through a removal of line `k`'s product unchanged, at `m` or,
      when line `k` is deleted before it, at `m - 1`. */
  lemma OtherLineSurvives(prev: seq<CartItem>, k: int, m: int)
    requires IdsDistinct(prev) && 0 <= k < |prev| && 0 <= m < |prev| && k != m
    ensures var next := RemoveFromCart(prev, prev[k].id);
      var j := if prev[k].amount == 1 && k < m then m - 1 else m;
      0 <= j < |next| && next[j] == prev[m]
  {
    if prev[k].amount == 1 {
      RemoveDropsLastUnit(prev, k);
      DeletedIndex(prev, k, m);
    } else {
      RemoveDecrementsInPlace(prev, k);
    }
  }

  lemma DeletedIndex(s: seq<CartItem>, k: int, m: int)
    requires 0 <= k < |s| && 0 <= m < |s| && k != m
    ensures var j := if k < m then m - 1 else m;
      0 <= j < |s| - 1 && (s[..k] + s[k + 1..])[j] == s[m]
  {
    if k < m {
      assert (s[..k] + s[k + 1..])[m - 1] == s[k + 1..][m - 1 - k];
    } else {
      assert (s[..k] + s[k + 1..])[m] == s[..k][m];
    }
  }

  /** Removing a product lowers its quantity by 1 while it is positive. */
  lemma RemoveAmountOfSame(prev: seq<CartItem>, id: int)
    requires ValidCart(prev)
    ensures AmountOf(RemoveFromCart(prev, id), id)
         == if AmountOf(prev, id) > 0 then AmountOf(prev, id) - 1 else 0
  {
    var next := RemoveFromCart(prev, id);
    if !HasId(prev, id) {
      RemoveAbsentIsNoOp(prev, id);
      AmountOfAbsent(prev, id);
    } else {
      var k :| 0 <= k < |prev| && prev[k].id == id;
      AmountOfLine(prev, k);
      if prev[k].amount == 1 {
        RemoveDropsLastUnit(prev, k);
        AbsentFromBothSides(prev, k);
        HasIdAppend(prev[..k], prev[k + 1..], id);
        AmountOfAbsent(next, id);
      } else {
        RemoveDecrementsInPlace(prev, k);
        RemovePreservesValid(prev, id);
        AmountOfLine(next, k);
      }
    }
  }

  /** Read as a map from product to quantity, removing lowers the named product's
      quantity by 1 while it is positive and leaves every other product's quantity alone. */
  lemma RemoveAmountOf(prev: seq<CartItem>, removed: int, id: int)
    requires ValidCart(prev)
    ensures AmountOf(RemoveFromCart(prev, removed), id)
         == if id == removed && AmountOf(prev, id) > 0 then AmountOf(prev, id) - 1
            else AmountOf(prev, id)
  {
    if id == removed {
      RemoveAmountOfSame(prev, id);
      assert AmountOf(prev, id) >= 0 by {
        if HasId(prev, id) {
          var k :| 0 <= k < |prev| && prev[k].id == id;
          AmountOfLine(prev, k);
        } else {
          AmountOfAbsent(prev, id);
        }
      }
    } else {
      RemoveAmountOfOther(prev, removed, id);
    }
  }

  lemma {:induction false} KeptInOrderHasId(r: seq<CartItem>, c: seq<CartItem>, id: int, j: int)
    requires KeptInOrder(r, c, id) && 0 <= j < |r|
    ensures HasId(c, r[j].id)
    decreases |c|
  {
    if c == [] {
    } else if r[0] == Unbump(c[0], id) && KeptInOrder(r[1..], c[1..], id) {
      if j > 0 {
        KeptInOrderHasId(r[1..], c[1..], id, j - 1);
        var i :| 0 <= i < |c[1..]| && c[1..][i].id == r[1..][j - 1].id;
        assert c[i + 1].id == r[j].id;
      } else {
        assert c[0].id == r[0].id;
      }
    } else {
      KeptInOrderHasId(r, c[1..], id, j);
      var i :| 0 <= i < |c[1..]| && c[1..][i].id == r[j].id;
      assert c[i + 1].id == r[j].id;
    }
  }

  /** What the transitions do on carts outside the invariant: removing from a line of
      amount 0 keeps it with amount -1; with two lines for one product, removing drops
      the line of amount 1 and lowers the other, and adding raises both. */
  lemma OffValidCartBehaviour(p: CartItem, q: CartItem)
    requires q.id != p.id
    ensures RemoveFromCart([p.(amount := 0)], p.id) == [p.(amount := -1)]
    ensures RemoveFromCart([p.(amount := 1), q, p.(amount := 3)], p.id) == [q, p.(amount := 2)]
    ensures AddToCart([p.(amount := 1), q, p.(amount := 3)], p) == [p.(amount := 2), q, p.(amount := 4)]
  {
    var empty: seq<CartItem> := [];
    RemoveOneUnitCons([p.(amount := 0)], p.id);
    assert [p.(amount := 0)][1..] == empty && RemoveOneUnit(empty, p.id) == empty;
    var dup := [p.(amount := 1), q, p.(amount := 3)];
    RemoveOneUnitCons(dup, p.id);
    RemoveOneUnitCons(dup[1..], p.id);
    RemoveOneUnitCons(dup[2..], p.id);
    assert dup[1..][1..] == dup[2..] && dup[2..][1..] == empty;
    assert HasId(dup, p.id) by { assert dup[0].id == p.id; }
    var next := AddToCart(dup, p);
    assert |next| == 3 && next[0] == p.(amount := 2) && next[1] == q && next[2] == p.(amount := 4);
  }

  /** `n` successive removals of the same product. */
  function RemoveTimes(items: seq<CartItem>, id: int, n: nat): seq<CartItem>
    decreases n
  {
    if n == 0 then items else RemoveTimes(RemoveFromCart(items, id), id, n - 1)
  }

  /** In a valid cart, removing a product as many times as its line holds units deletes
      exactly that line, and one more removal is a no-op. */
  lemma {:induction false} RemoveUntilGone(prev: seq<CartItem>, k: int)
    requires ValidCart(prev) && 0 <= k < |prev|
    ensures var gone := RemoveTimes(prev, prev[k].id, prev[k].amount);
      && gone == prev[..k] + prev[k + 1..]
      && RemoveFromCart(gone, prev[k].id) == gone
    decreases prev[k].amount
  {
    var id := prev[k].id;
    if prev[k].amount == 1 {
      RemoveLastUnitThenNoOp(prev, k);
    } else {
      var next := prev[k := prev[k].(amount := prev[k].amount - 1)];
      RemoveDecrementsInPlace(prev, k);
      RemovePreservesValid(prev, id);
      assert RemoveTimes(prev, id, prev[k].amount) == RemoveTimes(next, id, next[k].amount);
      RemoveUntilGone(next, k);
      assert next[..k] == prev[..k] && next[k + 1..] == prev[k + 1..];
    }
  }

  lemma RemoveLastUnitThenNoOp(prev: seq<CartItem>, k: int)
    requires IdsDistinct(prev) && 0 <= k < |prev| && prev[k].amount == 1
    ensures var gone := RemoveTimes(prev, prev[k].id, 1);
      && gone == prev[..k] + prev[k + 1..]
      && RemoveFromCart(gone, prev[k].id) == gone
  {
    var id := prev[k].id;
    var gone := prev[..k] + prev[k + 1..];
    RemoveDropsLastUnit(prev, k);
    assert RemoveTimes(prev, id, 1) == RemoveTimes(gone, id, 0);
    AbsentFromBothSides(prev, k);
    HasIdAppend(prev[..k], prev[k + 1..], id);
    RemoveAbsentIsNoOp(gone, id);
  }
}
