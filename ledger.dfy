/** The cart ledger as values: the line items, what each of the four cart
    operations does to the list (script.js, class Cart), the two projections
    shown to the user, and the facts that hold of them. The class in
    cart.dfy changes its `items` field exactly as these functions say. */
module Ledger {
  import opened Sequences

  /** One line of the cart. `price` is in integer cents; `quantity` is what
      `+= 1` and `+= change` act on. */
  datatype Item = Item(id: string, name: string, price: int, quantity: int)

  function Quantity(it: Item): int { it.quantity }

  function LineTotal(it: Item): int { it.price * it.quantity }

  /** Moving a line's quantity by `change` moves its total by `change` units
      at the line's price. */
  lemma LineTotalShift(x: Item, change: int)
    ensures LineTotal(x.(quantity := x.quantity + change)) == LineTotal(x) + x.price * change
  {
  }

  /** The badge count: the `reduce` over the quantities. With positive
      quantities every line contributes at least one unit. */
  function Count(s: seq<Item>): (r: int)
    ensures AllPositive(s) ==> r >= |s|
  {
    SumAtLeastLength(s, Quantity);
    Sum(s, Quantity)
  }

  /** The subtotal in cents: the `forEach` accumulation of price * quantity.
      It is 0 for the empty cart and never negative when no price or
      quantity is. */
  function Subtotal(s: seq<Item>): (r: int)
    ensures s == [] ==> r == 0
    ensures (forall i :: 0 <= i < |s| ==> s[i].price >= 0 && s[i].quantity >= 0) ==> r >= 0
  {
    SumNonNegative(s, LineTotal);
    Sum(s, LineTotal)
  }

  /** Index of the first item whose id is `id` (what `find` returns), or
      `|s|` when there is none. */
  function IndexOf(s: seq<Item>, id: string): (i: nat)
    ensures i <= |s|
    ensures i < |s| ==> s[i].id == id
    ensures forall j :: 0 <= j < i ==> s[j].id != id
  {
    if s == [] then 0
    else if s[0].id == id then 0
    else 1 + IndexOf(s[1..], id)
  }

  predicate Present(s: seq<Item>, id: string) { IndexOf(s, id) < |s| }

  function OtherThan(id: string): Item -> bool { (it: Item) => it.id != id }

  /** `filter(item => item.id !== id)`: no line with the id is left, and
      every line left was in the list. */
  function Without(s: seq<Item>, id: string): (r: seq<Item>)
    ensures |r| <= |s|
    ensures forall i :: 0 <= i < |r| ==> r[i].id != id && r[i] in s
  {
    Filter(s, OtherThan(id))
  }

  /** addToCart: bump the first item with that id, or append a fresh one.
      The list grows only on a miss, and every line with another id keeps
      its place and value. */
  function Added(s: seq<Item>, id: string, name: string, price: int): (r: seq<Item>)
    ensures |r| == if Present(s, id) then |s| else |s| + 1
    ensures forall j :: 0 <= j < |s| && s[j].id != id ==> r[j] == s[j]
  {
    var k := IndexOf(s, id);
    if k < |s| then s[k := s[k].(quantity := s[k].quantity + 1)]
    else s + [Item(id, name, price, 1)]
  }

  /** updateQuantity: on a hit, add `change`; at or below zero every item
      with that id goes. A miss leaves the list as it is. */
  function Updated(s: seq<Item>, id: string, change: int): (r: seq<Item>)
    ensures |r| <= |s|
    ensures !Present(s, id) ==> r == s
    ensures forall i :: 0 <= i < |r| && r[i].id != id ==> r[i] in s
  {
    var k := IndexOf(s, id);
    if k == |s| then s
    else if s[k].quantity + change <= 0 then Without(s, id)
    else s[k := s[k].(quantity := s[k].quantity + change)]
  }

  predicate AllPositive(s: seq<Item>) { forall i :: 0 <= i < |s| ==> s[i].quantity >= 1 }

  predicate UniqueIds(s: seq<Item>) { forall i, j :: 0 <= i < j < |s| ==> s[i].id != s[j].id }

  /** The ledger invariant: at most one line per id, and no line with a
      quantity of zero or less. */
  predicate Wellformed(s: seq<Item>) { AllPositive(s) && UniqueIds(s) }

  // ---------------------------------------------------------------- add

  /** Adding an id that is present raises that line's quantity by exactly one;
      its name and price stay (the passed ones are ignored) and every other
      line, and the length, are unchanged. */
  lemma AddExisting(s: seq<Item>, id: string, name: string, price: int)
    requires Present(s, id)
    ensures var k, r := IndexOf(s, id), Added(s, id, name, price);
      |r| == |s| && r[k].id == id && r[k].name == s[k].name && r[k].price == s[k].price &&
      r[k].quantity == s[k].quantity + 1 &&
      forall j :: 0 <= j < |s| && j != k ==> r[j] == s[j]
  {
  }

  /** Adding an absent id appends exactly one line with quantity 1. */
  lemma AddAbsent(s: seq<Item>, id: string, name: string, price: int)
    requires !Present(s, id)
    ensures Added(s, id, name, price) == s + [Item(id, name, price, 1)]
    ensures forall j :: 0 <= j < |s| ==> s[j].id != id
  {
  }

  lemma AddedWellformed(s: seq<Item>, id: string, name: string, price: int)
    ensures AllPositive(s) ==> AllPositive(Added(s, id, name, price))
    ensures UniqueIds(s) ==> UniqueIds(Added(s, id, name, price))
  {
  }

  /** Every add puts one more unit in the cart and that unit's price on the
      subtotal: the stored price for a present id, the passed one otherwise. */
  lemma AddedTotals(s: seq<Item>, id: string, name: string, price: int)
    ensures Count(Added(s, id, name, price)) == Count(s) + 1
    ensures Subtotal(Added(s, id, name, price)) ==
      Subtotal(s) + (if Present(s, id) then s[IndexOf(s, id)].price else price)
  {
    var k := IndexOf(s, id);
    if k < |s| {
      BumpedTotals(s, k, 1, Added(s, id, name, price));
    } else {
      var x := Item(id, name, price, 1);
      SumAppend(s, [x], Quantity);
      SumAppend(s, [x], LineTotal);
      SumSingle(x, Quantity);
      SumSingle(x, LineTotal);
    }
  }

  // ------------------------------------------------------------- remove

  /** After removeFromCart no line carries the id, every other line is still
      there, and nothing was added. */
  lemma WithoutMembers(s: seq<Item>, id: string)
    ensures forall i :: 0 <= i < |Without(s, id)| ==> Without(s, id)[i].id != id && Without(s, id)[i] in s
    ensures forall i :: 0 <= i < |s| && s[i].id != id ==> s[i] in Without(s, id)
  {
    FilterComplete(s, OtherThan(id));
  }

  /** removeFromCart keeps the relative order of the lines it keeps. */
  lemma WithoutKeepsOrder(s: seq<Item>, id: string)
    ensures IsSubsequence(Without(s, id), s)
  {
    FilterIsSubsequence(s, OtherThan(id));
  }

  /** Removing twice is removing once. */
  lemma WithoutIdempotent(s: seq<Item>, id: string)
    ensures Without(Without(s, id), id) == Without(s, id)
  {
    FilterIdempotent(s, OtherThan(id));
  }

  /** Removing an id that is not there changes nothing. */
  lemma WithoutAbsent(s: seq<Item>, id: string)
    requires !Present(s, id)
    ensures Without(s, id) == s
  {
    FilterKeepsAll(s, OtherThan(id));
  }

  /** With unique ids, removing an id takes out exactly its one line. */
  lemma WithoutOne(s: seq<Item>, id: string, k: nat)
    requires UniqueIds(s) && k < |s| && s[k].id == id
    ensures Without(s, id) == s[..k] + s[k + 1..]
  {
    var keep := OtherThan(id);
    forall i | 0 <= i < |s| && i != k ensures keep(s[i]) {
      if i < k { assert s[i].id != s[k].id; } else { assert s[k].id != s[i].id; }
    }
    FilterDropsOne(s, k, keep);
  }

  /** Prepending a line whose id the rest does not use keeps ids unique. */
  lemma UniqueCons(x: Item, t: seq<Item>)
    requires UniqueIds(t)
    requires forall i :: 0 <= i < |t| ==> t[i].id != x.id
    ensures UniqueIds([x] + t)
  {
    var r := [x] + t;
    forall i, j | 0 <= i < j < |r| ensures r[i].id != r[j].id {
      if i == 0 {
        assert r[j] == t[j - 1];
      } else {
        assert r[i] == t[i - 1] && r[j] == t[j - 1];
      }
    }
  }

  lemma {:induction false} WithoutUnique(s: seq<Item>, id: string)
    requires UniqueIds(s)
    ensures UniqueIds(Without(s, id))
  {
    if s != [] {
      var tail := s[1..];
      var rest := Without(tail, id);
      assert UniqueIds(tail) by {
        forall i, j | 0 <= i < j < |tail| ensures tail[i].id != tail[j].id {
          assert tail[i] == s[i + 1] && tail[j] == s[j + 1];
        }
      }
      WithoutUnique(tail, id);
      if s[0].id != id {
        assert Without(s, id) == [s[0]] + rest;
        assert forall y :: y in tail ==> y.id != s[0].id by {
          forall y | y in tail ensures y.id != s[0].id {
            var j :| 0 <= j < |tail| && tail[j] == y;
            assert s[j + 1] == y;
          }
        }
        UniqueCons(s[0], rest);
      } else {
        assert Without(s, id) == rest;
      }
    }
  }

  lemma WithoutWellformed(s: seq<Item>, id: string)
    ensures AllPositive(s) ==> AllPositive(Without(s, id))
    ensures UniqueIds(s) ==> UniqueIds(Without(s, id))
  {
    if UniqueIds(s) {
      WithoutUnique(s, id);
    }
  }

  /** With unique ids, removing a present id takes its line's units and
      amount off the two projections. */
  lemma WithoutTotals(s: seq<Item>, id: string)
    requires UniqueIds(s) && Present(s, id)
    ensures Count(Without(s, id)) == Count(s) - s[IndexOf(s, id)].quantity
    ensures Subtotal(Without(s, id)) == Subtotal(s) - LineTotal(s[IndexOf(s, id)])
  {
    var k := IndexOf(s, id);
    WithoutOne(s, id, k);
    DroppedTotals(s, k, Without(s, id));
  }

  // ----------------------------------------------------- change quantity

  /** A lookup miss changes nothing. */
  lemma UpdateAbsent(s: seq<Item>, id: string, change: int)
    requires !Present(s, id)
    ensures Updated(s, id, change) == s
  {
  }

  /** On a hit (ids unique) the line's new quantity is old + change; if that
      is at most zero exactly that line is gone, otherwise it keeps its place
      and every other line is unchanged. */
  lemma UpdatePresent(s: seq<Item>, id: string, change: int)
    requires UniqueIds(s) && Present(s, id)
    ensures var k, r := IndexOf(s, id), Updated(s, id, change);
      if s[k].quantity + change <= 0 then r == s[..k] + s[k + 1..]
      else (|r| == |s| && r[k] == s[k].(quantity := s[k].quantity + change) &&
            forall j :: 0 <= j < |s| && j != k ==> r[j] == s[j])
  {
    var k := IndexOf(s, id);
    if s[k].quantity + change <= 0 {
      assert Updated(s, id, change) == Without(s, id);
      WithoutOne(s, id, k);
    } else {
      assert Updated(s, id, change) == s[k := s[k].(quantity := s[k].quantity + change)];
    }
  }

  lemma UpdatedWellformed(s: seq<Item>, id: string, change: int)
    ensures AllPositive(s) ==> AllPositive(Updated(s, id, change))
    ensures UniqueIds(s) ==> UniqueIds(Updated(s, id, change))
  {
    WithoutWellformed(s, id);
  }

  /** With unique ids, a hit moves the count by `change`, or by the whole
      line when the line is dropped; the subtotal moves by the same units at
      the line's price. */
  lemma UpdatedTotals(s: seq<Item>, id: string, change: int)
    requires UniqueIds(s) && Present(s, id)
    ensures var x := s[IndexOf(s, id)];
      if x.quantity + change <= 0 then
        Count(Updated(s, id, change)) == Count(s) - x.quantity &&
        Subtotal(Updated(s, id, change)) == Subtotal(s) - LineTotal(x)
      else
        Count(Updated(s, id, change)) == Count(s) + change &&
        Subtotal(Updated(s, id, change)) == Subtotal(s) + x.price * change
  {
    var k := IndexOf(s, id);
    UpdatePresent(s, id, change);
    if s[k].quantity + change <= 0 {
      DroppedTotals(s, k, Updated(s, id, change));
    } else {
      BumpedTotals(s, k, change, Updated(s, id, change));
    }
  }

  lemma DroppedTotals(s: seq<Item>, k: nat, r: seq<Item>)
    requires k < |s| && r == s[..k] + s[k + 1..]
    ensures Count(r) == Count(s) - s[k].quantity
    ensures Subtotal(r) == Subtotal(s) - LineTotal(s[k])
  {
    SumRemove(s, k, Quantity);
    SumRemove(s, k, LineTotal);
  }

  lemma BumpedTotals(s: seq<Item>, k: nat, change: int, r: seq<Item>)
    requires k < |s| && r == s[k := s[k].(quantity := s[k].quantity + change)]
    ensures Count(r) == Count(s) + change
    ensures Subtotal(r) == Subtotal(s) + s[k].price * change
  {
    var y := s[k].(quantity := s[k].quantity + change);
    SumUpdate(s, k, y, Quantity);
    SumUpdate(s, k, y, LineTotal);
    LineTotalShift(s[k], change);
  }

  // -------------------------------------------------------- projections

  /** Under the invariant the badge counts at least one unit per line, so it
      reads 0 exactly when the cart is empty. */
  lemma CountOfWellformed(s: seq<Item>)
    requires AllPositive(s)
    ensures Count(s) == 0 <==> s == []
  {
  }

  /** A short session with one dish at 9.99: two adds, a miss, and a drop. */
  lemma BruschettaSession()
    ensures var one := Added([], "5", "Bruschetta", 999);
      var two := Added(one, "5", "Bruschetta", 999);
      one == [Item("5", "Bruschetta", 999, 1)] && Subtotal(one) == 999 &&
      two == [Item("5", "Bruschetta", 999, 2)] && Subtotal(two) == 1998 &&
      Updated(two, "99", -1) == two &&
      Updated(two, "5", -2) == [] && Count([]) == 0 && Subtotal([]) == 0
  {
    var one := Added([], "5", "Bruschetta", 999);
    AddedTotals([], "5", "Bruschetta", 999);
    AddedTotals(one, "5", "Bruschetta", 999);
    var two := Added(one, "5", "Bruschetta", 999);
    assert two == [Item("5", "Bruschetta", 999, 2)];
    WithoutOne(two, "5", 0);
  }
}
