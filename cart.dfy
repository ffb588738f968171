/** The `Cart` object of script.js: the mutable list `this.cart`, the
    persisted copy under the storage key 'cart', the two count badges and
    the cart preview it re-renders after every save, and the click intents
    that drive it. */
module Carts {
  import opened Sequences
  import opened Ledger

  datatype Option<T> = None | Some(value: T)

  /** What the preview shows as subtotal: the fixed text of the empty cart,
      or an amount in cents (its two-decimal formatting is not modelled). */
  datatype SubtotalShown = Literal(text: string) | Cents(amount: int)

  /** One rendered line: name, quantity with its -/+ buttons, line total and
      the remove button, the three buttons carrying the id. */
  datatype Row = Row(id: string, name: string, quantity: int, lineTotal: int)

  /** The cart preview: whether the empty-cart message is visible, the rows,
      and the subtotal. */
  datatype Preview = Preview(emptyMessage: bool, rows: seq<Row>, subtotal: SubtotalShown)

  const EmptySubtotal: string := "$0.00"

  function RowOf(it: Item): Row { Row(it.id, it.name, it.quantity, LineTotal(it)) }

  /** `p` is what the preview shows for the list `s`: for an empty list the
      message, no rows and "$0.00"; otherwise one row per line in list order
      and the subtotal of the list. */
  predicate Shows(p: Preview, s: seq<Item>)
  {
    if s == [] then p == Preview(true, [], Literal(EmptySubtotal))
    else (!p.emptyMessage && |p.rows| == |s| &&
          (forall i :: 0 <= i < |s| ==> p.rows[i] == RowOf(s[i])) &&
          p.subtotal == Cents(Subtotal(s)))
  }

  /** The user interactions the delegated click listener and the clear
      button turn into ledger calls. */
  datatype Intent =
    | Add(id: string, name: string, price: int)
    | Decrease(id: string)
    | Increase(id: string)
    | Remove(id: string)
    | Clear

  /** The list after one intent: decrease is a change of -1, increase of +1.
      Every intent keeps the ledger invariant. */
  function Apply(s: seq<Item>, intent: Intent): (r: seq<Item>)
    ensures Wellformed(s) ==> Wellformed(r)
  {
    match intent
    case Add(id, name, price) => AddedWellformed(s, id, name, price); Added(s, id, name, price)
    case Decrease(id) => UpdatedWellformed(s, id, -1); Updated(s, id, -1)
    case Increase(id) => UpdatedWellformed(s, id, 1); Updated(s, id, 1)
    case Remove(id) => WithoutWellformed(s, id); Without(s, id)
    case Clear => []
  }

  /** A -/+ click on an id the cart does not hold: the one intent that
      neither saves nor re-renders. */
  predicate IsMiss(s: seq<Item>, intent: Intent)
  {
    (intent.Decrease? || intent.Increase?) && !Present(s, intent.id)
  }

  /** The list after a whole session of intents, in order. */
  function Run(s: seq<Item>, intents: seq<Intent>): seq<Item>
    decreases |intents|
  {
    if intents == [] then s else Run(Apply(s, intents[0]), intents[1..])
  }

  /** Whatever the user clicks, starting from a well-formed list (the empty
      one included) the ids stay unique and every quantity stays at least 1,
      so the badge counts at least one unit per line. */
  lemma {:induction false} RunWellformed(s: seq<Item>, intents: seq<Intent>)
    requires Wellformed(s)
    ensures Wellformed(Run(s, intents))
    ensures Count(Run(s, intents)) >= |Run(s, intents)|
    decreases |intents|
  {
    if intents != [] {
      RunWellformed(Apply(s, intents[0]), intents[1..]);
    }
  }

  /** The JavaScript mutates the found line before filtering; the filter
      drops that line anyway, so the result is the filter of the old list. */
  lemma WithoutIgnoresBump(s: seq<Item>, id: string, k: nat, x: Item)
    requires k < |s| && s[k].id == id && x.id == id
    ensures Without(s[k := x], id) == Without(s, id)
  {
    var keep := OtherThan(id);
    assert s == s[..k] + [s[k]] + s[k + 1..];
    assert s[k := x] == s[..k] + [x] + s[k + 1..];
    FilterAppend(s[..k] + [s[k]], s[k + 1..], keep);
    FilterAppend(s[..k], [s[k]], keep);
    FilterAppend(s[..k] + [x], s[k + 1..], keep);
    FilterAppend(s[..k], [x], keep);
    assert Filter([s[k]], keep) == [] == Filter([x], keep);
  }

  class Cart {
    /** `this.cart`, the ledger. */
    var items: seq<Item>
    /** What the storage holds under the key 'cart'. */
    var stored: Option<seq<Item>>
    /** The text of the `cart-count` and `mobile-cart-count` badges. */
    var badge: int
    var mobileBadge: int
    var preview: Preview

    predicate Valid()
      reads this
    {
      Wellformed(items)
    }

    /** Both badges and the preview reflect the current list. */
    predicate Displayed()
      reads this
    {
      badge == Count(items) && mobileBadge == Count(items) && Shows(preview, items)
    }

    /** Loads the list from storage (the empty list when the key is absent),
        then renders the count and the preview. */
    constructor (saved: Option<seq<Item>>)
      ensures items == (if saved.Some? then saved.value else [])
      ensures stored == saved
      ensures Displayed()
    {
      items := if saved.Some? then saved.value else [];
      stored := saved;
      badge, mobileBadge := 0, 0;
      preview := Preview(true, [], Literal(EmptySubtotal));
      new;
      UpdateCartCount();
      UpdateCartPreview();
    }

    /** updateCartCount: the same sum of quantities goes to both badges. */
    method UpdateCartCount()
      modifies this`badge, this`mobileBadge
      ensures badge == Count(items) && mobileBadge == badge
    {
      var totalItems := Count(items);
      badge := totalItems;
      mobileBadge := totalItems;
    }

    /** The computing part of updateCartPreview: the empty-cart branch, and
        the `forEach` that accumulates the subtotal and one row per line. */
    method BuildPreview() returns (p: Preview)
      ensures Shows(p, items)
    {
      if |items| == 0 {
        return Preview(true, [], Literal(EmptySubtotal));
      }
      var rows: seq<Row> := [];
      var subtotal := 0;
      var i := 0;
      while i < |items|
        invariant 0 <= i <= |items|
        invariant |rows| == i
        invariant forall j :: 0 <= j < i ==> rows[j] == RowOf(items[j])
        invariant subtotal == Subtotal(items[..i])
      {
        assert items[..i + 1][..i] == items[..i];
        subtotal := subtotal + items[i].price * items[i].quantity;
        rows := rows + [RowOf(items[i])];
        i := i + 1;
      }
      assert items[..i] == items;
      p := Preview(false, rows, Cents(subtotal));
    }

    /** updateCartPreview: re-renders the preview from the list. */
    method UpdateCartPreview()
      modifies this`preview
      ensures Shows(preview, items)
    {
      preview := BuildPreview();
    }

    /** saveCart: writes the whole list to storage and re-renders. */
    method SaveCart()
      modifies this`stored, this`badge, this`mobileBadge, this`preview
      ensures stored == Some(items)
      ensures Displayed()
    {
      stored := Some(items);
      UpdateCartCount();
      UpdateCartPreview();
    }

    /** addToCart: returns the text of the notification it shows, which
        names the passed `name` even when an existing line was bumped. */
    method AddToCart(id: string, name: string, price: int) returns (notice: string)
      modifies this
      ensures items == Added(old(items), id, name, price)
      ensures stored == Some(items) && Displayed()
      ensures notice == name + " added to cart!"
      ensures old(Valid()) ==> Valid()
    {
      AddedWellformed(items, id, name, price);
      var k := IndexOf(items, id);
      if k < |items| {
        items := items[k := items[k].(quantity := items[k].quantity + 1)];
      } else {
        items := items + [Item(id, name, price, 1)];
      }
      SaveCart();
      notice := name + " added to cart!";
    }

    /** updateQuantity: a miss neither saves nor re-renders. */
    method UpdateQuantity(id: string, change: int)
      modifies this
      ensures items == Updated(old(items), id, change)
      ensures !Present(old(items), id) ==> unchanged(this)
      ensures Present(old(items), id) ==> stored == Some(items) && Displayed()
      ensures old(Valid()) ==> Valid()
    {
      UpdatedWellformed(items, id, change);
      ghost var before := items;
      var k := IndexOf(items, id);
      if k < |items| {
        var item := items[k].(quantity := items[k].quantity + change);
        WithoutIgnoresBump(items, id, k, item);
        items := items[k := item];
        if item.quantity <= 0 {
          items := Without(items, id);
        }
        assert items == Updated(before, id, change);
        SaveCart();
      }
    }

    /** removeFromCart */
    method RemoveFromCart(id: string)
      modifies this
      ensures items == Without(old(items), id)
      ensures stored == Some(items) && Displayed()
      ensures old(Valid()) ==> Valid()
    {
      WithoutWellformed(items, id);
      items := Without(items, id);
      SaveCart();
    }

    /** clearCart */
    method ClearCart()
      modifies this
      ensures items == []
      ensures stored == Some([]) && Displayed()
      ensures Valid()
    {
      items := [];
      SaveCart();
    }

    /** The click router: one intent, one ledger call. */
    method Dispatch(intent: Intent)
      modifies this
      ensures items == Apply(old(items), intent)
      ensures IsMiss(old(items), intent) ==> unchanged(this)
      ensures !IsMiss(old(items), intent) ==> stored == Some(items) && Displayed()
      ensures old(Valid()) ==> Valid()
    {
      match intent
      case Add(id, name, price) =>
        var _ := AddToCart(id, name, price);
      case Decrease(id) =>
        UpdateQuantity(id, -1);
      case Increase(id) =>
        UpdateQuantity(id, 1);
      case Remove(id) =>
        RemoveFromCart(id);
      case Clear =>
        ClearCart();
    }
  }
}
