# Restaurant site cart ledger, in Dafny

This project models the shopping cart of a restaurant website's browser
script (`script.js`, class `Cart`). The cart is an ordered list of line items
`{id, name, price, quantity}`, kept in the field `this.cart` and written to
browser storage under the key `'cart'` after each change. Four operations
change it:

- add: bump the quantity of the first line with the id, or append a new line
  with quantity 1;
- change quantity: add a delta, and drop the line if the result is at most 0;
- remove: filter out every line with the id;
- clear: empty the list.

After every save, two projections are re-rendered: the badge count (the sum
of the quantities, written to both the desktop and the mobile badge) and the
cart preview (one row per line in list order, plus the subtotal, the sum of
price × quantity). The project also models two smaller pieces. The first is
the category filter that picks which dishes the menu renders. The second is
the pair of overlay toggles, the cart preview and the table-booking form,
where one defect is recorded under Findings.

Files and modules:

- `sequences.dfy`, module `Sequences`: `Filter` (JavaScript's `filter`), a
  left-fold `Sum` (the order of `reduce` and `forEach`), `IsSubsequence`, and
  the facts about them.
- `ledger.dfy`, module `Ledger`: the `Item` datatype and the list functions.
  `Added`, `Updated` and `Without` give the result of add, change quantity
  and remove. `Count` and `Subtotal` are the two projections. The invariant
  `Wellformed` means unique ids and quantities of at least 1. The lemmas
  state what each operation does and that each one keeps the invariant.
- `cart.dfy`, module `Carts`: the class `Cart`. Its fields are the list,
  the stored copy, the two badges and the preview. Its methods are proved
  against the `Ledger` functions. The module also holds the click-intent
  router (`Intent`, `Apply`, `Dispatch`) and the whole-session invariant
  `RunWellformed`.
- `menu.dfy`, module `Menu`: `FilteredItems`, the filtering step of
  `renderMenuItems`.
- `overlays.dfy`, module `Overlays`: the CSS classes the two overlay toggles
  flip.

Prices are integer cents, so subtotals are exact. Ids are strings, because
the click handlers read them from `data-id` attributes and compare them with
`===`.

Notes on the code's behaviour:

- A change of quantity on an absent id neither saves nor re-renders. The
  save is inside the `if` at script.js:82-90. The model states this as
  `unchanged(this)`.
- Remove drops every line with the id, not just one.
- Stored content that cannot be parsed makes `JSON.parse` throw. It is not
  read as an empty cart. `JSON.parse(...) || []` (script.js:4) gives the empty
  list for a missing key and for stored JSON that parses to a falsy value
  (`null`, `false`, `0`, `""`). A stored array, even an empty one, is kept.
- Opening the cart does not close the booking form, so the two overlays are
  not mutually exclusive in both directions. See Findings.
- No price or id is validated. Any `price` and `name` is accepted as given.

## Model

| member | source | states |
|---|---|---|
| Sequences.Filter | script.js:94 | every element of the result comes from the input and passes the test; the result is no longer than the input |
| Sequences.FilterComplete | script.js:94 | every input element that passes the test is in the result |
| Sequences.FilterCounts | script.js:94 | the result holds every copy of each element that passes the test, and no copy of one that fails |
| Sequences.FilterIsSubsequence | script.js:94 | a filter result is a subsequence of its input, so the relative order of kept elements is preserved |
| Ledger.IndexOf | script.js:62 | `find` by id: the index is the first line whose id matches, or the length when no line matches |
| Ledger.Count | script.js:15 | the badge count; when every quantity is at least 1 it is at least the number of lines |
| Ledger.Subtotal | script.js:35-38 | the subtotal in cents: 0 for the empty cart, and never negative when no price or quantity is |
| Ledger.Added | script.js:61-72 | add grows the list by one line exactly when the id is absent, and every line with another id keeps its place and value |
| Ledger.Updated | script.js:79-87 | a change of quantity never lengthens the list, leaves it exactly as it was on an absent id, and every line with another id was already in the list |
| Ledger.Without | script.js:94 | remove never lengthens the list, leaves no line with the id, and every remaining line was in the list |
| Ledger.AddExisting | script.js:61-65 | adding a present id raises that line's quantity by exactly 1, keeps its id, name and price (the passed ones are ignored), and leaves the length and every other line unchanged |
| Ledger.AddAbsent | script.js:66-72 | adding an absent id appends exactly one line `{id, name, price, 1}` at the end after the unchanged old lines |
| Ledger.AddedWellformed | script.js:62-72 | add keeps every quantity at least 1 and keeps the ids unique |
| Ledger.AddedTotals | script.js:61-72 | every add raises the badge count by 1 and the subtotal by the price of one unit: the stored price when the id is present, the passed price otherwise |
| Ledger.WithoutMembers | script.js:94 | after remove no line has the id, every remaining line was in the cart, and every line with another id is still there |
| Ledger.WithoutKeepsOrder | script.js:94 | remove preserves the relative order of the remaining lines |
| Ledger.WithoutIdempotent | script.js:93-96 | removing an id twice gives the same list as removing it once |
| Ledger.WithoutAbsent | script.js:94 | removing an absent id leaves the list unchanged |
| Ledger.WithoutOne | script.js:94 | when ids are unique, removing a present id deletes exactly its one line and keeps the lines before and after it in place |
| Ledger.WithoutUnique | script.js:94 | remove keeps the ids unique |
| Ledger.WithoutWellformed | script.js:94 | remove keeps every quantity at least 1 and keeps the ids unique |
| Ledger.WithoutTotals | script.js:93-96 | when ids are unique, removing a present id lowers the count by that line's quantity and the subtotal by that line's total |
| Ledger.UpdateAbsent | script.js:79-82 | a change of quantity on an absent id leaves the list exactly as it was |
| Ledger.UpdatePresent | script.js:83-87 | on a present id (ids unique) the new quantity is old + change; at most 0 removes exactly that line, otherwise the line keeps its position and all other lines are unchanged |
| Ledger.UpdatedWellformed | script.js:83-87 | a change of quantity keeps every quantity at least 1 (a line that falls to 0 or below is removed) and keeps the ids unique |
| Ledger.UpdatedTotals | script.js:83-87 | on a present id the count moves by `change` and the subtotal by `change` units at the line's price; when the line is dropped, both lose the whole line |
| Ledger.CountOfWellformed | script.js:15 | when all quantities are at least 1, the badge count is 0 exactly when the cart is empty |
| Ledger.BruschettaSession | script.js:61-91 | one dish at 9.99: the first add gives one line with subtotal 999 cents; the second add gives quantity 2 and subtotal 1998 with no duplicate line; a miss changes nothing; a change of -2 empties the cart |
| Carts.WithoutIgnoresBump | script.js:83-86 | mutating the found line before filtering by its id gives the same result as filtering the unmodified list |
| Carts.Apply | script.js:129-151 | each click intent maps to its one ledger call (decrease a change of -1, increase +1), and every intent keeps the ledger invariant |
| Carts.RunWellformed | script.js:120-152 | for any sequence of intents from a well-formed list (the empty one included), ids stay unique, quantities stay at least 1, and the count is at least the number of lines |
| Carts.Cart.constructor | script.js:3-12 | the list is the stored list, or empty when the key is absent; the badges and the preview are rendered from it |
| Carts.Cart.UpdateCartCount | script.js:14-18 | both badges show the same value, the sum of quantities |
| Carts.Cart.BuildPreview | script.js:25-55 | an empty cart shows the empty message, no rows and the fixed text "$0.00"; otherwise one row per line in list order (name, quantity, line total, id) and the subtotal, the sum of price × quantity |
| Carts.Cart.UpdateCartPreview | script.js:20-59 | the preview afterwards shows the current list |
| Carts.Cart.SaveCart | script.js:103-107 | storage holds the current list and both badges and the preview show it; the list is untouched |
| Carts.Cart.AddToCart | script.js:61-77 | the list becomes `Added` of the old list; it is saved and re-rendered; the notice names the passed name; the invariant is kept |
| Carts.Cart.UpdateQuantity | script.js:79-91 | the list becomes `Updated` of the old list; on a miss the object is unchanged (no save, no re-render); on a hit it is saved and re-rendered; the invariant is kept |
| Carts.Cart.RemoveFromCart | script.js:93-96 | the list becomes the old list minus every line with the id; it is saved and re-rendered; the invariant is kept |
| Carts.Cart.ClearCart | script.js:98-101 | the list is empty, storage holds the empty list, and the badges and preview show the empty cart |
| Carts.Cart.Dispatch | script.js:129-151 | each intent runs its one ledger call and the list becomes `Apply` of the old list; a -/+ click on an absent id leaves the whole object unchanged; every other intent saves the new list and re-renders both badges and the preview; the invariant is kept |
| Menu.AllIsIdentity | script.js:239-241 | the category "all" renders the full menu in catalog order |
| Menu.FilteredItems | script.js:241-245 | the rendered dishes are never more than the menu, all come from the menu, and for a category other than "all" all belong to it |
| Menu.CategoryShowsExactly | script.js:243-245 | any other category renders only dishes of that category from the menu, renders every such dish as many times as the menu lists it, and keeps catalog order |
| Overlays.ToggleCartAsWritten | script.js:154-158 | as written, the cart toggle flips whether the cart is shown and leaves the booking form shown or hidden as it was |
| Overlays.ToggleBookingForm | script.js:308-313 | toggling the booking form always closes the cart and flips whether the form is shown |
| Overlays.CartLeavesBookingOpen | script.js:154-158 | as written: with the form shown and the cart closed, toggling the cart leaves both shown |
| Overlays.ToggleCartClosesBooking | script.js:154-158 | corrected: toggling the cart always hides the booking form and flips whether the cart is shown |
| Overlays.ReplaySettled | script.js:154-158 | with the corrected cart toggle, any sequence of toggles keeps at most one overlay shown and keeps `hidden`/`flex` in step |

## Left out

- Browser storage and JSON: the stored value is modelled as an already parsed list, or none when `JSON.parse(...) || []` falls back to the empty list (a missing key or a falsy stored value). A stored truthy value that is not an array (an object, a non-zero number, a non-empty string) is not modelled. Serialisation, the round trip through it, and the exception `JSON.parse` throws on malformed content are not modelled.
- Carts.Cart.constructor: does not establish `Valid()`, because the stored list is not validated on load. Each operation keeps the invariant only when it held before.
- `parseFloat(price)`: the model takes the price as integer cents. An unparseable price (NaN) and float rounding are not modelled.
- `toFixed(2)` formatting: the preview carries line totals and the non-empty subtotal as cents. Only the empty cart's literal "$0.00" is a string.
- JavaScript numbers are unbounded integers here. Precision loss beyond 2^53 is not modelled.
- The line item objects are modelled as values in a sequence. `existingItem.quantity += 1` becomes an update of the sequence element. No other code holds a reference to a line item, so no aliasing is lost.
- HTML templates and `innerHTML` assignment: only the content they show is modelled, not the markup.
- The toast of `showNotification`: only its text is modelled. The DOM element and its removal after 2 seconds are timers and DOM.
- Event wiring: the intents stand for the class-name checks of the delegated listener and the clear button. An element that carries several of those classes would run several calls. That case is not modelled.
- The menu catalog data, the category-button styling and the rendering of dishes are not modelled, only the choice of dishes.
- The page markup is not part of this model. The overlay states are the classes the toggles flip, and the initial classes of the two elements are not modelled.
- Booking submission, the minimum booking date, `alert` and `console.log`, the image modal, the mobile menu and `window.open`: these are I/O, clock and browser APIs.
- Ledger.UpdatePresent, Ledger.UpdatedTotals, Ledger.WithoutOne and Ledger.WithoutTotals: stated only for lists with unique ids. That is the ledger invariant every operation keeps. Lists with duplicate ids are still handled by `Updated` and `Without`, exactly as in the code.

## Findings

| source | as written | input that shows it | evidently intended | confidence | as-written member | corrected member |
|---|---|---|---|---|---|---|
| script.js:154-158 | `toggleCart` removes the class `open` from the booking form, but the form is shown or hidden by `hidden`/`flex` (script.js:309-310) | booking form shown (`flex`, no `hidden`), cart closed; click the cart toggle: the cart opens and the form stays shown | opening the cart closes the booking form, as its comment says and as `toggleBookingForm` closes the cart | medium, not executed (the page's CSS is not part of this model) | Overlays.CartLeavesBookingOpen | Overlays.ToggleCartClosesBooking |
