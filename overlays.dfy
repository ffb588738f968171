/** The two overlays of script.js as the classes the toggles flip:
    `open` on the cart preview (Cart.toggleCart) and `hidden` / `flex` /
    `open` on the table-booking form (Booking.toggleBookingForm). The form is
    on screen exactly when it lacks `hidden`. */
module Overlays {

  datatype OverlayState = OverlayState(cartOpen: bool, bookingHidden: bool, bookingFlex: bool, bookingOpen: bool)

  datatype Toggle = CartToggle | BookingToggle

  predicate CartVisible(o: OverlayState) { o.cartOpen }

  predicate BookingVisible(o: OverlayState) { !o.bookingHidden }

  /** At most one overlay on screen, and the form's `hidden` and `flex`
      classes in step. */
  predicate Settled(o: OverlayState)
  {
    !(CartVisible(o) && BookingVisible(o)) && o.bookingHidden != o.bookingFlex
  }

  /** toggleCart as written: flips the cart and removes `open` from the
      form, a class that does not decide whether the form is shown. */
  function ToggleCartAsWritten(o: OverlayState): (r: OverlayState)
    ensures CartVisible(r) == !CartVisible(o)
    ensures BookingVisible(r) == BookingVisible(o)
  {
    o.(cartOpen := !o.cartOpen, bookingOpen := false)
  }

  /** toggleCart as its comment intends: opening the cart closes the form. */
  function ToggleCart(o: OverlayState): OverlayState
  {
    o.(cartOpen := !o.cartOpen, bookingHidden := true, bookingFlex := false, bookingOpen := false)
  }

  /** toggleBookingForm: flips `hidden` and `flex` and closes the cart. */
  function ToggleBookingForm(o: OverlayState): (r: OverlayState)
    ensures !CartVisible(r)
    ensures BookingVisible(r) == !BookingVisible(o)
  {
    o.(bookingHidden := !o.bookingHidden, bookingFlex := !o.bookingFlex, cartOpen := false)
  }

  function Step(o: OverlayState, t: Toggle): OverlayState
  {
    match t
    case CartToggle => ToggleCart(o)
    case BookingToggle => ToggleBookingForm(o)
  }

  function Replay(o: OverlayState, ts: seq<Toggle>): OverlayState
    decreases |ts|
  {
    if ts == [] then o else Replay(Step(o, ts[0]), ts[1..])
  }

  /** As written, opening the cart while the form is on screen leaves both
      on screen. */
  lemma CartLeavesBookingOpen()
    ensures var o := OverlayState(false, false, true, false);
      Settled(o) && CartVisible(ToggleCartAsWritten(o)) && BookingVisible(ToggleCartAsWritten(o))
  {
  }

  /** Corrected, the cart toggle always leaves the form off screen. */
  lemma ToggleCartClosesBooking(o: OverlayState)
    ensures !BookingVisible(ToggleCart(o))
    ensures CartVisible(ToggleCart(o)) == !CartVisible(o)
  {
  }

  /** With the corrected cart toggle, any sequence of clicks keeps the
      overlays mutually exclusive. */
  lemma {:induction false} ReplaySettled(o: OverlayState, ts: seq<Toggle>)
    requires Settled(o)
    ensures Settled(Replay(o, ts))
    decreases |ts|
  {
    if ts != [] {
      assert Settled(Step(o, ts[0]));
      ReplaySettled(Step(o, ts[0]), ts[1..]);
    }
  }
}
