/** The merchant dashboard's own state: a copy of the menu that items can be
    deleted from, and the table bookings whose status the merchant overwrites.
    The state lives as long as the dashboard screen is mounted; notifications
    go to the root's queue. */
module Merchant {
  import opened Types
  import opened Seqs
  import opened Notifications
  import Catalog
  import AppState

  const MenuItemDeletedMessage: string := "Đã xóa món ăn khỏi menu"
  const BookingConfirmedMessage: string := "Đã nhận bàn thành công"
  const BookingRejectedMessage: string := "Đã từ chối đặt bàn"

  // ---------------------------------------------------------------------------
  // Menu

  /** The filter predicate `item.id !== id`. */
  function OtherMenuItem(id: string): MenuItem -> bool
  {
    (m: MenuItem) => m.id != id
  }

  /** `prev.filter(item => item.id !== id)`. */
  function DeleteMenuItem(menu: seq<MenuItem>, id: string): (r: seq<MenuItem>)
    ensures forall i :: 0 <= i < |r| ==> r[i].id != id
    ensures forall m :: m in r <==> m in menu && m.id != id
  {
    Filter(menu, OtherMenuItem(id))
  }

  /** Deleting an id the menu does not hold changes nothing. */
  lemma DeleteMenuItemAbsent(menu: seq<MenuItem>, id: string)
    requires forall i :: 0 <= i < |menu| ==> menu[i].id != id
    ensures DeleteMenuItem(menu, id) == menu
  {
    FilterAll(menu, OtherMenuItem(id));
  }

  /** The remaining items keep their relative order: deleting from a split
      menu deletes from each part. */
  lemma DeleteMenuItemConcat(a: seq<MenuItem>, b: seq<MenuItem>, id: string)
    ensures DeleteMenuItem(a + b, id) == DeleteMenuItem(a, id) + DeleteMenuItem(b, id)
  {
    FilterConcat(a, b, OtherMenuItem(id));
  }

  // ---------------------------------------------------------------------------
  // Bookings

  /** The status an action writes: confirm gives confirmed, reject gives cancelled. */
  function ActionStatus(action: BookingAction): (s: BookingStatus)
    ensures s != Pending
  {
    match action
    case Confirm => Confirmed
    case Reject => Cancelled
  }

  /** `prev.map(b => b.id === id ? { ...b, status: ... } : b)`: every booking with
      the id has its status overwritten; no other booking and no other field changes. */
  function ApplyBookingAction(bs: seq<Booking>, id: int, action: BookingAction): (r: seq<Booking>)
    ensures |r| == |bs|
    ensures forall j :: 0 <= j < |bs| ==> r[j] == bs[j].(status := r[j].status)
    ensures forall j :: 0 <= j < |bs| && bs[j].id != id ==> r[j] == bs[j]
    ensures forall j :: 0 <= j < |bs| && bs[j].id == id ==> r[j].status == ActionStatus(action)
  {
    seq(|bs|, j requires 0 <= j < |bs| =>
      if bs[j].id == id then bs[j].(status := ActionStatus(action)) else bs[j])
  }

  predicate UniqueBookingIds(bs: seq<Booking>)
  {
    forall i, j :: 0 <= i < j < |bs| ==> bs[i].id != bs[j].id
  }

  /** The dashboard shows the confirm and reject buttons only on pending bookings. */
  predicate Offered(bs: seq<Booking>, id: int)
  {
    exists j :: 0 <= j < |bs| && bs[j].id == id && bs[j].status == Pending
  }

  /** The allowed status moves: stay put, or leave pending for good. */
  predicate StatusStep(before: BookingStatus, after: BookingStatus)
  {
    before == after || (before == Pending && after != Pending)
  }

  /** The action handler never changes a booking's id, so ids stay unique. */
  lemma BookingActionKeepsIds(bs: seq<Booking>, id: int, action: BookingAction)
    requires UniqueBookingIds(bs)
    ensures UniqueBookingIds(ApplyBookingAction(bs, id, action))
  {
  }

  /** Performing the same action twice is the same as performing it once. */
  lemma BookingActionIdempotent(bs: seq<Booking>, id: int, action: BookingAction)
    ensures ApplyBookingAction(ApplyBookingAction(bs, id, action), id, action) ==
      ApplyBookingAction(bs, id, action)
  {
  }

  /** An offered action, with unique booking ids, moves only the one pending
      booking and leaves every confirmed or cancelled booking as it was. */
  lemma OfferedActionOneWay(bs: seq<Booking>, id: int, action: BookingAction)
    requires UniqueBookingIds(bs) && Offered(bs, id)
    ensures forall j :: 0 <= j < |bs| ==>
      StatusStep(bs[j].status, ApplyBookingAction(bs, id, action)[j].status)
    ensures forall j :: 0 <= j < |bs| && bs[j].status != Pending ==>
      ApplyBookingAction(bs, id, action)[j] == bs[j]
  {
  }

  /** The handler itself does not guard: on the seed data, rejecting booking 2,
      which is already confirmed, overwrites it with cancelled. */
  lemma UnguardedActionOverwrites()
    ensures Catalog.SeedBookings[1].status == Confirmed
    ensures ApplyBookingAction(Catalog.SeedBookings, 2, Reject)[1].status == Cancelled
  {
  }

  /** A sequence of merchant clicks: the booking id and the button pressed. */
  datatype Click = Click(id: int, action: BookingAction)

  function RunClicks(bs: seq<Booking>, clicks: seq<Click>): seq<Booking>
    decreases clicks
  {
    if clicks == [] then bs
    else RunClicks(ApplyBookingAction(bs, clicks[0].id, clicks[0].action), clicks[1..])
  }

  /** Every click lands on a booking whose buttons are on screen when it is made. */
  predicate AllOffered(bs: seq<Booking>, clicks: seq<Click>)
    decreases clicks
  {
    clicks == [] ||
    (Offered(bs, clicks[0].id) &&
     AllOffered(ApplyBookingAction(bs, clicks[0].id, clicks[0].action), clicks[1..]))
  }

  /** Through any sequence of clicks the dashboard can offer, a confirmed or
      cancelled booking never changes again: both statuses are terminal. */
  lemma {:induction false} TerminalStaysTerminal(bs: seq<Booking>, clicks: seq<Click>, j: int)
    requires UniqueBookingIds(bs) && AllOffered(bs, clicks)
    requires 0 <= j < |bs| && bs[j].status != Pending
    ensures |RunClicks(bs, clicks)| == |bs|
    ensures RunClicks(bs, clicks)[j] == bs[j]
    decreases clicks
  {
    if clicks != [] {
      var next := ApplyBookingAction(bs, clicks[0].id, clicks[0].action);
      OfferedActionOneWay(bs, clicks[0].id, clicks[0].action);
      BookingActionKeepsIds(bs, clicks[0].id, clicks[0].action);
      TerminalStaysTerminal(next, clicks[1..], j);
    }
  }

  /** The dashboard screen's local state, seeded when the screen mounts. */
  class Dashboard {
    const app: AppState.App
    var menuItems: seq<MenuItem>
    var bookings: seq<Booking>

    ghost predicate Valid()
      reads this
    {
      UniqueBookingIds(bookings)
    }

    /** Mounting the dashboard: the mock menu and the two seed bookings. */
    constructor (app: AppState.App)
      ensures Valid()
      ensures this.app == app
      ensures menuItems == Catalog.MockMenu && bookings == Catalog.SeedBookings
    {
      this.app := app;
      menuItems := Catalog.MockMenu;
      bookings := Catalog.SeedBookings;
    }

    /** `handleDeleteItem(id)`; `confirmed` is the answer to the browser's
        confirmation dialog. Declining changes nothing. */
    method DeleteItem(id: string, confirmed: bool, toastId: int)
      modifies this`menuItems, app`toasts
      ensures confirmed ==> menuItems == DeleteMenuItem(old(menuItems), id)
      ensures confirmed ==> app.toasts == PushToast(old(app.toasts), toastId, MenuItemDeletedMessage, Success)
      ensures !confirmed ==> menuItems == old(menuItems) && app.toasts == old(app.toasts)
    {
      if confirmed {
        menuItems := DeleteMenuItem(menuItems, id);
        app.AddToast(toastId, MenuItemDeletedMessage, Success);
      }
    }

    /** `handleBookingAction(id, action)`: overwrite the status, then a success
        toast for confirm or an info toast for reject. */
    method BookingAction(id: int, action: BookingAction, toastId: int)
      requires Valid()
      modifies this`bookings, app`toasts
      ensures Valid()
      ensures bookings == ApplyBookingAction(old(bookings), id, action)
      ensures app.toasts == PushToast(old(app.toasts), toastId,
        if action == Confirm then BookingConfirmedMessage else BookingRejectedMessage,
        if action == Confirm then Success else Info)
    {
      BookingActionKeepsIds(bookings, id, action);
      bookings := ApplyBookingAction(bookings, id, action);
      if action == Confirm {
        app.AddToast(toastId, BookingConfirmedMessage, Success);
      } else {
        app.AddToast(toastId, BookingRejectedMessage, Info);
      }
    }
  }
}
