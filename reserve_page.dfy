/**
 * The reservation page: a shop and a date are picked on a form, submitting it
 * runs four guards in a fixed order and, when all pass, appends a pending
 * reservation; each listed reservation can be cancelled.
 */
module ReservePage {
  import opened Options
  import opened IsoDate
  import opened Booking

  /** The most reservations one user may hold on this page. */
  const Capacity: nat := 3

  /** What a submission reports: success, or the first guard that failed. */
  datatype Outcome = Created | NoDate | AtCapacity | DateInPast | AlreadyBooked

  /** The guards of a submission, in the order the page runs them. */
  function Verdict(rs: seq<Reservation>, shopId: int, date: string, today: CalendarDate): (v: Outcome)
    ensures v == Created <==>
              && date != "" && |rs| < Capacity && !IsPast(date, today)
              && forall r :: r in rs ==> !Holds(r, shopId, date)
    ensures v == NoDate <==> date == ""
    ensures v == AtCapacity ==> |rs| >= Capacity
    ensures v == DateInPast ==> exists d :: IsValid(d) && Format(d) == date && Before(d, today)
    ensures v == AlreadyBooked ==> exists r :: r in rs && Holds(r, shopId, date)
  {
    if date == "" then NoDate
    else if |rs| >= Capacity then AtCapacity
    else if IsPast(date, today) then DateInPast
    else if HasSlot(rs, shopId, date) then AlreadyBooked
    else Created
  }

  /** The record a successful submission appends. */
  function Draft(id: int, shop: Shop, date: string): (d: Reservation)
    ensures d.id == id && d.status == Pending && Holds(d, shop.id, date) && d.shop == shop
    ensures d.shopId.None? && d.userId.None?
  {
    Reservation(id, shop, None, date, Pending, None)
  }

  /** The list after one submission of the form. */
  function AfterSubmit(rs: seq<Reservation>, shop: Shop, date: string, today: CalendarDate, id: int): seq<Reservation> {
    if Verdict(rs, shop.id, date, today) == Created then rs + [Draft(id, shop, date)] else rs
  }

  /** What the guards keep true of the page's list. */
  predicate Invariant(rs: seq<Reservation>) {
    |rs| <= Capacity && NoDoubleBooking(rs)
  }

  lemma SubmitKeepsInvariant(rs: seq<Reservation>, shop: Shop, date: string, today: CalendarDate, id: int)
    requires Invariant(rs)
    ensures Invariant(AfterSubmit(rs, shop, date, today, id))
  {
    if Verdict(rs, shop.id, date, today) == Created {
      var r := rs + [Draft(id, shop, date)];
      forall i, j | 0 <= i < j < |r| ensures !Holds(r[j], r[i].shop.id, r[i].date) {
        if j == |rs| {
          assert r[i] == rs[i];
        } else {
          assert r[i] == rs[i] && r[j] == rs[j];
        }
      }
    }
  }

  /** Cancelling keeps the invariant. */
  lemma CancelKeepsInvariant(rs: seq<Reservation>, id: int)
    requires Invariant(rs)
    ensures Invariant(RemoveById(rs, id))
  {
    RemoveByIdKeepsNoDoubleBooking(rs, id);
  }

  /** Submitting the same shop and date again right after a success is refused. */
  lemma ResubmitIsRefused(rs: seq<Reservation>, shop: Shop, date: string, today: CalendarDate, id: int)
    requires Verdict(rs, shop.id, date, today) == Created
    ensures var v := Verdict(AfterSubmit(rs, shop, date, today, id), shop.id, date, today);
            v == AtCapacity || v == AlreadyBooked
  {
    var r := AfterSubmit(rs, shop, date, today, id);
    assert Holds(r[|rs|], shop.id, date);
  }

  /** A date strictly before today is refused, unless an earlier guard fires. */
  lemma PastDateIsRefused(rs: seq<Reservation>, shopId: int, d: CalendarDate, today: CalendarDate)
    requires IsValid(d) && Before(d, today) && |rs| < Capacity
    ensures Verdict(rs, shopId, Format(d), today) == DateInPast
  {
    PastIffBefore(d, today);
  }

  /** Today itself is accepted when the list has room and the slot is free. */
  lemma TodayIsAccepted(rs: seq<Reservation>, shopId: int, today: CalendarDate)
    requires IsValid(today) && |rs| < Capacity && !HasSlot(rs, shopId, Format(today))
    ensures Verdict(rs, shopId, Format(today), today) == Created
  {
    TodayIsNotPast(today);
  }

  /**
   * The guards take precedence in page order: an empty date is reported even
   * on a full list, and a full list is reported whatever the date, a date in
   * the past included.
   */
  lemma ErrorPrecedence(rs: seq<Reservation>, shopId: int, d: CalendarDate, today: CalendarDate)
    requires IsValid(d) && |rs| >= Capacity
    ensures Verdict(rs, shopId, "", today) == NoDate
    ensures Verdict(rs, shopId, Format(d), today) == AtCapacity
  {
  }

  // ---- a session on the page -----------------------------------------------

  /** One user action on the page: submit the form, or cancel a reservation. */
  datatype Action =
    | Submit(shop: Shop, date: string, today: CalendarDate, id: int)
    | Cancel(id: int)

  function Step(rs: seq<Reservation>, a: Action): seq<Reservation> {
    match a
    case Submit(shop, date, today, id) => AfterSubmit(rs, shop, date, today, id)
    case Cancel(id) => RemoveById(rs, id)
  }

  /** The list after the actions, applied first to last. */
  function Replay(rs: seq<Reservation>, acts: seq<Action>): seq<Reservation>
    decreases |acts|
  {
    if acts == [] then rs else Replay(Step(rs, acts[0]), acts[1..])
  }

  lemma {:induction false} ReplayKeepsInvariant(rs: seq<Reservation>, acts: seq<Action>)
    requires Invariant(rs)
    ensures Invariant(Replay(rs, acts))
    decreases |acts|
  {
    if acts != [] {
      match acts[0] {
        case Submit(shop, date, today, id) => SubmitKeepsInvariant(rs, shop, date, today, id);
        case Cancel(id) => CancelKeepsInvariant(rs, id);
      }
      ReplayKeepsInvariant(Step(rs, acts[0]), acts[1..]);
    }
  }

  /**
   * Starting from the page's empty list, no sequence of submissions and
   * cancellations holds more than three reservations or books one shop twice
   * on one day.
   */
  lemma SessionKeepsLimits(acts: seq<Action>)
    ensures |Replay([], acts)| <= Capacity
    ensures NoDoubleBooking(Replay([], acts))
  {
    ReplayKeepsInvariant([], acts);
  }

  // ---- the page component --------------------------------------------------

  class Reserve {
    var reservations: seq<Reservation>
    var selectedShop: Option<Shop>
    var selectedDate: string

    ghost predicate Valid()
      reads this
    {
      Invariant(reservations)
    }

    constructor ()
      ensures Valid()
      ensures reservations == [] && selectedShop == None && selectedDate == ""
    {
      reservations := [];
      selectedShop := None;
      selectedDate := "";
    }

    /** A shop card was clicked. */
    method SelectShop(shop: Shop)
      requires Valid()
      modifies this
      ensures Valid()
      ensures selectedShop == Some(shop)
      ensures reservations == old(reservations) && selectedDate == old(selectedDate)
    {
      selectedShop := Some(shop);
    }

    /** The date input changed. */
    method SelectDate(date: string)
      requires Valid()
      modifies this
      ensures Valid()
      ensures selectedDate == date
      ensures reservations == old(reservations) && selectedShop == old(selectedShop)
    {
      selectedDate := date;
    }

    /**
     * The form was submitted; `today` is the current day and `freshId` the
     * clock reading that becomes the new reservation's id.  The form is only
     * on screen while a shop is selected.
     */
    method HandleReservation(today: CalendarDate, freshId: int) returns (outcome: Outcome)
      requires Valid()
      requires selectedShop.Some?
      modifies this
      ensures Valid()
      ensures outcome == Verdict(old(reservations), old(selectedShop).value.id, old(selectedDate), today)
      ensures reservations == AfterSubmit(old(reservations), old(selectedShop).value, old(selectedDate), today, freshId)
      ensures outcome == Created ==>
                && reservations == old(reservations) + [Draft(freshId, old(selectedShop).value, old(selectedDate))]
                && selectedShop == None && selectedDate == ""
      ensures outcome != Created ==>
                reservations == old(reservations) && selectedShop == old(selectedShop) && selectedDate == old(selectedDate)
    {
      if selectedDate == "" {
        return NoDate;
      }
      if |reservations| >= Capacity {
        return AtCapacity;
      }
      if IsPast(selectedDate, today) {
        return DateInPast;
      }
      var isDuplicate := HasSlot(reservations, selectedShop.value.id, selectedDate);
      if isDuplicate {
        return AlreadyBooked;
      }
      SubmitKeepsInvariant(reservations, selectedShop.value, selectedDate, today, freshId);
      var newReservation := Draft(freshId, selectedShop.value, selectedDate);
      reservations := reservations + [newReservation];
      selectedShop := None;
      selectedDate := "";
      return Created;
    }

    /** A reservation's cancel button was clicked (no confirmation on this page). */
    method HandleDeleteReservation(id: int)
      requires Valid()
      modifies this
      ensures Valid()
      ensures reservations == RemoveById(old(reservations), id)
      ensures selectedShop == old(selectedShop) && selectedDate == old(selectedDate)
    {
      CancelKeepsInvariant(reservations, id);
      reservations := RemoveById(reservations, id);
    }
  }

  /**
   * A session from an empty page: book a shop for a future day, try the same
   * booking again, book two more, then try a fourth.
   */
  method FourBookingSession(today: CalendarDate, s1: Shop, s2: Shop, s3: Shop, s4: Shop)
    requires IsValid(today) && Before(today, CalendarDate(2099, 1, 1))
    requires s1.id != s2.id && s1.id != s3.id && s2.id != s3.id
  {
    var day := CalendarDate(2099, 1, 1);
    var date := Format(day);
    PastIffBefore(day, today);
    var page := new Reserve();
    page.SelectShop(s1);
    page.SelectDate(date);
    var o := page.HandleReservation(today, 1);
    assert o == Created && |page.reservations| == 1 && page.reservations[0].status == Pending;
    page.SelectShop(s1);
    page.SelectDate(date);
    o := page.HandleReservation(today, 2);
    assert Holds(page.reservations[0], s1.id, date);
    assert o == AlreadyBooked && |page.reservations| == 1;
    page.SelectShop(s2);
    page.SelectDate(date);
    o := page.HandleReservation(today, 3);
    assert o == Created;
    assert !Holds(page.reservations[0], s3.id, date) && !Holds(page.reservations[1], s3.id, date);
    page.SelectShop(s3);
    page.SelectDate(date);
    o := page.HandleReservation(today, 4);
    assert o == Created && |page.reservations| == 3;
    page.SelectShop(s4);
    page.SelectDate(date);
    o := page.HandleReservation(today, 5);
    assert o == AtCapacity && |page.reservations| == 3;
  }
}
