/**
 * The "my reservations" page: reservations can be cancelled after a
 * confirmation, or edited through a form that picks a new shop and date.
 * Editing is a small mode: it is entered from a reservation, left by
 * cancelling, and left by a successful submission.
 */
module TicketsPage {
  import opened Options
  import opened IsoDate
  import opened Booking

  /** The first catalogue shop with the given id, if there is one. */
  function FindShop(shops: seq<Shop>, id: int): (r: Option<Shop>)
    ensures r.None? <==> forall i :: 0 <= i < |shops| ==> shops[i].id != id
    ensures forall k ::
              (0 <= k < |shops| && shops[k].id == id && forall j :: 0 <= j < k ==> shops[j].id != id)
              ==> r == Some(shops[k])
  {
    if shops == [] then None
    else if shops[0].id == id then Some(shops[0])
    else FindShop(shops[1..], id)
  }

  /** An edited reservation: new shop and date, status back to pending. */
  function Rewrite(r: Reservation, shop: Shop, date: string): (e: Reservation)
    ensures e.shop == shop && e.shopId == Some(shop.id) && e.date == date && e.status == Pending
    ensures e.(shop := r.shop, shopId := r.shopId, date := r.date, status := r.status) == r
  {
    r.(shop := shop, shopId := Some(shop.id), date := date, status := Pending)
  }

  /** Rewrites every entry whose id is `id`; the others stay as they are. */
  function ApplyEdit(rs: seq<Reservation>, id: int, shop: Shop, date: string): (r: seq<Reservation>)
    ensures |r| == |rs|
    ensures forall i :: 0 <= i < |rs| && rs[i].id != id ==> r[i] == rs[i]
    ensures forall i :: 0 <= i < |rs| && rs[i].id == id ==>
              && r[i].id == rs[i].id && r[i].userId == rs[i].userId
              && r[i].shop == shop && r[i].shopId == Some(shop.id)
              && r[i].date == date && r[i].status == Pending
  {
    if rs == [] then []
    else [if rs[0].id == id then Rewrite(rs[0], shop, date) else rs[0]] + ApplyEdit(rs[1..], id, shop, date)
  }

  /** Editing a reservation that is no longer listed changes nothing. */
  lemma EditOfAbsentId(rs: seq<Reservation>, id: int, shop: Shop, date: string)
    requires forall i :: 0 <= i < |rs| ==> rs[i].id != id
    ensures ApplyEdit(rs, id, shop, date) == rs
  {
  }

  /** No two entries share an id. */
  predicate UniqueIds(rs: seq<Reservation>) {
    forall i, j :: 0 <= i < j < |rs| ==> rs[i].id != rs[j].id
  }

  /**
   * An edit keeps the list free of double bookings when ids are unique and no
   * other reservation already books the new shop on the new day.
   */
  lemma EditKeepsNoDoubleBooking(rs: seq<Reservation>, id: int, shop: Shop, date: string)
    requires NoDoubleBooking(rs) && UniqueIds(rs)
    requires forall i :: 0 <= i < |rs| && rs[i].id != id ==> !Holds(rs[i], shop.id, date)
    ensures NoDoubleBooking(ApplyEdit(rs, id, shop, date))
  {
    var r := ApplyEdit(rs, id, shop, date);
    forall i, j | 0 <= i < j < |r| ensures !Holds(r[j], r[i].shop.id, r[i].date) {
      if rs[i].id == id {
        assert rs[j].id != id;
      }
    }
  }

  /**
   * The edit runs neither the capacity nor the duplicate guard: moving one
   * reservation onto the shop and day of another is accepted and leaves two
   * bookings of the same slot.
   */
  lemma EditMayDoubleBook(a: Reservation, b: Reservation, date: string)
    requires a.id != b.id && NoDoubleBooking([a, b]) && b.date == date
    ensures !NoDoubleBooking(ApplyEdit([a, b], a.id, b.shop, date))
  {
    var r := ApplyEdit([a, b], a.id, b.shop, date);
    assert r[1] == b && Holds(r[0], b.shop.id, date);
  }

  /** What submitting the edit form reports. */
  datatype EditOutcome = Updated | MissingSelection | DateInPast

  /** The guards of an edit, in page order: both fields set, then the date. */
  function EditVerdict(date: string, shop: Option<Shop>, today: CalendarDate): (v: EditOutcome)
    ensures v == Updated <==> date != "" && shop.Some? && !IsPast(date, today)
    ensures v == MissingSelection <==> date == "" || shop.None?
    ensures v == DateInPast ==> exists d :: IsValid(d) && Format(d) == date && Before(d, today)
  {
    if date == "" || shop.None? then MissingSelection
    else if IsPast(date, today) then DateInPast
    else Updated
  }

  lemma EditPastIsRefused(d: CalendarDate, shop: Shop, today: CalendarDate)
    requires IsValid(d) && Before(d, today)
    ensures EditVerdict(Format(d), Some(shop), today) == DateInPast
  {
    PastIffBefore(d, today);
  }

  lemma EditTodayIsAccepted(shop: Shop, today: CalendarDate)
    requires IsValid(today)
    ensures EditVerdict(Format(today), Some(shop), today) == Updated
  {
    TodayIsNotPast(today);
  }

  class Tickets {
    var reservations: seq<Reservation>
    var shops: seq<Shop>
    var isEditing: bool
    var editingReservation: Option<Reservation>
    var selectedShop: Option<Shop>
    var selectedDate: string

    /** The page is in edit mode exactly when it holds the reservation being edited. */
    ghost predicate Valid()
      reads this
    {
      isEditing == editingReservation.Some?
    }

    /** The page once the reservations and the catalogue have been loaded. */
    constructor (catalog: seq<Shop>, initial: seq<Reservation>)
      ensures Valid()
      ensures reservations == initial && shops == catalog
      ensures !isEditing && editingReservation == None && selectedShop == None && selectedDate == ""
    {
      reservations := initial;
      shops := catalog;
      isEditing := false;
      editingReservation := None;
      selectedShop := None;
      selectedDate := "";
    }

    /** The edit button of reservation `r` was clicked. */
    method HandleEdit(r: Reservation)
      modifies this
      ensures Valid()
      ensures isEditing && editingReservation == Some(r)
      ensures selectedShop == FindShop(shops, r.shop.id) && selectedDate == r.date
      ensures reservations == old(reservations) && shops == old(shops)
    {
      isEditing := true;
      editingReservation := Some(r);
      selectedShop := FindShop(shops, r.shop.id);
      selectedDate := r.date;
    }

    /** The cancel button of a reservation was clicked; `confirmed` is the user's answer. */
    method HandleDelete(id: int, confirmed: bool)
      requires Valid()
      modifies this
      ensures Valid()
      ensures reservations == if confirmed then RemoveById(old(reservations), id) else old(reservations)
      ensures shops == old(shops) && isEditing == old(isEditing)
      ensures editingReservation == old(editingReservation)
      ensures selectedShop == old(selectedShop) && selectedDate == old(selectedDate)
    {
      if confirmed {
        reservations := RemoveById(reservations, id);
      }
    }

    /** The date input of the edit form changed. */
    method SelectDate(date: string)
      requires Valid()
      modifies this
      ensures Valid()
      ensures selectedDate == date
      ensures reservations == old(reservations) && shops == old(shops) && isEditing == old(isEditing)
      ensures editingReservation == old(editingReservation) && selectedShop == old(selectedShop)
    {
      selectedDate := date;
    }

    /**
     * The shop drop-down of the edit form changed; `choice` is the chosen
     * option's shop id, or `None` for the placeholder option.
     */
    method SelectShop(choice: Option<int>)
      requires Valid()
      modifies this
      ensures Valid()
      ensures selectedShop == if choice.None? then None else FindShop(shops, choice.value)
      ensures reservations == old(reservations) && shops == old(shops) && isEditing == old(isEditing)
      ensures editingReservation == old(editingReservation) && selectedDate == old(selectedDate)
    {
      selectedShop := if choice.None? then None else FindShop(shops, choice.value);
    }

    /** The edit form was submitted; it is only on screen in edit mode. */
    method HandleEditSubmit(today: CalendarDate) returns (outcome: EditOutcome)
      requires Valid() && isEditing
      modifies this
      ensures Valid()
      ensures outcome == EditVerdict(old(selectedDate), old(selectedShop), today)
      ensures shops == old(shops)
      ensures outcome == Updated ==>
                && reservations == ApplyEdit(old(reservations), old(editingReservation).value.id,
                                             old(selectedShop).value, old(selectedDate))
                && !isEditing && editingReservation == None && selectedShop == None && selectedDate == ""
      ensures outcome != Updated ==>
                && reservations == old(reservations) && isEditing == old(isEditing)
                && editingReservation == old(editingReservation)
                && selectedShop == old(selectedShop) && selectedDate == old(selectedDate)
    {
      if selectedDate == "" || selectedShop.None? {
        return MissingSelection;
      }
      if IsPast(selectedDate, today) {
        return DateInPast;
      }
      var updated := ApplyEdit(reservations, editingReservation.value.id, selectedShop.value, selectedDate);
      reservations := updated;
      isEditing := false;
      editingReservation := None;
      selectedShop := None;
      selectedDate := "";
      return Updated;
    }

    /** The cancel button of the edit form was clicked. */
    method HandleCancelEdit()
      modifies this
      ensures Valid()
      ensures !isEditing && editingReservation == None && selectedShop == None && selectedDate == ""
      ensures reservations == old(reservations) && shops == old(shops)
    {
      isEditing := false;
      editingReservation := None;
      selectedShop := None;
      selectedDate := "";
    }
  }
}
