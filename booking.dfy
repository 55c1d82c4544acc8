/**
 * The records both reservation pages keep in their component state, and the
 * list expressions the two pages share: the duplicate test and the removal of
 * a reservation by id.
 */
module Booking {
  import opened Options

  /** A massage shop of the catalogue (read-only reference data). */
  datatype Shop = Shop(id: int, name: string, address: string, telephone: string, hours: string)

  datatype Status = Pending | Confirmed | Cancelled

  /**
   * A reservation as the pages hold it.  The reservation page creates records
   * without `shopId` and `userId`; the tickets page's records carry both, and an
   * edit writes `shopId`.
   */
  datatype Reservation = Reservation(
    id: int,
    shop: Shop,
    shopId: Option<int>,
    date: string,
    status: Status,
    userId: Option<string>)

  /** `r` books the shop with id `shopId` on the day spelled `date`. */
  predicate Holds(r: Reservation, shopId: int, date: string) {
    r.shop.id == shopId && r.date == date
  }

  /** Some entry already books this (shop id, date) pair. */
  predicate HasSlot(rs: seq<Reservation>, shopId: int, date: string)
    ensures HasSlot(rs, shopId, date) <==> exists r :: r in rs && Holds(r, shopId, date)
  {
    exists i :: 0 <= i < |rs| && Holds(rs[i], shopId, date)
  }

  /** No two entries book the same (shop id, date) pair. */
  predicate NoDoubleBooking(rs: seq<Reservation>) {
    forall i, j :: 0 <= i < j < |rs| ==> !Holds(rs[j], rs[i].shop.id, rs[i].date)
  }

  /** The entries whose id differs from `id`, in their original order. */
  function RemoveById(rs: seq<Reservation>, id: int): (r: seq<Reservation>)
    ensures |r| <= |rs|
    ensures forall x :: x in r <==> x in rs && x.id != id
  {
    if rs == [] then []
    else (if rs[0].id == id then [] else [rs[0]]) + RemoveById(rs[1..], id)
  }

  /** Removal keeps the relative order: it works piece by piece. */
  lemma {:induction false} RemoveByIdAppend(a: seq<Reservation>, b: seq<Reservation>, id: int)
    ensures RemoveById(a + b, id) == RemoveById(a, id) + RemoveById(b, id)
  {
    if a == [] {
      assert a + b == b;
    } else {
      assert (a + b)[1..] == a[1..] + b;
      RemoveByIdAppend(a[1..], b, id);
    }
  }

  /** Removing an id nobody carries changes nothing, and only then. */
  lemma {:induction false} RemoveAbsentId(rs: seq<Reservation>, id: int)
    ensures RemoveById(rs, id) == rs <==> forall i :: 0 <= i < |rs| ==> rs[i].id != id
  {
    if forall i :: 0 <= i < |rs| ==> rs[i].id != id {
      if rs != [] {
        RemoveAbsentId(rs[1..], id);
        assert forall i :: 0 <= i < |rs[1..]| ==> rs[1..][i].id != id by {
          forall i | 0 <= i < |rs[1..]| ensures rs[1..][i].id != id {
            assert rs[1..][i] == rs[i + 1];
          }
        }
      }
    } else {
      var k :| 0 <= k < |rs| && rs[k].id == id;
      assert rs[k] in rs && rs[k] !in RemoveById(rs, id);
    }
  }

  /** Removing a reservation never creates a double booking. */
  lemma {:induction false} RemoveByIdKeepsNoDoubleBooking(rs: seq<Reservation>, id: int)
    requires NoDoubleBooking(rs)
    ensures NoDoubleBooking(RemoveById(rs, id))
  {
    if rs != [] {
      var tail := rs[1..];
      assert NoDoubleBooking(tail) by {
        forall i, j | 0 <= i < j < |tail|
          ensures !Holds(tail[j], tail[i].shop.id, tail[i].date)
        {
          assert tail[i] == rs[i + 1] && tail[j] == rs[j + 1];
        }
      }
      RemoveByIdKeepsNoDoubleBooking(tail, id);
      var rest := RemoveById(tail, id);
      if rs[0].id != id {
        var r := [rs[0]] + rest;
        forall i, j | 0 <= i < j < |r|
          ensures !Holds(r[j], r[i].shop.id, r[i].date)
        {
          if i == 0 {
            assert r[j] == rest[j - 1] && r[j] in tail;
            var k :| 0 <= k < |tail| && tail[k] == r[j];
            assert rs[k + 1] == r[j];
          } else {
            assert r[i] == rest[i - 1] && r[j] == rest[j - 1];
          }
        }
      }
    }
  }
}
