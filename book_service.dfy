/**
 * The booking store and its queries (Backend/service/bookService.js), over the
 * tables the booking allocator reads and writes: parking areas, their slots and
 * the bookings on those slots. Timestamps are integers (milliseconds).
 */
module BookService {
  import opened Common

  datatype Area = Area(id: int, name: string, city: string, address: string, pricePerHour: int)

  datatype Slot = Slot(id: int, slotNumber: int, parkingId: int)

  datatype Booking = Booking(
    id: int,
    userId: int,
    slotId: int,
    startTime: int,
    endTime: int,
    phone: string,
    paymentStatus: string,
    paymentId: Option<string>,
    vehicleNumber: string,
    amount: int,
    createdAt: int)

  /** The JSON body of `POST /api/book`; the user id travels as `id`. */
  datatype BookBody = BookBody(
    userId: int,
    area: string,
    startTime: int,
    endTime: int,
    phone: string,
    paymentId: Option<string>,
    vehicleNumber: string,
    amount: int)

  const PendingStatus := "pending"

  // ------------------------------------------------------------------ overlap

  /** The conflict test of the booking query: an existing booking [s1, e1)
      blocks a request [s2, e2) iff s1 < e2 and e1 > s2. */
  predicate Overlaps(s1: int, e1: int, s2: int, e2: int) {
    s1 < e2 && e1 > s2
  }

  /** The test is symmetric in the two intervals. */
  lemma OverlapsSymmetric(s1: int, e1: int, s2: int, e2: int)
    ensures Overlaps(s1, e1, s2, e2) <==> Overlaps(s2, e2, s1, e1)
  {
  }

  /** Back-to-back intervals do not conflict: one ending exactly when the other starts. */
  lemma TouchingDoesNotOverlap(s1: int, t: int, e2: int)
    ensures !Overlaps(s1, t, t, e2) && !Overlaps(t, e2, s1, t)
  {
  }

  /** Instant t lies in the half-open interval [s, e). */
  predicate Within(t: int, s: int, e: int) {
    s <= t < e
  }

  /** For proper intervals the test means exactly that the half-open intervals
      share an instant. */
  lemma {:induction false} OverlapsIffSharedInstant(s1: int, e1: int, s2: int, e2: int)
    requires s1 < e1 && s2 < e2
    ensures Overlaps(s1, e1, s2, e2) <==> exists t :: Within(t, s1, e1) && Within(t, s2, e2)
  {
    if Overlaps(s1, e1, s2, e2) {
      var t := if s1 < s2 then s2 else s1;
      assert Within(t, s1, e1) && Within(t, s2, e2);
    }
  }

  // ------------------------------------------------------------------ queries

  /** DB_area_det: `parkingArea.findUnique({ where: { name } })`; null when no area has that name. */
  function FindAreaByName(areas: seq<Area>, name: string): (r: Option<Area>)
    ensures r.Some? ==> r.value in areas && r.value.name == name
    ensures r.None? <==> forall a :: a in areas ==> a.name != name
  {
    FindFirst(areas, (a: Area) => a.name == name)
  }

  predicate BelongsTo(areaId: int, s: Slot) {
    s.parkingId == areaId
  }

  /** DB_slot_det: `parkingSlot.findMany({ where: { parkingId } })`, without an
      `orderBy`: the area's slots in whatever order the store keeps them. */
  function SlotsOfArea(slots: seq<Slot>, areaId: int): seq<Slot> {
    Filter(slots, s => BelongsTo(areaId, s))
  }

  /** The area's slots are exactly the stored slots with that parkingId, in store order. */
  lemma SlotsOfAreaExact(slots: seq<Slot>, areaId: int)
    ensures forall s :: s in SlotsOfArea(slots, areaId) <==> s in slots && s.parkingId == areaId
    ensures IsSubseq(SlotsOfArea(slots, areaId), slots)
  {
    FilterIsSubseq(slots, s => BelongsTo(areaId, s));
  }

  predicate Blocks(b: Booking, slotId: int, startTime: int, endTime: int) {
    b.slotId == slotId && Overlaps(b.startTime, b.endTime, startTime, endTime)
  }

  /** DB_conflict: `booking.findFirst` of a booking on the slot with
      startTime < endTime and endTime > startTime, or null. The store's order
      is unspecified; the model returns the first such booking in store order. */
  function FindConflict(bookings: seq<Booking>, slotId: int, startTime: int, endTime: int): (r: Option<Booking>)
    ensures r.Some? ==> r.value in bookings && Blocks(r.value, slotId, startTime, endTime)
    ensures r.None? <==> forall b :: b in bookings ==> !Blocks(b, slotId, startTime, endTime)
  {
    if bookings == [] then None
    else if Blocks(bookings[0], slotId, startTime, endTime) then Some(bookings[0])
    else FindConflict(bookings[1..], slotId, startTime, endTime)
  }

  /** DB_find_booking: `booking.findUnique({ where: { id } })`, or null. */
  function FindBookingById(bookings: seq<Booking>, id: int): (r: Option<Booking>)
    ensures r.Some? ==> r.value in bookings && r.value.id == id
    ensures r.None? <==> forall b :: b in bookings ==> b.id != id
  {
    FindFirst(bookings, (b: Booking) => b.id == id)
  }

  predicate HasOtherId(id: int, b: Booking) {
    b.id != id
  }

  /** The table after `booking.delete({ where: { id } })`. */
  function RemoveId(bookings: seq<Booking>, id: int): seq<Booking> {
    Filter(bookings, b => HasOtherId(id, b))
  }

  /** Deleting by id removes exactly the bookings with that id and keeps the rest in order. */
  lemma RemoveIdExact(bookings: seq<Booking>, id: int)
    ensures forall b :: b in RemoveId(bookings, id) <==> b in bookings && b.id != id
    ensures IsSubseq(RemoveId(bookings, id), bookings)
  {
    FilterIsSubseq(bookings, b => HasOtherId(id, b));
  }

  /** `body.paymentId || null`: an absent or empty payment id is stored as null. */
  function PaymentIdOrNull(paymentId: Option<string>): (r: Option<string>)
    ensures r.Some? <==> Truthy(paymentId)
    ensures r.Some? ==> r == paymentId
  {
    if Truthy(paymentId) then paymentId else None
  }

  /** The row DB_book writes: the chosen slot, the requested window, payment
      "pending"; the id and createdAt are the store's defaults. */
  function NewBooking(body: BookBody, slot: Slot, startTime: int, endTime: int, id: int, now: int): Booking {
    Booking(id, body.userId, slot.id, startTime, endTime, body.phone, PendingStatus,
            PaymentIdOrNull(body.paymentId), body.vehicleNumber, body.amount, now)
  }

  // ------------------------------------------------------------ the invariant

  /** No two bookings on one slot overlap. */
  ghost predicate NoDoubleBooking(bookings: seq<Booking>) {
    forall i, j :: 0 <= i < j < |bookings| && bookings[i].slotId == bookings[j].slotId ==>
      !Overlaps(bookings[i].startTime, bookings[i].endTime, bookings[j].startTime, bookings[j].endTime)
  }

  ghost predicate UniqueIds(bookings: seq<Booking>) {
    forall i, j :: 0 <= i < j < |bookings| ==> bookings[i].id != bookings[j].id
  }

  /** The tables of the store. Areas and slots are fixed during booking;
      `nextId` is the autoincrement counter of the booking table. */
  class Store {
    var areas: seq<Area>
    var slots: seq<Slot>
    var bookings: seq<Booking>
    var nextId: int

    ghost predicate Valid()
      reads this
    {
      && UniqueIds(bookings)
      && forall i :: 0 <= i < |bookings| ==> bookings[i].id < nextId
    }

    constructor (areas: seq<Area>, slots: seq<Slot>)
      ensures Valid()
      ensures this.areas == areas && this.slots == slots && bookings == []
    {
      this.areas := areas;
      this.slots := slots;
      bookings := [];
      nextId := 1;
    }

    /** DB_book: inserts the row for the chosen slot and returns it. */
    method Create(body: BookBody, slot: Slot, startTime: int, endTime: int, now: int) returns (b: Booking)
      requires Valid()
      modifies this
      ensures Valid()
      ensures b == NewBooking(body, slot, startTime, endTime, old(nextId), now)
      ensures bookings == old(bookings) + [b]
      ensures areas == old(areas) && slots == old(slots) && nextId > old(nextId)
    {
      b := NewBooking(body, slot, startTime, endTime, nextId, now);
      bookings := bookings + [b];
      nextId := nextId + 1;
    }

    /** DB_del_book: `booking.delete({ where: { id } })`. Prisma throws when no
        row has that id; `deleted` is false then and nothing changes. */
    method Delete(id: int) returns (deleted: bool)
      requires Valid()
      modifies this
      ensures Valid()
      ensures deleted <==> FindBookingById(old(bookings), id).Some?
      ensures bookings == RemoveId(old(bookings), id)
      ensures areas == old(areas) && slots == old(slots) && nextId == old(nextId)
    {
      deleted := FindBookingById(bookings, id).Some?;
      if !deleted {
        FilterAll(bookings, b => HasOtherId(id, b));
      }
      RemoveIdKeepsValid(bookings, id, nextId);
      bookings := RemoveId(bookings, id);
    }
  }

  lemma RemoveIdKeepsValid(bookings: seq<Booking>, id: int, nextId: int)
    requires UniqueIds(bookings)
    requires forall i :: 0 <= i < |bookings| ==> bookings[i].id < nextId
    ensures UniqueIds(RemoveId(bookings, id))
    ensures forall i :: 0 <= i < |RemoveId(bookings, id)| ==> RemoveId(bookings, id)[i].id < nextId
  {
    RemoveIdExact(bookings, id);
    SubseqKeepsUnique(RemoveId(bookings, id), bookings);
    var r := RemoveId(bookings, id);
    forall i | 0 <= i < |r| ensures r[i].id < nextId {
      assert r[i] in bookings;
    }
  }

  lemma {:induction false} SubseqKeepsUnique(r: seq<Booking>, s: seq<Booking>)
    requires UniqueIds(s) && IsSubseq(r, s)
    ensures UniqueIds(r)
    decreases |s|
  {
    if r != [] {
      assert UniqueIds(s[1..]) by {
        forall i, j | 0 <= i < j < |s[1..]| ensures s[1..][i].id != s[1..][j].id {
          assert s[1..][i] == s[i + 1] && s[1..][j] == s[j + 1];
        }
      }
      if r[0] == s[0] {
        SubseqKeepsUnique(r[1..], s[1..]);
        SubseqElems(r[1..], s[1..]);
        forall j | 0 < j < |r| ensures r[0].id != r[j].id {
          assert r[j] == r[1..][j - 1];
          assert r[j] in s[1..];
          var k :| 0 <= k < |s[1..]| && s[1..][k] == r[j];
          assert s[k + 1] == r[j];
        }
      } else {
        SubseqKeepsUnique(r, s[1..]);
      }
    }
  }

  lemma {:induction false} SubseqElems<T>(r: seq<T>, s: seq<T>)
    requires IsSubseq(r, s)
    ensures forall x :: x in r ==> x in s
    decreases |s|
  {
    if r != [] {
      assert s == [s[0]] + s[1..];
      if r[0] == s[0] {
        SubseqElems(r[1..], s[1..]);
        assert r == [r[0]] + r[1..];
      } else {
        SubseqElems(r, s[1..]);
      }
    }
  }
}
