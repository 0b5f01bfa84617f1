/**
 * The booking allocator (Backend/controller/bookController.js): `book` scans
 * the slots of the requested area in the order the store returns them and
 * inserts a pending booking on the first slot with no overlapping booking;
 * `del_book` is a hard delete by id.
 *
 * The scan and the insert are one sequential step here; the source runs them
 * as separate store calls with no lock or transaction between them.
 */
module BookController {
  import opened Common
  import opened BookService

  const NoSlotsText := "Oops! No slots available at the requested time \U{1F615}"

  /** The reply `book` sends. */
  datatype BookReply =
    | Booked(data: Booking, area: string, city: string)  // 200 "Booked Successfully"
    | NoSlots(reply: string)                             // 200, a normal outcome
    | ServerError                                        // 500 "Internal Server Error"
  {
    function StatusCode(): int {
      if ServerError? then 500 else 200
    }
  }

  predicate SlotFree(bookings: seq<Booking>, slot: Slot, startTime: int, endTime: int) {
    FindConflict(bookings, slot.id, startTime, endTime).None?
  }

  /** The position of the first slot with no conflicting booking, or |slots|
      when every slot has one. */
  function FirstFreeIndex(slots: seq<Slot>, bookings: seq<Booking>, startTime: int, endTime: int): (k: nat)
    ensures k <= |slots|
    ensures forall j :: 0 <= j < k ==> !SlotFree(bookings, slots[j], startTime, endTime)
    ensures k < |slots| ==> SlotFree(bookings, slots[k], startTime, endTime)
    decreases |slots|
  {
    if slots == [] then 0
    else if SlotFree(bookings, slots[0], startTime, endTime) then 0
    else 1 + FirstFreeIndex(slots[1..], bookings, startTime, endTime)
  }

  /** The `for (const slot of slot_det)` loop: one conflict query per slot,
      stopping at the first slot that has none. */
  method FindFreeSlot(slots: seq<Slot>, bookings: seq<Booking>, startTime: int, endTime: int)
    returns (available: Option<Slot>)
    ensures available.Some? <==> exists s :: s in slots && SlotFree(bookings, s, startTime, endTime)
    ensures available.Some? ==>
      exists k :: (0 <= k < |slots| && slots[k] == available.value
                   && SlotFree(bookings, slots[k], startTime, endTime)
                   && forall j :: 0 <= j < k ==> !SlotFree(bookings, slots[j], startTime, endTime))
    ensures available == (var k := FirstFreeIndex(slots, bookings, startTime, endTime);
                          if k < |slots| then Some(slots[k]) else None)
  {
    available := None;
    var i := 0;
    while i < |slots|
      invariant 0 <= i <= |slots|
      invariant forall j :: 0 <= j < i ==> !SlotFree(bookings, slots[j], startTime, endTime)
    {
      var conflict := FindConflict(bookings, slots[i].id, startTime, endTime);
      if conflict.None? {
        available := Some(slots[i]);
        break;
      }
      i := i + 1;
    }
    ghost var k := FirstFreeIndex(slots, bookings, startTime, endTime);
    assert available.Some? ==> i == k;
    assert available.None? ==> k == |slots|;
  }

  /** What `book` answers and inserts, as a function of the store before the call. */
  function BookSpec(areas: seq<Area>, slots: seq<Slot>, bookings: seq<Booking>,
                    body: BookBody, id: int, now: int): (r: BookReply)
    ensures r.ServerError? <==> FindAreaByName(areas, body.area).None?
    ensures r.Booked? ==>
      exists s :: s in slots && s.parkingId == FindAreaByName(areas, body.area).value.id
                  && s.id == r.data.slotId && SlotFree(bookings, s, body.startTime, body.endTime)
    ensures r.Booked? ==>
      r.data.id == id && r.data.userId == body.userId && r.data.paymentStatus == PendingStatus
      && r.data.startTime == body.startTime && r.data.endTime == body.endTime
  {
    match FindAreaByName(areas, body.area)
    case None => ServerError  // `area_det.id` on null throws
    case Some(a) =>
      var candidates := SlotsOfArea(slots, a.id);
      SlotsOfAreaExact(slots, a.id);
      var k := FirstFreeIndex(candidates, bookings, body.startTime, body.endTime);
      if k == |candidates| then NoSlots(NoSlotsText)
      else Booked(NewBooking(body, candidates[k], body.startTime, body.endTime, id, now), a.name, a.city)
  }

  /** The bookings table after `book`. */
  function BookedTable(bookings: seq<Booking>, reply: BookReply): seq<Booking> {
    if reply.Booked? then bookings + [reply.data] else bookings
  }

  /** `book`: look up the area, scan its slots, insert on the first free one. */
  method Book(store: Store, body: BookBody, now: int) returns (reply: BookReply)
    requires store.Valid()
    modifies store
    ensures store.Valid()
    ensures store.areas == old(store.areas) && store.slots == old(store.slots)
    ensures reply == BookSpec(old(store.areas), old(store.slots), old(store.bookings), body, old(store.nextId), now)
    ensures store.bookings == BookedTable(old(store.bookings), reply)
  {
    var startTime, endTime := body.startTime, body.endTime;
    var area := FindAreaByName(store.areas, body.area);
    if area.None? {
      return ServerError;
    }
    var candidates := SlotsOfArea(store.slots, area.value.id);
    var available := FindFreeSlot(candidates, store.bookings, startTime, endTime);
    if available.None? {
      return NoSlots(NoSlotsText);
    }
    var created := store.Create(body, available.value, startTime, endTime, now);
    reply := Booked(created, area.value.name, area.value.city);
  }

  // ------------------------------------------------------------- properties

  /** An area name that is not in the store yields the 500 reply and creates nothing. */
  lemma UnknownAreaIsServerError(areas: seq<Area>, slots: seq<Slot>, bookings: seq<Booking>,
                                 body: BookBody, id: int, now: int)
    requires forall a :: a in areas ==> a.name != body.area
    ensures BookSpec(areas, slots, bookings, body, id, now) == ServerError
    ensures BookedTable(bookings, ServerError) == bookings
  {
  }

  /** "No slots" (status 200, nothing created) exactly when the area exists and
      every one of its slots has a conflicting booking, vacuously so when it has none. */
  lemma NoSlotsExactly(areas: seq<Area>, slots: seq<Slot>, bookings: seq<Booking>,
                       body: BookBody, id: int, now: int)
    ensures var r := BookSpec(areas, slots, bookings, body, id, now);
      r.NoSlots? <==>
        (FindAreaByName(areas, body.area).Some? &&
         forall s :: s in SlotsOfArea(slots, FindAreaByName(areas, body.area).value.id) ==>
           !SlotFree(bookings, s, body.startTime, body.endTime))
    ensures var r := BookSpec(areas, slots, bookings, body, id, now);
      r.NoSlots? ==> r.StatusCode() == 200 && r.reply == NoSlotsText && BookedTable(bookings, r) == bookings
  {
    var area := FindAreaByName(areas, body.area);
    if area.Some? {
      var candidates := SlotsOfArea(slots, area.value.id);
      var k := FirstFreeIndex(candidates, bookings, body.startTime, body.endTime);
      if k < |candidates| {
        assert candidates[k] in candidates;
      } else {
        forall s | s in candidates ensures !SlotFree(bookings, s, body.startTime, body.endTime) {
          var j :| 0 <= j < |candidates| && candidates[j] == s;
        }
      }
    }
  }

  /** First fit: on success the booking is on the first slot of the area (in
      store order) with no conflict, every earlier slot has one, and the new
      row carries the requested window, "pending" and the payment id or null.
      Exactly one row is added and the existing rows are unchanged. */
  lemma BookedIsFirstFit(areas: seq<Area>, slots: seq<Slot>, bookings: seq<Booking>,
                         body: BookBody, id: int, now: int)
    requires BookSpec(areas, slots, bookings, body, id, now).Booked?
    ensures var r := BookSpec(areas, slots, bookings, body, id, now);
      var a := FindAreaByName(areas, body.area).value;
      var candidates := SlotsOfArea(slots, a.id);
      && r.area == a.name && r.city == a.city && a.name == body.area
      && exists k :: 0 <= k < |candidates|
           && r.data.slotId == candidates[k].id
           && SlotFree(bookings, candidates[k], body.startTime, body.endTime)
           && forall j :: 0 <= j < k ==> !SlotFree(bookings, candidates[j], body.startTime, body.endTime)
    ensures var r := BookSpec(areas, slots, bookings, body, id, now);
      && r.data.startTime == body.startTime && r.data.endTime == body.endTime
      && r.data.paymentStatus == "pending"
      && r.data.paymentId == (if Truthy(body.paymentId) then body.paymentId else None)
      && r.data.userId == body.userId && r.data.id == id && r.data.createdAt == now
      && BookedTable(bookings, r) == bookings + [r.data]
      && BookedTable(bookings, r)[..|bookings|] == bookings
  {
    var a := FindAreaByName(areas, body.area).value;
    var candidates := SlotsOfArea(slots, a.id);
    var k := FirstFreeIndex(candidates, bookings, body.startTime, body.endTime);
    assert 0 <= k < |candidates|;
  }

  /** The headline invariant: if no two bookings on one slot overlap before
      `book`, none do after it. This needs no `start < end` assumption: the
      new row is conflict-free by the very test the invariant uses. */
  lemma {:induction false} BookPreservesNoDoubleBooking(areas: seq<Area>, slots: seq<Slot>,
                                                         bookings: seq<Booking>, body: BookBody,
                                                         id: int, now: int)
    requires NoDoubleBooking(bookings)
    ensures NoDoubleBooking(BookedTable(bookings, BookSpec(areas, slots, bookings, body, id, now)))
  {
    var r := BookSpec(areas, slots, bookings, body, id, now);
    if r.Booked? {
      var a := FindAreaByName(areas, body.area).value;
      var candidates := SlotsOfArea(slots, a.id);
      var k := FirstFreeIndex(candidates, bookings, body.startTime, body.endTime);
      var t := bookings + [r.data];
      forall i, j | 0 <= i < j < |t| && t[i].slotId == t[j].slotId
        ensures !Overlaps(t[i].startTime, t[i].endTime, t[j].startTime, t[j].endTime)
      {
        if j == |bookings| {
          assert t[i] in bookings;
          assert !Blocks(t[i], candidates[k].id, body.startTime, body.endTime);
        } else {
          assert t[i] == bookings[i] && t[j] == bookings[j];
        }
      }
    }
  }

  /** Deleting a booking keeps the invariant. */
  lemma {:induction false} RemoveKeepsNoDoubleBooking(bookings: seq<Booking>, id: int)
    requires NoDoubleBooking(bookings)
    ensures NoDoubleBooking(RemoveId(bookings, id))
  {
    RemoveIdExact(bookings, id);
    SubseqKeepsNoDoubleBooking(RemoveId(bookings, id), bookings);
  }

  lemma {:induction false} SubseqKeepsNoDoubleBooking(r: seq<Booking>, s: seq<Booking>)
    requires NoDoubleBooking(s) && IsSubseq(r, s)
    ensures NoDoubleBooking(r)
    decreases |s|
  {
    if r != [] {
      assert NoDoubleBooking(s[1..]) by {
        forall i, j | 0 <= i < j < |s[1..]| && s[1..][i].slotId == s[1..][j].slotId
          ensures !Overlaps(s[1..][i].startTime, s[1..][i].endTime, s[1..][j].startTime, s[1..][j].endTime)
        {
          assert s[1..][i] == s[i + 1] && s[1..][j] == s[j + 1];
        }
      }
      if r[0] == s[0] {
        SubseqKeepsNoDoubleBooking(r[1..], s[1..]);
        SubseqElems(r[1..], s[1..]);
        forall j | 0 < j < |r| && r[0].slotId == r[j].slotId
          ensures !Overlaps(r[0].startTime, r[0].endTime, r[j].startTime, r[j].endTime)
        {
          assert r[j] == r[1..][j - 1];
          assert r[j] in s[1..];
          var m :| 0 <= m < |s[1..]| && s[1..][m] == r[j];
          assert s[m + 1] == r[j];
        }
      } else {
        SubseqKeepsNoDoubleBooking(r, s[1..]);
      }
    }
  }

  /** Cancellation frees capacity: once a booking is deleted, its slot no longer
      blocks that booking's window (given the invariant), so the scan stops at
      that slot or earlier. */
  lemma {:induction false} DeleteFreesWindow(slots: seq<Slot>, bookings: seq<Booking>, b: Booking, k: int)
    requires NoDoubleBooking(bookings) && b in bookings
    requires 0 <= k < |slots| && slots[k].id == b.slotId
    ensures SlotFree(RemoveId(bookings, b.id), slots[k], b.startTime, b.endTime)
    ensures FirstFreeIndex(slots, RemoveId(bookings, b.id), b.startTime, b.endTime) <= k
  {
    var rest := RemoveId(bookings, b.id);
    RemoveIdExact(bookings, b.id);
    var jb :| 0 <= jb < |bookings| && bookings[jb] == b;
    forall c | c in rest ensures !Blocks(c, b.slotId, b.startTime, b.endTime) {
      var ic :| 0 <= ic < |bookings| && bookings[ic] == c;
      assert ic != jb;
      if c.slotId == b.slotId {
        if ic < jb {
          assert !Overlaps(c.startTime, c.endTime, b.startTime, b.endTime);
        } else {
          assert !Overlaps(b.startTime, b.endTime, c.startTime, c.endTime);
        }
      }
    }
  }

  /** Re-booking the window of a deleted booking in its area succeeds. */
  lemma RebookAfterDelete(areas: seq<Area>, slots: seq<Slot>, bookings: seq<Booking>,
                          b: Booking, body: BookBody, id: int, now: int)
    requires NoDoubleBooking(bookings) && b in bookings
    requires FindAreaByName(areas, body.area).Some?
    requires exists s :: s in slots && s.id == b.slotId && s.parkingId == FindAreaByName(areas, body.area).value.id
    requires body.startTime == b.startTime && body.endTime == b.endTime
    ensures BookSpec(areas, slots, RemoveId(bookings, b.id), body, id, now).Booked?
  {
    var a := FindAreaByName(areas, body.area).value;
    var candidates := SlotsOfArea(slots, a.id);
    var s :| s in slots && s.id == b.slotId && s.parkingId == a.id;
    SlotsOfAreaExact(slots, a.id);
    var k :| 0 <= k < |candidates| && candidates[k] == s;
    DeleteFreesWindow(candidates, bookings, b, k);
  }

  /** The worked example: area "A1" has slots 1 and 2; slot 1 is booked for
      [10:00, 11:00). A request for [10:30, 11:30) gets slot 2; a request for
      [11:00, 12:00), back to back with the booking, gets slot 1. */
  lemma WorkedExample()
    ensures var areas := [Area(7, "A1", "Chennai", "Anna Salai", 40)];
      var slots := [Slot(1, 1, 7), Slot(2, 2, 7)];
      var existing := Booking(1, 5, 1, 600, 660, "", "paid", None, "TN09AB1234", 40, 0);
      var req := BookBody(6, "A1", 630, 690, "", Some("pay_1"), "TN10CD5678", 40);
      var back := BookBody(6, "A1", 660, 720, "", None, "TN10CD5678", 40);
      && BookSpec(areas, slots, [existing], req, 2, 1).Booked?
      && BookSpec(areas, slots, [existing], req, 2, 1).data.slotId == 2
      && BookSpec(areas, slots, [existing], back, 2, 1).Booked?
      && BookSpec(areas, slots, [existing], back, 2, 1).data.slotId == 1
  {
    var slots := [Slot(1, 1, 7), Slot(2, 2, 7)];
    FilterAll(slots, s => BelongsTo(7, s));
  }

  // ------------------------------------------------------------------ delete

  /** The replies `del_book` tries to send, in order; the client receives the first. */
  datatype DelReply =
    | Cancelled        // 200 "Canceled Successfully"
    | BookingNotFound  // 404 "Booking details not found"
    | DelServerError   // 500 "Internal Server Error"

  /** As written: a missing id sends 404 without returning, then the delete
      throws and the catch block sends a 500 on a reply already sent. */
  function DelResponses(bookings: seq<Booking>, id: int): seq<DelReply> {
    if FindBookingById(bookings, id).Some? then [Cancelled] else [BookingNotFound, DelServerError]
  }

  /** With a `return` after the 404. */
  function DelResponsesWithReturn(bookings: seq<Booking>, id: int): seq<DelReply> {
    if FindBookingById(bookings, id).Some? then [Cancelled] else [BookingNotFound]
  }

  /** `del_book` as written. */
  method DelBook(store: Store, id: int) returns (sent: seq<DelReply>)
    requires store.Valid()
    modifies store
    ensures store.Valid()
    ensures sent == DelResponses(old(store.bookings), id)
    ensures store.bookings == RemoveId(old(store.bookings), id)
    ensures store.areas == old(store.areas) && store.slots == old(store.slots)
  {
    sent := [];
    var book := FindBookingById(store.bookings, id);
    if book.None? {
      sent := sent + [BookingNotFound];
    }
    var deleted := store.Delete(id);
    if !deleted {
      sent := sent + [DelServerError];
      return;
    }
    sent := sent + [Cancelled];
  }

  /** `del_book` with the missing `return` added. */
  method DelBookWithReturn(store: Store, id: int) returns (sent: seq<DelReply>)
    requires store.Valid()
    modifies store
    ensures store.Valid()
    ensures sent == DelResponsesWithReturn(old(store.bookings), id)
    ensures store.bookings == RemoveId(old(store.bookings), id)
    ensures store.areas == old(store.areas) && store.slots == old(store.slots)
  {
    var book := FindBookingById(store.bookings, id);
    if book.None? {
      FilterAll(store.bookings, b => HasOtherId(id, b));
      return [BookingNotFound];
    }
    var deleted := store.Delete(id);
    sent := [Cancelled];
  }

  /** An existing id: exactly that booking goes, the rest stay in order. A
      missing id: 404 reaches the client and the table is unchanged, but a
      second (500) reply is attempted after it. */
  lemma DelBookOutcomes(bookings: seq<Booking>, id: int)
    ensures FindBookingById(bookings, id).Some? ==>
      DelResponses(bookings, id) == [Cancelled]
      && (forall b :: b in RemoveId(bookings, id) <==> b in bookings && b.id != id)
      && IsSubseq(RemoveId(bookings, id), bookings)
    ensures FindBookingById(bookings, id).None? ==>
      RemoveId(bookings, id) == bookings && DelResponses(bookings, id) == [BookingNotFound, DelServerError]
  {
    RemoveIdExact(bookings, id);
    if FindBookingById(bookings, id).None? {
      FilterAll(bookings, b => HasOtherId(id, b));
    }
  }

  /** With the `return`, each request gets one reply, the same one the client
      sees from the code as written. */
  lemma DelWithReturnAnswersOnce(bookings: seq<Booking>, id: int)
    ensures |DelResponsesWithReturn(bookings, id)| == 1
    ensures DelResponsesWithReturn(bookings, id)[0] == DelResponses(bookings, id)[0]
    ensures |DelResponses(bookings, id)| == 2 <==> FindBookingById(bookings, id).None?
  {
  }
}
