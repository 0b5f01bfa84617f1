/**
 * The history read model (Backend/controller/historyController.js):
 * `latest_booking` and `history` read a snapshot of the store, keep one
 * user's bookings, order them newest `createdAt` first and project the fields
 * the client shows. Neither changes the store.
 */
module HistoryController {
  import opened Common
  import opened BookService

  /** A snapshot of the tables the two handlers read. */
  datatype Db = Db(users: set<int>, areas: seq<Area>, slots: seq<Slot>, bookings: seq<Booking>)

  /** One projected booking; `latest_booking` leaves out the slot number. */
  datatype Entry = Entry(
    bookingId: int,
    area: string,
    city: string,
    slotNumber: Option<int>,
    startTime: int,
    endTime: int,
    vehicleNumber: string,
    amount: int,
    paymentStatus: string)

  datatype HistoryReply =
    | BadRequest           // 400 "User ID is required"
    | UserNotFound         // 404 "User not found"
    | NoHistory            // 200 "No Booking History Found", data: []
    | Retrieved(data: seq<Entry>)  // 200 "History Retrieved Successfully"
    | ServerError          // 500
  {
    function StatusCode(): int {
      match this
      case BadRequest => 400
      case UserNotFound => 404
      case ServerError => 500
      case _ => 200
    }
  }

  datatype LatestReply =
    | LatestBadRequest     // 400 "User ID is required"
    | NoBookings           // 404 "No bookings found"
    | LatestFound(booking: Entry)  // 200 "Latest Booking Found"
    | LatestServerError    // 500

  /** `Number(req.query.id)` followed by `if (!userId)`: a missing or
      non-numeric id (None, JavaScript's NaN) and 0 are rejected. */
  function CheckUserId(raw: Option<int>): (r: Option<int>)
    ensures r.Some? <==> raw.Some? && raw.value != 0
    ensures r.Some? ==> r == raw
  {
    if raw.None? || raw.value == 0 then None else raw
  }

  // ---------------------------------------------------------------- lookups

  function FindSlotById(slots: seq<Slot>, id: int): (r: Option<Slot>)
    ensures r.Some? ==> r.value in slots && r.value.id == id
    ensures r.None? <==> forall s :: s in slots ==> s.id != id
  {
    FindFirst(slots, (s: Slot) => s.id == id)
  }

  function FindAreaById(areas: seq<Area>, id: int): (r: Option<Area>)
    ensures r.Some? ==> r.value in areas && r.value.id == id
    ensures r.None? <==> forall a :: a in areas ==> a.id != id
  {
    FindFirst(areas, (a: Area) => a.id == id)
  }

  predicate OfUser(userId: int, b: Booking) {
    b.userId == userId
  }

  function CreatedAt(b: Booking): int {
    b.createdAt
  }

  /** `where: { userId }`. */
  function UserBookings(bookings: seq<Booking>, userId: int): seq<Booking> {
    Filter(bookings, b => OfUser(userId, b))
  }

  lemma UserBookingsExact(bookings: seq<Booking>, userId: int)
    ensures forall b :: b in UserBookings(bookings, userId) <==> b in bookings && b.userId == userId
    ensures IsSubseq(UserBookings(bookings, userId), bookings)
  {
    FilterIsSubseq(bookings, b => OfUser(userId, b));
  }

  /** `where: { userId }, orderBy: { createdAt: "desc" }`. */
  function UserRows(db: Db, userId: int): seq<Booking> {
    SortByKeyDesc(UserBookings(db.bookings, userId), CreatedAt)
  }

  /** The `include: { slot: { include: { parkingArea } } }` projection of one
      row; None when the row's slot or the slot's area is missing, where the
      source dereferences null and answers 500. */
  function Project(db: Db, b: Booking): (r: Option<Entry>)
    ensures r.Some? <==> FindSlotById(db.slots, b.slotId).Some?
                          && FindAreaById(db.areas, FindSlotById(db.slots, b.slotId).value.parkingId).Some?
    ensures r.Some? ==>
      var slot := FindSlotById(db.slots, b.slotId).value;
      var area := FindAreaById(db.areas, slot.parkingId).value;
      r.value == Entry(b.id, area.name, area.city, Some(slot.slotNumber), b.startTime, b.endTime,
                       b.vehicleNumber, b.amount, b.paymentStatus)
  {
    match FindSlotById(db.slots, b.slotId)
    case None => None
    case Some(slot) =>
      match FindAreaById(db.areas, slot.parkingId)
      case None => None
      case Some(area) =>
        Some(Entry(b.id, area.name, area.city, Some(slot.slotNumber), b.startTime, b.endTime,
                   b.vehicleNumber, b.amount, b.paymentStatus))
  }

  /** `history.map(...)`: one entry per row, in row order. */
  function ProjectAll(db: Db, rows: seq<Booking>): (r: Option<seq<Entry>>)
    ensures r.Some? <==> forall b :: b in rows ==> Project(db, b).Some?
    ensures r.Some? ==> |r.value| == |rows|
                        && forall i :: 0 <= i < |rows| ==> Project(db, rows[i]) == Some(r.value[i])
    decreases |rows|
  {
    if rows == [] then Some([])
    else
      match Project(db, rows[0])
      case None => None
      case Some(e) =>
        match ProjectAll(db, rows[1..])
        case None => assert forall b :: b in rows[1..] ==> b in rows; None
        case Some(es) => Some([e] + es)
  }

  /** Every booking's slot exists and every such slot's area exists (the
      foreign keys of the schema). */
  ghost predicate Referential(db: Db) {
    forall b :: b in db.bookings ==> Project(db, b).Some?
  }

  // --------------------------------------------------------------- handlers

  /** `history`. */
  function History(db: Db, rawId: Option<int>): (r: HistoryReply)
    ensures r.BadRequest? <==> rawId.None? || rawId == Some(0)
    ensures r.UserNotFound? <==> rawId.Some? && rawId.value != 0 && rawId.value !in db.users
    ensures r.ServerError? ==>
      exists b :: b in db.bookings && b.userId == rawId.value && Project(db, b).None?
    ensures Referential(db) ==> !r.ServerError?
    ensures r.Retrieved? ==> 0 < |r.data| == |UserRows(db, rawId.value)|
  {
    match CheckUserId(rawId)
    case None => BadRequest
    case Some(userId) =>
      if userId !in db.users then UserNotFound
      else
        var rows := UserRows(db, userId);
        UserRowsExact(db, userId);
        if |rows| == 0 then NoHistory
        else
          match ProjectAll(db, rows)
          case None => ServerError
          case Some(entries) => Retrieved(entries)
  }

  /** `latest_booking`: the first row of the same query; the user table is not consulted. */
  function Latest(db: Db, rawId: Option<int>): (r: LatestReply)
    ensures r.LatestBadRequest? <==> rawId.None? || rawId == Some(0)
    ensures r.LatestServerError? ==>
      exists b :: b in db.bookings && b.userId == rawId.value && Project(db, b).None?
    ensures Referential(db) ==> !r.LatestServerError?
    ensures r.LatestFound? ==>
      r.booking.slotNumber.None?
      && exists b :: b in db.bookings && b.userId == rawId.value && b.id == r.booking.bookingId
  {
    match CheckUserId(rawId)
    case None => LatestBadRequest
    case Some(userId) =>
      var rows := UserRows(db, userId);
      UserRowsExact(db, userId);
      if |rows| == 0 then NoBookings
      else
        match Project(db, rows[0])
        case None => LatestServerError
        case Some(e) => LatestFound(e.(slotNumber := None))
  }

  // ------------------------------------------------------------- properties

  /** A missing, zero or non-numeric id is a 400 from both handlers. */
  lemma BadIdRejected(db: Db, rawId: Option<int>)
    requires rawId.None? || rawId == Some(0)
    ensures History(db, rawId) == BadRequest && History(db, rawId).StatusCode() == 400
    ensures Latest(db, rawId) == LatestBadRequest
  {
  }

  /** The user's rows: exactly that user's bookings, each once, newest first. */
  lemma {:induction false} UserRowsExact(db: Db, userId: int)
    ensures multiset(UserRows(db, userId)) == multiset(UserBookings(db.bookings, userId))
    ensures SortedDesc(UserRows(db, userId), CreatedAt)
    ensures forall b :: b in UserRows(db, userId) <==> b in db.bookings && b.userId == userId
  {
    UserBookingsExact(db.bookings, userId);
    var rows := UserRows(db, userId);
    forall b ensures b in rows <==> b in UserBookings(db.bookings, userId) {
      assert b in rows <==> b in multiset(rows);
    }
  }

  /** `history` outcomes for a valid id: 404 for an unknown user, and the
      empty 200 exactly for a known user without bookings. */
  lemma {:induction false} HistoryOutcomes(db: Db, userId: int)
    requires userId != 0
    ensures userId !in db.users ==> History(db, Some(userId)) == UserNotFound
    ensures userId in db.users ==>
      (History(db, Some(userId)) == NoHistory <==> forall b :: b in db.bookings ==> b.userId != userId)
  {
    UserRowsExact(db, userId);
    var rows := UserRows(db, userId);
    if userId in db.users && exists b :: b in db.bookings && b.userId == userId {
      var b :| b in db.bookings && b.userId == userId;
      assert b in rows;
    }
  }

  /** For a known user with bookings in a consistent store, `history` answers
      with the projection of the user's rows. */
  lemma {:induction false} HistoryIsProjection(db: Db, userId: int)
    requires userId != 0 && userId in db.users && Referential(db)
    requires exists b :: b in db.bookings && b.userId == userId
    ensures ProjectAll(db, UserRows(db, userId)).Some?
    ensures History(db, Some(userId)) == Retrieved(ProjectAll(db, UserRows(db, userId)).value)
  {
    UserRowsExact(db, userId);
    var b :| b in db.bookings && b.userId == userId;
    assert b in UserRows(db, userId);
  }

  /** For a known user with bookings in a consistent store, the reply lists
      one entry per booking, newest first, with its fields and slot number. */
  lemma {:induction false} HistoryListsRows(db: Db, userId: int)
    requires userId != 0 && userId in db.users && Referential(db)
    requires exists b :: b in db.bookings && b.userId == userId
    ensures History(db, Some(userId)).Retrieved?
    ensures var rows := UserRows(db, userId);
      var es := History(db, Some(userId)).data;
      && |es| == |rows| > 0
      && forall i :: 0 <= i < |rows| ==>
           && es[i].bookingId == rows[i].id
           && es[i].startTime == rows[i].startTime && es[i].endTime == rows[i].endTime
           && es[i].vehicleNumber == rows[i].vehicleNumber && es[i].amount == rows[i].amount
           && es[i].paymentStatus == rows[i].paymentStatus && es[i].slotNumber.Some?
  {
    HistoryIsProjection(db, userId);
    var rows := UserRows(db, userId);
    var es := ProjectAll(db, rows).value;
    forall i | 0 <= i < |rows|
      ensures es[i].bookingId == rows[i].id
      ensures es[i].startTime == rows[i].startTime && es[i].endTime == rows[i].endTime
      ensures es[i].vehicleNumber == rows[i].vehicleNumber && es[i].amount == rows[i].amount
      ensures es[i].paymentStatus == rows[i].paymentStatus && es[i].slotNumber.Some?
    {
      assert Project(db, rows[i]) == Some(es[i]);
    }
  }

  /** `latest_booking` answers 404 exactly when the user has no bookings, and
      otherwise a booking of that user with the greatest createdAt. */
  lemma {:induction false} LatestIsNewest(db: Db, userId: int)
    requires userId != 0
    ensures Latest(db, Some(userId)) == NoBookings <==> forall b :: b in db.bookings ==> b.userId != userId
    ensures Latest(db, Some(userId)).LatestFound? ==>
      exists b :: b in db.bookings && b.userId == userId
        && Latest(db, Some(userId)).booking.bookingId == b.id
        && Latest(db, Some(userId)).booking.slotNumber.None?
        && forall c :: c in db.bookings && c.userId == userId ==> c.createdAt <= b.createdAt
  {
    UserRowsExact(db, userId);
    var rows := UserRows(db, userId);
    if |rows| > 0 {
      assert rows[0] in rows;
      forall c | c in db.bookings && c.userId == userId ensures c.createdAt <= rows[0].createdAt {
        assert c in rows;
        var j :| 0 <= j < |rows| && rows[j] == c;
        if j > 0 {
          assert CreatedAt(rows[0]) >= CreatedAt(rows[j]);
        }
      }
    }
  }

  /** The latest booking is the first history entry without its slot number. */
  lemma LatestIsHistoryHead(db: Db, userId: int)
    requires userId != 0 && History(db, Some(userId)).Retrieved?
    ensures Latest(db, Some(userId)) == LatestFound(History(db, Some(userId)).data[0].(slotNumber := None))
  {
    var rows := UserRows(db, userId);
    assert rows[0] in rows;
  }
}
