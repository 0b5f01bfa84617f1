/**
 * The client side of the history endpoints
 * (Frontend/Front-end/src/services/bookingService.jsx): `getUserBookingHistory`
 * turns the backend's list into the records the profile page shows, and
 * `deleteHistoryEntry` asks for a hard delete; both rethrow failures.
 *
 * The HTTP call is a parameter: `Threw` is a rejected axios promise (network
 * error or non-2xx status), `Responded(body)` the parsed response body.
 * Timestamps are integers standing for the ISO strings the backend sends,
 * which are never empty, so `x || y` on them picks x exactly when x is present.
 */
module BookingClient {
  import opened Common
  import HistoryController

  /** One element of the list as it arrives; fields the backend may not send are optional. */
  datatype RawEntry = RawEntry(
    bookingId: int,
    area: string,
    city: string,
    slotNumber: Option<int>,
    startTime: int,
    endTime: int,
    vehicleNumber: string,   // `vehicle_number`
    amount: int,
    paymentStatus: string,
    createdAt: Option<int>,
    paymentId: Option<string>)

  /** The normalised record. */
  datatype HistoryItem = HistoryItem(
    id: int,
    area: string,
    city: string,
    slotNumber: Option<int>,
    startTime: int,
    endTime: int,
    vehicleNumber: string,
    amount: int,
    paymentStatus: string,
    createdAt: int,
    paymentId: Option<string>)

  /** The body of `GET /api/history`: `{ message, data }`. */
  datatype Envelope = Envelope(message: string, data: Option<seq<RawEntry>>)

  /** The `list.map((b) => ({ ... }))` callback. */
  function Normalize(b: RawEntry): HistoryItem {
    HistoryItem(b.bookingId, b.area, b.city, b.slotNumber, b.startTime, b.endTime,
                b.vehicleNumber, b.amount, b.paymentStatus,
                b.createdAt.GetOr(b.startTime),  // `b.createdAt || b.startTime`
                b.paymentId)                     // `b.paymentId ?? null`
  }

  /** `list.map(Normalize)`: same length, same order, element by element. */
  function NormalizeAll(list: seq<RawEntry>): (r: seq<HistoryItem>)
    ensures |r| == |list|
    ensures forall i :: 0 <= i < |list| ==> r[i] == Normalize(list[i])
    ensures forall i :: 0 <= i < |list| ==> r[i].id == list[i].bookingId && r[i].startTime == list[i].startTime
  {
    if list == [] then [] else [Normalize(list[0])] + NormalizeAll(list[1..])
  }

  /** `createdAt` falls back to `startTime`; `paymentId` is null exactly when absent. */
  lemma NormalizeDefaults(b: RawEntry)
    ensures Normalize(b).createdAt == (if b.createdAt.Some? then b.createdAt.value else b.startTime)
    ensures Normalize(b).paymentId.None? <==> b.paymentId.None?
    ensures Normalize(b).vehicleNumber == b.vehicleNumber && Normalize(b).id == b.bookingId
  {
  }

  /** The JSON the history endpoint sends for one projected booking: it has no
      `createdAt` and no `paymentId` field. */
  function FromBackend(e: HistoryController.Entry): RawEntry {
    RawEntry(e.bookingId, e.area, e.city, e.slotNumber, e.startTime, e.endTime,
             e.vehicleNumber, e.amount, e.paymentStatus, None, None)
  }

  /** So every record built from the backend's list has createdAt == startTime
      and a null paymentId, and keeps the booking's id and fields. */
  lemma {:induction false} BackendListNormalised(es: seq<HistoryController.Entry>)
    ensures var r := NormalizeAll(Map(es));
      && |r| == |es|
      && forall i :: 0 <= i < |es| ==>
           && r[i].id == es[i].bookingId && r[i].createdAt == es[i].startTime
           && r[i].createdAt == r[i].startTime && r[i].paymentId.None?
           && r[i].paymentStatus == es[i].paymentStatus && r[i].area == es[i].area
  {
    var r := NormalizeAll(Map(es));
    forall i | 0 <= i < |es|
      ensures r[i].createdAt == es[i].startTime && r[i].paymentId.None? && r[i].id == es[i].bookingId
    {
      assert Map(es)[i] == FromBackend(es[i]);
    }
  }

  function Map(es: seq<HistoryController.Entry>): (r: seq<RawEntry>)
    ensures |r| == |es| && forall i :: 0 <= i < |es| ==> r[i] == FromBackend(es[i])
  {
    if es == [] then [] else [FromBackend(es[0])] + Map(es[1..])
  }

  // ------------------------------------------------------------- the fetches

  const NotAFunction := "TypeError: list.map is not a function"

  /** `getUserBookingHistory` as written. `apiGET` here returns the axios
      response itself, so `res.data` is the `{ message, data }` envelope, not
      the list: an envelope has no `map` and the call throws. Only a response
      with no body (`res.data` falsy) yields the empty list. */
  function GetUserBookingHistory(response: Fetch<Option<Envelope>>): (r: Result<seq<HistoryItem>, string>)
    ensures r.Success? <==> response == Responded(None)
    ensures response.Threw? ==> r == Failure(response.error)
    ensures response.Responded? && response.body.Some? ==> r == Failure(NotAFunction)
  {
    match response
    case Threw(e) => Failure(e)
    case Responded(None) => Success([])
    case Responded(Some(_)) => Failure(NotAFunction)
  }

  /** As written the client never yields a booking: success means the empty list. */
  lemma AsWrittenNeverLists(response: Fetch<Option<Envelope>>)
    ensures GetUserBookingHistory(response).Success? ==> GetUserBookingHistory(response).value == []
    ensures response.Responded? && response.body.Some? ==> GetUserBookingHistory(response).Failure?
  {
  }

  /** The evidently intended reading: the list is `res.data.data`, absent as empty. */
  function GetUserBookingHistoryFixed(response: Fetch<Option<Envelope>>): (r: Result<seq<HistoryItem>, string>)
    ensures r.Failure? <==> response.Threw?
    ensures response.Threw? ==> r.error == response.error
    ensures r.Success? && response.body.Some? && response.body.value.data.Some? ==>
      r.value == NormalizeAll(response.body.value.data.value)
    ensures r.Success? && (response.body.None? || response.body.value.data.None?) ==> r.value == []
  {
    match response
    case Threw(e) => Failure(e)
    case Responded(body) =>
      var list := if body.Some? then body.value.data.GetOr([]) else [];
      Success(NormalizeAll(list))
  }

  /** A 200 reply carrying a non-empty list: the fixed client shows every
      entry, the client as written fails. */
  lemma EnvelopeExample(es: seq<HistoryController.Entry>)
    requires |es| > 0
    ensures var resp := Responded(Some(Envelope("History Retrieved Successfully", Some(Map(es)))));
      && GetUserBookingHistory(resp) == Failure(NotAFunction)
      && GetUserBookingHistoryFixed(resp).Success?
      && |GetUserBookingHistoryFixed(resp).value| == |es|
  {
  }

  /** `deleteHistoryEntry`: resolves with nothing, or rethrows the failure. */
  function DeleteHistoryEntry(response: Fetch<string>): (r: Option<string>)
    ensures r.Some? <==> response.Threw?
    ensures r.Some? ==> r.value == response.error
  {
    if response.Threw? then Some(response.error) else None
  }
}
