/**
 * The parking-area client (Frontend/Front-end/src/services/parkingService.js):
 * list, search and look-up over the areas the backend returns, and the
 * booking-status update with its result mapping. The HTTP calls go through
 * the generic helpers, which return the response body and reject on any
 * non-2xx status; the call's outcome is a parameter here.
 */
module ParkingService {
  import opened Common

  /** A parking area as the client sees it; fields may be absent. */
  datatype ParkingArea = ParkingArea(
    id: int,
    name: Option<string>,
    address: Option<string>,
    city: Option<string>,
    amount: Option<int>,
    features: Option<seq<string>>)

  /** The body of `GET /v1/display_areas`: `{ message, data }`. */
  datatype AreasBody = AreasBody(message: string, data: Option<seq<ParkingArea>>)

  /** `fetchAllParkingAreas`: `res.data || []`; a rejected call propagates. */
  function FetchAllParkingAreas(response: Fetch<AreasBody>): (r: Result<seq<ParkingArea>, string>)
    ensures r.Failure? <==> response.Threw?
    ensures r.Success? && response.body.data.None? ==> r.value == []
    ensures r.Success? && response.body.data.Some? ==> r.value == response.body.data.value
  {
    match response
    case Threw(e) => Failure(e)
    case Responded(body) => Success(body.data.GetOr([]))
  }

  // ---------------------------------------------------------------- search

  /** `field?.toLowerCase().includes(term)`: an absent field never matches. */
  predicate FieldMatches(field: Option<string>, term: string) {
    field.Some? && Contains(ToLower(field.value), term)
  }

  predicate MatchesTerm(term: string, lot: ParkingArea) {
    FieldMatches(lot.name, term) || FieldMatches(lot.address, term) || FieldMatches(lot.city, term)
  }

  /** The filter of `searchParkingAreas` with the term already lower-cased. */
  function MatchingAreas(all: seq<ParkingArea>, term: string): seq<ParkingArea> {
    Filter(all, lot => MatchesTerm(term, lot))
  }

  /** `searchParkingAreas(searchTerm)`. */
  function SearchParkingAreas(response: Fetch<AreasBody>, searchTerm: string): Result<seq<ParkingArea>, string> {
    match FetchAllParkingAreas(response)
    case Failure(e) => Failure(e)
    case Success(all) => Success(MatchingAreas(all, ToLower(searchTerm)))
  }

  /** The search keeps, in order, exactly the areas whose name, address or city
      contains the term, ignoring the case of both. */
  lemma SearchExact(all: seq<ParkingArea>, searchTerm: string)
    ensures forall lot :: lot in MatchingAreas(all, ToLower(searchTerm)) <==>
      lot in all && (FieldMatches(lot.name, ToLower(searchTerm))
                     || FieldMatches(lot.address, ToLower(searchTerm))
                     || FieldMatches(lot.city, ToLower(searchTerm)))
    ensures IsSubseq(MatchingAreas(all, ToLower(searchTerm)), all)
  {
    FilterIsSubseq(all, lot => MatchesTerm(ToLower(searchTerm), lot));
  }

  lemma {:induction false} ToLowerIdempotent(s: string)
    ensures ToLower(ToLower(s)) == ToLower(s)
  {
    forall i | 0 <= i < |s| ensures ToLower(ToLower(s))[i] == ToLower(s)[i] {
      assert ToLower(s)[i] == LowerChar(s[i]);
    }
  }

  /** Searching for "Anna" and for "aNNA" gives the same areas. */
  lemma SearchIgnoresTermCase(response: Fetch<AreasBody>, searchTerm: string)
    ensures SearchParkingAreas(response, ToLower(searchTerm)) == SearchParkingAreas(response, searchTerm)
  {
    ToLowerIdempotent(searchTerm);
  }

  /** The empty term keeps every area that has a name, an address or a city. */
  lemma EmptyTermKeepsNamedAreas(all: seq<ParkingArea>)
    ensures forall lot :: lot in MatchingAreas(all, "") <==>
      lot in all && (lot.name.Some? || lot.address.Some? || lot.city.Some?)
  {
    forall f: Option<string> | f.Some? ensures FieldMatches(f, "") {
      assert OccursAt(ToLower(f.value), "", 0);
    }
  }

  /** `searchParkingAreasWithAvailability`: the backend route does not exist,
      so it always rejects. */
  function SearchParkingAreasWithAvailability(): (r: Result<seq<ParkingArea>, string>)
    ensures r.Failure?
  {
    Failure("Backend route for availability search is not implemented. Tell me if you want it built.")
  }

  // ------------------------------------------------------------- by id

  /** `all.find((a) => String(a.id) === String(id)) || null`; the route
      parameter is already a string. */
  function FindAreaById(all: seq<ParkingArea>, id: string): (r: Option<ParkingArea>)
    ensures r.Some? ==> r.value in all && IntToString(r.value.id) == id
    ensures r.None? <==> forall a :: a in all ==> IntToString(a.id) != id
    ensures r.Some? ==>
      exists k :: (0 <= k < |all| && all[k] == r.value
                   && forall j :: 0 <= j < k ==> IntToString(all[j].id) != id)
  {
    var matches := (a: ParkingArea) => IntToString(a.id) == id;
    var r := FindFirst(all, matches);
    if r.Some? then FindFirstIsFirst(all, matches); r else r
  }

  /** `fetchParkingAreaById`. */
  function FetchParkingAreaById(response: Fetch<AreasBody>, id: string): Result<Option<ParkingArea>, string> {
    match FetchAllParkingAreas(response)
    case Failure(e) => Failure(e)
    case Success(all) => Success(FindAreaById(all, id))
  }

  /** Looking up the decimal form of n finds an area with id n exactly when
      one exists. */
  lemma FindCanonicalId(all: seq<ParkingArea>, n: int)
    ensures FindAreaById(all, IntToString(n)).Some? <==> exists a :: a in all && a.id == n
    ensures FindAreaById(all, IntToString(n)).Some? ==> FindAreaById(all, IntToString(n)).value.id == n
  {
    var r := FindAreaById(all, IntToString(n));
    if r.Some? {
      IntToStringInjective(r.value.id, n);
    }
  }

  /** A route parameter with a leading zero, such as "07", matches no area. */
  lemma LeadingZeroFindsNothing(all: seq<ParkingArea>)
    ensures FindAreaById(all, "07") == None
  {
    forall a | a in all ensures IntToString(a.id) != "07" {
      SignShows(a.id);
      if a.id >= 0 {
        NatToStringNoLeadingZero(a.id);
      }
    }
  }

  // ------------------------------------------------------- status update

  /** The body a status endpoint would answer with. */
  datatype StatusBody = StatusBody(success: Option<bool>, message: Option<string>)

  datatype UpdateResult = UpdateResult(success: bool, message: string)

  const UpdateFailedText := "Failed to update status"

  /** `updateBookingStatus`: `res.success ?? true`, `res.message ?? "Status
      updated"`; any rejection becomes a failed result, never an exception. */
  function UpdateBookingStatus(response: Fetch<StatusBody>): (r: UpdateResult)
    ensures response.Threw? ==> r == UpdateResult(false, UpdateFailedText)
    ensures response.Responded? ==>
      (r.success <==> response.body.success != Some(false))
    ensures response.Responded? && response.body.message.None? ==> r.message == "Status updated"
    ensures response.Responded? && response.body.message.Some? ==> r.message == response.body.message.value
  {
    match response
    case Threw(_) => UpdateResult(false, UpdateFailedText)
    case Responded(body) => UpdateResult(body.success.GetOr(true), body.message.GetOr("Status updated"))
  }

  // ------------------------------------------------------------- routes

  datatype Verb = Get | Post | Delete

  datatype Route = Route(verb: Verb, path: string)

  /** The routes the backend mounts (Backend/index.js with its three routers). */
  const BackendRoutes: set<Route> := {
    Route(Get, "/"),
    Route(Get, "/v1/get_users"),
    Route(Get, "/v1/display_areas"),
    Route(Post, "/api/book"),
    Route(Delete, "/api/book/del"),
    Route(Get, "/api/latest_booking"),
    Route(Get, "/api/history")
  }

  /** A request: answered by its handler when the route exists, otherwise
      Express answers 404 and the helper rejects. */
  function Dispatch<T>(route: Route, handled: T): (r: Fetch<T>)
    ensures r.Responded? <==> route in BackendRoutes
  {
    if route in BackendRoutes then Responded(handled) else Threw("Request failed with status code 404")
  }

  const StatusRoute := Route(Post, "/api/book/status")

  /** The status update posts to a route the backend does not define, so
      whatever a handler would have answered, the update reports failure. */
  lemma StatusUpdateAlwaysFails(handled: StatusBody)
    ensures StatusRoute !in BackendRoutes
    ensures UpdateBookingStatus(Dispatch(StatusRoute, handled)) == UpdateResult(false, UpdateFailedText)
  {
    assert StatusRoute.path != "/api/book" && StatusRoute.path != "/api/history";
  }
}
