/**
 * The ticket page (Frontend/Front-end/src/pages/TicketPage.jsx): the booking's
 * lifecycle CONFIRMED -> ACTIVE -> COMPLETED driven by the simulated entry
 * and exit scans, which actions each status offers, and what a status update
 * does to the booking held in the app context.
 */
module TicketPage {
  import opened Common
  import opened ParkingService

  /** `BookingStatus`; `Unset` is a booking without a status (or with another value). */
  datatype Status = Pending | Confirmed | Active | Completed | Cancelled | Unset

  /** The booking in the app context, as far as the page reads it. */
  datatype TicketBooking = TicketBooking(id: int, status: Status, lotName: string, vehicleNumber: string)

  const GateText := "You'll be verified at the entry gate."
  const StartedText := "Welcome! Your parking session has started."
  const CompletedText := "Your session is complete. Thank you for parking with us!"
  const ErrorText := "Error updating session status."

  /** What the page offers for a status. */
  datatype Offer = Offer(entryScan: bool, exitScan: bool, findNew: bool, details: bool, directions: bool)

  function Offered(s: Status): (o: Offer)
    ensures o.entryScan <==> s == Confirmed
    ensures o.exitScan <==> s == Active
    ensures o.findNew <==> s == Completed || s == Cancelled
    ensures o.details <==> s != Cancelled
    ensures o.directions <==> s == Confirmed
  {
    Offer(s == Confirmed, s == Active, s == Completed || s == Cancelled, s != Cancelled, s == Confirmed)
  }

  /** The terminal statuses offer no transition, only navigation. */
  lemma TerminalOffersNavigationOnly(s: Status)
    requires s == Completed || s == Cancelled
    ensures !Offered(s).entryScan && !Offered(s).exitScan && Offered(s).findNew
    ensures Offered(s).details <==> s == Completed
  {
  }

  datatype Scan = EntryScan | ExitScan

  /** The status a scan requests. */
  function Requested(a: Scan): Status {
    match a
    case EntryScan => Active
    case ExitScan => Completed
  }

  /** One scan, when the page offers it and the update succeeds. */
  function Step(s: Status, a: Scan): Status {
    match a
    case EntryScan => if Offered(s).entryScan then Requested(a) else s
    case ExitScan => if Offered(s).exitScan then Requested(a) else s
  }

  function Run(s: Status, scans: seq<Scan>): Status
    decreases |scans|
  {
    if scans == [] then s else Run(Step(s, scans[0]), scans[1..])
  }

  predicate OnPath(s: Status) {
    s == Confirmed || s == Active || s == Completed
  }

  function Stage(s: Status): int {
    match s
    case Confirmed => 0
    case Active => 1
    case Completed => 2
    case _ => -1
  }

  /** Scans only move a booking forward along CONFIRMED -> ACTIVE -> COMPLETED. */
  lemma {:induction false} RunMovesForward(s: Status, scans: seq<Scan>)
    requires OnPath(s)
    ensures OnPath(Run(s, scans)) && Stage(s) <= Stage(Run(s, scans))
    decreases |scans|
  {
    if scans != [] {
      RunMovesForward(Step(s, scans[0]), scans[1..]);
    }
  }

  /** A status off the path (CANCELLED, PENDING, none) never changes. */
  lemma {:induction false} RunOffPathIsStuck(s: Status, scans: seq<Scan>)
    requires !OnPath(s)
    ensures Run(s, scans) == s
    decreases |scans|
  {
    if scans != [] {
      RunOffPathIsStuck(Step(s, scans[0]), scans[1..]);
    }
  }

  /** Entry then exit completes a confirmed booking. */
  lemma EntryThenExitCompletes()
    ensures Run(Confirmed, [EntryScan, ExitScan]) == Completed
    ensures Run(Confirmed, [ExitScan]) == Confirmed
  {
    assert [EntryScan, ExitScan][1..] == [ExitScan];
  }

  class TicketView {
    var booking: Option<TicketBooking>
    var statusMessage: string

    constructor (booking: Option<TicketBooking>)
      ensures this.booking == booking && statusMessage == ""
    {
      this.booking := booking;
      statusMessage := "";
    }

    /** The effect run when the booking changes: with no booking, go to the
        finder; a confirmed booking shows the gate message. */
    method OnBookingChange() returns (navigateToFind: bool)
      modifies this
      ensures navigateToFind <==> booking.None?
      ensures booking == old(booking)
      ensures booking.Some? && booking.value.status == Confirmed ==> statusMessage == GateText
      ensures !(booking.Some? && booking.value.status == Confirmed) ==> statusMessage == old(statusMessage)
    {
      if booking.None? {
        return true;
      }
      navigateToFind := false;
      if booking.value.status == Confirmed {
        statusMessage := GateText;
      }
    }

    /** `updateStatus(newStatus)`; `result` is what `updateBookingStatus`
        produced, and `requested` says whether it was called. */
    method UpdateStatus(newStatus: Status, result: UpdateResult) returns (requested: bool)
      modifies this
      ensures requested <==> old(booking).Some?
      ensures old(booking).None? ==> booking == old(booking) && statusMessage == old(statusMessage)
      ensures requested && !result.success ==> booking == old(booking) && statusMessage == ErrorText
      ensures requested && result.success ==> booking == Some(old(booking).value.(status := newStatus))
      ensures requested && result.success ==>
        statusMessage == (if newStatus == Active then StartedText
                          else if newStatus == Completed then CompletedText
                          else old(statusMessage))
    {
      if booking.None? {
        return false;
      }
      requested := true;
      if !result.success {
        statusMessage := ErrorText;
        return;
      }
      booking := Some(booking.value.(status := newStatus));
      if newStatus == Active {
        statusMessage := StartedText;
      } else if newStatus == Completed {
        statusMessage := CompletedText;
      }
    }

    /** `handleSimulateEntry`, shown only for a confirmed booking. */
    method SimulateEntry(result: UpdateResult)
      requires booking.Some? && Offered(booking.value.status).entryScan
      modifies this
      ensures result.success ==> booking == Some(old(booking).value.(status := Active))
      ensures result.success ==> booking.value.status == Step(old(booking).value.status, EntryScan)
      ensures result.success ==> statusMessage == StartedText
      ensures !result.success ==> booking == old(booking) && statusMessage == ErrorText
    {
      var _ := UpdateStatus(Requested(EntryScan), result);
    }

    /** `handleSimulateExit`, shown only for an active booking. */
    method SimulateExit(result: UpdateResult)
      requires booking.Some? && Offered(booking.value.status).exitScan
      modifies this
      ensures result.success ==> booking == Some(old(booking).value.(status := Completed))
      ensures result.success ==> booking.value.status == Step(old(booking).value.status, ExitScan)
      ensures result.success ==> statusMessage == CompletedText
      ensures !result.success ==> booking == old(booking) && statusMessage == ErrorText
    {
      var _ := UpdateStatus(Requested(ExitScan), result);
    }
  }

  /** Against the backend as mounted, the entry scan's update always fails:
      the booking keeps its status and the page shows the error text. */
  lemma EntryScanNeverTakesEffect(handled: StatusBody)
    ensures !UpdateBookingStatus(Dispatch(StatusRoute, handled)).success
  {
    StatusUpdateAlwaysFails(handled);
  }
}
