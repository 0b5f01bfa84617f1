/**
 * The profile page's logic (Frontend/Front-end/src/pages/ProfilePage.jsx): the
 * history it keeps in component state, how it sorts and prunes it, the
 * relative time shown on notifications, and what the current-booking panel
 * and the history rows show. Rendering is not modelled.
 */
module ProfilePage {
  import opened Common
  import opened BookingClient

  const LoadError := "Failed to load booking history. Please try again."
  const DeleteAlert := "Failed to delete booking. Please try again."

  /** The sort key `a.createdAt || a.startTime`; after normalisation createdAt
      is always present, so it is createdAt. */
  function SortKey(b: HistoryItem): int {
    b.createdAt
  }

  /** `[...history].sort((a, b) => dateB - dateA)`: newest first, on a copy. */
  function SortHistory(history: seq<HistoryItem>): seq<HistoryItem> {
    SortByKeyDesc(history, SortKey)
  }

  lemma SortHistoryOrders(history: seq<HistoryItem>)
    ensures SortedDesc(SortHistory(history), SortKey)
    ensures multiset(SortHistory(history)) == multiset(history)
    ensures |SortHistory(history)| == |history|
  {
    assert |SortHistory(history)| == |multiset(SortHistory(history))|;
  }

  predicate HasOtherId(id: int, b: HistoryItem) {
    b.id != id
  }

  /** `prev.filter((b) => b.id !== bookingId)`. */
  function RemoveEntry(history: seq<HistoryItem>, bookingId: int): seq<HistoryItem> {
    Filter(history, b => HasOtherId(bookingId, b))
  }

  /** Deleting removes exactly the entries with that id and keeps the rest in order. */
  lemma RemoveEntryExact(history: seq<HistoryItem>, bookingId: int)
    ensures forall b :: b in RemoveEntry(history, bookingId) <==> b in history && b.id != bookingId
    ensures IsSubseq(RemoveEntry(history, bookingId), history)
  {
    FilterIsSubseq(history, b => HasOtherId(bookingId, b));
  }

  /** The page's history state. */
  class ProfileView {
    var bookingHistory: seq<HistoryItem>
    var loadingHistory: bool
    var historyError: string

    constructor ()
      ensures bookingHistory == [] && loadingHistory && historyError == ""
    {
      bookingHistory := [];
      loadingHistory := true;
      historyError := "";
    }

    /** `fetchHistory`: with no (or a zero) user id nothing is fetched and the
        history is empty; otherwise `fetched` is what `getUserBookingHistory`
        produced. `requested` says whether it was called. */
    method FetchHistory(userId: Option<int>, fetched: Result<seq<HistoryItem>, string>) returns (requested: bool)
      modifies this
      ensures requested <==> userId.Some? && userId.value != 0
      ensures !loadingHistory
      ensures !requested ==> bookingHistory == [] && historyError == ""
      ensures requested && fetched.Success? ==> bookingHistory == SortHistory(fetched.value) && historyError == ""
      ensures requested && fetched.Failure? ==> bookingHistory == [] && historyError == LoadError
    {
      loadingHistory := true;
      historyError := "";
      if userId.None? || userId.value == 0 {
        bookingHistory := [];
        loadingHistory := false;
        return false;
      }
      requested := true;
      match fetched {
        case Success(history) =>
          bookingHistory := SortHistory(history);
        case Failure(_) =>
          historyError := LoadError;
          bookingHistory := [];
      }
      loadingHistory := false;
    }

    /** `handleDeleteHistoryEntry`: without a user id it alerts and sends
        nothing; otherwise `outcome` is what `deleteHistoryEntry` produced. */
    method HandleDeleteHistoryEntry(userId: Option<int>, bookingId: int, outcome: Option<string>)
      returns (requested: bool, alerted: Option<string>)
      modifies this
      ensures requested <==> userId.Some? && userId.value != 0
      ensures alerted.Some? <==> !requested || outcome.Some?
      ensures alerted.Some? ==> alerted.value == DeleteAlert && bookingHistory == old(bookingHistory)
      ensures alerted.None? ==> bookingHistory == RemoveEntry(old(bookingHistory), bookingId)
      ensures loadingHistory == old(loadingHistory) && historyError == old(historyError)
    {
      if userId.None? || userId.value == 0 {
        return false, Some(DeleteAlert);
      }
      requested := true;
      if outcome.Some? {
        return requested, Some(DeleteAlert);
      }
      bookingHistory := RemoveEntry(bookingHistory, bookingId);
      alerted := None;
    }
  }

  // ------------------------------------------------------ notification time

  /** A notification timestamp: absent, unparsable, or milliseconds. */
  datatype Stamp = Missing | Invalid | At(ms: int)

  datatype TimeLabel = JustNow | MinutesAgo(minutes: int) | HoursAgo(hours: int) | DateOf(ms: int)

  const MinuteMs := 60000

  /** `formatNotificationTime` with the clock as a parameter. `!timestamp`
      also holds for the number 0. `Math.floor` of a division by a positive
      number is Dafny's `/`. */
  function FormatNotificationTime(stamp: Stamp, now: int): (r: TimeLabel)
    ensures r == JustNow <==> stamp.Missing? || stamp.Invalid? || stamp == At(0) || now - stamp.ms < MinuteMs
    ensures r.MinutesAgo? ==>
      (stamp.At? && 1 <= r.minutes < 60 && r.minutes * MinuteMs <= now - stamp.ms < (r.minutes + 1) * MinuteMs)
    ensures r.HoursAgo? ==>
      (stamp.At? && 1 <= r.hours < 24 && r.hours * 60 * MinuteMs <= now - stamp.ms < (r.hours + 1) * 60 * MinuteMs)
    ensures r.DateOf? <==> stamp.At? && stamp.ms != 0 && now - stamp.ms >= 1440 * MinuteMs
    ensures r.DateOf? ==> r.ms == stamp.ms
  {
    match stamp
    case Missing => JustNow
    case Invalid => JustNow
    case At(t) =>
      if t == 0 then JustNow
      else
        var diff := (now - t) / MinuteMs;
        if diff < 1 then JustNow
        else if diff < 60 then MinutesAgo(diff)
        else if diff < 1440 then HoursAgo(diff / 60)
        else DateOf(t)
  }

  /** The text shown; the locale date string is left to the platform. */
  function LabelText(l: TimeLabel, localeDate: string): string {
    match l
    case JustNow => "Just now"
    case MinutesAgo(m) => (if m >= 0 then NatToString(m) else "") + "m ago"
    case HoursAgo(h) => (if h >= 0 then NatToString(h) else "") + "h ago"
    case DateOf(_) => localeDate
  }

  /** The label only gets coarser with age: an older notification never shows
      a smaller unit than a newer one. */
  lemma {:induction false} LabelMonotone(t: int, now1: int, now2: int)
    requires t != 0 && now1 <= now2
    ensures Rank(FormatNotificationTime(At(t), now1)) <= Rank(FormatNotificationTime(At(t), now2))
  {
    var d1, d2 := (now1 - t) / MinuteMs, (now2 - t) / MinuteMs;
    assert d1 <= d2;
  }

  function Rank(l: TimeLabel): int {
    match l
    case JustNow => 0
    case MinutesAgo(_) => 1
    case HoursAgo(_) => 2
    case DateOf(_) => 3
  }

  // ---------------------------------------------------------- derivations

  /** The booking in the app context: `status` may be missing. */
  datatype ContextBooking = ContextBooking(lotName: string, status: Option<string>, bookingTime: Option<int>)

  datatype Panel = NoCurrentBooking | CurrentShown(lotName: string, statusText: string) | RenderCrash

  /** The "Current Booking" panel: shown iff a booking exists and its status
      is not "COMPLETED"; a shown booking without a status makes
      `currentBooking.status.toLowerCase()` throw during rendering. */
  function CurrentPanel(booking: Option<ContextBooking>): (p: Panel)
    ensures p.NoCurrentBooking? <==> booking.None? || booking.value.status == Some("COMPLETED")
    ensures p.RenderCrash? <==> booking.Some? && booking.value.status.None?
    ensures p.CurrentShown? ==>
      (booking.Some? && booking.value.status.Some? && booking.value.status.value != "COMPLETED"
       && p.statusText == ToLower(booking.value.status.value) && p.lotName == booking.value.lotName)
  {
    match booking
    case None => NoCurrentBooking
    case Some(b) =>
      if b.status == Some("COMPLETED") then NoCurrentBooking
      else if b.status.None? then RenderCrash
      else CurrentShown(b.lotName, ToLower(b.status.value))
  }

  /** `(b.paymentStatus || b.status || "N/A").toLowerCase()`. */
  function DisplayStatus(paymentStatus: Option<string>, status: Option<string>): string {
    ToLower(OrString(paymentStatus, OrString(status, Some("N/A"))).value)
  }

  datatype Tone = Settled | Waiting | Problem | Neutral

  /** The badge colour chosen from the displayed status. */
  function StatusTone(status: string): Tone {
    if status == "paid" || status == "completed" then Settled
    else if status == "pending" then Waiting
    else if status == "failed" || status == "cancelled" then Problem
    else Neutral
  }

  /** The displayed status is paymentStatus, else status, else "n/a", in
      lower case, and is never empty. */
  lemma {:induction false} DisplayStatusChoice(paymentStatus: Option<string>, status: Option<string>)
    ensures Truthy(paymentStatus) ==> DisplayStatus(paymentStatus, status) == ToLower(paymentStatus.value)
    ensures !Truthy(paymentStatus) && Truthy(status) ==> DisplayStatus(paymentStatus, status) == ToLower(status.value)
    ensures !Truthy(paymentStatus) && !Truthy(status) ==> DisplayStatus(paymentStatus, status) == "n/a"
    ensures |DisplayStatus(paymentStatus, status)| > 0
    ensures forall i :: 0 <= i < |DisplayStatus(paymentStatus, status)| ==> !IsUpper(DisplayStatus(paymentStatus, status)[i])
  {
    var s := OrString(paymentStatus, OrString(status, Some("N/A"))).value;
    assert ToLower("N/A") == "n/a";
    forall i | 0 <= i < |ToLower(s)| ensures !IsUpper(ToLower(s)[i]) {
      assert ToLower(s)[i] == LowerChar(s[i]);
    }
  }

  /** A freshly booked entry (status "pending" as the server stores it) is
      shown as "pending" with the waiting tone; case does not matter. */
  lemma PendingShownAsWaiting(status: Option<string>)
    ensures DisplayStatus(Some("pending"), status) == "pending"
    ensures StatusTone(DisplayStatus(Some("PENDING"), status)) == Waiting
  {
    assert ToLower("pending") == "pending";
    assert ToLower("PENDING") == "pending";
  }
}
