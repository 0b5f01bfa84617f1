/**
 * The booking form (Frontend/Front-end/src/pages/BookingPage.jsx): the vehicle
 * number and time-window checks, the start/end pickers' clamping, and
 * `handleBooking`, which validates and stores the payment payload in the app
 * context. Times are integer milliseconds of local time.
 */
module BookingPage {
  import opened Common

  const HourMs := 3600000

  // ------------------------------------------------------------- vehicle

  predicate AllUpper(s: string) { forall i :: 0 <= i < |s| ==> IsUpper(s[i]) }
  predicate AllDigits(s: string) { forall i :: 0 <= i < |s| ==> IsDigit(s[i]) }

  /** `/^[A-Z]{2}[0-9]{2}[A-Z]{1,2}[0-9]{4}$/.test(v)`: the letter run in the
      middle ends where the final four digits begin. */
  predicate IsVehicleValid(v: string) {
    && (|v| == 9 || |v| == 10)
    && AllUpper(v[..2]) && AllDigits(v[2..4])
    && AllUpper(v[4..|v| - 4]) && AllDigits(v[|v| - 4..])
  }

  /** The four fields of an Indian registration number, e.g. MH 12 AB 1234. */
  datatype Plate = Plate(state: string, district: string, series: string, number: string)

  predicate WellFormed(p: Plate) {
    && |p.state| == 2 && AllUpper(p.state)
    && |p.district| == 2 && AllDigits(p.district)
    && 1 <= |p.series| <= 2 && AllUpper(p.series)
    && |p.number| == 4 && AllDigits(p.number)
  }

  function Compose(p: Plate): string {
    p.state + p.district + p.series + p.number
  }

  function Split(v: string): Plate
    requires |v| == 9 || |v| == 10
  {
    Plate(v[..2], v[2..4], v[4..|v| - 4], v[|v| - 4..])
  }

  /** Every valid number splits into well-formed fields that put it back together. */
  lemma SplitComposes(v: string)
    requires IsVehicleValid(v)
    ensures WellFormed(Split(v)) && Compose(Split(v)) == v
  {
    assert v == v[..2] + v[2..4] + v[4..|v| - 4] + v[|v| - 4..];
  }

  /** Every well-formed set of fields composes to a valid number that splits back to it. */
  lemma {:induction false} ComposeSplits(p: Plate)
    requires WellFormed(p)
    ensures IsVehicleValid(Compose(p)) && Split(Compose(p)) == p
  {
    var v := Compose(p);
    var n := |v|;
    assert v[..2] == p.state;
    assert v[2..4] == p.district;
    assert v[4..n - 4] == p.series;
    assert v[n - 4..] == p.number;
  }

  /** A valid number has length 9 or 10, is not blank, and is its own upper case. */
  lemma {:induction false} ValidVehicleShape(v: string)
    requires IsVehicleValid(v)
    ensures 9 <= |v| <= 10
    ensures !IsBlank(v)
    ensures ToUpper(v) == v
  {
    assert v[0] == v[..2][0];
    forall i | 0 <= i < |v| ensures UpperChar(v[i]) == v[i] {
      if i < 2 { assert v[i] == v[..2][i]; }
      else if i < 4 { assert v[i] == v[2..4][i - 2]; }
      else if i < |v| - 4 { assert v[i] == v[4..|v| - 4][i - 4]; }
      else { assert v[i] == v[|v| - 4..][i - (|v| - 4)]; }
    }
  }

  /** `isBookingValid`: the lot is loaded, the vehicle number is non-blank
      and valid, start < end, and no booking is in progress. */
  predicate IsBookingValid(lotLoaded: bool, vehicle: string, startTime: int, endTime: int, isBooking: bool) {
    lotLoaded && !IsBlank(vehicle) && IsVehicleValid(vehicle) && startTime < endTime && !isBooking
  }

  /** The blank test is implied by the format test. */
  lemma BookingValidWithoutBlankTest(lotLoaded: bool, vehicle: string, startTime: int, endTime: int, isBooking: bool)
    ensures IsBookingValid(lotLoaded, vehicle, startTime, endTime, isBooking)
        <==> lotLoaded && IsVehicleValid(vehicle) && startTime < endTime && !isBooking
  {
    if IsVehicleValid(vehicle) {
      ValidVehicleShape(vehicle);
    }
  }

  /** The button label, by priority. */
  function BtnText(vehicle: string, startTime: int, endTime: int, isBooking: bool): string {
    if isBooking then "Preparing Payment..."
    else if IsBlank(vehicle) then "Enter Vehicle Number"
    else if !IsVehicleValid(vehicle) then "Invalid Vehicle Number"
    else if startTime >= endTime then "Invalid Time Range"
    else "Proceed to Payment"
  }

  /** With the lot loaded (the only time the button is shown) the label
      invites payment exactly when the button is enabled. */
  lemma BtnTextMatchesEnabled(vehicle: string, startTime: int, endTime: int, isBooking: bool)
    ensures BtnText(vehicle, startTime, endTime, isBooking) == "Proceed to Payment"
        <==> IsBookingValid(true, vehicle, startTime, endTime, isBooking)
  {
  }

  // ------------------------------------------------------------- times

  /** `getInitialStartTime`: the next whole hour after `now`. */
  function InitialStart(now: int): (s: int)
    ensures s % HourMs == 0
    ensures now < s <= now + HourMs
  {
    (now / HourMs) * HourMs + HourMs
  }

  // ------------------------------------------------------------- the form

  datatype Lot = Lot(name: string, city: string, amount: Option<int>)

  /** What `handleBooking` stores with `setBooking`. */
  datatype Payload = Payload(
    userId: int,
    area: string,
    city: string,
    amount: Option<int>,
    vehicleNumber: string,
    startTime: int,
    endTime: int,
    paymentMethod: string)

  datatype BookingOutcome = LoginRequired | InvalidVehicle | InvalidTime | RedirectedToPayment

  class BookingForm {
    var lot: Option<Lot>
    var vehicleNumber: string
    var startTime: int
    var endTime: int
    var isBooking: bool
    /** The booking in the app context. */
    var booking: Option<Payload>

    /** The window is never empty: both pickers restore start < end. */
    predicate Valid()
      reads this
    {
      startTime < endTime
    }

    constructor (now: int, lot: Option<Lot>)
      ensures Valid()
      ensures startTime == InitialStart(now) && endTime == startTime + HourMs
      ensures this.lot == lot && vehicleNumber == "" && !isBooking && booking.None?
    {
      this.lot := lot;
      vehicleNumber := "";
      startTime := InitialStart(now);
      endTime := InitialStart(now) + HourMs;
      isBooking := false;
      booking := None;
    }

    /** The vehicle input upper-cases what is typed. */
    method OnVehicleChange(input: string)
      modifies this
      ensures vehicleNumber == ToUpper(input)
      ensures lot == old(lot) && startTime == old(startTime) && endTime == old(endTime)
      ensures isBooking == old(isBooking) && booking == old(booking)
    {
      vehicleNumber := ToUpper(input);
    }

    /** The start picker: a cleared picker is ignored; a start at or after the
        end pushes the end to start + 1h. */
    method OnStartChange(date: Option<int>)
      modifies this
      ensures date.None? ==> startTime == old(startTime) && endTime == old(endTime)
      ensures date.Some? ==>
        (startTime == date.value
         && endTime == (if date.value >= old(endTime) then date.value + HourMs else old(endTime)))
      ensures date.Some? ==> Valid()
      ensures old(Valid()) ==> Valid()
      ensures lot == old(lot) && vehicleNumber == old(vehicleNumber)
      ensures isBooking == old(isBooking) && booking == old(booking)
    {
      if date.None? {
        return;
      }
      startTime := date.value;
      if date.value >= endTime {
        endTime := date.value + HourMs;
      }
    }

    /** The end picker: an end earlier than start + 1h is clamped to start + 1h. */
    method OnEndChange(date: Option<int>)
      modifies this
      ensures date.None? ==> endTime == old(endTime)
      ensures date.Some? ==> endTime == (if date.value < startTime + HourMs then startTime + HourMs else date.value)
      ensures date.Some? ==> endTime >= startTime + HourMs && Valid()
      ensures old(Valid()) ==> Valid()
      ensures startTime == old(startTime) && lot == old(lot) && vehicleNumber == old(vehicleNumber)
      ensures isBooking == old(isBooking) && booking == old(booking)
    {
      if date.None? {
        return;
      }
      var minEnd := startTime + HourMs;
      if date.value < minEnd {
        endTime := minEnd;
      } else {
        endTime := date.value;
      }
    }

    /** `handleBooking`: checks, in order, the user, the vehicle number and the
        window; on the first failure nothing is stored. Otherwise the payload
        goes to the context and the page moves on to payment. The handler is
        only reachable once the lot has loaded. */
    method HandleBooking(userId: Option<int>) returns (outcome: BookingOutcome)
      requires lot.Some?
      modifies this
      ensures lot == old(lot) && vehicleNumber == old(vehicleNumber)
      ensures startTime == old(startTime) && endTime == old(endTime)
      ensures outcome == LoginRequired <==> userId.None? || userId.value == 0
      ensures outcome == InvalidVehicle <==> userId.Some? && userId.value != 0 && !IsVehicleValid(vehicleNumber)
      ensures outcome == InvalidTime <==>
        userId.Some? && userId.value != 0 && IsVehicleValid(vehicleNumber) && startTime >= endTime
      ensures outcome != RedirectedToPayment ==> booking == old(booking)
      ensures outcome == RedirectedToPayment ==> booking == Some(Payload(
        userId.value, lot.value.name, lot.value.city, lot.value.amount,
        ToUpper(vehicleNumber), startTime, endTime, "PREPAID"))
      ensures old(Valid()) ==> outcome != InvalidTime
      ensures outcome == RedirectedToPayment ==> !isBooking
      ensures outcome != RedirectedToPayment ==> isBooking == old(isBooking)
    {
      if userId.None? || userId.value == 0 {
        return LoginRequired;
      }
      if !IsVehicleValid(vehicleNumber) {
        return InvalidVehicle;
      }
      if startTime >= endTime {
        return InvalidTime;
      }
      isBooking := true;
      booking := Some(Payload(userId.value, lot.value.name, lot.value.city, lot.value.amount,
                              ToUpper(vehicleNumber), startTime, endTime, "PREPAID"));
      isBooking := false;
      outcome := RedirectedToPayment;
    }
  }

  /** The stored vehicle number is the validated one: upper-casing a valid
      number leaves it unchanged and it is a valid plate. */
  lemma StoredVehicleIsValid(v: string)
    requires IsVehicleValid(v)
    ensures IsVehicleValid(ToUpper(v)) && ToUpper(v) == v
  {
    ValidVehicleShape(v);
  }
}
