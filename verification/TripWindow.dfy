/** The booked-time clock of an hourly round trip: the fields the server sends, and the state a client shows. */
module TripWindow {
  import opened Options
  import opened JsNumber
  import opened Fare

  const FINAL_WINDOW_MS: int := 15 * 60000
  const MS_PER_HOUR := 3600000.0
  const MS_PER_MIN := 60000.0

  // ----- Server: the fields of a ride -----

  /** Instants are whole milliseconds since the epoch. */
  datatype Row = Row(rideType: RideType, completed: bool, startedAt: Option<int>, tripHours: Option<real>,
                     pricingVersion: Option<int>, hourRate: Option<real>, overtimeMin: Option<int>,
                     overtimeFare: Option<real>)

  datatype Fields = Fields(bookedUntil: Option<int>, overtimeRate: Option<real>, overtimeGraceMin: Option<real>,
                           overtimeMin: Option<int>, overtimeFare: Option<real>)

  const NO_WINDOW := Fields(None, None, None, None, None)

  /** The exact end of the booked time; a `Date` keeps only its whole milliseconds. */
  function ExactEnd(startedAt: int, hours: real): real { startedAt as real + hours * MS_PER_HOUR }

  function TripWindowFields(row: Row): Fields {
    var hours := OrZero(row.tripHours);
    if !row.rideType.RoundTrip? || !IsHourlyRoundTrip(row.pricingVersion, hours, row.hourRate) then NO_WINDOW
    else Fields(
      match row.startedAt case None => None case Some(t) => Some(Trunc(ExactEnd(t, hours))),
      row.hourRate,
      Some(ROUND_TRIP_OVERTIME_GRACE_MIN),
      if row.completed then row.overtimeMin else None,
      if row.completed then row.overtimeFare else None)
  }

  // ----- Client: the state of the clock -----

  datatype State =
    | NoClock
    | Running(msLeft: int)
    | Final(msLeft: int)
    | InGrace(msToOvertime: real)
    | Overtime(overtimeMs: real, billedMin: int, amount: Option<int>)

  function TripWindow(bookedUntil: Option<int>, graceMin: Option<real>, now: int, overtimeRate: Option<real>): State {
    if bookedUntil.None? || graceMin.None? then NoClock else
    var endMs := bookedUntil.value;
    var msLeft := endMs - now;
    if msLeft > FINAL_WINDOW_MS then Running(msLeft)
    else if msLeft > 0 then Final(msLeft)
    else
      var overtimeStart := endMs as real + graceMin.value * MS_PER_MIN;
      if now as real <= overtimeStart then InGrace(overtimeStart - now as real)
      else
        var overtimeMs := now as real - overtimeStart;
        var billedMin := Ceil(overtimeMs / MS_PER_MIN);
        Overtime(overtimeMs, billedMin,
                 match overtimeRate
                 case None => None
                 case Some(rate) => Some(Round(Times(billedMin as real, rate) / 60.0)))
  }

  /** What a client shows for a ride at `now`. */
  function Clock(row: Row, now: int): State {
    var f := TripWindowFields(row);
    TripWindow(f.bookedUntil, f.overtimeGraceMin, now, f.overtimeRate)
  }

  // ----- The fields and the clock, from their inputs alone -----

  /** `ms` is `exact` without its fraction. */
  ghost predicate IsTruncated(ms: int, exact: real) {
    if exact >= 0.0 then ms as real <= exact < ms as real + 1.0 else ms as real - 1.0 < exact <= ms as real
  }

  /** Only a round trip of pricing version 2 for at most 24 hours, with an hourly rate, has fields; its booked time ends
      the booked hours after the start, and the settled overtime shows once the ride is completed. */
  lemma FieldsExactly(row: Row)
    ensures var f := TripWindowFields(row);
      if row.rideType == RoundTrip && row.pricingVersion == Some(2) && row.tripHours.Some?
         && 0.0 < row.tripHours.value <= 24.0 && row.hourRate.Some? && row.hourRate.value > 0.0
      then
        && (f.bookedUntil.Some? <==> row.startedAt.Some?)
        && (row.startedAt.Some? ==>
              IsTruncated(f.bookedUntil.value, row.startedAt.value as real + row.tripHours.value * 3600000.0))
        && f.overtimeRate == row.hourRate && f.overtimeGraceMin == Some(5.0)
        && f.overtimeMin == (if row.completed then row.overtimeMin else None)
        && f.overtimeFare == (if row.completed then row.overtimeFare else None)
      else f == Fields(None, None, None, None, None)
  {
  }

  /** Running until 15 minutes before the end, then final, then free to the end of the grace, then overtime: whole
      started minutes, each a sixtieth of the hourly rate, in whole rupees. */
  lemma ClockExactly(bookedUntil: Option<int>, graceMin: Option<real>, now: int, rate: Option<real>)
    ensures var s := TripWindow(bookedUntil, graceMin, now, rate);
      if bookedUntil == None || graceMin == None then s == NoClock
      else
        var end, free := bookedUntil.value, bookedUntil.value as real + graceMin.value * 60000.0;
        && (end - now > 900000 ==> s == Running(end - now))
        && (0 < end - now <= 900000 ==> s == Final(end - now))
        && (end <= now && now as real <= free ==> s == InGrace(free - now as real))
        && (end <= now && free < now as real ==> s.Overtime? && OvertimeSince(s, now as real - free, rate))
  {
    var s := TripWindow(bookedUntil, graceMin, now, rate);
    if s.Overtime? && rate.Some? { RoundError(Times(s.billedMin as real, rate.value) / 60.0); }
  }

  ghost predicate OvertimeSince(s: State, ms: real, rate: Option<real>)
    requires s.Overtime?
  {
    && s.overtimeMs == ms
    && (s.billedMin as real - 1.0) * 60000.0 < ms <= s.billedMin as real * 60000.0
    && (s.amount.Some? <==> rate.Some?)
    && (rate.Some? ==> s.amount.value as real - 0.5 <= s.billedMin as real * rate.value / 60.0
                                                     < s.amount.value as real + 0.5)
  }

  // ----- One rule for quote, clock and settlement -----

  /** A ride has a window exactly when it was quoted with a waiting line, that is, priced hourly. */
  lemma WindowIffPricedHourly(row: Row, f: FareInput)
    requires f.rideType == row.rideType && f.tripHours == OrZero(row.tripHours) && f.rateCard.hourRate == row.hourRate
    requires f.pricingVersion == if row.pricingVersion.Some? then row.pricingVersion.value else 1
    ensures TripWindowFields(row) != NO_WINDOW <==> CalculateFare(f).waitingFare.Some?
  {
    assert TripWindowFields(row) != NO_WINDOW <==> IsHourly(f);
    assert IsPackageRental(f) ==> f.rideType.Rental?;
  }

  /** The clock and the bill say the same: overtime on one exactly when minutes are billed on the other, and then the
      same minutes and rupees. */
  ghost predicate ClockMatchesBill(row: Row, now: int)
    requires row.startedAt.Some? && row.hourRate.Some?
  {
    var clock := Clock(row, now);
    var bill :=
      SettleRoundTripOvertime(row.startedAt.value, now, OrZero(row.tripHours), row.hourRate.value, None, None);
    && (clock.Overtime? <==> bill.overtimeMin > 0)
    && (clock.Overtime? ==> clock.billedMin == bill.overtimeMin && clock.amount == Some(bill.overtimeFare))
    && (!clock.Overtime? ==> bill.overtimeFare == 0)
  }

  /** Dropping less than a millisecond never changes how many minutes have started. */
  lemma StartedMinutes(ms: int, fraction: real)
    requires 0.0 <= fraction < 1.0
    ensures Ceil((ms as real - fraction) / MS_PER_MIN) == Ceil(ms as real / MS_PER_MIN)
  {
    var k := Ceil(ms as real / MS_PER_MIN);
    assert (60000 * (k - 1)) as real < ms as real <= (60000 * k) as real;
    assert 60000 * (k - 1) + 1 <= ms;
  }

  lemma BillInMilliseconds(startedAt: int, now: int, hours: real, rate: real)
    ensures var past := Ceil((now as real - ExactEnd(startedAt, hours) - 300000.0) / MS_PER_MIN);
      SettleRoundTripOvertime(startedAt, now, hours, rate, None, None).overtimeMin == if past > 0 then past else 0
  {
    assert (now - startedAt) as real / 60000.0 - hours * 60.0 - 5.0
        == (now as real - ExactEnd(startedAt, hours) - 300000.0) / MS_PER_MIN;
  }

  lemma MatchesWhenFloored(row: Row, now: int)
    requires row.startedAt.Some? && TripWindowFields(row) != NO_WINDOW
    requires var end := ExactEnd(row.startedAt.value, OrZero(row.tripHours)); Trunc(end) == end.Floor
    ensures row.hourRate.Some? && ClockMatchesBill(row, now)
  {
    var hours := OrZero(row.tripHours);
    var exact := ExactEnd(row.startedAt.value, hours);
    var end := exact.Floor;
    BillInMilliseconds(row.startedAt.value, now, hours, row.hourRate.value);
    StartedMinutes(now - end - 300000, exact - end as real);
    assert now as real - exact - 300000.0 == (now - end - 300000) as real - (exact - end as real);
    assert Times(0.0, row.hourRate.value) == 0.0;
  }

  /** The clock matches the bill at every whole millisecond, unless the booked time ends before 1970 between two
      milliseconds: truncation then moves the end forward, and the server bills a minute the clock calls free. */
  lemma ClockMatchesBillExactly(row: Row)
    requires row.startedAt.Some? && TripWindowFields(row) != NO_WINDOW
    ensures row.hourRate.Some?
    ensures (forall now :: ClockMatchesBill(row, now)) <==>
      var exact := ExactEnd(row.startedAt.value, OrZero(row.tripHours)); exact >= 0.0 || exact == exact.Floor as real
  {
    var exact := ExactEnd(row.startedAt.value, OrZero(row.tripHours));
    if exact >= 0.0 || exact == exact.Floor as real {
      forall now ensures ClockMatchesBill(row, now) { MatchesWhenFloored(row, now); }
    } else {
      var end := Ceil(exact);
      BillInMilliseconds(row.startedAt.value, end + 300000, OrZero(row.tripHours), row.hourRate.value);
      assert !ClockMatchesBill(row, end + 300000);
    }
  }

  // ----- Time only moves the clock forward -----

  function Rank(s: State): int {
    match s
    case NoClock => 0
    case Running(_) => 1
    case Final(_) => 2
    case InGrace(_) => 3
    case Overtime(_, _, _) => 4
  }

  function Owed(s: State): int {
    match s
    case Overtime(_, _, Some(rupees)) => rupees
    case _ => 0
  }

  lemma ClockMovesForward(bookedUntil: Option<int>, graceMin: Option<real>, now: int, later: int, rate: Option<real>)
    requires now <= later && (rate.Some? ==> rate.value >= 0.0)
    ensures var s, s' := TripWindow(bookedUntil, graceMin, now, rate), TripWindow(bookedUntil, graceMin, later, rate);
      && Rank(s) <= Rank(s')
      && Owed(s) <= Owed(s')
      && (s.Overtime? ==> s.billedMin <= s'.billedMin)
  {
    var s, s' := TripWindow(bookedUntil, graceMin, now, rate), TripWindow(bookedUntil, graceMin, later, rate);
    if s'.Overtime? && rate.Some? {
      TimesNonNegative(s'.billedMin as real, rate.value);
      RoundMonotone(0.0, Times(s'.billedMin as real, rate.value) / 60.0);
      if s.Overtime? {
        TimesMonotone(s.billedMin as real, s'.billedMin as real, rate.value);
        RoundMonotone(Times(s.billedMin as real, rate.value) / 60.0, Times(s'.billedMin as real, rate.value) / 60.0);
      }
    }
  }
}
