/** The fare engine on exact amounts: a quote in four pricing branches, and the rental and overtime settlements. */
module Fare {
  import opened Options
  import opened JsNumber

  const ROUND_TRIP_HOURLY_MAX_HOURS := 24.0
  const ROUND_TRIP_OVERTIME_GRACE_MIN := 5.0
  const ROUND_TRIP_OVERTIME_REVIEW_MIN: int := 60

  datatype RideType = OneWay | RoundTrip | Rental

  datatype RateCard = RateCard(
    ratePerKm: real, ratePerMin: real, minFare: real, baseFare: Option<real>, returnRatePerKm: Option<real>,
    hourRate: Option<real>, kmPerDay: Option<real>, driverAllowancePerDay: Option<real>)

  /** Overage amounts and rates the caller omits are 0, and so is the pricing version 1. */
  datatype FareInput = FareInput(
    rateCard: RateCard, rideType: RideType, isReturnCab: bool,
    estimatedKm: real, estimatedMin: real, stopCount: real, chargePerStop: real,
    tripHours: real, pricingVersion: int, surgeMultiplier: real,
    overageKm: real, overageMin: real, extraPerKm: real, extraPerMin: real, packageFare: Option<real>)

  datatype FareBreakdown = FareBreakdown(
    baseFare: real, distanceFare: real, timeFare: real, stopFare: real, hourSurcharge: real, overageFare: real,
    surgeFare: real, subtotal: real, total: real, overageKm: Option<real>, waitingFare: Option<real>)

  /** A missing amount counts as 0. */
  function OrZero(x: Option<real>): real {
    match x
    case None => 0.0
    case Some(v) => v
  }

  predicate IsHourlyRoundTrip(pricingVersion: Option<int>, tripHours: real, hourRate: Option<real>) {
    && pricingVersion == Some(2)
    && tripHours > 0.0
    && tripHours <= ROUND_TRIP_HOURLY_MAX_HOURS
    && OrZero(hourRate) > 0.0
  }

  predicate IsPackageRental(f: FareInput) { f.rideType.Rental? && f.packageFare.Some? }

  predicate IsHourly(f: FareInput) {
    f.rideType.RoundTrip? && IsHourlyRoundTrip(Some(f.pricingVersion), f.tripHours, f.rateCard.hourRate)
  }

  /** A return cab's own rate applies only when it is set and not 0. */
  function PerKm(f: FareInput): real {
    if f.isReturnCab && OrZero(f.rateCard.returnRatePerKm) != 0.0 then f.rateCard.returnRatePerKm.value
    else f.rateCard.ratePerKm
  }

  function Days(f: FareInput): real {
    var days := Ceil(f.tripHours / 24.0);
    if days > 1 then days as real else 1.0
  }

  function PackageKm(f: FareInput): real { Round2(Times(Days(f), OrZero(f.rateCard.kmPerDay))) }

  function OverageKmRaw(f: FareInput): real { Max(0.0, f.estimatedKm - PackageKm(f)) }

  function FlatBase(f: FareInput): real { Round2(OrZero(f.rateCard.baseFare)) }

  function CalculateFare(f: FareInput): FareBreakdown {
    if IsPackageRental(f) then PackageRentalFare(f)
    else if IsHourly(f) then HourlyFare(f)
    else if f.rideType.RoundTrip? then PerDayFare(f)
    else OneWayFare(f)
  }

  function PackageRentalFare(f: FareInput): FareBreakdown
    requires f.packageFare.Some?
  {
    var overageFare := Round2(Times(f.overageKm, f.extraPerKm) + Times(f.overageMin, f.extraPerMin));
    PackageBill(f.packageFare.value, overageFare, f.surgeMultiplier)
  }

  function PackageBill(packageFare: real, overageFare: real, surge: real): FareBreakdown {
    var subtotal := Round2(packageFare + overageFare);
    var surgeFare := Round2(Times(subtotal, surge - 1.0));
    var total := Round2(subtotal + surgeFare);
    FareBreakdown(packageFare, 0.0, 0.0, 0.0, 0.0, overageFare, surgeFare, subtotal, total, None, None)
  }

  function HourlyFare(f: FareInput): FareBreakdown {
    var waitingFare := Round2(Times(f.tripHours, OrZero(f.rateCard.hourRate)));
    var distanceFare := Round2(Times(f.estimatedKm, PerKm(f)));
    var stopFare := Round2(Times(f.stopCount, f.chargePerStop));
    MeteredBill(FlatBase(f), f.rateCard.minFare, distanceFare, distanceFare, 0.0, stopFare, 0.0, 0.0,
                f.surgeMultiplier, None, Some(waitingFare))
  }

  function PerDayFare(f: FareInput): FareBreakdown {
    var distanceFare := Round2(Times(PackageKm(f), PerKm(f)));
    var overageFare := Round2(Times(OverageKmRaw(f), PerKm(f)));
    var stopFare := Round2(Times(f.stopCount, f.chargePerStop));
    var driverAllowance := Round2(Times(Days(f), OrZero(f.rateCard.driverAllowancePerDay)));
    MeteredBill(FlatBase(f), f.rateCard.minFare, Round2(distanceFare + overageFare), distanceFare, 0.0, stopFare,
                driverAllowance, overageFare, f.surgeMultiplier, Some(Round2(OverageKmRaw(f))), None)
  }

  function OneWayFare(f: FareInput): FareBreakdown {
    var distanceFare := Round2(Times(f.estimatedKm, PerKm(f)));
    var timeFare := Round2(Times(f.estimatedMin, f.rateCard.ratePerMin));
    var stopFare := Round2(Times(f.stopCount, f.chargePerStop));
    MeteredBill(FlatBase(f), f.rateCard.minFare, Round2(distanceFare + timeFare), distanceFare, timeFare, stopFare,
                0.0, 0.0, f.surgeMultiplier, None, None)
  }

  /** The end every metered branch shares: floor the metered amount, add the other charges, print any top-up in the
      base line, and surge the subtotal. */
  function MeteredBill(flatBase: real, minFare: real, metered: real, distanceFare: real, timeFare: real, stopFare: real,
                       allowance: real, overageFare: real, surge: real, overageKm: Option<real>, waiting: Option<real>)
    : FareBreakdown
  {
    var floored := Round2(Max(metered, minFare));
    var subtotal := Round2(floored + flatBase + OrZero(waiting) + stopFare + allowance);
    var surgeFare := Round2(Times(subtotal, surge - 1.0));
    FareBreakdown(Round2(flatBase + Max(minFare - metered, 0.0)), distanceFare, timeFare, stopFare, allowance,
                  overageFare, surgeFare, subtotal, Round2(subtotal + surgeFare), overageKm, waiting)
  }

  // ----- The printed lines add up -----

  function Lines(b: FareBreakdown): real {
    b.baseFare + b.distanceFare + b.timeFare + b.stopFare + b.hourSurcharge + b.overageFare + OrZero(b.waitingFare)
  }

  /** The minimum-fare top-up printed inside the base line is exactly what the floor adds to the metered amount. */
  lemma TopUp(flatBase: real, metered: real, minFare: real, rest: real)
    requires WholePaise(flatBase) && WholePaise(metered) && WholePaise(rest)
    ensures Round2(Round2(Max(metered, minFare)) + flatBase + rest)
         == Round2(flatBase + Max(minFare - metered, 0.0)) + metered + rest
  {
    var top := Max(minFare - metered, 0.0);
    assert Max(metered, minFare) == top + metered;
    Round2Shift(top, metered);
    Round2Shift(top, flatBase);
    assert flatBase + top == top + flatBase;
    Round2IsWhole(top);
    WholeSum(Round2(top), metered);
    WholeSum(Round2(top) + metered, flatBase);
    WholeSum(Round2(top) + metered + flatBase, rest);
  }

  lemma MeteredLines(flatBase: real, minFare: real, distance: real, time: real, stop: real, allowance: real,
                     overage: real, surge: real, overageKm: Option<real>, waiting: Option<real>)
    requires WholePaise(flatBase) && WholePaise(distance + time + overage)
    requires WholePaise(OrZero(waiting) + stop + allowance)
    ensures var b := MeteredBill(flatBase, minFare, distance + time + overage, distance, time, stop, allowance, overage,
                                 surge, overageKm, waiting);
      Lines(b) == b.subtotal
  {
    var rest := OrZero(waiting) + stop + allowance;
    var floored := Round2(Max(distance + time + overage, minFare));
    assert floored + flatBase + OrZero(waiting) + stop + allowance == floored + flatBase + rest;
    TopUp(flatBase, distance + time + overage, minFare, rest);
  }

  lemma RoundedLines(flat: real, minFare: real, distance: real, time: real, stop: real, allowance: real,
                     overage: real, surge: real, overageKm: Option<real>, waiting: Option<real>)
    requires WholePaise(distance) && WholePaise(time) && WholePaise(stop) && WholePaise(flat)
    requires WholePaise(allowance) && WholePaise(overage) && WholePaise(OrZero(waiting))
    ensures WholePaise(distance + time + overage)
    ensures var b := MeteredBill(flat, minFare, distance + time + overage, distance, time, stop, allowance, overage,
                                 surge, overageKm, waiting);
      Lines(b) == b.subtotal
  {
    WholeSum(distance, time);
    WholeSum(distance + time, overage);
    WholeSum(OrZero(waiting), stop);
    WholeSum(OrZero(waiting) + stop, allowance);
    MeteredLines(flat, minFare, distance, time, stop, allowance, overage, surge, overageKm, waiting);
  }

  lemma ZeroIsWhole()
    ensures WholePaise(0.0)
  {
  }

  lemma HourlyLines(f: FareInput)
    ensures var b := HourlyFare(f); Lines(b) == b.subtotal
  {
    var b := HourlyFare(f);
    Round2IsWhole(OrZero(f.rateCard.baseFare));
    Round2IsWhole(Times(f.estimatedKm, PerKm(f)));
    Round2IsWhole(Times(f.stopCount, f.chargePerStop));
    Round2IsWhole(Times(f.tripHours, OrZero(f.rateCard.hourRate)));
    ZeroIsWhole();
    RoundedLines(FlatBase(f), f.rateCard.minFare, b.distanceFare, 0.0, b.stopFare, 0.0, 0.0, f.surgeMultiplier, None,
                 b.waitingFare);
  }

  lemma PerDayLines(f: FareInput)
    ensures var b := PerDayFare(f); Lines(b) == b.subtotal
  {
    var b := PerDayFare(f);
    Round2IsWhole(OrZero(f.rateCard.baseFare));
    Round2IsWhole(Times(PackageKm(f), PerKm(f)));
    Round2IsWhole(Times(OverageKmRaw(f), PerKm(f)));
    Round2IsWhole(Times(f.stopCount, f.chargePerStop));
    Round2IsWhole(Times(Days(f), OrZero(f.rateCard.driverAllowancePerDay)));
    ZeroIsWhole();
    RoundedLines(FlatBase(f), f.rateCard.minFare, b.distanceFare, 0.0, b.stopFare, b.hourSurcharge, b.overageFare,
                 f.surgeMultiplier, b.overageKm, None);
  }

  lemma OneWayLines(f: FareInput)
    ensures var b := OneWayFare(f); Lines(b) == b.subtotal
  {
    var b := OneWayFare(f);
    Round2IsWhole(OrZero(f.rateCard.baseFare));
    Round2IsWhole(Times(f.estimatedKm, PerKm(f)));
    Round2IsWhole(Times(f.estimatedMin, f.rateCard.ratePerMin));
    Round2IsWhole(Times(f.stopCount, f.chargePerStop));
    ZeroIsWhole();
    RoundedLines(FlatBase(f), f.rateCard.minFare, b.distanceFare, b.timeFare, b.stopFare, 0.0, 0.0, f.surgeMultiplier,
                 None, None);
  }

  /** The printed lines sum to the subtotal; a package rental's do exactly when the package is in whole paise. */
  lemma LinesAddUp(f: FareInput)
    ensures var b := CalculateFare(f);
      Lines(b) == b.subtotal <==> (IsPackageRental(f) ==> WholePaise(f.packageFare.value))
  {
    if IsPackageRental(f) {
      var overage := Times(f.overageKm, f.extraPerKm) + Times(f.overageMin, f.extraPerMin);
      Round2IsWhole(overage);
      Round2Shift(f.packageFare.value, Round2(overage));
    } else if IsHourly(f) {
      HourlyLines(f);
    } else if f.rideType.RoundTrip? {
      PerDayLines(f);
    } else {
      OneWayLines(f);
    }
  }

  // ----- The total -----

  /** Rounding the surge apart from the subtotal changes nothing. */
  lemma SurgedSum(subtotal: real, surge: real)
    requires WholePaise(subtotal)
    ensures var extra := Round2(Times(subtotal, surge - 1.0));
      Round2(subtotal + extra) == Round2(Times(subtotal, surge)) == subtotal + extra
  {
    var extra := Times(subtotal, surge - 1.0);
    Round2IsWhole(extra);
    Round2Shift(subtotal, Round2(extra));
    Round2Shift(extra, subtotal);
    assert extra + subtotal == Times(subtotal, surge);
  }

  /** In every branch the subtotal is in whole paise and the total is the surged subtotal rounded once. */
  lemma TotalIsSurgedSubtotal(f: FareInput)
    ensures var b := CalculateFare(f);
      && WholePaise(b.subtotal)
      && b.total == Round2(Times(b.subtotal, f.surgeMultiplier)) == b.subtotal + b.surgeFare
  {
    var b := CalculateFare(f);
    var unrounded := Unrounded(f);
    Round2IsWhole(unrounded);
    SurgedSum(b.subtotal, f.surgeMultiplier);
  }

  lemma Unrounded(f: FareInput) returns (x: real)
    ensures var b := CalculateFare(f);
      && b.subtotal == Round2(x)
      && b.surgeFare == Round2(Times(b.subtotal, f.surgeMultiplier - 1.0))
      && b.total == Round2(b.subtotal + b.surgeFare)
  {
    var b := CalculateFare(f);
    if IsPackageRental(f) {
      x := f.packageFare.value + b.overageFare;
    } else {
      var metered := if IsHourly(f) then b.distanceFare
                     else if f.rideType.RoundTrip? then Round2(b.distanceFare + b.overageFare)
                     else Round2(b.distanceFare + b.timeFare);
      x := Round2(Max(metered, f.rateCard.minFare)) + FlatBase(f) + OrZero(b.waitingFare) + b.stopFare
           + b.hourSurcharge;
    }
  }

  /** The rate per kilometre: a return cab's own, where the card has one that is not 0. */
  function Rate(f: FareInput): real {
    match f.rateCard.returnRatePerKm
    case None => f.rateCard.ratePerKm
    case Some(r) => if f.isReturnCab && r != 0.0 then r else f.rateCard.ratePerKm
  }

  lemma RateIsPerKm(f: FareInput)
    ensures PerKm(f) == Rate(f)
  {
  }

  /** Two separate roundings of a per-day trip stay within a paisa of the distance it is billed for. */
  lemma MeteredWithinAPaisa(f: FareInput)
    requires f.rideType.RoundTrip? && !IsHourly(f)
    ensures var b := CalculateFare(f);
      var exact := Times(Max(f.estimatedKm, PackageKm(f)), Rate(f));
      -0.01 <= b.distanceFare + b.overageFare - exact <= 0.01
  {
    var over := OverageKmRaw(f);
    RateIsPerKm(f);
    Round2Error(Times(PackageKm(f), PerKm(f)));
    Round2Error(Times(over, PerKm(f)));
    assert Max(f.estimatedKm, PackageKm(f)) == PackageKm(f) + over;
    TimesSum(PackageKm(f), over, PerKm(f));
  }

  // ----- Rounding line by line -----

  /** A trip is billed for the fewest whole days that cover it, and for at least one. */
  lemma DaysCoverTheTrip(f: FareInput)
    ensures Days(f) >= 1.0 && Days(f) * 24.0 >= f.tripHours
    ensures Days(f) > 1.0 ==> (Days(f) - 1.0) * 24.0 < f.tripHours
  {
  }

  /** The subtotal without any rounding of amounts. */
  function Exact(f: FareInput): real {
    var perKm := Rate(f);
    if IsPackageRental(f) then
      f.packageFare.value + Times(f.overageKm, f.extraPerKm) + Times(f.overageMin, f.extraPerMin)
    else
      var metered :=
        if IsHourly(f) then Times(f.estimatedKm, perKm)
        else if f.rideType.RoundTrip? then Times(Max(f.estimatedKm, PackageKm(f)), perKm)
        else Times(f.estimatedKm, perKm) + Times(f.estimatedMin, f.rateCard.ratePerMin);
      var reserved :=
        if IsHourly(f) then Times(f.tripHours, OrZero(f.rateCard.hourRate))
        else if f.rideType.RoundTrip? then Times(Days(f), OrZero(f.rateCard.driverAllowancePerDay))
        else 0.0;
      Max(metered, f.rateCard.minFare) + OrZero(f.rateCard.baseFare) + Times(f.stopCount, f.chargePerStop) + reserved
  }

  predicate Near(x: real, y: real, error: real) { -error <= x - y <= error }

  lemma Round2Near(x: real)
    ensures Near(Round2(x), x, 0.005)
  {
    Round2Error(x);
  }

  /** Sums and floors keep errors from growing beyond their sum. */
  lemma BillNear(metered: real, minFare: real, flatBase: real, waiting: real, stop: real, allowance: real,
                 metered': real, flatBase': real, stop': real, reserved': real)
    requires Near(metered, metered', 0.015) && Near(flatBase, flatBase', 0.005)
    requires Near(stop, stop', 0.005) && Near(waiting + allowance, reserved', 0.005)
    ensures Near(Round2(Round2(Max(metered, minFare)) + flatBase + waiting + stop + allowance),
                 Max(metered', minFare) + flatBase' + stop' + reserved', 0.04)
  {
    Round2Near(Max(metered, minFare));
    Round2Near(Round2(Max(metered, minFare)) + flatBase + waiting + stop + allowance);
  }

  /** However an amount is priced, rounding line by line moves the subtotal by at most four paise. */
  lemma SubtotalNearExact(f: FareInput)
    ensures Near(CalculateFare(f).subtotal, Exact(f), 0.04)
  {
    RateIsPerKm(f);
    var b := CalculateFare(f);
    if IsPackageRental(f) {
      Round2Near(Times(f.overageKm, f.extraPerKm) + Times(f.overageMin, f.extraPerMin));
      Round2Near(f.packageFare.value + b.overageFare);
    } else if IsHourly(f) {
      HourlyNearExact(f);
    } else if f.rideType.RoundTrip? {
      PerDayNearExact(f);
    } else {
      OneWayNearExact(f);
    }
  }

  lemma HourlyNearExact(f: FareInput)
    requires IsHourly(f)
    ensures Near(HourlyFare(f).subtotal, Exact(f), 0.04)
  {
    RateIsPerKm(f);
    var b := HourlyFare(f);
    Round2Near(OrZero(f.rateCard.baseFare));
    Round2Near(Times(f.stopCount, f.chargePerStop));
    Round2Near(Times(f.estimatedKm, PerKm(f)));
    Round2Near(Times(f.tripHours, OrZero(f.rateCard.hourRate)));
    BillNear(b.distanceFare, f.rateCard.minFare, FlatBase(f), b.waitingFare.value, b.stopFare, 0.0,
             Times(f.estimatedKm, PerKm(f)), OrZero(f.rateCard.baseFare), Times(f.stopCount, f.chargePerStop),
             Times(f.tripHours, OrZero(f.rateCard.hourRate)));
  }

  lemma PerDayNearExact(f: FareInput)
    requires f.rideType.RoundTrip? && !IsHourly(f)
    ensures Near(PerDayFare(f).subtotal, Exact(f), 0.04)
  {
    RateIsPerKm(f);
    var b := PerDayFare(f);
    MeteredWithinAPaisa(f);
    Round2Near(OrZero(f.rateCard.baseFare));
    Round2Near(Times(f.stopCount, f.chargePerStop));
    Round2Near(b.distanceFare + b.overageFare);
    Round2Near(Times(Days(f), OrZero(f.rateCard.driverAllowancePerDay)));
    BillNear(Round2(b.distanceFare + b.overageFare), f.rateCard.minFare, FlatBase(f), 0.0, b.stopFare, b.hourSurcharge,
             Times(Max(f.estimatedKm, PackageKm(f)), PerKm(f)), OrZero(f.rateCard.baseFare),
             Times(f.stopCount, f.chargePerStop), Times(Days(f), OrZero(f.rateCard.driverAllowancePerDay)));
  }

  lemma OneWayNearExact(f: FareInput)
    requires !IsPackageRental(f) && !f.rideType.RoundTrip?
    ensures Near(OneWayFare(f).subtotal, Exact(f), 0.04)
  {
    RateIsPerKm(f);
    var b := OneWayFare(f);
    Round2Near(OrZero(f.rateCard.baseFare));
    Round2Near(Times(f.stopCount, f.chargePerStop));
    Round2Near(Times(f.estimatedKm, PerKm(f)));
    Round2Near(Times(f.estimatedMin, f.rateCard.ratePerMin));
    Round2Near(b.distanceFare + b.timeFare);
    BillNear(Round2(b.distanceFare + b.timeFare), f.rateCard.minFare, FlatBase(f), 0.0, b.stopFare, 0.0,
             Times(f.estimatedKm, PerKm(f)) + Times(f.estimatedMin, f.rateCard.ratePerMin), OrZero(f.rateCard.baseFare),
             Times(f.stopCount, f.chargePerStop), 0.0);
  }

  // ----- More distance -----

  /** A larger metered amount never lowers the subtotal. */
  lemma BillMonotone(metered: real, metered': real, minFare: real, flatBase: real, waiting: real, stop: real,
                     allowance: real)
    requires metered <= metered'
    ensures Round2(Round2(Max(metered, minFare)) + flatBase + waiting + stop + allowance)
         <= Round2(Round2(Max(metered', minFare)) + flatBase + waiting + stop + allowance)
  {
    var floored, floored' := Round2(Max(metered, minFare)), Round2(Max(metered', minFare));
    Round2Monotone(Max(metered, minFare), Max(metered', minFare));
    Round2Monotone(floored + flatBase + waiting + stop + allowance, floored' + flatBase + waiting + stop + allowance);
  }

  lemma PerDayMonotone(f: FareInput, g: FareInput)
    requires f.estimatedKm <= g.estimatedKm && g == f.(estimatedKm := g.estimatedKm) && PerKm(f) >= 0.0
    ensures PerDayFare(f).subtotal <= PerDayFare(g).subtotal
  {
    var b, c := PerDayFare(f), PerDayFare(g);
    TimesMonotone(OverageKmRaw(f), OverageKmRaw(g), PerKm(f));
    Round2Monotone(Times(OverageKmRaw(f), PerKm(f)), Times(OverageKmRaw(g), PerKm(f)));
    Round2Monotone(b.distanceFare + b.overageFare, c.distanceFare + c.overageFare);
    BillMonotone(Round2(b.distanceFare + b.overageFare), Round2(c.distanceFare + c.overageFare), f.rateCard.minFare,
                 FlatBase(f), 0.0, b.stopFare, b.hourSurcharge);
  }

  lemma HourlyMonotone(f: FareInput, g: FareInput)
    requires f.estimatedKm <= g.estimatedKm && g == f.(estimatedKm := g.estimatedKm) && PerKm(f) >= 0.0
    ensures HourlyFare(f).subtotal <= HourlyFare(g).subtotal
  {
    var b, c := HourlyFare(f), HourlyFare(g);
    TimesMonotone(f.estimatedKm, g.estimatedKm, PerKm(f));
    Round2Monotone(Times(f.estimatedKm, PerKm(f)), Times(g.estimatedKm, PerKm(f)));
    BillMonotone(b.distanceFare, c.distanceFare, f.rateCard.minFare, FlatBase(f), b.waitingFare.value, b.stopFare, 0.0);
  }

  lemma OneWayMonotone(f: FareInput, g: FareInput)
    requires f.estimatedKm <= g.estimatedKm && g == f.(estimatedKm := g.estimatedKm) && PerKm(f) >= 0.0
    ensures OneWayFare(f).subtotal <= OneWayFare(g).subtotal
  {
    var b, c := OneWayFare(f), OneWayFare(g);
    TimesMonotone(f.estimatedKm, g.estimatedKm, PerKm(f));
    Round2Monotone(Times(f.estimatedKm, PerKm(f)), Times(g.estimatedKm, PerKm(f)));
    Round2Monotone(b.distanceFare + b.timeFare, c.distanceFare + c.timeFare);
    BillMonotone(Round2(b.distanceFare + b.timeFare), Round2(c.distanceFare + c.timeFare), f.rateCard.minFare,
                 FlatBase(f), 0.0, b.stopFare, 0.0);
  }

  /** In every branch, driving further never makes the trip cheaper. */
  lemma TotalMonotoneInKm(f: FareInput, km: real)
    requires f.estimatedKm <= km && PerKm(f) >= 0.0 && f.surgeMultiplier >= 0.0
    ensures CalculateFare(f).total <= CalculateFare(f.(estimatedKm := km)).total
  {
    var g := f.(estimatedKm := km);
    if !IsPackageRental(f) {
      PerDayMonotone(f, g);
      HourlyMonotone(f, g);
      OneWayMonotone(f, g);
    }
    SurgeMonotone(f, g);
  }

  lemma SurgeMonotone(f: FareInput, g: FareInput)
    requires CalculateFare(f).subtotal <= CalculateFare(g).subtotal
    requires f.surgeMultiplier == g.surgeMultiplier && f.surgeMultiplier >= 0.0
    ensures CalculateFare(f).total <= CalculateFare(g).total
  {
    var b, c := CalculateFare(f), CalculateFare(g);
    TotalIsSurgedSubtotal(f);
    TotalIsSurgedSubtotal(g);
    TimesMonotone(b.subtotal, c.subtotal, f.surgeMultiplier);
    Round2Monotone(Times(b.subtotal, f.surgeMultiplier), Times(c.subtotal, f.surgeMultiplier));
  }

  // ----- Rental settlement -----

  datatype Package = Package(kmLimit: real, durationMinutes: real, extraPerKm: real, extraPerMin: real)
  datatype Grace = Grace(km: real, min: real)
  datatype Review = Clear | KmBilled | KmNotBilled

  datatype RentalTrip = RentalTrip(pkg: Package, baseFare: real, surge: real, gpsKm: Option<real>, elapsedMin: real,
                                   grace: Grace, maxAvgKmh: real)

  datatype RentalSettlement = RentalSettlement(measuredKm: Option<real>, overageKm: real, overageMin: real,
                                               overageFare: real, total: real, review: Review)

  /** Only the part beyond limit and grace is billable; an unmeasured distance has none. */
  function RentalOverage(pkg: Package, actualKm: Option<real>, actualMin: real, grace: Grace): (real, real) {
    (match actualKm
     case None => 0.0
     case Some(km) => Round2(Max(0.0, km - pkg.kmLimit - grace.km)),
     Round2(Max(0.0, actualMin - pkg.durationMinutes - grace.min)))
  }

  /** The longest distance a plausible average speed allows. */
  function MaxKm(t: RentalTrip): real { Times(t.elapsedMin / 60.0, t.maxAvgKmh) }

  function MeasuredKm(t: RentalTrip): Option<real> {
    if t.gpsKm.Some? && t.gpsKm.value <= MaxKm(t) then t.gpsKm else None
  }

  /** The fare of a package rental with the given overage. */
  function RentalFare(t: RentalTrip, overageKm: real, overageMin: real): FareBreakdown {
    CalculateFare(FareInput(
      RateCard(0.0, 0.0, 0.0, None, None, None, None, None), Rental, false, 0.0, 0.0, 0.0, 0.0, 0.0, 1, t.surge,
      overageKm, overageMin, t.pkg.extraPerKm, t.pkg.extraPerMin, Some(t.baseFare)))
  }

  function SettleRentalFare(t: RentalTrip): RentalSettlement {
    var measuredKm := MeasuredKm(t);
    var (overageKm, overageMin) := RentalOverage(t.pkg, measuredKm, t.elapsedMin, t.grace);
    var fare := RentalFare(t, overageKm, overageMin);
    var review := if overageKm > 0.0 then KmBilled
                  else if measuredKm.None? && MaxKm(t) > t.pkg.kmLimit then KmNotBilled
                  else Clear;
    RentalSettlement(measuredKm, overageKm, overageMin, fare.overageFare, fare.total, review)
  }

  lemma RentalFareMonotone(t: RentalTrip, km: real, min: real, km': real, min': real)
    requires km <= km' && min <= min' && t.pkg.extraPerKm >= 0.0 && t.pkg.extraPerMin >= 0.0 && t.surge >= 0.0
    ensures RentalFare(t, km, min).total <= RentalFare(t, km', min').total
  {
    var b, c := RentalFare(t, km, min), RentalFare(t, km', min');
    TimesMonotone(km, km', t.pkg.extraPerKm);
    TimesMonotone(min, min', t.pkg.extraPerMin);
    Round2Monotone(Times(km, t.pkg.extraPerKm) + Times(min, t.pkg.extraPerMin),
                   Times(km', t.pkg.extraPerKm) + Times(min', t.pkg.extraPerMin));
    Round2Monotone(t.baseFare + b.overageFare, t.baseFare + c.overageFare);
    var card := RateCard(0.0, 0.0, 0.0, None, None, None, None, None);
    var f := FareInput(card, Rental, false, 0.0, 0.0, 0.0, 0.0, 0.0, 1, t.surge,
                       km, min, t.pkg.extraPerKm, t.pkg.extraPerMin, Some(t.baseFare));
    SurgeMonotone(f, f.(overageKm := km', overageMin := min'));
  }

  lemma OverageNonNegative(pkg: Package, km: Option<real>, min: real, grace: Grace)
    ensures var (overKm, overMin) := RentalOverage(pkg, km, min, grace); overKm >= 0.0 && overMin >= 0.0
  {
    if km.Some? { Round2NonNegative(Max(0.0, km.value - pkg.kmLimit - grace.km)); }
    Round2NonNegative(Max(0.0, min - pkg.durationMinutes - grace.min));
  }

  /** The settled total is never below the quote, which is the same package without overage. */
  lemma SettledAtLeastQuoted(t: RentalTrip)
    requires t.pkg.extraPerKm >= 0.0 && t.pkg.extraPerMin >= 0.0 && t.surge >= 0.0
    ensures RentalFare(t, 0.0, 0.0).total <= SettleRentalFare(t).total
  {
    var s := SettleRentalFare(t);
    OverageNonNegative(t.pkg, MeasuredKm(t), t.elapsedMin, t.grace);
    RentalFareMonotone(t, 0.0, 0.0, s.overageKm, s.overageMin);
  }

  /** For one GPS distance the total never falls as time passes, even at the moment the distance becomes plausible. */
  lemma SettledMonotoneInTime(t: RentalTrip, elapsed: real)
    requires t.pkg.extraPerKm >= 0.0 && t.pkg.extraPerMin >= 0.0 && t.surge >= 0.0 && t.maxAvgKmh >= 0.0
    requires t.elapsedMin <= elapsed
    ensures SettleRentalFare(t).total <= SettleRentalFare(t.(elapsedMin := elapsed)).total
  {
    var u := t.(elapsedMin := elapsed);
    var s, s' := SettleRentalFare(t), SettleRentalFare(u);
    TimesMonotone(t.elapsedMin / 60.0, elapsed / 60.0, t.maxAvgKmh);
    OverageNonNegative(t.pkg, MeasuredKm(u), elapsed, t.grace);
    Round2Monotone(Max(0.0, t.elapsedMin - t.pkg.durationMinutes - t.grace.min),
                   Max(0.0, elapsed - t.pkg.durationMinutes - t.grace.min));
    RentalFareMonotone(t, s.overageKm, s.overageMin, s'.overageKm, s'.overageMin);
  }

  /** Skipping the distance without a flag is safe: any distance plausible for the time would have settled the same. */
  lemma UnflaggedSkipIsSafe(t: RentalTrip, km: real)
    requires SettleRentalFare(t).measuredKm.None? && SettleRentalFare(t).review.Clear?
    requires t.grace.km >= 0.0 && km <= MaxKm(t)
    ensures RentalOverage(t.pkg, Some(km), t.elapsedMin, t.grace).0 == 0.0
    ensures SettleRentalFare(t.(gpsKm := Some(km))).total == SettleRentalFare(t).total
  {
    assert Max(0.0, km - t.pkg.kmLimit - t.grace.km) == 0.0;
    assert Round2(0.0) == 0.0;
  }

  // ----- Round-trip overtime -----

  datatype RoundTripOvertime = RoundTripOvertime(overtimeMin: int, overtimeFare: int, review: bool)

  /** Minutes past booked hours and grace, a started minute counting, billed in whole rupees. Instants are in
      milliseconds; the grace and the review threshold have defaults. */
  function SettleRoundTripOvertime(startedAt: int, completedAt: int, bookedHours: real, hourRate: real,
                                   graceMin: Option<real>, reviewMin: Option<int>): RoundTripOvertime
  {
    var grace := if graceMin.Some? then graceMin.value else ROUND_TRIP_OVERTIME_GRACE_MIN;
    var threshold := if reviewMin.Some? then reviewMin.value else ROUND_TRIP_OVERTIME_REVIEW_MIN;
    var elapsedMin := (completedAt - startedAt) as real / 60000.0;
    var past := Ceil(elapsedMin - bookedHours * 60.0 - grace);
    var overtimeMin := if past > 0 then past else 0;
    RoundTripOvertime(overtimeMin, Round(Times(overtimeMin as real, hourRate) / 60.0), overtimeMin > threshold)
  }
}
