/** Every amount the fare engine prints, from the inputs alone: what is multiplied by what, and rounded once. */
module FareExact {
  import opened Options
  import opened JsNumber
  import opened Fare

  /** `x` is `exact` rounded to a whole paisa, halves up. */
  ghost predicate IsPaise(x: real, exact: real) {
    (x * 100.0).Floor as real == x * 100.0 && x - 0.005 <= exact < x + 0.005
  }

  /** `n` is `exact` rounded to a whole number, halves up. */
  ghost predicate IsNearest(n: int, exact: real) { n as real - 0.5 <= exact < n as real + 0.5 }

  function Given(x: Option<real>): real {
    match x
    case None => 0.0
    case Some(v) => v
  }

  function Larger(x: real, y: real): real { if x < y then y else x }

  /** `x * y`, kept whole. */
  function Product(x: real, y: real): real { x * y }

  predicate PricedAsPackage(f: FareInput) { f.rideType == Rental && f.packageFare != None }

  predicate PricedByTheHour(f: FareInput) {
    f.rideType == RoundTrip && f.pricingVersion == 2 && 0.0 < f.tripHours <= 24.0 && Given(f.rateCard.hourRate) > 0.0
  }

  predicate PricedByTheDay(f: FareInput) { f.rideType == RoundTrip && !PricedByTheHour(f) }

  // ----- From the engine's terms to these -----

  lemma PaiseOf(exact: real)
    ensures IsPaise(Round2(exact), exact)
  {
    RoundError(exact * 100.0);
    assert Round2(exact) * 100.0 == Round(exact * 100.0) as real;
  }

  lemma PaiseOfProduct(x: real, y: real)
    ensures IsPaise(Round2(Times(x, y)), Product(x, y))
  {
    PaiseOf(Times(x, y));
  }

  lemma Branches(f: FareInput)
    ensures PricedAsPackage(f) ==> CalculateFare(f) == PackageRentalFare(f)
    ensures PricedByTheHour(f) ==> CalculateFare(f) == HourlyFare(f)
    ensures PricedByTheDay(f) ==> CalculateFare(f) == PerDayFare(f)
    ensures !PricedAsPackage(f) && f.rideType != RoundTrip ==> CalculateFare(f) == OneWayFare(f)
    ensures PerKm(f) == Rate(f)
  {
    RateIsPerKm(f);
  }

  /** Surge and total of every branch. */
  ghost predicate Surged(f: FareInput, b: FareBreakdown) {
    IsPaise(b.surgeFare, Product(b.subtotal, f.surgeMultiplier - 1.0)) && b.total == b.subtotal + b.surgeFare
  }

  lemma IsSurged(f: FareInput)
    ensures Surged(f, CalculateFare(f))
  {
    var b := CalculateFare(f);
    var x := Unrounded(f);
    TotalIsSurgedSubtotal(f);
    PaiseOfProduct(b.subtotal, f.surgeMultiplier - 1.0);
  }

  // ----- The branches -----

  /** A package rental: the package, the overage beyond it, and nothing else. */
  lemma PackagePriced(f: FareInput)
    requires PricedAsPackage(f)
    ensures var b := CalculateFare(f);
      && b.baseFare == f.packageFare.value
      && IsPaise(b.overageFare, Product(f.overageKm, f.extraPerKm) + Product(f.overageMin, f.extraPerMin))
      && IsPaise(b.subtotal, b.baseFare + b.overageFare)
      && b.distanceFare == b.timeFare == b.stopFare == b.hourSurcharge == 0.0
      && b.overageKm == None && b.waitingFare == None && Surged(f, b)
  {
    Branches(f);
    IsSurged(f);
    assert Times(f.overageKm, f.extraPerKm) + Times(f.overageMin, f.extraPerMin)
        == Product(f.overageKm, f.extraPerKm) + Product(f.overageMin, f.extraPerMin);
    PaiseOf(Times(f.overageKm, f.extraPerKm) + Times(f.overageMin, f.extraPerMin));
    PaiseOf(f.packageFare.value + CalculateFare(f).overageFare);
  }

  /** What the metered branches share: a flat base with the top-up to the minimum fare, the stops, lines that add up to
      the subtotal, and the surge. */
  ghost predicate Metered(f: FareInput, b: FareBreakdown, flat: real, metered: real) {
    && IsPaise(flat, Given(f.rateCard.baseFare))
    && IsPaise(b.baseFare, flat + Larger(f.rateCard.minFare - metered, 0.0))
    && IsPaise(b.stopFare, Product(f.stopCount, f.chargePerStop))
    && b.subtotal == b.baseFare + b.distanceFare + b.timeFare + b.stopFare + b.hourSurcharge + b.overageFare
                     + Given(b.waitingFare)
    && Surged(f, b)
  }

  lemma IsMetered(f: FareInput, flat: real, metered: real)
    requires !PricedAsPackage(f) && flat == FlatBase(f)
    requires var b := CalculateFare(f);
      && b.baseFare == Round2(flat + Max(f.rateCard.minFare - metered, 0.0))
      && b.stopFare == Round2(Times(f.stopCount, f.chargePerStop))
    ensures Metered(f, CalculateFare(f), flat, metered)
  {
    LinesAddUp(f);
    IsSurged(f);
    PaiseOf(Given(f.rateCard.baseFare));
    PaiseOf(flat + Larger(f.rateCard.minFare - metered, 0.0));
    PaiseOfProduct(f.stopCount, f.chargePerStop);
  }

  /** By the hour: the kilometres driven, and the booked hours as waiting. */
  lemma HourlyPriced(f: FareInput) returns (flat: real)
    requires PricedByTheHour(f)
    ensures var b := CalculateFare(f);
      && IsPaise(b.distanceFare, Product(f.estimatedKm, Rate(f)))
      && b.waitingFare != None && IsPaise(Given(b.waitingFare), Product(f.tripHours, Given(f.rateCard.hourRate)))
      && b.timeFare == b.hourSurcharge == b.overageFare == 0.0 && b.overageKm == None
      && Metered(f, b, flat, b.distanceFare)
  {
    Branches(f);
    flat := FlatBase(f);
    PaiseOfProduct(f.estimatedKm, Rate(f));
    PaiseOfProduct(f.tripHours, Given(f.rateCard.hourRate));
    IsMetered(f, flat, CalculateFare(f).distanceFare);
  }

  /** `days` is the fewest whole days, at least one, that cover the hours. */
  ghost predicate Covers(days: int, hours: real) {
    days >= 1 && hours <= days as real * 24.0 && (days > 1 ==> (days as real - 1.0) * 24.0 < hours)
  }

  lemma DaysCover(f: FareInput) returns (days: int)
    ensures Covers(days, f.tripHours) && Days(f) == days as real
  {
    days := Ceil(f.tripHours / 24.0);
    if days < 1 { days := 1; }
  }

  /** By the day: the package of kilometres and the driver's allowance for each day, and the kilometres beyond it. */
  lemma PerDayPriced(f: FareInput) returns (flat: real, days: int, packageKm: real)
    requires PricedByTheDay(f)
    ensures Covers(days, f.tripHours) && IsPaise(packageKm, Product(days as real, Given(f.rateCard.kmPerDay)))
    ensures var b, beyond := CalculateFare(f), Larger(f.estimatedKm - packageKm, 0.0);
      && IsPaise(b.distanceFare, Product(packageKm, Rate(f)))
      && IsPaise(b.overageFare, Product(beyond, Rate(f)))
      && b.overageKm != None && IsPaise(Given(b.overageKm), beyond)
      && IsPaise(b.hourSurcharge, Product(days as real, Given(f.rateCard.driverAllowancePerDay)))
      && b.timeFare == 0.0 && b.waitingFare == None
      && Metered(f, b, flat, b.distanceFare + b.overageFare)
  {
    Branches(f);
    flat := FlatBase(f);
    packageKm := PackageKm(f);
    days := DaysCover(f);
    var b, beyond := CalculateFare(f), Larger(f.estimatedKm - packageKm, 0.0);
    assert OverageKmRaw(f) == beyond;
    PaiseOfProduct(days as real, Given(f.rateCard.kmPerDay));
    PaiseOfProduct(packageKm, Rate(f));
    PaiseOfProduct(beyond, Rate(f));
    PaiseOf(beyond);
    PaiseOfProduct(days as real, Given(f.rateCard.driverAllowancePerDay));
    WholeParts(Times(packageKm, Rate(f)), Times(beyond, Rate(f)));
    IsMetered(f, flat, b.distanceFare + b.overageFare);
  }

  lemma WholeParts(x: real, y: real)
    ensures Round2(Round2(x) + Round2(y)) == Round2(x) + Round2(y)
  {
    Round2IsWhole(x);
    Round2IsWhole(y);
    WholeSum(Round2(x), Round2(y));
  }

  /** One way, and a rental without a package: kilometres and minutes. */
  lemma OneWayPriced(f: FareInput) returns (flat: real)
    requires !PricedAsPackage(f) && f.rideType != RoundTrip
    ensures var b := CalculateFare(f);
      && IsPaise(b.distanceFare, Product(f.estimatedKm, Rate(f)))
      && IsPaise(b.timeFare, Product(f.estimatedMin, f.rateCard.ratePerMin))
      && b.hourSurcharge == b.overageFare == 0.0 && b.overageKm == None && b.waitingFare == None
      && Metered(f, b, flat, b.distanceFare + b.timeFare)
  {
    Branches(f);
    flat := FlatBase(f);
    PaiseOfProduct(f.estimatedKm, Rate(f));
    PaiseOfProduct(f.estimatedMin, f.rateCard.ratePerMin);
    WholeParts(Times(f.estimatedKm, Rate(f)), Times(f.estimatedMin, f.rateCard.ratePerMin));
    IsMetered(f, flat, CalculateFare(f).distanceFare + CalculateFare(f).timeFare);
  }

  // ----- The return rate -----

  /** The card's return rate is for return cabs only; there it takes the place of the ordinary rate, unless it is
      missing or 0. */
  lemma ReturnRate(f: FareInput, rate: Option<real>)
    ensures !f.isReturnCab ==>
      CalculateFare(f.(rateCard := f.rateCard.(returnRatePerKm := rate))) == CalculateFare(f)
    ensures f.isReturnCab && f.rateCard.returnRatePerKm.Some? && f.rateCard.returnRatePerKm.value != 0.0 ==>
      CalculateFare(f) == CalculateFare(f.(isReturnCab := false,
                                           rateCard := f.rateCard.(ratePerKm := f.rateCard.returnRatePerKm.value)))
    ensures f.rateCard.returnRatePerKm == None || f.rateCard.returnRatePerKm == Some(0.0) ==>
      CalculateFare(f) == CalculateFare(f.(isReturnCab := !f.isReturnCab))
  {
    var card := f.rateCard;
    if !f.isReturnCab { RateDecides(f, f.(rateCard := card.(returnRatePerKm := rate))); }
    match card.returnRatePerKm
    case None => RateDecides(f, f.(isReturnCab := !f.isReturnCab));
    case Some(r) =>
      if r == 0.0 {
        RateDecides(f, f.(isReturnCab := !f.isReturnCab));
      } else if f.isReturnCab {
        RateDecides(f, f.(isReturnCab := false, rateCard := card.(ratePerKm := r)));
      }
  }

  /** Two inputs that differ only in how they come to their rate cost the same. */
  lemma RateDecides(f: FareInput, g: FareInput)
    requires Rate(f) == Rate(g)
    requires g == f.(isReturnCab := g.isReturnCab,
                     rateCard := f.rateCard.(ratePerKm := g.rateCard.ratePerKm,
                                             returnRatePerKm := g.rateCard.returnRatePerKm))
    ensures CalculateFare(f) == CalculateFare(g)
  {
    Branches(f);
    Branches(g);
  }

  // ----- The settlements -----

  /** The distance counts only when its average speed is plausible; what lies beyond limit and grace is billed on top of
      the package; and only a distance billed, or one skipped on a trip that could have gone beyond the limit, is
      reviewed. */
  lemma SettledExactly(t: RentalTrip) returns (subtotal: real, surge: real)
    ensures var s, most := SettleRentalFare(t), Product(t.elapsedMin / 60.0, t.maxAvgKmh);
      var plausible := t.gpsKm.Some? && t.gpsKm.value <= most;
      && s.measuredKm == (if plausible then t.gpsKm else None)
      && (if plausible then IsPaise(s.overageKm, Larger(t.gpsKm.value - t.pkg.kmLimit - t.grace.km, 0.0))
          else s.overageKm == 0.0)
      && IsPaise(s.overageMin, Larger(t.elapsedMin - t.pkg.durationMinutes - t.grace.min, 0.0))
      && IsPaise(s.overageFare, Product(s.overageKm, t.pkg.extraPerKm) + Product(s.overageMin, t.pkg.extraPerMin))
      && IsPaise(subtotal, t.baseFare + s.overageFare) && IsPaise(surge, Product(subtotal, t.surge - 1.0))
      && s.total == subtotal + surge
      && (s.review == KmBilled <==> s.overageKm > 0.0)
      && (s.review == KmNotBilled <==> s.overageKm <= 0.0 && !plausible && most > t.pkg.kmLimit)
  {
    var s := SettleRentalFare(t);
    assert MaxKm(t) == Product(t.elapsedMin / 60.0, t.maxAvgKmh);
    if s.measuredKm.Some? { PaiseOf(Larger(s.measuredKm.value - t.pkg.kmLimit - t.grace.km, 0.0)); }
    PaiseOf(Larger(t.elapsedMin - t.pkg.durationMinutes - t.grace.min, 0.0));
    var f := FareInput(
      RateCard(0.0, 0.0, 0.0, None, None, None, None, None), Rental, false, 0.0, 0.0, 0.0, 0.0, 0.0, 1, t.surge,
      s.overageKm, s.overageMin, t.pkg.extraPerKm, t.pkg.extraPerMin, Some(t.baseFare));
    PackagePriced(f);
    subtotal, surge := CalculateFare(f).subtotal, CalculateFare(f).surgeFare;
  }

  /** Overtime is the fewest whole minutes that, after booked hours and grace, reach the moment of completion; each is
      billed at a sixtieth of the hourly rate, in whole rupees. */
  lemma OvertimeExactly(startedAt: int, completedAt: int, hours: real, rate: real, grace: Option<real>,
                        review: Option<int>)
    ensures var o, free := SettleRoundTripOvertime(startedAt, completedAt, hours, rate, grace, review),
                           if grace.Some? then grace.value else 5.0;
      var end := startedAt as real + hours * 3600000.0 + free * 60000.0;
      && o.overtimeMin >= 0
      && completedAt as real <= end + o.overtimeMin as real * 60000.0
      && (o.overtimeMin > 0 ==> end + (o.overtimeMin as real - 1.0) * 60000.0 < completedAt as real)
      && IsNearest(o.overtimeFare, Product(o.overtimeMin as real, rate) / 60.0)
      && (o.review <==> o.overtimeMin > if review.Some? then review.value else 60)
  {
    var o := SettleRoundTripOvertime(startedAt, completedAt, hours, rate, grace, review);
    RoundError(Times(o.overtimeMin as real, rate) / 60.0);
    assert Times(o.overtimeMin as real, rate) == Product(o.overtimeMin as real, rate);
  }
}
