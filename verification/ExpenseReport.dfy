/** The expense report and its method comparison: app/expenses.py, build_expense_report. */
module ExpenseReport {
  import opened Common
  import opened ExpenseTotals
  import opened MileageRates

  type VehicleId = nat
  type TripId = nat
  type Category = nat  // the expense categories of the ledger, numbered

  datatype Exclusion = Included | NotMyVehicle | NotDeductible

  /** A trip with the local date, year and month of its start and its display distance. */
  datatype Trip = Trip(id: Option<TripId>, vehicle: Option<VehicleId>, date: nat, year: nat, month: nat,
                       business: bool, exclusion: Exclusion, distance: real)

  datatype Treatment = Allocated | FullyBusiness

  /** What a row of the ledger says about the trip it is linked to. */
  datatype Linked = Linked(vehicle: Option<VehicleId>, date: Option<nat>, exclusion: Exclusion)

  datatype Expense = Expense(id: Option<nat>, vehicle: VehicleId, date: nat, year: nat, amount: real, category: Category,
                             treatment: Treatment, trip: Option<TripId>, linked: Option<Linked>)

  datatype Reading = Reading(vehicle: VehicleId, at: real, odometer: real)

  // -------- distances --------

  predicate Drives(t: Trip, v: VehicleId, year: nat) {
    t.vehicle == Some(v) && t.year == year && t.exclusion != NotMyVehicle
  }

  predicate Counts(t: Trip, v: VehicleId, year: nat, businessOnly: bool) {
    Drives(t, v, year) && (businessOnly ==> t.exclusion != NotDeductible && t.business)
  }

  function Distance(trips: seq<Trip>, v: VehicleId, year: nat, businessOnly: bool): real {
    if trips == [] then 0.0
    else
      var n := |trips| - 1;
      Distance(trips[..n], v, year, businessOnly) + (if Counts(trips[n], v, year, businessOnly) then trips[n].distance else 0.0)
  }

  ghost predicate NonNegative(trips: seq<Trip>) {
    forall i :: 0 <= i < |trips| ==> trips[i].distance >= 0.0
  }

  /** Business distance is part of all distance. */
  lemma {:induction false} BusinessWithinTotal(trips: seq<Trip>, v: VehicleId, year: nat)
    requires NonNegative(trips)
    ensures 0.0 <= Distance(trips, v, year, true) <= Distance(trips, v, year, false)
  {
    if trips != [] {
      assert NonNegative(trips[..|trips| - 1]);
      BusinessWithinTotal(trips[..|trips| - 1], v, year);
    }
  }

  /** The same trip without its exclusion: one in another's vehicle is nobody's, one that may not be deducted is private. */
  function Plain(t: Trip): Trip {
    t.(vehicle := if t.exclusion == NotMyVehicle then None else t.vehicle,
       business := t.business && t.exclusion != NotDeductible, exclusion := Included)
  }

  function AllPlain(trips: seq<Trip>): (r: seq<Trip>)
    ensures |r| == |trips|
  {
    if trips == [] then [] else AllPlain(trips[..|trips| - 1]) + [Plain(trips[|trips| - 1])]
  }

  /** Exclusions mean just that: the distances, in all and for business, are those of the plain trips. */
  lemma {:induction false} ExclusionsMeanPlainTrips(trips: seq<Trip>, v: VehicleId, year: nat, businessOnly: bool)
    ensures Distance(AllPlain(trips), v, year, businessOnly) == Distance(trips, v, year, businessOnly)
  {
    if trips != [] {
      var n := |trips| - 1;
      ExclusionsMeanPlainTrips(trips[..n], v, year, businessOnly);
      assert AllPlain(trips)[..n] == AllPlain(trips[..n]);
    }
  }

  /** And a plain trip counts for its vehicle in its year, for business if it was made for business. */
  lemma PlainTripsCount(t: Trip, v: VehicleId, year: nat)
    requires t.exclusion == Included
    ensures Distance([t], v, year, false) == if t.vehicle == Some(v) && t.year == year then t.distance else 0.0
    ensures Distance([t], v, year, true) == if t.business then Distance([t], v, year, false) else 0.0
  {
    assert [t][..0] == [];
    assert Distance([t][..0], v, year, false) == 0.0 && Distance([t][..0], v, year, true) == 0.0;
  }

  ghost predicate HasDrive(trips: seq<Trip>, v: VehicleId, year: nat) {
    exists i :: 0 <= i < |trips| && Drives(trips[i], v, year)
  }

  ghost predicate TripsTallied(trips: seq<Trip>, year: nat, gps: Tally<VehicleId>, business: Tally<VehicleId>) {
    && Sound(gps) && Sound(business)
    && (forall v :: Get(gps, v) == Distance(trips, v, year, false))
    && (forall v :: Get(business, v) == Distance(trips, v, year, true))
    && (forall v :: v in gps.of <==> HasDrive(trips, v, year))
  }

  lemma HasDriveSnoc(trips: seq<Trip>, t: Trip, v: VehicleId, year: nat)
    ensures HasDrive(trips + [t], v, year) <==> HasDrive(trips, v, year) || Drives(t, v, year)
  {
    var all := trips + [t];
    if HasDrive(trips, v, year) {
      var i :| 0 <= i < |trips| && Drives(trips[i], v, year);
      assert all[i] == trips[i];
    }
    assert all[|trips|] == t;
  }

  lemma DistanceSnoc(trips: seq<Trip>, t: Trip, v: VehicleId, year: nat, businessOnly: bool)
    ensures Distance(trips + [t], v, year, businessOnly)
         == Distance(trips, v, year, businessOnly) + if Counts(t, v, year, businessOnly) then t.distance else 0.0
  {
    assert (trips + [t])[..|trips|] == trips;
  }

  lemma TripStep(trips: seq<Trip>, t: Trip, year: nat, gps: Tally<VehicleId>, business: Tally<VehicleId>)
    requires TripsTallied(trips, year, gps, business)
    ensures var counted := t.vehicle.Some? && t.year == year && t.exclusion != NotMyVehicle;
            var business' := counted && t.exclusion != NotDeductible && t.business;
            TripsTallied(trips + [t], year,
                         if counted then Add(gps, t.vehicle.value, t.distance) else gps,
                         if business' then Add(business, t.vehicle.value, t.distance) else business)
  {
    hide Sound, Add, Get, HasDrive, Distance;
    if t.vehicle.Some? {
      AddAddsToTotal(gps, t.vehicle.value, t.distance);
      AddAddsToTotal(business, t.vehicle.value, t.distance);
    }
    forall v: VehicleId
      ensures HasDrive(trips + [t], v, year) <==> HasDrive(trips, v, year) || Drives(t, v, year)
      ensures Distance(trips + [t], v, year, false)
           == Distance(trips, v, year, false) + if Drives(t, v, year) then t.distance else 0.0
      ensures Distance(trips + [t], v, year, true)
           == Distance(trips, v, year, true) + if Counts(t, v, year, true) then t.distance else 0.0
      ensures t.vehicle.Some? ==> var k := t.vehicle.value;
                && Get(Add(gps, k, t.distance), v) == Get(gps, v) + (if v == k then t.distance else 0.0)
                && Get(Add(business, k, t.distance), v) == Get(business, v) + (if v == k then t.distance else 0.0)
                && (v in Add(gps, k, t.distance).of <==> v == k || v in gps.of)
    {
      HasDriveSnoc(trips, t, v, year);
      DistanceSnoc(trips, t, v, year, false);
      DistanceSnoc(trips, t, v, year, true);
      if t.vehicle.Some? {
        GetAdd(gps, t.vehicle.value, t.distance, v);
        GetAdd(business, t.vehicle.value, t.distance, v);
      }
    }
  }

  // -------- business distance by month --------

  function MonthDistance(trips: seq<Trip>, v: VehicleId, year: nat, month: nat): real {
    if trips == [] then 0.0
    else
      var n := |trips| - 1;
      MonthDistance(trips[..n], v, year, month)
      + (if Counts(trips[n], v, year, true) && trips[n].month == month then trips[n].distance else 0.0)
  }

  ghost predicate HasBusiness(trips: seq<Trip>, v: VehicleId, year: nat, month: nat) {
    exists i :: 0 <= i < |trips| && Counts(trips[i], v, year, true) && trips[i].month == month
  }

  const NO_MONTHS: Tally<nat> := Tally([], map[])

  function MonthsOf(byMonth: map<VehicleId, Tally<nat>>, v: VehicleId): Tally<nat> {
    if v in byMonth then byMonth[v] else NO_MONTHS
  }

  ghost predicate MonthsTallied(trips: seq<Trip>, v: VehicleId, year: nat, months: Tally<nat>) {
    && Sound(months)
    && (forall k :: Get(months, k) == MonthDistance(trips, v, year, k))
    && (forall k :: k in months.of <==> HasBusiness(trips, v, year, k))
  }

  ghost predicate AllMonthsTallied(trips: seq<Trip>, year: nat, byMonth: map<VehicleId, Tally<nat>>) {
    forall v :: MonthsTallied(trips, v, year, MonthsOf(byMonth, v))
  }

  lemma MonthSnoc(trips: seq<Trip>, t: Trip, v: VehicleId, year: nat, month: nat)
    ensures MonthDistance(trips + [t], v, year, month)
         == MonthDistance(trips, v, year, month) + if Counts(t, v, year, true) && t.month == month then t.distance else 0.0
    ensures HasBusiness(trips + [t], v, year, month)
            <==> HasBusiness(trips, v, year, month) || (Counts(t, v, year, true) && t.month == month)
  {
    var all := trips + [t];
    assert all[..|trips|] == trips;
    if HasBusiness(trips, v, year, month) {
      var i :| 0 <= i < |trips| && Counts(trips[i], v, year, true) && trips[i].month == month;
      assert all[i] == trips[i];
    }
    assert all[|trips|] == t;
  }

  lemma MonthsStep(trips: seq<Trip>, t: Trip, v: VehicleId, year: nat, months: Tally<nat>)
    requires MonthsTallied(trips, v, year, months)
    ensures MonthsTallied(trips + [t], v, year, if Counts(t, v, year, true) then Add(months, t.month, t.distance) else months)
  {
    hide Sound, Add, Get, HasBusiness, MonthDistance, Counts;
    AddAddsToTotal(months, t.month, t.distance);
    forall k: nat
      ensures MonthDistance(trips + [t], v, year, k)
           == MonthDistance(trips, v, year, k) + if Counts(t, v, year, true) && t.month == k then t.distance else 0.0
      ensures HasBusiness(trips + [t], v, year, k)
              <==> HasBusiness(trips, v, year, k) || (Counts(t, v, year, true) && t.month == k)
      ensures Get(Add(months, t.month, t.distance), k) == Get(months, k) + if k == t.month then t.distance else 0.0
      ensures k in Add(months, t.month, t.distance).of <==> k == t.month || k in months.of
    {
      MonthSnoc(trips, t, v, year, k);
      GetAdd(months, t.month, t.distance, k);
    }
  }

  /** months[month] = months.get(month, 0) + x in the dictionary of a vehicle. */
  function AddMonth(byMonth: map<VehicleId, Tally<nat>>, v: VehicleId, month: nat, x: real): map<VehicleId, Tally<nat>> {
    byMonth[v := Add(MonthsOf(byMonth, v), month, x)]
  }

  lemma AllMonthsStep(trips: seq<Trip>, t: Trip, year: nat, byMonth: map<VehicleId, Tally<nat>>)
    requires AllMonthsTallied(trips, year, byMonth)
    ensures AllMonthsTallied(trips + [t], year,
                             if t.vehicle.Some? && Counts(t, t.vehicle.value, year, true)
                             then AddMonth(byMonth, t.vehicle.value, t.month, t.distance) else byMonth)
  {
    hide MonthsTallied, Add;
    var after := if t.vehicle.Some? && Counts(t, t.vehicle.value, year, true)
                 then AddMonth(byMonth, t.vehicle.value, t.month, t.distance) else byMonth;
    forall v: VehicleId
      ensures MonthsTallied(trips + [t], v, year, MonthsOf(after, v))
    {
      var months := MonthsOf(byMonth, v);
      MonthsStep(trips, t, v, year, months);
      assert MonthsOf(after, v) == if Counts(t, v, year, true) then Add(months, t.month, t.distance) else months;
    }
  }

  /** What the months of a vehicle are worth together. */
  function WorthOver(keys: seq<nat>, months: Tally<nat>, year: nat, rates: map<nat, YearRate>): real {
    if keys == [] then 0.0
    else
      var n := |keys| - 1;
      WorthOver(keys[..n], months, year, rates) + Worth(Get(months, keys[n]), year, rates, keys[n])
  }

  function WorthOfMonths(keys: seq<nat>, trips: seq<Trip>, v: VehicleId, year: nat, rates: map<nat, YearRate>): real {
    if keys == [] then 0.0
    else
      var n := |keys| - 1;
      WorthOfMonths(keys[..n], trips, v, year, rates) + Worth(MonthDistance(trips, v, year, keys[n]), year, rates, keys[n])
  }

  /** What its business trips are worth, each at the rate of its month. */
  function WorthOfTrips(trips: seq<Trip>, v: VehicleId, year: nat, rates: map<nat, YearRate>): real {
    if trips == [] then 0.0
    else
      var n := |trips| - 1;
      WorthOfTrips(trips[..n], v, year, rates)
      + (if Counts(trips[n], v, year, true) then Worth(trips[n].distance, year, rates, trips[n].month) else 0.0)
  }

  lemma {:induction false} SameMonths(keys: seq<nat>, months: Tally<nat>, trips: seq<Trip>, v: VehicleId, year: nat,
                                      rates: map<nat, YearRate>)
    requires forall k :: Get(months, k) == MonthDistance(trips, v, year, k)
    ensures WorthOver(keys, months, year, rates) == WorthOfMonths(keys, trips, v, year, rates)
  {
    hide Worth, Get, MonthDistance;
    if keys != [] {
      SameMonths(keys[..|keys| - 1], months, trips, v, year, rates);
    }
  }

  lemma {:induction false} OneMoreTrip(keys: seq<nat>, trips: seq<Trip>, t: Trip, v: VehicleId, year: nat,
                                       rates: map<nat, YearRate>)
    requires Distinct(keys)
    ensures WorthOfMonths(keys, trips + [t], v, year, rates)
         == WorthOfMonths(keys, trips, v, year, rates)
            + if Counts(t, v, year, true) && t.month in keys then Worth(t.distance, year, rates, t.month) else 0.0
  {
    hide Worth, MonthDistance, Counts;
    if keys != [] {
      var n := |keys| - 1;
      OneMoreTrip(keys[..n], trips, t, v, year, rates);
      MonthSnoc(trips, t, v, year, keys[n]);
      WorthAdds(MonthDistance(trips, v, year, keys[n]), t.distance, year, rates, keys[n]);
      assert keys == keys[..n] + [keys[n]];
      assert t.month in keys[..n] ==> t.month != keys[n];
    }
  }

  lemma {:induction false} NoTripsNoWorth(keys: seq<nat>, v: VehicleId, year: nat, rates: map<nat, YearRate>)
    ensures WorthOfMonths(keys, [], v, year, rates) == 0.0
  {
    hide Worth;
    if keys != [] {
      NoTripsNoWorth(keys[..|keys| - 1], v, year, rates);
      WorthAdds(0.0, 0.0, year, rates, keys[|keys| - 1]);
    }
  }

  /** Pricing the sum of each month is pricing each trip. */
  lemma {:induction false} MonthsPriceEachTrip(keys: seq<nat>, trips: seq<Trip>, v: VehicleId, year: nat,
                                               rates: map<nat, YearRate>)
    requires Distinct(keys) && forall k :: HasBusiness(trips, v, year, k) ==> k in keys
    ensures WorthOfMonths(keys, trips, v, year, rates) == WorthOfTrips(trips, v, year, rates)
  {
    hide Worth, Counts, Distinct, WorthOfMonths;
    if trips == [] {
      NoTripsNoWorth(keys, v, year, rates);
    } else {
      var n := |trips| - 1;
      assert trips == trips[..n] + [trips[n]];
      forall k | HasBusiness(trips[..n], v, year, k)
        ensures HasBusiness(trips, v, year, k)
      {
        MonthSnoc(trips[..n], trips[n], v, year, k);
      }
      MonthsPriceEachTrip(keys, trips[..n], v, year, rates);
      OneMoreTrip(keys, trips[..n], trips[n], v, year, rates);
      assert Counts(trips[n], v, year, true) ==> HasBusiness(trips, v, year, trips[n].month);
    }
  }

  // -------- the standard deduction by rates --------

  /** The distance of the business trips that start in the months from first on, and before end. */
  function MonthsDistance(trips: seq<Trip>, v: VehicleId, year: nat, first: nat, end: Option<nat>): real {
    if trips == [] then 0.0
    else
      var n := |trips| - 1;
      MonthsDistance(trips[..n], v, year, first, end)
      + (if Counts(trips[n], v, year, true) && first <= trips[n].month && (end.Some? ==> trips[n].month < end.value)
         then trips[n].distance else 0.0)
  }

  /** Miles at so much each. */
  function AtRate(meters: real, perMile: real): real {
    (meters / 1609.344) * perMile
  }

  lemma AtRateAdds(a: real, b: real, perMile: real)
    ensures AtRate(a + b, perMile) == AtRate(a, perMile) + AtRate(b, perMile)
    ensures AtRate(0.0, perMile) == 0.0
  {
    PriceAdds(a, b, perMile);
  }

  /** What the year's business trips are worth by its own rates: all at the first, or those from the month of the
      change on at the second. */
  ghost predicate PricedByOwnRate(trips: seq<Trip>, v: VehicleId, year: nat, r: YearRate, worth: real) {
    match (r.secondHalf, r.secondHalfFrom)
    case (Some(second), Some(change)) =>
      worth == AtRate(MonthsDistance(trips, v, year, 0, Some(change)), r.perMile)
               + AtRate(MonthsDistance(trips, v, year, change, None), second)
    case _ => worth == AtRate(MonthsDistance(trips, v, year, 0, None), r.perMile)
  }

  /** And by the rate that the latest earlier year had at its end. */
  ghost predicate PricedByLastRate(trips: seq<Trip>, v: VehicleId, year: nat, r: YearRate, worth: real) {
    var all := MonthsDistance(trips, v, year, 0, None);
    match (r.secondHalf, r.secondHalfFrom)
    case (Some(second), Some(change)) => worth == if change <= 12 then AtRate(all, second) else AtRate(all, r.perMile)
    case _ => worth == AtRate(all, r.perMile)
  }

  ghost predicate IsLatestBefore(rates: map<nat, YearRate>, year: nat, y: nat) {
    y in rates && y < year && forall z: nat :: z in rates && z < year ==> z <= y
  }

  /** The worth of the trips by the published rates, nothing if there is none. */
  ghost predicate Priced(trips: seq<Trip>, v: VehicleId, year: nat, rates: map<nat, YearRate>, worth: real) {
    && (year in rates ==> PricedByOwnRate(trips, v, year, rates[year], worth))
    && (year !in rates ==> forall y: nat :: IsLatestBefore(rates, year, y) ==> PricedByLastRate(trips, v, year, rates[y], worth))
  }

  lemma {:induction false} SplitYearIsPricedInTwo(trips: seq<Trip>, v: VehicleId, year: nat, rates: map<nat, YearRate>)
    requires year in rates
    ensures PricedByOwnRate(trips, v, year, rates[year], WorthOfTrips(trips, v, year, rates))
  {
    hide AtRate, Counts;
    if trips == [] {
      AtRateAdds(0.0, 0.0, rates[year].perMile);
      if rates[year].secondHalf.Some? {
        AtRateAdds(0.0, 0.0, rates[year].secondHalf.value);
      }
    } else {
      var n := |trips| - 1;
      var t, r := trips[n], rates[year];
      SplitYearIsPricedInTwo(trips[..n], v, year, rates);
      OwnWorth(t, r, year, rates);
      AtRateAdds(MonthsDistance(trips[..n], v, year, 0, None), t.distance, r.perMile);
      if r.secondHalf.Some? && r.secondHalfFrom.Some? {
        AtRateAdds(MonthsDistance(trips[..n], v, year, 0, r.secondHalfFrom), t.distance, r.perMile);
        AtRateAdds(MonthsDistance(trips[..n], v, year, r.secondHalfFrom.value, None), t.distance, r.secondHalf.value);
      }
    }
  }

  lemma OwnWorth(t: Trip, r: YearRate, year: nat, rates: map<nat, YearRate>)
    requires year in rates && rates[year] == r
    ensures Worth(t.distance, year, rates, t.month)
         == if r.secondHalf.Some? && r.secondHalfFrom.Some? && t.month >= r.secondHalfFrom.value
            then AtRate(t.distance, r.secondHalf.value) else AtRate(t.distance, r.perMile)
  {
  }

  lemma {:induction false} LaterYearIsPricedByTheLast(trips: seq<Trip>, v: VehicleId, year: nat, rates: map<nat, YearRate>, y: nat)
    requires year !in rates && IsLatestBefore(rates, year, y)
    ensures PricedByLastRate(trips, v, year, rates[y], WorthOfTrips(trips, v, year, rates))
  {
    hide AtRate, Counts, IsLatestBefore;
    assert y in rates by { LatestIsThere(rates, year, y); }
    var r := rates[y];
    if trips == [] {
      AtRateAdds(0.0, 0.0, r.perMile);
      if r.secondHalf.Some? {
        AtRateAdds(0.0, 0.0, r.secondHalf.value);
      }
    } else {
      var n := |trips| - 1;
      var t := trips[n];
      LaterYearIsPricedByTheLast(trips[..n], v, year, rates, y);
      LastWorth(t, y, year, rates);
      AtRateAdds(MonthsDistance(trips[..n], v, year, 0, None), t.distance, r.perMile);
      if r.secondHalf.Some? {
        AtRateAdds(MonthsDistance(trips[..n], v, year, 0, None), t.distance, r.secondHalf.value);
      }
    }
  }

  lemma LatestIsThere(rates: map<nat, YearRate>, year: nat, y: nat)
    requires IsLatestBefore(rates, year, y)
    ensures y in rates
  {
  }

  lemma LastWorth(t: Trip, y: nat, year: nat, rates: map<nat, YearRate>)
    requires year !in rates && IsLatestBefore(rates, year, y)
    ensures Worth(t.distance, year, rates, t.month)
         == if rates[y].secondHalf.Some? && rates[y].secondHalfFrom.Some? && 12 >= rates[y].secondHalfFrom.value
            then AtRate(t.distance, rates[y].secondHalf.value) else AtRate(t.distance, rates[y].perMile)
  {
    assert LatestBefore(rates, year) == Some(y);
  }

  /** What the trips are worth month by month is what their miles are worth at the rates in force. */
  lemma TripsArePriced(trips: seq<Trip>, v: VehicleId, year: nat, rates: map<nat, YearRate>)
    ensures Priced(trips, v, year, rates, WorthOfTrips(trips, v, year, rates))
  {
    hide PricedByOwnRate, PricedByLastRate, WorthOfTrips;
    if year in rates {
      SplitYearIsPricedInTwo(trips, v, year, rates);
    } else {
      forall y: nat | IsLatestBefore(rates, year, y)
        ensures PricedByLastRate(trips, v, year, rates[y], WorthOfTrips(trips, v, year, rates))
      {
        LaterYearIsPricedByTheLast(trips, v, year, rates, y);
      }
    }
  }

  method TallyTrips(trips: seq<Trip>, year: nat)
    returns (gps: Tally<VehicleId>, business: Tally<VehicleId>, byMonth: map<VehicleId, Tally<nat>>)
    ensures TripsTallied(trips, year, gps, business) && AllMonthsTallied(trips, year, byMonth)
  {
    hide Add, Get, Sound, MonthsTallied;
    gps, business, byMonth := Tally([], map[]), Tally([], map[]), map[];
    NoTrips(year);
    var i := 0;
    assert trips[..0] == [];
    while i < |trips|
      invariant i <= |trips| && TripsTallied(trips[..i], year, gps, business)
      invariant AllMonthsTallied(trips[..i], year, byMonth)
    {
      var t := trips[i];
      TripStep(trips[..i], t, year, gps, business);
      AllMonthsStep(trips[..i], t, year, byMonth);
      assert trips[..i + 1] == trips[..i] + [t];
      i := i + 1;
      if t.vehicle.None? {
        continue;
      }
      if t.year != year {
        continue;
      }
      if t.exclusion == NotMyVehicle {
        continue;
      }
      gps := Add(gps, t.vehicle.value, t.distance);
      if t.exclusion != NotDeductible && t.business {
        business := Add(business, t.vehicle.value, t.distance);
        byMonth := AddMonth(byMonth, t.vehicle.value, t.month, t.distance);
      }
    }
    assert trips[..i] == trips;
  }

  lemma NoTrips(year: nat)
    ensures TripsTallied([], year, Tally([], map[]), Tally([], map[])) && AllMonthsTallied([], year, map[])
  {
  }

  /** The standard deduction of the business distance: what each of its trips is worth. It is missing when the
      vehicle has no business trip, or no rate was published in time. */
  method StandardBase(ghost trips: seq<Trip>, ghost v: VehicleId, months: Tally<nat>, year: nat, rates: map<nat, YearRate>)
    returns (base: Option<real>)
    requires MonthsTallied(trips, v, year, months)
    ensures base == if Published(rates, year) && (exists k :: HasBusiness(trips, v, year, k))
                    then Some(WorthOfTrips(trips, v, year, rates)) else None
    ensures base.Some? ==> Priced(trips, v, year, rates, base.value)
  {
    hide Published, HasBusiness, RateFor, WorthOfTrips, MonthDistance, Get, Priced;
    TripsArePriced(trips, v, year, rates);
    var sum, anyRate, i := 0.0, false, 0;
    assert months.keys[..0] == [];
    while i < |months.keys|
      invariant i <= |months.keys| && sum == WorthOver(months.keys[..i], months, year, rates)
      invariant anyRate <==> i > 0 && Published(rates, year)
    {
      var month := months.keys[i];
      var value := Deduction(Get(months, month), year, rates, month);
      RateForAllMonths(rates, year, month);
      assert months.keys[..i + 1][..i] == months.keys[..i];
      if value.Some? {
        sum, anyRate := sum + value.value, true;
      }
      i := i + 1;
    }
    assert months.keys[..i] == months.keys;
    SameMonths(months.keys, months, trips, v, year, rates);
    MonthsPriceEachTrip(months.keys, trips, v, year, rates);
    assert |months.keys| > 0 ==> months.keys[0] in months.keys;
    base := if anyRate then Some(sum) else None;
  }

  // -------- amounts --------

  /** Which expenses of a year a total is about. */
  datatype Selector =
    | InYear
    | OfCategory(category: Category)
    | OfVehicle(vehicle: VehicleId, treatment: Treatment)
    | OfTrip(trip: TripId)

  predicate Selects(s: Selector, e: Expense, year: nat) {
    e.year == year &&
    match s
    case InYear => true
    case OfCategory(c) => e.category == c
    case OfVehicle(v, treatment) => e.vehicle == v && e.treatment == treatment
    case OfTrip(t) => e.trip == Some(t)
  }

  function Spent(expenses: seq<Expense>, s: Selector, year: nat): real {
    if expenses == [] then 0.0
    else
      var n := |expenses| - 1;
      Spent(expenses[..n], s, year) + (if Selects(s, expenses[n], year) then expenses[n].amount else 0.0)
  }

  ghost predicate WholeCents(expenses: seq<Expense>) {
    forall i :: 0 <= i < |expenses| ==> IsCents(expenses[i].amount)
  }

  ghost predicate Positive(expenses: seq<Expense>) {
    forall i :: 0 <= i < |expenses| ==> expenses[i].amount >= 0.0
  }

  lemma {:induction false} SpentIsCents(expenses: seq<Expense>, s: Selector, year: nat)
    requires WholeCents(expenses)
    ensures IsCents(Spent(expenses, s, year))
  {
    hide IsCents;
    if expenses != [] {
      var n := |expenses| - 1;
      assert WholeCents(expenses[..n]);
      SpentIsCents(expenses[..n], s, year);
      assert IsCents(expenses[n].amount);
      SumOfCents(Spent(expenses[..n], s, year), expenses[n].amount);
    } else {
      ZeroIsCents();
    }
  }

  lemma ZeroIsCents()
    ensures IsCents(0.0)
  {
  }

  lemma {:induction false} SpentIsPositive(expenses: seq<Expense>, s: Selector, year: nat)
    requires Positive(expenses)
    ensures Spent(expenses, s, year) >= 0.0
  {
    if expenses != [] {
      assert Positive(expenses[..|expenses| - 1]);
      SpentIsPositive(expenses[..|expenses| - 1], s, year);
    }
  }

  // -------- attributions --------

  datatype Conflict = OtherVehicle | OtherDate | NotMine

  datatype Attribution = Attribution(trip: TripId, expense: Option<nat>, amount: real, conflicts: seq<Conflict>)

  /** expense_conflicts of a row that is linked to a trip. */
  function Conflicts(e: Expense, linked: Option<Linked>): seq<Conflict> {
    match linked
    case None => []
    case Some(l) =>
      (if l.vehicle != Some(e.vehicle) then [OtherVehicle] else [])
      + (if l.date.Some? && l.date.value != e.date then [OtherDate] else [])
      + (if l.exclusion == NotMyVehicle then [NotMine] else [])
  }

  /** The trips that have an id; of several with one id the last counts. */
  function TripsById(trips: seq<Trip>): map<TripId, Trip> {
    if trips == [] then map[]
    else
      var n := |trips| - 1;
      if trips[n].id.None? then TripsById(trips[..n]) else TripsById(trips[..n])[trips[n].id.value := trips[n]]
  }

  /** The listed trip decides; a row linked to a trip that is not listed speaks for itself. */
  function LinkOf(e: Expense, tripsById: map<TripId, Trip>): Option<Linked> {
    if e.trip.Some? && e.trip.value in tripsById then
      var t := tripsById[e.trip.value];
      Some(Linked(t.vehicle, Some(t.date), t.exclusion))
    else e.linked
  }

  function Attributed(e: Expense, tripsById: map<TripId, Trip>): Attribution
    requires e.trip.Some?
  {
    Attribution(e.trip.value, e.id, Money(e.amount), Conflicts(e, LinkOf(e, tripsById)))
  }

  function Attributions(expenses: seq<Expense>, tripsById: map<TripId, Trip>, year: nat): seq<Attribution> {
    if expenses == [] then []
    else
      var n := |expenses| - 1;
      Attributions(expenses[..n], tripsById, year)
      + (if expenses[n].year == year && expenses[n].trip.Some? then [Attributed(expenses[n], tripsById)] else [])
  }

  function AttributedTo(attributions: seq<Attribution>, t: TripId): real {
    if attributions == [] then 0.0
    else
      var n := |attributions| - 1;
      AttributedTo(attributions[..n], t) + (if attributions[n].trip == t then attributions[n].amount else 0.0)
  }

  /** What is attributed to a trip, row by row, is what its expenses add up to. */
  lemma {:induction false} AttributionsAddUp(expenses: seq<Expense>, tripsById: map<TripId, Trip>, year: nat, t: TripId)
    requires WholeCents(expenses)
    ensures AttributedTo(Attributions(expenses, tripsById, year), t) == Spent(expenses, OfTrip(t), year)
  {
    hide IsCents, Money, Attributed;
    if expenses != [] {
      var n := |expenses| - 1;
      var e, front := expenses[n], Attributions(expenses[..n], tripsById, year);
      assert WholeCents(expenses[..n]);
      AttributionsAddUp(expenses[..n], tripsById, year, t);
      if e.year == year && e.trip.Some? {
        AttributedAmount(e, tripsById);
        assert (front + [Attributed(e, tripsById)])[..|front|] == front;
      } else {
        assert front + [] == front;
      }
    }
  }

  lemma AttributedAmount(e: Expense, tripsById: map<TripId, Trip>)
    requires e.trip.Some? && IsCents(e.amount)
    ensures Attributed(e, tripsById).amount == e.amount && Attributed(e, tripsById).trip == e.trip.value
  {
    hide Money, IsCents;
    MoneyOfCents(e.amount);
  }

  /** The last trip with an id is the one that an expense is compared to. */
  lemma {:induction false} TripsByIdIsLast(trips: seq<Trip>, i: nat)
    requires i < |trips| && trips[i].id.Some? && forall j :: i < j < |trips| ==> trips[j].id != trips[i].id
    ensures trips[i].id.value in TripsById(trips) && TripsById(trips)[trips[i].id.value] == trips[i]
  {
    var n := |trips| - 1;
    if i < n {
      TripsByIdIsLast(trips[..n], i);
    }
  }

  /** An attribution is without conflict exactly when vehicle and day of the listed trip are those of the expense,
      and the trip was made with one of the own vehicles. */
  lemma {:induction false} NoConflictMeansSameTrip(e: Expense, trips: seq<Trip>, i: nat)
    requires i < |trips| && trips[i].id.Some? && forall j :: i < j < |trips| ==> trips[j].id != trips[i].id
    requires e.trip == trips[i].id
    ensures Attributed(e, TripsById(trips)).conflicts == []
            <==> trips[i].vehicle == Some(e.vehicle) && trips[i].date == e.date && trips[i].exclusion != NotMyVehicle
    ensures var conflicts := Attributed(e, TripsById(trips)).conflicts;
            && (OtherVehicle in conflicts <==> trips[i].vehicle != Some(e.vehicle))
            && (OtherDate in conflicts <==> trips[i].date != e.date)
            && (NotMine in conflicts <==> trips[i].exclusion == NotMyVehicle)
  {
    TripsByIdIsLast(trips, i);
  }

  datatype Sums = Sums(categories: Tally<Category>, useBased: Tally<VehicleId>, fully: Tally<VehicleId>,
        trips: Tally<TripId>)

  const NO_SUMS := Sums(Tally([], map[]), Tally([], map[]), Tally([], map[]), Tally([], map[]))

  /** The dictionaries hold the sums they are named for, and nothing is lost or counted twice. */
  ghost predicate Summed(expenses: seq<Expense>, year: nat, s: Sums) {
    && Sound(s.categories) && Sound(s.useBased) && Sound(s.fully) && Sound(s.trips)
    && Entries(expenses, year, s)
    && Total(s.categories) == Spent(expenses, InYear, year)
    && Total(s.useBased) + Total(s.fully) == Spent(expenses, InYear, year)
    && (forall v :: v in s.useBased.of || v in s.fully.of <==> HasExpense(expenses, v, year))
  }

  ghost predicate HasExpense(expenses: seq<Expense>, v: VehicleId, year: nat) {
    exists i :: 0 <= i < |expenses| && expenses[i].vehicle == v && expenses[i].year == year
  }

  function WithExpense(s: Sums, e: Expense): Sums {
    Sums(
      Add(s.categories, e.category, e.amount),
      if e.treatment == FullyBusiness then s.useBased else Add(s.useBased, e.vehicle, e.amount),
      if e.treatment == FullyBusiness then Add(s.fully, e.vehicle, e.amount) else s.fully,
      if e.trip.Some? then Add(s.trips, e.trip.value, e.amount) else s.trips)
  }

  lemma SpentSnoc(expenses: seq<Expense>, e: Expense, s: Selector, year: nat)
    ensures Spent(expenses + [e], s, year) == Spent(expenses, s, year) + if Selects(s, e, year) then e.amount else 0.0
  {
    assert (expenses + [e])[..|expenses|] == expenses;
  }

  lemma HasExpenseSnoc(expenses: seq<Expense>, e: Expense, v: VehicleId, year: nat)
    ensures HasExpense(expenses + [e], v, year) <==> HasExpense(expenses, v, year) || (e.vehicle == v && e.year == year)
  {
    var all := expenses + [e];
    if HasExpense(expenses, v, year) {
      var i :| 0 <= i < |expenses| && expenses[i].vehicle == v && expenses[i].year == year;
      assert all[i] == expenses[i];
    }
    assert all[|expenses|] == e;
  }

  /** The entries of the dictionaries. */
  ghost predicate Entries(expenses: seq<Expense>, year: nat, s: Sums) {
    && (forall c :: Get(s.categories, c) == Spent(expenses, OfCategory(c), year))
    && (forall v :: Get(s.useBased, v) == Spent(expenses, OfVehicle(v, Allocated), year))
    && (forall v :: Get(s.fully, v) == Spent(expenses, OfVehicle(v, FullyBusiness), year))
    && (forall t :: Get(s.trips, t) == Spent(expenses, OfTrip(t), year))
  }

  lemma EntriesStep(expenses: seq<Expense>, e: Expense, year: nat, s: Sums)
    requires Entries(expenses, year, s)
    ensures Entries(expenses + [e], year, if e.year == year then WithExpense(s, e) else s)
  {
    hide Add, Get, Spent;
    var after, all := if e.year == year then WithExpense(s, e) else s, expenses + [e];
    forall c: Category
      ensures Get(after.categories, c) == Spent(all, OfCategory(c), year)
    {
      SpentSnoc(expenses, e, OfCategory(c), year);
      GetAdd(s.categories, e.category, e.amount, c);
    }
    forall v: VehicleId
      ensures Get(after.useBased, v) == Spent(all, OfVehicle(v, Allocated), year)
      ensures Get(after.fully, v) == Spent(all, OfVehicle(v, FullyBusiness), year)
    {
      SpentSnoc(expenses, e, OfVehicle(v, Allocated), year);
      SpentSnoc(expenses, e, OfVehicle(v, FullyBusiness), year);
      GetAdd(s.useBased, e.vehicle, e.amount, v);
      GetAdd(s.fully, e.vehicle, e.amount, v);
    }
    forall t: TripId
      ensures Get(after.trips, t) == Spent(all, OfTrip(t), year)
    {
      SpentSnoc(expenses, e, OfTrip(t), year);
      if e.trip.Some? {
        GetAdd(s.trips, e.trip.value, e.amount, t);
      }
    }
  }

  lemma ExpenseStep(expenses: seq<Expense>, e: Expense, year: nat, s: Sums)
    requires Summed(expenses, year, s)
    ensures Summed(expenses + [e], year, if e.year == year then WithExpense(s, e) else s)
  {
    hide Sound, Total, Add, Get, Spent, Entries, HasExpense;
    EntriesStep(expenses, e, year, s);
    SpentSnoc(expenses, e, InYear, year);
    AddAddsToTotal(s.categories, e.category, e.amount);
    AddAddsToTotal(s.useBased, e.vehicle, e.amount);
    AddAddsToTotal(s.fully, e.vehicle, e.amount);
    if e.trip.Some? {
      AddAddsToTotal(s.trips, e.trip.value, e.amount);
    }
    forall v: VehicleId
      ensures HasExpense(expenses + [e], v, year) <==> HasExpense(expenses, v, year) || (e.vehicle == v && e.year == year)
      ensures v in Add(s.useBased, e.vehicle, e.amount).of <==> v == e.vehicle || v in s.useBased.of
      ensures v in Add(s.fully, e.vehicle, e.amount).of <==> v == e.vehicle || v in s.fully.of
    {
      HasExpenseSnoc(expenses, e, v, year);
      GetAdd(s.useBased, e.vehicle, e.amount, v);
      GetAdd(s.fully, e.vehicle, e.amount, v);
    }
  }

  /** The dictionary comprehension over all trips, those of other years included. */
  method IndexTrips(trips: seq<Trip>) returns (tripsById: map<TripId, Trip>)
    ensures tripsById == TripsById(trips)
  {
    tripsById := map[];
    assert trips[..0] == [];
    for i := 0 to |trips|
      invariant tripsById == TripsById(trips[..i])
    {
      assert trips[..i + 1][..i] == trips[..i];
      if trips[i].id.Some? {
        tripsById := tripsById[trips[i].id.value := trips[i]];
      }
    }
    assert trips[..|trips|] == trips;
  }

  method TallyExpenses(expenses: seq<Expense>, tripsById: map<TripId, Trip>, year: nat)
    returns (s: Sums, attributions: seq<Attribution>)
    ensures Summed(expenses, year, s) && attributions == Attributions(expenses, tripsById, year)
  {
    hide Summed, Add, Attributed;
    s, attributions := NO_SUMS, [];
    NoExpenses(year);
    var i := 0;
    assert expenses[..0] == [];
    while i < |expenses|
      invariant i <= |expenses| && Summed(expenses[..i], year, s)
      invariant attributions == Attributions(expenses[..i], tripsById, year)
    {
      var e := expenses[i];
      assert expenses[..i + 1][..i] == expenses[..i];
      ExpenseStep(expenses[..i], e, year, s);
      assert expenses[..i + 1] == expenses[..i] + [e];
      i := i + 1;
      if e.year != year {
        continue;
      }
      s := s.(categories := Add(s.categories, e.category, e.amount));
      if e.treatment == FullyBusiness {
        s := s.(fully := Add(s.fully, e.vehicle, e.amount));
      } else {
        s := s.(useBased := Add(s.useBased, e.vehicle, e.amount));
      }
      if e.trip.Some? {
        s := s.(trips := Add(s.trips, e.trip.value, e.amount));
        attributions := attributions + [Attributed(e, tripsById)];
      }
    }
    assert expenses[..i] == expenses;
  }

  lemma NoExpenses(year: nat)
    ensures Summed([], year, NO_SUMS)
  {
  }

  // -------- the odometer --------

  function Insert(r: Reading, sorted: seq<Reading>): (s: seq<Reading>) {
    if sorted == [] || r.at < sorted[0].at then [r] + sorted else [sorted[0]] + Insert(r, sorted[1..])
  }

  /** sorted by recorded_at, which is stable: of equal times the earlier in the list stays first. */
  function SortByTime(readings: seq<Reading>): seq<Reading> {
    if readings == [] then []
    else Insert(readings[|readings| - 1], SortByTime(readings[..|readings| - 1]))
  }

  ghost predicate InOrder(readings: seq<Reading>) {
    forall i, j :: 0 <= i < j < |readings| ==> readings[i].at <= readings[j].at
  }

  lemma {:induction false} InsertedAreLater(r: Reading, sorted: seq<Reading>, at: real)
    requires at <= r.at && forall j :: 0 <= j < |sorted| ==> at <= sorted[j].at
    ensures forall j :: 0 <= j < |Insert(r, sorted)| ==> at <= Insert(r, sorted)[j].at
  {
    if sorted != [] && r.at >= sorted[0].at {
      InsertedAreLater(r, sorted[1..], at);
    }
  }

  lemma {:induction false} InsertKeepsOrder(r: Reading, sorted: seq<Reading>)
    requires InOrder(sorted)
    ensures InOrder(Insert(r, sorted))
  {
    if sorted == [] || r.at < sorted[0].at {
      ConsKeepsOrder(r, sorted);
    } else {
      InsertKeepsOrder(r, sorted[1..]);
      InsertedAreLater(r, sorted[1..], sorted[0].at);
      ConsKeepsOrder(sorted[0], Insert(r, sorted[1..]));
    }
  }

  lemma {:induction false} InsertAddsOne(r: Reading, sorted: seq<Reading>)
    ensures multiset(Insert(r, sorted)) == multiset(sorted) + multiset{r}
  {
    if sorted != [] && r.at >= sorted[0].at {
      InsertAddsOne(r, sorted[1..]);
      assert sorted == [sorted[0]] + sorted[1..];
    }
  }

  lemma ConsKeepsOrder(r: Reading, rest: seq<Reading>)
    requires InOrder(rest) && forall j :: 0 <= j < |rest| ==> r.at <= rest[j].at
    ensures InOrder([r] + rest)
  {
  }

  lemma {:induction false} SortByTimeSorts(readings: seq<Reading>)
    ensures InOrder(SortByTime(readings)) && multiset(SortByTime(readings)) == multiset(readings)
  {
    if readings != [] {
      var n := |readings| - 1;
      SortByTimeSorts(readings[..n]);
      InsertKeepsOrder(readings[n], SortByTime(readings[..n]));
      InsertAddsOne(readings[n], SortByTime(readings[..n]));
      assert readings == readings[..n] + [readings[n]];
    }
  }

  /** The readings of a time span, in their order. */
  function Within(readings: seq<Reading>, from: real, to: real): (r: seq<Reading>)
    ensures forall x :: x in r <==> x in readings && from <= x.at <= to
  {
    if readings == [] then []
    else (if from <= readings[0].at <= to then [readings[0]] else []) + Within(readings[1..], from, to)
  }

  function OfVehicleOnly(readings: seq<Reading>, v: VehicleId): (r: seq<Reading>)
    ensures forall x :: x in r <==> x in readings && x.vehicle == v
  {
    if readings == [] then []
    else (if readings[0].vehicle == v then [readings[0]] else []) + OfVehicleOnly(readings[1..], v)
  }

  /** How many of the sorted readings are not after the time. */
  function UpTo(sorted: seq<Reading>, time: real): (k: nat)
    ensures k <= |sorted|
  {
    if sorted == [] || sorted[0].at > time then 0 else 1 + UpTo(sorted[1..], time)
  }

  /** How many of the sorted readings are before the time. */
  function Before(sorted: seq<Reading>, time: real): (k: nat)
    ensures k <= |sorted|
  {
    if sorted == [] || sorted[0].at >= time then 0 else 1 + Before(sorted[1..], time)
  }

  lemma {:induction false} CutsAtTheTime(sorted: seq<Reading>, time: real)
    requires InOrder(sorted)
    ensures forall i :: 0 <= i < |sorted| ==> (i < UpTo(sorted, time) <==> sorted[i].at <= time)
    ensures forall i :: 0 <= i < |sorted| ==> (i < Before(sorted, time) <==> sorted[i].at < time)
  {
    if sorted != [] {
      assert InOrder(sorted[1..]);
      CutsAtTheTime(sorted[1..], time);
      forall i | 0 <= i < |sorted|
        ensures i < UpTo(sorted, time) <==> sorted[i].at <= time
        ensures i < Before(sorted, time) <==> sorted[i].at < time
      {
        assert i > 0 ==> sorted[i] == sorted[1..][i - 1] && sorted[0].at <= sorted[i].at;
      }
    }
  }

  ghost predicate StrictlyIncreasing(readings: seq<Reading>) {
    forall i, j :: 0 <= i < j < |readings| ==> readings[i].odometer < readings[j].odometer
  }

  /** The last of the readings at or before the start of the year, and the first at or after its end. */
  ghost predicate Anchors(sorted: seq<Reading>, yearStart: real, nextYear: real, start: int, end: int) {
    && 0 <= start < |sorted| && 0 <= end < |sorted|
    && sorted[start].at <= yearStart && (forall i :: start < i < |sorted| ==> sorted[i].at > yearStart)
    && sorted[end].at >= nextYear && (forall i :: 0 <= i < end ==> sorted[i].at < nextYear)
  }

  /** All readings between the anchors rise, by a positive amount that covers the business distance. */
  ghost predicate Plausible(sorted: seq<Reading>, start: Reading, end: Reading, business: real) {
    && StrictlyIncreasing(Within(sorted, start.at, end.at))
    && end.odometer - start.odometer >= business && end.odometer - start.odometer > 0.0
  }

  datatype Span = NoAnchors | Ignored | Trusted(delta: real)

  /** A span is trusted exactly when every reading between the anchors is higher than all before it,
      and the span is positive and not less than the business distance. */
  ghost predicate SpanOk(sorted: seq<Reading>, yearStart: real, nextYear: real, business: real, span: Span) {
    match span
    case NoAnchors => (forall r :: r in sorted ==> r.at > yearStart) || (forall r :: r in sorted ==> r.at < nextYear)
    case Ignored => exists i, j ::
      Anchors(sorted, yearStart, nextYear, i, j) && !Plausible(sorted, sorted[i], sorted[j], business)
    case Trusted(delta) => exists i, j ::
      Anchors(sorted, yearStart, nextYear, i, j) && Plausible(sorted, sorted[i], sorted[j], business)
      && delta == sorted[j].odometer - sorted[i].odometer
  }

  lemma AnchorsAreUnique(sorted: seq<Reading>, yearStart: real, nextYear: real, i: int, j: int, start: int, end: int)
    requires Anchors(sorted, yearStart, nextYear, i, j) && Anchors(sorted, yearStart, nextYear, start, end)
    ensures i == start && j == end
  {
  }

  /** The readings and the business distance leave no choice. */
  lemma SpanIsUnique(sorted: seq<Reading>, yearStart: real, nextYear: real, business: real, one: Span, other: Span)
    requires SpanOk(sorted, yearStart, nextYear, business, one) && SpanOk(sorted, yearStart, nextYear, business, other)
    ensures one == other
  {
    hide Plausible;
    forall i, j, start, end | Anchors(sorted, yearStart, nextYear, i, j) && Anchors(sorted, yearStart, nextYear, start, end)
      ensures i == start && j == end
    {
      AnchorsAreUnique(sorted, yearStart, nextYear, i, j, start, end);
    }
  }

  method OdometerSpan(sorted: seq<Reading>, yearStart: real, nextYear: real, business: real) returns (span: Span)
    requires InOrder(sorted)
    ensures SpanOk(sorted, yearStart, nextYear, business, span)
  {
    var starts, ends := UpTo(sorted, yearStart), Before(sorted, nextYear);
    CutsAtTheTime(sorted, yearStart);
    CutsAtTheTime(sorted, nextYear);
    if starts == 0 || ends == |sorted| {
      return NoAnchors;
    }
    var startAnchor, endAnchor := sorted[starts - 1], sorted[ends];
    assert Anchors(sorted, yearStart, nextYear, starts - 1, ends);
    var bracket := Within(sorted, startAnchor.at, endAnchor.at);
    var increasing := Increases(bracket);
    var delta := endAnchor.odometer - startAnchor.odometer;
    if increasing && delta >= business && delta > 0.0 {
      return Trusted(delta);
    }
    return Ignored;
  }

  /** Every reading against the one before it. */
  method Increases(bracket: seq<Reading>) returns (r: bool)
    ensures r <==> StrictlyIncreasing(bracket)
  {
    var i := 1;
    while i < |bracket|
      invariant 1 <= i && (|bracket| >= 1 ==> i <= |bracket|)
      invariant forall j, k :: 0 <= j < k < i && k < |bracket| ==> bracket[j].odometer < bracket[k].odometer
    {
      if bracket[i].odometer <= bracket[i - 1].odometer {
        return false;
      }
      i := i + 1;
    }
    return true;
  }

  // -------- one vehicle --------

  datatype Source = Gps | Odometer

  datatype Larger = Actual | Standard | Tie

  datatype Line = Line(
    vehicle: VehicleId, business: real, denominator: real, source: Source, provisional: bool, invalidOdometer: bool,
    pct: Option<real>, useBased: real, fully: real, standard: Option<real>, actual: Option<real>,
    difference: Option<real>, larger: Option<Larger>)

  function Share(x: real, pct: real): real {
    x * pct
  }

  /** The odometer is used exactly when its span is trusted, and reported as invalid exactly when it is ignored. */
  predicate Uses(span: Span, gps: real, denominator: real, source: Source, invalid: bool) {
    && (source == Odometer <==> span.Trusted?) && (invalid <==> span.Ignored?)
    && denominator == if span.Trusted? then span.delta else gps
  }

  /** What a comparison promises about one vehicle. */
  ghost predicate LineOk(l: Line, sorted: seq<Reading>, yearStart: real, nextYear: real, gps: real) {
    && 0.0 <= l.business
    && (l.provisional <==> l.source == Gps)
    && (exists span :: SpanOk(sorted, yearStart, nextYear, l.business, span)
                       && Uses(span, gps, l.denominator, l.source, l.invalidOdometer))
    && (l.pct.None? <==> l.denominator <= 0.0)
    && (l.pct.Some? ==> 0.0 <= l.pct.value <= 1.0 && Share(l.denominator, l.pct.value) == l.business)
    && (l.actual.Some? <==> l.pct.Some?)
    && (l.actual.Some? ==> l.fully <= l.actual.value <= l.useBased + l.fully)
    && (l.larger.Some? <==> l.standard.Some? && l.actual.Some?) && (l.difference.Some? <==> l.larger.Some?)
    && (l.larger.Some? ==>
          && (l.larger.value == Actual <==> l.actual.value > l.standard.value)
          && (l.larger.value == Standard <==> l.actual.value < l.standard.value)
          && l.difference.value == if l.actual.value > l.standard.value then l.actual.value - l.standard.value
                                   else l.standard.value - l.actual.value)
  }

  /** A share of the useBased expenses, rounded, stays between nothing and all of them. */
  lemma ActualWithinSpent(useBased: real, fully: real, pct: real)
    requires IsCents(useBased) && IsCents(fully) && useBased >= 0.0 && 0.0 <= pct <= 1.0
    ensures fully <= Money(Share(useBased, pct) + fully) <= useBased + fully
  {
    hide IsCents, Money, Share;
    SumOfCents(useBased, fully);
    ShareIsPart(useBased, pct);
    MoneyIsNear(Share(useBased, pct) + fully, fully);
    MoneyIsNear(Share(useBased, pct) + fully, useBased + fully);
  }

  lemma ShareIsPart(x: real, pct: real)
    requires x >= 0.0 && 0.0 <= pct <= 1.0
    ensures 0.0 <= Share(x, pct) <= x
  {
  }

  function Quotient(a: real, b: real): real
    requires b > 0.0
  {
    a / b
  }

  lemma QuotientInUnit(a: real, b: real)
    requires 0.0 <= a <= b && b > 0.0
    ensures 0.0 <= Quotient(a, b) <= 1.0 && Share(b, Quotient(a, b)) == a
  {
  }

  /** Rounding keeps the difference of whole cents. */
  lemma DifferenceOfCents(a: real, b: real)
    requires IsCents(a) && IsCents(b)
    ensures Money(a - b) == a - b
  {
    NegatedCents(b);
    SumOfCents(a, -b);
    MoneyOfCents(a - b);
  }

  /** The choice of the denominator and the business share. */
  method ChooseShare(business: real, gps: real, sorted: seq<Reading>, yearStart: real, nextYear: real)
    returns (denominator: real, source: Source, invalid: bool, pct: Option<real>)
    requires InOrder(sorted) && 0.0 <= business <= gps
    ensures exists span :: SpanOk(sorted, yearStart, nextYear, business, span) && Uses(span, gps, denominator, source, invalid)
    ensures pct.None? <==> denominator <= 0.0
    ensures pct.Some? ==> 0.0 <= pct.value <= 1.0 && Share(denominator, pct.value) == business
  {
    hide Share, Quotient;
    var span := OdometerSpan(sorted, yearStart, nextYear, business);
    denominator, source, pct := gps, Gps, None;
    if span.Trusted? {
      denominator, source := span.delta, Odometer;
    }
    if denominator > 0.0 {
      QuotientInUnit(business, denominator);
      pct := Some(Quotient(business, denominator));
    }
    invalid := span.Ignored?;
  }

  /** The two estimates, if there are both, and which is larger. */
  method ChooseLarger(standard: Option<real>, actual: Option<real>) returns (difference: Option<real>,
        larger: Option<Larger>)
    requires (standard.Some? ==> IsCents(standard.value)) && (actual.Some? ==> IsCents(actual.value))
    ensures (larger.Some? <==> standard.Some? && actual.Some?) && (difference.Some? <==> larger.Some?)
    ensures larger.Some? ==>
              && (larger.value == Actual <==> actual.value > standard.value)
              && (larger.value == Standard <==> actual.value < standard.value)
              && difference.value == if actual.value > standard.value then actual.value - standard.value
                                     else standard.value - actual.value
  {
    hide IsCents, Money;
    difference, larger := None, None;
    if standard.Some? && actual.Some? {
      var a, b := actual.value, standard.value;
      DifferenceOfCents(a, b);
      DifferenceOfCents(b, a);
      difference := Some(Money(if a > b then a - b else b - a));
      larger := Some(if a > b then Actual else if b > a then Standard else Tie);
    }
  }

  /** The part of build_expense_report for one vehicle. standardBase is the standard deduction of the business
      distance, if it has one. */
  method Compare(v: VehicleId, business: real, gps: real, sorted: seq<Reading>, yearStart: real, nextYear: real,
                 useBasedSum: real, fullySum: real, standardBase: Option<real>) returns (l: Line)
    requires InOrder(sorted) && 0.0 <= business <= gps && useBasedSum >= 0.0
    ensures l.vehicle == v && l.useBased == Money(useBasedSum) && l.fully == Money(fullySum) && l.business == business
    ensures LineOk(l, sorted, yearStart, nextYear, gps)
    ensures l.pct.Some? ==> l.actual == Some(Money(Share(l.useBased, l.pct.value) + l.fully))
    ensures l.standard == if standardBase.Some? then Some(Money(standardBase.value + l.fully))
                          else if business == 0.0 then Some(Money(l.fully)) else None
  {
    hide IsCents, Money, Share, SpanOk, Uses;
    var denominator, source, invalid, pct := ChooseShare(business, gps, sorted, yearStart, nextYear);
    var useBased, fully := Money(useBasedSum), Money(fullySum);
    ZeroIsCents();
    MoneyIsNear(useBasedSum, 0.0);
    var standard: Option<real>, actual: Option<real> := None, None;
    if standardBase.Some? {
      standard := Some(Money(standardBase.value + fully));
    } else if business == 0.0 {
      standard := Some(Money(fully));
    }
    if pct.Some? {
      ActualWithinSpent(useBased, fully, pct.value);
      actual := Some(Money(Share(useBased, pct.value) + fully));
    }
    var difference, larger := ChooseLarger(standard, actual);
    l := Line(v, business, denominator, source, source == Gps, invalid, pct, useBased, fully,
              standard, actual, difference, larger);
  }

  // -------- the report --------

  datatype Report = Report(
    lines: seq<Line>, categories: Tally<Category>, useBasedTotal: real, fullyTotal: real, ledgerTotal: real,
    tripExpenses: Tally<TripId>, attributions: seq<Attribution>)

  /** The keys of both, without repetition. */
  function Union(a: seq<VehicleId>, b: seq<VehicleId>): (r: seq<VehicleId>)
    ensures forall v :: v in r <==> v in a || v in b
  {
    if b == [] then a
    else
      var n := |b| - 1;
      var front := Union(a, b[..n]);
      if b[n] in front then front else front + [b[n]]
  }

  lemma {:induction false} UnionIsDistinct(a: seq<VehicleId>, b: seq<VehicleId>)
    requires Distinct(a)
    ensures Distinct(Union(a, b))
  {
    if b != [] {
      UnionIsDistinct(a, b[..|b| - 1]);
    }
  }

  function RoundAll<K>(t: Tally<K>): Tally<K> {
    Tally(t.keys, map k | k in t.of :: Money(t.of[k]))
  }

  lemma RoundedCents<K(!new)>(t: Tally<K>)
    requires forall k :: k in t.of ==> IsCents(t.of[k])
    ensures RoundAll(t) == t
  {
    forall k | k in t.of
      ensures Money(t.of[k]) == t.of[k]
    {
      MoneyOfCents(t.of[k]);
    }
  }

  /** What is recorded on the lines. */
  function LineTotal(lines: seq<Line>): real {
    if lines == [] then 0.0
    else LineTotal(lines[..|lines| - 1]) + (lines[|lines| - 1].useBased + lines[|lines| - 1].fully)
  }

  ghost predicate LinesOf(lines: seq<Line>, ids: seq<VehicleId>, s: Sums) {
    && |lines| == |ids|
    && forall i :: 0 <= i < |lines| ==>
         lines[i].vehicle == ids[i]
         && lines[i].useBased == Money(Get(s.useBased, ids[i])) && lines[i].fully == Money(Get(s.fully, ids[i]))
  }

  lemma {:induction false} LinesAddUp(lines: seq<Line>, ids: seq<VehicleId>, s: Sums)
    requires LinesOf(lines, ids, s)
    requires forall v :: IsCents(Get(s.useBased, v)) && IsCents(Get(s.fully, v))
    ensures LineTotal(lines) == SumOver(ids, s.useBased) + SumOver(ids, s.fully)
  {
    hide IsCents, Money, Get;
    if lines != [] {
      var n := |lines| - 1;
      assert LinesOf(lines[..n], ids[..n], s);
      LinesAddUp(lines[..n], ids[..n], s);
      MoneyOfCents(Get(s.useBased, ids[n]));
      MoneyOfCents(Get(s.fully, ids[n]));
      SumSnoc(ids[..n], ids[n], s.useBased);
      SumSnoc(ids[..n], ids[n], s.fully);
      assert ids == ids[..n] + [ids[n]];
    }
  }

  /** Amounts in whole cents are conserved: by category, by vehicle and in the ledger total. */
  ghost predicate Conserved(r: Report, expenses: seq<Expense>, year: nat) {
    && r.ledgerTotal == Spent(expenses, InYear, year)
    && Total(r.categories) == r.ledgerTotal
    && LineTotal(r.lines) == r.ledgerTotal
    && r.useBasedTotal + r.fullyTotal == r.ledgerTotal
    && (forall c :: Get(r.categories, c) == Spent(expenses, OfCategory(c), year))
    && (forall t :: Get(r.tripExpenses, t) == Spent(expenses, OfTrip(t), year))
    && (forall t :: AttributedTo(r.attributions, t) == Get(r.tripExpenses, t))
  }

  lemma AllCents(expenses: seq<Expense>, year: nat, s: Sums)
    requires WholeCents(expenses) && Summed(expenses, year, s)
    ensures forall v :: IsCents(Get(s.useBased, v)) && IsCents(Get(s.fully, v))
    ensures forall k :: k in s.categories.of ==> IsCents(s.categories.of[k])
    ensures forall k :: k in s.trips.of ==> IsCents(s.trips.of[k])
  {
    hide IsCents, Spent;
    forall v: VehicleId
      ensures IsCents(Get(s.useBased, v)) && IsCents(Get(s.fully, v))
    {
      SpentIsCents(expenses, OfVehicle(v, Allocated), year);
      SpentIsCents(expenses, OfVehicle(v, FullyBusiness), year);
    }
    forall c: Category | c in s.categories.of
      ensures IsCents(s.categories.of[c])
    {
      SpentIsCents(expenses, OfCategory(c), year);
      assert Get(s.categories, c) == s.categories.of[c];
    }
    forall t: TripId | t in s.trips.of
      ensures IsCents(s.trips.of[t])
    {
      SpentIsCents(expenses, OfTrip(t), year);
      assert Get(s.trips, t) == s.trips.of[t];
    }
  }

  lemma {:induction false} SumIsCents<K(!new)>(keys: seq<K>, t: Tally<K>)
    requires forall k :: IsCents(Get(t, k))
    ensures IsCents(SumOver(keys, t))
  {
    hide IsCents, Get;
    if keys == [] {
      ZeroIsCents();
    } else {
      SumIsCents(keys[1..], t);
      SumOfCents(Get(t, keys[0]), SumOver(keys[1..], t));
    }
  }

  /** The sums over the dictionaries are the sums over the lines. */
  lemma LinesConserve(lines: seq<Line>, ids: seq<VehicleId>, s: Sums)
    requires Sound(s.useBased) && Sound(s.fully) && LinesOf(lines, ids, s) && Distinct(ids)
    requires forall v :: v in s.useBased.of || v in s.fully.of ==> v in ids
    requires forall v :: IsCents(Get(s.useBased, v)) && IsCents(Get(s.fully, v))
    ensures LineTotal(lines) == Total(s.useBased) + Total(s.fully)
    ensures IsCents(Total(s.useBased)) && IsCents(Total(s.fully))
  {
    hide IsCents, Money, SumOver, LineTotal, LinesOf;
    LinesAddUp(lines, ids, s);
    OnlyKeysCount(ids, s.useBased.keys, s.useBased);
    OnlyKeysCount(ids, s.fully.keys, s.fully);
    SumIsCents(s.useBased.keys, s.useBased);
    SumIsCents(s.fully.keys, s.fully);
  }

  lemma ReportConserves(r: Report, ids: seq<VehicleId>, expenses: seq<Expense>, tripsById: map<TripId, Trip>, year: nat,
                        s: Sums)
    requires WholeCents(expenses) && Summed(expenses, year, s)
    requires r.attributions == Attributions(expenses, tripsById, year)
    requires LinesOf(r.lines, ids, s) && Distinct(ids) && forall v :: v in s.useBased.of || v in s.fully.of ==> v in ids
    requires r.categories == RoundAll(s.categories) && r.tripExpenses == RoundAll(s.trips)
    requires r.useBasedTotal == Money(Total(s.useBased)) && r.fullyTotal == Money(Total(s.fully))
    requires r.ledgerTotal == Money(r.useBasedTotal + r.fullyTotal)
    ensures Conserved(r, expenses, year)
  {
    hide IsCents, Money, Spent, Total, RoundAll, LineTotal, LinesOf, WholeCents, Sound, Distinct, HasExpense, Attributions;
    AllCents(expenses, year, s);
    forall t: TripId
      ensures AttributedTo(r.attributions, t) == Spent(expenses, OfTrip(t), year)
    {
      AttributionsAddUp(expenses, tripsById, year, t);
    }
    RoundedCents(s.categories);
    RoundedCents(s.trips);
    LinesConserve(r.lines, ids, s);
    MoneyOfCents(Total(s.useBased));
    MoneyOfCents(Total(s.fully));
    SumOfCents(r.useBasedTotal, r.fullyTotal);
    MoneyOfCents(r.useBasedTotal + r.fullyTotal);
  }

  /** The line of a vehicle, against the trips, expenses and readings it is made from. */
  ghost predicate LineFor(l: Line, trips: seq<Trip>, expenses: seq<Expense>, readings: seq<Reading>, year: nat,
                          yearStart: real, nextYear: real, rates: map<nat, YearRate>)
  {
    && l.business == Distance(trips, l.vehicle, year, true)
    && l.useBased == Money(Spent(expenses, OfVehicle(l.vehicle, Allocated), year))
    && l.fully == Money(Spent(expenses, OfVehicle(l.vehicle, FullyBusiness), year))
    && LineOk(l, SortByTime(OfVehicleOnly(readings, l.vehicle)), yearStart, nextYear, Distance(trips, l.vehicle, year, false))
    && l.standard == (if Published(rates, year) && (exists k :: HasBusiness(trips, l.vehicle, year, k))
                      then Some(Money(WorthOfTrips(trips, l.vehicle, year, rates) + l.fully))
                      else if l.business == 0.0 then Some(Money(l.fully)) else None)
    && Priced(trips, l.vehicle, year, rates, WorthOfTrips(trips, l.vehicle, year, rates))
    && (l.pct.Some? ==> l.actual == Some(Money(Share(l.useBased, l.pct.value) + l.fully)))
  }

  /** The comparison of one vehicle from the dictionaries. */
  method CompareVehicle(v: VehicleId, ghost trips: seq<Trip>, ghost expenses: seq<Expense>, readings: seq<Reading>, year: nat,
                        yearStart: real, nextYear: real, gps: Tally<VehicleId>, business: Tally<VehicleId>,
                        byMonth: map<VehicleId, Tally<nat>>, s: Sums, rates: map<nat, YearRate>) returns (l: Line)
    requires NonNegative(trips) && Positive(expenses)
    requires TripsTallied(trips, year, gps, business) && AllMonthsTallied(trips, year, byMonth) && Entries(expenses, year, s)
    ensures l.vehicle == v && LineFor(l, trips, expenses, readings, year, yearStart, nextYear, rates)
    ensures l.useBased == Money(Get(s.useBased, v)) && l.fully == Money(Get(s.fully, v))
  {
    hide LineOk, IsCents, Money, Share, Distance, Spent, SortByTime, Get, MonthsTallied, Published, HasBusiness, WorthOfTrips;
    hide Priced;
    TripsArePriced(trips, v, year, rates);
    var sorted := SortByTime(OfVehicleOnly(readings, v));
    SortByTimeSorts(OfVehicleOnly(readings, v));
    BusinessWithinTotal(trips, v, year);
    SpentIsPositive(expenses, OfVehicle(v, Allocated), year);
    var standardBase := StandardBase(trips, v, MonthsOf(byMonth, v), year, rates);
    l := Compare(v, Get(business, v), Get(gps, v), sorted, yearStart, nextYear,
                 Get(s.useBased, v), Get(s.fully, v), standardBase);
  }

  /** The vehicles of the year: those that were driven, and those with an expense. */
  lemma ReportedVehicles(ids: seq<VehicleId>, trips: seq<Trip>, expenses: seq<Expense>, year: nat,
                         gps: Tally<VehicleId>, business: Tally<VehicleId>, s: Sums)
    requires TripsTallied(trips, year, gps, business) && Summed(expenses, year, s)
    requires ids == Union(Union(gps.keys, s.useBased.keys), s.fully.keys)
    ensures Distinct(ids)
    ensures forall v :: v in ids <==> HasDrive(trips, v, year) || HasExpense(expenses, v, year)
    ensures forall v :: v in s.useBased.of || v in s.fully.of ==> v in ids
  {
    hide Distance, Spent, Entries, Total, Union, HasDrive, HasExpense;
    UnionIsDistinct(gps.keys, s.useBased.keys);
    UnionIsDistinct(Union(gps.keys, s.useBased.keys), s.fully.keys);
  }

  /** build_expense_report. */
  method BuildReport(trips: seq<Trip>, expenses: seq<Expense>, readings: seq<Reading>, year: nat,
                     yearStart: real, nextYear: real, rates: map<nat, YearRate>) returns (r: Report)
    requires NonNegative(trips) && Positive(expenses)
    ensures WholeCents(expenses) ==> Conserved(r, expenses, year)
    ensures r.attributions == Attributions(expenses, TripsById(trips), year)
    ensures forall i, j :: 0 <= i < j < |r.lines| ==> r.lines[i].vehicle != r.lines[j].vehicle
    ensures forall v :: (HasDrive(trips, v, year) || HasExpense(expenses, v, year))
                   <==> exists i :: 0 <= i < |r.lines| && r.lines[i].vehicle == v
    ensures forall i :: 0 <= i < |r.lines| ==> LineFor(r.lines[i], trips, expenses, readings, year, yearStart, nextYear, rates)
  {
    hide LineFor, TripsTallied, AllMonthsTallied, Entries, Money, RoundAll, SumOver, Conserved, HasDrive, HasExpense;
    hide WholeCents, Get, Add;
    hide Attributions, TripsById;
    var gps, business, byMonth := TallyTrips(trips, year);
    var tripsById := IndexTrips(trips);
    var s, attributions := TallyExpenses(expenses, tripsById, year);
    var ids := Union(Union(gps.keys, s.useBased.keys), s.fully.keys);
    ReportedVehicles(ids, trips, expenses, year, gps, business, s);
    var lines: seq<Line> := [];
    while |lines| < |ids|
      invariant |lines| <= |ids| && LinesOf(lines, ids[..|lines|], s)
      invariant forall i :: 0 <= i < |lines| ==> LineFor(lines[i], trips, expenses, readings, year, yearStart, nextYear, rates)
      decreases |ids| - |lines|
    {
      var v := ids[|lines|];
      var line := CompareVehicle(v, trips, expenses, readings, year, yearStart, nextYear, gps, business, byMonth, s, rates);
      lines := lines + [line];
    }
    assert ids[..|lines|] == ids;
    var useBasedTotal, fullyTotal := Money(Total(s.useBased)), Money(Total(s.fully));
    r := Report(lines, RoundAll(s.categories), useBasedTotal, fullyTotal, Money(useBasedTotal + fullyTotal), RoundAll(s.trips),
                attributions);
    LinesNameVehicles(lines, ids, s);
    if WholeCents(expenses) {
      ReportConserves(r, ids, expenses, tripsById, year, s);
    }
  }

  lemma LinesNameVehicles(lines: seq<Line>, ids: seq<VehicleId>, s: Sums)
    requires LinesOf(lines, ids, s) && Distinct(ids)
    ensures forall v :: v in ids <==> exists i :: 0 <= i < |lines| && lines[i].vehicle == v
    ensures forall i, j :: 0 <= i < j < |lines| ==> lines[i].vehicle != lines[j].vehicle
  {
    forall v: VehicleId | v in ids
      ensures exists i :: 0 <= i < |lines| && lines[i].vehicle == v
    {
      var i :| 0 <= i < |ids| && ids[i] == v;
      assert lines[i].vehicle == v;
    }
  }
}
