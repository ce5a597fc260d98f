/** Standard mileage rates: app/rates.py. */
module MileageRates {
  import opened Common

  /** A year's rate; a change within the year starts with the first day of a month. */
  datatype YearRate = YearRate(perMile: real, secondHalf: Option<real>, secondHalfFrom: Option<nat>)

  const METERS_PER_MILE := 1609.344

  function RateOf(r: YearRate, month: nat): real {
    if r.secondHalf.Some? && r.secondHalfFrom.Some? && month >= r.secondHalfFrom.value then r.secondHalf.value else r.perMile
  }

  /** The latest year before this one that has a rate. */
  function LatestBefore(rates: map<nat, YearRate>, year: nat): (r: Option<nat>)
    ensures r.Some? ==> r.value in rates && r.value < year
    ensures forall y: nat :: y in rates && y < year ==> r.Some? && y <= r.value
  {
    if year == 0 then None
    else if year - 1 in rates then Some(year - 1)
    else LatestBefore(rates, year - 1)
  }

  function RateFor(rates: map<nat, YearRate>, year: nat, month: nat): Option<real> {
    if year in rates then Some(RateOf(rates[year], month))
    else match LatestBefore(rates, year)
      case Some(y) => Some(RateOf(rates[y], 12))
      case None => None
  }

  /** Some rate was published for the year or an earlier one. */
  ghost predicate Published(rates: map<nat, YearRate>, year: nat) {
    exists y: nat :: y in rates && y <= year
  }

  /** Within a year either every month has a rate, or none has. */
  lemma RateForAllMonths(rates: map<nat, YearRate>, year: nat, month: nat)
    ensures RateFor(rates, year, month).Some? <==> Published(rates, year)
  {
  }

  function Price(meters: real, rate: real): real {
    (meters / METERS_PER_MILE) * rate
  }

  function Deduction(meters: real, year: nat, rates: map<nat, YearRate>, month: nat): Option<real> {
    match RateFor(rates, year, month)
    case None => None
    case Some(rate) => Some(Price(meters, rate))
  }

  /** What a distance is worth, nothing if there is no rate. */
  function Worth(meters: real, year: nat, rates: map<nat, YearRate>, month: nat): real {
    match Deduction(meters, year, rates, month)
    case None => 0.0
    case Some(value) => value
  }

  lemma WorthAdds(a: real, b: real, year: nat, rates: map<nat, YearRate>, month: nat)
    ensures Worth(a + b, year, rates, month) == Worth(a, year, rates, month) + Worth(b, year, rates, month)
    ensures Worth(0.0, year, rates, month) == 0.0
  {
    hide LatestBefore;
    if RateFor(rates, year, month).Some? {
      PriceAdds(a, b, RateFor(rates, year, month).value);
    }
  }

  lemma PriceAdds(a: real, b: real, rate: real)
    ensures Price(a + b, rate) == Price(a, rate) + Price(b, rate)
    ensures Price(0.0, rate) == 0.0
  {
    var x, y := a / METERS_PER_MILE, b / METERS_PER_MILE;
    assert (a + b) / METERS_PER_MILE == x + y;
    assert (x + y) * rate == x * rate + y * rate;
  }
}
