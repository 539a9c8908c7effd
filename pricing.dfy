/** The price of each passenger: fixed prices for infants, young children and
    employees, otherwise an age tier adjusted by how far ahead the departure is
    (applyAgePriceModifier, applyDatePriceModifier, hasFixedPrice and the loop
    of definePriceDependingAgeAndDate). */
module Pricing {
  import opened Trip
  import opened Sums

  /** The estimator's childPrice field. */
  const ChildPrice: real := 9.0
  const EmployeePrice: real := 1.0
  const RisePeriodBeforeDeparture: int := 20

  function Abs(x: int): (r: nat)
    ensures r == x || r == -x
  {
    if x < 0 then -x else x
  }

  /** `Math.ceil(ms / dayInMilliseconds)`: the number of started days in ms. */
  function CeilDays(ms: int): (r: int)
    ensures (r - 1) * Day < ms <= r * Day
  {
    if ms % Day == 0 then ms / Day else ms / Day + 1
  }

  /** What applyDatePriceModifier adds to a passenger's price for a departure
      at `when`, bought at `now`: 20% of the fare off when the departure is at
      least 30 days or at most 6 hours away; 2% of the fare per day short of
      20 days (a discount beyond 20 days) when it is more than 5 days away;
      the whole fare again otherwise. */
  function DateModifier(when: int, now: int, fare: real): (r: real)
    ensures when >= now + 30 * Day || when <= now + 6 * Hour ==> r == -(0.2 * fare)
    ensures now + 6 * Hour < when <= now + 5 * Day ==> r == fare
    ensures now + 5 * Day < when < now + 30 * Day ==>
      r == (RisePeriodBeforeDeparture - CeilDays(when - now)) as real * (0.02 * fare)
  {
    if when >= now + 30 * Day || when <= now + 6 * Hour then -(fare * 0.2)
    else if when > now + 5 * Day then
      assert Abs(when - now) == when - now;
      (RisePeriodBeforeDeparture - CeilDays(Abs(when - now))) as real * (0.02 * fare)
    else fare
  }

  /** applyDatePriceModifier. The source advances one date object by 30 days
      and then moves the same object back by 25 days, so the rise window starts
      5 days after now. */
  method ApplyDatePriceModifier(temporaryPrice: real, fare: real, when: int, now: int) returns (r: real)
    ensures r == temporaryPrice + DateModifier(when, now, fare)
  {
    var currentDate := now;
    currentDate := currentDate + 30 * Day;
    var earlyPurchaseDate := currentDate;
    currentDate := currentDate - 25 * Day;
    var risePeriodPurchaseDate := currentDate;
    var lastHoursPurchaseDate := now + 6 * Hour;

    r := temporaryPrice;
    if when >= earlyPurchaseDate || when <= lastHoursPurchaseDate {
      r := r - fare * 0.2;
      return;
    }
    if when > risePeriodPurchaseDate {
      var daysBeforeDeparture := CeilDays(Abs(when - now));
      var sncfPriceRise := 0.02 * fare;
      var risePeriodModifier := RisePeriodBeforeDeparture - daysBeforeDeparture;
      r := r + risePeriodModifier as real * sncfPriceRise;
      return;
    }
    r := r + fare;
  }

  /** In the rise window (more than 5 and fewer than 30 days ahead) between 6
      and 30 days have started, so the change lies between -20% and +28% of the
      fare. */
  lemma RiseWindowBounds(when: int, now: int, fare: real)
    requires now + 5 * Day < when < now + 30 * Day
    requires fare >= 0.0
    ensures 6 <= CeilDays(Abs(when - now)) <= 30
    ensures -(0.2 * fare) <= DateModifier(when, now, fare) <= 0.28 * fare
  {
    var k := RisePeriodBeforeDeparture - CeilDays(Abs(when - now));
    var rise := 0.02 * fare;
    assert -10 <= k <= 14;
    assert DateModifier(when, now, fare) == (k as real) * rise;
    NonNegativeProduct((14 - k) as real, rise);
    NonNegativeProduct((k + 10) as real, rise);
  }

  lemma NonNegativeProduct(x: real, y: real)
    requires x >= 0.0 && y >= 0.0
    ensures x * y >= 0.0
  {
  }

  /** For a non-negative fare the date changes a price by between -20% and
      +100% of the fare. */
  lemma DateModifierBounds(when: int, now: int, fare: real)
    requires fare >= 0.0
    ensures -(0.2 * fare) <= DateModifier(when, now, fare) <= fare
  {
    if now + 5 * Day < when < now + 30 * Day {
      RiseWindowBounds(when, now, fare);
    }
  }

  /** The whole fare is added exactly for departures more than 6 hours and at
      most 5 days ahead: the rise window never adds that much. */
  lemma FallbackWindow(when: int, now: int, fare: real)
    requires fare > 0.0
    ensures DateModifier(when, now, fare) == fare <==> now + 6 * Hour < when <= now + 5 * Day
  {
    if now + 5 * Day < when < now + 30 * Day {
      RiseWindowBounds(when, now, fare);
    }
  }

  /** applyAgePriceModifier: 60% of the fare up to 17, 80% from 70 (60% with
      a Senior card), 120% in between. */
  function AgePrice(p: Passenger, fare: real): (r: real)
    ensures p.age <= 17.0 ==> r == 0.6 * fare
    ensures 17.0 < p.age < 70.0 ==> r == 1.2 * fare
    ensures p.age >= 70.0 ==> r == if Senior in p.discounts then 0.6 * fare else 0.8 * fare
    ensures fare >= 0.0 ==> 0.6 * fare <= r <= 1.2 * fare
  {
    if p.age <= 17.0 then fare * 0.6
    else if p.age >= 70.0 then
      (if Senior in p.discounts then fare * 0.8 - fare * 0.2 else fare * 0.8)
    else fare * 1.2
  }

  /** hasFixedPrice: every passenger without a fixed price is at least 4. */
  predicate HasFixedPrice(p: Passenger): (r: bool)
    ensures !r ==> p.age >= 4.0 && TrainStroke !in p.discounts
  {
    p.age < 4.0 || TrainStroke in p.discounts
  }

  /** The price of a fixed-price passenger: nothing under 1, otherwise 1 for an
      employee and the child price for the others. */
  function FixedPrice(p: Passenger): (r: real)
    requires HasFixedPrice(p)
    ensures r == 0.0 || r == EmployeePrice || r == ChildPrice
    ensures r == 0.0 <==> p.age < 1.0
  {
    if p.age < 1.0 then 0.0
    else if TrainStroke in p.discounts then EmployeePrice
    else ChildPrice
  }

  /** What one passenger adds to the total before group discounts. */
  function PassengerFare(p: Passenger, fare: real, when: int, now: int): (r: real)
    ensures HasFixedPrice(p) ==> r == 0.0 || r == EmployeePrice || r == ChildPrice
    ensures p.age < 1.0 ==> r == 0.0
  {
    if HasFixedPrice(p) then FixedPrice(p) else AgePrice(p, fare) + DateModifier(when, now, fare)
  }

  /** Fixed prices depend on neither the fare nor the dates: 0 under 1 year,
      else 1 for an employee, else 9 from 1 to under 4. */
  lemma FixedPriceIgnoresFareAndDate(p: Passenger, fare: real, when: int, now: int,
                                     fare': real, when': int, now': int)
    requires HasFixedPrice(p)
    ensures PassengerFare(p, fare, when, now) == PassengerFare(p, fare', when', now')
    ensures p.age < 1.0 ==> PassengerFare(p, fare, when, now) == 0.0
    ensures p.age >= 1.0 && TrainStroke in p.discounts ==> PassengerFare(p, fare, when, now) == 1.0
    ensures 1.0 <= p.age < 4.0 && TrainStroke !in p.discounts ==> PassengerFare(p, fare, when, now) == 9.0
  {
  }

  /** For a non-negative fare nobody pays a negative price, and a passenger
      without a fixed price pays between 40% and 220% of the fare. */
  lemma PassengerFareBounds(p: Passenger, fare: real, when: int, now: int)
    requires fare >= 0.0
    ensures PassengerFare(p, fare, when, now) >= 0.0
    ensures !HasFixedPrice(p) ==> 0.4 * fare <= PassengerFare(p, fare, when, now) <= 2.2 * fare
  {
    DateModifierBounds(when, now, fare);
  }

  /** The sum of the passengers' prices; infants under 1 travel free. */
  function TotalFare(passengers: seq<Passenger>, fare: real, when: int, now: int): (r: real)
    ensures (forall p :: p in passengers ==> p.age < 1.0) ==> r == 0.0
  {
    var price := p => PassengerFare(p, fare, when, now);
    SumOfZeros(passengers, price);
    Sum(passengers, price)
  }

  /** The total before group discounts does not depend on the order of the
      passengers. */
  lemma TotalFarePermutation(passengers: seq<Passenger>, passengers': seq<Passenger>,
                             fare: real, when: int, now: int)
    requires multiset(passengers) == multiset(passengers')
    ensures TotalFare(passengers, fare, when, now) == TotalFare(passengers', fare, when, now)
  {
    SumPermutation(passengers, passengers', p => PassengerFare(p, fare, when, now));
  }

  /** definePriceDependingAgeAndDate: adds every passenger's price to total.
      As in the source, temporaryPrice carries over from one passenger to the
      next; every branch that adds it has overwritten it first. */
  method DefinePriceDependingAgeAndDate(total: real, fare: real, request: TripRequest,
                                        passengers: seq<Passenger>, now: int)
    returns (r: real)
    ensures r == total + TotalFare(passengers, fare, request.details.when, now)
  {
    var when := request.details.when;
    ghost var price := p => PassengerFare(p, fare, when, now);
    r := total;
    var temporaryPrice := fare;
    for i := 0 to |passengers|
      invariant r == total + Sum(passengers[..i], price)
    {
      assert passengers[..i + 1][..i] == passengers[..i];
      var passenger := passengers[i];
      if HasFixedPrice(passenger) {
        if passenger.age < 1.0 {
          continue;
        }
        if passenger.age > 0.0 && passenger.age < 4.0 {
          temporaryPrice := ChildPrice;
        }
        if TrainStroke in passenger.discounts {
          temporaryPrice := EmployeePrice;
        }
        r := r + temporaryPrice;
        continue;
      }
      temporaryPrice := AgePrice(passenger, fare);
      temporaryPrice := ApplyDatePriceModifier(temporaryPrice, fare, when, now);
      r := r + temporaryPrice;
    }
    assert passengers[..|passengers|] == passengers;
  }
}
