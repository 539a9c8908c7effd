/** TrainTicketEstimator.estimate: validate, look up the base fare, sum the
    passengers' prices, apply the group discounts. */
module Estimator {
  import opened Trip
  import opened Validation
  import opened FareLookup
  import opened Pricing
  import opened Discounts
  import opened Calendar

  /** The price service: the `price` field of its answer for a trip from, to,
      at an instant; None when the answer carries no number. */
  type PriceService = (string, string, int) -> Option<real>

  /** The outcome of an estimate, as a value. */
  function Quote(request: TripRequest, service: PriceService, clock: Clock): (r: Result<real>)
    ensures r.Err? ==> r.error == ApiException || r.error.InvalidTripInput?
    ensures request.passengers == [] && r.Ok? ==> r.value == 0.0
  {
    match Validate(request, StartOfToday(clock))
    case Some(e) => Err(e)
    case None =>
      var d := request.details;
      match SncfPrice(service(d.from, d.to, d.when))
      case Err(e) => Err(e)
      case Ok(fare) =>
        Ok(TotalFare(request.passengers, fare, d.when, clock.now) + GroupAdjustment(request.passengers, fare))
  }

  /** estimate. The result of validateTripRequest is discarded, as in the
      source: an empty list of passengers skips the checks but not the lookup. */
  method Estimate(request: TripRequest, service: PriceService, clock: Clock) returns (r: Result<real>)
    ensures r == Quote(request, service, clock)
  {
    var invalid := Validate(request, StartOfToday(clock));
    if invalid.Some? {
      return Err(invalid.value);
    }
    var d := request.details;
    var sncfPrice := SncfPrice(service(d.from, d.to, d.when));
    if sncfPrice.Err? {
      return Err(sncfPrice.error);
    }
    var passengers := request.passengers;
    var total := 0.0;
    total := DefinePriceDependingAgeAndDate(total, sncfPrice.value, request, passengers, clock.now);
    total := ApplyDiscountCards(total, sncfPrice.value, passengers);
    assert total == TotalFare(passengers, sncfPrice.value, d.when, clock.now)
                  + GroupAdjustment(passengers, sncfPrice.value);
    return Ok(total);
  }

  /** Errors: a failed check is reported whatever the price service would
      answer; with valid input, a failed lookup is ApiException; nothing else
      fails. */
  lemma QuoteErrors(request: TripRequest, service: PriceService, service': PriceService, clock: Clock)
    ensures Validate(request, StartOfToday(clock)).Some? ==>
      Quote(request, service, clock) == Err(Validate(request, StartOfToday(clock)).value)
      == Quote(request, service', clock)
    ensures Quote(request, service, clock).Err? <==>
      Validate(request, StartOfToday(clock)).Some? ||
      SncfPrice(service(request.details.from, request.details.to, request.details.when)).Err?
    ensures Validate(request, StartOfToday(clock)).None? && Quote(request, service, clock).Err? ==>
      Quote(request, service, clock).error == ApiException
  {
  }

  /** With valid input, a usable answer from the price service is the base
      fare unchanged, and the estimate is the sum of the passengers' prices
      changed by the group discounts. */
  lemma QuoteOk(request: TripRequest, service: PriceService, clock: Clock, fare: real)
    requires Validate(request, StartOfToday(clock)).None?
    requires service(request.details.from, request.details.to, request.details.when) == Some(fare)
    requires fare != 0.0 && fare != -1.0
    ensures Quote(request, service, clock) ==
      Ok(TotalFare(request.passengers, fare, request.details.when, clock.now)
         + GroupAdjustment(request.passengers, fare))
  {
    assert SncfPrice(Some(fare)) == Ok(fare);
  }

  /** Without passengers the estimate is 0 whatever the trip details, unless
      the price lookup fails. */
  lemma NoPassengers(request: TripRequest, service: PriceService, clock: Clock)
    requires request.passengers == []
    ensures Quote(request, service, clock) ==
      if SncfPrice(service(request.details.from, request.details.to, request.details.when)).Err?
      then Err(ApiException) else Ok(0.0)
  {
    var d := request.details;
    var price := SncfPrice(service(d.from, d.to, d.when));
    if price.Ok? {
      assert !AnyHolds(request.passengers, Family);
      assert TotalFare(request.passengers, price.value, d.when, clock.now) == 0.0;
    }
  }

  /** The estimate does not depend on the order in which the passengers are
      listed. */
  lemma QuotePermutation(request: TripRequest, passengers: seq<Passenger>, service: PriceService, clock: Clock)
    requires multiset(passengers) == multiset(request.passengers)
    ensures Quote(request.(passengers := passengers), service, clock) == Quote(request, service, clock)
  {
    ValidatePermutation(request, passengers, StartOfToday(clock));
    var d := request.details;
    var price := SncfPrice(service(d.from, d.to, d.when));
    if price.Ok? {
      TotalFarePermutation(passengers, request.passengers, price.value, d.when, clock.now);
      GroupAdjustmentPermutation(passengers, request.passengers, price.value);
    }
  }

  /** With a non-negative base fare, a group in which somebody holds a Family
      card never gets a negative price. */
  lemma FamilyQuoteNonNegative(request: TripRequest, service: PriceService, clock: Clock, fare: real)
    requires AnyHolds(request.passengers, Family)
    requires service(request.details.from, request.details.to, request.details.when) == Some(fare)
    requires fare >= 0.0
    ensures Quote(request, service, clock).Ok? ==> Quote(request, service, clock).value >= 0.0
  {
    var d := request.details;
    assert SncfPrice(Some(fare)).Ok? ==> SncfPrice(Some(fare)).value == fare;
    FamilyTotalNonNegative(request.passengers, FamilyLastNames(request.passengers), fare, d.when, clock.now);
  }
}
