/** The values a fare estimate is computed from: the trip, its passengers, their
    discount cards, and the two kinds of error the estimator raises. */
module Trip {

  /** A value that may be missing (an optional field, a lookup that found nothing). */
  datatype Option<+T> = None | Some(value: T)

  /** The outcome of an estimate: a price, or the error the estimator raised. */
  datatype Result<+T> = Ok(value: T) | Err(error: EstimateError)

  /** The discount cards a passenger may hold; TrainStroke is the employee card. */
  datatype DiscountCard = Senior | TrainStroke | Couple | HalfCouple | Family

  /** A passenger: an age in years (possibly fractional), the cards held and an
      optional last name, used only to form family groups. */
  datatype Passenger = Passenger(age: real, discounts: set<DiscountCard>, lastName: Option<string>)

  /** Where from, where to, and the departure instant in milliseconds. */
  datatype TripDetails = TripDetails(from: string, to: string, when: int)

  datatype TripRequest = TripRequest(details: TripDetails, passengers: seq<Passenger>)

  /** InvalidTripInputException with its message, and ApiException. */
  datatype EstimateError = InvalidTripInput(message: string) | ApiException

  const Hour: int := 3_600_000
  /** dayInMilliseconds, 1000 * 3600 * 24. */
  const Day: int := 86_400_000

  const AgeInvalid: string := "Age is invalid"
  const StartCityInvalid: string := "Start city is invalid"
  const DestinationCityInvalid: string := "Destination city is invalid"
  const DateInvalid: string := "Date is invalid"

  /** `passengers.some(p => p.discounts.includes(card))` */
  predicate AnyHolds(passengers: seq<Passenger>, card: DiscountCard)
  {
    exists p :: p in passengers && card in p.discounts
  }
}
