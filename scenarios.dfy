/** Concrete trips worked through the model: the base fare is 20 and the
    clock reads 09:00 on Wednesday the 11th. */
module Scenarios {
  import opened Trip
  import opened Sums
  import opened Validation
  import opened Pricing
  import opened Discounts
  import opened Calendar
  import opened Estimator

  const Wednesday11th: Clock := Clock(10 * Day + 9 * Hour, 0, 11, 3)

  function FareOf20(): PriceService
  {
    (from, to, when) => Some(20.0)
  }

  function Adult(): Passenger
  {
    Passenger(28.0, {}, None)
  }

  function BordeauxToParis(when: int, passengers: seq<Passenger>): TripRequest
  {
    TripRequest(TripDetails("Bordeaux", "Paris", when), passengers)
  }

  lemma ValidTrip(when: int, passengers: seq<Passenger>)
    requires when >= StartOfToday(Wednesday11th)
    requires AgesValid(passengers)
    ensures Validate(BordeauxToParis(when, passengers), StartOfToday(Wednesday11th)) == None
  {
    NotBlank("Bordeaux");
    NotBlank("Paris");
  }

  /** One passenger's trip costs that passenger's price and, without cards,
      nothing else. */
  lemma LoneTraveller(when: int, p: Passenger)
    requires when >= StartOfToday(Wednesday11th) && p.age >= 18.0 && p.discounts == {}
    ensures Quote(BordeauxToParis(when, [p]), FareOf20(), Wednesday11th)
         == Ok(PassengerFare(p, 20.0, when, Wednesday11th.now))
  {
    ValidTrip(when, [p]);
    assert FareOf20()("Bordeaux", "Paris", when) == Some(20.0);
    QuoteOk(BordeauxToParis(when, [p]), FareOf20(), Wednesday11th, 20.0);
    SumSingleton(p, q => PassengerFare(q, 20.0, when, Wednesday11th.now));
    assert !AnyHolds([p], Family) && !AnyHolds([p], HalfCouple);
  }

  /** An adult leaving in 6 days pays 120% of the fare plus 14 days short of
      20 at 2% each: 24 + 5.6. */
  lemma AdultSixDaysAhead()
    ensures Quote(BordeauxToParis(Wednesday11th.now + 6 * Day, [Adult()]), FareOf20(), Wednesday11th)
         == Ok(29.6)
  {
    var when := Wednesday11th.now + 6 * Day;
    LoneTraveller(when, Adult());
    assert Abs(when - Wednesday11th.now) == 6 * Day;
    assert CeilDays(6 * Day) == 6;
    assert DateModifier(when, Wednesday11th.now, 20.0) == 14.0 * (0.02 * 20.0);
    assert AgePrice(Adult(), 20.0) == 24.0;
  }

  /** An adult leaving in 7 hours, or in 5 days, pays the fallback: 24 + 20. */
  lemma AdultWithinFiveDays(when: int)
    requires when == Wednesday11th.now + 7 * Hour || when == Wednesday11th.now + 5 * Day
    ensures Quote(BordeauxToParis(when, [Adult()]), FareOf20(), Wednesday11th) == Ok(44.0)
  {
    LoneTraveller(when, Adult());
  }

  /** Two families and an unrelated adult: the test at
      src/train-estimator.spec.ts:296-306. */
  function TwoFamiliesAndAnAdult(): seq<Passenger>
  {
    [Passenger(28.0, {Family}, Some("Dupont")), Passenger(25.0, {}, Some("Dupont")),
     Passenger(37.0, {Family}, Some("Martin")), Passenger(2.0, {}, Some("Martin")),
     Adult()]
  }

  lemma FiveTerms(ps: seq<Passenger>, f: Passenger -> real)
    requires |ps| == 5
    ensures Sum(ps, f) == f(ps[0]) + f(ps[1]) + f(ps[2]) + f(ps[3]) + f(ps[4])
  {
    assert ps[..1][..0] == [];
    assert Sum(ps[..1], f) == f(ps[0]);
    assert ps[..2][..1] == ps[..1];
    assert Sum(ps[..2], f) == Sum(ps[..1], f) + f(ps[1]);
    assert ps[..3][..2] == ps[..2];
    assert Sum(ps[..3], f) == Sum(ps[..2], f) + f(ps[2]);
    assert ps[..4][..3] == ps[..3];
    assert Sum(ps[..4], f) == Sum(ps[..3], f) + f(ps[3]);
    assert ps[..4] == ps[..|ps| - 1];
  }

  /** Three adults at 20 each 31 days ahead, a child of 2 at 9, and the
      unrelated adult at 20: 89 before discounts. */
  lemma TwoFamiliesTotal(when: int)
    requires when == Wednesday11th.now + 31 * Day
    ensures TotalFare(TwoFamiliesAndAnAdult(), 20.0, when, Wednesday11th.now) == 89.0
  {
    var ps := TwoFamiliesAndAnAdult();
    var price := q => PassengerFare(q, 20.0, when, Wednesday11th.now);
    FiveTerms(ps, price);
    assert DateModifier(when, Wednesday11th.now, 20.0) == -4.0;
  }

  /** Both last names are family names; the family discount takes 6 off each
      of the three family adults and 2.7 off the child, and leaves the adult
      without a last name alone. */
  lemma TwoFamiliesChange()
    ensures FamilyLastNames(TwoFamiliesAndAnAdult()) == {"Dupont", "Martin"}
    ensures FamilyDelta(TwoFamiliesAndAnAdult(), {"Dupont", "Martin"}, 20.0) == -20.7
  {
    var ps := TwoFamiliesAndAnAdult();
    assert ps[0] in ps && ps[2] in ps;
    var names := {"Dupont", "Martin"};
    var change := q => if IsFamilyMember(q, names) then FamilyAdjustment(q, 20.0) else 0.0;
    FiveTerms(ps, change);
  }

  /** Two families travelling with an unrelated adult, 31 days ahead: 89
      less 20.7 is 68.3 (the unawaited test of this trip expects 71). */
  lemma TwoFamilies()
    ensures Quote(BordeauxToParis(Wednesday11th.now + 31 * Day, TwoFamiliesAndAnAdult()), FareOf20(), Wednesday11th)
         == Ok(68.3)
  {
    var when := Wednesday11th.now + 31 * Day;
    var ps := TwoFamiliesAndAnAdult();
    ValidTrip(when, ps);
    assert FareOf20()("Bordeaux", "Paris", when) == Some(20.0);
    QuoteOk(BordeauxToParis(when, ps), FareOf20(), Wednesday11th, 20.0);
    assert ps[0] in ps;
    TwoFamiliesTotal(when);
    TwoFamiliesChange();
  }

  /** Two employees holding Couple cards: each pays 1, and the couple
      discount still takes 40% of the fare off, leaving a negative price. */
  lemma EmployeeCouple()
    ensures Quote(BordeauxToParis(Wednesday11th.now + 31 * Day,
                    [Passenger(30.0, {TrainStroke, Couple}, None), Passenger(30.0, {TrainStroke, Couple}, None)]),
                  FareOf20(), Wednesday11th)
         == Ok(-6.0)
  {
    var when := Wednesday11th.now + 31 * Day;
    var p := Passenger(30.0, {TrainStroke, Couple}, None);
    ValidTrip(when, [p, p]);
    assert FareOf20()("Bordeaux", "Paris", when) == Some(20.0);
    QuoteOk(BordeauxToParis(when, [p, p]), FareOf20(), Wednesday11th, 20.0);
    var price := q => PassengerFare(q, 20.0, when, Wednesday11th.now);
    SumAppend([p], [p], price);
    SumSingleton(p, price);
    assert [p] + [p] == [p, p];
    assert p in [p, p];
    assert !AnyHolds([p, p], Family);
  }

  /** As written, on a Saturday the 2nd the date check rejects a departure the
      next day; with the start of today as the bound it is accepted. */
  lemma SaturdayTheSecond()
    ensures var c := Clock(Day + 9 * Hour, 0, 2, 6);
            var request := BordeauxToParis(c.now + Day, [Adult()]);
            Consistent(c)
            && Validate(request, CutoffAsWritten(c)) == Some(InvalidTripInput(DateInvalid))
            && Validate(request, StartOfToday(c)) == None
  {
    var c := Clock(Day + 9 * Hour, 0, 2, 6);
    NotBlank("Bordeaux");
    NotBlank("Paris");
  }
}
