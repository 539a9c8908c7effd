/** applyDiscountCards: the group discounts applied once to the summed total,
    the family discount first and, only when nobody holds a Family card, the
    couple and half-couple discounts. */
module Discounts {
  import opened Trip
  import opened Sums
  import opened Pricing

  /** The distinct non-empty last names of the Family card holders. */
  function FamilyLastNames(passengers: seq<Passenger>): (r: set<string>)
    ensures forall n :: n in r ==>
      n != "" && exists p :: p in passengers && Family in p.discounts && p.lastName == Some(n)
    ensures forall p ::
      p in passengers && Family in p.discounts && p.lastName.Some? && p.lastName.value != "" ==>
      p.lastName.value in r
  {
    set p | p in passengers && p.lastName.Some? && p.lastName.value != "" && Family in p.discounts
      :: p.lastName.value
  }

  /** A passenger the family discount applies to: older than 1, carrying one
      of the family last names, and not an employee. */
  predicate IsFamilyMember(p: Passenger, names: set<string>): (r: bool)
    ensures r ==> p.age > 1.0 && (HasFixedPrice(p) ==> FixedPrice(p) == ChildPrice)
  {
    p.age > 1.0 && p.lastName.Some? && p.lastName.value in names && TrainStroke !in p.discounts
  }

  /** `passengers.filter(...)`: the passengers the family discount applies
      to, each as often as it occurs in the list, in their original order. */
  function FamilyMembers(passengers: seq<Passenger>, names: set<string>): (r: seq<Passenger>)
    ensures forall p :: p in r <==> p in passengers && IsFamilyMember(p, names)
    ensures forall p :: multiset(r)[p] == if IsFamilyMember(p, names) then multiset(passengers)[p] else 0
    decreases |passengers|
  {
    if |passengers| == 0 then []
    else
      var init, last := passengers[..|passengers| - 1], passengers[|passengers| - 1];
      assert passengers == init + [last];
      FamilyMembers(init, names) + (if IsFamilyMember(last, names) then [last] else [])
  }

  /** The change the family discount makes for one member: a Senior card
      holder of 70 or more gets 20% of the fare back, a child under 4 has 30% of
      the child price taken off, anyone from 4 on 30% of the fare. */
  function FamilyAdjustment(p: Passenger, fare: real): (r: real)
    ensures 0.0 < p.age < 4.0 ==> r == -2.7
    ensures p.age >= 4.0 && fare >= 0.0 ==> -(0.3 * fare) <= r <= -(0.1 * fare)
  {
    (if p.age >= 70.0 && Senior in p.discounts then fare * 0.2 else 0.0)
    + (if p.age > 0.0 && p.age < 4.0 then -(ChildPrice * 0.3) else 0.0)
    + (if p.age >= 4.0 then -(fare * 0.3) else 0.0)
  }

  /** The change the family discount makes to the total: each member's
      adjustment; everybody else contributes nothing. */
  function FamilyDelta(passengers: seq<Passenger>, names: set<string>, fare: real): (r: real)
    ensures (forall p :: p in passengers ==> !IsFamilyMember(p, names)) ==> r == 0.0
  {
    var adjustment := p => if IsFamilyMember(p, names) then FamilyAdjustment(p, fare) else 0.0;
    SumOfZeros(passengers, adjustment);
    Sum(passengers, adjustment)
  }

  /** Summing the adjustments over the filtered list gives the family change. */
  lemma {:induction false} FamilyMembersSum(passengers: seq<Passenger>, names: set<string>, fare: real)
    ensures Sum(FamilyMembers(passengers, names), p => FamilyAdjustment(p, fare))
         == FamilyDelta(passengers, names, fare)
    decreases |passengers|
  {
    if |passengers| > 0 {
      var init := passengers[..|passengers| - 1];
      var last := passengers[|passengers| - 1];
      FamilyMembersSum(init, names, fare);
      var tail := if IsFamilyMember(last, names) then [last] else [];
      SumAppend(FamilyMembers(init, names), tail, p => FamilyAdjustment(p, fare));
      if IsFamilyMember(last, names) {
        assert [last][..0] == [];
      }
    }
  }

  /** Adding a passenger who is not a family member anywhere in the list does
      not change the family discount. */
  lemma FamilyDeltaIgnoresOutsiders(before: seq<Passenger>, q: Passenger, after: seq<Passenger>,
                                    names: set<string>, fare: real)
    requires !IsFamilyMember(q, names)
    ensures FamilyDelta(before + [q] + after, names, fare) == FamilyDelta(before + after, names, fare)
  {
    var f := p => if IsFamilyMember(p, names) then FamilyAdjustment(p, fare) else 0.0;
    SumAppend(before + [q], after, f);
    SumAppend(before, [q], f);
    SumAppend(before, after, f);
    assert [q][..0] == [];
  }

  /** Neither the family names nor the family change depend on the order of
      the passengers. */
  lemma FamilyPermutation(passengers: seq<Passenger>, passengers': seq<Passenger>, fare: real)
    requires multiset(passengers) == multiset(passengers')
    ensures FamilyLastNames(passengers) == FamilyLastNames(passengers')
    ensures FamilyDelta(passengers, FamilyLastNames(passengers), fare)
         == FamilyDelta(passengers', FamilyLastNames(passengers'), fare)
  {
    forall p ensures p in passengers <==> p in passengers' {
      assert p in passengers <==> p in multiset(passengers);
      assert p in passengers' <==> p in multiset(passengers');
    }
    var names := FamilyLastNames(passengers);
    SumPermutation(passengers, passengers', p => if IsFamilyMember(p, names) then FamilyAdjustment(p, fare) else 0.0);
  }

  /** applyFamilyDiscount: the loop over the family members that changes the
      total. */
  method ApplyFamilyDiscount(total: real, fare: real, passengers: seq<Passenger>) returns (r: real)
    ensures r == total + FamilyDelta(passengers, FamilyLastNames(passengers), fare)
  {
    var familyLastNames := FamilyLastNames(passengers);
    var familyPassengers := FamilyMembers(passengers, familyLastNames);
    ghost var adjustment := p => FamilyAdjustment(p, fare);
    r := total;
    for i := 0 to |familyPassengers|
      invariant r == total + Sum(familyPassengers[..i], adjustment)
    {
      assert familyPassengers[..i + 1][..i] == familyPassengers[..i];
      var passenger := familyPassengers[i];
      if passenger.age >= 70.0 && Senior in passenger.discounts {
        r := r + fare * 0.2;
      }
      if passenger.age > 0.0 && passenger.age < 4.0 {
        r := r - ChildPrice * 0.3;
      }
      if passenger.age >= 4.0 {
        r := r - fare * 0.3;
      }
    }
    assert familyPassengers[..|familyPassengers|] == familyPassengers;
    FamilyMembersSum(passengers, familyLastNames, fare);
  }

  predicate NoMinor(passengers: seq<Passenger>)
  {
    forall p :: p in passengers ==> p.age >= 18.0
  }

  /** The couple rules, used only when nobody holds a Family card: two adult
      passengers, one of them with a Couple card, get 40% of the fare off; a
      single adult with a HalfCouple card gets 10% off; anything else nothing. */
  function CoupleAdjustment(passengers: seq<Passenger>, fare: real): (r: real)
    ensures fare >= 0.0 ==> -(0.4 * fare) <= r <= 0.0
    ensures |passengers| != 1 && |passengers| != 2 ==> r == 0.0
  {
    if |passengers| == 2 && NoMinor(passengers) && AnyHolds(passengers, Couple) then -(0.4 * fare)
    else if |passengers| == 1 && NoMinor(passengers) && AnyHolds(passengers, HalfCouple) then -(0.1 * fare)
    else 0.0
  }

  /** For a positive fare, the couple discount applies exactly to two adults
      of whom one holds a Couple card, the half-couple discount exactly to one
      adult holding a HalfCouple card, and any other group pays the sum. */
  lemma CoupleCases(passengers: seq<Passenger>, fare: real)
    requires fare > 0.0
    ensures CoupleAdjustment(passengers, fare) == -(0.4 * fare) <==>
      |passengers| == 2 && NoMinor(passengers) && AnyHolds(passengers, Couple)
    ensures CoupleAdjustment(passengers, fare) == -(0.1 * fare) <==>
      |passengers| == 1 && NoMinor(passengers) && AnyHolds(passengers, HalfCouple)
    ensures |passengers| != 1 && |passengers| != 2 ==> CoupleAdjustment(passengers, fare) == 0.0
    ensures !(|passengers| == 2 && NoMinor(passengers) && AnyHolds(passengers, Couple)) &&
            !(|passengers| == 1 && NoMinor(passengers) && AnyHolds(passengers, HalfCouple)) ==>
            CoupleAdjustment(passengers, fare) == 0.0
  {
  }

  /** The change the group discounts make to the summed total. */
  function GroupAdjustment(passengers: seq<Passenger>, fare: real): (r: real)
    ensures !AnyHolds(passengers, Family) && fare >= 0.0 ==> -(0.4 * fare) <= r <= 0.0
    ensures !AnyHolds(passengers, Family) && !AnyHolds(passengers, Couple) && !AnyHolds(passengers, HalfCouple)
      ==> r == 0.0
  {
    if AnyHolds(passengers, Family) then FamilyDelta(passengers, FamilyLastNames(passengers), fare)
    else CoupleAdjustment(passengers, fare)
  }

  /** applyDiscountCards: with any Family card the family discount alone,
      otherwise the couple rules. */
  method ApplyDiscountCards(total: real, fare: real, passengers: seq<Passenger>) returns (r: real)
    ensures AnyHolds(passengers, Family) ==>
      r == total + FamilyDelta(passengers, FamilyLastNames(passengers), fare)
    ensures !AnyHolds(passengers, Family) ==> r == total + CoupleAdjustment(passengers, fare)
  {
    if exists p :: p in passengers && Family in p.discounts {
      r := ApplyFamilyDiscount(total, fare, passengers);
      return;
    }
    r := total;
    var isMinor := exists p :: p in passengers && p.age < 18.0;
    if |passengers| == 2 {
      var isCouple := exists p :: p in passengers && Couple in p.discounts;
      if isCouple && !isMinor {
        r := r - fare * 0.2 * 2.0;
      }
    }
    if |passengers| == 1 {
      var isCouple := exists p :: p in passengers && HalfCouple in p.discounts;
      if isCouple && !isMinor {
        r := r - fare * 0.1;
      }
    }
  }

  /** The group discounts do not depend on the order of the passengers. */
  lemma GroupAdjustmentPermutation(passengers: seq<Passenger>, passengers': seq<Passenger>, fare: real)
    requires multiset(passengers) == multiset(passengers')
    ensures GroupAdjustment(passengers, fare) == GroupAdjustment(passengers', fare)
  {
    forall p ensures p in passengers <==> p in passengers' {
      assert p in passengers <==> p in multiset(passengers);
      assert p in passengers' <==> p in multiset(passengers');
    }
    assert |passengers| == |multiset(passengers)| == |passengers'|;
    FamilyPermutation(passengers, passengers', fare);
  }

  /** Every family member still pays a non-negative amount after the family
      adjustment: 6.3 for a child under 4, at least 10% of a non-negative fare
      from 4 on. */
  lemma MemberPriceNonNegative(p: Passenger, names: set<string>, fare: real, when: int, now: int)
    requires fare >= 0.0
    ensures PassengerFare(p, fare, when, now)
          + (if IsFamilyMember(p, names) then FamilyAdjustment(p, fare) else 0.0) >= 0.0
  {
    PassengerFareBounds(p, fare, when, now);
    DateModifierBounds(when, now, fare);
  }

  /** With a non-negative fare, a total that the family discount has reduced is
      never negative. */
  lemma {:induction false} FamilyTotalNonNegative(passengers: seq<Passenger>, names: set<string>,
                                                  fare: real, when: int, now: int)
    requires fare >= 0.0
    ensures TotalFare(passengers, fare, when, now) + FamilyDelta(passengers, names, fare) >= 0.0
    decreases |passengers|
  {
    if |passengers| > 0 {
      FamilyTotalNonNegative(passengers[..|passengers| - 1], names, fare, when, now);
      MemberPriceNonNegative(passengers[|passengers| - 1], names, fare, when, now);
    }
  }
}
