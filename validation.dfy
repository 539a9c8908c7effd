/** validateTripRequest: four ordered checks on a trip request, skipped
    altogether when there are no passengers. */
module Validation {
  import opened Trip

  /** The characters String.prototype.trim removes: ECMAScript's WhiteSpace
      (tab, vertical tab, form feed, space, no-break space, byte order mark and
      the Unicode space separators) and LineTerminator characters. */
  predicate IsTrimmable(c: char)
  {
    c == '\t' || c == '\n' || c == '\U{000B}' || c == '\U{000C}' || c == '\r' || c == ' '
    || c == '\U{00A0}' || c == '\U{1680}' || ('\U{2000}' <= c <= '\U{200A}')
    || c == '\U{2028}' || c == '\U{2029}' || c == '\U{202F}' || c == '\U{205F}'
    || c == '\U{3000}' || c == '\U{FEFF}'
  }

  /** s without its leading trimmable characters. */
  function TrimStart(s: string): (r: string)
    ensures |r| <= |s|
    decreases |s|
  {
    if |s| > 0 && IsTrimmable(s[0]) then TrimStart(s[1..]) else s
  }

  /** s without its trailing trimmable characters. */
  function TrimEnd(s: string): (r: string)
    ensures |r| <= |s|
    decreases |s|
  {
    if |s| > 0 && IsTrimmable(s[|s| - 1]) then TrimEnd(s[..|s| - 1]) else s
  }

  /** TrimStart drops a prefix of trimmable characters, and what it keeps does
      not start with one. */
  lemma {:induction false} TrimStartSpec(s: string)
    ensures |TrimStart(s)| <= |s| && TrimStart(s) == s[|s| - |TrimStart(s)|..]
    ensures forall i :: 0 <= i < |s| - |TrimStart(s)| ==> IsTrimmable(s[i])
    ensures TrimStart(s) == [] || !IsTrimmable(TrimStart(s)[0])
    decreases |s|
  {
    if |s| > 0 && IsTrimmable(s[0]) {
      TrimStartSpec(s[1..]);
    }
  }

  /** TrimEnd drops a suffix of trimmable characters, and what it keeps does
      not end with one. */
  lemma {:induction false} TrimEndSpec(s: string)
    ensures |TrimEnd(s)| <= |s| && TrimEnd(s) == s[..|TrimEnd(s)|]
    ensures forall i :: |TrimEnd(s)| <= i < |s| ==> IsTrimmable(s[i])
    ensures TrimEnd(s) == [] || !IsTrimmable(TrimEnd(s)[|TrimEnd(s)| - 1])
    decreases |s|
  {
    if |s| > 0 && IsTrimmable(s[|s| - 1]) {
      TrimEndSpec(s[..|s| - 1]);
    }
  }

  /** `s.trim()`: a piece of s that neither starts nor ends with a trimmable
      character. */
  function Trim(s: string): (r: string)
    ensures |r| <= |s|
    ensures r == [] || (!IsTrimmable(r[0]) && !IsTrimmable(r[|r| - 1]))
  {
    TrimStartSpec(s);
    TrimEndSpec(TrimStart(s));
    TrimEnd(TrimStart(s))
  }

  /** `!s.trim().length` */
  predicate Blank(s: string)
  {
    |Trim(s)| == 0
  }

  /** A city name is rejected exactly when it consists of trimmable characters
      only (the empty name included). */
  lemma BlankIffAllTrimmable(s: string)
    ensures Blank(s) <==> forall i :: 0 <= i < |s| ==> IsTrimmable(s[i])
  {
    var t := TrimStart(s);
    TrimStartSpec(s);
    TrimEndSpec(t);
    if |t| > 0 {
      assert t[0] == s[|s| - |t|];
    }
  }

  /** A name that starts with a character trim keeps is not blank. */
  lemma NotBlank(s: string)
    requires |s| > 0 && !IsTrimmable(s[0])
    ensures !Blank(s)
  {
    BlankIffAllTrimmable(s);
  }

  predicate AgesValid(passengers: seq<Passenger>)
  {
    forall p :: p in passengers ==> p.age >= 0.0
  }

  /** validateTripRequest: the first check that fails, as an error, or None.
      startOfToday is the instant the departure may not precede. */
  function Validate(request: TripRequest, startOfToday: int): (r: Option<EstimateError>)
    ensures |request.passengers| == 0 ==> r.None?
    ensures r.Some? ==>
      r.value.InvalidTripInput? &&
      r.value.message in {AgeInvalid, StartCityInvalid, DestinationCityInvalid, DateInvalid}
  {
    if |request.passengers| == 0 then None
    else if exists p :: p in request.passengers && p.age < 0.0 then Some(InvalidTripInput(AgeInvalid))
    else if Blank(request.details.from) then Some(InvalidTripInput(StartCityInvalid))
    else if Blank(request.details.to) then Some(InvalidTripInput(DestinationCityInvalid))
    else if request.details.when < startOfToday then Some(InvalidTripInput(DateInvalid))
    else None
  }

  /** The checks run in the order age, start city, destination city, date, and
      the error reported is the first that fails; an empty list of passengers
      passes whatever the trip details. */
  lemma ValidateOutcome(request: TripRequest, startOfToday: int)
    ensures Validate(request, startOfToday).None? <==>
      |request.passengers| == 0 ||
      (AgesValid(request.passengers) && !Blank(request.details.from) && !Blank(request.details.to)
       && request.details.when >= startOfToday)
    ensures Validate(request, startOfToday) == Some(InvalidTripInput(AgeInvalid)) <==>
      |request.passengers| > 0 && !AgesValid(request.passengers)
    ensures Validate(request, startOfToday) == Some(InvalidTripInput(StartCityInvalid)) <==>
      |request.passengers| > 0 && AgesValid(request.passengers) && Blank(request.details.from)
    ensures Validate(request, startOfToday) == Some(InvalidTripInput(DestinationCityInvalid)) <==>
      |request.passengers| > 0 && AgesValid(request.passengers) && !Blank(request.details.from)
      && Blank(request.details.to)
    ensures Validate(request, startOfToday) == Some(InvalidTripInput(DateInvalid)) <==>
      |request.passengers| > 0 && AgesValid(request.passengers) && !Blank(request.details.from)
      && !Blank(request.details.to) && request.details.when < startOfToday
  {
  }

  /** Validation looks at the passengers as a collection: reordering them does
      not change which check fails. */
  lemma ValidatePermutation(request: TripRequest, passengers: seq<Passenger>, startOfToday: int)
    requires multiset(passengers) == multiset(request.passengers)
    ensures Validate(request.(passengers := passengers), startOfToday) == Validate(request, startOfToday)
  {
    assert forall p :: p in passengers <==> p in request.passengers by {
      forall p ensures p in passengers <==> p in request.passengers {
        assert p in passengers <==> p in multiset(passengers);
        assert p in request.passengers <==> p in multiset(request.passengers);
      }
    }
    assert |passengers| == |multiset(passengers)| == |request.passengers|;
  }
}
