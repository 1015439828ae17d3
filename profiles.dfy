/**
 * The `Profile` model: the one-to-one extension of a user with a gender,
 * a latitude and a longitude, and the directed `lovers` relation between
 * profiles.  Field validation is modelled on the values the fields receive;
 * the relation is a set of ordered pairs held by a `Database` object that
 * the views update in place.
 */
module Profiles {
  import opened Wrappers
  import opened Digits

  // ---------------------------------------------------------------------
  // Gender: a two-letter text choice

  datatype Gender = Male | Female

  const GenderMaxLength := 2

  /** The stored code of each choice. */
  function GenderCode(g: Gender): string
  {
    match g
    case Male => "M"
    case Female => "F"
  }

  datatype GenderError = NotAChoice

  /** Validation of the raw `gender` value against the declared choices. */
  function CleanGender(raw: string): (r: Result<Gender, GenderError>)
    ensures r.Success? <==> raw == "M" || raw == "F"
    ensures r.Success? ==> GenderCode(r.value) == raw && |raw| <= GenderMaxLength
  {
    if raw == "M" then Success(Male)
    else if raw == "F" then Success(Female)
    else Failure(NotAChoice)
  }

  lemma GenderRoundTrip(g: Gender)
    ensures CleanGender(GenderCode(g)) == Success(g)
    ensures |GenderCode(g)| <= GenderMaxLength
  {
  }

  // ---------------------------------------------------------------------
  // Coordinates: decimal fields with 16 digits, 13 of them after the point,
  // bounded by -180 and 180

  const MaxDigits := 16
  const DecimalPlaces := 13
  const MinCoordinate := -180
  const MaxCoordinate := 180

  /**
   * A finite decimal as a sign, a coefficient's digits and an exponent:
   * the number (-1)^negative * Value(digits) * 10^exponent.  Python's
   * `Decimal.as_tuple()` only ever yields canonical coefficients; the digit
   * counts below are those of the validator for canonical decimals.
   */
  datatype Decimal = Decimal(negative: bool, digits: seq<Digit>, exponent: int)

  /** At least one digit, and no leading zero unless the coefficient is 0. */
  predicate Canonical(d: Decimal)
  {
    |d.digits| >= 1 && (d.digits[0] != 0 || |d.digits| == 1)
  }

  /** Digits after the decimal point. */
  function Places(d: Decimal): nat
  {
    if d.exponent >= 0 then 0 else -d.exponent
  }

  /**
   * Digits the number needs in all: a positive exponent adds trailing
   * zeros; a negative exponent larger than the coefficient adds leading
   * zeros after the point.
   */
  function DigitCount(d: Decimal): nat
  {
    if d.exponent >= 0 then |d.digits| + d.exponent
    else if Places(d) > |d.digits| then Places(d)
    else |d.digits|
  }

  function WholeDigits(d: Decimal): int
  {
    DigitCount(d) - Places(d)
  }

  /** The decimal is exactly Numerator(d) / 10^Places(d). */
  function Numerator(d: Decimal): int
  {
    var magnitude := Value(d.digits) * Pow10(if d.exponent >= 0 then d.exponent else 0);
    if d.negative then -magnitude else magnitude
  }

  predicate WellShaped(d: Decimal)
  {
    && DigitCount(d) <= MaxDigits
    && Places(d) <= DecimalPlaces
    && WholeDigits(d) <= MaxDigits - DecimalPlaces
  }

  predicate InCoordinateRange(d: Decimal)
  {
    MinCoordinate * Pow10(Places(d)) <= Numerator(d) <= MaxCoordinate * Pow10(Places(d))
  }

  datatype CoordinateError =
    | BelowMinimum
    | AboveMaximum
    | TooManyDigits
    | TooManyDecimalPlaces
    | TooManyWholeDigits

  /** The shape check reports only the first rule it finds broken. */
  function ShapeErrors(d: Decimal): (errs: set<CoordinateError>)
    ensures errs == {} <==> WellShaped(d)
    ensures |errs| <= 1
    ensures TooManyDigits in errs <==> DigitCount(d) > MaxDigits
    ensures TooManyDecimalPlaces in errs <==> DigitCount(d) <= MaxDigits && Places(d) > DecimalPlaces
    ensures TooManyWholeDigits in errs <==>
      DigitCount(d) <= MaxDigits && Places(d) <= DecimalPlaces && WholeDigits(d) > MaxDigits - DecimalPlaces
    ensures BelowMinimum !in errs && AboveMaximum !in errs
  {
    if DigitCount(d) > MaxDigits then {TooManyDigits}
    else if Places(d) > DecimalPlaces then {TooManyDecimalPlaces}
    else if WholeDigits(d) > MaxDigits - DecimalPlaces then {TooManyWholeDigits}
    else {}
  }

  /** All errors the validators of a latitude or longitude field report. */
  function CoordinateErrors(d: Decimal): (errs: set<CoordinateError>)
    ensures errs == {} <==> WellShaped(d) && InCoordinateRange(d)
    ensures BelowMinimum in errs <==> Numerator(d) < MinCoordinate * Pow10(Places(d))
    ensures AboveMaximum in errs <==> Numerator(d) > MaxCoordinate * Pow10(Places(d))
    ensures errs - {BelowMinimum, AboveMaximum} == ShapeErrors(d)
    ensures !(BelowMinimum in errs && AboveMaximum in errs)
  {
    var p := Pow10(Places(d));
    (if Numerator(d) < MinCoordinate * p then {BelowMinimum} else {})
    + (if Numerator(d) > MaxCoordinate * p then {AboveMaximum} else {})
    + ShapeErrors(d)
  }

  /** A well-shaped decimal has at most three digits before the point. */
  lemma WellShapedBelowThousand(d: Decimal)
    requires WellShaped(d)
    ensures -1000 * Pow10(Places(d)) < Numerator(d) < 1000 * Pow10(Places(d))
  {
    ValueBound(d.digits);
    var v := Value(d.digits);
    if d.exponent >= 0 {
      // DigitCount = |digits| + exponent <= 3
      Pow10Add(|d.digits|, d.exponent);
      Pow10Monotone(|d.digits| + d.exponent, 3);
      assert v * Pow10(d.exponent) < Pow10(|d.digits|) * Pow10(d.exponent);
      assert Pow10(3) == 1000;
    } else {
      var p := Places(d);
      // |digits| <= DigitCount = WholeDigits + p <= 3 + p
      Pow10Monotone(|d.digits|, 3 + p);
      Pow10Add(3, p);
      assert Pow10(3) == 1000;
    }
  }

  /** A coordinate as the database stores it: the decimal times 10^13. */
  predicate StoredCoordinate(n: int)
  {
    MinCoordinate * Pow10(DecimalPlaces) <= n <= MaxCoordinate * Pow10(DecimalPlaces)
  }

  lemma MulMonotone(a: int, b: int, c: nat)
    requires a <= b
    ensures a * c <= b * c
  {
  }

  /** Rescaling a value from p to p + q decimal places keeps it in range. */
  lemma ScaleUp(x: int, p: nat, q: nat)
    requires MinCoordinate * Pow10(p) <= x <= MaxCoordinate * Pow10(p)
    ensures MinCoordinate * Pow10(p + q) <= x * Pow10(q) <= MaxCoordinate * Pow10(p + q)
  {
    Pow10Add(p, q);
    var a, b := Pow10(p), Pow10(q);
    MulMonotone(MinCoordinate * a, x, b);
    MulMonotone(x, MaxCoordinate * a, b);
    assert MinCoordinate * a * b == MinCoordinate * (a * b);
    assert MaxCoordinate * a * b == MaxCoordinate * (a * b);
  }

  /** The number of a decimal with at most 13 places, scaled to 13 places. */
  function Scaled(d: Decimal): int
    requires Places(d) <= DecimalPlaces
  {
    Numerator(d) * Pow10(DecimalPlaces - Places(d))
  }

  lemma ShiftPlaces(x: int, p: nat, q: nat)
    ensures x * Pow10(q) * Pow10(p) == x * Pow10(p + q)
  {
    Pow10Add(p, q);
    var a, b := Pow10(q), Pow10(p);
    assert x * a * b == x * (b * a);
  }

  lemma ScaledIsSameNumber(d: Decimal)
    requires Places(d) <= DecimalPlaces
    ensures Scaled(d) * Pow10(Places(d)) == Numerator(d) * Pow10(DecimalPlaces)
    ensures InCoordinateRange(d) ==> StoredCoordinate(Scaled(d))
  {
    var p := Places(d);
    ShiftPlaces(Numerator(d), p, DecimalPlaces - p);
    if InCoordinateRange(d) {
      ScaleUp(Numerator(d), p, DecimalPlaces - p);
    }
  }

  /**
   * Validation of a latitude or longitude value: on success, the same
   * number scaled to 13 decimal places, as the field stores it.
   */
  function CleanCoordinate(d: Decimal): (r: Result<int, set<CoordinateError>>)
    ensures r.Success? <==> WellShaped(d) && InCoordinateRange(d)
    ensures r.Failure? ==> r.error != {}
    ensures r.Success? ==> r.value * Pow10(Places(d)) == Numerator(d) * Pow10(DecimalPlaces)
    ensures r.Success? ==> StoredCoordinate(r.value)
  {
    var errs := CoordinateErrors(d);
    if errs != {} then Failure(errs)
    else
      ScaledIsSameNumber(d);
      Success(Scaled(d))
  }

  /** The decimal a stored coordinate reads back as: 13 places after the point. */
  function FromStored(n: int): (d: Decimal)
    ensures Canonical(d) && Places(d) == DecimalPlaces
  {
    Decimal(n < 0, ToDigits(if n < 0 then -n else n), -DecimalPlaces)
  }

  lemma {:induction false} StoredRoundTrip(n: int)
    requires StoredCoordinate(n)
    ensures CleanCoordinate(FromStored(n)) == Success(n)
  {
    var m := if n < 0 then -n else n;
    var d := FromStored(n);
    assert Pow10(DecimalPlaces) == 10_000_000_000_000;
    assert Pow10(MaxDigits) == 10_000_000_000_000_000;
    ToDigitsValue(m);
    ToDigitsLength(m, MaxDigits);
    assert Places(d) == DecimalPlaces;
    assert Numerator(d) == n;
  }

  // ---------------------------------------------------------------------
  // The profile record

  /** Coordinates are kept as stored, scaled by 10^13. */
  datatype Profile = Profile(gender: Gender, latitude: int, longitude: int)

  predicate ValidProfile(p: Profile)
  {
    StoredCoordinate(p.latitude) && StoredCoordinate(p.longitude)
  }

  /** Errors per field, as a failed full validation reports them. */
  datatype ProfileErrors = ProfileErrors(
    gender: Option<GenderError>,
    latitude: set<CoordinateError>,
    longitude: set<CoordinateError>)

  function CleanProfile(gender: string, latitude: Decimal, longitude: Decimal): (r: Result<Profile, ProfileErrors>)
    ensures r.Success? <==> (gender == "M" || gender == "F") && CoordinateErrors(latitude) == {} && CoordinateErrors(longitude) == {}
    ensures r.Success? ==> ValidProfile(r.value) && GenderCode(r.value.gender) == gender
    ensures r.Success? ==> r.value.latitude * Pow10(Places(latitude)) == Numerator(latitude) * Pow10(DecimalPlaces)
    ensures r.Success? ==> r.value.longitude * Pow10(Places(longitude)) == Numerator(longitude) * Pow10(DecimalPlaces)
    ensures r.Failure? ==> (r.error.gender.Some? <==> gender != "M" && gender != "F")
    ensures r.Failure? ==> r.error.latitude == CoordinateErrors(latitude) && r.error.longitude == CoordinateErrors(longitude)
  {
    var g, lat, lon := CleanGender(gender), CleanCoordinate(latitude), CleanCoordinate(longitude);
    if g.Success? && lat.Success? && lon.Success? then
      Success(Profile(g.value, lat.value, lon.value))
    else
      Failure(ProfileErrors(
        if g.Failure? then Some(g.error) else None,
        CoordinateErrors(latitude),
        CoordinateErrors(longitude)))
  }

  lemma ProfileRoundTrip(p: Profile)
    requires ValidProfile(p)
    ensures CleanProfile(GenderCode(p.gender), FromStored(p.latitude), FromStored(p.longitude)) == Success(p)
  {
    GenderRoundTrip(p.gender);
    StoredRoundTrip(p.latitude);
    StoredRoundTrip(p.longitude);
  }

  // ---------------------------------------------------------------------
  // Users and the `lovers` relation

  type UserId = nat

  /** A user with the one profile that belongs to it. */
  datatype User = User(username: string, email: string, profile: Profile)

  /**
   * (rater, rated): the rater's profile is among `rated.profile.lovers`.
   * The relation is not symmetrical: the pair says nothing about the
   * reverse direction.
   */
  type Edge = (UserId, UserId)

  datatype Snapshot = Snapshot(users: map<UserId, User>, lovers: set<Edge>)

  /**
   * What the rating views keep true: nobody rated themselves, no pair has
   * rated each other in both directions, and every edge joins known users.
   */
  predicate Consistent(s: Snapshot)
  {
    forall e | e in s.lovers ::
      && e.0 != e.1
      && (e.1, e.0) !in s.lovers
      && e.0 in s.users && e.1 in s.users
  }

  /** `profile.lovers.all()` of user u: everyone who has rated u. */
  function Lovers(s: Snapshot, u: UserId): (r: set<UserId>)
    ensures forall v :: v in r <==> (v, u) in s.lovers
    ensures Consistent(s) ==> u !in r && r <= s.users.Keys
  {
    set e | e in s.lovers && e.1 == u :: e.0
  }

  /** Putting a in b's lovers leaves a's own lovers as they were. */
  lemma LoversDirected(s: Snapshot, a: UserId, b: UserId)
    requires a != b
    ensures Lovers(s.(lovers := s.lovers + {(a, b)}), b) == Lovers(s, b) + {a}
    ensures Lovers(s.(lovers := s.lovers + {(a, b)}), a) == Lovers(s, a)
  {
    var t := s.(lovers := s.lovers + {(a, b)});
    assert forall v :: v in Lovers(t, a) <==> v in Lovers(s, a);
    assert forall v :: v in Lovers(t, b) <==> v in Lovers(s, b) + {a};
  }

  /** The profile table: users with their profiles, and the relation. */
  class Database {
    var users: map<UserId, User>
    var lovers: set<Edge>

    /** A new table; no profile has lovers yet (the field may be blank). */
    constructor (users: map<UserId, User>)
      ensures this.users == users && lovers == {}
      ensures Valid()
    {
      this.users := users;
      lovers := {};
    }

    function State(): Snapshot
      reads this
    {
      Snapshot(users, lovers)
    }

    predicate Valid()
      reads this
    {
      Consistent(State())
    }

    /** `lover.profile in owner.profile.lovers.all()` */
    predicate IsLover(owner: UserId, lover: UserId)
      reads this
    {
      (lover, owner) in lovers
    }

    /** `owner.profile.lovers.add(lover.profile)`: adding a present pair changes nothing. */
    method AddLover(owner: UserId, lover: UserId)
      modifies this
      ensures lovers == old(lovers) + {(lover, owner)}
      ensures users == old(users)
    {
      lovers := lovers + {(lover, owner)};
    }

    /** `owner.profile.lovers.remove(lover.profile)`: removing an absent pair changes nothing. */
    method RemoveLover(owner: UserId, lover: UserId)
      modifies this
      ensures lovers == old(lovers) - {(lover, owner)}
      ensures users == old(users)
    {
      lovers := lovers - {(lover, owner)};
    }
  }
}
