/**
 * The request schemas of a city (fastapi-app/app/schemas/city.py): the declared length bounds of
 * the text fields and the field validators of `iso2` and `iso3` on `CityBase` and `CityUpdate`.
 */
module CitySchema {
  import opened Wrappers
  import opened Text

  // Declared `max_length` (and, for the ISO codes, `min_length`) of each text field.
  const CityMaxLength: nat := 255
  const CityAsciiMaxLength: nat := 255
  const CountryMaxLength: nat := 255
  const Iso2Length: nat := 2
  const Iso3Length: nat := 3
  const AdminNameMaxLength: nat := 255
  const CapitalMaxLength: nat := 50

  const Iso2Message := "iso2 deve ter exatamente 2 caracteres"
  const Iso3Message := "iso3 deve ter exatamente 3 caracteres"

  /** A string that upper-casing leaves alone. */
  predicate IsUpper(s: string)
  {
    Upper(s) == s
  }

  /** The shape both `CityBase` validators share: a wrong length raises, otherwise the upper case. */
  function ValidateCode(v: string, n: nat, message: string): (r: Result<string, string>)
    ensures r.Ok? <==> |v| == n
    ensures r.Err? ==> r.error == message
    ensures r.Ok? ==> r.value == Upper(v)
    ensures r.Ok? ==> IsUpper(r.value) && |r.value| == n + multiset(v)['\U{DF}']
  {
    UpperIdempotent(v);
    UpperLength(v);
    if |v| != n then Err(message) else Ok(Upper(v))
  }

  /** `CityBase.validate_iso2`. */
  function ValidateIso2(v: string): (r: Result<string, string>)
    ensures r.Ok? <==> |v| == Iso2Length
    ensures r.Err? ==> r.error == Iso2Message
    ensures r.Ok? ==> r.value == Upper(v)
    ensures r.Ok? ==> IsUpper(r.value) && ('\U{DF}' !in v ==> |r.value| == Iso2Length)
  {
    ValidateCode(v, Iso2Length, Iso2Message)
  }

  /** `CityBase.validate_iso3`. */
  function ValidateIso3(v: string): (r: Result<string, string>)
    ensures r.Ok? <==> |v| == Iso3Length
    ensures r.Err? ==> r.error == Iso3Message
    ensures r.Ok? ==> r.value == Upper(v)
    ensures r.Ok? ==> IsUpper(r.value) && ('\U{DF}' !in v ==> |r.value| == Iso3Length)
  {
    ValidateCode(v, Iso3Length, Iso3Message)
  }

  /** The `CityUpdate` shape: None passes as None, a present value must have length n. */
  function ValidateOptionalCode(v: Option<string>, n: nat, message: string): (r: Result<Option<string>, string>)
    ensures v.None? ==> r == Ok(None)
  {
    if v.Some? && |v.value| != n then Err(message)
    else if v.Some? && v.value != [] then Ok(Some(Upper(v.value)))
    else Ok(None)
  }

  /** `CityUpdate.validate_iso2`. */
  function ValidateOptionalIso2(v: Option<string>): (r: Result<Option<string>, string>)
    ensures v.None? ==> r == Ok(None)
    ensures v.Some? ==> match ValidateIso2(v.value)
                        case Ok(u) => r == Ok(Some(u))
                        case Err(e) => r == Err(e)
  {
    ValidateOptionalCode(v, Iso2Length, Iso2Message)
  }

  /** `CityUpdate.validate_iso3`. */
  function ValidateOptionalIso3(v: Option<string>): (r: Result<Option<string>, string>)
    ensures v.None? ==> r == Ok(None)
    ensures v.Some? ==> match ValidateIso3(v.value)
                        case Ok(u) => r == Ok(Some(u))
                        case Err(e) => r == Err(e)
  {
    ValidateOptionalCode(v, Iso3Length, Iso3Message)
  }

  /** The text fields of a `CityBase` payload (lat, lng and population declare no bound). */
  datatype CityText = CityText(
    city: string, cityAscii: string, country: string, iso2: string, iso3: string,
    adminName: Option<string>, capital: Option<string>)

  /** The text fields of a `CityUpdate` payload, every one of them optional. */
  datatype CityUpdateText = CityUpdateText(
    city: Option<string>, cityAscii: Option<string>, country: Option<string>, iso2: Option<string>,
    iso3: Option<string>, adminName: Option<string>, capital: Option<string>)

  /** An optional field is absent or holds at most `n` characters. */
  predicate OptionalAtMost(v: Option<string>, n: nat)
  {
    v.None? || |v.value| <= n
  }

  /** An optional code is absent or holds exactly `n` characters. */
  predicate OptionalExactly(v: Option<string>, n: nat)
  {
    v.None? || |v.value| == n
  }

  /** The declared bounds of `CityBase`: `max_length` on every text field, `min_length` too on the codes. */
  predicate WithinBounds(c: CityText): (b: bool)
    ensures b <==> UpdateWithinBounds(AsUpdate(c))
  {
    && |c.city| <= CityMaxLength && |c.cityAscii| <= CityAsciiMaxLength && |c.country| <= CountryMaxLength
    && |c.iso2| == Iso2Length && |c.iso3| == Iso3Length
    && OptionalAtMost(c.adminName, AdminNameMaxLength) && OptionalAtMost(c.capital, CapitalMaxLength)
  }

  /** The declared bounds of `CityUpdate`, which hold vacuously for an absent field. */
  predicate UpdateWithinBounds(u: CityUpdateText): (b: bool)
    ensures b && u.iso2.Some? ==> |u.iso2.value| == Iso2Length
    ensures b && u.iso3.Some? ==> |u.iso3.value| == Iso3Length
    ensures u == CityUpdateText(None, None, None, None, None, None, None) ==> b
  {
    && OptionalAtMost(u.city, CityMaxLength) && OptionalAtMost(u.cityAscii, CityAsciiMaxLength)
    && OptionalAtMost(u.country, CountryMaxLength)
    && OptionalExactly(u.iso2, Iso2Length) && OptionalExactly(u.iso3, Iso3Length)
    && OptionalAtMost(u.adminName, AdminNameMaxLength) && OptionalAtMost(u.capital, CapitalMaxLength)
  }

  /** A `CityBase` payload sent as a `CityUpdate` that sets every field. */
  function AsUpdate(c: CityText): CityUpdateText
  {
    CityUpdateText(Some(c.city), Some(c.cityAscii), Some(c.country), Some(c.iso2), Some(c.iso3), c.adminName, c.capital)
  }

  /** Leaving fields out of an update never breaks its bounds. */
  lemma AbsentFieldsKeepBounds(u: CityUpdateText, v: CityUpdateText)
    requires UpdateWithinBounds(u)
    requires v.city in {None, u.city} && v.cityAscii in {None, u.cityAscii} && v.country in {None, u.country}
    requires v.iso2 in {None, u.iso2} && v.iso3 in {None, u.iso3}
    requires v.adminName in {None, u.adminName} && v.capital in {None, u.capital}
    ensures UpdateWithinBounds(v)
  {
  }

  /**
   * Validation of a `CityBase` payload: pydantic checks every field against its declared bounds
   * and then stores what the `iso2` and `iso3` validators return. None stands for the
   * `ValidationError`.
   */
  function ValidateCityBase(c: CityText): (r: Option<CityText>)
    ensures r.Some? <==> WithinBounds(c)
    ensures r.Some? ==> r.value == c.(iso2 := Upper(c.iso2), iso3 := Upper(c.iso3))
    ensures r.Some? ==> IsUpper(r.value.iso2) && IsUpper(r.value.iso3)
  {
    if !WithinBounds(c) then None
    else Some(c.(iso2 := ValidateIso2(c.iso2).value, iso3 := ValidateIso3(c.iso3).value))
  }

  /**
   * Validation of a `CityUpdate` payload: an absent field passes, a present one is checked against
   * its bounds, and a present code is stored upper-cased.
   */
  function ValidateCityUpdate(u: CityUpdateText): (r: Option<CityUpdateText>)
    ensures r.Some? <==> UpdateWithinBounds(u)
    ensures r.Some? ==> r.value == u.(iso2 := if u.iso2.Some? then Some(Upper(u.iso2.value)) else None,
                                      iso3 := if u.iso3.Some? then Some(Upper(u.iso3.value)) else None)
  {
    if !UpdateWithinBounds(u) then None
    else Some(u.(iso2 := ValidateOptionalIso2(u.iso2).value, iso3 := ValidateOptionalIso3(u.iso3).value))
  }

  /** Without 'ß', validating an already validated code gives it back unchanged. */
  lemma {:induction false} ValidateCodeIdempotent(v: string, n: nat, message: string)
    requires ValidateCode(v, n, message).Ok? && '\U{DF}' !in v
    ensures ValidateCode(ValidateCode(v, n, message).value, n, message) == ValidateCode(v, n, message)
  {
    UpperIdempotent(v);
  }

  /**
   * The validators check the length BEFORE upper-casing, and 'ß' upper-cases to "SS": the two-letter
   * code "ßa" is accepted as the three-letter "SSA", which breaks the declared bound and which
   * the same validator then rejects.
   */
  lemma UpperCaseLengthensCode()
    ensures ValidateIso2("\U{DF}a") == Ok("SSA") && |"SSA"| > Iso2Length
    ensures ValidateIso2("SSA").Err?
    ensures ValidateIso3("\U{DF}ab") == Ok("SSAB") && ValidateIso3("SSAB").Err?
  {
    assert UpperChar('a') == "A" && UpperChar('b') == "B";
    assert Upper("a") == "A" && Upper("b") == "B";
    assert "ab"[1..] == "b";
    assert Upper("ab") == "AB";
    assert "\U{DF}a"[1..] == "a" && "\U{DF}ab"[1..] == "ab";
    assert Upper("\U{DF}a") == "SS" + Upper("a");
    assert Upper("\U{DF}ab") == "SS" + Upper("ab");
    assert "SS" + "A" == "SSA" && "SS" + "AB" == "SSAB";
    assert ValidateIso2("\U{DF}a") == ValidateCode("\U{DF}a", Iso2Length, Iso2Message) == Ok("SSA");
    assert ValidateIso3("\U{DF}ab") == ValidateCode("\U{DF}ab", Iso3Length, Iso3Message) == Ok("SSAB");
  }

  /**
   * A `CityBase` payload that validation accepts can be stored outside its own declared bounds:
   * the iso2 code "ßa" passes the length check and is stored as "SSA".
   */
  lemma AcceptedPayloadBreaksBounds()
    ensures var c := CityText("Berlin", "Berlin", "Germany", "\U{DF}a", "DEU", None, None);
            && ValidateCityBase(c).Some?
            && ValidateCityBase(c).value.iso2 == "SSA"
            && !WithinBounds(ValidateCityBase(c).value)
  {
    UpperCaseLengthensCode();
    assert Upper("\U{DF}a") == "SSA";
  }

  /**
   * The evidently intended validator: the code must have length n both before and after
   * upper-casing. Every accepted code then has exactly n characters.
   */
  function ValidateCodeStrict(v: string, n: nat, message: string): (r: Result<string, string>)
    ensures r.Ok? <==> |v| == n && '\U{DF}' !in v
    ensures r.Ok? ==> r.value == Upper(v) && |r.value| == n && IsUpper(r.value)
  {
    UpperLength(v);
    UpperIdempotent(v);
    if |v| != n || |Upper(v)| != n then Err(message) else Ok(Upper(v))
  }

  /**
   * `CityBase` validation with the intended code check: every payload it accepts is stored within
   * the declared bounds, and it accepts exactly the payloads within bounds whose codes hold no 'ß'.
   */
  function ValidateCityBaseStrict(c: CityText): (r: Option<CityText>)
    ensures r.Some? <==> WithinBounds(c) && '\U{DF}' !in c.iso2 && '\U{DF}' !in c.iso3
    ensures r.Some? ==> WithinBounds(r.value) && IsUpper(r.value.iso2) && IsUpper(r.value.iso3)
    ensures r.Some? ==> r.value == c.(iso2 := Upper(c.iso2), iso3 := Upper(c.iso3))
  {
    if !WithinBounds(c) then None
    else
      match (ValidateCodeStrict(c.iso2, Iso2Length, Iso2Message), ValidateCodeStrict(c.iso3, Iso3Length, Iso3Message))
      case (Ok(i2), Ok(i3)) => Some(c.(iso2 := i2, iso3 := i3))
      case _ => None
  }

  /** The intended validator is idempotent on every code it accepts. */
  lemma ValidateCodeStrictIdempotent(v: string, n: nat, message: string)
    requires ValidateCodeStrict(v, n, message).Ok?
    ensures ValidateCodeStrict(ValidateCodeStrict(v, n, message).value, n, message) == ValidateCodeStrict(v, n, message)
  {
    var u := Upper(v);
    UpperIdempotent(v);
    UpperLength(u);
  }
}
