/**
 * Parsing one CSV row of the city import into a city record or an error
 * (`parse_csv_row` in fastapi-app/app/api/cities.py).
 *
 * The expected column order is
 *   city, city_ascii, lat, lng, country, iso2, iso3, admin_name, capital, population, id.
 */
module CityRows {
  import opened Wrappers
  import opened Text

  const ColumnCount: nat := 11

  /** An exact decimal value, as Python's `Decimal` holds a latitude or longitude. */
  type Decimal = real

  /**
   * The grammars of Python's `int()` and `Decimal()` string conversions, taken as given partial
   * functions: None where the conversion raises.
   */
  datatype NumberSyntax = NumberSyntax(parseInt: string -> Option<int>, parseDecimal: string -> Option<Decimal>)

  /** The dictionary a successfully parsed row becomes. */
  datatype CityRecord = CityRecord(
    id: int,
    city: string,
    cityAscii: string,
    lat: Decimal,
    lng: Decimal,
    country: string,
    iso2: Option<string>,
    iso3: Option<string>,
    adminName: Option<string>,
    capital: Option<string>,
    population: Option<int>)

  /** The `{"error": ...}` results, with the line number and the offending (cleaned) text. */
  datatype RowError =
    | WrongColumnCount(line: nat, found: nat)
    | InvalidId(line: nat, text: string)
    | InvalidLatitude(line: nat, text: string)
    | InvalidLongitude(line: nat, text: string)
  {
    /** The message stored under "error". */
    function Message(): (m: string)
      ensures "Linha " + NatToString(line) + ": " <= m
    {
      "Linha " + NatToString(line) + ": " +
      match this
      case WrongColumnCount(_, found) => "Esperado 11 colunas, encontrado " + NatToString(found)
      case InvalidId(_, text) => "ID inv\U{E1}lido: " + text
      case InvalidLatitude(_, text) => "Latitude inv\U{E1}lida: " + text
      case InvalidLongitude(_, text) => "Longitude inv\U{E1}lida: " + text
    }
  }

  /** `field.strip().strip('"')`: surrounding whitespace first, then surrounding double quotes. */
  function CleanField(field: string): string
  {
    Trim(Strip(field), IsQuote)
  }

  /** The comprehension `[field.strip().strip('"') for field in row]`. */
  function CleanRow(row: seq<string>): (clean: seq<string>)
    ensures |clean| == |row|
    ensures forall i :: 0 <= i < |row| ==> clean[i] == CleanField(row[i])
  {
    seq(|row|, i requires 0 <= i < |row| => CleanField(row[i]))
  }

  /** An empty optional text column becomes None. */
  function NonEmpty(s: string): Option<string>
  {
    if s == [] then None else Some(s)
  }

  /** Population is optional: blank gives None, and so does text `int()` rejects. */
  function Population(field: string, syntax: NumberSyntax): (p: Option<int>)
    ensures p.Some? <==> Strip(field) != [] && syntax.parseInt(field).Some?
    ensures p.Some? ==> p == syntax.parseInt(field)
  {
    if Strip(field) != [] then syntax.parseInt(field) else None
  }

  /** `parse_csv_row`. */
  function ParseCsvRow(row: seq<string>, line: nat, syntax: NumberSyntax): (r: Result<CityRecord, RowError>)
    ensures |row| != ColumnCount ==> r == Err(WrongColumnCount(line, |row|))
    ensures r.Ok? ==> ValidRecord(r.value)
  {
    if |row| != ColumnCount then Err(WrongColumnCount(line, |row|))
    else ParseCleanRow(CleanRow(row), line, syntax)
  }

  /** The checks and conversions `parse_csv_row` applies once the eleven columns are cleaned. */
  function ParseCleanRow(clean: seq<string>, line: nat, syntax: NumberSyntax): (r: Result<CityRecord, RowError>)
    requires |clean| == ColumnCount
    ensures r.Ok? ==> ValidRecord(r.value)
  {
    match syntax.parseInt(clean[10])
    case None => Err(InvalidId(line, clean[10]))
    case Some(id) =>
      match syntax.parseDecimal(clean[2])
      case None => Err(InvalidLatitude(line, clean[2]))
      case Some(lat) =>
        match syntax.parseDecimal(clean[3])
        case None => Err(InvalidLongitude(line, clean[3]))
        case Some(lng) => Ok(BuildRecord(clean, id, lat, lng, syntax))
  }

  /** The dictionary literal at the end of `parse_csv_row`. */
  function BuildRecord(clean: seq<string>, id: int, lat: Decimal, lng: Decimal, syntax: NumberSyntax): (c: CityRecord)
    requires |clean| == ColumnCount
    ensures ValidRecord(c)
  {
    UpperLength(clean[5]);
    UpperLength(clean[6]);
    UpperIdempotent(clean[5]);
    UpperIdempotent(clean[6]);
    CityRecord(
      id, clean[0], clean[1], lat, lng, clean[4],
      if clean[5] == [] then None else Some(Upper(clean[5])),
      if clean[6] == [] then None else Some(Upper(clean[6])),
      NonEmpty(clean[7]), NonEmpty(clean[8]),
      Population(clean[9], syntax))
  }

  /** What every parsed record satisfies: optional text is absent or non-empty, codes are upper case. */
  predicate ValidRecord(c: CityRecord)
  {
    && (c.iso2.Some? ==> c.iso2.value != [] && Upper(c.iso2.value) == c.iso2.value)
    && (c.iso3.Some? ==> c.iso3.value != [] && Upper(c.iso3.value) == c.iso3.value)
    && (c.adminName.Some? ==> c.adminName.value != [])
    && (c.capital.Some? ==> c.capital.value != [])
  }

  /**
   * The fields are checked in a fixed order, id, then lat, then lng, and the first failure is the
   * one reported; a row is accepted exactly when all three convert.
   */
  lemma ErrorPriority(row: seq<string>, line: nat, syntax: NumberSyntax)
    requires |row| == ColumnCount
    ensures var c := CleanRow(row);
            var r := ParseCsvRow(row, line, syntax);
            && (r == Err(InvalidId(line, c[10])) <==> syntax.parseInt(c[10]).None?)
            && (r == Err(InvalidLatitude(line, c[2])) <==>
                  syntax.parseInt(c[10]).Some? && syntax.parseDecimal(c[2]).None?)
            && (r == Err(InvalidLongitude(line, c[3])) <==>
                  syntax.parseInt(c[10]).Some? && syntax.parseDecimal(c[2]).Some? && syntax.parseDecimal(c[3]).None?)
            && (r.Ok? <==>
                  syntax.parseInt(c[10]).Some? && syntax.parseDecimal(c[2]).Some? && syntax.parseDecimal(c[3]).Some?)
  {
  }

  /** Any two rows that differ only in the population column are accepted or rejected alike. */
  lemma PopulationNeverRejects(row: seq<string>, other: seq<string>, line: nat, syntax: NumberSyntax)
    requires |row| == |other| == ColumnCount
    requires forall i :: 0 <= i < ColumnCount && i != 9 ==> row[i] == other[i]
    ensures ParseCsvRow(row, line, syntax).Err? ==> ParseCsvRow(other, line, syntax) == ParseCsvRow(row, line, syntax)
    ensures ParseCsvRow(row, line, syntax).Ok? ==>
              && ParseCsvRow(other, line, syntax).Ok?
              && ParseCsvRow(other, line, syntax).value
                 == ParseCsvRow(row, line, syntax).value.(population := ParseCsvRow(other, line, syntax).value.population)
  {
    var c, d := CleanRow(row), CleanRow(other);
    assert forall i :: 0 <= i < ColumnCount && i != 9 ==> c[i] == d[i];
    CleanPopulationNeverRejects(c, d, line, syntax);
  }

  lemma CleanPopulationNeverRejects(c: seq<string>, d: seq<string>, line: nat, syntax: NumberSyntax)
    requires |c| == |d| == ColumnCount
    requires forall i :: 0 <= i < ColumnCount && i != 9 ==> c[i] == d[i]
    ensures ParseCleanRow(c, line, syntax).Err? ==> ParseCleanRow(d, line, syntax) == ParseCleanRow(c, line, syntax)
    ensures ParseCleanRow(c, line, syntax).Ok? ==>
              && ParseCleanRow(d, line, syntax).Ok?
              && ParseCleanRow(d, line, syntax).value
                 == ParseCleanRow(c, line, syntax).value.(population := ParseCleanRow(d, line, syntax).value.population)
  {
    assert c[10] == d[10] && c[2] == d[2] && c[3] == d[3];
    assert c[0] == d[0] && c[1] == d[1] && c[4] == d[4] && c[5] == d[5] && c[6] == d[6] && c[7] == d[7] && c[8] == d[8];
  }

  /**
   * Every text field of an accepted row is the cleaned column; iso2 and iso3 are upper-cased;
   * empty optional columns become None; population is the converted column when it is not blank.
   */
  lemma AcceptedRecordFields(row: seq<string>, line: nat, syntax: NumberSyntax)
    requires ParseCsvRow(row, line, syntax).Ok?
    ensures var c := CleanRow(row);
            var rec := ParseCsvRow(row, line, syntax).value;
            && syntax.parseInt(c[10]) == Some(rec.id)
            && syntax.parseDecimal(c[2]) == Some(rec.lat)
            && syntax.parseDecimal(c[3]) == Some(rec.lng)
            && rec.city == CleanField(row[0]) && rec.cityAscii == CleanField(row[1]) && rec.country == CleanField(row[4])
            && rec.iso2 == (if c[5] == [] then None else Some(Upper(c[5])))
            && rec.iso3 == (if c[6] == [] then None else Some(Upper(c[6])))
            && rec.adminName == (if c[7] == [] then None else Some(c[7]))
            && rec.capital == (if c[8] == [] then None else Some(c[8]))
            && rec.population == (if Strip(c[9]) == [] then None else syntax.parseInt(c[9]))
  {
  }
}
