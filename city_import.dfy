/**
 * The CSV import of fastapi-app/app/api/cities.py: preparing a batch for the database
 * (`upsert_cities_batch`) and the row loop of `import_cities` with its batching and counters.
 *
 * The database is the `cities` table seen as a map from id to the stored row. Whether an upsert
 * raises depends on the database server, so it is an input: `fault(k)` is the exception text of
 * the k-th batch written, or None when that batch is committed. Part of it follows from the
 * schema: the `iso2` and `iso3` columns are NOT NULL, so a batch with a city lacking a code must
 * raise (`RespectsNotNull`).
 */
module CityImport {
  import opened Wrappers
  import opened Text
  import opened CityRows
  import CitySchema

  const BatchSize: nat := 5000
  const MaxErrorExamples: nat := 10

  /** One row of values handed to the INSERT: a record with every text value cut to its column width. */
  datatype CityValues = CityValues(
    id: int,
    city: string,
    cityAscii: string,
    lat: Decimal,
    lng: Decimal,
    country: string,
    iso2: Option<string>,
    iso3: Option<string>,
    adminName: Option<string>,
    capital: Option<string>,
    population: Option<int>)

  /** `v` is `s[:n]`: a prefix of `s` as long as `s` or `n`, whichever is shorter. */
  predicate IsTruncation(v: string, s: string, n: nat)
  {
    v <= s && |v| == if |s| <= n then |s| else n
  }

  /** `x[:n] if x else None` of an optional column. */
  function TakeOptional(o: Option<string>, n: nat): (r: Option<string>)
    ensures r.Some? <==> o.Some? && o.value != []
    ensures r.Some? ==> IsTruncation(r.value, o.value, n)
  {
    if o.Some? && o.value != [] then Some(Take(o.value, n)) else None
  }

  /** Every text value fits the width the schema declares for its column. */
  predicate FitsColumns(v: CityValues)
  {
    && |v.city| <= CitySchema.CityMaxLength
    && |v.cityAscii| <= CitySchema.CityAsciiMaxLength
    && |v.country| <= CitySchema.CountryMaxLength
    && (v.iso2.Some? ==> |v.iso2.value| <= CitySchema.Iso2Length)
    && (v.iso3.Some? ==> |v.iso3.value| <= CitySchema.Iso3Length)
    && (v.adminName.Some? ==> |v.adminName.value| <= CitySchema.AdminNameMaxLength)
    && (v.capital.Some? ==> |v.capital.value| <= CitySchema.CapitalMaxLength)
  }

  /**
   * The dictionary appended to `values` for one city: id, coordinates and population are copied,
   * every text value is cut to its column width, keeping its prefix.
   */
  function PrepareValue(c: CityRecord): (v: CityValues)
    ensures FitsColumns(v)
    ensures v.id == c.id && v.lat == c.lat && v.lng == c.lng && v.population == c.population
    ensures IsTruncation(v.city, c.city, CitySchema.CityMaxLength)
    ensures IsTruncation(v.cityAscii, c.cityAscii, CitySchema.CityAsciiMaxLength)
    ensures IsTruncation(v.country, c.country, CitySchema.CountryMaxLength)
    ensures v.iso2 == TakeOptional(c.iso2, CitySchema.Iso2Length)
    ensures v.iso3 == TakeOptional(c.iso3, CitySchema.Iso3Length)
    ensures v.adminName == TakeOptional(c.adminName, CitySchema.AdminNameMaxLength)
    ensures v.capital == TakeOptional(c.capital, CitySchema.CapitalMaxLength)
  {
    CityValues(
      c.id,
      Take(c.city, 255),
      Take(c.cityAscii, 255),
      c.lat,
      c.lng,
      Take(c.country, 255),
      TakeOptional(c.iso2, 2),
      TakeOptional(c.iso3, 3),
      TakeOptional(c.adminName, 255),
      TakeOptional(c.capital, 50),
      c.population)
  }

  /** The `values` list of `upsert_cities_batch`, one prepared row per city, in order. */
  function Prepared(cities: seq<CityRecord>): (values: seq<CityValues>)
    ensures |values| == |cities|
  {
    if cities == [] then [] else Prepared(cities[..|cities| - 1]) + [PrepareValue(cities[|cities| - 1])]
  }

  /** The loop of `upsert_cities_batch` that builds `values`. */
  method PrepareValues(cities: seq<CityRecord>) returns (values: seq<CityValues>)
    ensures values == Prepared(cities)
    ensures forall i :: 0 <= i < |values| ==> FitsColumns(values[i])
  {
    values := [];
    var i := 0;
    while i < |cities|
      invariant 0 <= i <= |cities|
      invariant values == Prepared(cities[..i])
    {
      assert cities[..i + 1][..i] == cities[..i];
      values := values + [PrepareValue(cities[i])];
      i := i + 1;
    }
    assert cities[..|cities|] == cities;
    PreparedPointwise(cities);
  }

  /** The prepared list is the cities' prepared values, position by position. */
  lemma {:induction false} PreparedPointwise(cities: seq<CityRecord>)
    ensures forall i :: 0 <= i < |cities| ==> Prepared(cities)[i] == PrepareValue(cities[i])
  {
    if cities != [] {
      PreparedPointwise(cities[..|cities| - 1]);
    }
  }

  lemma {:induction false} PreparedAppend(a: seq<CityRecord>, b: seq<CityRecord>)
    ensures Prepared(a + b) == Prepared(a) + Prepared(b)
  {
    if b != [] {
      PreparedAppend(a, b[..|b| - 1]);
      assert (a + b)[..|a + b| - 1] == a + b[..|b| - 1];
    } else {
      assert a + b == a;
    }
  }

  /** `len([c for c in cities if c["id"] not in existing_ids])`. */
  function CountInserted(cities: seq<CityRecord>, existing: set<int>): (n: nat)
    ensures n <= |cities|
  {
    if cities == [] then 0
    else CountInserted(cities[..|cities| - 1], existing) + (if cities[|cities| - 1].id in existing then 0 else 1)
  }

  /** `len([c for c in cities if c["id"] in existing_ids])`. */
  function CountUpdated(cities: seq<CityRecord>, existing: set<int>): (n: nat)
    ensures n <= |cities|
  {
    if cities == [] then 0
    else CountUpdated(cities[..|cities| - 1], existing) + (if cities[|cities| - 1].id in existing then 1 else 0)
  }

  /** Every city of a batch is counted once, as inserted or as updated. */
  lemma {:induction false} InsertedPlusUpdated(cities: seq<CityRecord>, existing: set<int>)
    ensures CountInserted(cities, existing) + CountUpdated(cities, existing) == |cities|
  {
    if cities != [] {
      InsertedPlusUpdated(cities[..|cities| - 1], existing);
    }
  }

  /**
   * Inserted counts exactly the cities whose id was not there before: all of them when no id
   * existed, none when every id did.
   */
  lemma {:induction false} InsertedCountsNewIds(cities: seq<CityRecord>, existing: set<int>)
    ensures CountInserted(cities, existing) == |cities| <==> forall i :: 0 <= i < |cities| ==> cities[i].id !in existing
    ensures CountInserted(cities, existing) == 0 <==> forall i :: 0 <= i < |cities| ==> cities[i].id in existing
  {
    if cities != [] {
      var init := cities[..|cities| - 1];
      InsertedCountsNewIds(init, existing);
      assert forall i :: 0 <= i < |init| ==> init[i] == cities[i];
    }
  }

  /** The counts only look at the ids of the batch, so the ids fetched for it are enough. */
  lemma {:induction false} CountsSeeOnlyBatchIds(cities: seq<CityRecord>, e: set<int>, f: set<int>)
    requires forall i :: 0 <= i < |cities| ==> (cities[i].id in e <==> cities[i].id in f)
    ensures CountInserted(cities, e) == CountInserted(cities, f)
    ensures CountUpdated(cities, e) == CountUpdated(cities, f)
  {
    if cities != [] {
      var init := cities[..|cities| - 1];
      assert forall i :: 0 <= i < |init| ==> init[i] == cities[i];
      CountsSeeOnlyBatchIds(init, e, f);
    }
  }

  /**
   * The table after `INSERT ... ON CONFLICT (id) DO UPDATE` of `values`: each row is inserted under
   * its id, replacing all columns of a row already there; a later row wins over an earlier one.
   */
  function Upserted(rows: map<int, CityValues>, values: seq<CityValues>): map<int, CityValues>
  {
    if values == [] then rows
    else Upserted(rows, values[..|values| - 1])[values[|values| - 1].id := values[|values| - 1]]
  }

  /** After the upsert the table holds the ids it held before and the ids of every value. */
  lemma {:induction false} UpsertedKeys(rows: map<int, CityValues>, values: seq<CityValues>)
    ensures Upserted(rows, values).Keys == rows.Keys + set i | 0 <= i < |values| :: values[i].id
  {
    if values != [] {
      var init := values[..|values| - 1];
      UpsertedKeys(rows, init);
      assert (set i | 0 <= i < |values| :: values[i].id)
             == (set i | 0 <= i < |init| :: init[i].id) + {values[|values| - 1].id};
    }
  }

  /** Upserting two lists one after the other is upserting their concatenation. */
  lemma {:induction false} UpsertedAppend(rows: map<int, CityValues>, a: seq<CityValues>, b: seq<CityValues>)
    ensures Upserted(Upserted(rows, a), b) == Upserted(rows, a + b)
  {
    if b != [] {
      UpsertedAppend(rows, a, b[..|b| - 1]);
      assert (a + b)[..|a + b| - 1] == a + b[..|b| - 1];
    } else {
      assert a + b == a;
    }
  }

  /** A row is stored as the last value written under its id. */
  lemma {:induction false} UpsertedLastWins(rows: map<int, CityValues>, values: seq<CityValues>, k: nat)
    requires k < |values|
    requires forall j :: k < j < |values| ==> values[j].id != values[k].id
    ensures values[k].id in Upserted(rows, values) && Upserted(rows, values)[values[k].id] == values[k]
  {
    if k < |values| - 1 {
      UpsertedLastWins(rows, values[..|values| - 1], k);
    }
  }

  /** A row whose id no value carries keeps its stored columns. */
  lemma {:induction false} UpsertedKeepsOthers(rows: map<int, CityValues>, values: seq<CityValues>, id: int)
    requires id in rows
    requires forall j :: 0 <= j < |values| ==> values[j].id != id
    ensures id in Upserted(rows, values) && Upserted(rows, values)[id] == rows[id]
  {
    if values != [] {
      UpsertedKeepsOthers(rows, values[..|values| - 1], id);
    }
  }

  /**
   * `SELECT id FROM cities WHERE id IN (ids of the batch)`: the stored ids that some city of the
   * batch carries, and no others.
   */
  function ExistingIds(cities: seq<CityRecord>, rows: map<int, CityValues>): (existing: set<int>)
    ensures existing <= rows.Keys
    ensures forall i :: 0 <= i < |cities| ==> (cities[i].id in existing <==> cities[i].id in rows)
    ensures forall id :: id in existing ==> exists i :: 0 <= i < |cities| && cities[i].id == id
  {
    set i | 0 <= i < |cities| && cities[i].id in rows :: cities[i].id
  }

  /** The `cities` table, as far as the import reads and writes it. */
  class CityTable {
    var rows: map<int, CityValues>

    constructor (initial: map<int, CityValues>)
      ensures rows == initial
    {
      rows := initial;
    }

    /**
     * `upsert_cities_batch`, with the commit it ends in and the rollback its caller performs when
     * it raises: an empty batch changes nothing and counts nothing; a failing one changes nothing
     * and reports the exception text; otherwise every city is upserted and counted as inserted or
     * updated by whether its id was stored before.
     */
    method UpsertBatch(cities: seq<CityRecord>, fault: Option<string>) returns (r: Result<(nat, nat), string>)
      modifies this
      ensures cities == [] ==> r == Ok((0, 0)) && rows == old(rows)
      ensures cities != [] && fault.Some? ==> r == Err(fault.value) && rows == old(rows)
      ensures cities != [] && fault.None? ==>
                && r == Ok((CountInserted(cities, old(rows).Keys), CountUpdated(cities, old(rows).Keys)))
                && rows == Upserted(old(rows), Prepared(cities))
      ensures r.Ok? ==> r.value.0 + r.value.1 == |cities|
    {
      if cities == [] {
        return Ok((0, 0));
      }
      var existing := ExistingIds(cities, rows);
      var values := PrepareValues(cities);
      match fault
      case Some(cause) =>
        r := Err(cause);
      case None =>
        CountsSeeOnlyBatchIds(cities, existing, rows.Keys);
        InsertedPlusUpdated(cities, existing);
        r := Ok((CountInserted(cities, existing), CountUpdated(cities, existing)));
        rows := Upserted(rows, values);
    }
  }

  /** An entry of the `errors` list of the import summary. */
  datatype ImportError =
    | Rejected(row: RowError)
    | BatchFailed(line: nat, cause: string)
    | LastBatchFailed(cause: string)
  {
    /** The text appended to `errors`. */
    function Message(): (m: string)
      ensures Rejected? ==> m == row.Message()
      ensures BatchFailed? ==> "Erro ao processar batch na linha " <= m && EndsWith(m, ": " + cause)
      ensures LastBatchFailed? ==> "Erro ao processar \U{FA}ltimo batch: " <= m && EndsWith(m, cause)
    {
      match this
      case Rejected(row) => row.Message()
      case BatchFailed(line, cause) => "Erro ao processar batch na linha " + NatToString(line) + ": " + cause
      case LastBatchFailed(cause) => "Erro ao processar \U{FA}ltimo batch: " + cause
    }
  }

  /** The texts of a list of errors, in order. */
  function Messages(errors: seq<ImportError>): (texts: seq<string>)
    ensures |texts| == |errors|
    ensures forall i :: 0 <= i < |errors| ==> texts[i] == errors[i].Message()
  {
    seq(|errors|, i requires 0 <= i < |errors| => errors[i].Message())
  }

  /** A row parser: a CSV row and its line number to a record or an error. */
  type RowParser = (seq<string>, nat) -> Result<CityRecord, RowError>

  /** The parser the import uses, `parse_csv_row` with the given number conversions. */
  function ParseWith(syntax: NumberSyntax): RowParser
  {
    (row: seq<string>, line: nat) => ParseCsvRow(row, line, syntax)
  }

  /** The records of the rows `parse` accepts, in order; row k is line k + 1. */
  function ValidRecords(rows: seq<seq<string>>, parse: RowParser): (records: seq<CityRecord>)
    ensures |records| <= |rows|
  {
    if rows == [] then []
    else
      match parse(rows[|rows| - 1], |rows|)
      case Ok(c) => ValidRecords(rows[..|rows| - 1], parse) + [c]
      case Err(_) => ValidRecords(rows[..|rows| - 1], parse)
  }

  /** The rows `parse` rejects, with their errors, in order. */
  function RowFailures(rows: seq<seq<string>>, parse: RowParser): (failures: seq<ImportError>)
    ensures |failures| <= |rows|
  {
    if rows == [] then []
    else
      match parse(rows[|rows| - 1], |rows|)
      case Ok(_) => RowFailures(rows[..|rows| - 1], parse)
      case Err(e) => RowFailures(rows[..|rows| - 1], parse) + [Rejected(e)]
  }

  /** Every row is either accepted or rejected. */
  lemma {:induction false} RowsAcceptedOrRejected(rows: seq<seq<string>>, parse: RowParser)
    ensures |ValidRecords(rows, parse)| + |RowFailures(rows, parse)| == |rows|
  {
    if rows != [] {
      RowsAcceptedOrRejected(rows[..|rows| - 1], parse);
    }
  }

  /** One more row adds its record to the accepted ones or its message to the rejected ones. */
  lemma RowStep(seen: seq<seq<string>>, row: seq<string>, parse: RowParser)
    ensures var r := parse(row, |seen| + 1);
            && ValidRecords(seen + [row], parse) == ValidRecords(seen, parse) + (if r.Ok? then [r.value] else [])
            && RowFailures(seen + [row], parse) == RowFailures(seen, parse) + (if r.Err? then [Rejected(r.error)] else [])
  {
    assert (seen + [row])[..|seen|] == seen;
  }

  /** Every record `parse_csv_row` lets through to the database satisfies `ValidRecord`. */
  lemma {:induction false} ImportedRecordsAreValid(rows: seq<seq<string>>, syntax: NumberSyntax)
    ensures forall i :: 0 <= i < |ValidRecords(rows, ParseWith(syntax))| ==> ValidRecord(ValidRecords(rows, ParseWith(syntax))[i])
  {
    if rows != [] {
      ImportedRecordsAreValid(rows[..|rows| - 1], syntax);
    }
  }

  lemma TakeNext<T>(s: seq<T>, i: nat)
    requires i < |s|
    ensures s[..i + 1] == s[..i] + [s[i]]
  {
  }

  function Flatten<T>(batches: seq<seq<T>>): seq<T>
  {
    if batches == [] then [] else Flatten(batches[..|batches| - 1]) + batches[|batches| - 1]
  }

  /** The batches whose upsert succeeded (batch k fails when `fault(k)` is an exception). */
  function Committed(batches: seq<seq<CityRecord>>, fault: nat -> Option<string>): seq<seq<CityRecord>>
  {
    if batches == [] then []
    else
      var k := |batches| - 1;
      Committed(batches[..k], fault) + if fault(k).None? then [batches[k]] else []
  }

  /** The batches whose upsert raised. */
  function Failed(batches: seq<seq<CityRecord>>, fault: nat -> Option<string>): seq<seq<CityRecord>>
  {
    if batches == [] then []
    else
      var k := |batches| - 1;
      Failed(batches[..k], fault) + if fault(k).Some? then [batches[k]] else []
  }

  /** Each batch is either committed or failed. */
  lemma {:induction false} CommittedOrFailed(batches: seq<seq<CityRecord>>, fault: nat -> Option<string>)
    ensures |Flatten(Committed(batches, fault))| + |Flatten(Failed(batches, fault))| == |Flatten(batches)|
  {
    if batches != [] {
      var k := |batches| - 1;
      CommittedOrFailed(batches[..k], fault);
      if fault(k).None? {
        assert Committed(batches, fault) == Committed(batches[..k], fault) + [batches[k]];
        assert Failed(batches, fault) == Failed(batches[..k], fault);
      } else {
        assert Committed(batches, fault) == Committed(batches[..k], fault);
        assert Failed(batches, fault) == Failed(batches[..k], fault) + [batches[k]];
      }
    }
  }

  predicate NoFaults(fault: nat -> Option<string>, n: nat)
  {
    forall k: nat :: k < n ==> fault(k).None?
  }

  /** Without faults every batch is committed. */
  lemma {:induction false} NoFaultsCommitsAll(batches: seq<seq<CityRecord>>, fault: nat -> Option<string>)
    requires NoFaults(fault, |batches|)
    ensures Committed(batches, fault) == batches
    ensures Failed(batches, fault) == []
  {
    if batches != [] {
      var k := |batches| - 1;
      var prefix := batches[..k];
      assert NoFaults(fault, |prefix|);
      NoFaultsCommitsAll(prefix, fault);
      assert fault(k).None?;
      assert Committed(batches, fault) == prefix + [batches[k]];
      assert prefix + [batches[k]] == batches;
    }
  }

  /** Every city has both codes, as the NOT NULL `iso2` and `iso3` columns of `cities` require. */
  predicate AllHaveCodes(cities: seq<CityRecord>)
  {
    forall i :: 0 <= i < |cities| ==> cities[i].iso2.Some? && cities[i].iso3.Some?
  }

  /** `fault` agrees with the NOT NULL columns: a batch with a city lacking a code raises. */
  predicate RespectsNotNull(batches: seq<seq<CityRecord>>, fault: nat -> Option<string>)
  {
    forall k :: 0 <= k < |batches| && !AllHaveCodes(batches[k]) ==> fault(k).Some?
  }

  lemma AllHaveCodesAppend(a: seq<CityRecord>, b: seq<CityRecord>)
    requires AllHaveCodes(a) && AllHaveCodes(b)
    ensures AllHaveCodes(a + b)
  {
    assert forall i :: |a| <= i < |a + b| ==> (a + b)[i] == b[i - |a|];
  }

  /** When failures respect the NOT NULL columns, every committed city has both codes. */
  lemma {:induction false} CommittedHaveCodes(batches: seq<seq<CityRecord>>, fault: nat -> Option<string>)
    requires RespectsNotNull(batches, fault)
    ensures AllHaveCodes(Flatten(Committed(batches, fault)))
  {
    if batches != [] {
      var k := |batches| - 1;
      var prefix := batches[..k];
      assert RespectsNotNull(prefix, fault) by {
        assert forall j :: 0 <= j < |prefix| ==> prefix[j] == batches[j];
      }
      CommittedHaveCodes(prefix, fault);
      if fault(k).None? {
        assert batches == prefix + [batches[k]];
        CommitStep(map[], prefix, batches[k], fault);
        AllHaveCodesAppend(Flatten(Committed(prefix, fault)), batches[k]);
      } else {
        assert Committed(batches, fault) == Committed(prefix, fault);
      }
    }
  }

  /**
   * So an import in which no batch raised, under failures that respect the NOT NULL columns, had
   * no accepted row with an empty code: `parse_csv_row` maps an empty code to None, which the
   * INSERT of its batch refuses.
   */
  lemma NoFaultsMeansEveryCode(batches: seq<seq<CityRecord>>, fault: nat -> Option<string>)
    requires RespectsNotNull(batches, fault) && NoFaults(fault, |batches|)
    ensures AllHaveCodes(Flatten(batches))
  {
    CommittedHaveCodes(batches, fault);
    NoFaultsCommitsAll(batches, fault);
  }

  /** The list `errors` keeps the first messages, at most `MaxErrorExamples` of them. */
  lemma TakeAppend<T>(messages: seq<T>, m: T, n: nat)
    ensures Take(messages + [m], n) == if |Take(messages, n)| < n then Take(messages, n) + [m] else Take(messages, n)
  {
    if |messages| < n {
      assert Take(messages, n) == messages;
    } else {
      assert (messages + [m])[..n] == messages[..n];
    }
  }

  /**
   * The messages the row loop of `import_cities` produces over `rows`, in order: a rejected row
   * gives its error; the accepted row with which the accepted cities reach a multiple of
   * `BatchSize` fills a batch, upserted on that row, which gives its exception text when `fault`
   * says it raises.
   */
  function LoopLog(rows: seq<seq<string>>, parse: RowParser, fault: nat -> Option<string>): seq<ImportError>
  {
    if rows == [] then []
    else
      var n := |rows| - 1;
      LoopLog(rows[..n], parse, fault) +
        match parse(rows[n], |rows|)
        case Err(e) => [Rejected(e)]
        case Ok(_) => FlushLog(|ValidRecords(rows, parse)|, |rows|, fault)
  }

  /** The message, if any, of the batch that the accepted city number `accepted` fills on line `line`. */
  function FlushLog(accepted: nat, line: nat, fault: nat -> Option<string>): seq<ImportError>
  {
    if accepted < BatchSize || accepted % BatchSize != 0 then []
    else
      var k := accepted / BatchSize - 1;
      if fault(k).Some? then [BatchFailed(line, fault(k).value)] else []
  }

  /**
   * The messages of the whole import over `rows`: the loop's, then that of the last, partial
   * batch when it raises.
   */
  function ImportLog(rows: seq<seq<string>>, parse: RowParser, fault: nat -> Option<string>): seq<ImportError>
  {
    var accepted := |ValidRecords(rows, parse)|;
    var k := accepted / BatchSize;
    LoopLog(rows, parse, fault) +
      if accepted % BatchSize != 0 && fault(k).Some? then [LastBatchFailed(fault(k).value)] else []
  }

  /** The rejected rows of a log, in order. */
  function Rejections(log: seq<ImportError>): seq<ImportError>
  {
    if log == [] then []
    else
      var e := log[|log| - 1];
      Rejections(log[..|log| - 1]) + if e.Rejected? then [e] else []
  }

  /** The exception texts of the failed batches of a log, in order. */
  function FailureCauses(log: seq<ImportError>): seq<string>
  {
    if log == [] then []
    else
      var e := log[|log| - 1];
      FailureCauses(log[..|log| - 1]) + if e.Rejected? then [] else [e.cause]
  }

  /** The exception texts `fault` gives the first `n` batches, skipping those that commit. */
  function FaultsBefore(fault: nat -> Option<string>, n: nat): seq<string>
  {
    if n == 0 then [] else FaultsBefore(fault, n - 1) + if fault(n - 1).Some? then [fault(n - 1).value] else []
  }

  lemma LogAppend(log: seq<ImportError>, more: seq<ImportError>)
    requires |more| <= 1
    ensures Rejections(log + more) == Rejections(log) + if more != [] && more[0].Rejected? then more else []
    ensures FailureCauses(log + more) == FailureCauses(log) + if more != [] && !more[0].Rejected? then [more[0].cause] else []
  {
    if more == [] {
      assert log + more == log;
    } else {
      assert (log + more)[..|log|] == log;
    }
  }

  /** `b` full batches and `c` more cities make a number whose quotient by `BatchSize` is `b`. */
  lemma DivModBatch(b: nat, c: nat)
    requires c < BatchSize
    ensures (b * BatchSize + c) / BatchSize == b && (b * BatchSize + c) % BatchSize == c
  {
  }

  /**
   * The city after `b` full batches and `c` more fills a batch exactly when `c + 1` reaches
   * `BatchSize`, and that batch is batch number `b`.
   */
  lemma FlushLogAt(b: nat, c: nat, line: nat, fault: nat -> Option<string>)
    requires c < BatchSize
    ensures FlushLog(b * BatchSize + c + 1, line, fault)
            == if c + 1 == BatchSize && fault(b).Some? then [BatchFailed(line, fault(b).value)] else []
  {
    if c + 1 == BatchSize {
      DivModBatch(b + 1, 0);
    } else {
      DivModBatch(b, c + 1);
    }
  }

  /** The rejected rows of the loop's log are the rows `parse` rejects, in order. */
  lemma {:induction false} LoopLogRejections(rows: seq<seq<string>>, parse: RowParser, fault: nat -> Option<string>)
    ensures Rejections(LoopLog(rows, parse, fault)) == RowFailures(rows, parse)
  {
    if rows != [] {
      var n := |rows| - 1;
      LoopLogRejections(rows[..n], parse, fault);
      match parse(rows[n], |rows|)
      case Err(e) =>
        LogAppend(LoopLog(rows[..n], parse, fault), [Rejected(e)]);
      case Ok(_) =>
        LogAppend(LoopLog(rows[..n], parse, fault), FlushLog(|ValidRecords(rows, parse)|, |rows|, fault));
    }
  }

  /**
   * With `b` full batches and `c` more accepted cities, the batch failures of the loop's log are
   * one per raising batch among the `b` full ones, in the order they were written, each with its
   * exception text.
   */
  lemma {:induction false} LoopLogFailures(rows: seq<seq<string>>, parse: RowParser, fault: nat -> Option<string>,
                                           b: nat, c: nat)
    requires c < BatchSize && |ValidRecords(rows, parse)| == b * BatchSize + c
    ensures FailureCauses(LoopLog(rows, parse, fault)) == FaultsBefore(fault, b)
  {
    if rows != [] {
      var n := |rows| - 1;
      var prefix := rows[..n];
      assert prefix + [rows[n]] == rows;
      RowStep(prefix, rows[n], parse);
      match parse(rows[n], |rows|)
      case Err(e) =>
        LoopLogFailures(prefix, parse, fault, b, c);
        LoopLogStep(prefix, rows[n], parse, fault);
        LogAppend(LoopLog(prefix, parse, fault), [Rejected(e)]);
      case Ok(_) =>
        var b', c' := if c == 0 then b - 1 else b, if c == 0 then BatchSize - 1 else c - 1;
        LoopLogFailures(prefix, parse, fault, b', c');
        LoopLogAfterAccepted(prefix, rows[n], parse, fault, b', c');
        var more := if c' + 1 == BatchSize && fault(b').Some? then [BatchFailed(|rows|, fault(b').value)] else [];
        LogAppend(LoopLog(prefix, parse, fault), more);
    }
  }

  /**
   * With `b` full batches and `c` more accepted cities, the batch failures of the whole import are
   * one per raising batch, the last partial one included.
   */
  lemma ImportLogFailures(rows: seq<seq<string>>, parse: RowParser, fault: nat -> Option<string>, b: nat, c: nat)
    requires c < BatchSize && |ValidRecords(rows, parse)| == b * BatchSize + c
    ensures FailureCauses(ImportLog(rows, parse, fault)) == FaultsBefore(fault, if c == 0 then b else b + 1)
  {
    ImportLogAfterLoop(rows, parse, fault, b, c);
    LoopLogFailures(rows, parse, fault, b, c);
    var log := LoopLog(rows, parse, fault);
    if c != 0 && fault(b).Some? {
      LogAppend(log, [LastBatchFailed(fault(b).value)]);
    } else {
      assert log + [] == log;
    }
  }

  lemma {:induction false} NoFaultsBefore(fault: nat -> Option<string>, n: nat)
    requires NoFaults(fault, n)
    ensures FaultsBefore(fault, n) == []
  {
    if n > 0 {
      NoFaultsBefore(fault, n - 1);
    }
  }

  /** A log without batch failures holds only rejected rows. */
  lemma {:induction false} OnlyRejections(log: seq<ImportError>)
    requires FailureCauses(log) == []
    ensures Rejections(log) == log
  {
    if log != [] {
      var n := |log| - 1;
      assert log[n].Rejected?;
      OnlyRejections(log[..n]);
      assert log[..n] + [log[n]] == log;
    }
  }

  /** When none of the `b` full batches raises, the loop's log is the list of rejected rows. */
  lemma LoopLogWithoutFaults(rows: seq<seq<string>>, parse: RowParser, fault: nat -> Option<string>, b: nat, c: nat)
    requires c < BatchSize && |ValidRecords(rows, parse)| == b * BatchSize + c && NoFaults(fault, b)
    ensures LoopLog(rows, parse, fault) == RowFailures(rows, parse)
  {
    LoopLogFailures(rows, parse, fault, b, c);
    NoFaultsBefore(fault, b);
    OnlyRejections(LoopLog(rows, parse, fault));
    LoopLogRejections(rows, parse, fault);
  }

  /**
   * When the row loop ends with the full `batches` and then `currentBatch`, the number of batches
   * the whole run writes is `ceil(accepted / BatchSize)`, the run's log is the loop's log followed
   * by the failure of the last, partial batch if that one raises, and without faults before it the
   * loop's log is the rejections alone.
   */
  lemma ImportLogAfterBatches(rows: seq<seq<string>>, parse: RowParser, fault: nat -> Option<string>,
                              batches: seq<seq<CityRecord>>, currentBatch: seq<CityRecord>)
    requires AllFull(batches, BatchSize) && |currentBatch| < BatchSize
    requires Flatten(batches) + currentBatch == ValidRecords(rows, parse)
    ensures (|ValidRecords(rows, parse)| + BatchSize - 1) / BatchSize
            == if currentBatch == [] then |batches| else |batches| + 1
    ensures ImportLog(rows, parse, fault)
            == LoopLog(rows, parse, fault)
               + if currentBatch != [] && fault(|batches|).Some? then [LastBatchFailed(fault(|batches|).value)] else []
    ensures NoFaults(fault, |batches|) ==> LoopLog(rows, parse, fault) == RowFailures(rows, parse)
  {
    FullBatchesLength(batches);
    ImportLogAfterLoop(rows, parse, fault, |batches|, |currentBatch|);
    if NoFaults(fault, |batches|) {
      LoopLogWithoutFaults(rows, parse, fault, |batches|, |currentBatch|);
    }
  }

  /** `b` full batches hold `b * BatchSize` cities. */
  lemma {:induction false} FullBatchesLength(batches: seq<seq<CityRecord>>)
    requires AllFull(batches, BatchSize)
    ensures |Flatten(batches)| == |batches| * BatchSize
  {
    if batches != [] {
      var n := |batches| - 1;
      assert AllFull(batches[..n], BatchSize);
      FullBatchesLength(batches[..n]);
    }
  }

  datatype ImportSummary = ImportSummary(
    inserted: nat,
    updated: nat,
    skipped: nat,
    totalProcessed: nat,
    errors: seq<string>,
    message: string)

  function SummaryMessage(inserted: nat, updated: nat, skipped: nat): (m: string)
    ensures "Processado: " <= m
    ensures EndsWith(m, " ignoradas")
  {
    "Processado: " + NatToString(inserted) + " inseridas, " + NatToString(updated) + " atualizadas, "
      + NatToString(skipped) + " ignoradas"
  }

  lemma AppendAssoc<T>(a: seq<T>, b: seq<T>, c: seq<T>)
    ensures a + (b + c) == a + b + c
  {
  }

  lemma FlattenAppend<T>(batches: seq<seq<T>>, b: seq<T>)
    ensures Flatten(batches + [b]) == Flatten(batches) + b
  {
    assert (batches + [b])[..|batches|] == batches;
  }

  /** A committed batch adds its cities to the committed ones and its rows to the table. */
  lemma CommitStep(initial: map<int, CityValues>, batches: seq<seq<CityRecord>>, b: seq<CityRecord>,
                   fault: nat -> Option<string>)
    requires fault(|batches|).None?
    ensures Committed(batches + [b], fault) == Committed(batches, fault) + [b]
    ensures Failed(batches + [b], fault) == Failed(batches, fault)
    ensures Flatten(Committed(batches + [b], fault)) == Flatten(Committed(batches, fault)) + b
    ensures Upserted(Upserted(initial, Prepared(Flatten(Committed(batches, fault)))), Prepared(b))
            == Upserted(initial, Prepared(Flatten(Committed(batches + [b], fault))))
    ensures var existing := TableAfter(initial, Committed(batches, fault)).Keys;
            && CommittedCounts(initial, Committed(batches + [b], fault)).0
               == CommittedCounts(initial, Committed(batches, fault)).0 + CountInserted(b, existing)
            && CommittedCounts(initial, Committed(batches + [b], fault)).1
               == CommittedCounts(initial, Committed(batches, fault)).1 + CountUpdated(b, existing)
  {
    assert (batches + [b])[..|batches|] == batches;
    var done := Flatten(Committed(batches, fault));
    FlattenAppend(Committed(batches, fault), b);
    PreparedAppend(done, b);
    UpsertedAppend(initial, Prepared(done), Prepared(b));
    CommittedCountsStep(initial, Committed(batches, fault), b);
  }

  /** A failed batch adds its cities to the failed ones and leaves the committed ones alone. */
  lemma FailStep(batches: seq<seq<CityRecord>>, b: seq<CityRecord>, fault: nat -> Option<string>)
    requires fault(|batches|).Some?
    ensures Committed(batches + [b], fault) == Committed(batches, fault)
    ensures Flatten(Failed(batches + [b], fault)) == Flatten(Failed(batches, fault)) + b
  {
    assert (batches + [b])[..|batches|] == batches;
    FlattenAppend(Failed(batches, fault), b);
  }

  /** The counts `upsert_cities_batch` reports for `cities` when `existing` are the stored ids. */
  function BatchCounts(cities: seq<CityRecord>, existing: set<int>): (counts: (nat, nat))
    ensures counts.0 + counts.1 == |cities|
  {
    InsertedPlusUpdated(cities, existing);
    (CountInserted(cities, existing), CountUpdated(cities, existing))
  }

  /** The table once the batches `committed` are written over `initial`. */
  function TableAfter(initial: map<int, CityValues>, committed: seq<seq<CityRecord>>): map<int, CityValues>
  {
    Upserted(initial, Prepared(Flatten(committed)))
  }

  /**
   * The inserted and the updated counts that the batches `committed` report, each batch counted by
   * `upsert_cities_batch` against the table the batches before it left behind (`initial` at first).
   */
  function CommittedCounts(initial: map<int, CityValues>, committed: seq<seq<CityRecord>>): (nat, nat)
  {
    if committed == [] then (0, 0)
    else
      var n := |committed| - 1;
      var before := CommittedCounts(initial, committed[..n]);
      var added := BatchCounts(committed[n], TableAfter(initial, committed[..n]).Keys);
      (before.0 + added.0, before.1 + added.1)
  }

  /** Every committed city is counted once, as inserted or as updated. */
  lemma {:induction false} CommittedCountsSum(initial: map<int, CityValues>, committed: seq<seq<CityRecord>>)
    ensures CommittedCounts(initial, committed).0 + CommittedCounts(initial, committed).1 == |Flatten(committed)|
  {
    if committed != [] {
      var n := |committed| - 1;
      CommittedCountsSum(initial, committed[..n]);
    }
  }

  /** `inserted` and `updated` are the counts the batches `committed` report. */
  ghost predicate Counted(initial: map<int, CityValues>, committed: seq<seq<CityRecord>>, inserted: nat, updated: nat)
  {
    inserted == CommittedCounts(initial, committed).0 && updated == CommittedCounts(initial, committed).1
  }

  /**
   * The state the committed batches leave: the counters are their counts and the table holds
   * their prepared rows written over `initial`.
   */
  ghost predicate Committing(rows: map<int, CityValues>, initial: map<int, CityValues>, batches: seq<seq<CityRecord>>,
                             fault: nat -> Option<string>, inserted: nat, updated: nat)
  {
    && Counted(initial, Committed(batches, fault), inserted, updated)
    && rows == Upserted(initial, Prepared(Flatten(Committed(batches, fault))))
  }

  /** One more committed batch adds its own counts against the table the earlier ones produced. */
  lemma CommittedCountsStep(initial: map<int, CityValues>, committed: seq<seq<CityRecord>>, b: seq<CityRecord>)
    ensures CommittedCounts(initial, committed + [b]).0
            == CommittedCounts(initial, committed).0 + CountInserted(b, TableAfter(initial, committed).Keys)
    ensures CommittedCounts(initial, committed + [b]).1
            == CommittedCounts(initial, committed).1 + CountUpdated(b, TableAfter(initial, committed).Keys)
  {
    var extended := committed + [b];
    assert extended[..|committed|] == committed;
    assert extended[|committed|] == b;
  }

  /**
   * Into an empty table every city of the first batch counts as inserted, since the ids are
   * fetched before the batch is written. A batch that repeats an id fails in PostgreSQL, whose
   * `ON CONFLICT DO UPDATE` cannot touch one row twice, so for such a batch `fault` must say that
   * it raises, and it is then not committed at all.
   */
  lemma FirstBatchAllInserted(b: seq<CityRecord>)
    ensures CommittedCounts(map[], [b]) == (|b|, 0)
  {
    assert [b][..0] == [];
    assert TableAfter(map[], []).Keys == {};
    InsertedCountsNewIds(b, {});
    InsertedPlusUpdated(b, {});
  }

  /** A city that comes back in a later batch finds its id stored and counts as updated. */
  lemma RepeatedInLaterBatchUpdated(c: CityRecord)
    ensures CommittedCounts(map[], [[c], [c]]) == (1, 1)
  {
    FirstBatchAllInserted([c]);
    CommittedCountsStep(map[], [[c]], [c]);
    assert Prepared(Flatten([[c]])) == [PrepareValue(c)] by {
      assert Flatten([[c]]) == Flatten([[c]][..0]) + [c];
    }
    assert c.id in Upserted(map[], [PrepareValue(c)]).Keys;
    assert [[c]] + [[c]] == [[c], [c]];
  }

  /** Every batch holds exactly `n` cities. */
  predicate AllFull(batches: seq<seq<CityRecord>>, n: nat)
  {
    forall k :: 0 <= k < |batches| ==> |batches[k]| == n
  }

  /** Every batch holds between 1 and `n` cities, and all but the last exactly `n`. */
  predicate BatchedBy(batches: seq<seq<CityRecord>>, n: nat)
  {
    && (forall k :: 0 <= k < |batches| ==> 0 < |batches[k]| <= n)
    && (forall k :: 0 <= k < |batches| - 1 ==> |batches[k]| == n)
  }

  lemma AllFullAppend(batches: seq<seq<CityRecord>>, b: seq<CityRecord>, n: nat)
    requires AllFull(batches, n) && |b| == n
    ensures AllFull(batches + [b], n)
  {
    assert forall k :: 0 <= k < |batches| ==> (batches + [b])[k] == batches[k];
  }

  /** Full batches followed by a last one of at most `n` cities are batched by `n`. */
  lemma BatchedByLast(batches: seq<seq<CityRecord>>, b: seq<CityRecord>, n: nat)
    requires AllFull(batches, n) && 0 < |b| <= n
    ensures BatchedBy(batches + [b], n)
  {
    assert forall k :: 0 <= k < |batches| ==> (batches + [b])[k] == batches[k];
  }

  lemma BatchedByFull(batches: seq<seq<CityRecord>>, n: nat)
    requires AllFull(batches, n) && n > 0
    ensures BatchedBy(batches, n)
  {
  }

  /**
   * One `try: upsert_cities_batch(...)` of the import: a committed batch adds its counts, a failed
   * one is rolled back, all its cities are skipped and its failure message is kept while fewer
   * than `MaxErrorExamples` messages are. `last` tells the final flush from one inside the loop.
   * `batches'` records the batch after the ones flushed before.
   */
  method FlushBatch(table: CityTable, batch: seq<CityRecord>, fault: nat -> Option<string>, k: nat, last: bool, line: nat,
                    inserted: nat, updated: nat, skipped: nat, errors: seq<ImportError>,
                    ghost initial: map<int, CityValues>, ghost batches: seq<seq<CityRecord>>)
    returns (inserted': nat, updated': nat, skipped': nat, errors': seq<ImportError>, ghost batches': seq<seq<CityRecord>>)
    requires batch != [] && k == |batches|
    requires Committing(table.rows, initial, batches, fault, inserted, updated)
    modifies table
    ensures batches' == batches + [batch] && Flatten(batches') == Flatten(batches) + batch
    ensures Committing(table.rows, initial, batches', fault, inserted', updated')
    ensures fault(k).None? ==> && inserted' == inserted + CountInserted(batch, old(table.rows).Keys)
                               && updated' == updated + CountUpdated(batch, old(table.rows).Keys)
    ensures fault(k).Some? ==> inserted' == inserted && updated' == updated
    ensures skipped' + |Flatten(Failed(batches, fault))| == skipped + |Flatten(Failed(batches', fault))|
    ensures fault(k).None? ==> errors' == errors
    ensures fault(k).Some? ==>
              var message := if last then LastBatchFailed(fault(k).value) else BatchFailed(line, fault(k).value);
              errors' == if |errors| < MaxErrorExamples then errors + [message] else errors
    ensures |errors| <= MaxErrorExamples ==> |errors'| <= MaxErrorExamples
  {
    inserted', updated', skipped', errors' := inserted, updated, skipped, errors;
    var outcome := table.UpsertBatch(batch, fault(k));
    match outcome {
      case Ok(counts) =>
        CommitStep(initial, batches, batch, fault);
        inserted' := inserted + counts.0;
        updated' := updated + counts.1;
      case Err(cause) =>
        FailStep(batches, batch, fault);
        if |errors| < MaxErrorExamples {
          var message := if last then LastBatchFailed(cause) else BatchFailed(line, cause);
          errors' := errors + [message];
        }
        skipped' := skipped + |batch|;
    }
    FlattenAppend(batches, batch);
    batches' := batches + [batch];
  }

  /**
   * An accepted row inside the loop: its city joins `currentBatch`, and a batch that reaches
   * `BatchSize` is flushed and started afresh; a flushed batch that raises has its message kept
   * while fewer than `MaxErrorExamples` are.
   */
  method AddCity(table: CityTable, city: CityRecord, line: nat, fault: nat -> Option<string>,
                 inserted: nat, updated: nat, skipped: nat, errors: seq<ImportError>, currentBatch: seq<CityRecord>,
                 batchCount: nat, ghost initial: map<int, CityValues>, ghost batches: seq<seq<CityRecord>>)
    returns (inserted': nat, updated': nat, skipped': nat, errors': seq<ImportError>, currentBatch': seq<CityRecord>,
             batchCount': nat, ghost batches': seq<seq<CityRecord>>)
    requires batchCount == |batches| && |currentBatch| < BatchSize && AllFull(batches, BatchSize)
    requires Committing(table.rows, initial, batches, fault, inserted, updated)
    requires |errors| <= MaxErrorExamples
    modifies table
    ensures batchCount' == |batches'| && |currentBatch'| < BatchSize && AllFull(batches', BatchSize)
    ensures Flatten(batches') + currentBatch' == Flatten(batches) + currentBatch + [city]
    ensures skipped' + |Flatten(Failed(batches, fault))| == skipped + |Flatten(Failed(batches', fault))|
    ensures Committing(table.rows, initial, batches', fault, inserted', updated')
    ensures |errors'| <= MaxErrorExamples
    ensures NoFaults(fault, |batches'|) ==> NoFaults(fault, |batches|) && errors' == errors
    ensures |currentBatch| + 1 < BatchSize ==> batches' == batches && currentBatch' == currentBatch + [city] && errors' == errors
    ensures |currentBatch| + 1 == BatchSize ==> batches' == batches + [currentBatch + [city]] && currentBatch' == []
    ensures |currentBatch| + 1 == BatchSize && fault(batchCount).None? ==> errors' == errors
    ensures |currentBatch| + 1 == BatchSize && fault(batchCount).Some? ==>
              var message := BatchFailed(line, fault(batchCount).value);
              errors' == if |errors| < MaxErrorExamples then errors + [message] else errors
  {
    inserted', updated', skipped', errors', batchCount', batches' := inserted, updated, skipped, errors, batchCount, batches;
    currentBatch' := currentBatch + [city];
    AppendAssoc(Flatten(batches), currentBatch, [city]);
    if |currentBatch'| >= BatchSize {
      AllFullAppend(batches, currentBatch', BatchSize);
      inserted', updated', skipped', errors', batches' :=
        FlushBatch(table, currentBatch', fault, batchCount, false, line, inserted, updated, skipped, errors, initial, batches);
      batchCount' := batchCount + 1;
      currentBatch' := [];
      assert Flatten(batches') + currentBatch' == Flatten(batches');
    }
  }

  /**
   * How the row loop's state stands after the rows `seen`: the flushed batches and the current one
   * are the accepted records so far, the skipped rows are the rejected ones and the cities of failed
   * batches, the counters and the table reflect the committed batches, and `errors` holds the
   * first messages of the loop's log.
   */
  ghost predicate Progress(rows: map<int, CityValues>, initial: map<int, CityValues>, seen: seq<seq<string>>,
                           parse: RowParser, fault: nat -> Option<string>, batches: seq<seq<CityRecord>>,
                           inserted: nat, updated: nat, skipped: nat, errors: seq<ImportError>,
                           currentBatch: seq<CityRecord>, batchCount: nat)
  {
    && batchCount == |batches| && |currentBatch| < BatchSize && AllFull(batches, BatchSize)
    && Flatten(batches) + currentBatch == ValidRecords(seen, parse)
    && skipped == |RowFailures(seen, parse)| + |Flatten(Failed(batches, fault))|
    && Committing(rows, initial, batches, fault, inserted, updated)
    && errors == Take(LoopLog(seen, parse, fault), MaxErrorExamples)
  }

  /**
   * One pass of the row loop: the row on line `line` (its predecessors are `seen`) is parsed; a
   * rejected row is skipped and its message kept while fewer than `MaxErrorExamples` are, an
   * accepted one goes to `AddCity`.
   */
  method ReadRow(table: CityTable, row: seq<string>, line: nat, parse: RowParser, fault: nat -> Option<string>,
                 inserted: nat, updated: nat, skipped: nat, errors: seq<ImportError>, currentBatch: seq<CityRecord>,
                 batchCount: nat, ghost initial: map<int, CityValues>, ghost seen: seq<seq<string>>,
                 ghost batches: seq<seq<CityRecord>>)
    returns (inserted': nat, updated': nat, skipped': nat, errors': seq<ImportError>, currentBatch': seq<CityRecord>,
             batchCount': nat, ghost batches': seq<seq<CityRecord>>)
    requires line == |seen| + 1
    requires Progress(table.rows, initial, seen, parse, fault, batches, inserted, updated, skipped, errors,
                      currentBatch, batchCount)
    modifies table
    ensures Progress(table.rows, initial, seen + [row], parse, fault, batches', inserted', updated', skipped', errors',
                     currentBatch', batchCount')
    ensures parse(row, line).Err? ==>
              errors' == if |errors| < MaxErrorExamples then errors + [Rejected(parse(row, line).error)] else errors
  {
    RowStep(seen, row, parse);
    inserted', updated', skipped', errors', currentBatch', batchCount', batches' :=
      inserted, updated, skipped, errors, currentBatch, batchCount, batches;
    var parsed := parse(row, line);
    match parsed {
      case Err(e) =>
        ErrorsAfterRejected(seen, row, parse, fault);
        skipped' := skipped + 1;
        if |errors| < MaxErrorExamples {
          errors' := errors + [Rejected(e)];
        }
      case Ok(city) =>
        inserted', updated', skipped', errors', currentBatch', batchCount', batches' :=
          AcceptRow(table, row, city, line, parse, fault, inserted, updated, skipped, errors, currentBatch, batchCount,
                    initial, seen, batches);
    }
  }

  /** The accepted row on line `line`, whose city is `city`, handed to `AddCity`. */
  method AcceptRow(table: CityTable, row: seq<string>, city: CityRecord, line: nat, parse: RowParser,
                   fault: nat -> Option<string>, inserted: nat, updated: nat, skipped: nat, errors: seq<ImportError>,
                   currentBatch: seq<CityRecord>, batchCount: nat, ghost initial: map<int, CityValues>,
                   ghost seen: seq<seq<string>>, ghost batches: seq<seq<CityRecord>>)
    returns (inserted': nat, updated': nat, skipped': nat, errors': seq<ImportError>, currentBatch': seq<CityRecord>,
             batchCount': nat, ghost batches': seq<seq<CityRecord>>)
    requires line == |seen| + 1 && parse(row, line) == Ok(city)
    requires Progress(table.rows, initial, seen, parse, fault, batches, inserted, updated, skipped, errors,
                      currentBatch, batchCount)
    modifies table
    ensures Progress(table.rows, initial, seen + [row], parse, fault, batches', inserted', updated', skipped', errors',
                     currentBatch', batchCount')
  {
    RowStep(seen, row, parse);
    ErrorsAfterAccepted(seen, row, parse, fault, batches, currentBatch);
    inserted', updated', skipped', errors', currentBatch', batchCount', batches' :=
      AddCity(table, city, line, fault, inserted, updated, skipped, errors, currentBatch, batchCount, initial, batches);
  }

  /** The loop's log grows by the message of the row after `seen`, if it has one. */
  lemma LoopLogStep(seen: seq<seq<string>>, row: seq<string>, parse: RowParser, fault: nat -> Option<string>)
    ensures LoopLog(seen + [row], parse, fault)
            == LoopLog(seen, parse, fault) +
               match parse(row, |seen| + 1)
               case Err(e) => [Rejected(e)]
               case Ok(_) => FlushLog(|ValidRecords(seen + [row], parse)|, |seen| + 1, fault)
  {
    assert (seen + [row])[..|seen|] == seen;
  }

  /** A rejected row adds its error to the loop's log, and so to `errors` while there is room. */
  lemma ErrorsAfterRejected(seen: seq<seq<string>>, row: seq<string>, parse: RowParser, fault: nat -> Option<string>)
    requires parse(row, |seen| + 1).Err?
    ensures var errors := Take(LoopLog(seen, parse, fault), MaxErrorExamples);
            var message := Rejected(parse(row, |seen| + 1).error);
            Take(LoopLog(seen + [row], parse, fault), MaxErrorExamples)
            == if |errors| < MaxErrorExamples then errors + [message] else errors
  {
    LoopLogStep(seen, row, parse, fault);
    TakeAppend(LoopLog(seen, parse, fault), Rejected(parse(row, |seen| + 1).error), MaxErrorExamples);
  }

  /**
   * When the accepted cities so far are the full `batches` and then `currentBatch`, an accepted row
   * adds to the loop's log, and so to `errors` while there is room, the failure of the batch it
   * fills, if it fills one and that batch raises.
   */
  lemma ErrorsAfterAccepted(seen: seq<seq<string>>, row: seq<string>, parse: RowParser, fault: nat -> Option<string>,
                            batches: seq<seq<CityRecord>>, currentBatch: seq<CityRecord>)
    requires parse(row, |seen| + 1).Ok?
    requires AllFull(batches, BatchSize) && |currentBatch| < BatchSize
    requires Flatten(batches) + currentBatch == ValidRecords(seen, parse)
    ensures var errors := Take(LoopLog(seen, parse, fault), MaxErrorExamples);
            Take(LoopLog(seen + [row], parse, fault), MaxErrorExamples)
            == if |currentBatch| + 1 == BatchSize && fault(|batches|).Some? then
                 var message := BatchFailed(|seen| + 1, fault(|batches|).value);
                 if |errors| < MaxErrorExamples then errors + [message] else errors
               else errors
  {
    FullBatchesLength(batches);
    var b, c := |batches|, |currentBatch|;
    LoopLogAfterAccepted(seen, row, parse, fault, b, c);
    var log := LoopLog(seen, parse, fault);
    if c + 1 == BatchSize && fault(b).Some? {
      TakeAppend(log, BatchFailed(|seen| + 1, fault(b).value), MaxErrorExamples);
    } else {
      assert log + [] == log;
    }
  }

  /** After `b` full batches and `c` more cities, an accepted row logs the failure of batch `b` if it fills and raises it. */
  lemma LoopLogAfterAccepted(seen: seq<seq<string>>, row: seq<string>, parse: RowParser, fault: nat -> Option<string>,
                             b: nat, c: nat)
    requires parse(row, |seen| + 1).Ok? && c < BatchSize && |ValidRecords(seen, parse)| == b * BatchSize + c
    ensures LoopLog(seen + [row], parse, fault)
            == LoopLog(seen, parse, fault)
               + if c + 1 == BatchSize && fault(b).Some? then [BatchFailed(|seen| + 1, fault(b).value)] else []
  {
    LoopLogStep(seen, row, parse, fault);
    RowStep(seen, row, parse);
    assert |ValidRecords(seen + [row], parse)| == b * BatchSize + c + 1;
    FlushLogAt(b, c, |seen| + 1, fault);
  }

  /**
   * With `b` full batches and `c` more accepted cities the import writes `b` batches, one more when
   * `c` is not zero, and its log ends with the failure of that last batch when it raises.
   */
  lemma ImportLogAfterLoop(rows: seq<seq<string>>, parse: RowParser, fault: nat -> Option<string>, b: nat, c: nat)
    requires c < BatchSize && |ValidRecords(rows, parse)| == b * BatchSize + c
    ensures |ValidRecords(rows, parse)| / BatchSize == b
    ensures (|ValidRecords(rows, parse)| + BatchSize - 1) / BatchSize == if c == 0 then b else b + 1
    ensures ImportLog(rows, parse, fault)
            == LoopLog(rows, parse, fault) + if c != 0 && fault(b).Some? then [LastBatchFailed(fault(b).value)] else []
  {
    DivModBatch(b, c);
    if c == 0 {
      DivModBatch(b, BatchSize - 1);
    } else {
      DivModBatch(b + 1, c - 1);
    }
  }

  /**
   * The `for row in csv_reader` loop of `import_cities`, over the data rows after the header:
   * rejected rows are skipped and their messages kept while fewer than `MaxErrorExamples` are;
   * accepted ones collect in `currentBatch`, which is upserted whenever it reaches `BatchSize`.
   * `batches` (ghost) are the lists handed to the upsert, in order.
   */
  method ReadRows(table: CityTable, dataRows: seq<seq<string>>, parse: RowParser, fault: nat -> Option<string>)
    returns (inserted: nat, updated: nat, skipped: nat, errors: seq<ImportError>, currentBatch: seq<CityRecord>,
             batchCount: nat, ghost batches: seq<seq<CityRecord>>)
    modifies table
    ensures Progress(table.rows, old(table.rows), dataRows, parse, fault, batches, inserted, updated, skipped, errors,
                     currentBatch, batchCount)
  {
    ghost var initial := table.rows;
    inserted, updated, skipped := 0, 0, 0;
    errors := [];
    currentBatch := [];
    var lineNumber: nat := 0;
    batchCount := 0;
    batches := [];
    while lineNumber < |dataRows|
      invariant lineNumber <= |dataRows|
      invariant Progress(table.rows, initial, dataRows[..lineNumber], parse, fault, batches, inserted, updated, skipped,
                         errors, currentBatch, batchCount)
    {
      TakeNext(dataRows, lineNumber);
      inserted, updated, skipped, errors, currentBatch, batchCount, batches :=
        ReadRow(table, dataRows[lineNumber], lineNumber + 1, parse, fault, inserted, updated, skipped, errors,
                currentBatch, batchCount, initial, dataRows[..lineNumber], batches);
      lineNumber := lineNumber + 1;
    }
    assert dataRows[..lineNumber] == dataRows;
  }

  /**
   * The row loop of `import_cities`, the flush of the last batch and the summary it returns.
   * Every data row is counted once, as inserted, updated or skipped; the batches are the accepted
   * records in order, cut into runs of `BatchSize`; the table holds the committed ones; `errors`
   * lists the first messages of the import's log. When no upsert fails, the table receives every
   * accepted record and `errors` lists the first rejected rows.
   */
  method ImportRows(table: CityTable, dataRows: seq<seq<string>>, parse: RowParser, fault: nat -> Option<string>)
    returns (summary: ImportSummary, ghost batches: seq<seq<CityRecord>>)
    modifies table
    ensures summary.totalProcessed == |dataRows|
    ensures summary.inserted + summary.updated + summary.skipped == summary.totalProcessed
    ensures |summary.errors| <= MaxErrorExamples
    ensures Flatten(batches) == ValidRecords(dataRows, parse)
    ensures BatchedBy(batches, BatchSize)
    ensures |batches| == (|ValidRecords(dataRows, parse)| + BatchSize - 1) / BatchSize
    ensures summary.skipped == |RowFailures(dataRows, parse)| + |Flatten(Failed(batches, fault))|
    ensures summary.inserted == CommittedCounts(old(table.rows), Committed(batches, fault)).0
    ensures summary.updated == CommittedCounts(old(table.rows), Committed(batches, fault)).1
    ensures summary.inserted + summary.updated == |Flatten(Committed(batches, fault))|
    ensures table.rows == Upserted(old(table.rows), Prepared(Flatten(Committed(batches, fault))))
    ensures summary.errors == Messages(Take(ImportLog(dataRows, parse, fault), MaxErrorExamples))
    ensures NoFaults(fault, |batches|) ==>
              && summary.skipped == |RowFailures(dataRows, parse)|
              && summary.inserted == CommittedCounts(old(table.rows), batches).0
              && summary.updated == CommittedCounts(old(table.rows), batches).1
              && summary.inserted + summary.updated == |ValidRecords(dataRows, parse)|
              && table.rows == Upserted(old(table.rows), Prepared(ValidRecords(dataRows, parse)))
              && summary.errors == Messages(Take(RowFailures(dataRows, parse), MaxErrorExamples))
    ensures summary.message == SummaryMessage(summary.inserted, summary.updated, summary.skipped)
  {
    ghost var initial := table.rows;
    var inserted, updated, skipped, errors, currentBatch, batchCount;
    inserted, updated, skipped, errors, currentBatch, batchCount, batches := ReadRows(table, dataRows, parse, fault);
    ImportLogAfterBatches(dataRows, parse, fault, batches, currentBatch);
    ghost var log := LoopLog(dataRows, parse, fault);
    if currentBatch != [] {
      BatchedByLast(batches, currentBatch, BatchSize);
      if fault(batchCount).Some? {
        TakeAppend(log, LastBatchFailed(fault(batchCount).value), MaxErrorExamples);
      } else {
        assert log + [] == log;
      }
      inserted, updated, skipped, errors, batches :=
        FlushBatch(table, currentBatch, fault, batchCount, true, |dataRows|, inserted, updated, skipped, errors, initial, batches);
    } else {
      assert Flatten(batches) == Flatten(batches) + currentBatch;
      assert log + [] == log;
      BatchedByFull(batches, BatchSize);
    }
    RowsAcceptedOrRejected(dataRows, parse);
    CommittedOrFailed(batches, fault);
    CommittedCountsSum(initial, Committed(batches, fault));
    if NoFaults(fault, |batches|) {
      NoFaultsCommitsAll(batches, fault);
      assert ImportLog(dataRows, parse, fault) == log + [];
    }
    summary := ImportSummary(inserted, updated, skipped, |dataRows|, Messages(errors), SummaryMessage(inserted, updated, skipped));
  }

  /** An `HTTPException`: a status code and a detail text. */
  datatype HttpError = HttpError(status: nat, detail: string)
  {
    /** `str()` of the exception: "<status>: <detail>". */
    function Text(): (t: string)
      ensures NatToString(status) + ": " <= t
    {
      NatToString(status) + ": " + detail
    }
  }

  const MissingHeader := HttpError(400, "CSV vazio ou sem header")

  /** What the outer `except Exception` turns any exception raised while reading the file into. */
  function FileError(cause: string): (e: HttpError)
    ensures e.status == 500
    ensures "Erro ao processar arquivo: " <= e.detail
  {
    HttpError(500, "Erro ao processar arquivo: " + cause)
  }

  /** `next(csv_reader, None)` gives a truthy header: a first row that is not empty. */
  predicate HasHeader(rows: seq<seq<string>>)
  {
    rows != [] && rows[0] != []
  }

  /**
   * The header check as written: the 400 it raises sits inside the `try` whose generic handler
   * catches every exception, so it leaves the endpoint as a 500 that quotes it.
   */
  function HeaderCheckAsWritten(rows: seq<seq<string>>): (r: Option<HttpError>)
    ensures r.None? <==> HasHeader(rows)
    ensures r.Some? ==> r.value.status == 500
  {
    if HasHeader(rows) then None else Some(FileError(MissingHeader.Text()))
  }

  lemma StatusText400()
    ensures NatToString(400) == "400"
  {
    assert NatToString(4) == "4";
    assert NatToString(40) == "40";
  }

  /** A file without a header is answered with status 500, and 400 only appears inside the detail. */
  lemma MissingHeaderBecomesServerError(rows: seq<seq<string>>)
    requires !HasHeader(rows)
    ensures HeaderCheckAsWritten(rows) == Some(HttpError(500, "Erro ao processar arquivo: " + "400: CSV vazio ou sem header"))
    ensures HeaderCheckAsWritten(rows) != Some(MissingHeader)
  {
    StatusText400();
    assert MissingHeader.Text() == "400: CSV vazio ou sem header";
  }

  /** The intended header check: a missing header is the client's error, 400 with its own detail. */
  function HeaderCheck(rows: seq<seq<string>>): (r: Option<HttpError>)
    ensures r.None? <==> HasHeader(rows)
    ensures r.Some? ==> r == Some(MissingHeader) && r.value.status == 400
  {
    if HasHeader(rows) then None else Some(MissingHeader)
  }

  const NotCsv := HttpError(400, "Arquivo deve ser CSV")

  /**
   * `import_cities` on an upload named `filename` whose decoded content `csv.reader` splits into
   * `rows`: a name without the ".csv" suffix is rejected with 400 before anything is read; the
   * first row is the header, the rest are imported. A missing header is rejected with 400 (the
   * intended behaviour, see `HeaderCheckAsWritten`) and touches nothing.
   */
  method ImportCities(table: CityTable, filename: string, rows: seq<seq<string>>, syntax: NumberSyntax,
                      fault: nat -> Option<string>)
    returns (r: Result<ImportSummary, HttpError>, ghost batches: seq<seq<CityRecord>>)
    modifies table
    ensures !EndsWith(filename, ".csv") ==> r == Err(NotCsv) && table.rows == old(table.rows) && batches == []
    ensures EndsWith(filename, ".csv") && !HasHeader(rows) ==>
              r == Err(MissingHeader) && table.rows == old(table.rows) && batches == []
    ensures EndsWith(filename, ".csv") && HasHeader(rows) ==>
              && r.Ok?
              && r.value.totalProcessed == |rows| - 1
              && r.value.inserted + r.value.updated + r.value.skipped == |rows| - 1
              && |r.value.errors| <= MaxErrorExamples
              && Flatten(batches) == ValidRecords(rows[1..], ParseWith(syntax))
              && BatchedBy(batches, BatchSize)
              && r.value.skipped == |RowFailures(rows[1..], ParseWith(syntax))| + |Flatten(Failed(batches, fault))|
              && r.value.inserted == CommittedCounts(old(table.rows), Committed(batches, fault)).0
              && r.value.updated == CommittedCounts(old(table.rows), Committed(batches, fault)).1
              && table.rows == Upserted(old(table.rows), Prepared(Flatten(Committed(batches, fault))))
              && r.value.errors == Messages(Take(ImportLog(rows[1..], ParseWith(syntax), fault), MaxErrorExamples))
    ensures EndsWith(filename, ".csv") && HasHeader(rows) && NoFaults(fault, |batches|) ==>
              && r.value.skipped == |RowFailures(rows[1..], ParseWith(syntax))|
              && r.value.inserted == CommittedCounts(old(table.rows), batches).0
              && r.value.updated == CommittedCounts(old(table.rows), batches).1
              && table.rows == Upserted(old(table.rows), Prepared(ValidRecords(rows[1..], ParseWith(syntax))))
              && r.value.errors == Messages(Take(RowFailures(rows[1..], ParseWith(syntax)), MaxErrorExamples))
  {
    if !EndsWith(filename, ".csv") {
      return Err(NotCsv), [];
    }
    match HeaderCheck(rows)
    case Some(e) =>
      r, batches := Err(e), [];
    case None =>
      var summary;
      summary, batches := ImportRows(table, rows[1..], ParseWith(syntax), fault);
      r := Ok(summary);
  }

  /**
   * `import_cities` with the header check as written: a file without a header leaves the endpoint
   * as the 500 of the outer handler, quoting the 400 raised inside it; everything else is as in
   * `ImportCities`.
   */
  method ImportCitiesAsWritten(table: CityTable, filename: string, rows: seq<seq<string>>, syntax: NumberSyntax,
                               fault: nat -> Option<string>)
    returns (r: Result<ImportSummary, HttpError>, ghost batches: seq<seq<CityRecord>>)
    modifies table
    ensures !EndsWith(filename, ".csv") ==> r == Err(NotCsv) && table.rows == old(table.rows) && batches == []
    ensures EndsWith(filename, ".csv") && !HasHeader(rows) ==>
              && r == Err(FileError(MissingHeader.Text())) && r.error.status == 500
              && table.rows == old(table.rows) && batches == []
    ensures EndsWith(filename, ".csv") && HasHeader(rows) ==>
              && r.Ok?
              && r.value.totalProcessed == |rows| - 1
              && Flatten(batches) == ValidRecords(rows[1..], ParseWith(syntax))
              && r.value.inserted == CommittedCounts(old(table.rows), Committed(batches, fault)).0
              && r.value.updated == CommittedCounts(old(table.rows), Committed(batches, fault)).1
              && r.value.skipped == |RowFailures(rows[1..], ParseWith(syntax))| + |Flatten(Failed(batches, fault))|
              && table.rows == Upserted(old(table.rows), Prepared(Flatten(Committed(batches, fault))))
  {
    if !EndsWith(filename, ".csv") {
      return Err(NotCsv), [];
    }
    match HeaderCheckAsWritten(rows)
    case Some(e) =>
      r, batches := Err(e), [];
    case None =>
      var summary;
      summary, batches := ImportRows(table, rows[1..], ParseWith(syntax), fault);
      r := Ok(summary);
  }
}
