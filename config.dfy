/**
 * Application settings (fastapi-app/app/core/config.py): the CORS origin list validator and the
 * derived properties `database_url_computed`, `is_dev` and `debug` of the `Settings` object.
 */
module Config {
  import opened Wrappers
  import opened Text

  const PlainScheme := "postgresql://"
  const DriverScheme := "postgresql+psycopg://"

  /** The raw value handed to the `cors_origins` validator: a comma-separated string or a list. */
  datatype CorsSetting = CorsText(text: string) | CorsList(origins: seq<string>)

  /** The comprehension `[origin.strip() for origin in pieces if origin.strip()]`. */
  function StrippedNonEmpty(pieces: seq<string>): (r: seq<string>)
    ensures |r| <= |pieces|
    ensures forall i :: 0 <= i < |r| ==> r[i] != [] && !IsSpace(r[i][0]) && !IsSpace(r[i][|r[i]| - 1])
  {
    if pieces == [] then []
    else
      var rest := StrippedNonEmpty(pieces[1..]);
      var origin := Strip(pieces[0]);
      TrimCharacterized(pieces[0], IsSpace);
      if origin == [] then rest else [origin] + rest
  }

  /** A slice of a string holds no character the string itself does not hold. */
  lemma SliceLacks(s: string, a: nat, b: nat, c: char)
    requires a <= b <= |s| && c !in s
    ensures c !in s[a..b]
  {
  }

  /** Stripping a piece that holds no comma gives an origin that holds no comma. */
  lemma StrippedLacks(pieces: seq<string>, c: char)
    requires forall i :: 0 <= i < |pieces| ==> c !in pieces[i]
    ensures forall i :: 0 <= i < |StrippedNonEmpty(pieces)| ==> c !in StrippedNonEmpty(pieces)[i]
  {
    if pieces != [] {
      StrippedLacks(pieces[1..], c);
      var p := pieces[0];
      TrimCharacterized(p, IsSpace);
      SliceLacks(p, LeadingCount(p, IsSpace), LeadingCount(p, IsSpace) + |Strip(p)|, c);
    }
  }

  /**
   * `Settings.parse_cors_origins`: a string is split on ',' and every piece stripped, dropping the
   * pieces that strip to nothing; a list is passed through unchanged.
   */
  function ParseCorsOrigins(v: CorsSetting): (r: seq<string>)
    ensures v.CorsList? ==> r == v.origins
    ensures v.CorsText? ==> |r| <= multiset(v.text)[','] + 1
    ensures v.CorsText? ==> forall i :: 0 <= i < |r| ==>
              && r[i] != []
              && !IsSpace(r[i][0]) && !IsSpace(r[i][|r[i]| - 1])
              && ',' !in r[i]
  {
    match v
    case CorsList(origins) => origins
    case CorsText(text) =>
      SplitPieces(text, ',');
      StrippedLacks(Split(text, ','), ',');
      StrippedNonEmpty(Split(text, ','))
  }

  /** Some piece strips to `x`. */
  predicate StripsTo(pieces: seq<string>, x: string)
  {
    exists j :: 0 <= j < |pieces| && Strip(pieces[j]) == x
  }

  /** An origin is kept exactly when it is the non-empty strip of some piece. */
  lemma {:induction false} StrippedNonEmptyMembers(pieces: seq<string>, x: string)
    ensures x in StrippedNonEmpty(pieces) <==> x != [] && StripsTo(pieces, x)
  {
    if pieces != [] {
      StrippedNonEmptyMembers(pieces[1..], x);
      if x != [] && Strip(pieces[0]) != x {
        if (exists j :: 0 <= j < |pieces| && Strip(pieces[j]) == x) {
          var j :| 0 <= j < |pieces| && Strip(pieces[j]) == x;
          assert Strip(pieces[1..][j - 1]) == x;
        }
      }
      if exists j :: 0 <= j < |pieces| - 1 && Strip(pieces[1..][j]) == x {
        var j :| 0 <= j < |pieces| - 1 && Strip(pieces[1..][j]) == x;
        assert Strip(pieces[j + 1]) == x;
      }
    }
  }

  /** The origins parsed from a string are, in both directions, the non-empty stripped pieces. */
  lemma CorsOriginsAreStrippedPieces(text: string, x: string)
    ensures x in ParseCorsOrigins(CorsText(text)) <==> x != [] && StripsTo(Split(text, ','), x)
  {
    var pieces := Split(text, ',');
    assert ParseCorsOrigins(CorsText(text)) == StrippedNonEmpty(pieces);
    StrippedNonEmptyMembers(pieces, x);
  }

  /** The `Settings` fields the modelled properties read, with the source's defaults below. */
  datatype Settings = Settings(
    appEnv: string,
    databaseUrl: Option<string>,
    postgresHost: string,
    postgresDb: string,
    postgresUser: string,
    postgresPassword: string,
    postgresPort: int,
    corsOrigins: seq<string>)
  {
    /**
     * The URL built from the components when no `database_url` is given: the driver scheme, the
     * credentials, host and port, and the database name last.
     */
    function ComponentUrl(): (url: string)
      ensures StartsWith(url, DriverScheme) && !StartsWith(url, PlainScheme)
      ensures EndsWith(url, "/" + postgresDb)
    {
      var rest := postgresUser + ":" + postgresPassword + "@" + postgresHost + ":" + IntToString(postgresPort) + "/" + postgresDb;
      DriverSchemeIsNotPlain(rest);
      assert rest == (postgresUser + ":" + postgresPassword + "@" + postgresHost + ":" + IntToString(postgresPort)) + ("/" + postgresDb);
      DriverScheme + rest
    }

    /**
     * `database_url_computed`: a non-empty `database_url` has a leading `postgresql://` rewritten to
     * `postgresql+psycopg://` and is otherwise returned as is; an absent or empty one gives the URL
     * built from the components.
     */
    function DatabaseUrlComputed(): (url: string)
      ensures databaseUrl.Some? && databaseUrl.value != [] && StartsWith(databaseUrl.value, PlainScheme) ==>
                url == DriverScheme + databaseUrl.value[|PlainScheme|..]
      ensures databaseUrl.Some? && databaseUrl.value != [] && !StartsWith(databaseUrl.value, PlainScheme) ==>
                url == databaseUrl.value
      ensures (databaseUrl.None? || databaseUrl.value == []) ==> url == ComponentUrl()
      ensures url != []
    {
      if databaseUrl.Some? && databaseUrl.value != [] then
        var u := databaseUrl.value;
        if StartsWith(u, PlainScheme) then ReplaceFirst(u, PlainScheme, DriverScheme)
        else if StartsWith(u, DriverScheme) then u
        else u
      else ComponentUrl()
    }

    /** `is_dev`: the environment name, lower-cased, is "dev"; that is, it spells "dev" in any case. */
    function IsDev(): (dev: bool)
      ensures dev <==> SpellsDev(appEnv)
    {
      LowerIsDev(appEnv);
      Lower(appEnv) == "dev"
    }

    /** `debug` is the same flag as `is_dev`. */
    function Debug(): (debug: bool)
      ensures debug <==> SpellsDev(appEnv)
    {
      IsDev()
    }
  }

  /** The defaults declared on `Settings`. */
  const DefaultSettings := Settings(
    "dev", None, "localhost", "dbname", "user", "password", 5432,
    ["http://localhost:3000", "http://localhost:8000", "http://localhost:5173"])

  /** `e` is "dev" in some mix of upper and lower case. */
  predicate SpellsDev(e: string)
  {
    && |e| == 3
    && (e[0] == 'd' || e[0] == 'D')
    && (e[1] == 'e' || e[1] == 'E')
    && (e[2] == 'v' || e[2] == 'V')
  }

  /** A URL with the driver scheme is never taken for one with the plain scheme. */
  lemma DriverSchemeIsNotPlain(rest: string)
    ensures !StartsWith(DriverScheme + rest, PlainScheme)
  {
    assert (DriverScheme + rest)[10] == '+';
  }

  /**
   * Feeding the computed URL back in as `database_url` yields the same URL: the rewrite is
   * idempotent, and the built URL is left alone.
   */
  lemma DatabaseUrlIdempotent(s: Settings)
    ensures s.(databaseUrl := Some(s.DatabaseUrlComputed())).DatabaseUrlComputed() == s.DatabaseUrlComputed()
  {
    var url := s.DatabaseUrlComputed();
    if s.databaseUrl.Some? && s.databaseUrl.value != [] && StartsWith(s.databaseUrl.value, PlainScheme) {
      DriverSchemeIsNotPlain(s.databaseUrl.value[|PlainScheme|..]);
    } else if s.databaseUrl.None? || s.databaseUrl.value == [] {
      assert url == DriverScheme + (s.postgresUser + ":" + s.postgresPassword + "@" + s.postgresHost + ":"
        + IntToString(s.postgresPort) + "/" + s.postgresDb);
      DriverSchemeIsNotPlain(s.postgresUser + ":" + s.postgresPassword + "@" + s.postgresHost + ":"
        + IntToString(s.postgresPort) + "/" + s.postgresDb);
    }
  }

  /** Every computed URL uses the psycopg driver scheme unless a given URL has some other scheme. */
  lemma DatabaseUrlScheme(s: Settings)
    ensures StartsWith(s.DatabaseUrlComputed(), DriverScheme)
            || (s.databaseUrl.Some? && s.DatabaseUrlComputed() == s.databaseUrl.value
                && !StartsWith(s.databaseUrl.value, PlainScheme) && !StartsWith(s.databaseUrl.value, DriverScheme))
  {
    if s.databaseUrl.None? || s.databaseUrl.value == [] {
      assert s.DatabaseUrlComputed() == DriverScheme + (s.postgresUser + ":" + s.postgresPassword + "@"
        + s.postgresHost + ":" + IntToString(s.postgresPort) + "/" + s.postgresDb);
    }
  }

  /** Only 'd'/'D', 'e'/'E', 'v'/'V' lower-case to 'd', 'e', 'v'. */
  lemma LowerCharIs(c: char, target: char)
    requires target == 'd' || target == 'e' || target == 'v'
    ensures LowerChar(c) == target <==> c == target || c as int == target as int - 32
  {
  }

  /** A name lower-cases to "dev" exactly when it spells "dev" in any mix of cases. */
  lemma LowerIsDev(e: string)
    ensures Lower(e) == "dev" <==> SpellsDev(e)
  {
    var l := Lower(e);
    if |e| == 3 {
      LowerCharIs(e[0], 'd');
      LowerCharIs(e[1], 'e');
      LowerCharIs(e[2], 'v');
      assert l == "dev" <==> l[0] == 'd' && l[1] == 'e' && l[2] == 'v';
    } else {
      assert |l| != |"dev"|;
    }
  }

  /**
   * Without an environment the defaults give a development setup whose database URL is built from
   * the default components, and the default origin list passes the validator unchanged.
   */
  lemma DefaultSettingsDerived()
    ensures DefaultSettings.IsDev() && DefaultSettings.Debug()
    ensures DefaultSettings.DatabaseUrlComputed()
            == DriverScheme + "user" + ":" + "password" + "@" + "localhost" + ":" + "5432" + "/" + "dbname"
    ensures ParseCorsOrigins(CorsList(DefaultSettings.corsOrigins)) == DefaultSettings.corsOrigins
  {
    DefaultPortText();
  }

  lemma DefaultPortText()
    ensures IntToString(5432) == "5432"
  {
    assert NatToString(5) == "5";
    assert NatToString(54) == "54";
    assert NatToString(543) == "543";
  }
}
