/** The `DatabaseConnector` constructor and `init_db_engine` (credentials,
    then the engine URL, then a first connection) and `list_db_tables`. The
    engine and the inspector are outside the model: opening a connection is
    a parameter, and the table names are an input. */
module Connector {
  import opened Outcomes
  import opened Text
  import opened Integers
  import opened Credentials

  const Scheme := "postgresql+psycopg2://"

  /** The URL `init_db_engine` hands to `create_engine`. The settings are
      written in verbatim, without percent-escaping. */
  function EngineUrl(c: Creds): (url: string)
    ensures StartsWith(url, Scheme)
  {
    Scheme + c.user + ":" + c.password + "@" + c.host + ":" + IntToString(c.port) + "/" + c.database
  }

  /** Reads the settings back out of a URL of the shape `EngineUrl` writes:
      the user runs to the first `:`, the password to the next `@`, the host
      to the next `:`, the port to the next `/`, and the database is the rest. */
  function ParseEngineUrl(url: string): Option<Creds> {
    if StartsWith(url, Scheme) then ParseUser(url[|Scheme|..]) else None
  }

  /** The user runs to the first `:`. */
  function ParseUser(s: string): Option<Creds> {
    match IndexOf(s, ':')
    case None => None
    case Some(i) => ParsePassword(s[..i], s[i + 1..])
  }

  /** The password runs to the next `@`. */
  function ParsePassword(user: string, s: string): Option<Creds> {
    match IndexOf(s, '@')
    case None => None
    case Some(i) => ParseHost(user, s[..i], s[i + 1..])
  }

  /** The host runs to the next `:`. */
  function ParseHost(user: string, password: string, s: string): Option<Creds> {
    match IndexOf(s, ':')
    case None => None
    case Some(i) => ParsePort(user, password, s[..i], s[i + 1..])
  }

  /** The port runs to the next `/`, and the database is the rest. */
  function ParsePort(user: string, password: string, host: string, s: string): Option<Creds> {
    match IndexOf(s, '/')
    case None => None
    case Some(i) =>
      match ParseInt(s[..i])
      case None => None
      case Some(port) => Some(Creds(user, password, host, port, s[i + 1..]))
  }

  /** The settings can be read back from the URL whenever the user and the
      host hold no `:` and the password holds no `@`. */
  lemma EngineUrlRoundTrip(c: Creds)
    requires ':' !in c.user && '@' !in c.password && ':' !in c.host
    ensures ParseEngineUrl(EngineUrl(c)) == Some(c)
  {
    var portText := IntToString(c.port);
    var afterHost := portText + "/" + c.database;
    var afterPassword := c.host + ":" + afterHost;
    var afterUser := c.password + "@" + afterPassword;
    var afterScheme := c.user + ":" + afterUser;
    assert EngineUrl(c) == Scheme + afterScheme;
    assert (Scheme + afterScheme)[|Scheme|..] == afterScheme;
    ParsePortRoundTrip(c);
    ParseHostRoundTrip(c.user, c.password, c.host, afterHost);
    ParsePasswordRoundTrip(c.user, c.password, afterPassword);
    ParseUserRoundTrip(c.user, afterUser);
  }

  /** The port field, `str(port)`, is read back up to the `/` before the database. */
  lemma ParsePortRoundTrip(c: Creds)
    ensures ParsePort(c.user, c.password, c.host, IntToString(c.port) + "/" + c.database) == Some(c)
  {
    var portText := IntToString(c.port);
    assert '/' !in portText by {
      assert forall i :: 0 <= i < |portText| ==> portText[i] == '-' || IsDigit(portText[i]);
    }
    IndexOfAfter(portText, '/', c.database);
    ParseIntOfIntToString(c.port);
  }

  /** A host without `:` is cut off at the `:` that follows it. */
  lemma ParseHostRoundTrip(user: string, password: string, host: string, rest: string)
    requires ':' !in host
    ensures ParseHost(user, password, host + ":" + rest) == ParsePort(user, password, host, rest)
  {
    IndexOfAfter(host, ':', rest);
  }

  /** A password without `@` is cut off at the `@` that follows it. */
  lemma ParsePasswordRoundTrip(user: string, password: string, rest: string)
    requires '@' !in password
    ensures ParsePassword(user, password + "@" + rest) == ParseHost(user, password, rest)
  {
    IndexOfAfter(password, '@', rest);
  }

  /** A user without `:` is cut off at the `:` that follows it. */
  lemma ParseUserRoundTrip(user: string, rest: string)
    requires ':' !in user
    ensures ParseUser(user + ":" + rest) == ParsePassword(user, rest)
  {
    IndexOfAfter(user, ':', rest);
  }

  /** Without escaping, an `@` in the password and an `@` in the host can
      produce the same URL from different settings. */
  lemma EngineUrlAmbiguous()
    ensures Creds("a", "b@c", "d", 5432, "e") != Creds("a", "b", "c@d", 5432, "e")
    ensures EngineUrl(Creds("a", "b@c", "d", 5432, "e")) == EngineUrl(Creds("a", "b", "c@d", 5432, "e"))
  {
    assert "b@c" != "b";
  }

  /** The connector after construction: its credentials and the URL of its engine. */
  datatype Connection = Connection(creds: Creds, url: string)

  /** `DatabaseConnector()`: read the credentials, build the engine URL, and
      open one connection. `open(url)` is `Some(e)` when creating the engine
      or opening its first connection raises `e`, whatever its class: an
      SQLAlchemy error, a `ValueError` from parsing the URL, a missing driver
      module. The exception reaches the caller unchanged. */
  function Connect(env: Env, open: string -> Option<PyError>): (r: Result<Connection>)
    ensures ReadDbCreds(env).Err? ==> r == Err(ReadDbCreds(env).error)
    ensures r.Ok? <==> ReadDbCreds(env).Ok? && open(EngineUrl(ReadDbCreds(env).value)).None?
    ensures r.Ok? ==> r.value.creds == ReadDbCreds(env).value && r.value.url == EngineUrl(r.value.creds)
    ensures ReadDbCreds(env).Ok? && open(EngineUrl(ReadDbCreds(env).value)).Some? ==>
              r == Err(open(EngineUrl(ReadDbCreds(env).value)).value)
  {
    match ReadDbCreds(env)
    case Err(e) => Err(e)
    case Ok(creds) =>
      var url := EngineUrl(creds);
      match open(url)
      case Some(e) => Err(e)
      case None => Ok(Connection(creds, url))
  }

  /** Writing credentials into the environment and constructing the connector
      gives an engine URL from which those credentials can be read back. */
  lemma ConnectRoundTrip(c: Creds, open: string -> Option<PyError>)
    requires ':' !in c.user && '@' !in c.password && ':' !in c.host
    requires open(EngineUrl(c)).None?
    ensures Connect(EnvFor(c), open).Ok?
    ensures ParseEngineUrl(Connect(EnvFor(c), open).value.url) == Some(c)
  {
    ReadDbCredsRoundTrip(c);
    EngineUrlRoundTrip(c);
  }

  /** `list_db_tables()`: the names the inspector reports, one per line. */
  function ListDbTables(tableNames: seq<string>): string {
    Join('\n', tableNames)
  }

  /** Splitting the listing at line breaks gives the names back, for a
      non-empty list of names without line breaks. */
  lemma ListDbTablesSplitsBack(tableNames: seq<string>)
    requires |tableNames| > 0
    requires forall i :: 0 <= i < |tableNames| ==> '\n' !in tableNames[i]
    ensures Split(ListDbTables(tableNames), '\n') == tableNames
  {
    SplitJoin('\n', tableNames);
  }

  /** No tables give an empty listing, which splits into one empty name,
      so the round trip needs a non-empty list. */
  lemma ListDbTablesEmpty()
    ensures ListDbTables([]) == ""
    ensures Split("", '\n') == [""]
  {
  }

  /** Every listing is the line-break join of its own lines. */
  lemma ListingIsJoinOfLines(listing: string)
    ensures ListDbTables(Split(listing, '\n')) == listing
  {
    JoinSplit(listing, '\n');
  }
}
