/** `DatabaseConnector.execute_query`: the SELECT-only guard and the shaping
    of the driver's outcome into the value the caller receives. The database
    driver is a parameter; the model records whether the query reached it. */
module Query {
  import opened Outcomes
  import opened Text

  const SelectKeyword := "select"
  const OnlySelectMessage := "Only SELECT statements are allowed"
  const QueryErrorPrefix := "An error occurred when attempting to process the query: "

  /** The guard: stripped of surrounding whitespace and lower-cased, the
      query must start with `select`. */
  predicate IsSelectQuery(query: string) {
    StartsWith(Lower(Strip(query)), SelectKeyword)
  }

  /** `w` spells SELECT, each letter in either case. */
  predicate SpellsSelect(w: string) {
    |w| == 6 && forall i :: 0 <= i < 6 ==> w[i] == "select"[i] || w[i] == "SELECT"[i]
  }

  /** The guard described without stripping or lower-casing: some run of
      whitespace, then the six letters of SELECT in any mix of cases. */
  ghost predicate OpensWithSelect(query: string) {
    exists k: nat :: k + 6 <= |query| && AllSpace(query[..k]) && SpellsSelect(query[k..k + 6])
  }

  /** ASCII lower-casing sends exactly the two cases of a letter to its lower case. */
  lemma LowerCharOfLetter(c: char, lower: char, upper: char)
    requires 'a' <= lower <= 'z' && upper as int == lower as int - 32
    ensures LowerChar(c) == lower <==> c == lower || c == upper
  {
  }

  /** Once the leading whitespace `query[..k]` is known, the reference
      description reduces to the six characters after it. */
  lemma OpensWithSelectAt(query: string, k: nat)
    requires k <= |query| && AllSpace(query[..k])
    requires k < |query| ==> !IsSpace(query[k])
    ensures OpensWithSelect(query) <==> k + 6 <= |query| && SpellsSelect(query[k..k + 6])
  {
    if OpensWithSelect(query) {
      var k': nat :| k' + 6 <= |query| && AllSpace(query[..k']) && SpellsSelect(query[k'..k' + 6]);
      assert !IsSpace(query[k']) by {
        assert query[k'] == query[k'..k' + 6][0];
      }
      SpacePrefix(query, k);
      SpacePrefix(query, k');
      assert k' == k;
    }
    if k + 6 <= |query| && SpellsSelect(query[k..k + 6]) {
      assert OpensWithSelect(query);
    }
  }

  /** `AllSpace` of a prefix, restated for the characters of the whole query. */
  lemma SpacePrefix(query: string, k: nat)
    requires k <= |query| && AllSpace(query[..k])
    ensures forall j :: 0 <= j < k ==> IsSpace(query[j])
  {
    assert forall j :: 0 <= j < k ==> query[j] == query[..k][j];
  }

  /** The guard accepts exactly the queries the reference description admits. */
  lemma GuardMatchesReference(query: string)
    ensures IsSelectQuery(query) <==> OpensWithSelect(query)
  {
    var k := LeadingSpaceOf(query);
    OpensWithSelectAt(query, k);
    if IsSelectQuery(query) {
      AcceptedSpellsSelect(query, k);
    }
    if k + 6 <= |query| && SpellsSelect(query[k..k + 6]) {
      SpelledIsAccepted(query, k);
    }
  }

  /** Stripping a query with `k` leading blanks keeps `query[k..]` up to its trailing blanks. */
  lemma StripAfterLeadingSpace(query: string, k: nat)
    requires k <= |query| && AllSpace(query[..k])
    requires k < |query| ==> !IsSpace(query[k])
    ensures Strip(query) == TrimEnd(query[k..], IsSpace)
  {
    SpacePrefix(query, k);
    TrimStartAt(query, IsSpace, k);
  }

  /** An accepted query spells SELECT right after its leading whitespace. */
  lemma AcceptedSpellsSelect(query: string, k: nat)
    requires k <= |query| && AllSpace(query[..k])
    requires k < |query| ==> !IsSpace(query[k])
    requires IsSelectQuery(query)
    ensures k + 6 <= |query| && SpellsSelect(query[k..k + 6])
  {
    SpelledAfterLowering(Strip(query));
    StrippedKeyword(query, k);
  }

  /** SELECT right after the leading whitespace makes the query pass. */
  lemma SpelledIsAccepted(query: string, k: nat)
    requires k + 6 <= |query| && AllSpace(query[..k])
    requires SpellsSelect(query[k..k + 6])
    ensures IsSelectQuery(query)
  {
    assert !IsSpace(query[k]) by {
      assert query[k] == query[k..k + 6][0];
    }
    assert |Strip(query)| >= 6 by {
      assert query[k + 5] == query[k..k + 6][5];
      KeywordSurvivesStrip(query, k);
    }
    StrippedKeyword(query, k);
    LoweringSpelled(Strip(query));
  }

  /** After `k` leading blanks, the first six characters of the stripped
      query are `query[k..k + 6]`. */
  lemma StrippedKeyword(query: string, k: nat)
    requires k <= |query| && AllSpace(query[..k])
    requires k < |query| ==> !IsSpace(query[k])
    requires |Strip(query)| >= 6
    ensures k + 6 <= |query| && Strip(query)[..6] == query[k..k + 6]
  {
    SpacePrefix(query, k);
    TrimStartAt(query, IsSpace, k);
    StripWithKeepsPrefix(query, IsSpace, k, 6);
  }

  /** Six non-blank characters after the leading blanks survive stripping. */
  lemma KeywordSurvivesStrip(query: string, k: nat)
    requires k + 6 <= |query| && AllSpace(query[..k]) && !IsSpace(query[k])
    requires !IsSpace(query[k + 5])
    ensures |Strip(query)| >= 6
  {
    StripAfterLeadingSpace(query, k);
    var u := query[k..];
    assert u[5] == query[k + 5];
  }

  /** Lower-casing gives a string starting with `select` exactly when the
      original starts with SELECT in some mix of cases. */
  lemma SpelledAfterLowering(t: string)
    requires StartsWith(Lower(t), SelectKeyword)
    ensures |t| >= 6 && SpellsSelect(t[..6])
  {
    forall i | 0 <= i < 6
      ensures t[..6][i] == "select"[i] || t[..6][i] == "SELECT"[i]
    {
      assert Lower(t)[i] == "select"[i];
      LowerCharOfLetter(t[i], "select"[i], "SELECT"[i]);
    }
  }

  /** SELECT in any mix of cases lower-cases to a string starting with `select`. */
  lemma LoweringSpelled(t: string)
    requires |t| >= 6 && SpellsSelect(t[..6])
    ensures StartsWith(Lower(t), SelectKeyword)
  {
    forall i | 0 <= i < 6
      ensures Lower(t)[i] == "select"[i]
    {
      assert t[i] == t[..6][i];
      LowerCharOfLetter(t[i], "select"[i], "SELECT"[i]);
    }
    assert Lower(t)[..6] == SelectKeyword;
  }

  /** The length of the run of whitespace that opens `query`. */
  lemma LeadingSpaceOf(query: string) returns (k: nat)
    ensures k <= |query| && AllSpace(query[..k])
    ensures k < |query| ==> !IsSpace(query[k])
  {
    var u := TrimStart(query, IsSpace);
    k := |query| - |u|;
    forall j | 0 <= j < k
      ensures IsSpace(query[..k][j])
    {
      assert query[..k][j] == query[j];
    }
    assert k < |query| ==> query[k] == u[0];
  }

  /** Lower-casing never turns a non-space into a space. */
  lemma SpaceUnderLowering(c: char, d: char)
    requires LowerChar(c) == LowerChar(d) && IsSpace(c)
    ensures IsSpace(d)
  {
  }

  /** The reference description survives replacing a query by one with the same lower case. */
  lemma OpensWithSelectUnderLowering(query: string, other: string)
    requires Lower(query) == Lower(other) && OpensWithSelect(query)
    ensures OpensWithSelect(other)
  {
    var k: nat :| k + 6 <= |query| && AllSpace(query[..k]) && SpellsSelect(query[k..k + 6]);
    assert |other| == |query| by {
      assert |Lower(other)| == |Lower(query)|;
    }
    SpacePrefixUnderLowering(query, other, k);
    KeywordUnderLowering(query, other, k);
    assert k + 6 <= |other| && AllSpace(other[..k]) && SpellsSelect(other[k..k + 6]);
  }

  /** A whitespace prefix stays whitespace in a string with the same lower case. */
  lemma SpacePrefixUnderLowering(query: string, other: string, k: nat)
    requires Lower(query) == Lower(other) && k <= |query| && AllSpace(query[..k])
    ensures k <= |other| && AllSpace(other[..k])
  {
    assert |Lower(other)| == |Lower(query)|;
    SpacePrefix(query, k);
    forall j | 0 <= j < k
      ensures IsSpace(other[..k][j])
    {
      assert Lower(query)[j] == Lower(other)[j];
      SpaceUnderLowering(query[j], other[j]);
    }
  }

  /** SELECT spelled at `k` stays spelled in a string with the same lower case. */
  lemma KeywordUnderLowering(query: string, other: string, k: nat)
    requires Lower(query) == Lower(other) && k + 6 <= |query| && SpellsSelect(query[k..k + 6])
    ensures k + 6 <= |other| && SpellsSelect(other[k..k + 6])
  {
    assert |Lower(other)| == |Lower(query)|;
    forall i | 0 <= i < 6
      ensures other[k..k + 6][i] == "select"[i] || other[k..k + 6][i] == "SELECT"[i]
    {
      assert query[k + i] == query[k..k + 6][i];
      assert Lower(query)[k + i] == Lower(other)[k + i];
      LowerCharOfLetter(query[k + i], "select"[i], "SELECT"[i]);
      LowerCharOfLetter(other[k + i], "select"[i], "SELECT"[i]);
    }
  }

  /** The guard ignores case: queries that agree once lower-cased get the same verdict. */
  lemma GuardIgnoresCase(query: string, other: string)
    requires Lower(query) == Lower(other)
    ensures IsSelectQuery(query) == IsSelectQuery(other)
  {
    GuardMatchesReference(query);
    GuardMatchesReference(other);
    if OpensWithSelect(query) {
      OpensWithSelectUnderLowering(query, other);
    }
    if OpensWithSelect(other) {
      OpensWithSelectUnderLowering(other, query);
    }
  }

  /** Whitespace in front of a query never changes the verdict. */
  lemma GuardIgnoresLeadingSpace(w: string, query: string)
    requires AllSpace(w)
    ensures IsSelectQuery(w + query) == IsSelectQuery(query)
  {
    var k := LeadingSpaceOf(query);
    var padded := w + query;
    var k' := |w| + k;
    assert AllSpace(padded[..k']) by {
      SpacePrefix(query, k);
      forall j | 0 <= j < k'
        ensures IsSpace(padded[..k'][j])
      {
        assert padded[..k'][j] == padded[j];
        if j >= |w| {
          assert padded[j] == query[j - |w|];
        }
      }
    }
    assert k' < |padded| ==> padded[k'] == query[k];
    assert k' + 6 <= |padded| ==> padded[k'..k' + 6] == query[k..k + 6];
    OpensWithSelectAt(query, k);
    OpensWithSelectAt(padded, k');
    GuardMatchesReference(query);
    GuardMatchesReference(padded);
  }

  /** Once six characters follow the leading whitespace, nothing appended
      afterwards changes the verdict. */
  lemma VerdictSettledBySixCharacters(query: string, rest: string)
    requires |TrimStart(query, IsSpace)| >= 6
    ensures IsSelectQuery(query + rest) == IsSelectQuery(query)
  {
    var k := LeadingSpaceOf(query);
    assert k + 6 <= |query| by {
      SpacePrefix(query, k);
      TrimStartAt(query, IsSpace, k);
    }
    OpensWithSelectExtended(query, rest, k);
    GuardMatchesReference(query);
    GuardMatchesReference(query + rest);
  }

  /** With six characters after the leading whitespace, appending text keeps the reference verdict. */
  lemma OpensWithSelectExtended(query: string, rest: string, k: nat)
    requires k + 6 <= |query| && AllSpace(query[..k]) && !IsSpace(query[k])
    ensures OpensWithSelect(query + rest) == OpensWithSelect(query)
  {
    var whole := query + rest;
    assert whole[..k] == query[..k];
    assert whole[k] == query[k];
    assert whole[k..k + 6] == query[k..k + 6];
    OpensWithSelectAt(query, k);
    OpensWithSelectAt(whole, k);
  }

  /** An accepted query stays accepted whatever is appended to it. */
  lemma GuardIgnoresSuffix(query: string, rest: string)
    requires IsSelectQuery(query)
    ensures IsSelectQuery(query + rest)
  {
    GuardMatchesReference(query);
    var k: nat :| k + 6 <= |query| && AllSpace(query[..k]) && SpellsSelect(query[k..k + 6]);
    var whole := query + rest;
    assert whole[..k] == query[..k];
    assert whole[k..k + 6] == query[k..k + 6];
    assert OpensWithSelect(whole);
    GuardMatchesReference(whole);
  }

  /** Whitespace, then SELECT in any case, then anything at all, is accepted. */
  lemma GuardAcceptsAnyContinuation(w: string, keyword: string, rest: string)
    requires AllSpace(w) && SpellsSelect(keyword)
    ensures IsSelectQuery(w + keyword + rest)
  {
    var query := w + keyword + rest;
    assert query[..|w|] == w;
    assert query[|w|..|w| + 6] == keyword;
    assert OpensWithSelect(query);
    GuardMatchesReference(query);
  }

  /** The first six characters rule out SELECT when one of them spells neither case. */
  lemma GuardRejectsAt(query: string, i: nat)
    requires |query| >= 6 && !IsSpace(query[0]) && i < 6
    requires query[i] != "select"[i] && query[i] != "SELECT"[i]
    ensures !IsSelectQuery(query)
  {
    assert query[..0] == "";
    assert query[0..6][i] == query[i];
    OpensWithSelectAt(query, 0);
    GuardMatchesReference(query);
  }

  /** The query the module's own smoke test runs is accepted. */
  lemma GuardAcceptsUpperCase()
    ensures IsSelectQuery("SELECT * FROM users")
  {
    GuardAcceptsAt("SELECT * FROM users", 0);
  }

  /** Mixed case is lowered before the prefix test. */
  lemma GuardAcceptsMixedCase()
    ensures IsSelectQuery("Select name FROM users")
  {
    GuardAcceptsAt("Select name FROM users", 0);
  }

  /** A space, a line break and a tab before the keyword are stripped. */
  lemma GuardAcceptsAfterSpace()
    ensures IsSelectQuery(" \n\tselect 1")
  {
    GuardAcceptsAt(" \n\tselect 1", 3);
  }

  /** A second statement stacked after a SELECT passes the guard. */
  lemma GuardAcceptsStackedStatement()
    ensures IsSelectQuery("select 1; DROP TABLE users")
  {
    GuardAcceptsAt("select 1; DROP TABLE users", 0);
  }

  /** A query whose characters from `k` on spell SELECT after whitespace is accepted. */
  lemma GuardAcceptsAt(query: string, k: nat)
    requires k + 6 <= |query| && AllSpace(query[..k]) && SpellsSelect(query[k..k + 6])
    ensures IsSelectQuery(query)
  {
    GuardMatchesReference(query);
  }

  /** Another statement is refused. */
  lemma GuardRejectsDelete()
    ensures !IsSelectQuery("DELETE FROM users")
  {
    GuardRejectsAt("DELETE FROM users", 0);
  }

  /** A SELECT that is not the first word is refused, as in a common table expression. */
  lemma GuardRejectsWith()
    ensures !IsSelectQuery("WITH t AS (SELECT 1) SELECT * FROM t")
  {
    GuardRejectsAt("WITH t AS (SELECT 1) SELECT * FROM t", 0);
  }

  /** A keyword cut short is refused. */
  lemma GuardRejectsTruncated()
    ensures !IsSelectQuery("selec")
  {
    StripWithAt("selec", IsSpace, 0, 5);
    assert "selec"[0..5] == "selec";
  }

  /** What the database driver does with a submitted query: fetch its rows,
      or fail with an SQLAlchemy error whose `str()` is `message`. */
  datatype DriverOutcome<Row> = Fetched(rows: seq<Row>) | DriverError(message: string)

  /** What `execute_query` returns: the rows, or the text of a driver error. */
  datatype QueryReply<Row> = Rows(rows: seq<Row>) | ErrorText(text: string)

  /** One call of `execute_query`: the text handed to the driver, if any, and
      the value returned or the exception raised. */
  datatype Execution<Row> = Execution(submitted: Option<string>, result: Result<QueryReply<Row>>)

  /** `execute_query(query)` against the driver `driver`. */
  function ExecuteQuery<Row>(query: string, driver: string -> DriverOutcome<Row>): (e: Execution<Row>)
    ensures e.result.Err? <==> !IsSelectQuery(query)
    ensures e.result.Err? ==> e.result.error == ValueError(OnlySelectMessage)
    ensures e.submitted.None? <==> e.result.Err?
    ensures e.submitted.Some? ==> e.submitted.value == query
    ensures e.result.Ok? && driver(query).Fetched? ==> e.result.value == Rows(driver(query).rows)
    ensures e.result.Ok? && driver(query).DriverError? ==>
              && e.result.value.ErrorText?
              && StartsWith(e.result.value.text, QueryErrorPrefix)
              && e.result.value.text[|QueryErrorPrefix|..] == driver(query).message
  {
    if !IsSelectQuery(query) then
      Execution(None, Err(ValueError(OnlySelectMessage)))
    else
      match driver(query)
      case Fetched(rows) => Execution(Some(query), Ok(Rows(rows)))
      case DriverError(message) => Execution(Some(query), Ok(ErrorText(QueryErrorPrefix + message)))
  }

  /** `execute_query` raises exactly for the queries the reference
      description refuses; a driver error is returned, never raised. */
  lemma ExecuteQueryRaisesOnlyForNonSelect<Row>(query: string, driver: string -> DriverOutcome<Row>)
    ensures ExecuteQuery(query, driver).result.Err? <==> !OpensWithSelect(query)
    ensures driver(query).DriverError? && OpensWithSelect(query) ==> ExecuteQuery(query, driver).result.Ok?
  {
    GuardMatchesReference(query);
  }

  /** A refused query never reaches the driver: its outcome is the same
      whatever the driver would have done. */
  lemma RejectionIgnoresDriver<Row>(query: string, driver: string -> DriverOutcome<Row>, other: string -> DriverOutcome<Row>)
    requires !IsSelectQuery(query)
    ensures ExecuteQuery(query, driver) == ExecuteQuery(query, other)
    ensures ExecuteQuery(query, driver).submitted == None
  {
  }

  /** The smoke test's own query, `SELECT * FROM users`, reaches the driver verbatim. */
  lemma SmokeTestQueryReachesDriver<Row>(driver: string -> DriverOutcome<Row>)
    ensures ExecuteQuery("SELECT * FROM users", driver).submitted == Some("SELECT * FROM users")
  {
    GuardAcceptsUpperCase();
  }

  /** A DELETE is refused with the guard's message and never reaches the driver. */
  lemma DeleteIsRefused<Row>(driver: string -> DriverOutcome<Row>)
    ensures ExecuteQuery("DELETE FROM users", driver) == Execution(None, Err(ValueError("Only SELECT statements are allowed")))
  {
    GuardRejectsDelete();
  }
}
