/**
 Building on demand and fetching one row. `BuildSql` checks the verb, runs the
 verb's validator and then its builder. `FetchOne` builds, hands the statement
 to the database and accepts the answer only when exactly one row was
 affected, before handing it to the verb's parser.

 The connection pool, the execution of the statement and the storing of its
 result are driver calls; the model takes the database's answer to a statement
 text as a parameter (`Database`).
 */
module Fetch {
  import opened YValue
  import opened SqlFill
  import opened QueryObject
  import opened Statement
  import opened SizeBound
  import opened ResultParser

  /** `_ytable_build_sql`: a real verb, a validated object, then the builder. */
  function BuildSql(q: Query, k: Keywords, t: TableConfig, fixes: Fixes): (r: Outcome)
    ensures r.ok <==> IsValidVerb(Code(q.verb)) && Validate(q) && (q.sql.Str? || Typed(q))
    ensures !r.ok ==> r.query == q
    ensures r.ok ==> r.query.sql.Str? && r.query == q.(sql := r.query.sql)
    ensures r.ok && q.sql.Str? ==> r.query == q
  {
    if !IsValidVerb(Code(q.verb)) then Outcome(false, q)
    else if !Validate(q) then Outcome(false, q)
    else Build(q, k, t, fixes)
  }

  /** With the estimates repaired, building an unbuilt, validated object whose
      keys and values have the accepted types stores the intended statement, and
      the fill never writes past the allocation. */
  lemma BuildSqlStoresStatement(q: Query, k: Keywords, t: TableConfig)
    requires IntWidthCovered(k) && ConsistentTable(t)
    requires q.verb != NoVerb && Validate(q) && !q.sql.Str?
    requires BuilderShape(q) && Typed(q)
    ensures BuildSql(q, k, t, CORRECTED).ok
    ensures BuildSql(q, k, t, CORRECTED).query == q.(sql := Str(StatementText(q, k, t)))
    ensures Fill(q, k, t, CORRECTED).peak + 1 <= Estimate(q, k, t, CORRECTED).value
  {
    ValidVerbCodes(Code(q.verb));
    match q.verb
    case Select => SelectFits(k, t, q.fields.value.items, q.conditions.value);
    case Update => UpdateFits(k, t, q.fields.value.entries, q.conditions.value);
    case Insert => InsertFits(k, t, q.fields.value.entries);
    case Delete => DeleteFits(k, t, q.conditions.value);
  }

  /** Building twice is building once. */
  lemma BuildSqlIdempotent(q: Query, k: Keywords, t: TableConfig, fixes: Fixes)
    requires BuildSql(q, k, t, fixes).ok
    ensures BuildSql(BuildSql(q, k, t, fixes).query, k, t, fixes) == BuildSql(q, k, t, fixes)
  {
    var b := BuildSql(q, k, t, fixes).query;
    ValidVerbCodes(Code(q.verb));
    assert b.verb == q.verb && b.fields == q.fields && b.conditions == q.conditions;
    assert Validate(b) == Validate(q);
  }

  /** The database's answer to a statement. */
  datatype Answer =
    | NoConnection
    | ExecuteFailed
    /** The statement has result columns but its result could not be stored. */
    | StoreFailed
    /** The statement has no result columns; only the affected-row count. */
    | Affected(affected: nat)
    | Stored(affected: nat, rs: ResultSet)

  type Database = string -> Answer

  datatype FetchOutcome = FetchOutcome(ok: bool, query: Query, result: Option<YVar>)

  /** `_ytable_fetch_one`. */
  function FetchOne(q: Query, k: Keywords, t: TableConfig, fixes: Fixes, db: Database,
                    convert: Converter): (r: FetchOutcome)
    requires BuildSql(q, k, t, fixes).ok && q.verb == Select ==>
               SelectAnswer(db(BuildSql(q, k, t, fixes).query.sql.s))
    ensures !BuildSql(q, k, t, fixes).ok ==> r == FetchOutcome(false, q, None)
    ensures r.ok ==> BuildSql(q, k, t, fixes).ok
    ensures r.ok ==> r.query == BuildSql(q, k, t, fixes).query.(affectedRows := 1)
    ensures r.ok <==> r.result.Some?
    ensures BuildSql(q, k, t, fixes).ok ==>
              var a := db(BuildSql(q, k, t, fixes).query.sql.s);
              && ((a.Affected? || a.Stored?) ==>
                    r.query == BuildSql(q, k, t, fixes).query.(affectedRows := a.affected))
              && (r.ok ==> (a.Affected? || a.Stored?) && a.affected == 1)
              && ((a.Affected? || a.Stored?) && a.affected == 1 && q.verb != Select ==> r.ok)
              && ((a.NoConnection? || a.ExecuteFailed? || a.StoreFailed?) ==>
                    r == FetchOutcome(false, BuildSql(q, k, t, fixes).query, None))
              && (a.Stored? && a.affected == 1 && q.verb == Select ==>
                    (r.ok <==> a.rs.columns == |q.fields.value.items| && AllConvert(convert, a.rs.rows)))
    ensures r.ok && q.verb != Select ==> r.result == Some(RESULT_TRUE)
    ensures r.ok && q.verb == Select ==>
              && r.result.value.Arr? && |r.result.value.items| == 1
              && var a := db(BuildSql(q, k, t, fixes).query.sql.s);
                 a.Stored? && |a.rs.rows| == 1
                 && IsRowMap(q.fields.value.items, convert, a.rs.rows[0], r.result.value.items[0])
  {
    var b := BuildSql(q, k, t, fixes);
    if !b.ok then FetchOutcome(false, q, None)
    else
      assert b.query.verb != NoVerb && (q.verb == Select ==> NonEmptyArray(q.fields)) by {
        ValidVerbCodes(Code(q.verb));
      }
      var a := db(b.query.sql.s);
      assert q.verb == Select ==> SelectAnswer(a);
      match a
      case NoConnection => FetchOutcome(false, b.query, None)
      case ExecuteFailed => FetchOutcome(false, b.query, None)
      case StoreFailed => FetchOutcome(false, b.query, None)
      case Affected(n) => Gate(b.query.(affectedRows := n), None, convert)
      case Stored(n, rs) => Gate(b.query.(affectedRows := n), Some(rs), convert)
  }

  /** A SELECT statement's answer, when it arrives, carries rows. */
  predicate SelectAnswer(a: Answer) {
    !a.Affected? && (a.Stored? ==> Rectangular(a.rs) && |a.rs.rows| == a.affected)
  }

  /** Exactly one affected row, then the verb's parser. */
  function Gate(q: Query, stored: Option<ResultSet>, convert: Converter): (r: FetchOutcome)
    requires q.verb != NoVerb
    requires q.verb == Select ==> q.fields.Some? && q.fields.value.Arr? && (q.affectedRows == 1 ==> SelectResultReady(q, stored))
    ensures r.query == q
    ensures r.ok ==> q.affectedRows == 1
    ensures r.ok <==> r.result.Some?
    ensures q.affectedRows != 1 ==> !r.ok
    ensures q.affectedRows == 1 && q.verb != Select ==> r.ok && r.result == Some(RESULT_TRUE)
    ensures q.affectedRows == 1 && q.verb == Select ==>
              (r.ok <==> stored.value.columns == |q.fields.value.items|
                         && AllConvert(convert, stored.value.rows))
    ensures r.ok && q.verb == Select ==>
              && r.result.value.Arr? && |r.result.value.items| == 1
              && IsRowMap(q.fields.value.items, convert, stored.value.rows[0], r.result.value.items[0])
  {
    if q.affectedRows != 1 then FetchOutcome(false, q, None)
    else
      match ParseResult(q, stored, convert)
      case ParseFailed => FetchOutcome(false, q, None)
      case Parsed(v) => FetchOutcome(true, q, Some(v))
  }
}
