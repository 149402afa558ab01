/**
 The query object and the calls that shape it before it is built: one verb
 setter per verb, each allowed only while no verb is set, and the condition
 attacher, allowed once, and never for INSERT.

 Every call answers with a flag and the object after the call; a rejected call
 hands back the object unchanged.
 */
module QueryObject {
  import opened YValue

  /** The verb enum; its values index the dispatch table. */
  datatype Verb = NoVerb | Select | Update | Insert | Delete

  const VERB_NULL: int := 0
  const VERB_MAX: int := 5

  function Code(v: Verb): nat {
    match v
    case NoVerb => 0
    case Select => 1
    case Update => 2
    case Insert => 3
    case Delete => 4
  }

  /** Names of the dispatch table's rows, indexed by verb code. */
  const VERB_NAMES: seq<string> := ["<NULL>", "SELECT", "UPDATE", "INSERT", "DELETE"]

  /** A verb code strictly between the null verb and the end marker. */
  predicate IsValidVerb(code: int) {
    VERB_NULL < code < VERB_MAX
  }

  /** The valid codes are exactly the codes of the four real verbs, and each names
      its own dispatch row. */
  lemma ValidVerbCodes(code: int)
    ensures IsValidVerb(code) <==> exists v: Verb :: v != NoVerb && Code(v) == code
    ensures forall v: Verb :: IsValidVerb(Code(v)) <==> v != NoVerb
    ensures forall v: Verb :: Code(v) < |VERB_NAMES|
  {
    if IsValidVerb(code) {
      var v := if code == 1 then Select else if code == 2 then Update
               else if code == 3 then Insert else Delete;
      assert Code(v) == code;
    }
  }

  /** The query object (`ytable_t`). `fields` and `conditions` are absent until a
      call attaches them; `sql` holds the compiled statement once built. */
  datatype Query = Query(
    verb: Verb,
    tableIndex: nat,
    fields: Option<YVar>,
    conditions: Option<YVar>,
    sql: YVar,
    affectedRows: nat,
    limit: int,
    offset: int)

  /** The answer of a call on the query object. */
  datatype Outcome = Outcome(ok: bool, query: Query)

  /** A freshly created object: everything zero except the index of its (already
      resolved) table and the default paging parameters. */
  function NewQuery(tableIndex: nat, defaultLimit: int, defaultOffset: int): (r: Query)
    ensures WellFormed(r) && r.verb == NoVerb && !r.sql.Str? && r.affectedRows == 0
    ensures r.tableIndex == tableIndex && r.limit == defaultLimit && r.offset == defaultOffset
  {
    Query(NoVerb, tableIndex, None, None, Undefined, 0, defaultLimit, defaultOffset)
  }

  /** The verb can still be set. */
  predicate VerbUnset(q: Query) {
    q.verb == NoVerb
  }

  function SetSelect(q: Query, fields: YVar): (r: Outcome)
    ensures r.ok <==> fields.Arr? && q.verb == NoVerb
    ensures !r.ok ==> r.query == q
    ensures r.ok ==> r.query == q.(verb := Select, fields := Some(fields))
  {
    if !fields.Arr? then Outcome(false, q)
    else if !VerbUnset(q) then Outcome(false, q)
    else Outcome(true, q.(verb := Select, fields := Some(fields)))
  }

  function SetInsert(q: Query, values: YVar): (r: Outcome)
    ensures r.ok <==> values.Map? && q.verb == NoVerb
    ensures !r.ok ==> r.query == q
    ensures r.ok ==> r.query == q.(verb := Insert, fields := Some(values))
  {
    if !values.Map? then Outcome(false, q)
    else if !VerbUnset(q) then Outcome(false, q)
    else Outcome(true, q.(verb := Insert, fields := Some(values)))
  }

  function SetUpdate(q: Query, values: YVar): (r: Outcome)
    ensures r.ok <==> values.Map? && q.verb == NoVerb
    ensures !r.ok ==> r.query == q
    ensures r.ok ==> r.query == q.(verb := Update, fields := Some(values))
  {
    if !values.Map? then Outcome(false, q)
    else if !VerbUnset(q) then Outcome(false, q)
    else Outcome(true, q.(verb := Update, fields := Some(values)))
  }

  function SetDelete(q: Query): (r: Outcome)
    ensures r.ok <==> q.verb == NoVerb
    ensures !r.ok ==> r.query == q
    ensures r.ok ==> r.query == q.(verb := Delete)
  {
    if !VerbUnset(q) then Outcome(false, q)
    else Outcome(true, q.(verb := Delete))
  }

  /** Attaching the condition map: needs a verb, refuses INSERT, and only once. The
      conditions themselves are not inspected here. */
  function Where(q: Query, conditions: YVar): (r: Outcome)
    ensures r.ok <==> q.verb != NoVerb && q.verb != Insert && q.conditions.None?
    ensures !r.ok ==> r.query == q
    ensures r.ok ==> r.query == q.(conditions := Some(conditions))
  {
    if !IsValidVerb(Code(q.verb)) then Outcome(false, q)
    else if q.verb == Insert then Outcome(false, q)
    else if q.conditions.Some? then Outcome(false, q)
    else Outcome(true, q.(conditions := Some(conditions)))
  }

  /** A call a client can make on a query object before building it. */
  datatype Call =
    | CallSelect(fields: YVar)
    | CallInsert(values: YVar)
    | CallUpdate(values: YVar)
    | CallDelete
    | CallWhere(conditions: YVar)

  function Perform(q: Query, c: Call): Outcome {
    match c
    case CallSelect(f) => SetSelect(q, f)
    case CallInsert(v) => SetInsert(q, v)
    case CallUpdate(v) => SetUpdate(q, v)
    case CallDelete => SetDelete(q)
    case CallWhere(w) => Where(q, w)
  }

  /** The object after a sequence of calls, whatever each call answered. */
  function PerformAll(q: Query, calls: seq<Call>): Query
    decreases |calls|
  {
    if |calls| == 0 then q else PerformAll(Perform(q, calls[0]).query, calls[1..])
  }

  /** The shapes a query object can have after any sequence of calls. */
  predicate WellFormed(q: Query) {
    && (q.verb == NoVerb ==> q.fields.None? && q.conditions.None?)
    && (q.verb == Select ==> q.fields.Some? && q.fields.value.Arr?)
    && (q.verb == Update || q.verb == Insert ==> q.fields.Some? && q.fields.value.Map?)
    && (q.verb == Delete ==> q.fields.None?)
    && (q.verb == Insert ==> q.conditions.None?)
  }

  /** A fresh object is well formed, and every call keeps it so. */
  lemma {:induction false} CallsPreserveWellFormed(q: Query, calls: seq<Call>)
    requires WellFormed(q)
    ensures WellFormed(PerformAll(q, calls))
    decreases |calls|
  {
    if |calls| > 0 {
      CallsPreserveWellFormed(Perform(q, calls[0]).query, calls[1..]);
    }
  }

  /** Once a verb is set, no sequence of calls changes the verb or the fields, and
      once conditions are attached they stay as attached. */
  lemma {:induction false} VerbSetAtMostOnce(q: Query, calls: seq<Call>)
    requires q.verb != NoVerb
    ensures PerformAll(q, calls).verb == q.verb
    ensures PerformAll(q, calls).fields == q.fields
    ensures q.conditions.Some? ==> PerformAll(q, calls).conditions == q.conditions
    ensures PerformAll(q, calls).sql == q.sql
    decreases |calls|
  {
    if |calls| > 0 {
      VerbSetAtMostOnce(Perform(q, calls[0]).query, calls[1..]);
    }
  }

  /** On an INSERT object no sequence of calls attaches conditions. */
  lemma {:induction false} InsertNeverGetsConditions(q: Query, calls: seq<Call>)
    requires q.verb == Insert && q.conditions.None?
    ensures PerformAll(q, calls).conditions.None?
    decreases |calls|
  {
    if |calls| > 0 {
      InsertNeverGetsConditions(Perform(q, calls[0]).query, calls[1..]);
    }
  }
}
