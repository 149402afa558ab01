/**
 The statement builder: the four validators, the size estimators, the fill
 programs and the four verb builders, plus the statement text each verb is meant
 to produce.

 A builder first sums an upper bound on the bytes it will write (`Estimate`),
 refusing keys that are not strings and values that are neither strings nor
 integers, then writes the statement left to right (the `...Fill` functions,
 built from the writes of `SqlFill`). The literals it writes are the build
 configuration's keyword and quote macros (`Keywords`); every property here
 holds for all of them.

 Three places where the estimate and the fill, as written, disagree are
 switched by `Fixes`: the table-name estimate, the missing comma in the UPDATE
 estimate, and the integer branch of the WHERE fill. `AS_WRITTEN` is the code;
 `CORRECTED` is what the rest of the model builds with.
 */
module Statement {
  import opened YValue
  import opened SqlFill
  import opened QueryObject

  /** The `_YTABLE_SQL_*` literals and `_YTABLE_SQL_INT_MAXLEN`. */
  datatype Keywords = Keywords(
    selectVerb: string,
    updateVerb: string,
    insertVerb: string,
    deleteVerb: string,
    fromKw: string,
    whereKw: string,
    andKw: string,
    setKw: string,
    valuesKw: string,
    comma: string,
    quotField: string,
    quotValue: string,
    opEq: string,
    bracketLeft: string,
    bracketRight: string,
    intMaxLen: nat)

  /** INT_MAXLEN covers the widest decimal text of a 64-bit integer. */
  predicate IntWidthCovered(k: Keywords) {
    k.intMaxLen >= MAX_DECIMAL_WIDTH
  }

  /** A table descriptor: the physical name and its recorded length. */
  datatype TableConfig = TableConfig(name: string, nameLen: nat)

  predicate ConsistentTable(t: TableConfig) {
    t.nameLen == |t.name|
  }

  /** Which of the three estimate/fill disagreements are repaired. */
  datatype Fixes = Fixes(tableSize: bool, updateComma: bool, whereInt: bool)

  const AS_WRITTEN: Fixes := Fixes(false, false, false)
  const CORRECTED: Fixes := Fixes(true, true, true)

  // ---------------------------------------------------------------- validators

  predicate NonEmptyArray(v: Option<YVar>) {
    v.Some? && v.value.Arr? && Count(v.value) > 0
  }

  predicate NonEmptyMap(v: Option<YVar>) {
    v.Some? && v.value.Map? && Count(v.value) > 0
  }

  /** The verb's validator, as the dispatch table selects it. An object it
      accepts has the shape its builder asserts, and every list the builder
      writes with emit-then-rewind is non-empty. */
  function Validate(q: Query): (ok: bool)
    requires q.verb != NoVerb
    ensures ok ==> BuilderShape(q)
    ensures ok ==> (q.verb == Select ==> |q.fields.value.items| > 0)
    ensures ok ==> (q.verb == Update || q.verb == Insert ==> |q.fields.value.entries| > 0)
    ensures ok && q.verb != Insert ==> q.conditions.value.Map? && |q.conditions.value.entries| > 0
  {
    match q.verb
    case Select => NonEmptyArray(q.fields) && NonEmptyMap(q.conditions)
    case Update => NonEmptyMap(q.fields) && NonEmptyMap(q.conditions)
    case Insert => NonEmptyMap(q.fields)
    case Delete => NonEmptyMap(q.conditions)
  }

  /** What each builder asserts about the object before it starts. */
  predicate BuilderShape(q: Query) {
    match q.verb
    case NoVerb => false
    case Select => q.fields.Some? && q.fields.value.Arr? && q.conditions.Some?
    case Update => q.fields.Some? && q.fields.value.Map? && q.conditions.Some?
    case Insert => q.fields.Some? && q.fields.value.Map?
    case Delete => q.conditions.Some?
  }

  // ------------------------------------------------------ type checks on items

  predicate AllLikeString(items: seq<YVar>) {
    forall i :: 0 <= i < |items| ==> LikeString(items[i])
  }

  /** String keys, and values that are strings or integers. */
  predicate EntriesTyped(es: seq<(YVar, YVar)>) {
    forall i :: 0 <= i < |es| ==> LikeString(es[i].0) && (LikeString(es[i].1) || LikeInt(es[i].1))
  }

  predicate WhereTyped(c: YVar) {
    c.Map? ==> EntriesTyped(c.entries)
  }

  /** Every check the builder makes while estimating. */
  predicate Typed(q: Query)
    requires BuilderShape(q)
  {
    match q.verb
    case Select => AllLikeString(q.fields.value.items) && WhereTyped(q.conditions.value)
    case Update => EntriesTyped(q.fields.value.entries) && WhereTyped(q.conditions.value)
    case Insert => EntriesTyped(q.fields.value.entries)
    case Delete => WhereTyped(q.conditions.value)
  }

  // ------------------------------------------------------------------ estimates

  /** Bytes reserved for one value: INT_MAXLEN for an integer, the stored length
      for a string. */
  function ValueSize(k: Keywords, v: YVar): nat {
    if LikeInt(v) then k.intMaxLen else StrLen(v)
  }

  /** Bytes reserved for one quoted key, `=` and quoted value. */
  function PairSize(k: Keywords, e: (YVar, YVar)): nat {
    StrLen(e.0) + 2 * |k.quotField| + |k.opEq| + ValueSize(k, e.1) + 2 * |k.quotValue|
  }

  /** Bytes reserved for the table name. Repaired, it covers the quoted name the
      fill writes; as written, it is `2 * |quotField| - 1` bytes short of it. */
  function TableSize(k: Keywords, t: TableConfig, fixes: Fixes): (r: nat)
    ensures fixes.tableSize && ConsistentTable(t) ==> |TableText(k, t)| <= r
    ensures !fixes.tableSize && ConsistentTable(t) && NulFree(t.name)
            ==> r + 2 * |k.quotField| == |TableText(k, t)| + 1
  {
    CStrIsPrefix(t.name);
    if fixes.tableSize then 2 * |k.quotField| + t.nameLen
    else t.nameLen + 1
  }

  function FieldSizes(k: Keywords, items: seq<YVar>): seq<nat> {
    seq(|items|, i requires 0 <= i < |items| => StrLen(items[i]) + |k.comma|)
  }

  function WhereSizes(k: Keywords, es: seq<(YVar, YVar)>): seq<nat> {
    seq(|es|, i requires 0 <= i < |es| => PairSize(k, es[i]) + |k.andKw|)
  }

  function AssignmentSizes(k: Keywords, es: seq<(YVar, YVar)>, fixes: Fixes): seq<nat> {
    seq(|es|, i requires 0 <= i < |es| =>
      PairSize(k, es[i]) + (if fixes.updateComma then |k.comma| else 0))
  }

  function InsertSizes(k: Keywords, es: seq<(YVar, YVar)>): seq<nat> {
    seq(|es|, i requires 0 <= i < |es| =>
      ValueSize(k, es[i].1) + 2 * |k.quotValue| + StrLen(es[i].0)
      + 2 * |k.comma| + 2 * |k.quotField|)
  }

  /** The WHERE estimate: nothing unless the conditions are a map. */
  function WhereSize(k: Keywords, c: YVar): nat {
    if c.Map? then |k.whereKw| + Sum(WhereSizes(k, c.entries)) else 0
  }

  function SelectSize(k: Keywords, t: TableConfig, fixes: Fixes, items: seq<YVar>, c: YVar): nat {
    1 + |k.selectVerb| + Sum(FieldSizes(k, items)) + |k.fromKw| + TableSize(k, t, fixes) + WhereSize(k, c)
  }

  function UpdateSize(k: Keywords, t: TableConfig, fixes: Fixes, es: seq<(YVar, YVar)>, c: YVar): nat {
    1 + |k.updateVerb| + TableSize(k, t, fixes) + |k.setKw| + Sum(AssignmentSizes(k, es, fixes))
    + WhereSize(k, c)
  }

  function InsertSize(k: Keywords, t: TableConfig, fixes: Fixes, es: seq<(YVar, YVar)>): nat {
    1 + |k.insertVerb| + TableSize(k, t, fixes)
    + 2 * |k.bracketLeft| + 2 * |k.bracketRight| + |k.valuesKw| + 1 + Sum(InsertSizes(k, es))
  }

  function DeleteSize(k: Keywords, t: TableConfig, fixes: Fixes, c: YVar): nat {
    1 + |k.deleteVerb| + TableSize(k, t, fixes) + WhereSize(k, c)
  }

  /** The buffer size a builder allocates (trailing NUL included), or None when a
      key or value has a type the builder refuses. */
  function Estimate(q: Query, k: Keywords, t: TableConfig, fixes: Fixes): (r: Option<nat>)
    requires BuilderShape(q)
    ensures r.None? <==> !Typed(q)
    ensures r.Some? ==> r.value >= 1
  {
    if !Typed(q) then None
    else
      match q.verb
      case Select => Some(SelectSize(k, t, fixes, q.fields.value.items, q.conditions.value))
      case Update => Some(UpdateSize(k, t, fixes, q.fields.value.entries, q.conditions.value))
      case Insert => Some(InsertSize(k, t, fixes, q.fields.value.entries))
      case Delete => Some(DeleteSize(k, t, fixes, q.conditions.value))
  }

  // ---------------------------------------------------------------- fragments

  function StrText(v: YVar): string {
    if v.Str? then CStr(v.s) else ""
  }

  /** What the builders print for a value: the string, or the integer's digits. */
  function ValueText(v: YVar): string {
    if v.Str? then CStr(v.s) else if LikeInt(v) then Decimal(v) else ""
  }

  function TableText(k: Keywords, t: TableConfig): string {
    k.quotField + CStr(t.name) + k.quotField
  }

  /** One `key`='value' pair, used by WHERE and by UPDATE's SET list. */
  function PairText(k: Keywords, e: (YVar, YVar)): string {
    k.quotField + StrText(e.0) + k.quotField + k.opEq + k.quotValue + ValueText(e.1) + k.quotValue
  }

  function FieldTexts(items: seq<YVar>): seq<string> {
    seq(|items|, i requires 0 <= i < |items| => StrText(items[i]))
  }

  function PairTexts(k: Keywords, es: seq<(YVar, YVar)>): seq<string> {
    seq(|es|, i requires 0 <= i < |es| => PairText(k, es[i]))
  }

  function ColumnTexts(k: Keywords, es: seq<(YVar, YVar)>): seq<string> {
    seq(|es|, i requires 0 <= i < |es| => k.quotField + StrText(es[i].0) + k.quotField)
  }

  function ValueTexts(k: Keywords, es: seq<(YVar, YVar)>): seq<string> {
    seq(|es|, i requires 0 <= i < |es| => k.quotValue + ValueText(es[i].1) + k.quotValue)
  }

  // --------------------------------------------------------------- fill pass

  /** `do_build_table`: the quoted table name, printed up to its first NUL. */
  function WriteTable(st: Trace, k: Keywords, t: TableConfig): (r: Trace)
    ensures NulFree(t.name) ==> r.text == st.text + k.quotField + t.name + k.quotField
    ensures Sane(st) ==> Sane(r) && r.peak == Max(st.peak, |r.text|)
  {
    CStrIsPrefix(t.name);
    Write(st, TableText(k, t))
  }

  /** One WHERE condition and its AND. As written, an integer value is printed from
      the output buffer instead of from its own digits. */
  function WriteCondition(st: Trace, k: Keywords, e: (YVar, YVar), fixes: Fixes): Trace {
    if LikeInt(e.1) && !fixes.whereInt then
      Echo(st, k.quotField + StrText(e.0) + k.quotField + k.opEq + k.quotValue,
           k.quotValue + k.andKw)
    else
      Write(st, PairText(k, e) + k.andKw)
  }

  function WriteConditions(st: Trace, k: Keywords, es: seq<(YVar, YVar)>, fixes: Fixes): Trace
    decreases |es|
  {
    if |es| == 0 then st
    else WriteCondition(WriteConditions(st, k, es[..|es| - 1], fixes), k, es[|es| - 1], fixes)
  }

  /** `do_build_where`: keyword, conditions with a trailing AND each, back by one
      AND; nothing when the conditions are not a map. */
  function WriteWhere(st: Trace, k: Keywords, c: YVar, fixes: Fixes): Trace {
    if c.Map? then Rewind(WriteConditions(Write(st, k.whereKw), k, c.entries, fixes), |k.andKw|)
    else st
  }

  /** The fill pass of each verb's builder, write by write. */
  function SelectFill(k: Keywords, t: TableConfig, fixes: Fixes, items: seq<YVar>, c: YVar): Trace {
    var s1 := Write(START, k.selectVerb);
    var s2 := WriteList(s1, FieldTexts(items), k.comma);
    var s3 := WriteTable(Write(s2, k.fromKw), k, t);
    WriteWhere(s3, k, c, fixes)
  }

  /** UPDATE up to the end of the SET list. */
  function UpdateSetFill(k: Keywords, t: TableConfig, es: seq<(YVar, YVar)>): Trace {
    var s1 := Write(WriteTable(Write(START, k.updateVerb), k, t), k.setKw);
    WriteList(s1, PairTexts(k, es), k.comma)
  }

  function UpdateFill(k: Keywords, t: TableConfig, fixes: Fixes, es: seq<(YVar, YVar)>, c: YVar): Trace {
    WriteWhere(UpdateSetFill(k, t, es), k, c, fixes)
  }

  /** INSERT up to the end of the column list. */
  function InsertColumnsFill(k: Keywords, t: TableConfig, es: seq<(YVar, YVar)>): Trace {
    var s1 := Write(WriteTable(Write(START, k.insertVerb), k, t), " " + k.bracketLeft);
    WriteList(s1, ColumnTexts(k, es), k.comma)
  }

  function InsertFill(k: Keywords, t: TableConfig, es: seq<(YVar, YVar)>): Trace {
    var s2 := Write(InsertColumnsFill(k, t, es), k.bracketRight + k.valuesKw + k.bracketLeft);
    Write(WriteList(s2, ValueTexts(k, es), k.comma), k.bracketRight)
  }

  function DeleteFill(k: Keywords, t: TableConfig, fixes: Fixes, c: YVar): Trace {
    WriteWhere(WriteTable(Write(START, k.deleteVerb), k, t), k, c, fixes)
  }

  function Fill(q: Query, k: Keywords, t: TableConfig, fixes: Fixes): Trace
    requires BuilderShape(q)
  {
    match q.verb
    case Select => SelectFill(k, t, fixes, q.fields.value.items, q.conditions.value)
    case Update => UpdateFill(k, t, fixes, q.fields.value.entries, q.conditions.value)
    case Insert => InsertFill(k, t, q.fields.value.entries)
    case Delete => DeleteFill(k, t, fixes, q.conditions.value)
  }

  /** A verb's builder: nothing to do once the statement is built; otherwise
      estimate (which may refuse the object), then fill. */
  function Build(q: Query, k: Keywords, t: TableConfig, fixes: Fixes): (r: Outcome)
    requires BuilderShape(q)
    ensures q.sql.Str? ==> r == Outcome(true, q)
    ensures !q.sql.Str? ==> (r.ok <==> Typed(q))
    ensures !r.ok ==> r.query == q
    ensures r.ok ==> r.query.sql.Str? && r.query == q.(sql := r.query.sql)
  {
    if q.sql.Str? then Outcome(true, q)
    else
      match Estimate(q, k, t, fixes)
      case None => Outcome(false, q)
      case Some(_) => Outcome(true, q.(sql := Str(Fill(q, k, t, fixes).text)))
  }

  // ------------------------------------------------- the intended statements

  function WhereClause(k: Keywords, c: YVar): string {
    if c.Map? then k.whereKw + Join(PairTexts(k, c.entries), k.andKw) else ""
  }

  /** The statement each verb is meant to produce: lists joined by their separator. */
  function SelectText(k: Keywords, t: TableConfig, items: seq<YVar>, c: YVar): string {
    k.selectVerb + Join(FieldTexts(items), k.comma) + k.fromKw + TableText(k, t) + WhereClause(k, c)
  }

  function UpdateText(k: Keywords, t: TableConfig, es: seq<(YVar, YVar)>, c: YVar): string {
    k.updateVerb + TableText(k, t) + k.setKw + Join(PairTexts(k, es), k.comma) + WhereClause(k, c)
  }

  function InsertText(k: Keywords, t: TableConfig, es: seq<(YVar, YVar)>): string {
    k.insertVerb + TableText(k, t) + (" " + k.bracketLeft) + Join(ColumnTexts(k, es), k.comma)
    + (k.bracketRight + k.valuesKw + k.bracketLeft) + Join(ValueTexts(k, es), k.comma) + k.bracketRight
  }

  function DeleteText(k: Keywords, t: TableConfig, c: YVar): string {
    k.deleteVerb + TableText(k, t) + WhereClause(k, c)
  }

  function StatementText(q: Query, k: Keywords, t: TableConfig): string
    requires BuilderShape(q)
  {
    match q.verb
    case Select => SelectText(k, t, q.fields.value.items, q.conditions.value)
    case Update => UpdateText(k, t, q.fields.value.entries, q.conditions.value)
    case Insert => InsertText(k, t, q.fields.value.entries)
    case Delete => DeleteText(k, t, q.conditions.value)
  }

  // ------------------------------------------------------ the fill, verb by verb

  /** The WHERE fill writes each condition's own text: the integer branch is
      repaired, or no condition has an integer value. */
  predicate WhereFillExact(c: YVar, fixes: Fixes) {
    fixes.whereInt || (c.Map? ==> forall i :: 0 <= i < |c.entries| ==> !LikeInt(c.entries[i].1))
  }

  /** Without the buffer echo, writing the conditions is writing their pair texts
      each followed by an AND. */
  lemma {:induction false} ConditionsAreWrites(st: Trace, k: Keywords, es: seq<(YVar, YVar)>, fixes: Fixes)
    requires fixes.whereInt || forall i :: 0 <= i < |es| ==> !LikeInt(es[i].1)
    ensures WriteConditions(st, k, es, fixes) == WriteEach(st, PairTexts(k, es), k.andKw)
    decreases |es|
  {
    if |es| > 0 {
      var init := es[..|es| - 1];
      ConditionsAreWrites(st, k, init, fixes);
      assert PairTexts(k, es)[..|es| - 1] == PairTexts(k, init);
    }
  }

  /** How far past its start the WHERE fill reaches: one AND past the clause. */
  function WhereReach(k: Keywords, c: YVar): nat {
    if c.Map? then |WhereClause(k, c)| + |k.andKw| else 0
  }

  /** The WHERE fill appends the intended clause; conditions that are not a map
      write nothing. */
  lemma WhereRun(st: Trace, k: Keywords, c: YVar, fixes: Fixes)
    requires Sane(st)
    requires c.Map? ==> |c.entries| > 0
    requires WhereFillExact(c, fixes)
    ensures WriteWhere(st, k, c, fixes).text == st.text + WhereClause(k, c)
    ensures WriteWhere(st, k, c, fixes).peak == Max(st.peak, |st.text| + WhereReach(k, c))
    ensures Sane(WriteWhere(st, k, c, fixes))
  {
    if c.Map? {
      var pairs := PairTexts(k, c.entries);
      var join := Join(pairs, k.andKw);
      var s1 := Write(st, k.whereKw);
      var r := WriteWhere(st, k, c, fixes);
      assert r == WriteList(s1, pairs, k.andKw) by {
        ConditionsAreWrites(s1, k, c.entries, fixes);
      }
      assert r.text == s1.text + join && r.peak == Max(s1.peak, |s1.text| + |join| + |k.andKw|) by {
        WriteListIsJoin(s1, pairs, k.andKw);
      }
      assert s1.text + join == st.text + WhereClause(k, c);
    }
  }

  /** A typed pair never prints more than its estimate. */
  lemma PairWithin(k: Keywords, e: (YVar, YVar))
    requires IntWidthCovered(k)
    requires LikeString(e.0) && (LikeString(e.1) || LikeInt(e.1))
    ensures |PairText(k, e)| <= PairSize(k, e)
  {
    if LikeInt(e.1) {
      DecimalWidth(e.1);
    }
  }

  /** The WHERE clause plus the AND the fill writes past its end stays within the
      WHERE estimate. */
  lemma WhereWithin(k: Keywords, c: YVar)
    requires IntWidthCovered(k) && WhereTyped(c)
    requires c.Map? ==> |c.entries| > 0
    ensures WhereReach(k, c) <= WhereSize(k, c)
  {
    if c.Map? {
      var pairs := PairTexts(k, c.entries);
      forall i | 0 <= i < |pairs|
        ensures |pairs[i]| + |k.andKw| <= WhereSizes(k, c.entries)[i]
      {
        PairWithin(k, c.entries[i]);
      }
      JoinWithin(pairs, k.andKw, WhereSizes(k, c.entries));
    }
  }

  /** The SELECT fill writes the intended statement; it peaks one comma past the
      field list or at the end of the WHERE fill. */
  lemma SelectRun(k: Keywords, t: TableConfig, fixes: Fixes, items: seq<YVar>, c: YVar)
    requires |items| > 0 && (c.Map? ==> |c.entries| > 0) && WhereFillExact(c, fixes)
    ensures SelectFill(k, t, fixes, items, c).text == SelectText(k, t, items, c)
    ensures SelectFill(k, t, fixes, items, c).peak
         == Max(|k.selectVerb| + |Join(FieldTexts(items), k.comma)| + |k.comma|,
                |k.selectVerb| + |Join(FieldTexts(items), k.comma)| + |k.fromKw| + |TableText(k, t)|
                + WhereReach(k, c))
  {
    var fields := FieldTexts(items);
    var join := Join(fields, k.comma);
    var s1 := Write(START, k.selectVerb);
    assert s1.text == k.selectVerb && s1.peak == |k.selectVerb|;
    var s2 := WriteList(s1, fields, k.comma);
    assert s2.text == k.selectVerb + join && s2.peak == |k.selectVerb| + |join| + |k.comma| by {
      WriteListIsJoin(s1, fields, k.comma);
    }
    var s3 := WriteTable(Write(s2, k.fromKw), k, t);
    assert s3.text == k.selectVerb + join + k.fromKw + TableText(k, t);
    assert s3.peak == Max(s2.peak, |s3.text|);
    WhereRun(s3, k, c, fixes);
  }

  /** The UPDATE head: verb, table, SET keyword. */
  function UpdateHead(k: Keywords, t: TableConfig): string {
    k.updateVerb + TableText(k, t) + k.setKw
  }

  lemma UpdateSetRun(k: Keywords, t: TableConfig, es: seq<(YVar, YVar)>)
    requires |es| > 0
    ensures UpdateSetFill(k, t, es).text == UpdateHead(k, t) + Join(PairTexts(k, es), k.comma)
    ensures UpdateSetFill(k, t, es).peak
         == |UpdateHead(k, t)| + |Join(PairTexts(k, es), k.comma)| + |k.comma|
  {
    var s1 := Write(WriteTable(Write(START, k.updateVerb), k, t), k.setKw);
    assert s1.text == UpdateHead(k, t) && s1.peak == |s1.text|;
    WriteListIsJoin(s1, PairTexts(k, es), k.comma);
  }

  /** The UPDATE fill writes the intended statement; it peaks one comma past the
      SET list or at the end of the WHERE fill. */
  lemma UpdateRun(k: Keywords, t: TableConfig, fixes: Fixes, es: seq<(YVar, YVar)>, c: YVar)
    requires |es| > 0 && (c.Map? ==> |c.entries| > 0) && WhereFillExact(c, fixes)
    ensures UpdateFill(k, t, fixes, es, c).text == UpdateText(k, t, es, c)
    ensures UpdateFill(k, t, fixes, es, c).peak
         == |k.updateVerb| + |TableText(k, t)| + |k.setKw| + |Join(PairTexts(k, es), k.comma)|
            + Max(|k.comma|, WhereReach(k, c))
  {
    var join := Join(PairTexts(k, es), k.comma);
    var s2 := UpdateSetFill(k, t, es);
    assert s2.text == UpdateHead(k, t) + join && s2.peak == |UpdateHead(k, t)| + |join| + |k.comma| by {
      UpdateSetRun(k, t, es);
    }
    WhereRun(s2, k, c, fixes);
  }

  /** The INSERT head: verb, table, opening bracket. */
  function InsertHead(k: Keywords, t: TableConfig): string {
    k.insertVerb + TableText(k, t) + (" " + k.bracketLeft)
  }

  lemma InsertColumnsRun(k: Keywords, t: TableConfig, es: seq<(YVar, YVar)>)
    requires |es| > 0
    ensures InsertColumnsFill(k, t, es).text == InsertHead(k, t) + Join(ColumnTexts(k, es), k.comma)
    ensures InsertColumnsFill(k, t, es).peak
         == |InsertHead(k, t)| + |Join(ColumnTexts(k, es), k.comma)| + |k.comma|
  {
    var s1 := Write(WriteTable(Write(START, k.insertVerb), k, t), " " + k.bracketLeft);
    assert s1.text == InsertHead(k, t) && s1.peak == |s1.text|;
    WriteListIsJoin(s1, ColumnTexts(k, es), k.comma);
  }

  /** The INSERT fill writes the intended statement; it peaks one comma past the
      column list, or one comma past the value list, or at the closing bracket. */
  lemma InsertRun(k: Keywords, t: TableConfig, es: seq<(YVar, YVar)>)
    requires |es| > 0
    ensures InsertFill(k, t, es).text == InsertText(k, t, es)
    ensures InsertFill(k, t, es).peak
         == |InsertHead(k, t)| + |Join(ColumnTexts(k, es), k.comma)|
            + Max(|k.comma|,
                  |k.bracketRight + k.valuesKw + k.bracketLeft| + |Join(ValueTexts(k, es), k.comma)|
                  + Max(|k.comma|, |k.bracketRight|))
  {
    var cols := Join(ColumnTexts(k, es), k.comma);
    var vals := Join(ValueTexts(k, es), k.comma);
    var mid := k.bracketRight + k.valuesKw + k.bracketLeft;
    var a := |InsertHead(k, t)| + |cols|;
    InsertColumnsRun(k, t, es);
    var s3 := Write(InsertColumnsFill(k, t, es), mid);
    assert s3.text == InsertHead(k, t) + cols + mid;
    assert s3.peak == Max(a + |k.comma|, a + |mid|);
    var s4 := WriteList(s3, ValueTexts(k, es), k.comma);
    assert s4.text == InsertHead(k, t) + cols + mid + vals
        && s4.peak == Max(s3.peak, a + |mid| + |vals| + |k.comma|) by {
      WriteListIsJoin(s3, ValueTexts(k, es), k.comma);
    }
  }

  /** The DELETE fill writes the intended statement and peaks at the end of the
      WHERE fill. */
  lemma DeleteRun(k: Keywords, t: TableConfig, fixes: Fixes, c: YVar)
    requires (c.Map? ==> |c.entries| > 0) && WhereFillExact(c, fixes)
    ensures DeleteFill(k, t, fixes, c).text == DeleteText(k, t, c)
    ensures DeleteFill(k, t, fixes, c).peak == |k.deleteVerb| + |TableText(k, t)| + WhereReach(k, c)
  {
    var s1 := WriteTable(Write(START, k.deleteVerb), k, t);
    assert s1.text == k.deleteVerb + TableText(k, t) && s1.peak == |s1.text|;
    WhereRun(s1, k, c, fixes);
  }
}
