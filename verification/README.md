# yuki table: statement compilation, modelled in Dafny

This project models the statement-compilation core of `yuki_table.c`, the
table layer of the yuki C library. A query object passes through a fixed set
of stages:

1. a verb is set (SELECT, UPDATE, INSERT or DELETE) and conditions are attached;
2. the verb's validator checks the object;
3. the verb's builder compiles it to SQL text in two passes: first it estimates
   the buffer size, then it fills the buffer at a running offset;
4. the database's answer is gated on exactly one affected row;
5. the verb's result parser turns that answer into a value.

Modules, one per stage of that pipeline:

- `YValue` (`yvalue.dfy`) holds the variant value `yvar_t`. It also defines
  what a `%s` conversion prints for a stored string (`CStr`) and the decimal
  text of a 64-bit integer (`Decimal`).
- `QueryObject` (`query.dfy`) holds the query object, the verb codes and the
  dispatch rows. It also holds the four verb setters and the condition
  attacher.
- `SqlFill` (`sqlfill.dfy`) models the fill pass: `offset += snprintf(...)` and
  emit-then-rewind lists. A `Trace` records the text before the running
  offset and the highest offset any write reached. A `Buffer` of bytes with a
  running offset is the concrete side: the `...Describes` lemmas show that
  `Write`, `Echo` and `Rewind` are what `snprintf` at the offset and
  `offset -= n` do to it. The method `EmitThenRewind` runs the list loop on
  such a buffer.
- `Statement` (`statement.dfy`) holds the validators, the size estimators, the
  four verb fills and the builders. It also holds the statement text each
  verb is meant to produce.
- `SizeBound` (`bounds.dfy`) proves that the repaired estimates cover every
  write plus the terminating NUL.
- `Findings` (`findings.dfy`) shows where the estimates, as written, fall
  short.
- `EstimateAsWritten` (`aswritten.dfy`) settles SELECT and INSERT as written,
  for objects without an integer condition. There, their estimates are short
  only through the table name. Each fits exactly when the two field quotes fit
  in the slack the rest of the estimate leaves. An integer condition (line 249,
  under "## Findings") can push SELECT past its estimate as well.
- `ResultParser` (`results.dfy`) holds the per-verb result parsers.
- `Fetch` (`fetch.dfy`) holds `_ytable_build_sql` and `_ytable_fetch_one`.

The keyword and quote macros (`_YTABLE_SQL_*`) are defined in `yuki.h`, which
is not part of this model. They are a `Keywords` parameter, and every property
holds for every choice of them. The only assumption is that `INT_MAXLEN` is at
least 20, the widest decimal text of a 64-bit integer.

Three places where an estimate and its fill disagree are switched by a `Fixes`
value:

- `AS_WRITTEN` is the code as it stands.
- `CORRECTED` repairs the table estimate, the UPDATE comma and the integer
  WHERE value.

The bound theorems are stated for `CORRECTED`, and the findings for
`AS_WRITTEN`.

Two things the code does not do:

- The builders start their estimate at 1 and comment it as "space for tailing
  '\0'" (yuki_table.c:290, :369, :477, :590). That is, the estimate is meant
  to cover every byte a write touches. Three places do not keep this (see
  Findings).
- No value is escaped. The WHERE fill carries a TODO for it
  (yuki_table.c:242), so values print verbatim, quotes included.

## Model

| member | source | states |
|---|---|---|
| QueryObject.ValidVerbCodes | yuki_table.c:46-66 | A verb code is valid exactly when it is one of the four real verbs, and every verb has a row in the dispatch table |
| QueryObject.NewQuery | yuki_table.c:1040-1043 | A fresh object has no verb, fields, conditions or statement, zero affected rows, its table index and the default limit and offset, and is well formed |
| QueryObject.SetSelect | yuki_table.c:1052-1074 | SELECT is accepted iff the fields are an array and no verb is set; a refusal changes nothing; acceptance sets only the verb and the fields |
| QueryObject.SetInsert | yuki_table.c:1076-1098 | INSERT is accepted iff the values are a map and no verb is set; a refusal changes nothing; acceptance sets only the verb and the fields |
| QueryObject.SetUpdate | yuki_table.c:1100-1122 | UPDATE is accepted iff the values are a map and no verb is set; a refusal changes nothing; acceptance sets only the verb and the fields |
| QueryObject.SetDelete | yuki_table.c:1124-1139 | DELETE is accepted iff no verb is set; a refusal changes nothing; acceptance sets only the verb |
| QueryObject.Where | yuki_table.c:1141-1168 | Conditions are accepted iff a verb is set, it is not INSERT and no conditions are attached yet; a refusal changes nothing; acceptance stores only the conditions |
| QueryObject.CallsPreserveWellFormed | yuki_table.c:1052-1168 | Any sequence of setter and WHERE calls keeps the object's verb, fields and conditions in the shapes the builders expect |
| QueryObject.VerbSetAtMostOnce | yuki_table.c:99-109 | Once a verb is set, no later call changes the verb or the fields, or conditions once attached |
| QueryObject.InsertNeverGetsConditions | yuki_table.c:1153-1157 | No sequence of calls attaches conditions to an INSERT object |
| YValue.CStrIsPrefix | yuki_table.c:251-254 | What `%s` prints of a stored string is a NUL-free prefix of it that stops only at its end or at a NUL |
| YValue.NatDecimalRoundTrip | yuki_table.c:437-441 | The digits printed for a number read back as that number |
| YValue.DecimalWidth | yuki_table.c:196-198 | Every 64-bit integer prints in at most 20 NUL-free characters, so an INT_MAXLEN of 20 covers it |
| YValue.CStrUpToNul | yuki_table.c:249-254 | A `%s` of a buffer that holds a string followed by a NUL reads that string up to its first NUL, whatever bytes follow |
| SqlFill.DescribedText | yuki_table.c:624-627 | When a trace describes a buffer, the bytes before the running offset are the trace's text, which is what the builder stores, and `%s` of the buffer reads the C string of the last write |
| SqlFill.FirstWriteDescribes | yuki_table.c:323-324 | The first `snprintf` into a fresh buffer leaves it described by one `Write` from the empty trace: one byte touched past the fragment |
| SqlFill.WriteDescribes | yuki_table.c:324 | `Write` is `snprintf` of the fragment at the running offset: the fragment and a NUL land there, the offset advances by its length, and the bytes touched grow to one past it |
| SqlFill.EchoDescribes | yuki_table.c:249-254 | `Echo` is the write whose `%s` argument is the output buffer, read as it stood before the write: it prints the C string of the last write |
| SqlFill.RewindDescribes | yuki_table.c:335-336 | `Rewind` is `offset -= n`: the offset moves back, no byte changes, and the trace still describes the buffer |
| SqlFill.WriteEachAppends | yuki_table.c:327-333 | Writing each item with a trailing separator appends every item followed by the separator, and peaks at the last write's end |
| SqlFill.WriteListIsJoin | yuki_table.c:327-336 | Emit-then-rewind on a non-empty list appends exactly the separator-joined list, and peaks one separator past it |
| SqlFill.WriteListOnEmpty | yuki_table.c:335-336 | On an empty list the rewind removes text written before the list, so the technique needs a non-empty list |
| SqlFill.JoinExact | yuki_table.c:294-301 | When every item plus a separator meets its bound exactly, the joined list plus one trailing separator is exactly the sum of the bounds |
| SqlFill.JoinWithin | yuki_table.c:294-301 | A joined list plus one trailing separator fits the sum of per-item bounds that each cover one item and one separator |
| SqlFill.EmitThenRewind | yuki_table.c:327-336 | On a buffer with a running offset, the list loop leaves the joined list before the offset, the separator after it, and has reached exactly one separator and one NUL past the join, matching `WriteListIsJoin` |
| Statement.Validate | yuki_table.c:111-174 | An object its verb's validator accepts has the fields and conditions its builder asserts (yuki_table.c:283, :361, :469, :583), and every list the builder writes with emit-then-rewind is non-empty |
| Statement.TableSize | yuki_table.c:216-227 | Repaired, the table estimate covers the quoted name the fill writes; as written, for a NUL-free name, it is two field quotes less one byte short of it |
| Statement.WriteTable | yuki_table.c:265-277 | The table fill writes the name between two field quotes, in full when it has no NUL |
| Statement.WhereSize | yuki_table.c:176-214 | The WHERE estimate: nothing for non-map conditions, else the keyword and one AND-terminated pair per condition. That it covers the clause is proved in Statement.WhereWithin; that it is exact for NUL-free strings is proved in EstimateAsWritten.WhereExact |
| Statement.WriteWhere | yuki_table.c:229-263 | The WHERE fill: the keyword, each condition with a trailing AND, then back by one AND. Its text and peak are proved in Statement.WhereRun; the integer branch as written is examined in Findings.DeleteIntConditionEcho |
| Statement.SelectFill | yuki_table.c:323-348 | The SELECT fill, write by write. Its text and peak are proved in Statement.SelectRun, its bound in SizeBound.SelectFits and EstimateAsWritten.SelectFitsAsWritten |
| Statement.UpdateFill | yuki_table.c:418-456 | The UPDATE fill, write by write. Its text and peak are proved in Statement.UpdateRun, its bound in SizeBound.UpdateFits, its shortfall as written in Findings.UpdateCommaShortfall |
| Statement.InsertFill | yuki_table.c:522-570 | The INSERT fill, write by write. Its text and peak are proved in Statement.InsertRun, its bound in SizeBound.InsertFits and EstimateAsWritten.InsertFitsAsWritten |
| Statement.DeleteFill | yuki_table.c:610-622 | The DELETE fill, write by write. Its text and peak are proved in Statement.DeleteRun, its bound in SizeBound.DeleteFits, its shortfall as written in Findings.DeleteTableShortfall |
| Statement.Estimate | yuki_table.c:176-227 | Together with the per-verb sums at lines 290-314, 369-409, 477-513 and 590-601, the estimate refuses the object exactly when a key is not a string or a value is neither a string nor an integer, and otherwise reserves at least the NUL |
| Statement.Build | yuki_table.c:279-629 | A built statement is kept and the builder succeeds again; otherwise the builder succeeds iff the types are accepted, a refusal changes nothing, and success changes only the stored statement |
| Statement.ConditionsAreWrites | yuki_table.c:238-256 | Without the integer echo, writing the conditions is writing each condition's text followed by AND |
| Statement.WhereRun | yuki_table.c:229-263 | The WHERE fill appends the keyword and the AND-joined conditions, peaks one AND past them, and writes nothing for non-map conditions |
| Statement.PairWithin | yuki_table.c:190-208 | A string key with a string or integer value prints within its estimate |
| Statement.WhereWithin | yuki_table.c:176-214 | The WHERE clause plus the AND written past its end fits the WHERE estimate |
| Statement.SelectRun | yuki_table.c:323-348 | The SELECT fill stores the intended statement and peaks one comma past the field list or at the end of the WHERE fill |
| Statement.UpdateSetRun | yuki_table.c:418-451 | The UPDATE fill up to the SET list writes verb, table, SET and the comma-joined assignments, one comma past them at its peak |
| Statement.UpdateRun | yuki_table.c:418-456 | The UPDATE fill stores the intended statement and peaks one comma past the SET list or at the end of the WHERE fill |
| Statement.InsertColumnsRun | yuki_table.c:522-542 | The INSERT fill up to the column list writes verb, table, bracket and the comma-joined columns, one comma past them at its peak |
| Statement.InsertRun | yuki_table.c:522-570 | The INSERT fill stores the intended statement: columns and values come from the same entries in the same order, each list is comma-joined, and the peak is one comma past a list or the closing bracket |
| Statement.DeleteRun | yuki_table.c:610-622 | The DELETE fill stores the intended statement and peaks at the end of the WHERE fill |
| SizeBound.FieldsWithin | yuki_table.c:294-301 | The SELECT field list plus its trailing comma fits the field estimates |
| SizeBound.AssignmentsWithin | yuki_table.c:392-404 | The UPDATE SET list plus its trailing comma fits the assignment estimates once a comma is reserved per assignment |
| SizeBound.InsertListsWithin | yuki_table.c:500-521 | The INSERT column and value lists, each with its trailing comma, fit the per-entry estimates |
| SizeBound.SelectFits | yuki_table.c:290-348 | With the repairs, the SELECT fill stores the intended statement and its peak plus the NUL fits the estimate |
| SizeBound.UpdateFits | yuki_table.c:369-456 | With the repairs, the UPDATE fill stores the intended statement and its peak plus the NUL fits the estimate |
| SizeBound.InsertFits | yuki_table.c:477-570 | With the repaired table estimate, the INSERT fill stores the intended statement and its peak plus the NUL fits the estimate |
| SizeBound.DeleteFits | yuki_table.c:590-622 | With the repairs, the DELETE fill stores the intended statement and its peak plus the NUL fits the estimate |
| Findings.DeleteTableShortfall | yuki_table.c:216-227 | As written, for a DELETE with one plain condition, the estimate falls short of the fill's peak offset plus the NUL whenever the field quote is not empty |
| Findings.UpdateCommaShortfall | yuki_table.c:392-404 | As written, for an UPDATE of three plain fields with a plain condition, the estimate falls short of the fill's peak offset plus the NUL whenever the comma is not empty |
| Findings.DeleteIntConditionEcho | yuki_table.c:240-254 | As written, an integer condition's value slot receives the statement text already in the buffer |
| Findings.DeleteIntConditionShortfall | yuki_table.c:194-199 | As written, once the statement head is longer than INT_MAXLEN, an integer condition makes the fill write a statement other than the intended one, and its peak offset plus the NUL passes the estimate |
| EstimateAsWritten.FieldsExact | yuki_table.c:294-301 | For NUL-free field names the SELECT field estimate is exactly the field list plus its trailing comma |
| EstimateAsWritten.WhereExact | yuki_table.c:176-214 | For NUL-free string conditions the WHERE estimate is exactly what the WHERE fill reaches, and the fill writes each condition's own text |
| EstimateAsWritten.SelectFitsAsWritten | yuki_table.c:290-348 | As written, SELECT stores the intended statement within its estimate whenever two field quotes are at most one byte longer than the comma, for every accepted object without an integer condition |
| EstimateAsWritten.SelectSizeExact | yuki_table.c:290-322 | For NUL-free strings the SELECT estimate as written is the text up to the end of the WHERE fill plus a comma, a byte and the NUL, less two field quotes |
| EstimateAsWritten.SelectAsWrittenExact | yuki_table.c:290-348 | For NUL-free strings, SELECT as written fits its estimate exactly when two field quotes are at most one byte longer than the comma; otherwise the estimate is short |
| EstimateAsWritten.InsertListsExact | yuki_table.c:500-521 | For NUL-free strings the INSERT per-entry estimate is exactly the column list and the value list, each with its trailing comma |
| EstimateAsWritten.InsertFitsAsWritten | yuki_table.c:477-570 | As written, INSERT stores the intended statement within its estimate whenever two field quotes fit in one byte, a comma and the shorter of a comma and a right bracket |
| EstimateAsWritten.InsertAsWrittenExact | yuki_table.c:477-570 | For NUL-free strings, INSERT as written fits its estimate exactly when that condition holds; otherwise the estimate is short |
| ResultParser.ConvertRow | yuki_table.c:679-750 | A row converts iff each of its cells does; a NULL cell becomes the undefined value, and the i-th value is the i-th cell's conversion |
| ResultParser.RowMaps | yuki_table.c:754-760 | The rows become maps iff every cell converts; each map pairs the requested fields, in order, with that row's cells |
| ResultParser.ParseSelect | yuki_table.c:631-764 | SELECT yields false for no rows; it fails iff the column count differs from the field count or a cell does not convert; otherwise it yields one field-to-cell map per row |
| ResultParser.ParseResult | yuki_table.c:766-801 | UPDATE and DELETE yield true iff a row was affected, INSERT always yields true, SELECT uses its own parser |
| Fetch.BuildSql | yuki_table.c:803-827 | Building succeeds iff the verb is real, the validator accepts and the builder accepts the types; a failure changes nothing; success changes only the statement |
| Fetch.BuildSqlStoresStatement | yuki_table.c:803-827 | With the repairs, building a validated, well-typed, unbuilt object stores the intended statement and never writes past the allocation |
| Fetch.BuildSqlIdempotent | yuki_table.c:285-288 | Building an already built object succeeds and changes nothing |
| Fetch.Gate | yuki_table.c:1207-1224 | Any affected-row count but 1 fails; with one row, non-SELECT verbs yield true, and SELECT succeeds iff the column count equals the field count and every cell converts, yielding a one-element array of a field-to-cell map |
| Fetch.FetchOne | yuki_table.c:1170-1225 | Fetching fails unchanged when building fails. Otherwise it records the affected-row count from the database's answer to the built statement and succeeds only when that count is 1. No connection, a failed execution or a failed store fail with the built object unchanged. With one row, a non-SELECT verb always succeeds with true, and a SELECT succeeds iff the columns match the fields and every cell converts, yielding the one row as a field map |

## Left out

- Connection pool (`_ytable_thread_get_connection`, `_ytable_fetch_db_connection`, yuki_table.c:829-941): thread-local storage and MySQL connect/ping calls are foreign; a missing connection is one of the database's answers.
- `_ytable_execute` and storing the result (yuki_table.c:943-953, 1194-1205): driver I/O, modelled as the `Fetch.Answer` a `Database` function gives for the statement text.
- Cell conversion in the SELECT parser (yuki_table.c:686-750): the type-code switch, `strtoll`/`strtoull` with `errno` and the narrowing casts are a `Converter` parameter that may refuse a cell; only the NULL-cell rule is modelled directly.
- `_ytable_init`, `_ytable_shutdown`, `_ytable_clean_up` and the thread-cleanup stub (yuki_table.c:955-1012): fixed configuration and global lifecycle.
- `_ytable_fetch_insert_id` (yuki_table.c:1227-1232): a stub that always fails, with no behaviour to model.
- The table lookup loop in `ytable_instance` (yuki_table.c:1022-1047): `NewQuery` starts from an already resolved table index.
- NULL pointer argument checks: Dafny values cannot be null.
- Allocation and clone failures (`ybuffer_simple_alloc`, `yvar_clone`): always succeed in the model, so a setter that set its verb never reports a failed clone.
- `snprintf` truncation and `size - offset` wrap-around: the fill text is unbounded. The bound theorems say when the estimate covers the fill's peak offset plus the NUL, so that no write is truncated. For an estimate that falls short, the findings state the shortfall. What C then does with the bytes that do not fit is not modelled: `snprintf` truncates, and the offset can pass `size`. So the findings do not claim a write outside the allocation.
- The integer WHERE branch passes the output buffer to `%s` while writing into it, which is undefined behaviour in C. `SqlFill.Echo` reads the C string the buffer held after the previous write.
- A rewind longer than the text is clamped to the empty text. After validation it cannot happen.
- The `limit` and `offset` fields are carried on the object; the core never reads them.
- Logging and the `yvar_t` internals are not modelled. The shared true/false results are `Bool` values.
- ResultParser.ParseSelect: requires one cell per column and one row per affected row, since the driver's affected-row count for a SELECT is its row count and the parser asserts no extra rows; the result set is required to be present, as the parser asserts.
- Fetch.FetchOne: requires that, when a SELECT builds, the database answers the built statement with a stored result or a failure, which is what the driver does for statements that have result columns.

## Findings

Each finding is a shortfall: the estimate is smaller than the fill's peak
offset plus the NUL. Whether C then truncates or writes outside the buffer is
not modelled (see Left out).

| source | as written | input that shows it | evidently intended | confidence | as-written member | corrected member |
|---|---|---|---|---|---|---|
| yuki_table.c:223 | the table estimate is the name length plus one | a DELETE on a table with a NUL-free name, a one-character field quote and one string condition | reserve both field quotes around the name | high, not executed | Findings.DeleteTableShortfall | SizeBound.DeleteFits |
| yuki_table.c:402-403 | the UPDATE estimate reserves no comma per assignment while the fill writes one after each | an UPDATE of three string fields with a string condition and a one-character comma | reserve one comma per assignment, as SELECT and INSERT do | high, not executed | Findings.UpdateCommaShortfall | SizeBound.UpdateFits |
| yuki_table.c:249 | the integer branch of the WHERE fill prints the output buffer instead of the integer's digits | a DELETE with one integer condition whose statement head is longer than INT_MAXLEN | print the integer's digits, as the UPDATE and INSERT fills do at lines 441 and 558 | high, not executed | Findings.DeleteIntConditionShortfall | SizeBound.DeleteFits |
