/**
 The per-verb result parsers. The driver's answer is abstract data: a column
 count and rows of optional cells (a missing cell is SQL NULL). How a present
 cell becomes a value depends on the column's type and flags and on libc
 number parsing; the model takes that conversion as a parameter (`Converter`)
 that may refuse a cell, which makes the parse fail.
 */
module ResultParser {
  import opened YValue
  import opened QueryObject

  /** A stored result set: the number of columns and the rows, each a sequence
      of cells. */
  datatype ResultSet = ResultSet(columns: nat, rows: seq<seq<Option<string>>>)

  /** Every row has one cell per column. */
  predicate Rectangular(rs: ResultSet) {
    forall i :: 0 <= i < |rs.rows| ==> |rs.rows[i]| == rs.columns
  }

  /** Conversion of the text of a non-NULL cell in a given column; `None` when
      the number in it does not convert. */
  type Converter = (nat, string) -> Option<YVar>

  datatype Parsed = Parsed(value: YVar) | ParseFailed

  /** The shared true/false result values. */
  const RESULT_TRUE: YVar := Bool(true)
  const RESULT_FALSE: YVar := Bool(false)

  /** A NULL cell becomes the undefined value; any other cell is converted. */
  function CellValue(convert: Converter, column: nat, cell: Option<string>): Option<YVar> {
    if cell.None? then Some(Undefined) else convert(column, cell.value)
  }

  /** The cells of one row as values, or None when one of them does not convert. */
  function ConvertRow(convert: Converter, row: seq<Option<string>>): (r: Option<seq<YVar>>)
    ensures r.Some? <==> forall j :: 0 <= j < |row| ==> CellValue(convert, j, row[j]).Some?
    ensures r.Some? ==> |r.value| == |row|
    ensures r.Some? ==> forall j :: 0 <= j < |row| ==> Some(r.value[j]) == CellValue(convert, j, row[j])
    decreases |row|
  {
    if |row| == 0 then Some([])
    else
      var last := |row| - 1;
      match ConvertRow(convert, row[..last])
      case None => None
      case Some(init) =>
        match CellValue(convert, last, row[last])
        case None => None
        case Some(v) => Some(init + [v])
  }

  /** The map a row becomes: the requested field names, in order, each with the
      value of the cell in the same position. */
  predicate IsRowMap(fields: seq<YVar>, convert: Converter, row: seq<Option<string>>, m: YVar) {
    && m.Map? && |m.entries| == |fields| == |row|
    && forall j :: 0 <= j < |fields| ==>
         m.entries[j].0 == fields[j] && Some(m.entries[j].1) == CellValue(convert, j, row[j])
  }

  function Zip(keys: seq<YVar>, values: seq<YVar>): seq<(YVar, YVar)>
    requires |keys| == |values|
  {
    seq(|keys|, j requires 0 <= j < |keys| => (keys[j], values[j]))
  }

  /** Every cell of `rows` converts. */
  predicate AllConvert(convert: Converter, rows: seq<seq<Option<string>>>) {
    forall i, j :: 0 <= i < |rows| && 0 <= j < |rows[i]| ==> CellValue(convert, j, rows[i][j]).Some?
  }

  /** The rows as maps keyed by the field names, or None when a cell does not
      convert. */
  function RowMaps(fields: seq<YVar>, convert: Converter, rows: seq<seq<Option<string>>>): (r: Option<seq<YVar>>)
    requires forall i :: 0 <= i < |rows| ==> |rows[i]| == |fields|
    ensures r.Some? <==> AllConvert(convert, rows)
    ensures r.Some? ==> |r.value| == |rows|
    ensures r.Some? ==> forall i :: 0 <= i < |rows| ==> IsRowMap(fields, convert, rows[i], r.value[i])
    decreases |rows|
  {
    if |rows| == 0 then Some([])
    else
      var last := |rows| - 1;
      match RowMaps(fields, convert, rows[..last])
      case None =>
        assert !AllConvert(convert, rows) by {
          var i, j :| 0 <= i < last && 0 <= j < |rows[..last][i]|
                      && CellValue(convert, j, rows[..last][i][j]).None?;
          assert rows[i][j] == rows[..last][i][j];
        }
        None
      case Some(init) =>
        match ConvertRow(convert, rows[last])
        case None => None
        case Some(values) =>
          assert AllConvert(convert, rows) by {
            forall i, j | 0 <= i < |rows| && 0 <= j < |rows[i]|
              ensures CellValue(convert, j, rows[i][j]).Some?
            {
              if i < last {
                assert rows[i] == rows[..last][i];
              }
            }
          }
          Some(init + [Map(Zip(fields, values))])
  }

  /** `_ytable_sql_select_result_parser`: false for an empty result, a failure when
      the driver's columns are not the requested fields or a cell does not
      convert, and otherwise one map per row. */
  function ParseSelect(fields: seq<YVar>, affected: nat, rs: ResultSet, convert: Converter): (r: Parsed)
    requires |rs.rows| == affected && Rectangular(rs)
    ensures affected == 0 ==> r == Parsed(RESULT_FALSE)
    ensures r.ParseFailed? <==>
              affected > 0 && (rs.columns != |fields| || !AllConvert(convert, rs.rows))
    ensures affected > 0 && r.Parsed? ==>
              && r.value.Arr? && |r.value.items| == affected
              && forall i :: 0 <= i < affected ==> IsRowMap(fields, convert, rs.rows[i], r.value.items[i])
  {
    if affected == 0 then Parsed(RESULT_FALSE)
    else if |fields| != rs.columns then ParseFailed
    else
      match RowMaps(fields, convert, rs.rows)
      case None => ParseFailed
      case Some(maps) => Parsed(Arr(maps))
  }

  /** What the SELECT parser needs of the stored result: present, one cell per
      column, and one row per affected row. */
  predicate SelectResultReady(q: Query, stored: Option<ResultSet>) {
    stored.Some? && Rectangular(stored.value) && |stored.value.rows| == q.affectedRows
  }

  /** The dispatch table's parser for the object's verb. UPDATE and DELETE report
      whether any row was affected, INSERT always reports true. */
  function ParseResult(q: Query, stored: Option<ResultSet>, convert: Converter): (r: Parsed)
    requires q.verb != NoVerb
    requires q.verb == Select ==> q.fields.Some? && q.fields.value.Arr? && SelectResultReady(q, stored)
    ensures q.verb == Update || q.verb == Delete ==> r == Parsed(Bool(q.affectedRows != 0))
    ensures q.verb == Insert ==> r == Parsed(RESULT_TRUE)
    ensures q.verb != Select ==> r.Parsed?
    ensures q.verb == Select ==> r == ParseSelect(q.fields.value.items, q.affectedRows, stored.value, convert)
  {
    match q.verb
    case Select => ParseSelect(q.fields.value.items, q.affectedRows, stored.value, convert)
    case Update => if q.affectedRows != 0 then Parsed(RESULT_TRUE) else Parsed(RESULT_FALSE)
    case Insert => Parsed(RESULT_TRUE)
    case Delete => if q.affectedRows != 0 then Parsed(RESULT_TRUE) else Parsed(RESULT_FALSE)
  }
}
