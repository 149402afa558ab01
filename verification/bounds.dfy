/**
 The size bound: with the three estimate/fill disagreements repaired, every
 builder's estimate covers the highest offset its fill reaches plus the
 terminating NUL, and the text it stores is the intended statement.
 */
module SizeBound {
  import opened YValue
  import opened SqlFill
  import opened QueryObject
  import opened Statement

  /** Every field name plus its comma fits the field's estimate. */
  lemma FieldsWithin(k: Keywords, items: seq<YVar>)
    requires |items| > 0
    ensures |Join(FieldTexts(items), k.comma)| + |k.comma| <= Sum(FieldSizes(k, items))
  {
    var fields := FieldTexts(items);
    forall i | 0 <= i < |fields|
      ensures |fields[i]| + |k.comma| <= FieldSizes(k, items)[i]
    {
    }
    JoinWithin(fields, k.comma, FieldSizes(k, items));
  }

  /** Every assignment plus its comma fits the repaired assignment estimate. */
  lemma AssignmentsWithin(k: Keywords, es: seq<(YVar, YVar)>)
    requires IntWidthCovered(k) && |es| > 0 && EntriesTyped(es)
    ensures |Join(PairTexts(k, es), k.comma)| + |k.comma| <= Sum(AssignmentSizes(k, es, CORRECTED))
  {
    var pairs := PairTexts(k, es);
    forall i | 0 <= i < |pairs|
      ensures |pairs[i]| + |k.comma| <= AssignmentSizes(k, es, CORRECTED)[i]
    {
      PairWithin(k, es[i]);
    }
    JoinWithin(pairs, k.comma, AssignmentSizes(k, es, CORRECTED));
  }

  function ColumnSizes(k: Keywords, es: seq<(YVar, YVar)>): seq<nat> {
    seq(|es|, i requires 0 <= i < |es| => StrLen(es[i].0) + 2 * |k.quotField| + |k.comma|)
  }

  function ValueSizes(k: Keywords, es: seq<(YVar, YVar)>): seq<nat> {
    seq(|es|, i requires 0 <= i < |es| => ValueSize(k, es[i].1) + 2 * |k.quotValue| + |k.comma|)
  }

  /** The INSERT per-entry estimate covers one column and one value, each with
      its comma. */
  lemma InsertListsWithin(k: Keywords, es: seq<(YVar, YVar)>)
    requires IntWidthCovered(k) && |es| > 0 && EntriesTyped(es)
    ensures |Join(ColumnTexts(k, es), k.comma)| + |k.comma|
            + |Join(ValueTexts(k, es), k.comma)| + |k.comma| <= Sum(InsertSizes(k, es))
  {
    var cols := ColumnTexts(k, es);
    var vals := ValueTexts(k, es);
    forall i | 0 <= i < |es|
      ensures |cols[i]| + |k.comma| <= ColumnSizes(k, es)[i]
      ensures |vals[i]| + |k.comma| <= ValueSizes(k, es)[i]
    {
      if LikeInt(es[i].1) {
        DecimalWidth(es[i].1);
      }
    }
    JoinWithin(cols, k.comma, ColumnSizes(k, es));
    JoinWithin(vals, k.comma, ValueSizes(k, es));
    SumPointwise(ColumnSizes(k, es), ValueSizes(k, es), InsertSizes(k, es));
  }

  lemma SelectFits(k: Keywords, t: TableConfig, items: seq<YVar>, c: YVar)
    requires IntWidthCovered(k) && ConsistentTable(t)
    requires |items| > 0 && WhereTyped(c) && (c.Map? ==> |c.entries| > 0)
    ensures SelectFill(k, t, CORRECTED, items, c).text == SelectText(k, t, items, c)
    ensures SelectFill(k, t, CORRECTED, items, c).peak + 1 <= SelectSize(k, t, CORRECTED, items, c)
  {
    var join := Join(FieldTexts(items), k.comma);
    var base := |k.selectVerb| + |join|;
    var peak := SelectFill(k, t, CORRECTED, items, c).peak;
    assert peak == Max(base + |k.comma|, base + |k.fromKw| + |TableText(k, t)| + WhereReach(k, c)) by {
      SelectRun(k, t, CORRECTED, items, c);
    }
    assert |join| + |k.comma| <= Sum(FieldSizes(k, items)) by {
      FieldsWithin(k, items);
    }
    assert |TableText(k, t)| <= TableSize(k, t, CORRECTED);
    assert WhereReach(k, c) <= WhereSize(k, c) by {
      WhereWithin(k, c);
    }
    SelectRun(k, t, CORRECTED, items, c);
  }

  lemma UpdateFits(k: Keywords, t: TableConfig, es: seq<(YVar, YVar)>, c: YVar)
    requires IntWidthCovered(k) && ConsistentTable(t)
    requires |es| > 0 && EntriesTyped(es) && WhereTyped(c) && (c.Map? ==> |c.entries| > 0)
    ensures UpdateFill(k, t, CORRECTED, es, c).text == UpdateText(k, t, es, c)
    ensures UpdateFill(k, t, CORRECTED, es, c).peak + 1 <= UpdateSize(k, t, CORRECTED, es, c)
  {
    UpdateRun(k, t, CORRECTED, es, c);
    AssignmentsWithin(k, es);
    assert |TableText(k, t)| <= TableSize(k, t, CORRECTED);
    WhereWithin(k, c);
  }

  lemma InsertFits(k: Keywords, t: TableConfig, es: seq<(YVar, YVar)>)
    requires IntWidthCovered(k) && ConsistentTable(t)
    requires |es| > 0 && EntriesTyped(es)
    ensures InsertFill(k, t, es).text == InsertText(k, t, es)
    ensures InsertFill(k, t, es).peak + 1 <= InsertSize(k, t, CORRECTED, es)
  {
    InsertRun(k, t, es);
    InsertListsWithin(k, es);
    assert |TableText(k, t)| <= TableSize(k, t, CORRECTED);
  }

  lemma DeleteFits(k: Keywords, t: TableConfig, c: YVar)
    requires IntWidthCovered(k) && ConsistentTable(t)
    requires WhereTyped(c) && (c.Map? ==> |c.entries| > 0)
    ensures DeleteFill(k, t, CORRECTED, c).text == DeleteText(k, t, c)
    ensures DeleteFill(k, t, CORRECTED, c).peak + 1 <= DeleteSize(k, t, CORRECTED, c)
  {
    DeleteRun(k, t, CORRECTED, c);
    assert |TableText(k, t)| <= TableSize(k, t, CORRECTED);
    WhereWithin(k, c);
  }
}
