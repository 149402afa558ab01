/**
 The estimates as written, verb by verb, for the two verbs whose estimate is
 short only through the table name when no condition is an integer: SELECT
 and INSERT. An integer condition makes SELECT's WHERE fill print the buffer
 itself, which can exceed the estimate on its own; every lemma here takes
 conditions without integers. The table estimate reserves the name and one
 byte where the fill writes the name between two field quotes, so whether the
 whole statement still fits depends on the slack the other parts of the
 estimate leave, which the keyword lengths decide.

 For each verb: a sufficient condition on the keywords under which the fill's
 peak plus the NUL stays within the estimate as written, and, for inputs whose
 strings print in full and reserve exactly what they print, that the same
 condition is also necessary.
 */
module EstimateAsWritten {
  import opened YValue
  import opened SqlFill
  import opened QueryObject
  import opened Statement
  import opened SizeBound
  import opened Findings

  /** The two field quotes fit in the slack of one comma and one byte. */
  predicate SelectQuotesFit(k: Keywords) {
    2 * |k.quotField| <= |k.comma| + 1
  }

  /** The two field quotes fit in the slack INSERT leaves: one byte, a comma,
      and the shorter of a comma and a right bracket. */
  predicate InsertQuotesFit(k: Keywords) {
    2 * |k.quotField| + Max(|k.comma|, |k.bracketRight|) <= 1 + 2 * |k.comma| + |k.bracketRight|
  }

  /** A field name that is a NUL-free string. */
  predicate PlainField(v: YVar) {
    v.Str? && NulFree(v.s)
  }

  /** Conditions that are not a map, or a non-empty map of NUL-free strings. */
  predicate PlainConditions(c: YVar) {
    c.Map? ==> |c.entries| > 0 && forall i :: 0 <= i < |c.entries| ==> PlainStringEntry(c.entries[i])
  }

  /** Plain field names reserve exactly what the field list prints. */
  lemma FieldsExact(k: Keywords, items: seq<YVar>)
    requires |items| > 0 && forall i :: 0 <= i < |items| ==> PlainField(items[i])
    ensures |Join(FieldTexts(items), k.comma)| + |k.comma| == Sum(FieldSizes(k, items))
  {
    var fields := FieldTexts(items);
    forall i | 0 <= i < |fields|
      ensures |fields[i]| + |k.comma| == FieldSizes(k, items)[i]
    {
      CStrOfNulFree(items[i].s);
    }
    JoinExact(fields, k.comma, FieldSizes(k, items));
  }

  /** Plain conditions are written from their own text and reserve exactly what
      the WHERE fill reaches. */
  lemma WhereExact(k: Keywords, c: YVar)
    requires PlainConditions(c)
    ensures WhereTyped(c) && WhereFillExact(c, AS_WRITTEN)
    ensures WhereReach(k, c) == WhereSize(k, c)
  {
    if c.Map? {
      var pairs := PairTexts(k, c.entries);
      forall i | 0 <= i < |pairs|
        ensures |pairs[i]| + |k.andKw| == WhereSizes(k, c.entries)[i]
      {
        PlainPairExact(k, c.entries[i]);
      }
      JoinExact(pairs, k.andKw, WhereSizes(k, c.entries));
    }
  }

  /** SELECT as written fits whenever the field quotes fit the slack, for every
      object its builder accepts without an integer condition. */
  lemma SelectFitsAsWritten(k: Keywords, t: TableConfig, items: seq<YVar>, c: YVar)
    requires IntWidthCovered(k) && ConsistentTable(t) && SelectQuotesFit(k)
    requires |items| > 0 && WhereTyped(c) && (c.Map? ==> |c.entries| > 0)
    requires WhereFillExact(c, AS_WRITTEN)
    ensures SelectFill(k, t, AS_WRITTEN, items, c).text == SelectText(k, t, items, c)
    ensures SelectFill(k, t, AS_WRITTEN, items, c).peak + 1 <= SelectSize(k, t, AS_WRITTEN, items, c)
  {
    var join := Join(FieldTexts(items), k.comma);
    var base := |k.selectVerb| + |join|;
    var peak := SelectFill(k, t, AS_WRITTEN, items, c).peak;
    assert peak == Max(base + |k.comma|, base + |k.fromKw| + |TableText(k, t)| + WhereReach(k, c)) by {
      SelectRun(k, t, AS_WRITTEN, items, c);
    }
    assert |join| + |k.comma| <= Sum(FieldSizes(k, items)) by {
      FieldsWithin(k, items);
    }
    assert |TableText(k, t)| <= 2 * |k.quotField| + t.nameLen;
    assert WhereReach(k, c) <= WhereSize(k, c) by {
      WhereWithin(k, c);
    }
    SelectRun(k, t, AS_WRITTEN, items, c);
  }

  /** The peak of a run that is either `base + first` or `base + rest` fits a
      size `quotes` short of `rest`, a separator and two bytes exactly when the
      quotes fit in one separator and a byte. */
  lemma PeakFitsIff(peak: nat, base: nat, first: nat, rest: nat, size: nat, quotes: nat)
    requires peak == Max(base + first, base + rest) && quotes <= rest
    requires size + quotes == base + rest + first + 2
    ensures peak + 1 <= size <==> quotes <= first + 1
  {
  }

  /** On plain inputs the SELECT estimate as written is the fill's text up to
      the end of the WHERE fill, one comma, one byte and the NUL, less the two
      field quotes. */
  lemma SelectSizeExact(k: Keywords, t: TableConfig, items: seq<YVar>, c: YVar)
    requires ConsistentTable(t) && NulFree(t.name)
    requires |items| > 0 && (forall i :: 0 <= i < |items| ==> PlainField(items[i]))
    requires PlainConditions(c)
    ensures SelectSize(k, t, AS_WRITTEN, items, c) + 2 * |k.quotField|
         == |k.selectVerb| + |Join(FieldTexts(items), k.comma)| + |k.fromKw| + |TableText(k, t)|
            + WhereReach(k, c) + |k.comma| + 2
  {
    FieldsExact(k, items);
    WhereExact(k, c);
    assert TableSize(k, t, AS_WRITTEN) + 2 * |k.quotField| == |TableText(k, t)| + 1;
  }

  /** On plain inputs the condition is also necessary: SELECT as written fits
      exactly when the field quotes fit the slack. */
  lemma SelectAsWrittenExact(k: Keywords, t: TableConfig, items: seq<YVar>, c: YVar)
    requires ConsistentTable(t) && NulFree(t.name)
    requires |items| > 0 && (forall i :: 0 <= i < |items| ==> PlainField(items[i]))
    requires PlainConditions(c)
    ensures SelectFill(k, t, AS_WRITTEN, items, c).peak + 1 <= SelectSize(k, t, AS_WRITTEN, items, c)
            <==> SelectQuotesFit(k)
  {
    var base := |k.selectVerb| + |Join(FieldTexts(items), k.comma)|;
    var rest := |k.fromKw| + |TableText(k, t)| + WhereReach(k, c);
    WhereExact(k, c);
    SelectRun(k, t, AS_WRITTEN, items, c);
    SelectSizeExact(k, t, items, c);
    PeakFitsIff(SelectFill(k, t, AS_WRITTEN, items, c).peak, base, |k.comma|, rest,
                SelectSize(k, t, AS_WRITTEN, items, c), 2 * |k.quotField|);
  }

  /** Plain entries reserve exactly what the two INSERT lists print. */
  lemma InsertListsExact(k: Keywords, es: seq<(YVar, YVar)>)
    requires |es| > 0 && forall i :: 0 <= i < |es| ==> PlainStringEntry(es[i])
    ensures |Join(ColumnTexts(k, es), k.comma)| + |k.comma|
            + |Join(ValueTexts(k, es), k.comma)| + |k.comma| == Sum(InsertSizes(k, es))
  {
    var cols := ColumnTexts(k, es);
    var vals := ValueTexts(k, es);
    assert |Join(cols, k.comma)| + |k.comma| == Sum(ColumnSizes(k, es)) by {
      forall i | 0 <= i < |es|
        ensures |cols[i]| + |k.comma| == ColumnSizes(k, es)[i]
      {
        CStrOfNulFree(es[i].0.s);
      }
      JoinExact(cols, k.comma, ColumnSizes(k, es));
    }
    assert |Join(vals, k.comma)| + |k.comma| == Sum(ValueSizes(k, es)) by {
      forall i | 0 <= i < |es|
        ensures |vals[i]| + |k.comma| == ValueSizes(k, es)[i]
      {
        CStrOfNulFree(es[i].1.s);
      }
      JoinExact(vals, k.comma, ValueSizes(k, es));
    }
    SumPointwise(ColumnSizes(k, es), ValueSizes(k, es), InsertSizes(k, es));
  }

  /** INSERT as written fits whenever the field quotes fit its slack, for every
      object its builder accepts. */
  lemma InsertFitsAsWritten(k: Keywords, t: TableConfig, es: seq<(YVar, YVar)>)
    requires IntWidthCovered(k) && ConsistentTable(t) && InsertQuotesFit(k)
    requires |es| > 0 && EntriesTyped(es)
    ensures InsertFill(k, t, es).text == InsertText(k, t, es)
    ensures InsertFill(k, t, es).peak + 1 <= InsertSize(k, t, AS_WRITTEN, es)
  {
    var cols := Join(ColumnTexts(k, es), k.comma);
    var vals := Join(ValueTexts(k, es), k.comma);
    var mid := k.bracketRight + k.valuesKw + k.bracketLeft;
    assert InsertFill(k, t, es).peak
        == |InsertHead(k, t)| + |cols| + Max(|k.comma|, |mid| + |vals| + Max(|k.comma|, |k.bracketRight|)) by {
      InsertRun(k, t, es);
    }
    assert |cols| + |k.comma| + |vals| + |k.comma| <= Sum(InsertSizes(k, es)) by {
      InsertListsWithin(k, es);
    }
    assert |TableText(k, t)| <= 2 * |k.quotField| + t.nameLen;
    InsertRun(k, t, es);
  }

  /** On plain inputs the condition is also necessary: INSERT as written fits
      exactly when the field quotes fit its slack. */
  lemma InsertAsWrittenExact(k: Keywords, t: TableConfig, es: seq<(YVar, YVar)>)
    requires ConsistentTable(t) && NulFree(t.name)
    requires |es| > 0 && forall i :: 0 <= i < |es| ==> PlainStringEntry(es[i])
    ensures InsertFill(k, t, es).peak + 1 <= InsertSize(k, t, AS_WRITTEN, es) <==> InsertQuotesFit(k)
  {
    var cols := Join(ColumnTexts(k, es), k.comma);
    var vals := Join(ValueTexts(k, es), k.comma);
    var mid := k.bracketRight + k.valuesKw + k.bracketLeft;
    var last := Max(|k.comma|, |k.bracketRight|);
    var peak := InsertFill(k, t, es).peak;
    var size := InsertSize(k, t, AS_WRITTEN, es);
    assert peak == |InsertHead(k, t)| + |cols| + |mid| + |vals| + last by {
      InsertRun(k, t, es);
    }
    assert size + 2 * |k.quotField| + last == peak + 2 + 2 * |k.comma| + |k.bracketRight| by {
      InsertListsExact(k, es);
      assert TableSize(k, t, AS_WRITTEN) + 2 * |k.quotField| == |TableText(k, t)| + 1;
    }
  }
}
