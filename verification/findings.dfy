/**
 The three places where the builders' estimates, as written, do not cover what
 their fill writes. Each lemma takes the code as written (`AS_WRITTEN`) and a
 class of ordinary inputs, and shows the highest write offset plus the
 terminating NUL passing the estimated size; the integer WHERE lemma also
 shows the fill writing a statement other than the intended one. What C's
 `snprintf` then does with the bytes that do not fit (it truncates at the
 size it is given) is outside the model. The repaired builders are bounded in
 `SizeBound`.
 */
module Findings {
  import opened YValue
  import opened SqlFill
  import opened QueryObject
  import opened Statement

  /** A condition or field entry whose key and value are NUL-free strings. */
  predicate PlainStringEntry(e: (YVar, YVar)) {
    e.0.Str? && e.1.Str? && NulFree(e.0.s) && NulFree(e.1.s)
  }

  /** A plain string entry prints exactly as many bytes as its estimate. */
  lemma PlainPairExact(k: Keywords, e: (YVar, YVar))
    requires PlainStringEntry(e)
    ensures |PairText(k, e)| == PairSize(k, e)
  {
    CStrOfNulFree(e.0.s);
    CStrOfNulFree(e.1.s);
  }

  /** The WHERE clause and estimate of a single condition. */
  lemma SingleWhere(k: Keywords, e: (YVar, YVar))
    ensures WhereClause(k, Map([e])) == k.whereKw + PairText(k, e)
    ensures WhereSize(k, Map([e])) == |k.whereKw| + PairSize(k, e) + |k.andKw|
  {
    assert PairTexts(k, [e]) == [PairText(k, e)];
    var n := PairSize(k, e) + |k.andKw|;
    assert WhereSizes(k, [e]) == [n];
    assert [n][..0] == [];
    assert Sum([n]) == n;
  }

  /** One plain condition: the WHERE fill reaches exactly its estimate. */
  lemma SinglePlainWhere(k: Keywords, e: (YVar, YVar))
    requires PlainStringEntry(e)
    ensures WhereReach(k, Map([e])) == WhereSize(k, Map([e]))
    ensures WhereFillExact(Map([e]), AS_WRITTEN)
  {
    PlainPairExact(k, e);
    SingleWhere(k, e);
  }

  lemma JoinOfThree(items: seq<string>, sep: string)
    requires |items| == 3
    ensures Join(items, sep) == items[0] + sep + items[1] + sep + items[2]
  {
    assert items[..2][..1] == [items[0]];
    assert Join(items[..2], sep) == items[0] + sep + items[1];
  }

  lemma SumOfThree(xs: seq<nat>)
    requires |xs| == 3
    ensures Sum(xs) == xs[0] + xs[1] + xs[2]
  {
    assert xs[..2][..1][..0] == [];
    assert Sum(xs[..2][..1]) == xs[0];
  }

  /** Table estimate: `name_len + 1` reserves room for one extra byte, but the
      fill quotes the name on both sides. For a DELETE on a table with a
      NUL-free name and one plain condition, the estimate falls short of the
      fill's peak offset plus the NUL whenever the field quote is not empty. */
  lemma DeleteTableShortfall(k: Keywords, t: TableConfig, e: (YVar, YVar))
    requires ConsistentTable(t) && NulFree(t.name)
    requires |k.quotField| >= 1 && PlainStringEntry(e)
    ensures DeleteFill(k, t, AS_WRITTEN, Map([e])).peak + 1 > DeleteSize(k, t, AS_WRITTEN, Map([e]))
  {
    SinglePlainWhere(k, e);
    DeleteRun(k, t, AS_WRITTEN, Map([e]));
    CStrOfNulFree(t.name);
  }

  /** UPDATE estimate: no comma is reserved per assignment, while the fill
      writes one after every assignment. For three plain assignments and a
      plain condition, the estimate falls short of the fill's peak offset plus
      the NUL whenever the comma is not empty, even with no quotes at all. */
  lemma UpdateCommaShortfall(k: Keywords, t: TableConfig, e1: (YVar, YVar), e2: (YVar, YVar),
                            e3: (YVar, YVar), w: (YVar, YVar))
    requires ConsistentTable(t) && NulFree(t.name) && |k.comma| >= 1
    requires PlainStringEntry(e1) && PlainStringEntry(e2) && PlainStringEntry(e3)
    requires PlainStringEntry(w)
    ensures UpdateFill(k, t, AS_WRITTEN, [e1, e2, e3], Map([w])).peak + 1
          > UpdateSize(k, t, AS_WRITTEN, [e1, e2, e3], Map([w]))
  {
    var es := [e1, e2, e3];
    SinglePlainWhere(k, w);
    UpdateRun(k, t, AS_WRITTEN, es, Map([w]));
    CStrOfNulFree(t.name);
    PlainPairExact(k, e1);
    PlainPairExact(k, e2);
    PlainPairExact(k, e3);
    var p := PairTexts(k, es);
    var sizes := AssignmentSizes(k, es, AS_WRITTEN);
    assert |Join(p, k.comma)| == |p[0]| + |p[1]| + |p[2]| + 2 * |k.comma| by {
      JoinOfThree(p, k.comma);
    }
    assert Sum(sizes) == sizes[0] + sizes[1] + sizes[2] by {
      SumOfThree(sizes);
    }
    assert sizes[0] == |p[0]| && sizes[1] == |p[1]| && sizes[2] == |p[2]|;
  }

  /** The WHERE fill of a DELETE with one integer condition, as written: the
      value slot receives the text already in the output buffer instead of the
      integer's digits. */
  lemma DeleteIntConditionEcho(k: Keywords, t: TableConfig, key: string, v: YVar)
    requires LikeInt(v)
    ensures DeleteFill(k, t, AS_WRITTEN, Map([(Str(key), v)])).text
         == k.deleteVerb + TableText(k, t) + k.whereKw
            + (k.quotField + CStr(key) + k.quotField + k.opEq + k.quotValue)
            + CStr(k.deleteVerb + TableText(k, t) + k.whereKw) + k.quotValue
    ensures DeleteFill(k, t, AS_WRITTEN, Map([(Str(key), v)])).peak
         == |k.deleteVerb + TableText(k, t) + k.whereKw|
            + |k.quotField + CStr(key) + k.quotField + k.opEq + k.quotValue|
            + |CStr(k.deleteVerb + TableText(k, t) + k.whereKw)| + |k.quotValue + k.andKw|
  {
    var e := (Str(key), v);
    var head := k.deleteVerb + TableText(k, t) + k.whereKw;
    var before := k.quotField + CStr(key) + k.quotField + k.opEq + k.quotValue;
    var after := k.quotValue + k.andKw;
    var s0 := Write(WriteTable(Write(START, k.deleteVerb), k, t), k.whereKw);
    assert s0.text == head && s0.written == head && s0.peak == |head|;
    var s1 := Echo(s0, before, after);
    assert DeleteFill(k, t, AS_WRITTEN, Map([e])) == Rewind(s1, |k.andKw|) by {
      assert [e][..0] == [];
      assert WriteConditions(s0, k, [e], AS_WRITTEN) == s1;
    }
    var body := head + before + CStr(head) + k.quotValue;
    assert s1.text == body + k.andKw && s1.peak == |head| + |before| + |CStr(head)| + |after|;
    assert (body + k.andKw)[..|body|] == body;
  }

  /** Consequence: once the statement head is longer than the integer estimate,
      the statement the fill writes is not the intended one, and the fill's peak
      offset plus the NUL passes the estimate even where the table estimate and
      the UPDATE comma are repaired. */
  lemma DeleteIntConditionShortfall(k: Keywords, t: TableConfig, key: string, v: YVar)
    requires LikeInt(v) && IntWidthCovered(k) && ConsistentTable(t)
    requires NulFree(key) && NulFree(t.name)
    requires NulFree(k.deleteVerb + TableText(k, t) + k.whereKw)
    requires |k.deleteVerb + TableText(k, t) + k.whereKw| > k.intMaxLen
    ensures DeleteFill(k, t, AS_WRITTEN, Map([(Str(key), v)])).text
         != DeleteText(k, t, Map([(Str(key), v)]))
    ensures DeleteFill(k, t, AS_WRITTEN, Map([(Str(key), v)])).peak + 1
          > DeleteSize(k, t, Fixes(true, true, false), Map([(Str(key), v)]))
  {
    var e := (Str(key), v);
    var head := k.deleteVerb + TableText(k, t) + k.whereKw;
    DeleteIntConditionEcho(k, t, key, v);
    CStrOfNulFree(head);
    CStrOfNulFree(key);
    CStrOfNulFree(t.name);
    DecimalWidth(v);
    SingleWhere(k, e);
  }
}
