/**
 The fill pass of the size-then-fill SQL builders.

 Every builder writes its statement left to right into one buffer with
 `offset += snprintf(buffer + offset, size - offset, ...)`. A write stores its
 fragment at the running offset followed by a NUL, and advances the offset by
 the fragment's length. Lists are written by appending a separator after every
 item and then moving the offset back by one separator ("emit then rewind").

 A `Trace` is the state of that pass. Besides the text before the running
 offset it records the highest offset a write has reached: the allocation is
 large enough exactly when that peak plus the terminating NUL fits, which is
 what the builders' size estimates must bound.
 */
module SqlFill {
  import opened YValue

  /** The text up to the running offset, the highest offset a write has reached,
      and the text as of the last write, which put a NUL after it (so `%s` of the
      buffer reads `CStr(written)`). */
  datatype Trace = Trace(text: string, peak: nat, written: string)

  const START: Trace := Trace("", 0, "")

  function Max(a: nat, b: nat): nat {
    if a < b then b else a
  }

  /** The peak is never below the running offset. */
  predicate Sane(st: Trace) {
    st.peak >= |st.text|
  }

  /** The state after a write that leaves `t` before the running offset. */
  function Written(st: Trace, t: string): Trace {
    Trace(t, Max(st.peak, |t|), t)
  }

  /** `snprintf` of a fixed fragment at the running offset. */
  function Write(st: Trace, f: string): (r: Trace)
    ensures r.text == st.text + f
    ensures Sane(st) ==> r.peak == Max(st.peak, |st.text| + |f|) && Sane(r)
  {
    Written(st, st.text + f)
  }

  /** `snprintf` whose `%s` argument is the output buffer itself: `before`, then
      the C string the buffer holds, then `after`. */
  function Echo(st: Trace, before: string, after: string): (r: Trace)
    ensures r.text == st.text + before + CStr(st.written) + after
    ensures Sane(st) ==> Sane(r) && r.peak >= st.peak
  {
    Written(st, st.text + before + CStr(st.written) + after)
  }

  /** `offset -= n`. An offset that would go below zero is clamped; the builders
      never rewind past the start once their lists are non-empty. */
  function Rewind(st: Trace, n: nat): (r: Trace)
    ensures r.peak == st.peak && r.written == st.written
    ensures n <= |st.text| ==> r.text == st.text[..|st.text| - n]
    ensures Sane(st) ==> Sane(r)
  {
    st.(text := if n <= |st.text| then st.text[..|st.text| - n] else "")
  }

  /** One write of `item + sep` per item, in order. */
  function WriteEach(st: Trace, items: seq<string>, sep: string): Trace
    decreases |items|
  {
    if |items| == 0 then st
    else Write(WriteEach(st, items[..|items| - 1], sep), items[|items| - 1] + sep)
  }

  /** Emit-then-rewind: a separator after every item, then back by one separator. */
  function WriteList(st: Trace, items: seq<string>, sep: string): Trace {
    Rewind(WriteEach(st, items, sep), |sep|)
  }

  /** Every item followed by the separator. */
  function Terminated(items: seq<string>, sep: string): string
    decreases |items|
  {
    if |items| == 0 then ""
    else Terminated(items[..|items| - 1], sep) + items[|items| - 1] + sep
  }

  /** The items with the separator between neighbours and nowhere else. */
  function Join(items: seq<string>, sep: string): string
    decreases |items|
  {
    if |items| == 0 then ""
    else if |items| == 1 then items[0]
    else Join(items[..|items| - 1], sep) + sep + items[|items| - 1]
  }

  function Sum(xs: seq<nat>): nat
    decreases |xs|
  {
    if |xs| == 0 then 0 else Sum(xs[..|xs| - 1]) + xs[|xs| - 1]
  }

  lemma {:induction false} TerminatedIsJoin(items: seq<string>, sep: string)
    requires |items| > 0
    ensures Terminated(items, sep) == Join(items, sep) + sep
    decreases |items|
  {
    if |items| > 1 {
      TerminatedIsJoin(items[..|items| - 1], sep);
    } else {
      assert items[..0] == [];
    }
  }

  /** Writing the items one by one appends every item followed by the separator;
      the peak is where the last write ends. */
  lemma {:induction false} WriteEachAppends(st: Trace, items: seq<string>, sep: string)
    requires Sane(st)
    ensures WriteEach(st, items, sep).text == st.text + Terminated(items, sep)
    ensures WriteEach(st, items, sep).peak == Max(st.peak, |st.text| + |Terminated(items, sep)|)
    decreases |items|
  {
    if |items| > 0 {
      WriteEachAppends(st, items[..|items| - 1], sep);
    }
  }

  /** Emit-then-rewind produces the separator-joined list; the peak offset is
      reached just before the rewind, with one separator more than the join. */
  lemma WriteListIsJoin(st: Trace, items: seq<string>, sep: string)
    requires Sane(st) && |items| > 0
    ensures WriteList(st, items, sep).text == st.text + Join(items, sep)
    ensures WriteList(st, items, sep).peak == Max(st.peak, |st.text| + |Join(items, sep)| + |sep|)
  {
    WriteEachAppends(st, items, sep);
    TerminatedIsJoin(items, sep);
    var t := st.text + Join(items, sep);
    assert WriteEach(st, items, sep).text == t + sep;
    assert (t + sep)[..|t|] == t;
  }

  /** With no items the rewind eats the tail of the text written before the list:
      the technique is sound only for non-empty lists. */
  lemma WriteListOnEmpty(st: Trace, sep: string)
    requires |sep| <= |st.text|
    ensures WriteList(st, [], sep).text == st.text[..|st.text| - |sep|]
  {
  }

  /** Items whose lengths plus a separator stay within per-item bounds produce
      terminated text within the sum of the bounds. */
  lemma {:induction false} TerminatedWithin(items: seq<string>, sep: string, bounds: seq<nat>)
    requires |bounds| == |items|
    requires forall i :: 0 <= i < |items| ==> |items[i]| + |sep| <= bounds[i]
    ensures |Terminated(items, sep)| <= Sum(bounds)
    decreases |items|
  {
    if |items| > 0 {
      TerminatedWithin(items[..|items| - 1], sep, bounds[..|bounds| - 1]);
    }
  }

  /** A joined list plus the separator written past its end stays within the sum
      of per-item bounds that each cover an item and one separator. */
  lemma {:induction false} JoinWithin(items: seq<string>, sep: string, bounds: seq<nat>)
    requires |items| > 0 && |bounds| == |items|
    requires forall i :: 0 <= i < |items| ==> |items[i]| + |sep| <= bounds[i]
    ensures |Join(items, sep)| + |sep| <= Sum(bounds)
  {
    TerminatedWithin(items, sep, bounds);
    TerminatedIsJoin(items, sep);
  }

  /** Bounds met exactly by every item and a separator add up to the length of
      the terminated list. */
  lemma {:induction false} TerminatedExact(items: seq<string>, sep: string, bounds: seq<nat>)
    requires |bounds| == |items|
    requires forall i :: 0 <= i < |items| ==> |items[i]| + |sep| == bounds[i]
    ensures |Terminated(items, sep)| == Sum(bounds)
    decreases |items|
  {
    if |items| > 0 {
      TerminatedExact(items[..|items| - 1], sep, bounds[..|bounds| - 1]);
    }
  }

  /** The joined list plus the separator written past its end is exactly the sum
      of bounds that each equal an item and one separator. */
  lemma JoinExact(items: seq<string>, sep: string, bounds: seq<nat>)
    requires |items| > 0 && |bounds| == |items|
    requires forall i :: 0 <= i < |items| ==> |items[i]| + |sep| == bounds[i]
    ensures |Join(items, sep)| + |sep| == Sum(bounds)
  {
    TerminatedExact(items, sep, bounds);
    TerminatedIsJoin(items, sep);
  }

  /** Sums of pointwise sums add up. */
  lemma {:induction false} SumPointwise(a: seq<nat>, b: seq<nat>, c: seq<nat>)
    requires |a| == |b| == |c|
    requires forall i :: 0 <= i < |c| ==> c[i] == a[i] + b[i]
    ensures Sum(c) == Sum(a) + Sum(b)
    decreases |c|
  {
    if |c| > 0 {
      SumPointwise(a[..|a| - 1], b[..|b| - 1], c[..|c| - 1]);
    }
  }

  /** A buffer after `snprintf` of `f` at offset `at`: the fragment, then a NUL,
      then whatever followed. */
  function PutFragment(buf: seq<char>, at: nat, f: string): (r: seq<char>)
    requires at <= |buf|
    ensures |r| >= at + |f| + 1 && r[..at + |f|] == buf[..at] + f && r[at + |f|] == '\0'
  {
    buf[..at] + f + "\0" + (if at + |f| + 1 <= |buf| then buf[at + |f| + 1..] else [])
  }

  /** The output buffer during the fill: its bytes, the running offset, and how
      many bytes from the start some write has touched (the size the allocation
      needs). */
  datatype Buffer = Buffer(bytes: seq<char>, offset: nat, reach: nat)

  /** `offset += snprintf(buffer + offset, size - offset, ...)` printing `f` into
      a buffer that has room for it. */
  function Put(b: Buffer, f: string): Buffer
    requires b.offset <= |b.bytes|
  {
    Buffer(PutFragment(b.bytes, b.offset, f), b.offset + |f|, Max(b.reach, b.offset + |f| + 1))
  }

  /** `offset -= n`, clamped at the start like `Rewind`. */
  function Back(b: Buffer, n: nat): Buffer {
    b.(offset := if n <= b.offset then b.offset - n else 0)
  }

  /** The trace `st` describes the buffer `b`: the offset is the length of the
      text, the bytes start with the last write's text and its NUL, the text is a
      prefix of that, and the bytes touched are the peak plus the NUL. */
  predicate Describes(st: Trace, b: Buffer) {
    && b.offset == |st.text|
    && st.text <= st.written
    && |st.written| < |b.bytes|
    && b.bytes[..|st.written|] == st.written
    && b.bytes[|st.written|] == '\0'
    && b.reach == st.peak + 1
  }

  /** What the buffer holds before the running offset is the trace's text, and
      `%s` of the buffer reads the C string of the last write. */
  lemma DescribedText(st: Trace, b: Buffer)
    requires Describes(st, b)
    ensures b.offset <= |b.bytes| && b.bytes[..b.offset] == st.text
    ensures CStr(b.bytes) == CStr(st.written)
  {
    assert st.text == st.written[..|st.text|];
    assert b.bytes[..b.offset] == b.bytes[..|st.written|][..|st.text|];
    CStrUpToNul(b.bytes, |st.written|);
  }

  /** The first write of a builder, into a freshly allocated buffer. */
  lemma FirstWriteDescribes(bytes: seq<char>, f: string)
    ensures Describes(Write(START, f), Put(Buffer(bytes, 0, 0), f))
  {
    var b := Put(Buffer(bytes, 0, 0), f);
    assert b.bytes[..|f|] == bytes[..0] + f;
  }

  /** `Write` is a write into the buffer at the running offset. */
  lemma WriteDescribes(st: Trace, b: Buffer, f: string)
    requires Describes(st, b)
    ensures b.offset <= |b.bytes|
    ensures Describes(Write(st, f), Put(b, f))
  {
    DescribedText(st, b);
    var b' := Put(b, f);
    assert b'.bytes[..|st.text + f|] == b.bytes[..b.offset] + f;
  }

  /** `Echo` is the write whose `%s` argument is the buffer itself, read as it
      stood before the write: its C string is the last write's text up to its
      first NUL. */
  lemma EchoDescribes(st: Trace, b: Buffer, before: string, after: string)
    requires Describes(st, b)
    ensures b.offset <= |b.bytes|
    ensures Echo(st, before, after) == Write(st, before + CStr(b.bytes) + after)
    ensures Describes(Echo(st, before, after), Put(b, before + CStr(b.bytes) + after))
  {
    DescribedText(st, b);
    WriteDescribes(st, b, before + CStr(b.bytes) + after);
  }

  /** `Rewind` moves the buffer's offset back and touches no byte. */
  lemma RewindDescribes(st: Trace, b: Buffer, n: nat)
    requires Describes(st, b)
    ensures Describes(Rewind(st, n), Back(b, n))
  {
    var r := Rewind(st, n);
    assert r.text <= st.text;
  }

  /** Emit-then-rewind on an actual buffer with a running offset. Returns the
      buffer, the offset after the rewind, and the number of bytes reached
      (the NUL of the last write included). */
  method EmitThenRewind(buf: seq<char>, offset: nat, items: seq<string>, sep: string)
      returns (out: seq<char>, end: nat, reach: nat)
    requires offset <= |buf| && |items| > 0
    ensures end <= |out| && out[..end] == buf[..offset] + Join(items, sep)
    ensures reach == end + |sep| + 1 && reach <= |out|
    ensures out[end..end + |sep|] == sep
  {
    out := buf;
    var off: nat := offset;
    var i := 0;
    while i < |items|
      invariant 0 <= i <= |items|
      invariant off <= |out| && out[..off] == buf[..offset] + Terminated(items[..i], sep)
      invariant i > 0 ==> off < |out|
    {
      var f := items[i] + sep;
      assert items[..i + 1][..i] == items[..i];
      out := PutFragment(out, off, f);
      off := off + |f|;
      i := i + 1;
    }
    assert items[..|items|] == items;
    TerminatedIsJoin(items, sep);
    var t := buf[..offset] + Join(items, sep);
    assert out[..off] == t + sep;
    end := |t|;
    reach := off + 1;
    assert out[..end] == (t + sep)[..end];
    assert out[end..end + |sep|] == (t + sep)[end..];
  }
}
