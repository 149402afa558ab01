/**
 The variant value the query layer consumes (`yvar_t`): strings, signed and
 unsigned 64-bit integers, booleans, arrays and ordered key/value maps. Maps are
 kept as ordered pair sequences because the map iteration used by the statement
 builder visits entries in insertion order.

 The module also holds the two pieces of text handling every builder relies on:
 what a `%s` conversion prints for a stored string (everything before the first
 NUL), and the decimal rendering of an integer value.
 */
module YValue {

  datatype Option<+T> = None | Some(value: T)

  const INT64_MIN: int := -0x8000_0000_0000_0000
  const INT64_MAX: int := 0x7FFF_FFFF_FFFF_FFFF
  const UINT64_MAX: int := 0xFFFF_FFFF_FFFF_FFFF

  type Int64 = x: int | INT64_MIN <= x <= INT64_MAX
  type UInt64 = x: int | 0 <= x <= UINT64_MAX

  datatype YVar =
    | Undefined
    | Bool(b: bool)
    | Int(i: Int64)
    | UInt(u: UInt64)
    | Str(s: string)
    | Arr(items: seq<YVar>)
    | Map(entries: seq<(YVar, YVar)>)

  /** `yvar_like_string`: a string value (counted or NUL-terminated). */
  predicate LikeString(v: YVar) {
    v.Str?
  }

  /** `yvar_like_int`: a signed or unsigned integer value. */
  predicate LikeInt(v: YVar) {
    v.Int? || v.UInt?
  }

  /** `yvar_cstr_strlen`: the stored length of a string value. */
  function StrLen(v: YVar): nat {
    if v.Str? then |v.s| else 0
  }

  /** `yvar_count` on the two collection shapes. */
  function Count(v: YVar): nat {
    match v
    case Arr(items) => |items|
    case Map(entries) => |entries|
    case _ => 0
  }

  /** The text a `%s` conversion prints for `s`: the longest prefix without a NUL. */
  function CStr(s: string): (r: string)
    ensures |r| <= |s|
  {
    if |s| == 0 || s[0] == '\0' then "" else [s[0]] + CStr(s[1..])
  }

  /** What `%s` prints is a prefix of the stored text, free of NUL, and stops
      only at the end of the text or at a NUL. */
  lemma {:induction false} CStrIsPrefix(s: string)
    ensures CStr(s) == s[..|CStr(s)|]
    ensures NulFree(CStr(s))
    ensures |CStr(s)| < |s| ==> s[|CStr(s)|] == '\0'
    ensures NulFree(s) ==> CStr(s) == s
  {
    if |s| > 0 && s[0] != '\0' {
      CStrIsPrefix(s[1..]);
    }
  }

  /** `%s` stops at the first NUL: a buffer holding `s` followed by a NUL reads
      as `s` does, whatever comes after. */
  lemma {:induction false} CStrUpToNul(s: string, n: nat)
    requires n < |s| && s[n] == '\0'
    ensures CStr(s) == CStr(s[..n])
    decreases n
  {
    if n > 0 && s[0] != '\0' {
      CStrUpToNul(s[1..], n - 1);
      assert s[..n][1..] == s[1..][..n - 1];
    }
  }

  predicate NulFree(s: string) {
    forall i :: 0 <= i < |s| ==> s[i] != '\0'
  }

  /** A string without NUL prints in full. */
  lemma {:induction false} CStrOfNulFree(s: string)
    requires NulFree(s)
    ensures CStr(s) == s
  {
    if |s| > 0 {
      CStrOfNulFree(s[1..]);
    }
  }

  function DigitChar(d: nat): char
    requires d < 10
  {
    ('0' as int + d) as char
  }

  /** Decimal digits of a natural number, most significant first, no leading zeros. */
  function NatDecimal(n: nat): (r: string)
    ensures 1 <= |r|
    ensures forall i :: 0 <= i < |r| ==> '0' <= r[i] <= '9'
    decreases n
  {
    if n < 10 then [DigitChar(n)] else NatDecimal(n / 10) + [DigitChar(n % 10)]
  }

  /** The number a string of decimal digits denotes. */
  function DigitsValue(s: string): nat
    requires forall i :: 0 <= i < |s| ==> '0' <= s[i] <= '9'
  {
    if |s| == 0 then 0
    else 10 * DigitsValue(s[..|s| - 1]) + (s[|s| - 1] as int - '0' as int)
  }

  /** The digits printed for `n` read back as `n`. */
  lemma {:induction false} NatDecimalRoundTrip(n: nat)
    ensures DigitsValue(NatDecimal(n)) == n
    decreases n
  {
    var r := NatDecimal(n);
    if n >= 10 {
      NatDecimalRoundTrip(n / 10);
      assert r[..|r| - 1] == NatDecimal(n / 10);
      assert r[|r| - 1] == DigitChar(n % 10);
    }
  }

  function Pow10(w: nat): nat {
    if w == 0 then 1 else 10 * Pow10(w - 1)
  }

  /** A number below 10^w has at most w digits. */
  lemma {:induction false} NatDecimalWidth(n: nat, w: nat)
    requires 1 <= w && n < Pow10(w)
    ensures |NatDecimal(n)| <= w
    decreases w
  {
    if n >= 10 {
      assert n / 10 < Pow10(w - 1);
      NatDecimalWidth(n / 10, w - 1);
    }
  }

  /** `yvar_get_str` on an integer value: its decimal text, with a leading '-' when negative. */
  function Decimal(v: YVar): string
    requires LikeInt(v)
  {
    match v
    case Int(i) => if i < 0 then "-" + NatDecimal(-(i as int)) else NatDecimal(i)
    case UInt(u) => NatDecimal(u)
  }

  /** The widest decimal text a 64-bit integer value can have. */
  const MAX_DECIMAL_WIDTH: nat := 20

  /** Every 64-bit integer value prints in at most 20 characters and never contains a NUL. */
  lemma DecimalWidth(v: YVar)
    requires LikeInt(v)
    ensures |Decimal(v)| <= MAX_DECIMAL_WIDTH
    ensures NulFree(Decimal(v))
  {
    assert Pow10(10) == 10_000_000_000;
    assert Pow10(19) == 10_000_000_000_000_000_000;
    assert Pow10(20) == 100_000_000_000_000_000_000;
    match v
    case Int(i) =>
      if i < 0 {
        NatDecimalWidth(-(i as int), 19);
      } else {
        NatDecimalWidth(i, 19);
      }
    case UInt(u) =>
      NatDecimalWidth(u, 20);
  }
}
