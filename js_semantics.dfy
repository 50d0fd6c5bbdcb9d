/** The parts of JavaScript's value and number semantics that the renderer's
    bookkeeping depends on: values as a JSON-like datatype, truthiness,
    `Math.round`, `Math.ceil`, the `| 0` and `Uint16Array` integer conversions,
    decimal formatting of integers and the `split(/\r?\n/)` line split. */
module JsSemantics {
  import opened Wrappers

  /** A JavaScript number, with the non-finite values kept apart. */
  datatype JsNumber = Finite(value: real) | NaN | PosInfinity | NegInfinity

  /** `Number.isFinite`. */
  predicate IsFinite(n: JsNumber) { n.Finite? }

  /** An untyped value as it arrives from a parsed JSON body; `Undefined`
      stands for a missing key. */
  datatype JsValue =
    | Undefined
    | Null
    | Bool(b: bool)
    | Num(n: JsNumber)
    | Str(s: string)
    | Arr(items: seq<JsValue>)
    | Obj(fields: map<string, JsValue>)

  /** JavaScript truthiness (`if (!v)`). */
  predicate Truthy(v: JsValue)
  {
    match v
    case Undefined => false
    case Null => false
    case Bool(b) => b
    case Num(n) => !(n.NaN? || n == Finite(0.0))
    case Str(s) => s != ""
    case Arr(_) => true
    case Obj(_) => true
  }

  /** A property read `o[key]`: `undefined` when the key is missing. */
  function Get(o: map<string, JsValue>, key: string): JsValue
  {
    if key in o then o[key] else Undefined
  }

  /** `Math.round` on a finite number: the integer nearest to `x`, halves
      rounded up. */
  function Round(x: real): (r: int)
    ensures r as real - 0.5 <= x < r as real + 0.5
  {
    (x + 0.5).Floor
  }

  /** `Math.round(num / den)` for an exact rational: the integer `r` with
      `r - 1/2 <= num/den < r + 1/2`. */
  function RoundRatio(num: int, den: int): (r: int)
    requires den > 0
    ensures 2 * den * r - den <= 2 * num < 2 * den * r + den
  {
    var q := (2 * num + den) / (2 * den);
    assert 2 * num + den == 2 * den * q + (2 * num + den) % (2 * den);
    q
  }

  /** `Math.ceil` on a finite number. */
  function Ceil(x: real): (r: int)
    ensures r as real - 1.0 < x <= r as real
  {
    -((-x).Floor)
  }

  const TWO_32: int := 0x1_0000_0000
  const TWO_31: int := 0x8000_0000

  /** The `v | 0` conversion (ToInt32) of an integer-valued number: the
      32-bit two's-complement wrap-around. */
  function ToInt32(x: int): (r: int)
    ensures -TWO_31 <= r < TWO_31
    ensures (x - r) % TWO_32 == 0
    ensures -TWO_31 <= x < TWO_31 ==> r == x
  {
    (x + TWO_31) % TWO_32 - TWO_31
  }

  /** Storing a non-negative integer into a `Uint16Array` element. */
  function ToUint16(x: nat): (r: nat)
    ensures r < 0x1_0000
    ensures x < 0x1_0000 ==> r == x
  {
    x % 0x1_0000
  }

  // ---------------------------------------------------------------------------
  // Decimal formatting of integers (`String(n)` for an integer-valued number)

  function DigitChar(d: nat): char
    requires d < 10
  {
    "0123456789"[d]
  }

  function DigitValue(c: char): nat
  {
    if '0' <= c <= '9' then (c as int - '0' as int) else 0
  }

  function NatToString(n: nat): (s: string)
    ensures |s| >= 1
  {
    if n < 10 then [DigitChar(n)] else NatToString(n / 10) + [DigitChar(n % 10)]
  }

  /** A formatted natural number consists of decimal digits only (so it never
      starts with a minus sign). */
  lemma {:induction false} NatToStringDigits(n: nat)
    ensures forall i :: 0 <= i < |NatToString(n)| ==> '0' <= NatToString(n)[i] <= '9'
  {
    if n >= 10 {
      NatToStringDigits(n / 10);
    }
  }

  /** `String(n)` for an integer `n`. */
  function IntToString(n: int): (s: string)
    ensures |s| >= 1
  {
    if n < 0 then "-" + NatToString(-n) else NatToString(n)
  }

  /** Reads a decimal literal back; the partner of `IntToString`. */
  function ParseNat(s: string): nat
  {
    if |s| == 0 then 0 else 10 * ParseNat(s[..|s| - 1]) + DigitValue(s[|s| - 1])
  }

  function ParseInt(s: string): int
  {
    if |s| > 0 && s[0] == '-' then -(ParseNat(s[1..]) as int) else ParseNat(s)
  }

  lemma {:induction false} NatRoundTrip(n: nat)
    ensures ParseNat(NatToString(n)) == n
  {
    var s := NatToString(n);
    if n >= 10 {
      NatRoundTrip(n / 10);
      assert s[..|s| - 1] == NatToString(n / 10);
      assert DigitValue(s[|s| - 1]) == n % 10;
    } else {
      assert DigitValue(s[0]) == n;
    }
  }

  /** Formatting an integer and reading it back gives the same integer, so
      distinct numbers give distinct arguments. */
  lemma {:induction false} IntRoundTrip(n: int)
    ensures ParseInt(IntToString(n)) == n
  {
    var d := NatToString(if n < 0 then -n else n);
    NatToStringDigits(if n < 0 then -n else n);
    NatRoundTrip(if n < 0 then -n else n);
    if n < 0 {
      var s := "-" + d;
      assert s[1..] == d;
      assert ParseInt(s) == -(ParseNat(d) as int);
    } else {
      assert d[0] != '-';
      assert ParseInt(d) == ParseNat(d);
    }
  }

  lemma IntToStringInjective(a: int, b: int)
    requires IntToString(a) == IntToString(b)
    ensures a == b
  {
    IntRoundTrip(a);
    IntRoundTrip(b);
  }

  // ---------------------------------------------------------------------------
  // `s.split(/\r?\n/)` and `.find(Boolean)`

  /** The pieces of `s` between line feeds. */
  function SplitOnLineFeed(s: string): (r: seq<string>)
    ensures |r| >= 1
    ensures forall i :: 0 <= i < |r| ==> '\n' !in r[i]
  {
    if |s| == 0 then [""]
    else
      var rest := SplitOnLineFeed(s[1..]);
      if s[0] == '\n' then [""] + rest else [[s[0]] + rest[0]] + rest[1..]
  }

  function JoinLines(r: seq<string>): string
    requires |r| >= 1
  {
    if |r| == 1 then r[0] else r[0] + "\n" + JoinLines(r[1..])
  }

  /** Splitting at line feeds loses nothing: joining the pieces with line
      feeds gives the original text back. */
  lemma {:induction false} SplitJoinRoundTrip(s: string)
    ensures JoinLines(SplitOnLineFeed(s)) == s
  {
    if |s| > 0 {
      var rest := SplitOnLineFeed(s[1..]);
      SplitJoinRoundTrip(s[1..]);
      if s[0] != '\n' {
        var r := SplitOnLineFeed(s);
        assert r[0] == [s[0]] + rest[0];
        if |rest| > 1 {
          assert r[1..] == rest[1..];
          assert JoinLines(rest) == rest[0] + "\n" + JoinLines(rest[1..]);
        }
      }
    }
  }

  /** A separator `\r\n` removes a `\r` that ends a piece followed by a line feed. */
  function DropCarriageReturn(piece: string): string
  {
    if |piece| > 0 && piece[|piece| - 1] == '\r' then piece[..|piece| - 1] else piece
  }

  /** `s.split(/\r?\n/)`. */
  function Lines(s: string): (r: seq<string>)
    ensures |r| == |SplitOnLineFeed(s)|
    ensures forall i :: 0 <= i < |r| ==> '\n' !in r[i]
  {
    var p := SplitOnLineFeed(s);
    seq(|p|, i requires 0 <= i < |p| => if i < |p| - 1 then DropCarriageReturn(p[i]) else p[i])
  }

  /** `lines.find(Boolean)`: the first non-empty string, if any. */
  function FirstNonEmpty(lines: seq<string>): (r: Option<string>)
    ensures r.Some? ==> r.value != "" && r.value in lines
    ensures r.Some? ==> exists i :: 0 <= i < |lines| && lines[i] == r.value &&
                                    forall j :: 0 <= j < i ==> lines[j] == ""
    ensures r.None? <==> forall i :: 0 <= i < |lines| ==> lines[i] == ""
  {
    if |lines| == 0 then None
    else if lines[0] != "" then Some(lines[0])
    else
      var r := FirstNonEmpty(lines[1..]);
      assert forall i :: 1 <= i < |lines| ==> lines[i] == lines[1..][i - 1];
      if r.Some? then
        assert exists i :: 0 <= i < |lines| && lines[i] == r.value &&
                           forall j :: 0 <= j < i ==> lines[j] == "" by {
          var k :| 0 <= k < |lines[1..]| && lines[1..][k] == r.value &&
                   forall j :: 0 <= j < k ==> lines[1..][j] == "";
          assert lines[k + 1] == r.value;
        }
        r
      else r
  }
}
