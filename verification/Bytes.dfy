/** Little-endian byte codec of util.c.

  A C `unsigned char` is a `byte`, a buffer is an `array<byte>`, and the value
  a buffer holds is a `seq<byte>`.  Values are unbounded here; the 32-bit
  accumulator of the parser is written out with `% U32_LIMIT`. */
module Bytes {

  type byte = x: int | 0 <= x < 256

  const U32_LIMIT: nat := 0x1_0000_0000
  const U16_LIMIT: nat := 0x1_0000

  function Pow256(k: nat): (p: nat)
    ensures p > 0
  {
    if k == 0 then 1 else 256 * Pow256(k - 1)
  }

  /** The number whose little-endian digits are `s[start..start + len]`. */
  function Le(s: seq<byte>, start: nat, len: nat): (n: nat)
    requires start + len <= |s|
    decreases len
  {
    if len == 0 then 0 else s[start] + 256 * Le(s, start + 1, len - 1)
  }

  /** The two field widths that occur on disk, written without recursion. */
  function U16(s: seq<byte>, o: nat): (n: nat)
    requires o + 2 <= |s|
    ensures n < U16_LIMIT
  {
    s[o] as int + 0x100 * s[o + 1] as int
  }

  function U32(s: seq<byte>, o: nat): (n: nat)
    requires o + 4 <= |s|
    ensures n < U32_LIMIT
  {
    s[o] as int + 0x100 * s[o + 1] as int + 0x1_0000 * s[o + 2] as int + 0x100_0000 * s[o + 3] as int
  }

  lemma FieldWidths(s: seq<byte>, o: nat)
    ensures o + 1 <= |s| ==> Le(s, o, 1) == s[o]
    ensures o + 2 <= |s| ==> Le(s, o, 2) == U16(s, o)
    ensures o + 4 <= |s| ==> Le(s, o, 4) == U32(s, o)
  {
    if o + 1 <= |s| { assert Le(s, o + 1, 0) == 0; }
    if o + 2 <= |s| { assert Le(s, o + 1, 1) == s[o + 1] + 256 * Le(s, o + 2, 0); }
    if o + 4 <= |s| {
      assert Le(s, o + 3, 1) == s[o + 3] + 256 * Le(s, o + 4, 0);
      assert Le(s, o + 2, 2) == s[o + 2] + 256 * Le(s, o + 3, 1);
      assert Le(s, o + 1, 3) == s[o + 1] + 256 * Le(s, o + 2, 2);
    }
  }

  lemma {:induction false} LeBound(s: seq<byte>, start: nat, len: nat)
    requires start + len <= |s|
    ensures Le(s, start, len) < Pow256(len)
    decreases len
  {
    if len > 0 { LeBound(s, start + 1, len - 1); }
  }

  /** Only the bytes of the field matter. */
  lemma {:induction false} LeFrame(s: seq<byte>, t: seq<byte>, start: nat, len: nat)
    requires start + len <= |s| && start + len <= |t|
    requires forall i :: start <= i < start + len ==> s[i] == t[i]
    ensures Le(s, start, len) == Le(t, start, len)
    decreases len
  {
    if len > 0 { LeFrame(s, t, start + 1, len - 1); }
  }

  /** Any length of at least four gives the same 32-bit result, so the oversized
      lengths that partitionEntry.c passes still yield the four-byte field. */
  lemma {:induction false} LongParseIsU32(s: seq<byte>, start: nat, len: nat)
    requires 4 <= len && start + len <= |s|
    ensures Le(s, start, len) % U32_LIMIT == U32(s, start)
  {
    var hi := Le(s, start + 4, len - 4);
    assert Le(s, start + 3, len - 3) == s[start + 3] + 256 * hi;
    assert Le(s, start + 2, len - 2) == s[start + 2] + 256 * Le(s, start + 3, len - 3);
    assert Le(s, start + 1, len - 1) == s[start + 1] + 256 * Le(s, start + 2, len - 2);
    DivUnique(Le(s, start, len), U32_LIMIT, hi, U32(s, start));
  }

  /** parse_bytes_to_decimal_u: the accumulator wraps at 32 bits. */
  method ParseBytes(buf: array<byte>, start: nat, len: nat) returns (result: nat)
    requires start + len <= buf.Length
    ensures result == Le(buf[..], start, len) % U32_LIMIT
  {
    result := 0;
    var i: int := start + len - 1;
    while i >= start
      invariant start - 1 <= i < start + len
      invariant result == Le(buf[..], i + 1, start + len - 1 - i) % U32_LIMIT
    {
      WrapStep(Le(buf[..], i + 1, start + len - 1 - i), buf[i]);
      result := (result * 256 + buf[i]) % U32_LIMIT;
      i := i - 1;
    }
  }

  lemma WrapStep(x: nat, b: byte)
    ensures (x % U32_LIMIT * 256 + b) % U32_LIMIT == (x * 256 + b) % U32_LIMIT
  {
    var q, r := x / U32_LIMIT, x % U32_LIMIT;
    var n: nat := r * 256 + b;
    var t, s := n / U32_LIMIT, n % U32_LIMIT;
    assert x == U32_LIMIT * q + r && n == U32_LIMIT * t + s;
    DivUnique(x * 256 + b, U32_LIMIT, 256 * q + t, s);
  }

  /** `num` laid out in `k` little-endian bytes from `o` on. */
  function PutLe(s: seq<byte>, o: nat, num: nat, k: nat): (t: seq<byte>)
    requires o + k <= |s|
    ensures |t| == |s|
    ensures forall i :: 0 <= i < |s| && !(o <= i < o + k) ==> t[i] == s[i]
    decreases k
  {
    if k == 0 then s else PutLe(s[o := num % 256], o + 1, num / 256, k - 1)
  }

  /** `num >> 8 * i`. */
  function Shr8(num: nat, i: nat): nat
  {
    if i == 0 then num else Shr8(num, i - 1) / 256
  }

  /** write_number_into_block. */
  method WriteNumber(buf: array<byte>, o: nat, num: nat, k: nat)
    requires o + k <= buf.Length
    modifies buf
    ensures buf[..] == PutLe(old(buf[..]), o, num, k)
  {
    var i := 0;
    while i < k
      invariant 0 <= i <= k
      invariant PutLe(buf[..], o + i, Shr8(num, i), k - i) == PutLe(old(buf[..]), o, num, k)
    {
      ghost var was := buf[..];
      var digit: byte := Shr8(num, i) % 256;
      buf[o + i] := digit;
      assert buf[..] == was[o + i := digit];
      i := i + 1;
    }
  }

  lemma DivUnique(n: int, d: int, q: int, r: int)
    requires d > 0 && n == d * q + r && 0 <= r < d
    ensures n / d == q && n % d == r
  {
    var q', r' := n / d, n % d;
    var k := q - q';
    assert d * k == d * q - d * q' == r' - r;
    if k >= 1 { MulGe(d, k); } else if k <= -1 { MulGe(d, -k); }
  }

  lemma MulMono(a: int, b: int, d: int)
    requires a <= b && d >= 0
    ensures a * d <= b * d
  {
    assert (b - a) * d >= 0;
  }

  lemma MulGe(d: int, k: int)
    requires d > 0 && k >= 1
    ensures d * k >= d
  {
    assert d * k == d + d * (k - 1);
  }

  /** Writing a number in `k` bytes and parsing `k` bytes gives it back modulo
      256^k, and no byte outside the field changes (PutLe's own contract). */
  lemma {:induction false} RoundTrip(s: seq<byte>, o: nat, num: nat, k: nat)
    requires o + k <= |s|
    ensures Le(PutLe(s, o, num, k), o, k) == num % Pow256(k)
    decreases k
  {
    if k > 0 {
      var s' := s[o := num % 256];
      var t := PutLe(s', o + 1, num / 256, k - 1);
      RoundTrip(s', o + 1, num / 256, k - 1);
      assert t[o] == num % 256;
      var p := Pow256(k - 1);
      var q, r := num / 256 / p, num / 256 % p;
      assert num / 256 == p * q + r;
      assert num == 256 * (p * q + r) + num % 256 == (256 * p) * q + (256 * r + num % 256);
      DivUnique(num, 256 * p, q, 256 * r + num % 256);
    } else {
      DivUnique(num, 1, num, 0);
    }
  }

  lemma PutU16(s: seq<byte>, o: nat, num: nat)
    requires o + 2 <= |s|
    ensures PutLe(s, o, num, 2) == s[o := num % 256][o + 1 := num / 256 % 256]
    ensures U16(PutLe(s, o, num, 2), o) == num % U16_LIMIT
  {
    var a := s[o := num % 256];
    assert PutLe(s, o, num, 2) == PutLe(a, o + 1, num / 256, 1)
                               == PutLe(a[o + 1 := num / 256 % 256], o + 2, num / 256 / 256, 0);
  }

  lemma PutU32(s: seq<byte>, o: nat, num: nat)
    requires o + 4 <= |s| && num < U32_LIMIT
    ensures U32(PutLe(s, o, num, 4), o) == num
  {
    RoundTrip(s, o, num, 4);
    FieldWidths(PutLe(s, o, num, 4), o);
    assert Pow256(4) == U32_LIMIT by {
      assert Pow256(1) == 256 * Pow256(0);
      assert Pow256(3) == 256 * Pow256(2) == 256 * (256 * Pow256(1));
    }
  }

  /** Writing back the value a field already holds changes nothing. */
  lemma PutSame(s: seq<byte>, o: nat)
    requires o + 4 <= |s|
    ensures PutLe(s, o, U32(s, o), 4) == s
  {
    var n := U32(s, o);
    assert n % 256 == s[o] && n / 256 == s[o + 1] as int + 0x100 * s[o + 2] as int + 0x1_0000 * s[o + 3] as int;
    assert n / 256 % 256 == s[o + 1] && n / 256 / 256 == s[o + 2] as int + 0x100 * s[o + 3] as int;
    assert n / 256 / 256 % 256 == s[o + 2] && n / 256 / 256 / 256 == s[o + 3];
    assert PutLe(s, o, n, 4) == PutLe(s[o := n % 256], o + 1, n / 256, 3);
    assert s[o := n % 256] == s;
    assert PutLe(s, o + 1, n / 256, 3) == PutLe(s[o + 1 := n / 256 % 256], o + 2, n / 256 / 256, 2);
    assert s[o + 1 := s[o + 1]] == s;
    assert PutLe(s, o + 2, n / 256 / 256, 2) == PutLe(s[o + 2 := s[o + 2]], o + 3, s[o + 3], 1);
    assert s[o + 2 := s[o + 2]] == s;
    assert PutLe(s, o + 3, s[o + 3], 1) == PutLe(s[o + 3 := s[o + 3]], o + 4, 0, 0);
  }

  /** pad_to_4_bytes: the least multiple of four that is at least `len`. */
  function Pad4(len: nat): (r: nat)
    ensures len <= r < len + 4 && r % 4 == 0
  {
    if len % 4 == 0 then len else 4 * (len / 4 + 1)
  }
}
