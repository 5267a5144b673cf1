/**
 * The byte-level primitives shared by `BBModelSerializer` and
 * `VertexDataDeserializer`: big-endian ints, shorts and float bits over a
 * byte stream, Java's narrowing casts, and the flag-selected number of the
 * cuboid format. A `ByteBuffer` read is modelled as consuming a prefix and
 * returning the rest of the stream.
 */
module ByteCodec {
  import opened Wrappers
  import opened Vectors

  /** A byte of the stream, as its unsigned value. */
  type Byte = b: int | 0 <= b < 0x100

  /** A 32-bit pattern, as its unsigned value. */
  type Bits32 = n: int | 0 <= n < 0x1_0000_0000

  /**
   * `Float.floatToIntBits((float) x)` and `Float.intBitsToFloat`, which the
   * model takes as parameters: IEEE rounding is not modelled.
   */
  datatype FloatCodec = FloatCodec(toBits: real -> Bits32, fromBits: Bits32 -> real)

  /** What a double becomes after a trip through a Java float. */
  function AsFloat(fc: FloatCodec, x: real): real {
    fc.fromBits(fc.toBits(x))
  }

  /** Java's `(byte)` of an int, as the unsigned value of its low eight bits. */
  function LowByte(n: int): (b: Byte)
    ensures (b - n) % 0x100 == 0
  {
    n % 0x100
  }

  /** A byte read by `get()`: the signed value of its bits. */
  function Signed8(b: Byte): (r: int)
    ensures -128 <= r < 128
    ensures LowByte(r) == b
  {
    if b < 0x80 then b else b - 0x100
  }

  /** Java's narrowing of an int to a short: the low sixteen bits, signed. */
  function Wrap16(n: int): (r: int)
    ensures -0x8000 <= r < 0x8000
    ensures -0x8000 <= n < 0x8000 ==> r == n
    ensures (r - n) % 0x1_0000 == 0
  {
    (n + 0x8000) % 0x1_0000 - 0x8000
  }

  /** Java's `(int)` of a double: truncated toward zero, saturated at the int range. */
  function ToInt(x: real): (r: int)
    ensures -0x8000_0000 <= r < 0x8000_0000
  {
    var t := Trunc(x);
    if t < -0x8000_0000 then -0x8000_0000 else if t >= 0x8000_0000 then 0x7FFF_FFFF else t
  }

  /** Java's `(short)` of a double: through `(int)`, then the low sixteen bits. */
  function ToShort(x: real): (r: int)
    ensures -0x8000 <= r < 0x8000
  {
    Wrap16(ToInt(x))
  }

  /** Whole numbers: `Math.rint(x) == x`. */
  predicate Integral(x: real) {
    x == x.Floor as real
  }

  /** An integral double within the short range survives `(short)`. */
  lemma ShortExact(x: real)
    requires Integral(x) && -32768.0 <= x <= 32767.0
    ensures ToShort(x) as real == x
  {
    var t := Trunc(x);
    assert t as real == x by {
      if x >= 0.0 { assert t as real <= x < t as real + 1.0; } else { assert t as real - 1.0 < x <= t as real; }
    }
    assert -0x8000 <= t < 0x8000;
    assert ToInt(x) == t;
  }

  /** Integral doubles one 65536 apart share a short: larger coordinates wrap. */
  lemma ShortWraps(x: real)
    requires Integral(x) && 0.0 <= x <= 32767.0
    ensures ToShort(x + 65536.0) == ToShort(x)
  {
    assert Trunc(x) as real == x;
    assert Trunc(x + 65536.0) == Trunc(x) + 65536;
  }

  /** An int's four writes, most significant byte first. */
  function IntBytes(x: Bits32): (r: seq<Byte>)
    ensures |r| == 4
  {
    [x / 0x100_0000, LowByte(x / 0x1_0000), LowByte(x / 0x100), LowByte(x)]
  }

  /** `getInt`: four bytes, most significant first, as a bit pattern. */
  function ReadInt(s: seq<Byte>): (r: Result<(Bits32, seq<Byte>)>)
    ensures r.Err? <==> |s| < 4
    ensures r.Err? ==> r.error == BufferUnderflow
    ensures r.Ok? ==> r.value.1 == s[4..]
  {
    if |s| < 4 then Err(BufferUnderflow)
    else Ok((s[0] as int * 0x100_0000 + s[1] as int * 0x1_0000 + s[2] as int * 0x100 + s[3] as int, s[4..]))
  }

  lemma IntRoundTrip(x: Bits32, rest: seq<Byte>)
    ensures ReadInt(IntBytes(x) + rest) == Ok((x, rest))
  {
    var s := IntBytes(x) + rest;
    assert s[4..] == rest;
    var a, r1 := x / 0x100_0000, x % 0x100_0000;
    var b, r2 := r1 / 0x1_0000, r1 % 0x1_0000;
    var c, d := r2 / 0x100, r2 % 0x100;
    DivUnique(x, 0x1_0000, a * 0x100 + b, r2);
    DivUnique(x, 0x100, a * 0x1_0000 + b * 0x100 + c, d);
    DivUnique(a * 0x100 + b, 0x100, a, b);
    DivUnique(a * 0x1_0000 + b * 0x100 + c, 0x100, a * 0x100 + b, c);
    assert s[0] == a && s[1] == b && s[2] == c && s[3] == d;
  }

  /** Division by a positive divisor has one quotient and remainder. */
  lemma DivUnique(n: int, k: int, q: int, r: int)
    requires k > 0 && 0 <= r < k && n == q * k + r
    ensures n / k == q && n % k == r
  {
    var q2, r2 := n / k, n % k;
    assert (q - q2) * k == r2 - r;
    if q > q2 {
      MulAtLeast(q - q2, k);
    } else if q < q2 {
      MulAtLeast(q2 - q, k);
    }
  }

  lemma MulAtLeast(a: int, k: int)
    requires a >= 1 && k > 0
    ensures a * k >= k
  {
  }

  /** A short's two bytes, high first: `(byte)(num >> 8)`, `(byte) num`. */
  function ShortBytes(num: int): (r: seq<Byte>)
    ensures |r| == 2
  {
    [LowByte(num / 256), LowByte(num)]
  }

  /** `getShort`: two bytes, high first, read as a signed short. */
  function ReadShort(s: seq<Byte>): (r: Result<(int, seq<Byte>)>)
    ensures r.Err? <==> |s| < 2
    ensures r.Err? ==> r.error == BufferUnderflow
    ensures r.Ok? ==> -0x8000 <= r.value.0 < 0x8000 && r.value.1 == s[2..]
  {
    if |s| < 2 then Err(BufferUnderflow)
    else Ok((Wrap16(s[0] as int * 256 + s[1] as int), s[2..]))
  }

  lemma ShortRoundTrip(num: int, rest: seq<Byte>)
    requires -0x8000 <= num < 0x8000
    ensures ReadShort(ShortBytes(num) + rest) == Ok((num, rest))
  {
    var s := ShortBytes(num) + rest;
    assert s[2..] == rest;
    var u := s[0] as int * 256 + s[1] as int;
    assert u == (num / 256) % 256 * 256 + num % 256;
    assert (u - num) % 0x1_0000 == 0;
  }

  /** `get()`: one byte. */
  function ReadByte(s: seq<Byte>): (r: Result<(Byte, seq<Byte>)>)
    ensures r.Err? <==> s == []
    ensures r.Err? ==> r.error == BufferUnderflow
    ensures r.Ok? ==> [r.value.0] + r.value.1 == s
  {
    if s == [] then Err(BufferUnderflow) else Ok((s[0], s[1..]))
  }

  /** The 32 bits of a Java int, least significant first. */
  type Flags = f: seq<bool> | |f| == 32 witness Clear(32)

  /** `n` clear bits. */
  function Clear(n: nat): (r: seq<bool>)
    ensures |r| == n && forall k :: 0 <= k < n ==> !r[k]
  {
    if n == 0 then [] else [false] + Clear(n - 1)
  }

  const NO_FLAGS: Flags := Clear(32)

  /** Whether flag `k` is set: `(flags & (1 << k)) != 0`. */
  predicate Bit(flags: Flags, k: nat)
    requires k < 32
  {
    flags[k]
  }

  /** `flags | (1 << k)`. */
  function Set(flags: Flags, k: nat): (r: Flags)
    requires k < 32
    ensures forall j :: 0 <= j < 32 ==> (Bit(r, j) <==> Bit(flags, j) || j == k)
  {
    flags[k := true]
  }

  /** The unsigned value of the low `n` bits of a bit list. */
  function Value(bits: seq<bool>): (v: nat)
    ensures v < Pow2(|bits|)
  {
    if bits == [] then 0 else (if bits[0] then 1 else 0) + 2 * Value(bits[1..])
  }

  function Pow2(n: nat): (p: nat)
    ensures p >= 1
  {
    if n == 0 then 1 else 2 * Pow2(n - 1)
  }

  /** The low `n` bits of `v`, least significant first. */
  function ToBits(v: nat, n: nat): (bits: seq<bool>)
    ensures |bits| == n
  {
    if n == 0 then [] else [v % 2 == 1] + ToBits(v / 2, n - 1)
  }

  lemma {:induction false} BitsRoundTrip(bits: seq<bool>)
    ensures ToBits(Value(bits), |bits|) == bits
  {
    if bits != [] {
      BitsRoundTrip(bits[1..]);
    }
  }

  lemma Pow2ThirtyTwo()
    ensures Pow2(32) == 0x1_0000_0000
  {
    assert Pow2(1) == 2;
    Pow2Add(1, 1);
    Pow2Add(2, 2);
    Pow2Add(4, 4);
    Pow2Add(8, 8);
    Pow2Add(16, 16);
  }

  lemma {:induction false} Pow2Add(a: nat, b: nat)
    ensures Pow2(a + b) == Pow2(a) * Pow2(b)
  {
    if a > 0 { Pow2Add(a - 1, b); }
  }

  /** The Java int a flag word is written as. */
  function FlagsValue(flags: Flags): (v: Bits32) {
    Pow2ThirtyTwo();
    Value(flags)
  }

  /** The flag word read back from its int. */
  function FlagsOf(v: Bits32): Flags {
    ToBits(v, 32)
  }

  lemma FlagsRoundTrip(flags: Flags)
    ensures FlagsOf(FlagsValue(flags)) == flags
  {
    BitsRoundTrip(flags);
  }

  /** `BBModelSerializer.putFloatOrShort`. */
  function PutNumber(fc: FloatCodec, flags: Flags, k: nat, x: real): (r: seq<Byte>)
    requires k < 32
    ensures |r| == if Bit(flags, k) then 4 else 2
  {
    if !Bit(flags, k) then ShortBytes(ToShort(x)) else IntBytes(fc.toBits(x))
  }

  /** `VertexDataDeserializer.readFloatOrShort`. */
  function ReadNumber(fc: FloatCodec, flags: Flags, k: nat, s: seq<Byte>): (r: Result<(real, seq<Byte>)>)
    requires k < 32
    ensures r.Err? <==> |s| < (if Bit(flags, k) then 4 else 2)
    ensures r.Err? ==> r.error == BufferUnderflow
  {
    if !Bit(flags, k) then
      match ReadShort(s)
      case Err(e) => Err(e)
      case Ok((n, rest)) => Ok((n as real, rest))
    else
      match ReadInt(s)
      case Err(e) => Err(e)
      case Ok((bits, rest)) => Ok((fc.fromBits(bits), rest))
  }

  /** The value a number slot carries through the format under `flags`. */
  function Stored(fc: FloatCodec, flags: Flags, k: nat, x: real): real
    requires k < 32
  {
    if Bit(flags, k) then AsFloat(fc, x) else ToShort(x) as real
  }

  /** Reading a number back under the same flag yields its stored value and the rest. */
  lemma NumberRoundTrip(fc: FloatCodec, flags: Flags, k: nat, x: real, rest: seq<Byte>)
    requires k < 32
    ensures ReadNumber(fc, flags, k, PutNumber(fc, flags, k, x) + rest) == Ok((Stored(fc, flags, k, x), rest))
  {
    if Bit(flags, k) {
      IntRoundTrip(fc.toBits(x), rest);
    } else {
      ShortRoundTrip(ToShort(x), rest);
    }
  }

  /** Consecutive slots `base..base+|xs|-1`. */
  function PutNumbers(fc: FloatCodec, flags: Flags, base: nat, xs: seq<real>): (r: seq<Byte>)
    requires base + |xs| <= 32
    decreases |xs|
  {
    if xs == [] then [] else PutNumber(fc, flags, base, xs[0]) + PutNumbers(fc, flags, base + 1, xs[1..])
  }

  function ReadNumbers(fc: FloatCodec, flags: Flags, base: nat, n: nat, s: seq<Byte>): (r: Result<(seq<real>, seq<Byte>)>)
    requires base + n <= 32
    ensures r.Ok? ==> |r.value.0| == n
    ensures r.Err? ==> r.error == BufferUnderflow
    decreases n
  {
    if n == 0 then Ok(([], s))
    else
      match ReadNumber(fc, flags, base, s)
      case Err(e) => Err(e)
      case Ok((x, s1)) =>
        match ReadNumbers(fc, flags, base + 1, n - 1, s1)
        case Err(e) => Err(e)
        case Ok((xs, s2)) => Ok(([x] + xs, s2))
  }

  function StoredAll(fc: FloatCodec, flags: Flags, base: nat, xs: seq<real>): (r: seq<real>)
    requires base + |xs| <= 32
    ensures |r| == |xs|
    ensures forall j :: 0 <= j < |xs| ==> r[j] == Stored(fc, flags, base + j, xs[j])
    decreases |xs|
  {
    if xs == [] then [] else [Stored(fc, flags, base, xs[0])] + StoredAll(fc, flags, base + 1, xs[1..])
  }

  lemma {:induction false} NumbersRoundTrip(fc: FloatCodec, flags: Flags, base: nat, xs: seq<real>, rest: seq<Byte>)
    requires base + |xs| <= 32
    ensures ReadNumbers(fc, flags, base, |xs|, PutNumbers(fc, flags, base, xs) + rest)
      == Ok((StoredAll(fc, flags, base, xs), rest))
    decreases |xs|
  {
    if xs == [] {
      assert PutNumbers(fc, flags, base, xs) + rest == rest;
    } else {
      var tail := PutNumbers(fc, flags, base + 1, xs[1..]) + rest;
      var s := PutNumbers(fc, flags, base, xs) + rest;
      assert s == PutNumber(fc, flags, base, xs[0]) + tail;
      NumberRoundTrip(fc, flags, base, xs[0], tail);
      assert ReadNumber(fc, flags, base, s) == Ok((Stored(fc, flags, base, xs[0]), tail));
      NumbersRoundTrip(fc, flags, base + 1, xs[1..], rest);
      assert ReadNumbers(fc, flags, base + 1, |xs| - 1, tail) == Ok((StoredAll(fc, flags, base + 1, xs[1..]), rest));
    }
  }

  /**
   * The flags of a run of numbers: slot `base + j` is marked when `xs[j]` is
   * not whole, one `flags |= 1 << k` per number.
   */
  function MarkNonIntegral(flags: Flags, base: nat, xs: seq<real>): (r: Flags)
    requires base + |xs| <= 32
    decreases |xs|
  {
    if xs == [] then flags
    else
      var f := if !Integral(xs[0]) then Set(flags, base) else flags;
      MarkNonIntegral(f, base + 1, xs[1..])
  }

  lemma {:induction false} MarkNonIntegralBits(flags: Flags, base: nat, xs: seq<real>, k: nat)
    requires base + |xs| <= 32 && k < 32
    ensures Bit(MarkNonIntegral(flags, base, xs), k)
      <==> Bit(flags, k) || (base <= k < base + |xs| && !Integral(xs[k - base]))
    decreases |xs|
  {
    if xs != [] {
      var f := if !Integral(xs[0]) then Set(flags, base) else flags;
      MarkNonIntegralBits(f, base + 1, xs[1..], k);
      if base + 1 <= k < base + |xs| { assert xs[1..][k - (base + 1)] == xs[k - base]; }
    }
  }

  /** Under flags that mark exactly the non-whole numbers, a slot keeps whole shorts exactly. */
  lemma StoredWhole(fc: FloatCodec, flags: Flags, k: nat, x: real)
    requires k < 32 && (Bit(flags, k) <==> !Integral(x))
    ensures Integral(x) && -32768.0 <= x <= 32767.0 ==> Stored(fc, flags, k, x) == x
    ensures !Integral(x) ==> Stored(fc, flags, k, x) == AsFloat(fc, x)
  {
    if Integral(x) && -32768.0 <= x <= 32767.0 { ShortExact(x); }
  }
}
