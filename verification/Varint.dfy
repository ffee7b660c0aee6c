/** Kafka's zig-zag variable-length integers: `read_varint` and `read_varlong`. */
module Varint {
  import opened Arith
  import opened Bytes
  import opened Wrappers

  function Pow2(n: nat): (p: nat)
    ensures p > 0
  {
    if n == 0 then 1 else 2 * Pow2(n - 1)
  }

  /** Bitwise OR of two unsigned numbers. */
  function BitOr(a: nat, b: nat): nat
    decreases a + b
  {
    if a == 0 && b == 0 then 0
    else 2 * BitOr(a / 2, b / 2) + (if a % 2 == 1 || b % 2 == 1 then 1 else 0)
  }

  /** The accumulator of a `width`-bit register after one byte: bits shifted past the register's end are lost. */
  function Shifted(acc: nat, b: byte, shift: nat, width: nat): nat {
    BitOr(acc, (b % 128) * Pow2(shift) % Pow2(width))
  }

  /** Value and byte count read from `buf` on, or `Err` when truncated or longer than `limit` allows. */
  function ReadRaw(buf: seq<byte>, shift: nat, acc: nat, width: nat, limit: nat): (r: Result<(nat, nat)>)
    ensures r.Ok? ==> 1 <= r.value.1 <= |buf|
    decreases |buf|
  {
    if buf == [] then Err
    else
      var acc' := Shifted(acc, buf[0], shift, width);
      if buf[0] < 128 then Ok((acc', 1))
      else if shift + 7 > limit then Err
      else match ReadRaw(buf[1..], shift + 7, acc', width, limit)
        case Err => Err
        case Ok((v, n)) => Ok((v, n + 1))
  }

  /** `(r >> 1) ^ -(r & 1)` on a signed register: the right shift copies the sign. */
  function UnZigZag(r: int): int {
    if r % 2 == 0 then r / 2 else -(r / 2) - 1
  }

  function Decode(buf: seq<byte>, width: nat, limit: nat): (r: Result<(int, nat)>)
    ensures r.Ok? ==> 1 <= r.value.1 <= |buf|
  {
    match ReadRaw(buf, 0, 0, width, limit)
    case Err => Err
    case Ok((u, n)) => Ok((UnZigZag(AsSigned(u, Pow2(width))), n))
  }

  function DecodeVarint(buf: seq<byte>): (r: Result<(int, nat)>)
    ensures r.Ok? ==> 1 <= r.value.1 <= |buf|
  {
    Decode(buf, 32, 32)
  }

  function DecodeVarlong(buf: seq<byte>): (r: Result<(int, nat)>)
    ensures r.Ok? ==> 1 <= r.value.1 <= |buf|
  {
    Decode(buf, 64, 63)
  }

  method ReadVarint(buf: seq<byte>) returns (r: Result<(int, nat)>)
    ensures r == DecodeVarint(buf)
  {
    r := ReadLoop(buf, 32, 32);
  }

  method ReadVarlong(buf: seq<byte>) returns (r: Result<(int, nat)>)
    ensures r == DecodeVarlong(buf)
  {
    r := ReadLoop(buf, 64, 63);
  }

  method ReadLoop(buf: seq<byte>, width: nat, limit: nat) returns (r: Result<(int, nat)>)
    ensures r == Decode(buf, width, limit)
  {
    hide Shifted, UnZigZag;
    var result, shift, i := 0, 0, 0;
    assert buf[0..] == buf;
    while true
      invariant 0 <= i <= |buf|
      invariant ReadRaw(buf, 0, 0, width, limit) == match ReadRaw(buf[i..], shift, result, width, limit) {
        case Err => Err
        case Ok((v, n)) => Ok((v, n + i))
      }
      decreases |buf| - i
    {
      if i >= |buf| { return Err; }
      var byte_ := buf[i];
      assert buf[i..][1..] == buf[i + 1..];
      i := i + 1;
      result := Shifted(result, byte_, shift, width);
      if byte_ < 128 { break; }
      shift := shift + 7;
      if shift > limit { return Err; }
    }
    return Ok((UnZigZag(AsSigned(result, Pow2(width))), i));
  }

  // ----- the encoding being read -----

  function ZigZag(v: int): nat {
    if v >= 0 then 2 * v else -2 * v - 1
  }

  function Leb(u: nat): (s: seq<byte>)
    ensures s != []
  {
    if u < 128 then [u] else [128 + u % 128] + Leb(u / 128)
  }

  function Encode(v: int): seq<byte> {
    Leb(ZigZag(v))
  }

  lemma {:induction false} Pow2Adds(a: nat, b: nat)
    ensures Pow2(a + b) == Pow2(a) * Pow2(b)
  {
    if a > 0 { Pow2Adds(a - 1, b); }
  }

  lemma {:induction false} Pow2Grows(a: nat, b: nat)
    requires a <= b
    ensures Pow2(a) <= Pow2(b)
  {
    if a < b { Pow2Grows(a, b - 1); }
  }

  lemma SmallPowers()
    ensures Pow2(7) == 128 && Pow2(8) == 256
  {
    assert Pow2(3) == 8;
    assert Pow2(5) == 32;
  }

  lemma Pow2Values()
    ensures Pow2(7) == 128 && Pow2(32) == TWO32 && Pow2(64) == TWO64
  {
    hide Pow2;
    SmallPowers();
    Pow2Adds(8, 8);
    Pow2Adds(16, 16);
    Pow2Adds(32, 32);
  }

  lemma Split(u: nat, p: nat)
    requires u >= 128 && p > 0
    ensures u * p == (u % 128) * p + (u / 128) * (128 * p)
    ensures (u % 128) * p >= 0 && (u / 128) * (128 * p) >= 128 * p
  {
    var low, high := u % 128, u / 128;
    assert u == 128 * high + low;
    Distribute(high, low, p);
    Positive(high, 128 * p);
  }

  lemma Distribute(high: nat, low: nat, p: nat)
    ensures (128 * high + low) * p == high * (128 * p) + low * p
  {
  }

  lemma Positive(high: nat, p: nat)
    requires high >= 1
    ensures high * p >= p
  {
  }

  lemma {:induction false} OrZero(b: nat)
    ensures BitOr(0, b) == b
  {
    if b > 0 { OrZero(b / 2); }
  }

  /** Bits that lie above those already there are added by OR. */
  lemma {:induction false} OrAbove(a: nat, c: nat, k: nat)
    requires a < Pow2(k)
    ensures BitOr(a, c * Pow2(k)) == a + c * Pow2(k)
  {
    var x := c * Pow2(k);
    if k == 0 {
      OrZero(x);
    } else {
      var y := c * Pow2(k - 1);
      assert x == 2 * y by { Double(c, Pow2(k - 1)); }
      OrAbove(a / 2, c, k - 1);
    }
  }

  lemma Double(c: nat, p: nat)
    ensures c * (2 * p) == 2 * (c * p)
  {
  }

  lemma ShiftedFits(acc: nat, b: byte, shift: nat, width: nat)
    requires acc < Pow2(shift) && acc + (b % 128) * Pow2(shift) < Pow2(width)
    ensures Shifted(acc, b, shift, width) == acc + (b % 128) * Pow2(shift)
  {
    hide Pow2, BitOr;
    Small((b % 128) * Pow2(shift), Pow2(width));
    OrAbove(acc, b % 128, shift);
  }

  /** Seven more bits are in use after a byte. */
  lemma Below(acc: nat, low: nat, p: nat)
    requires acc < p && low < 128
    ensures acc + low * p < 128 * p
  {
    MulMono(p, low, 127);
  }

  lemma Small(x: nat, m: nat)
    requires x < m
    ensures x % m == x
  {
  }

  /** A value that fits the register is read whole, and exactly its bytes are consumed. */
  lemma {:induction false} RawRoundTrip(u: nat, rest: seq<byte>, shift: nat, acc: nat, width: nat, limit: nat)
    requires acc < Pow2(shift) && acc + u * Pow2(shift) < Pow2(width) && limit + 1 >= width
    ensures ReadRaw(Leb(u) + rest, shift, acc, width, limit) == Ok((acc + u * Pow2(shift), |Leb(u)|))
    decreases u
  {
    hide Pow2, Shifted;
    var p, s := Pow2(shift), Leb(u) + rest;
    if u < 128 {
      assert s[0] == u && u % 128 == u;
      ShiftedFits(acc, u, shift, width);
    } else {
      var low, high := u % 128, u / 128;
      assert s[0] == 128 + low && s[0] % 128 == low && s[1..] == Leb(high) + rest;
      Split(u, p);
      Pow2Adds(shift, 7);
      SmallPowers();
      assert shift + 7 < width by {
        if width <= shift + 7 { Pow2Grows(width, shift + 7); }
      }
      ShiftedFits(acc, s[0], shift, width);
      Below(acc, low, p);
      RawRoundTrip(high, rest, shift + 7, acc + low * p, width, limit);
    }
  }

  /** Reading back an encoded integer of the register's range never fails and consumes exactly its bytes. */
  lemma ReadBack(v: int, rest: seq<byte>, width: nat, limit: nat)
    requires 0 < width <= limit + 1
    requires 0 <= 2 * v + Pow2(width) && 2 * v < Pow2(width)
    ensures Decode(Encode(v) + rest, width, limit) ==
            Ok((UnZigZag(AsSigned(ZigZag(v), Pow2(width))), |Encode(v)|))
  {
    hide Leb, UnZigZag;
    assert ZigZag(v) * Pow2(0) == ZigZag(v);
    EvenPower(width);
    RawRoundTrip(ZigZag(v), rest, 0, 0, width, limit);
  }

  lemma EvenPower(width: nat)
    requires 0 < width
    ensures Pow2(width) == 2 * Pow2(width - 1)
  {
  }

  /** Undoing the zig-zag in a signed register of modulus `4 * q`: right on the inner half, off by `2 * q` outside. */
  lemma ZigZagInRegister(v: int, q: int)
    requires -2 * q <= v < 2 * q
    ensures UnZigZag(AsSigned(ZigZag(v), 4 * q)) == if -q <= v < q then v else if v >= 0 then v - 2 * q else v + 2 * q
  {
    var u := ZigZag(v);
    if -q <= v < q {
      assert AsSigned(u, 4 * q) == u;
    } else {
      assert AsSigned(u, 4 * q) == u - 4 * q;
      assert u % 2 == (u - 4 * q) % 2;
      DivUnique(u - 4 * q, 2, u / 2 - 2 * q, u % 2);
    }
  }

  /** The 32-bit reader returns what was encoded exactly on [-2^30, 2^30); beyond, it is off by 2^31. */
  lemma VarintRoundTrip(v: int, rest: seq<byte>)
    requires -TWO31 <= v < TWO31
    ensures DecodeVarint(Encode(v) + rest) == Ok((
      if -0x4000_0000 <= v < 0x4000_0000 then v else if v >= 0 then v - TWO31 else v + TWO31, |Encode(v)|))
  {
    hide Leb, Encode, Decode, Pow2, ZigZag, UnZigZag, AsSigned;
    Pow2Values();
    ReadBack(v, rest, 32, 32);
    ZigZagInRegister(v, 0x4000_0000);
  }

  /** The 64-bit reader returns what was encoded exactly on [-2^62, 2^62); beyond, it is off by 2^63. */
  lemma VarlongRoundTrip(v: int, rest: seq<byte>)
    requires -TWO63 <= v < TWO63
    ensures DecodeVarlong(Encode(v) + rest) == Ok((
      if -0x4000_0000_0000_0000 <= v < 0x4000_0000_0000_0000 then v else if v >= 0 then v - TWO63 else v + TWO63,
      |Encode(v)|))
  {
    hide Leb, Encode, Decode, Pow2, ZigZag, UnZigZag, AsSigned;
    Pow2Values();
    ReadBack(v, rest, 64, 63);
    ZigZagInRegister(v, 0x4000_0000_0000_0000);
  }

  // ----- how many bytes a varint may have -----

  /** The first byte below 128 is number `i`. */
  predicate EndsAt(buf: seq<byte>, i: nat) {
    i < |buf| && buf[i] < 128 && forall j :: 0 <= j < i ==> buf[j] >= 128
  }

  lemma {:induction false} RawEnds(buf: seq<byte>, shift: nat, acc: nat, width: nat, limit: nat, i: nat)
    requires i <= |buf| && forall j :: 0 <= j < i ==> buf[j] >= 128
    requires i < |buf| ==> buf[i] < 128
    ensures var r := ReadRaw(buf, shift, acc, width, limit);
      && (r.Ok? <==> i < |buf| && (i > 0 ==> shift + 7 * i <= limit))
      && (r.Ok? ==> r.value.1 == i + 1)
    decreases |buf|
  {
    hide Shifted;
    if i > 0 {
      RawEnds(buf[1..], shift + 7, Shifted(acc, buf[0], shift, width), width, limit, i - 1);
    }
  }

  /** Reading succeeds if and only if one of the first five (ten) bytes ends the number, and consumes through it. */
  lemma VarintLength(buf: seq<byte>, i: nat)
    requires i <= |buf| && (forall j :: 0 <= j < i ==> buf[j] >= 128) && (i < |buf| ==> buf[i] < 128)
    ensures DecodeVarint(buf).Ok? <==> i < |buf| && i < 5
    ensures DecodeVarint(buf).Ok? ==> DecodeVarint(buf).value.1 == i + 1
    ensures DecodeVarlong(buf).Ok? <==> i < |buf| && i < 10
    ensures DecodeVarlong(buf).Ok? ==> DecodeVarlong(buf).value.1 == i + 1
  {
    hide ReadRaw, UnZigZag, Pow2;
    RawEnds(buf, 0, 0, 32, 32, i);
    RawEnds(buf, 0, 0, 64, 63, i);
  }
}
