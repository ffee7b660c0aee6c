/**
 Text of scaled numbers: `scaled_i64_to_text`, `decimal_mantissa_to_text` and `decode_time_bytes`,
 against readers that do not know how the text was made.
 */
module Decimal {
  import opened Arith
  import opened Bytes
  import opened Wrappers

  function Pow10(n: nat): (p: nat)
    ensures p > 0
  {
    if n == 0 then 1 else 10 * Pow10(n - 1)
  }

  function Digit(d: int): char
    requires 0 <= d < 10
  {
    ('0' as int + d) as char
  }

  /** Decimal digits without leading zeros. */
  function NatText(n: nat): (s: string)
    ensures s != ""
  {
    if n < 10 then [Digit(n)] else NatText(n / 10) + [Digit(n % 10)]
  }

  /** The low `width` digits, zero-padded. */
  function Padded(n: nat, width: nat): (s: string)
    ensures |s| == width
  {
    if width == 0 then "" else Padded(n / 10, width - 1) + [Digit(n % 10)]
  }

  function Zeros(n: nat): (s: string)
    ensures |s| == n
  {
    seq(n, i => '0')
  }

  // ----- the code -----

  /** Puts the point `scale` digits from the right. */
  function PlacePoint(s: string, scale: nat): string {
    if scale == 0 then s
    else if |s| <= scale then "0" + "." + (Zeros(scale - |s|) + s)
    else s[..|s| - scale] + "." + s[|s| - scale..]
  }

  function Abs(v: int): nat {
    if v < 0 then -v else v
  }

  function ScaledText(value: int, scale: nat): string {
    (if value < 0 then "-" else "") + PlacePoint(NatText(Abs(value)), scale)
  }

  /** The sign byte is dropped for a zero mantissa. */
  function MantissaText(raw: seq<byte>, scale: nat, negative: bool): Result<string> {
    if |raw| > 16 then Err
    else
      var mantissa := FromLE(raw);
      Ok((if negative && mantissa != 0 then "-" else "") + PlacePoint(NatText(mantissa), scale))
  }

  datatype Time = Time(hour: nat, minute: nat, second: nat, fraction: string)

  /** The product is taken in a 64-bit register. */
  function DecodeTime(raw: seq<byte>, scale: nat): Result<Time> {
    if |raw| > 8 then Err
    else
      var sc := if scale < 7 then scale else 7;
      var hundredNs := (FromLE(raw) * Pow10(7 - sc)) % TWO64;
      var total := hundredNs / 10_000_000;
      var fraction := if sc == 0 then "" else "." + Padded(hundredNs % 10_000_000, 7)[..sc];
      Ok(Time(total / 3600, total / 60 % 60, total % 60, fraction))
  }

  // ----- independent readers -----

  predicate IsDigit(c: char) {
    '0' <= c <= '9'
  }

  predicate AllDigits(s: string) {
    forall i :: 0 <= i < |s| ==> IsDigit(s[i])
  }

  function DigitsValue(s: string): nat
    requires AllDigits(s)
  {
    if s == "" then 0 else 10 * DigitsValue(s[..|s| - 1]) + (s[|s| - 1] as int - '0' as int)
  }

  function PointAt(s: string): (n: nat)
    ensures n <= |s|
  {
    if s == "" || s[0] == '.' then 0 else 1 + PointAt(s[1..])
  }

  /** Decimal text as an integer mantissa and the number of digits after the point. */
  function ReadUnsigned(s: string): Option<(nat, nat)> {
    var n := PointAt(s);
    var fraction := if n < |s| then s[n + 1..] else "";
    if n == 0 || !AllDigits(s[..n] + fraction) then None
    else Some((DigitsValue(s[..n] + fraction), |fraction|))
  }

  function ReadDecimal(s: string): Option<(int, nat)> {
    if s != "" && s[0] == '-' then
      match ReadUnsigned(s[1..]) case None => None case Some((m, scale)) => Some((-(m as int), scale))
    else
      match ReadUnsigned(s) case None => None case Some((m, scale)) => Some((m, scale))
  }

  /** A time of day in units of 10^-scale seconds. */
  function ReadTime(t: Time, scale: nat): Option<nat> {
    var digits := if scale == 0 then t.fraction else if t.fraction == "" then "" else t.fraction[1..];
    if |digits| != scale || (scale > 0 && t.fraction[0] != '.') || !AllDigits(digits) then None
    else Some(((t.hour * 60 + t.minute) * 60 + t.second) * Pow10(scale) + DigitsValue(digits))
  }

  // ----- digits -----

  lemma {:induction false} NatTextValue(n: nat)
    ensures AllDigits(NatText(n)) && DigitsValue(NatText(n)) == n
  {
    if n >= 10 {
      NatTextValue(n / 10);
      assert NatText(n)[..|NatText(n)| - 1] == NatText(n / 10);
    } else {
      assert NatText(n)[..0] == "";
    }
  }

  lemma {:induction false} PaddedValue(n: nat, width: nat)
    requires n < Pow10(width)
    ensures AllDigits(Padded(n, width)) && DigitsValue(Padded(n, width)) == n
  {
    if width > 0 {
      PaddedValue(n / 10, width - 1);
      assert Padded(n, width)[..width - 1] == Padded(n / 10, width - 1);
    }
  }

  /** Dropping the last `k` of the padded digits divides by 10^k. */
  lemma {:induction false} PaddedPrefix(n: nat, width: nat, k: nat)
    requires k <= width
    ensures Padded(n, width)[..width - k] == Padded(n / Pow10(k), width - k)
  {
    if k > 0 {
      PaddedPrefix(n / 10, width - 1, k - 1);
      assert Padded(n, width)[..width - k] == Padded(n / 10, width - 1)[..width - k];
      DivTwice(n, Pow10(k - 1));
    } else {
      assert Padded(n, width)[..width] == Padded(n, width);
    }
  }

  lemma DivTwice(n: nat, p: nat)
    requires p > 0
    ensures n / 10 / p == n / (10 * p)
  {
    var a := n / 10;
    var q, r := a / p, a % p;
    assert n == 10 * p * q + (10 * r + n % 10) by { assert a == p * q + r; assert 10 * (p * q) == 10 * p * q; }
    DivUnique(n, 10 * p, q, 10 * r + n % 10);
  }

  lemma {:induction false} LeadingZeros(k: nat, s: string)
    requires AllDigits(s)
    ensures AllDigits(Zeros(k) + s) && DigitsValue(Zeros(k) + s) == DigitsValue(s)
    decreases |s| + k
  {
    var t := Zeros(k) + s;
    if s != "" {
      LeadingZeros(k, s[..|s| - 1]);
      assert t[..|t| - 1] == Zeros(k) + s[..|s| - 1];
    } else if k > 0 {
      LeadingZeros(k - 1, s);
      assert t[..|t| - 1] == Zeros(k - 1) + s;
    }
  }

  // ----- scaled numbers -----

  lemma {:induction false} PointFound(a: string, b: string)
    requires AllDigits(a)
    ensures PointAt(a) == |a| && PointAt(a + "." + b) == |a|
  {
    var s := a + "." + b;
    if a != "" {
      PointFound(a[1..], b);
      assert s[1..] == a[1..] + "." + b;
    }
  }

  lemma ReadPlaced(a: string, b: string)
    requires a != "" && AllDigits(a) && AllDigits(b)
    ensures ReadUnsigned(a + "." + b) == Some((DigitsValue(a + b), |b|))
  {
    PointFound(a, b);
    var s := a + "." + b;
    assert s[..|a|] == a && s[|a| + 1..] == b;
  }

  lemma PlaceSmall(s: string, scale: nat)
    requires s != "" && AllDigits(s) && 0 < |s| <= scale
    ensures ReadUnsigned(PlacePoint(s, scale)) == Some((DigitsValue(s), scale)) && PlacePoint(s, scale)[0] == '0'
  {
    hide ReadUnsigned, DigitsValue, Zeros, AllDigits;
    var b := Zeros(scale - |s|) + s;
    LeadingZeros(scale - |s|, s);
    LeadingZeros(1, b);
    OneZero();
    ReadPlaced("0", b);
  }

  lemma OneZero()
    ensures Zeros(1) == "0" && AllDigits("0")
  {
  }

  lemma PlaceLarge(s: string, scale: nat)
    requires AllDigits(s) && 0 < scale < |s|
    ensures ReadUnsigned(PlacePoint(s, scale)) == Some((DigitsValue(s), scale)) && PlacePoint(s, scale)[0] == s[0]
  {
    hide ReadUnsigned, DigitsValue;
    var k := |s| - scale;
    ReadPlaced(s[..k], s[k..]);
    assert s[..k] + s[k..] == s;
  }

  lemma PlaceNone(s: string)
    requires s != "" && AllDigits(s)
    ensures ReadUnsigned(s) == Some((DigitsValue(s), 0))
  {
    hide DigitsValue, PointAt;
    PointFound(s, "");
    assert s[..|s|] == s && s + "" == s;
  }

  /** The text has exactly `scale` digits after the point and reads back to the number. */
  lemma PlaceRoundTrip(n: nat, scale: nat)
    ensures PlacePoint(NatText(n), scale) != ""
    ensures ReadUnsigned(PlacePoint(NatText(n), scale)) == Some((n, scale))
    ensures PlacePoint(NatText(n), scale)[0] != '-'
  {
    hide NatText, ReadUnsigned, DigitsValue, Zeros;
    var s := NatText(n);
    NatTextValue(n);
    if scale == 0 {
      PlaceNone(s);
    } else if |s| <= scale {
      PlaceSmall(s, scale);
    } else {
      PlaceLarge(s, scale);
    }
  }

  /** Money-style text is lossless, for every signed value and scale. */
  lemma ScaledRoundTrip(value: int, scale: nat)
    ensures ReadDecimal(ScaledText(value, scale)) == Some((value, scale))
  {
    PlaceRoundTrip(Abs(value), scale);
    hide PlacePoint, ReadUnsigned, NatText;
    var body := PlacePoint(NatText(Abs(value)), scale);
    assert "" + body == body && ("-" + body)[1..] == body;
  }

  /** Decimal text is lossless for mantissas of up to 16 bytes, and wider ones are refused. */
  lemma MantissaRoundTrip(raw: seq<byte>, scale: nat, negative: bool)
    ensures MantissaText(raw, scale, negative).Err? <==> |raw| > 16
    ensures |raw| <= 16 ==>
      ReadDecimal(MantissaText(raw, scale, negative).value) ==
        Some(((if negative then -1 else 1) * FromLE(raw), scale))
  {
    PlaceRoundTrip(FromLE(raw), scale);
    hide PlacePoint, ReadUnsigned, NatText, FromLE;
    var body := PlacePoint(NatText(FromLE(raw)), scale);
    assert "" + body == body && ("-" + body)[1..] == body;
  }

  // ----- times -----

  lemma {:induction false} Pow10Adds(a: nat, b: nat)
    ensures Pow10(a + b) == Pow10(a) * Pow10(b)
  {
    if a > 0 { Pow10Adds(a - 1, b); }
  }

  lemma Seven()
    ensures Pow10(7) == 10_000_000
  {
    assert Pow10(3) == 1000;
    assert Pow10(5) == 100_000;
  }

  /** Splitting a multiple of `p` at `p * q` and rescaling the remainder loses nothing. */
  lemma Rescale(value: nat, p: nat, q: nat)
    requires p > 0 && q > 0
    ensures var h := value * p; h / (p * q) * q + h % (p * q) / p == value && h % (p * q) / p < q
  {
    var t, r := value / q, value % q;
    assert value == q * t + r;
    assert value * p == (p * q) * t + r * p by { Expand(q, t, r, p); }
    assert r * p < p * q by { LessScaled(r, q, p); }
    DivUnique(value * p, p * q, t, r * p);
    assert p * r == r * p;
    DivUnique(r * p, p, r, 0);
  }

  lemma Expand(q: nat, t: nat, r: nat, p: nat)
    ensures (q * t + r) * p == (p * q) * t + r * p
  {
    assert (q * t + r) * p == (q * t) * p + r * p;
    assert (q * t) * p == (p * q) * t;
  }

  lemma LessScaled(r: nat, q: nat, p: nat)
    requires r < q && p > 0
    ensures r * p < p * q && p * q > 0
  {
    MulMono(p, r, q);
    MulMono(p, 0, q);
    assert p * r == r * p;
  }

  function Units(hundredNs: nat, sc: nat): Time
    requires sc <= 7
  {
    var total := hundredNs / 10_000_000;
    Time(total / 3600, total / 60 % 60, total % 60,
         if sc == 0 then "" else "." + Padded(hundredNs % 10_000_000, 7)[..sc])
  }

  /** Reading the rendered time gives the whole units and the truncated fraction. */
  lemma UnitsRead(h: nat, sc: nat)
    requires sc <= 7
    ensures ReadTime(Units(h, sc), sc) ==
            Some(h / 10_000_000 * Pow10(sc) + h % 10_000_000 / Pow10(7 - sc))
  {
    hide Padded, Pow10, DigitsValue, AllDigits;
    var x := h % 10_000_000;
    PaddedPrefix(x, 7, 7 - sc);
    FractionFits(x, sc);
    PaddedValue(x / Pow10(7 - sc), sc);
    Clock(h / 10_000_000);
    var digits := Padded(x / Pow10(7 - sc), sc);
    assert sc > 0 ==> ("." + digits)[1..] == digits;
    assert sc == 0 ==> digits == "";
  }

  lemma FractionFits(x: nat, sc: nat)
    requires sc <= 7 && x < 10_000_000
    ensures x / Pow10(7 - sc) < Pow10(sc)
  {
    hide Pow10;
    Seven();
    Pow10Adds(7 - sc, sc);
    DivBelow(x, Pow10(7 - sc), Pow10(sc));
  }

  lemma Clock(total: nat)
    ensures (total / 3600 * 60 + total / 60 % 60) * 60 + total % 60 == total
  {
  }

  /**
   A time reads back to its value if and only if the 64-bit product did not overflow, which it
   never does for the at most five bytes that the protocol sends.
   */
  lemma TimeRoundTrip(raw: seq<byte>, scale: nat)
    requires |raw| <= 8
    ensures var sc := if scale < 7 then scale else 7;
      DecodeTime(raw, scale).Ok?
      && (ReadTime(DecodeTime(raw, scale).value, sc) == Some(FromLE(raw)) <==> FromLE(raw) * Pow10(7 - sc) < TWO64)
    ensures var sc := if scale < 7 then scale else 7; |raw| <= 5 ==> FromLE(raw) * Pow10(7 - sc) < TWO64
  {
    hide Units, ReadTime, FromLE, Pow10, DecodeTime;
    var sc := if scale < 7 then scale else 7;
    var p, q, v := Pow10(7 - sc), Pow10(sc), FromLE(raw);
    DecodedUnits(raw, scale);
    UnitsRead((v * p) % TWO64, sc);
    Seven();
    Pow10Adds(7 - sc, sc);
    ExactUnlessWrapped(v, p, q);
    if |raw| <= 5 { ShortTimes(raw, sc); }
  }

  lemma ExactUnlessWrapped(v: nat, p: nat, q: nat)
    requires p > 0 && q > 0 && p * q == 10_000_000
    ensures var h := (v * p) % TWO64; h / 10_000_000 * q + h % 10_000_000 / p == v <==> v * p < TWO64
  {
    var x := v * p;
    Rescale(v, p, q);
    Overflowed(v, p, q, x % TWO64);
    WrapsBelow(x);
  }

  lemma DecodedUnits(raw: seq<byte>, scale: nat)
    requires |raw| <= 8
    ensures var sc := if scale < 7 then scale else 7;
      DecodeTime(raw, scale) == Ok(Units((FromLE(raw) * Pow10(7 - sc)) % TWO64, sc))
  {
    hide FromLE, Pow10, Padded;
  }

  lemma WrapsBelow(x: nat)
    ensures x % TWO64 == x <==> x < TWO64
    ensures x >= TWO64 ==> x % TWO64 < x
  {
  }

  lemma Overflowed(v: nat, p: nat, q: nat, h: nat)
    requires p > 0 && q > 0
    ensures p * q > 0
    ensures h < v * p ==> h / (p * q) * q + h % (p * q) / p < v
  {
    LessScaled(0, q, p);
    var t, r := h / (p * q), h % (p * q);
    var k := t * q + r / p;
    assert h == (p * q) * t + r;
    assert r == p * (r / p) + r % p;
    assert p * k == (p * q) * t + p * (r / p) by {
      assert p * (t * q) == (p * q) * t;
      assert p * k == p * (t * q) + p * (r / p);
    }
    assert p * v == v * p;
    MulMono(p, v, k);
  }

  lemma ShortTimes(raw: seq<byte>, sc: nat)
    requires |raw| <= 5 && sc <= 7
    ensures FromLE(raw) * Pow10(7 - sc) < TWO64
  {
    hide Pow10, FromLE;
    FromLEBound(raw);
    Pow256Grows(|raw|, 5);
    Pow10Grows(7 - sc, 7);
    Seven();
    assert Pow256(5) == 0x100_0000_0000;
    var v, p := FromLE(raw), Pow10(7 - sc);
    MulMono(p, v, 0x100_0000_0000);
    assert v * p == p * v;
  }

  lemma {:induction false} Pow10Grows(a: nat, b: nat)
    requires a <= b
    ensures Pow10(a) <= Pow10(b)
  {
    if a < b { Pow10Grows(a, b - 1); }
  }

  // ----- the clock -----

  /**
   Minutes and seconds are within their hour and minute, and the hour is within the day if and only if
   the units, taken modulo 2^64, are fewer than a day has. With `TimeRoundTrip` only one time is left.
   */
  lemma TimeParts(raw: seq<byte>, scale: nat)
    requires |raw| <= 8
    ensures var t := DecodeTime(raw, scale).value; var sc := if scale < 7 then scale else 7;
      && t.minute < 60 && t.second < 60
      && (t.hour < 24 <==> (FromLE(raw) * Pow10(7 - sc)) % TWO64 < 864_000_000_000)
      && |t.fraction| == (if sc == 0 then 0 else 1 + sc)
  {
    hide FromLE, Pow10, Padded;
  }

  /** Wider values are refused. */
  lemma WideTimesRefused(raw: seq<byte>, scale: nat)
    requires |raw| > 8
    ensures DecodeTime(raw, scale) == Err
  {
  }

  /** No zero in front of a number but the one before the point. */
  predicate Canonical(s: string) {
    s != "" && (s[0] == '0' ==> |s| == 1 || s[1] == '.')
  }

  lemma {:induction false} NatTextCanonical(n: nat)
    ensures NatText(n) != "" && (NatText(n)[0] == '0' ==> n == 0)
  {
    if n >= 10 { NatTextCanonical(n / 10); }
  }

  lemma ZeroIsShort()
    ensures |NatText(0)| == 1
  {
  }

  /** The text has no superfluous zero in front, and a minus sign exactly for a negative value. */
  lemma ScaledTextCanonical(value: int, scale: nat)
    ensures var s := ScaledText(value, scale);
      s != "" && (s[0] == '-' <==> value < 0) && Canonical(if value < 0 then s[1..] else s)
  {
    NatTextCanonical(Abs(value));
    ZeroIsShort();
    PlaceRoundTrip(Abs(value), scale);
    hide NatText, Zeros, ReadUnsigned;
    var body := PlacePoint(NatText(Abs(value)), scale);
    assert value < 0 ==> ("-" + body)[1..] == body;
    assert value >= 0 ==> "" + body == body;
  }
}
