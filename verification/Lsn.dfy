/** Log sequence numbers as resume tokens: `hex_encode`, `lsn_to_hex`, `hex_to_lsn` and their order. */
module Lsn {
  import opened Bytes
  import opened Wrappers

  function HexDigit(n: int): char
    requires 0 <= n < 16
  {
    (if n < 10 then '0' as int + n else 'a' as int + n - 10) as char
  }

  function Hex(b: seq<byte>): (s: string)
    ensures |s| == 2 * |b|
  {
    if b == [] then "" else [HexDigit(b[0] / 16), HexDigit(b[0] % 16)] + Hex(b[1..])
  }

  /** The digit loop of the encoder. */
  method HexEncode(bytes: seq<byte>) returns (s: string)
    ensures s == Hex(bytes)
  {
    s := "";
    for i := 0 to |bytes|
      invariant s + Hex(bytes[i..]) == Hex(bytes)
    {
      s := s + [HexDigit(bytes[i] / 16)];
      s := s + [HexDigit(bytes[i] % 16)];
      assert bytes[i..][1..] == bytes[i + 1..];
    }
  }

  function LsnToHex(lsn: seq<byte>): string {
    "0x" + Hex(lsn)
  }

  /** How a binary cell arrives as text. */
  function BinaryCellText(raw: seq<byte>): string {
    "\\x" + Hex(raw)
  }

  function DigitValue(c: char): Option<int> {
    if '0' <= c <= '9' then Some(c as int - '0' as int)
    else if 'a' <= c <= 'f' then Some(c as int - 'a' as int + 10)
    else if 'A' <= c <= 'F' then Some(c as int - 'A' as int + 10)
    else None
  }

  /** Two characters read in base 16; a leading '+' is allowed by the standard reader. */
  function PairValue(a: char, b: char): Result<byte> {
    match (DigitValue(a), DigitValue(b))
    case (Some(x), Some(y)) => Ok(16 * x + y)
    case (None, Some(y)) => if a == '+' then Ok(y) else Err
    case _ => Err
  }

  function ParsePairs(s: string): Result<seq<byte>>
    requires |s| % 2 == 0
  {
    if s == [] then Ok([]) else
    match (PairValue(s[0], s[1]), ParsePairs(s[2..]))
    case (Ok(v), Ok(rest)) => Ok([v] + rest)
    case _ => Err
  }

  /** Unicode white space. */
  predicate IsSpace(c: char) {
    var n := c as int;
    || 0x9 <= n <= 0xD || n == 0x20 || n == 0x85 || n == 0xA0 || n == 0x1680 || 0x2000 <= n <= 0x200A
    || n == 0x2028 || n == 0x2029 || n == 0x202F || n == 0x205F || n == 0x3000
  }

  function TrimLeft(s: string): string {
    if s != [] && IsSpace(s[0]) then TrimLeft(s[1..]) else s
  }

  function TrimRight(s: string): string {
    if s != [] && IsSpace(s[|s| - 1]) then TrimRight(s[..|s| - 1]) else s
  }

  function StripPrefix(s: string): string {
    if |s| >= 2 && (s[..2] == "0x" || s[..2] == "\\x") then s[2..] else s
  }

  function HexToLsn(text: string): Result<seq<byte>> {
    var s := StripPrefix(TrimRight(TrimLeft(text)));
    if s == [] || |s| % 2 != 0 then Err else ParsePairs(s)
  }

  // ----- tokens survive printing -----

  predicate Plain(s: string) {
    forall i :: 0 <= i < |s| ==> !IsSpace(s[i])
  }

  lemma DigitRoundTrip(n: int)
    requires 0 <= n < 16
    ensures DigitValue(HexDigit(n)) == Some(n) && !IsSpace(HexDigit(n))
  {
  }

  lemma {:induction false} HexRoundTrip(b: seq<byte>)
    ensures Plain(Hex(b)) && ParsePairs(Hex(b)) == Ok(b)
  {
    if b != [] {
      HexRoundTrip(b[1..]);
      DigitRoundTrip(b[0] / 16);
      DigitRoundTrip(b[0] % 16);
      hide IsSpace, DigitValue, HexDigit;
      assert Hex(b)[2..] == Hex(b[1..]);
      assert [b[0]] + b[1..] == b;
    }
  }

  lemma Unprefixed(p: string, h: string)
    requires p == "0x" || p == "\\x"
    requires Plain(h)
    ensures StripPrefix(TrimRight(TrimLeft(p + h))) == h
  {
    var s := p + h;
    assert s[0] == p[0] && s[|s| - 1] == (if h == [] then p[1] else h[|h| - 1]) && s[..2] == p;
  }

  /** Both printed forms of an LSN parse back to it, except the empty one, which is refused. */
  lemma TokenRoundTrip(lsn: seq<byte>)
    ensures HexToLsn(LsnToHex(lsn)) == if lsn == [] then Err else Ok(lsn)
    ensures HexToLsn(BinaryCellText(lsn)) == if lsn == [] then Err else Ok(lsn)
  {
    hide TrimLeft, TrimRight, StripPrefix, Hex, ParsePairs, Plain;
    HexRoundTrip(lsn);
    Unprefixed("0x", Hex(lsn));
    Unprefixed("\\x", Hex(lsn));
  }

  // ----- order -----

  /** The order of byte vectors: first difference decides, a proper prefix is smaller. */
  predicate Less(a: seq<byte>, b: seq<byte>) {
    b != [] && (a == [] || a[0] < b[0] || (a[0] == b[0] && Less(a[1..], b[1..])))
  }

  /** On LSNs of one width the comparison of the poll loop is the numeric one. */
  lemma {:induction false} LessIsNumeric(a: seq<byte>, b: seq<byte>)
    requires |a| == |b|
    ensures Less(a, b) <==> FromBE(a) < FromBE(b)
  {
    if a != [] {
      LessIsNumeric(a[1..], b[1..]);
      FromBEHead(a);
      FromBEHead(b);
      FromBEBound(a[1..]);
      FromBEBound(b[1..]);
      HeadDecides(a[0], FromBE(a[1..]), b[0], FromBE(b[1..]), Pow256(|a| - 1));
    }
  }

  lemma HeadDecides(a: int, x: nat, b: int, y: nat, p: nat)
    requires x < p && y < p
    ensures a < b ==> a * p + x < b * p + y
    ensures a > b ==> a * p + x > b * p + y
  {
    if a < b { assert (a + 1) * p <= b * p; }
    if a > b { assert (b + 1) * p <= a * p; }
  }

  function Zeros(n: nat): (s: seq<byte>)
    ensures |s| == n
  {
    seq(n, i => 0)
  }

  lemma {:induction false} ZerosAreZero(n: nat)
    ensures FromBE(Zeros(n)) == 0
  {
    if n > 0 {
      assert Zeros(n)[..n - 1] == Zeros(n - 1);
      ZerosAreZero(n - 1);
    }
  }

  lemma RoundNumber(d: byte, n: nat)
    ensures FromBE([d] + Zeros(n)) == d * Pow256(n)
  {
    hide FromBE, Pow256, Zeros;
    FromBEHead([d] + Zeros(n));
    assert ([d] + Zeros(n))[1..] == Zeros(n);
    ZerosAreZero(n);
  }

  /** On numbers of `m` and `n` bytes the comparison of the poll loop is the numeric one. */
  ghost predicate NumericAt(m: nat, n: nat) {
    forall a: seq<byte>, b: seq<byte> :: |a| == m && |b| == n ==> (Less(a, b) <==> FromBE(a) < FromBE(b))
  }

  /** A number with a leading zero byte, compared with a larger first byte of a shorter or longer number. */
  lemma PaddedPair(long: nat, short: nat)
    requires 1 <= short < long
    ensures var a, b := [0] + ([2] + Zeros(long - 2)), [1] + Zeros(short - 1);
      |a| == long && |b| == short && Less(a, b) && !Less(b, a) && FromBE(a) > FromBE(b)
  {
    var a, b := [0] + ([2] + Zeros(long - 2)), [1] + Zeros(short - 1);
    assert Less(a, b) && !Less(b, a);
    hide Less, Zeros, FromBE, Pow256;
    RoundNumber(1, short - 1);
    RoundNumber(2, long - 2);
    FromBEHead(a);
    assert a[1..] == [2] + Zeros(long - 2);
    Pow256Grows(short - 1, long - 2);
  }

  /** The equal width is exactly what makes the comparison numeric; with nothing to exceed, it is never true. */
  lemma NumericExactlyOnEqualWidths(m: nat, n: nat)
    ensures NumericAt(m, n) <==> m == n || n == 0
  {
    if m == n {
      forall a: seq<byte>, b: seq<byte> | |a| == m && |b| == n
        ensures Less(a, b) <==> FromBE(a) < FromBE(b)
      {
        LessIsNumeric(a, b);
      }
    } else if m == 0 {
      ZerosAreZero(n);
      assert Less([], Zeros(n)) && !(FromBE([]) < FromBE(Zeros(n)));
    } else if 0 < n < m {
      PaddedPair(m, n);
    } else if m < n {
      PaddedPair(n, m);
    }
  }

  // ----- the text itself -----

  /** A token is 0x and two lower-case hexadecimal digits a byte, high digit first. */
  lemma {:induction false} HexText(b: seq<byte>, i: nat)
    requires i < |b|
    ensures var hi, lo := b[i] / 16, b[i] % 16;
      && Hex(b)[2 * i] as int == (if hi < 10 then 48 + hi else 87 + hi)
      && Hex(b)[2 * i + 1] as int == (if lo < 10 then 48 + lo else 87 + lo)
  {
    if i > 0 {
      HexText(b[1..], i - 1);
      assert Hex(b)[2..] == Hex(b[1..]);
    }
  }

  lemma TokenText(lsn: seq<byte>)
    ensures LsnToHex(lsn)[0] == '0' && LsnToHex(lsn)[1] == 'x' && LsnToHex(lsn)[2..] == Hex(lsn)
    ensures BinaryCellText(lsn)[0] == '\\' && BinaryCellText(lsn)[1] == 'x' && BinaryCellText(lsn)[2..] == Hex(lsn)
  {
    assert |"0x"| == 2 && |"\\x"| == 2;
  }

  /** The code points of the Unicode property White_Space. */
  const WHITE_SPACE: set<int> := {
    0x9, 0xA, 0xB, 0xC, 0xD, 0x20, 0x85, 0xA0, 0x1680, 0x2000, 0x2001, 0x2002, 0x2003, 0x2004, 0x2005, 0x2006,
    0x2007, 0x2008, 0x2009, 0x200A, 0x2028, 0x2029, 0x202F, 0x205F, 0x3000 }

  predicate Spaces(s: string) {
    forall i :: 0 <= i < |s| ==> s[i] as int in WHITE_SPACE
  }

  lemma {:induction false} LeftTrimmed(before: string, text: string)
    requires Spaces(before) && text != "" && !Spaces([text[0]])
    ensures TrimLeft(before + text) == text
  {
    var s := before + text;
    assert [text[0]][0] == text[0];
    if before == "" {
      assert s == text;
    } else {
      assert s[0] == before[0] && s[1..] == before[1..] + text;
      LeftTrimmed(before[1..], text);
    }
  }

  lemma {:induction false} RightTrimmed(text: string, after: string)
    requires Spaces(after) && text != "" && !Spaces([text[|text| - 1]])
    ensures TrimRight(text + after) == text
  {
    var s := text + after;
    assert [text[|text| - 1]][0] == text[|text| - 1];
    if after == "" {
      assert s == text;
    } else {
      var rest := after[..|after| - 1];
      assert s[|s| - 1] == after[|after| - 1] && s[..|s| - 1] == text + rest;
      RightTrimmed(text, rest);
    }
  }

  /** White space around a token is ignored, and nothing else is. */
  lemma SpaceAround(before: string, text: string, after: string)
    requires Spaces(before) && Spaces(after) && text != "" && !Spaces([text[0]]) && !Spaces([text[|text| - 1]])
    ensures TrimRight(TrimLeft(before + (text + after))) == text
  {
    hide TrimLeft, TrimRight, Spaces;
    assert (text + after)[0] == text[0];
    LeftTrimmed(before, text + after);
    RightTrimmed(text, after);
  }

  predicate IsHex(c: char) {
    '0' <= c <= '9' || 'a' <= c <= 'f' || 'A' <= c <= 'F'
  }

  /** Two characters are a byte if both are hexadecimal digits; the standard reader also takes a plus sign in front. */
  lemma PairsAccepted(a: char, b: char)
    ensures PairValue(a, b).Ok? <==> (IsHex(a) || a == '+') && IsHex(b)
    ensures a == '+' && IsHex(b) ==> PairValue(a, b) == PairValue('0', b)
  {
  }

  /** The digits of a byte in capitals. */
  function Capital(n: int): char
    requires 0 <= n < 16
  {
    if n < 10 then (48 + n) as char else (55 + n) as char
  }

  /** Capitals read like small letters. */
  lemma CapitalsRead(b: byte)
    ensures PairValue(Capital(b / 16), Capital(b % 16)) == Ok(b)
  {
    assert DigitValue(Capital(b / 16)) == Some(b / 16);
    assert DigitValue(Capital(b % 16)) == Some(b % 16);
  }
}
