/** Variable-length integers and the zigzag mapping of signed ones, for any width; the byte array uses 32 and 64. */
module Varints {
  import opened Basics
  import opened Bits

  // ---------------------------------------------------------------- variable length

  /** Seven bits a byte, lowest first; every byte but the last has its top bit set. */
  function Encode(v: nat): (s: seq<byte>)
    ensures |s| >= 1
  {
    if v < 128 then [v] else [v % 128 + 128] + Encode(v / 128)
  }

  /** How many bytes the widest value takes: 5 for 32 bits, 10 for 64. */
  function Groups(width: nat): nat { (width + 6) / 7 }

  /** `result |= (b & 0x7F) << i` in an unsigned integer of `width` bits. */
  function Absorb(result: nat, b: byte, i: nat, width: nat): nat {
    Or(result, Trunc(Shl(And(b, 0x7F), i), width))
  }

  /** The seven payload bits of a byte. */
  function Low(b: byte): (r: nat)
    ensures r < 128 && r == b % 128
  {
    if b < 128 then b else b - 128
  }

  datatype Decoded = Decoded(value: nat, used: nat)


  /** The read loop from shift `i` on; absent when the bytes run out before it ends. */
  function Decode(width: nat, i: nat, result: nat, s: seq<byte>): Option<Decoded>
    decreases |s|
  {
    if i >= width then Some(Decoded(result, 0))
    else if s == [] then None
    else if s[0] < 128 then Some(Decoded(Absorb(result, s[0], i, width), 1))
    else
      var d := Decode(width, i + 7, Absorb(result, s[0], i, width), s[1..]);
      if d.None? then None else Some(Decoded(d.value.value, d.value.used + 1))
  }

  /** The result fits the width, and no more bytes are used than there are. */
  lemma {:induction false} DecodeBound(width: nat, i: nat, result: nat, s: seq<byte>)
    requires result < Pow2(width)
    ensures var d := Decode(width, i, result, s); d.Some? ==> d.value.value < Pow2(width) && d.value.used <= |s|
    decreases |s|
  {
    if i < width && s != [] {
      AbsorbBound(result, s[0], i, width);
      if s[0] >= 128 { DecodeBound(width, i + 7, Absorb(result, s[0], i, width), s[1..]); }
    }
  }

  /** What the bytes mean: at most `k` groups of seven bits, up to the first byte with a clear top bit. */
  function Meaning(s: seq<byte>, k: nat): Option<Decoded> {
    if k == 0 then Some(Decoded(0, 0))
    else if s == [] then None
    else if s[0] < 128 then Some(Decoded(s[0], 1))
    else
      var d := Meaning(s[1..], k - 1);
      if d.None? then None else Some(Decoded(Low(s[0]) + 128 * d.value.value, d.value.used + 1))
  }

  /** The bits written for one group. */
  lemma GroupBits(v: nat)
    ensures Or(And(v, 0x7F), 0x80) == v % 128 + 128 && Shr(v, 7) == v / 128
  {
    Seven(v, 0);
    AndOnes(v, 7);
    OrDisjoint(v % 128, 1, 7);
    assert Shl(1, 7) == 128 by { Seven(1, 0); }
  }

  lemma LowIsAnd(b: byte)
    ensures And(b, 0x7F) == Low(b)
  {
    Seven(b, 0);
    AndOnes(b, 7);
  }

  lemma AbsorbBound(result: nat, b: byte, i: nat, width: nat)
    requires result < Pow2(width)
    ensures Absorb(result, b, i, width) < Pow2(width)
  {
    TruncIsRemainder(Shl(And(b, 0x7F), i), width);
    OrBound(result, Trunc(Shl(And(b, 0x7F), i), width), width);
  }

  /** Absorbing a group adds it at its place, less the bits beyond the width. */
  lemma AbsorbAdds(result: nat, b: byte, i: nat, width: nat)
    requires i < width && result < Pow2(i)
    ensures Absorb(result, b, i, width) == result + Shl(Trunc(Low(b), width - i), i)
  {
    LowIsAnd(b);
    TruncShl(Low(b), i, width);
    OrDisjoint(result, Trunc(Low(b), width - i), i);
  }

  /** With a whole group inside the width nothing is cut off. */
  lemma AbsorbWhole(result: nat, b: byte, i: nat, width: nat)
    requires i + 7 <= width && result < Pow2(i)
    ensures Absorb(result, b, i, width) == result + Shl(Low(b), i) < Pow2(i + 7)
  {
    var low := Low(b);
    AbsorbAdds(result, b, i, width);
    assert low < Pow2(7) by { Seven(0, 0); }
    Pow2Mono(7, width - i);
    TruncSmall(low, width - i);
    ShlBound(low, 7, i);
  }

  /** A value below 2^(7k) is written in at most k bytes. */
  lemma {:induction false} EncodeLength(v: nat, k: nat)
    requires k >= 1 && v < Pow2(7 * k)
    ensures |Encode(v)| <= k
    decreases k
  {
    Seven(0, 7 * k - 7);
    if v >= 128 {
      assert k > 1;
      EncodeLength(v / 128, k - 1);
    }
  }

  /** 32-bit values take 1 to 5 bytes, 64-bit values 1 to 10. */
  lemma EncodeFits(v: nat, width: nat)
    requires width > 0 && v < Pow2(width)
    ensures 1 <= |Encode(v)| <= Groups(width)
    ensures Groups(32) == 5 && Groups(64) == 10
  {
    Pow2Mono(width, 7 * Groups(width));
    EncodeLength(v, Groups(width));
  }

  /** A number below 2^n that does not fit in seven bits leaves another group to read. */
  lemma MoreGroups(v: nat, n: nat)
    requires 128 <= v < Pow2(n)
    ensures n > 7 && v / 128 < Pow2(n - 7)
  {
    Seven(0, 0);
    if n > 7 { Seven(0, n - 7); } else { Pow2Mono(n, 7); }
  }

  /** A number is its low group and the rest, each at its place. */
  lemma SplitGroup(v: nat, i: nat)
    ensures Shl(v % 128, i) + Shl(v / 128, i + 7) == Shl(v, i)
  {
    Seven(v / 128, 0);
    ShlShl(v / 128, 7, i);
    ShlSum(v % 128, 128 * (v / 128), i);
  }

  lemma DecodeLong(width: nat, i: nat, result: nat, s: seq<byte>)
    requires i < width && s != [] && s[0] >= 128
    ensures var d := Decode(width, i + 7, Absorb(result, s[0], i, width), s[1..]);
            Decode(width, i, result, s) == if d.None? then None else Some(Decoded(d.value.value, d.value.used + 1))
  {
  }

  lemma DecodeByte(width: nat, i: nat, result: nat, s: seq<byte>)
    requires i < width && s != [] && (s[0] < 128 || width <= i + 7)
    ensures Decode(width, i, result, s) == Some(Decoded(Absorb(result, s[0], i, width), 1))
  {
  }

  lemma AbsorbSmall(result: nat, v: byte, i: nat, width: nat)
    requires i < width && result < Pow2(i) && v < Pow2(width - i) && v < 128
    ensures Absorb(result, v, i, width) == result + Shl(v, i)
  {
    AbsorbAdds(result, v, i, width);
    TruncSmall(v, width - i);
  }

  lemma DecodeShort(width: nat, i: nat, result: nat, v: byte, rest: seq<byte>)
    requires i < width && result < Pow2(i) && v < Pow2(width - i) && v < 128
    ensures Decode(width, i, result, [v] + rest) == Some(Decoded(result + Shl(v, i), 1))
  {
    AbsorbSmall(result, v, i, width);
    DecodeByte(width, i, result, [v] + rest);
  }

  lemma EncodeLong(v: nat, rest: seq<byte>)
    requires v >= 128
    ensures var s := Encode(v) + rest;
            s[0] >= 128 && Low(s[0]) == v % 128 && s[1..] == Encode(v / 128) + rest
    ensures |Encode(v)| == 1 + |Encode(v / 128)|
  {
    FirstOff(v % 128 + 128, Encode(v / 128), rest);
  }

  lemma FirstOff(b: byte, e: seq<byte>, rest: seq<byte>)
    ensures var s := [b] + e + rest; s[0] == b && s[1..] == e + rest
  {
  }

  /** A group in front of bytes that read back. */
  lemma DecodeMore(width: nat, i: nat, result: nat, s: seq<byte>, v: nat, used: nat)
    requires i + 7 <= width && result < Pow2(i) && s != [] && s[0] >= 128 && Low(s[0]) == v % 128
    requires var sofar := result + Shl(Low(s[0]), i);
             Decode(width, i + 7, sofar, s[1..]) == Some(Decoded(sofar + Shl(v / 128, i + 7), used))
    ensures Decode(width, i, result, s) == Some(Decoded(result + Shl(v, i), used + 1))
  {
    AbsorbWhole(result, s[0], i, width);
    SplitGroup(v, i);
    DecodeLong(width, i, result, s);
  }

  lemma {:induction false} DecodeAt(width: nat, i: nat, result: nat, v: nat, rest: seq<byte>)
    requires i < width && result < Pow2(i) && v < Pow2(width - i)
    ensures Decode(width, i, result, Encode(v) + rest) == Some(Decoded(result + Shl(v, i), |Encode(v)|))
    decreases v
  {
    if v >= 128 {
      var s, hi := Encode(v) + rest, v / 128;
      EncodeLong(v, rest);
      MoreGroups(v, width - i);
      var sofar := result + Shl(Low(s[0]), i);
      assert sofar < Pow2(i + 7) by { AbsorbWhole(result, s[0], i, width); }
      assert hi < v;
      DecodeAt(width, i + 7, sofar, hi, rest);
      DecodeMore(width, i, result, s, v, |Encode(hi)|);
    } else {
      DecodeShort(width, i, result, v, rest);
    }
  }

  /** Reading back any value, with anything behind it, gives the value and uses exactly its bytes. */
  lemma VarintRoundTrip(width: nat, v: nat, rest: seq<byte>)
    requires width > 0 && v < Pow2(width)
    ensures Decode(width, 0, 0, Encode(v) + rest) == Some(Decoded(v, |Encode(v)|))
  {
    DecodeAt(width, 0, 0, v, rest);
  }

  /** What the loop returns from shift `i` on, in terms of what the bytes mean. */
  predicate Matches(width: nat, i: nat, result: nat, d: Option<Decoded>, m: Option<Decoded>)
    requires i <= width
  {
    && (d.Some? <==> m.Some?)
    && (m.Some? ==> d.value == Decoded(result + Shl(Trunc(m.value.value, width - i), i), m.value.used))
  }

  lemma {:induction false} MeaningAt(width: nat, i: nat, result: nat, s: seq<byte>, k: nat)
    requires i < width && result < Pow2(i) && k == Groups(width - i)
    ensures Matches(width, i, result, Decode(width, i, result, s), Meaning(s, k))
    decreases |s|
  {
    if s != [] && s[0] >= 128 && i + 7 < width {
      AbsorbWhole(result, s[0], i, width);
      MeaningAt(width, i + 7, result + Shl(Low(s[0]), i), s[1..], k - 1);
      MeaningMore(width, i, result, s, k);
    } else {
      MeaningEnd(width, i, result, s, k);
    }
  }

  lemma MeaningMore(width: nat, i: nat, result: nat, s: seq<byte>, k: nat)
    requires i + 7 < width && s != [] && s[0] >= 128 && k > 0
    requires var r := result + Shl(Low(s[0]), i);
             && Absorb(result, s[0], i, width) == r
             && Matches(width, i + 7, r, Decode(width, i + 7, r, s[1..]), Meaning(s[1..], k - 1))
    ensures Matches(width, i, result, Decode(width, i, result, s), Meaning(s, k))
  {
    DecodeLong(width, i, result, s);
    var low := Low(s[0]);
    MatchesStep(width, i, result, low, Decode(width, i + 7, result + Shl(low, i), s[1..]), Meaning(s[1..], k - 1));
  }

  lemma MeaningEnd(width: nat, i: nat, result: nat, s: seq<byte>, k: nat)
    requires i < width && result < Pow2(i) && k > 0
    requires s != [] && s[0] >= 128 ==> width <= i + 7 && k == 1
    ensures Matches(width, i, result, Decode(width, i, result, s), Meaning(s, k))
  {
    if s != [] {
      DecodeLast(width, i, result, s);
      if s[0] >= 128 {
            MeaningLast(s);
      }
    }
  }

  lemma MatchesStep(width: nat, i: nat, result: nat, low: nat, d: Option<Decoded>, m: Option<Decoded>)
    requires i + 7 < width && low < 128 && Matches(width, i + 7, result + Shl(low, i), d, m)
    ensures (d.Some? <==> m.Some?) && (d.Some? ==> d.value.used == m.value.used)
    ensures m.Some? ==> d.value.value == result + Shl(Trunc(low + 128 * m.value.value, width - i), i)
  {
    if m.Some? { CarryGroup(low, m.value.value, width - i - 7, i); }
  }

  lemma DecodeLast(width: nat, i: nat, result: nat, s: seq<byte>)
    requires i < width && result < Pow2(i) && s != [] && (s[0] < 128 || width <= i + 7)
    ensures Decode(width, i, result, s) == Some(Decoded(result + Shl(Trunc(Low(s[0]), width - i), i), 1))
  {
    AbsorbAdds(result, s[0], i, width);
    DecodeByte(width, i, result, s);
  }

  lemma MeaningLast(s: seq<byte>)
    requires s != [] && s[0] >= 128
    ensures Meaning(s, 1) == Some(Decoded(Low(s[0]), 1))
  {
    assert Meaning(s[1..], 0) == Some(Decoded(0, 0));
  }

  lemma CarryGroup(low: nat, m: nat, n: nat, i: nat)
    requires low < 128
    ensures Shl(low, i) + Shl(Trunc(m, n), i + 7) == Shl(Trunc(low + 128 * m, n + 7), i)
  {
    Seven(m, 0);
    TruncCarry(low, m, 7, n);
    ShlShl(Trunc(m, n), 7, i);
    ShlSum(low, Shl(Trunc(m, n), 7), i);
  }

  /** On every input the read loop takes the bytes of `Meaning` and returns its value cut to `width` bits. */
  lemma DecodeMeaning(width: nat, s: seq<byte>)
    requires width > 0
    ensures var d, m := Decode(width, 0, 0, s), Meaning(s, Groups(width));
            && (d.Some? <==> m.Some?)
            && (m.Some? ==> d.value == Decoded(Trunc(m.value.value, width), m.value.used))
  {
    MeaningAt(width, 0, 0, s, Groups(width));
  }

  // ---------------------------------------------------------------- zigzag

  predicate InSigned(v: int, width: nat)
    requires width > 0
  {
    var half: int := Pow2(width - 1);
    -half <= v < half
  }

  /** The unsigned bits read as a two's complement number. */
  function Signed(u: nat, width: nat): int
    requires width > 0
  {
    if u < Pow2(width - 1) then u else u - Pow2(width)
  }

  /** The arithmetic encoder, with each conversion and operation wrapping around. */
  function EncodeZigzag(v: int, width: nat): nat {
    if v < 0 then Trunc(Trunc(-v, width) * 2 - 1, width) else Trunc(v * 2, width)
  }

  /** The shift-and-xor decoder. */
  function DecodeZigzag(u: nat, width: nat): int
    requires width > 0 && u < Pow2(width)
  {
    LowBit(u);
    Signed(Xor(Shr(u, 1), Neg(And(u, 1), width)), width)
  }

  lemma LowBit(u: nat)
    ensures Shr(u, 1) == u / 2 && And(u, 1) == u % 2
  {
    assert Pow2(1) == 2 && Trunc(u, 1) == u % 2;
    AndOnes(u, 1);
  }

  lemma EvenCode(v: nat, width: nat)
    requires 2 * v < Pow2(width)
    ensures Trunc(v * 2, width) == 2 * v
  {
    TruncSmall(v * 2, width);
  }

  lemma OddCode(v: nat, width: nat)
    requires 0 < 2 * v <= Pow2(width)
    ensures Trunc(Trunc(v, width) * 2 - 1, width) == 2 * v - 1
  {
    assert v < Pow2(width) by { assert width > 0; }
    TruncSmall(v, width);
    TruncSmall(v * 2 - 1, width);
  }

  lemma ZigzagEven(v: int, width: nat)
    requires width > 0 && InSigned(v, width) && v >= 0
    ensures EncodeZigzag(v, width) == 2 * v < Pow2(width)
  {
    EvenCode(v, width);
  }

  lemma ZigzagOdd(v: int, width: nat)
    requires width > 0 && InSigned(v, width) && v < 0
    ensures EncodeZigzag(v, width) == -2 * v - 1
  {
    OddCode(-v, width);
  }

  /** Non-negative numbers go to the even ones and negative numbers to the odd ones, the least included. */
  lemma ZigzagMeaning(v: int, width: nat)
    requires width > 0 && InSigned(v, width)
    ensures EncodeZigzag(v, width) == if v < 0 then -2 * v - 1 else 2 * v
    ensures EncodeZigzag(v, width) < Pow2(width)
  {
    if v < 0 {
      ZigzagOdd(v, width);
      assert -2 * v - 1 < Pow2(width);
    } else {
      ZigzagEven(v, width);
    }
  }

  /** Xor with the negated low bit keeps the number or complements it. */
  lemma SignedXor(half: nat, low: nat, width: nat)
    requires width > 0 && half < Pow2(width - 1) && low < 2
    ensures Signed(Xor(half, Neg(low, width)), width) == if low == 0 then half else -1 - half
  {
    if low == 0 { XorZero(half); } else { XorOnes(half, width); }
  }

  lemma DecodeBits(u: nat, width: nat)
    requires width > 0 && u < Pow2(width)
    ensures DecodeZigzag(u, width) == if u % 2 == 0 then u / 2 else -1 - u / 2
  {
    LowBit(u);
    SignedXor(u / 2, u % 2, width);
  }

  /** Decoding undoes encoding over the whole signed range. */
  lemma ZigzagRoundTrip(v: int, width: nat)
    requires width > 0 && InSigned(v, width)
    ensures EncodeZigzag(v, width) < Pow2(width) && DecodeZigzag(EncodeZigzag(v, width), width) == v
  {
    ZigzagMeaning(v, width);
    DecodeMeant(v, EncodeZigzag(v, width), width);
  }

  lemma DecodeMeant(v: int, u: nat, width: nat)
    requires width > 0 && u < Pow2(width) && u == if v < 0 then -2 * v - 1 else 2 * v
    ensures DecodeZigzag(u, width) == v
  {
    DecodeBits(u, width);
    HalfCode(v, u);
  }

  lemma HalfCode(v: int, u: nat)
    requires u == if v < 0 then -2 * v - 1 else 2 * v
    ensures v == if u % 2 == 0 then u / 2 else -1 - u / 2
  {
  }

  /** Encoding undoes decoding, so the mapping is a bijection. */
  lemma ZigzagOnto(u: nat, width: nat)
    requires width > 0 && u < Pow2(width)
    ensures InSigned(DecodeZigzag(u, width), width) && EncodeZigzag(DecodeZigzag(u, width), width) == u
  {
    DecodeBits(u, width);
    assert Pow2(width) == 2 * Pow2(width - 1);
    ZigzagMeaning(DecodeZigzag(u, width), width);
  }
}
