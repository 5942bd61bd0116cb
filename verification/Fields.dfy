/** Integers and strings as the byte array writes and reads them. Its byte order is the default, big endian. */
module Fields {
  import opened Basics
  import opened Bits
  import opened Blocks
  import opened Buffers
  import opened ByteArrays
  import Varints

  // ---------------------------------------------------------------- fixed width

  /** The `n` bytes of an integer in the memory of a little-endian machine. */
  function LittleBytes(v: nat, n: nat): (s: seq<byte>)
    ensures |s| == n
    decreases n
  {
    if n == 0 then [] else [v % 256] + LittleBytes(v / 256, n - 1)
  }

  function FromLittle(s: seq<byte>): nat {
    if s == [] then 0 else s[0] + 256 * FromLittle(s[1..])
  }

  /** `byteswap`: the integer whose bytes are those of `v` in reverse. */
  function Swap(v: nat, n: nat): nat { FromLittle(Backwards(LittleBytes(v, n))) }

  /** The `n` bytes of an integer, most significant first. */
  function BigBytes(v: nat, n: nat): (s: seq<byte>)
    ensures |s| == n
    decreases n
  {
    if n == 0 then [] else BigBytes(v / 256, n - 1) + [v % 256]
  }

  function FromBig(s: seq<byte>): nat {
    if s == [] then 0 else 256 * FromBig(s[..|s| - 1]) + s[|s| - 1]
  }

  lemma {:induction false} LittleOf(s: seq<byte>)
    ensures LittleBytes(FromLittle(s), |s|) == s
  {
    if s != [] {
      LittleOf(s[1..]);
      var t := FromLittle(s[1..]);
      assert (s[0] + 256 * t) % 256 == s[0] && (s[0] + 256 * t) / 256 == t;
    }
  }

  lemma {:induction false} BackwardsLittle(v: nat, n: nat)
    ensures Backwards(LittleBytes(v, n)) == BigBytes(v, n)
    decreases n
  {
    if n > 0 {
      BackwardsLittle(v / 256, n - 1);
      assert Backwards(LittleBytes(v, n)) == Backwards(LittleBytes(v / 256, n - 1)) + [v % 256];
    }
  }

  /** Storing the swapped integer puts the most significant byte first. */
  lemma SwapStoresBig(v: nat, n: nat)
    ensures LittleBytes(Swap(v, n), n) == BigBytes(v, n)
  {
    BackwardsLittle(v, n);
    LittleOf(Backwards(LittleBytes(v, n)));
  }

  /** Swapping what was loaded reads the most significant byte first. */
  lemma {:induction false} SwapLoadsBig(s: seq<byte>)
    ensures FromLittle(Backwards(s)) == FromBig(s)
  {
    if s != [] {
      var t := s[..|s| - 1];
      SwapLoadsBig(t);
      assert Backwards(s)[1..] == Backwards(t);
    }
  }

  /** Fixed-width integers survive the round trip. */
  lemma {:induction false} FixedRoundTrip(v: nat, n: nat)
    requires v < Pow2(8 * n)
    ensures FromBig(BigBytes(v, n)) == v
    decreases n
  {
    if n > 0 {
      EightBits(8 * n - 8);
      FixedRoundTrip(v / 256, n - 1);
      assert BigBytes(v, n)[..n - 1] == BigBytes(v / 256, n - 1);
    }
  }

  lemma EightBits(n: nat)
    ensures Pow2(n + 8) == 256 * Pow2(n)
  {
    Seven(0, n);
    assert Pow2(n + 8) == 2 * Pow2(n + 7);
  }

  lemma {:induction false} FromBigBound(s: seq<byte>)
    ensures FromBig(s) < Pow2(8 * |s|)
  {
    if s != [] {
      FromBigBound(s[..|s| - 1]);
      EightBits(8 * |s| - 8);
    }
  }

  // ---------------------------------------------------------------- reading, on values

  function ReadFixedBuf(b: Buf, n: nat): (r: Read<nat>)
    requires Formed(b)
    ensures Formed(r.buf)
  {
    ReadFormed(b, n);
    var (s, b1) :- ReadBuf(b, n);
    Read(Got(FromBig(s)), b1)
  }

  /** `readUint32` and `readUint64`: byte by byte from shift `i` on. */
  function ReadUintBuf(b: Buf, width: nat, i: nat, result: nat): (r: Read<nat>)
    requires Formed(b) && result < Pow2(width)
    ensures Formed(r.buf) && (r.out.Got? ==> r.out.value < Pow2(width))
    decreases width - i
  {
    ReadFormed(b, 1);
    if i >= width then Read(Got(result), b)
    else
      var (s, b1) :- ReadBuf(b, 1);
      Varints.AbsorbBound(result, s[0], i, width);
      var acc := Varints.Absorb(result, s[0], i, width);
      if s[0] < 128 then Read(Got(acc), b1) else ReadUintBuf(b1, width, i + 7, acc)
  }

  /** The bytes of a string length. */
  const LENGTH := 8

  /** `readStringVint`, whose length is a fixed 64-bit integer. */
  function ReadStringBuf(b: Buf): (r: Read<seq<byte>>)
    requires Formed(b)
    ensures Formed(r.buf)
  {
    var (len, b1) :- ReadFixedBuf(b, LENGTH);
    ReadFormed(b1, len);
    ReadBuf(b1, len)
  }

  function StringBytes(s: seq<byte>): (r: seq<byte>)
    ensures |r| == LENGTH + |s|
  {
    BigBytes(|s|, LENGTH) + s
  }

  lemma MovedReadable(b: Buf, b': Buf, n: nat)
    requires Synced(b) && b.size <= Capacity(b) && Moved(b, b', n)
    ensures Readable(b') == Readable(b)[n..]
  {
  }

  /** In every buffer whose cursor is in place, across any number of blocks, reading a variable-length
      integer decodes the readable bytes and moves behind the bytes it used. */
  lemma {:induction false} ReadUintDecodes(b: Buf, width: nat, i: nat, result: nat)
    requires Synced(b) && b.size <= Capacity(b) && result < Pow2(width)
    ensures var d := Varints.Decode(width, i, result, Readable(b)); var r := ReadUintBuf(b, width, i, result);
            && (d.None? ==> r.out == OutOfRange)
            && (d.Some? ==> r.out == Got(d.value.value) && Moved(b, r.buf, d.value.used))
    decreases width - i
  {
    if i < width {
      ReadOne(b);
      if b.position < b.size {
        var r := ReadBuf(b, 1);
        var c := Readable(b)[0];
        if c >= 128 {
          Varints.AbsorbBound(result, c, i, width);
          MovedReadable(b, r.buf, 1);
          ReadUintDecodes(r.buf, width, i + 7, Varints.Absorb(result, c, i, width));
        }
      }
    }
  }

  // ---------------------------------------------------------------- one block

  /** All stored bytes lie in the one block, which they may fill. */
  predicate OneBlock(b: Buf) {
    Synced(b) && |b.blocks| == 1 && b.size <= b.base
  }

  lemma OneBlockCursor(b: Buf)
    requires OneBlock(b)
    ensures b.size <= Capacity(b) && (b.position < b.base ==> b.cur == 0 && Off(b.position, b.base) == b.position)
    ensures b.position == b.base ==> b.cur == 1
  {
    assert Times(1, b.base) == b.base && Times(0, b.base) == 0;
    SyncedCursor(b);
  }

  /** A read within one block: out of range, the next bytes, or, when nothing is read at the very end of a full
      block, the null cursor. */
  lemma ReadInBlock(b: Buf, n: nat)
    requires OneBlock(b)
    ensures b.size <= Capacity(b)
    ensures n > b.size - b.position ==> ReadBuf(b, n) == Read(OutOfRange, b)
    ensures n <= b.size - b.position && b.position == b.base ==> ReadBuf(b, n).out == Fault
    ensures n <= b.size - b.position && b.position < b.base ==>
              ReadBuf(b, n).out == Got(Readable(b)[..n]) && Moved(b, ReadBuf(b, n).buf, n)
  {
    OneBlockCursor(b);
    if n <= b.size - b.position && b.position < b.base {
      TakeWithin(b.blocks, b.base, b.cur, b.position, n);
      FlatLength(b.blocks, b.base);
      ReadFormed(b, n);
      ReadableSlice(Flat(b.blocks), b.size, b.position, n);
    }
  }

  // ---------------------------------------------------------------- reading in place

  method ReadFixed(ba: ByteArray, n: nat) returns (r: Outcome<nat>)
    requires ba.Valid()
    modifies ba`cur, ba`at, ba`position
    ensures r == ReadFixedBuf(old(ba.View()), n).out
    ensures r != Fault ==> ba.Valid() && ba.View() == ReadFixedBuf(old(ba.View()), n).buf
  {
    var s := ba.ReadBytes(n);
    match s
    case Got(bytes) =>
      SwapLoadsBig(bytes);
      return Got(FromLittle(Backwards(bytes)));
    case OutOfRange => return OutOfRange;
    case Fault => return Fault;
  }

  method ReadUint(ba: ByteArray, width: nat) returns (r: Outcome<nat>)
    requires ba.Valid()
    modifies ba`cur, ba`at, ba`position
    ensures r == ReadUintBuf(old(ba.View()), width, 0, 0).out
    ensures r != Fault ==> ba.Valid() && ba.View() == ReadUintBuf(old(ba.View()), width, 0, 0).buf
  {
    var result: nat, i: nat := 0, 0;
    ghost var b0 := ba.View();
    while i < width
      invariant ba.Valid() && result < Pow2(width)
      invariant ReadUintBuf(ba.View(), width, i, result) == ReadUintBuf(b0, width, 0, 0)
      decreases width - i
    {
      var s := ba.ReadBytes(1);
      match s {
        case OutOfRange => return OutOfRange;
        case Fault => return Fault;
        case Got(bytes) =>
          Varints.AbsorbBound(result, bytes[0], i, width);
          result := Or(result, Trunc(Shl(And(bytes[0], 0x7F), i), width));
          if bytes[0] < 0x80 {
            return Got(result);
          }
      }
      i := i + 7;
    }
    return Got(result);
  }

  method ReadString(ba: ByteArray) returns (r: Outcome<seq<byte>>)
    requires ba.Valid()
    modifies ba`cur, ba`at, ba`position
    ensures r == ReadStringBuf(old(ba.View())).out
    ensures r != Fault ==> ba.Valid() && ba.View() == ReadStringBuf(old(ba.View())).buf
  {
    var len := ReadFixed(ba, LENGTH);
    match len
    case Got(n) => r := ba.ReadBytes(n);
    case OutOfRange => return OutOfRange;
    case Fault => return Fault;
  }

  // ---------------------------------------------------------------- writing in place

  /** A buffer with its cursor in place and its size backed by blocks. */
  ghost predicate Sound(b: Buf) { Synced(b) && b.size <= Capacity(b) }

  /** `write` as a change of the stored bytes; false when the growth formula left no room. */
  method WriteBytes(ba: ByteArray, data: seq<byte>) returns (ok: bool)
    requires ba.Valid() && Sound(ba.View())
    modifies ba, ba.Nodes
    ensures fresh(ba.Nodes - old(ba.Nodes)) && old(ba.Nodes) <= ba.Nodes
    ensures ok <==> data == [] || Room(Free(old(ba.View())), ba.base, |data|)
    ensures ok ==> ba.Valid() && Wrote(old(ba.View()), ba.View(), data)
    ensures ok && |data| <= Free(old(ba.View())) ==> |ba.blocks| == |old(ba.blocks)|
  {
    ghost var more;
    ok, more := ba.Write(data);
    WriteSucceedsIff(old(ba.View()), data, more);
    if ok { WriteOverwrites(old(ba.View()), data, more); }
  }

  method WriteFixed(ba: ByteArray, v: nat, n: nat) returns (ok: bool)
    requires ba.Valid() && Sound(ba.View())
    modifies ba, ba.Nodes
    ensures fresh(ba.Nodes - old(ba.Nodes)) && old(ba.Nodes) <= ba.Nodes
    ensures ok <==> n == 0 || Room(Free(old(ba.View())), ba.base, n)
    ensures ok ==> ba.Valid() && Wrote(old(ba.View()), ba.View(), BigBytes(v, n))
    ensures ok && n <= Free(old(ba.View())) ==> |ba.blocks| == |old(ba.blocks)|
  {
    SwapStoresBig(v, n);
    ok := WriteBytes(ba, LittleBytes(Swap(v, n), n));
  }

  /** `writeUint32` and `writeUint64`: the groups fit the temporary array of 5 or 10 bytes. */
  method WriteUint(ba: ByteArray, v: nat, width: nat) returns (ok: bool)
    requires ba.Valid() && Sound(ba.View()) && width > 0 && v < Pow2(width)
    modifies ba, ba.Nodes
    ensures fresh(ba.Nodes - old(ba.Nodes)) && old(ba.Nodes) <= ba.Nodes
    ensures ok <==> Room(Free(old(ba.View())), ba.base, |Varints.Encode(v)|)
    ensures ok ==> ba.Valid() && Wrote(old(ba.View()), ba.View(), Varints.Encode(v))
    ensures ok && |Varints.Encode(v)| <= Free(old(ba.View())) ==> |ba.blocks| == |old(ba.blocks)|
  {
    Varints.EncodeFits(v, width);
    var tmp, n := Groupwise(v, Varints.Groups(width));
    ok := WriteBytes(ba, tmp[..n]);
  }

  /** The loop that cuts `v` into groups of seven bits. */
  method Groupwise(v: nat, room: nat) returns (tmp: array<byte>, i: nat)
    requires |Varints.Encode(v)| <= room
    ensures fresh(tmp) && i <= tmp.Length == room && tmp[..i] == Varints.Encode(v)
  {
    tmp := new byte[room];
    i := 0;
    var value: nat := v;
    while value >= 0x80
      invariant i + |Varints.Encode(value)| <= room && tmp[..i] + Varints.Encode(value) == Varints.Encode(v)
      decreases value
    {
      Varints.GroupBits(value);
      tmp[i] := Or(And(value, 0x7F), 0x80);
      i := i + 1;
      value := Shr(value, 7);
    }
    tmp[i] := value;
    i := i + 1;
  }

  /** `writeStringVint`. */
  method WriteString(ba: ByteArray, s: seq<byte>) returns (ok: bool)
    requires ba.Valid() && Sound(ba.View())
    modifies ba, ba.Nodes
    ensures fresh(ba.Nodes - old(ba.Nodes)) && old(ba.Nodes) <= ba.Nodes
    ensures LENGTH + |s| <= Free(old(ba.View())) ==> ok && |ba.blocks| == |old(ba.blocks)|
    ensures ok ==> ba.Valid() && Wrote(old(ba.View()), ba.View(), StringBytes(s))
  {
    ghost var b0 := ba.View();
    ok := WriteFixed(ba, |s|, LENGTH);
    if !ok {
      return;
    }
    ghost var b1 := ba.View();
    ok := WriteBytes(ba, s);
    if ok { WroteTwice(b0, b1, ba.View(), BigBytes(|s|, LENGTH), s); }
  }
}
