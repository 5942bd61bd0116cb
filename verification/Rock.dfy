/** Rock messages: their fields in a byte array, and the frames that carry them over a stream. */
module Rock {
  import opened Basics
  import opened Bits
  import opened Blocks
  import opened Buffers
  import opened ByteArrays
  import opened Fields
  import opened Streams
  import Varints

  type u32 = x: int | 0 <= x < 0x1_0000_0000

  datatype Message =
    | Request(sn: u32, cmd: u32, body: seq<byte>)
    | Response(sn: u32, cmd: u32, result: u32, resultStr: seq<byte>, body: seq<byte>)
    | Notify(notify: u32, body: seq<byte>)

  const BLOCK := 4096
  const GZIP_MIN := 4096
  const MAX_LENGTH := 64 * 1024 * 1024

  // ---------------------------------------------------------------- the format

  function TypeByte(m: Message): byte {
    match m
    case Request(_, _, _) => 1
    case Response(_, _, _, _, _) => 2
    case Notify(_, _) => 3
  }

  function RequestBytes(sn: u32, cmd: u32, body: seq<byte>): seq<byte> {
    Varints.Encode(sn) + (Varints.Encode(cmd) + StringBytes(body))
  }

  function ResponseBytes(sn: u32, cmd: u32, result: u32, text: seq<byte>, body: seq<byte>): seq<byte> {
    Varints.Encode(sn) + (Varints.Encode(cmd) + (Varints.Encode(result) + (StringBytes(text) + StringBytes(body))))
  }

  function NotifyBytes(notify: u32, body: seq<byte>): seq<byte> { Varints.Encode(notify) + StringBytes(body) }

  function FieldBytes(m: Message): seq<byte> {
    match m
    case Request(sn, cmd, body) => RequestBytes(sn, cmd, body)
    case Response(sn, cmd, result, text, body) => ResponseBytes(sn, cmd, result, text, body)
    case Notify(notify, body) => NotifyBytes(notify, body)
  }

  /** The type, the integers with variable length, then the strings with a fixed 64-bit length. */
  function Payload(m: Message): seq<byte> { [TypeByte(m)] + FieldBytes(m) }

  function Header(length: nat): (h: seq<byte>)
    ensures |h| == 8
  {
    [0xab, 0xcd, 1, 0] + BigBytes(length, 4)
  }

  function Frame(m: Message): seq<byte> { Header(|Payload(m)|) + Payload(m) }

  /** Messages that are sent uncompressed. */
  predicate Small(m: Message) { |Payload(m)| < GZIP_MIN }

  // ---------------------------------------------------------------- parsing, on values

  function ReadU32(b: Buf): (r: Read<u32>)
    requires Formed(b)
    ensures Formed(r.buf)
  {
    Width32();
    var (v, b1) :- ReadUintBuf(b, 32, 0, 0);
    Read(Got(v), b1)
  }

  /** The serial number and the command, as requests and responses begin. */
  datatype Ids = Ids(sn: u32, cmd: u32)

  function ReadIds(b: Buf): (r: Read<Ids>)
    requires Formed(b)
    ensures Formed(r.buf)
  {
    var (sn, b1) :- ReadU32(b);
    var (cmd, b2) :- ReadU32(b1);
    Read(Got(Ids(sn, cmd)), b2)
  }

  function ParseRequest(b: Buf): (r: Read<Message>)
    requires Formed(b)
    ensures Formed(r.buf)
  {
    var (ids, b1) :- ReadIds(b);
    var (body, b2) :- ReadStringBuf(b1);
    Read(Got(Request(ids.sn, ids.cmd, body)), b2)
  }

  function ParseResponse(b: Buf): (r: Read<Message>)
    requires Formed(b)
    ensures Formed(r.buf)
  {
    var (ids, b1) :- ReadIds(b);
    var (result, b2) :- ReadU32(b1);
    var (text, b3) :- ReadStringBuf(b2);
    var (body, b4) :- ReadStringBuf(b3);
    Read(Got(Response(ids.sn, ids.cmd, result, text, body)), b4)
  }

  function ParseNotify(b: Buf): (r: Read<Message>)
    requires Formed(b)
    ensures Formed(r.buf)
  {
    var (notify, b1) :- ReadU32(b);
    var (body, b2) :- ReadStringBuf(b1);
    Read(Got(Notify(notify, body)), b2)
  }

  datatype Parsed = Parsed(msg: Message) | Rejected | Crashed | Compressed

  function Verdict(out: Outcome<Message>): Parsed {
    match out
    case Got(m) => Parsed(m)
    case OutOfRange => Rejected
    case Fault => Crashed
  }

  function ParseFields(t: byte, b: Buf): Parsed
    requires Formed(b)
  {
    if t == 1 then Verdict(ParseRequest(b).out)
    else if t == 2 then Verdict(ParseResponse(b).out)
    else if t == 3 then Verdict(ParseNotify(b).out)
    else Rejected
  }

  /** What becomes of a received payload that is not compressed: exceptions are caught, an unknown type is
      rejected. */
  function ParsePayload(b: Buf): Parsed
    requires Formed(b)
  {
    ReadFormed(b, 1);
    var r := ReadBuf(b, 1);
    match r.out
    case OutOfRange => Rejected
    case Fault => Crashed
    case Got(s) => ParseFields(s[0], r.buf)
  }

  lemma Width32()
    ensures Pow2(32) == 0x1_0000_0000
  {
    EightBits(0);
    EightBits(8);
    EightBits(16);
    EightBits(24);
  }

  // ---------------------------------------------------------------- parsing, on plain bytes

  /** The outcome of a read from a sequence of bytes and what is left of it. */
  datatype Piece<+T> = Piece(out: Outcome<T>, rest: seq<byte>) {
    predicate IsFailure() { !out.Got? }

    function PropagateFailure<U>(): (r: Piece<U>)
      requires IsFailure()
      ensures r.IsFailure() && r.out.Fault? == out.Fault?
    {
      Piece(if out.Fault? then Fault else OutOfRange, rest)
    }

    function Extract(): (T, seq<byte>)
      requires !IsFailure()
    {
      (out.value, rest)
    }
  }

  function PlainU32(s: seq<byte>): Piece<u32> {
    Width32();
    Varints.DecodeBound(32, 0, 0, s);
    var d := Varints.Decode(32, 0, 0, s);
    if d.None? then Piece(OutOfRange, s) else Piece(Got(d.value.value), s[d.value.used..])
  }

  /** A string; `full` tells that the bytes fill their block, so that behind the last one the cursor is null. */
  function PlainString(s: seq<byte>, full: bool): Piece<seq<byte>> {
    if |s| < LENGTH then Piece(OutOfRange, s)
    else
      var len, rest := FromBig(s[..LENGTH]), s[LENGTH..];
      if len > |rest| then Piece(OutOfRange, rest)
      else if full && rest == [] then Piece(Fault, rest)
      else Piece(Got(rest[..len]), rest[len..])
  }

  function PlainIds(s: seq<byte>): Piece<Ids> {
    var (sn, s1) :- PlainU32(s);
    var (cmd, s2) :- PlainU32(s1);
    Piece(Got(Ids(sn, cmd)), s2)
  }

  function PlainRequest(s: seq<byte>, full: bool): Piece<Message> {
    var (ids, s1) :- PlainIds(s);
    var (body, s2) :- PlainString(s1, full);
    Piece(Got(Request(ids.sn, ids.cmd, body)), s2)
  }

  function PlainResponse(s: seq<byte>, full: bool): Piece<Message> {
    var (ids, s1) :- PlainIds(s);
    var (result, s2) :- PlainU32(s1);
    var (text, s3) :- PlainString(s2, full);
    var (body, s4) :- PlainString(s3, full);
    Piece(Got(Response(ids.sn, ids.cmd, result, text, body)), s4)
  }

  function PlainNotify(s: seq<byte>, full: bool): Piece<Message> {
    var (notify, s1) :- PlainU32(s);
    var (body, s2) :- PlainString(s1, full);
    Piece(Got(Notify(notify, body)), s2)
  }

  function PlainFields(t: byte, s: seq<byte>, full: bool): Parsed {
    if t == 1 then Verdict(PlainRequest(s, full).out)
    else if t == 2 then Verdict(PlainResponse(s, full).out)
    else if t == 3 then Verdict(PlainNotify(s, full).out)
    else Rejected
  }

  /** What becomes of a payload within one block, as a function of its bytes. */
  function PlainPayload(s: seq<byte>, full: bool): Parsed {
    if s == [] then Rejected else PlainFields(s[0], s[1..], full)
  }

  // ---------------------------------------------------------------- one block is plain bytes

  /** The buffer is one block, filled or not, and `s` is what is left to read. */
  predicate Sees(b: Buf, s: seq<byte>, full: bool) {
    OneBlock(b) && b.size <= Capacity(b) && Readable(b) == s && full == (b.size == b.base)
  }

  /** The read of a buffer and the read of plain bytes agree. */
  predicate Same<T(==)>(r: Read<T>, p: Piece<T>, full: bool) {
    r.out == p.out && (r.out.Got? ==> Sees(r.buf, p.rest, full))
  }

  lemma SeesMoved(b: Buf, b': Buf, s: seq<byte>, full: bool, n: nat)
    requires Sees(b, s, full) && Moved(b, b', n) && n <= |s|
    ensures Sees(b', s[n..], full)
  {
    MovedReadable(b, b', n);
  }

  lemma SameU32(b: Buf, s: seq<byte>, full: bool)
    requires Sees(b, s, full)
    ensures Same(ReadU32(b), PlainU32(s), full)
  {
    Width32();
    ReadUintDecodes(b, 32, 0, 0);
    Varints.DecodeBound(32, 0, 0, s);
    var d := Varints.Decode(32, 0, 0, s);
    if d.Some? { SeesMoved(b, ReadUintBuf(b, 32, 0, 0).buf, s, full, d.value.used); }
  }

  lemma SameString(b: Buf, s: seq<byte>, full: bool)
    requires Sees(b, s, full)
    ensures Same(ReadStringBuf(b), PlainString(s, full), full)
  {
    ReadInBlock(b, LENGTH);
    if |s| >= LENGTH {
      var b1, len, rest := ReadBuf(b, LENGTH).buf, FromBig(s[..LENGTH]), s[LENGTH..];
      SeesMoved(b, b1, s, full, LENGTH);
      SameRest(b1, rest, full, len);
    }
  }

  lemma SameRest(b: Buf, s: seq<byte>, full: bool, n: nat)
    requires Sees(b, s, full)
    ensures Same(ReadBuf(b, n),
                 if n > |s| then Piece(OutOfRange, s)
                 else if full && s == [] then Piece(Fault, s)
                 else Piece(Got(s[..n]), s[n..]),
                 full)
  {
    ReadInBlock(b, n);
    if n <= |s| && !(full && s == []) { SeesMoved(b, ReadBuf(b, n).buf, s, full, n); }
  }

  lemma SameIds(b: Buf, s: seq<byte>, full: bool)
    requires Sees(b, s, full)
    ensures Same(ReadIds(b), PlainIds(s), full)
  {
    SameU32(b, s, full);
    if ReadU32(b).out.Got? { SameU32(ReadU32(b).buf, PlainU32(s).rest, full); }
  }

  lemma SameRequest(b: Buf, s: seq<byte>, full: bool)
    requires Sees(b, s, full)
    ensures ParseRequest(b).out == PlainRequest(s, full).out
  {
    SameIds(b, s, full);
    if ReadIds(b).out.Got? { SameString(ReadIds(b).buf, PlainIds(s).rest, full); }
  }

  lemma SameTexts(b: Buf, s: seq<byte>, full: bool)
    requires Sees(b, s, full)
    ensures ReadStringBuf(b).out == PlainString(s, full).out
    ensures ReadStringBuf(b).out.Got? ==>
              ReadStringBuf(ReadStringBuf(b).buf).out == PlainString(PlainString(s, full).rest, full).out
  {
    SameString(b, s, full);
    if ReadStringBuf(b).out.Got? { SameString(ReadStringBuf(b).buf, PlainString(s, full).rest, full); }
  }

  lemma SameResponse(b: Buf, s: seq<byte>, full: bool)
    requires Sees(b, s, full)
    ensures ParseResponse(b).out == PlainResponse(s, full).out
  {
    SameIds(b, s, full);
    if ReadIds(b).out.Got? {
      var b1, s1 := ReadIds(b).buf, PlainIds(s).rest;
      SameU32(b1, s1, full);
      if ReadU32(b1).out.Got? { SameTexts(ReadU32(b1).buf, PlainU32(s1).rest, full); }
    }
  }

  lemma SameNotify(b: Buf, s: seq<byte>, full: bool)
    requires Sees(b, s, full)
    ensures ParseNotify(b).out == PlainNotify(s, full).out
  {
    SameU32(b, s, full);
    if ReadU32(b).out.Got? { SameString(ReadU32(b).buf, PlainU32(s).rest, full); }
  }

  lemma FieldsArePlain(t: byte, b: Buf, s: seq<byte>, full: bool)
    requires Sees(b, s, full)
    ensures ParseFields(t, b) == PlainFields(t, s, full)
  {
    if t == 1 {
      SameRequest(b, s, full);
    } else if t == 2 {
      SameResponse(b, s, full);
    } else if t == 3 {
      SameNotify(b, s, full);
    }
  }

  /** Within one block, whatever the bytes, parsing the byte array is parsing the bytes. */
  lemma PayloadIsPlain(b: Buf, s: seq<byte>, full: bool)
    requires Sees(b, s, full)
    ensures ParsePayload(b) == PlainPayload(s, full)
  {
    SameRest(b, s, full, 1);
    if s != [] {
      assert s[..1][0] == s[0];
      FieldsArePlain(s[0], ReadBuf(b, 1).buf, s[1..], full);
    }
  }

  lemma NoFault(t: byte, s: seq<byte>)
    ensures PlainFields(t, s, false) != Crashed
  {
  }

  /** A payload that leaves a byte of its block unused never crashes the parser, whatever its bytes. */
  lemma ShortNeverCrashes(b: Buf)
    requires OneBlock(b) && b.size < b.base
    ensures ParsePayload(b) != Crashed
  {
    OneBlockCursor(b);
    var s := Readable(b);
    PayloadIsPlain(b, s, false);
    if s != [] { NoFault(s[0], s[1..]); }
  }

  // ---------------------------------------------------------------- the round trip

  lemma U32Back(v: u32, rest: seq<byte>)
    ensures PlainU32(Varints.Encode(v) + rest) == Piece(Got(v), rest)
  {
    Width32();
    Varints.VarintRoundTrip(32, v, rest);
  }

  lemma StringOf(h: seq<byte>, t: seq<byte>, rest: seq<byte>, full: bool)
    requires |h| == LENGTH && FromBig(h) == |t|
    ensures PlainString(h + t + rest, full) ==
              if full && t == [] && rest == [] then Piece(Fault, []) else Piece(Got(t), rest)
  {
    var s := h + t + rest;
    assert s[..LENGTH] == h && s[LENGTH..] == t + rest;
  }

  lemma StringBack(t: seq<byte>, rest: seq<byte>, full: bool)
    requires |t| < Pow2(64)
    ensures PlainString(StringBytes(t) + rest, full) ==
              if full && t == [] && rest == [] then Piece(Fault, []) else Piece(Got(t), rest)
  {
    FixedRoundTrip(|t|, LENGTH);
    StringOf(BigBytes(|t|, LENGTH), t, rest, full);
  }

  /** The strings of a message have a 64-bit length. */
  predicate Sized(m: Message) {
    |m.body| < Pow2(64) && (m.Response? ==> |m.resultStr| < Pow2(64))
  }

  lemma RequestBack(sn: u32, cmd: u32, body: seq<byte>, rest: seq<byte>, full: bool)
    requires |body| < Pow2(64)
    ensures PlainRequest(RequestBytes(sn, cmd, body) + rest, full).out ==
              if full && body == [] && rest == [] then Fault else Got(Request(sn, cmd, body))
  {
    var tail := StringBytes(body) + rest;
    assert RequestBytes(sn, cmd, body) + rest == Varints.Encode(sn) + (Varints.Encode(cmd) + tail);
    U32Back(sn, Varints.Encode(cmd) + tail);
    U32Back(cmd, tail);
    StringBack(body, rest, full);
  }

  lemma ResponseBack(sn: u32, cmd: u32, result: u32, text: seq<byte>, body: seq<byte>, rest: seq<byte>, full: bool)
    requires |text| < Pow2(64) && |body| < Pow2(64)
    ensures PlainResponse(ResponseBytes(sn, cmd, result, text, body) + rest, full).out ==
              if full && body == [] && rest == [] then Fault else Got(Response(sn, cmd, result, text, body))
  {
    var e2, e3 := Varints.Encode(cmd), Varints.Encode(result);
    var tail := StringBytes(body) + rest;
    assert ResponseBytes(sn, cmd, result, text, body) + rest
        == Varints.Encode(sn) + (e2 + (e3 + (StringBytes(text) + tail)));
    U32Back(sn, e2 + (e3 + (StringBytes(text) + tail)));
    U32Back(cmd, e3 + (StringBytes(text) + tail));
    U32Back(result, StringBytes(text) + tail);
    StringBack(text, tail, full);
    StringBack(body, rest, full);
  }

  lemma NotifyBack(notify: u32, body: seq<byte>, rest: seq<byte>, full: bool)
    requires |body| < Pow2(64)
    ensures PlainNotify(NotifyBytes(notify, body) + rest, full).out ==
              if full && body == [] && rest == [] then Fault else Got(Notify(notify, body))
  {
    var tail := StringBytes(body) + rest;
    assert NotifyBytes(notify, body) + rest == Varints.Encode(notify) + tail;
    U32Back(notify, tail);
    StringBack(body, rest, full);
  }

  lemma FieldsBack(m: Message, rest: seq<byte>, full: bool)
    requires Sized(m)
    ensures PlainFields(TypeByte(m), FieldBytes(m) + rest, full) ==
              if full && m.body == [] && rest == [] then Crashed else Parsed(m)
  {
    match m
    case Request(sn, cmd, body) => RequestBack(sn, cmd, body, rest, full);
    case Response(sn, cmd, result, text, body) => ResponseBack(sn, cmd, result, text, body, rest, full);
    case Notify(notify, body) => NotifyBack(notify, body, rest, full);
  }

  /** The payload of a message is parsed back to it, whatever follows; the one exception is a payload that
      fills its block and ends in an empty string. */
  lemma PlainRoundTrip(m: Message, rest: seq<byte>, full: bool)
    requires Sized(m)
    ensures PlainPayload(Payload(m) + rest, full) ==
              if full && m.body == [] && rest == [] then Crashed else Parsed(m)
  {
    FirstByte(TypeByte(m), FieldBytes(m), rest);
    FieldsBack(m, rest, full);
  }

  lemma FirstByte(t: byte, x: seq<byte>, rest: seq<byte>)
    ensures ([t] + x + rest)[0] == t && ([t] + x + rest)[1..] == x + rest
  {
  }

  /** A payload held in one block: the message comes back if and only if the payload leaves a byte of the block
      unused or its last string is not empty; otherwise the parser follows the null cursor. */
  lemma PayloadRoundTrip(b: Buf, m: Message, rest: seq<byte>)
    requires Sees(b, Payload(m) + rest, b.size == b.base) && b.base == BLOCK
    ensures ParsePayload(b) == if b.size == BLOCK && m.body == [] && rest == [] then Crashed else Parsed(m)
  {
    Width32();
    Pow2Mono(32, 64);
    assert |Payload(m) + rest| <= BLOCK;
    PayloadIsPlain(b, Payload(m) + rest, b.size == b.base);
    PlainRoundTrip(m, rest, b.size == b.base);
  }
}
