/** Sending and receiving Rock messages: the in-place code, over any way the transport splits the bytes. */
module RockCodec {
  import opened Basics
  import opened Bits
  import opened Blocks
  import opened Buffers
  import opened ByteArrays
  import opened Fields
  import opened Streams
  import opened Rock
  import Varints

  // ---------------------------------------------------------------- writing the fields

  /** `b` is `b0` with `done` written; no block was added if it fitted. */
  ghost predicate Filled(b0: Buf, b: Buf, done: seq<byte>) {
    Sound(b0) && Wrote(b0, b, done) && (|done| <= Free(b0) ==> |b.blocks| == |b0.blocks|)
  }

  lemma FilledMore(b0: Buf, b1: Buf, b2: Buf, x: seq<byte>, y: seq<byte>)
    requires Filled(b0, b1, x) && Wrote(b1, b2, y) && (|y| <= Free(b1) ==> |b2.blocks| == |b1.blocks|)
    ensures Filled(b0, b2, x + y)
  {
    WroteTwice(b0, b1, b2, x, y);
  }

  method PutU32(ba: ByteArray, v: u32, ghost b0: Buf, ghost done: seq<byte>) returns (ok: bool)
    requires ba.Valid() && Filled(b0, ba.View(), done)
    modifies ba, ba.Nodes
    ensures fresh(ba.Nodes - old(ba.Nodes)) && old(ba.Nodes) <= ba.Nodes
    ensures |done + Varints.Encode(v)| <= Free(b0) ==> ok
    ensures ok ==> ba.Valid() && Filled(b0, ba.View(), done + Varints.Encode(v))
  {
    Width32();
    ghost var b1 := ba.View();
    ok := WriteUint(ba, v, 32);
    if ok { FilledMore(b0, b1, ba.View(), done, Varints.Encode(v)); }
  }

  method PutString(ba: ByteArray, s: seq<byte>, ghost b0: Buf, ghost done: seq<byte>) returns (ok: bool)
    requires ba.Valid() && Filled(b0, ba.View(), done)
    modifies ba, ba.Nodes
    ensures fresh(ba.Nodes - old(ba.Nodes)) && old(ba.Nodes) <= ba.Nodes
    ensures |done + StringBytes(s)| <= Free(b0) ==> ok
    ensures ok ==> ba.Valid() && Filled(b0, ba.View(), done + StringBytes(s))
  {
    ghost var b1 := ba.View();
    ok := WriteString(ba, s);
    if ok { FilledMore(b0, b1, ba.View(), done, StringBytes(s)); }
  }

  method PutType(ba: ByteArray, t: byte) returns (ok: bool)
    requires ba.Valid() && Sound(ba.View())
    modifies ba, ba.Nodes
    ensures fresh(ba.Nodes - old(ba.Nodes)) && old(ba.Nodes) <= ba.Nodes
    ensures 1 <= Free(old(ba.View())) ==> ok
    ensures ok ==> ba.Valid() && Filled(old(ba.View()), ba.View(), [t])
  {
    ok := WriteBytes(ba, [t]);
  }

  /** `Request` and `RockBody`. */
  method PutRequest(ba: ByteArray, sn: u32, cmd: u32, body: seq<byte>, ghost b0: Buf, ghost done: seq<byte>)
      returns (ok: bool)
    requires ba.Valid() && Filled(b0, ba.View(), done)
    modifies ba, ba.Nodes
    ensures fresh(ba.Nodes - old(ba.Nodes)) && old(ba.Nodes) <= ba.Nodes
    ensures |done + RequestBytes(sn, cmd, body)| <= Free(b0) ==> ok
    ensures ok ==> ba.Valid() && Filled(b0, ba.View(), done + RequestBytes(sn, cmd, body))
  {
    ghost var e1, e2, e3 := Varints.Encode(sn), Varints.Encode(cmd), StringBytes(body);
    Assoc4(done, e1, e2, e3);
    ok := PutU32(ba, sn, b0, done);
    if !ok { return; }
    ok := PutU32(ba, cmd, b0, done + e1);
    if !ok { return; }
    ok := PutString(ba, body, b0, done + e1 + e2);
  }

  method PutNotify(ba: ByteArray, notify: u32, body: seq<byte>, ghost b0: Buf, ghost done: seq<byte>) returns (ok: bool)
    requires ba.Valid() && Filled(b0, ba.View(), done)
    modifies ba, ba.Nodes
    ensures fresh(ba.Nodes - old(ba.Nodes)) && old(ba.Nodes) <= ba.Nodes
    ensures |done + NotifyBytes(notify, body)| <= Free(b0) ==> ok
    ensures ok ==> ba.Valid() && Filled(b0, ba.View(), done + NotifyBytes(notify, body))
  {
    ghost var e1, e2 := Varints.Encode(notify), StringBytes(body);
    Assoc3(done, e1, e2);
    ok := PutU32(ba, notify, b0, done);
    if !ok { return; }
    ok := PutString(ba, body, b0, done + e1);
  }

  /** The result string and the body of a `Response`. */
  method PutStrings(ba: ByteArray, text: seq<byte>, body: seq<byte>, ghost b0: Buf, ghost done: seq<byte>)
      returns (ok: bool)
    requires ba.Valid() && Filled(b0, ba.View(), done)
    modifies ba, ba.Nodes
    ensures fresh(ba.Nodes - old(ba.Nodes)) && old(ba.Nodes) <= ba.Nodes
    ensures |done + (StringBytes(text) + StringBytes(body))| <= Free(b0) ==> ok
    ensures ok ==> ba.Valid() && Filled(b0, ba.View(), done + (StringBytes(text) + StringBytes(body)))
  {
    Assoc3(done, StringBytes(text), StringBytes(body));
    ok := PutString(ba, text, b0, done);
    if !ok { return; }
    ok := PutString(ba, body, b0, done + StringBytes(text));
  }

  method PutResponse(ba: ByteArray, sn: u32, cmd: u32, result: u32, text: seq<byte>, body: seq<byte>,
                     ghost b0: Buf, ghost done: seq<byte>)
      returns (ok: bool)
    requires ba.Valid() && Filled(b0, ba.View(), done)
    modifies ba, ba.Nodes
    ensures fresh(ba.Nodes - old(ba.Nodes)) && old(ba.Nodes) <= ba.Nodes
    ensures |done + ResponseBytes(sn, cmd, result, text, body)| <= Free(b0) ==> ok
    ensures ok ==> ba.Valid() && Filled(b0, ba.View(), done + ResponseBytes(sn, cmd, result, text, body))
  {
    ghost var e1, e2, e3 := Varints.Encode(sn), Varints.Encode(cmd), Varints.Encode(result);
    ghost var tail := StringBytes(text) + StringBytes(body);
    Assoc4(done, e1, e2, e3 + tail);
    Assoc3(done + e1 + e2, e3, tail);
    ok := PutU32(ba, sn, b0, done);
    if !ok { return; }
    ok := PutU32(ba, cmd, b0, done + e1);
    if !ok { return; }
    ok := PutU32(ba, result, b0, done + e1 + e2);
    if !ok { return; }
    ok := PutStrings(ba, text, body, b0, done + e1 + e2 + e3);
  }

  lemma Assoc3(x: seq<byte>, y: seq<byte>, z: seq<byte>)
    ensures x + y + z == x + (y + z)
  {
  }

  lemma Assoc4(w: seq<byte>, x: seq<byte>, y: seq<byte>, z: seq<byte>)
    ensures w + x + y + z == w + (x + (y + z))
  {
  }

  /** `toByteArray`: the payload in a new byte array; false when a write finds no room. */
  method ToByteArray(m: Message) returns (ba: ByteArray, ok: bool)
    ensures fresh(ba) && fresh(ba.Nodes)
    ensures |Payload(m)| <= BLOCK ==> ok
    ensures ok ==> ba.Valid() && Sound(ba.View()) && ba.base == BLOCK && Stored(ba.View()) == Payload(m)
    ensures ok && |Payload(m)| <= BLOCK ==> |ba.blocks| == 1
  {
    ba := new ByteArray(BLOCK);
    ghost var b0 := ba.View();
    NewIsSound(b0);
    ok := PutType(ba, TypeByte(m));
    if !ok { return; }
    match m {
      case Request(sn, cmd, body) => ok := PutRequest(ba, sn, cmd, body, b0, [TypeByte(m)]);
      case Response(sn, cmd, result, text, body) =>
        ok := PutResponse(ba, sn, cmd, result, text, body, b0, [TypeByte(m)]);
      case Notify(notify, body) => ok := PutNotify(ba, notify, body, b0, [TypeByte(m)]);
    }
    if ok { FilledNew(b0, ba.View(), Payload(m)); }
  }

  lemma NewIsSound(b: Buf)
    requires exists block: Block :: |block| == BLOCK && b == NewBuf(BLOCK, block)
    ensures Sound(b) && Free(b) == BLOCK && Stored(b) == [] && |b.blocks| == 1
  {
    assert Times(1, BLOCK) == BLOCK && Times(0, BLOCK) == 0;
  }

  lemma FilledNew(b0: Buf, b: Buf, s: seq<byte>)
    requires Sound(b0) && Wrote(b0, b, s) && b0.position == 0 && b0.size == 0
    ensures Sound(b) && Stored(b) == s
  {
    assert Stored(b0) == [] && Overwrite([], 0, s) == s;
  }

  // ---------------------------------------------------------------- sending

  /** What `serializeTo` comes to: bytes sent, an error, an access outside of its buffers, a transfer loop
      without end, or the compressed path. */
  datatype SendResult = Sent(rc: nat) | SendError | SendCrash | SendHangs | SendCompressed

  /** `serializeTo`. When it succeeds, the frame of the message went out if and only if no transfer failed; over
      a transport that does not fail every uncompressed message is sent. On a closed connection it does not
      end. */
  method SerializeTo(stream: Stream, m: Message) returns (r: SendResult)
    modifies stream`outgoing, stream`failures
    ensures stream.failures <= old(stream.failures)
    ensures r.Sent? ==>
              && r.rc == |Frame(m)|
              && (stream.failures == old(stream.failures) <==> stream.outgoing == old(stream.outgoing) + Frame(m))
    ensures Small(m) && stream.reliable && stream.connected ==>
              r == Sent(|Frame(m)|) && stream.failures == old(stream.failures)
    ensures Small(m) ==> (r == SendHangs <==> !stream.connected) && r != SendCompressed
    ensures Small(m) && r == SendCrash ==> stream.failures < old(stream.failures)
    ensures |Payload(m)| == GZIP_MIN ==> r == SendCompressed
  {
    var ba, ok := ToByteArray(m);
    if !ok {
      return SendCrash;
    }
    ghost var b := ba.View();
    RewoundReadable(b);
    ok := ba.SetPosition(0);
    if ba.size >= GZIP_MIN {
      return SendCompressed;
    }
    r := SendFrame(stream, ba, Payload(m));
  }

  /** The header with the swapped length, then the whole byte array. */
  method SendFrame(stream: Stream, ba: ByteArray, ghost payload: seq<byte>) returns (r: SendResult)
    requires ba.Valid() && Sound(ba.View()) && ba.position == 0 && stream !in ba.Nodes
    requires Readable(ba.View()) == payload && payload != []
    modifies stream`outgoing, stream`failures, ba`cur, ba`at, ba`position, ba`size
    ensures stream.failures <= old(stream.failures) && r != SendCompressed
    ensures r.Sent? ==> r.rc == 8 + |payload|
    ensures r.Sent? ==> (stream.failures == old(stream.failures)
                         <==> stream.outgoing == old(stream.outgoing) + (Header(|payload|) + payload))
    ensures stream.reliable && stream.connected ==> r == Sent(8 + |payload|) && stream.failures == old(stream.failures)
    ensures r == SendHangs <==> !stream.connected
    ensures r == SendCrash ==> stream.failures < old(stream.failures)
  {
    ghost var out := stream.outgoing;
    var length := ba.size;
    var header := [0xab, 0xcd, 1, 0] + LittleBytes(Swap(length, 4), 4);
    SwapStoresBig(length, 4);
    var rc, end := stream.WriteFixSize(header);
    if end == LeavesBuffer {
      return SendCrash;
    }
    if end == Spins {
      return SendHangs;
    }
    if rc <= 0 {
      return SendError;
    }
    ghost var n, mid, f := 0, stream.outgoing, stream.failures;
    rc, n := stream.WriteFixFrom(ba, ba.size - ba.position);
    if rc <= 0 {
      return SendError;
    }
    assert payload[..length] == payload;
    DeliveredTwice(out, mid, stream.outgoing, old(stream.failures), f, stream.failures, header, payload);
    return Sent(8 + ba.size);
  }

  lemma RewoundReadable(b: Buf)
    requires Sound(b)
    ensures var r := SetPos(b, 0).value; Sound(r) && r.position == 0 && r.size == b.size && Readable(r) == Stored(b)
  {
    SetPosSyncs(b, 0);
  }

  // ---------------------------------------------------------------- receiving

  method GetU32(ba: ByteArray) returns (r: Outcome<u32>)
    requires ba.Valid()
    modifies ba`cur, ba`at, ba`position
    ensures r == ReadU32(old(ba.View())).out
    ensures r != Fault ==> ba.Valid() && ba.View() == ReadU32(old(ba.View())).buf
  {
    Width32();
    var v := ReadUint(ba, 32);
    match v
    case Got(n) => return Got(n);
    case OutOfRange => return OutOfRange;
    case Fault => return Fault;
  }

  /** Why a read failed, as the caller sees it. */
  function Failed<T>(out: Outcome<T>): Parsed
    requires !out.Got?
  {
    if out.Fault? then Crashed else Rejected
  }

  method GetRequest(ba: ByteArray) returns (r: Parsed)
    requires ba.Valid()
    modifies ba`cur, ba`at, ba`position
    ensures r == Verdict(ParseRequest(old(ba.View())).out)
  {
    var sn := GetU32(ba);
    if !sn.Got? { return Failed(sn); }
    var cmd := GetU32(ba);
    if !cmd.Got? { return Failed(cmd); }
    var body := ReadString(ba);
    if !body.Got? { return Failed(body); }
    return Parsed(Request(sn.value, cmd.value, body.value));
  }

  method GetResponse(ba: ByteArray) returns (r: Parsed)
    requires ba.Valid()
    modifies ba`cur, ba`at, ba`position
    ensures r == Verdict(ParseResponse(old(ba.View())).out)
  {
    var sn := GetU32(ba);
    if !sn.Got? { return Failed(sn); }
    var cmd := GetU32(ba);
    if !cmd.Got? { return Failed(cmd); }
    var result := GetU32(ba);
    if !result.Got? { return Failed(result); }
    var text := ReadString(ba);
    if !text.Got? { return Failed(text); }
    var body := ReadString(ba);
    if !body.Got? { return Failed(body); }
    return Parsed(Response(sn.value, cmd.value, result.value, text.value, body.value));
  }

  method GetNotify(ba: ByteArray) returns (r: Parsed)
    requires ba.Valid()
    modifies ba`cur, ba`at, ba`position
    ensures r == Verdict(ParseNotify(old(ba.View())).out)
  {
    var notify := GetU32(ba);
    if !notify.Got? { return Failed(notify); }
    var body := ReadString(ba);
    if !body.Got? { return Failed(body); }
    return Parsed(Notify(notify.value, body.value));
  }

  method GetMessage(ba: ByteArray) returns (r: Parsed)
    requires ba.Valid()
    modifies ba`cur, ba`at, ba`position
    ensures r == ParsePayload(old(ba.View()))
  {
    var kind := ba.ReadBytes(1);
    if !kind.Got? { return Failed(kind); }
    if kind.value[0] == 1 {
      r := GetRequest(ba);
    } else if kind.value[0] == 2 {
      r := GetResponse(ba);
    } else if kind.value[0] == 3 {
      r := GetNotify(ba);
    } else {
      r := Rejected;
    }
  }

  /** The checks on the first eight bytes. */
  predicate HeaderOk(h: seq<byte>)
    requires |h| == 8
  {
    h[0] == 0xab && h[1] == 0xcd && h[2] == 1 && FromBig(h[4..8]) < MAX_LENGTH
  }

  /** A byte array that holds exactly `payload`, with the position at its beginning. */
  ghost predicate Holds(b: Buf, payload: seq<byte>) {
    && Sound(b) && b.base == BLOCK && b.position == 0 && Stored(b) == payload
    && (|payload| <= BLOCK ==> |b.blocks| == 1)
  }

  /** The payload of a frame in a new byte array; a fault when the growth formula leaves no room for it. */
  method ReceivePayload(stream: Stream, length: nat) returns (ba: ByteArray, rc: int, fault: bool)
    modifies stream`incoming
    ensures fresh(ba) && fresh(ba.Nodes)
    ensures (fault <==> stream.connected && !Fits(length)) && (rc > 0 ==> stream.connected)
    ensures !fault && rc > 0 ==>
              && 0 < length <= |old(stream.incoming)| && stream.incoming == old(stream.incoming)[length..]
              && ba.Valid() && Holds(ba.View(), old(stream.incoming)[..length])
    ensures stream.reliable && stream.connected && !fault ==> (rc > 0 <==> 0 < length <= |old(stream.incoming)|)
  {
    ba := new ByteArray(BLOCK);
    ghost var b0 := ba.View();
    NewIsSound(b0);
    RoomFor(length);
    rc, fault := stream.ReadFixInto(ba, length);
    if !fault && rc > 0 {
      HoldsNew(b0, ba.View(), old(stream.incoming)[..length]);
      var ok := ba.SetPosition(0);
    }
  }

  lemma HoldsNew(b0: Buf, b: Buf, s: seq<byte>)
    requires Sound(b0) && Wrote(b0, b, s) && b0.position == 0 && b0.size == 0 && b0.base == BLOCK
    requires |s| <= BLOCK ==> |b.blocks| == 1
    ensures Holds(SetPos(b, 0).value, s)
  {
    FilledNew(b0, b, s);
    RewoundReadable(b);
  }

  function LengthOf(h: seq<byte>): nat
    requires |h| >= 8
  {
    FromBig(h[4..8])
  }

  /** Room in a new byte array: up to one block, or a whole number of blocks. */
  predicate Fits(n: nat) { n <= BLOCK || n % BLOCK == 0 }

  /** What the bytes to come mean to `parseFrom`; absent for a frame of several whole blocks. */
  function FrameVerdict(all: seq<byte>): Option<Parsed> {
    if |all| < 8 || !HeaderOk(all[..8]) then Some(Rejected)
    else
      var n := LengthOf(all);
      if !Fits(n) then Some(Crashed)
      else if n == 0 || 8 + n > |all| then Some(Rejected)
      else if all[3] % 2 == 1 then Some(Compressed)
      else if n > BLOCK then None
      else Some(PlainPayload(all[8..8 + n], n == BLOCK))
  }

  /** The state after a frame whose payload was received whole into `b`. */
  ghost predicate TookFrame(all: seq<byte>, left: seq<byte>, b: Buf) {
    && |all| >= 8 && HeaderOk(all[..8]) && Fits(LengthOf(all)) && 0 < LengthOf(all) && 8 + LengthOf(all) <= |all|
    && left == all[8 + LengthOf(all)..] && Holds(b, all[8..8 + LengthOf(all)])
  }

  /** `parseFrom`. Over a transport that does not fail it gives the verdict on the bytes to come; over any other
      it gives that verdict or rejects. `b` is the byte array as it was handed to the message parser, when
      that happened. */
  method ParseFrom(stream: Stream) returns (r: Parsed, ghost b: Option<Buf>)
    modifies stream`incoming
    ensures b.Some? ==>
              && TookFrame(old(stream.incoming), stream.incoming, b.value)
              && r == if old(stream.incoming)[3] % 2 == 1 then Compressed else ParsePayload(b.value)
    ensures b.None? ==> r == Rejected || (r == Crashed && FrameVerdict(old(stream.incoming)) == Some(Crashed))
    ensures FrameVerdict(old(stream.incoming)).Some? ==>
              && (r == FrameVerdict(old(stream.incoming)).value || r == Rejected)
              && (stream.reliable && stream.connected ==> r == FrameVerdict(old(stream.incoming)).value)
    ensures stream.reliable && stream.connected && FrameVerdict(old(stream.incoming)).None? ==> b.Some?
  {
    ghost var all := stream.incoming;
    var length, zip := ReadHeader(stream);
    if length.None? {
      return Rejected, None;
    }
    var n := length.value;
    var ba, rc, fault := ReceivePayload(stream, n);
    if fault {
      return Crashed, None;
    }
    if rc <= 0 {
      return Rejected, None;
    }
    assert all[8..][..n] == all[8..8 + n] && all[8..][n..] == all[8 + n..];
    b := Some(ba.View());
    HeldIsPlain(ba.View(), all[8..8 + n]);
    if zip {
      return Compressed, b;
    }
    r := GetMessage(ba);
  }

  /** The header and its checks: the payload length, unless the header is missing or wrong, and whether the
      payload is compressed. */
  method ReadHeader(stream: Stream) returns (length: Option<nat>, zip: bool)
    modifies stream`incoming
    ensures length.Some? ==>
              var all := old(stream.incoming);
              && |all| >= 8 && HeaderOk(all[..8]) && length.value == LengthOf(all) && zip == (all[3] % 2 == 1)
              && stream.incoming == all[8..]
    ensures stream.reliable && stream.connected ==>
              (length.Some? <==> |old(stream.incoming)| >= 8 && HeaderOk(old(stream.incoming)[..8]))
  {
    ghost var all := stream.incoming;
    var header, rc := stream.ReadFixSize(8);
    if rc <= 0 {
      return None, false;
    }
    assert header[4..8] == all[4..8];
    if header[0] != 0xab || header[1] != 0xcd || header[2] != 1 {
      return None, false;
    }
    SwapLoadsBig(header[4..8]);
    var n := FromLittle(Backwards(header[4..8]));
    if n >= MAX_LENGTH {
      return None, false;
    }
    return Some(n), header[3] % 2 == 1;
  }

  /** A payload of at most one block is parsed as plain bytes. */
  lemma HeldIsPlain(b: Buf, s: seq<byte>)
    requires Holds(b, s)
    ensures |s| <= BLOCK ==> ParsePayload(b) == PlainPayload(s, |s| == BLOCK)
  {
    if |s| <= BLOCK {
      assert Times(1, BLOCK) == BLOCK;
      PayloadIsPlain(b, s, |s| == BLOCK);
    }
  }

  // ---------------------------------------------------------------- the round trip

  /** The frame of a message of at most one block is accepted, whatever follows, and gives the message back,
      unless its payload fills the block and ends in an empty string: then the parser crashes. */
  lemma FrameRoundTrip(m: Message, rest: seq<byte>)
    requires |Payload(m)| <= BLOCK
    ensures FrameVerdict(Frame(m) + rest) ==
              Some(if |Payload(m)| == BLOCK && m.body == [] then Crashed else Parsed(m))
    ensures |Frame(m)| == 8 + |Payload(m)| && LengthOf(Frame(m) + rest) == |Payload(m)|
  {
    HeaderBack(|Payload(m)|);
    VerdictOn(Header(|Payload(m)|), Payload(m), rest);
    PayloadBack(m);
  }

  lemma PayloadBack(m: Message)
    requires |Payload(m)| <= BLOCK
    ensures PlainPayload(Payload(m), |Payload(m)| == BLOCK)
            == if |Payload(m)| == BLOCK && m.body == [] then Crashed else Parsed(m)
  {
    Width32();
    Pow2Mono(32, 64);
    assert Payload(m) + [] == Payload(m);
    PlainRoundTrip(m, [], |Payload(m)| == BLOCK);
  }

  lemma VerdictOn(h: seq<byte>, x: seq<byte>, rest: seq<byte>)
    requires |h| == 8 && HeaderOk(h) && LengthOf(h) == |x| && h[3] == 0 && 0 < |x| <= BLOCK
    ensures FrameVerdict(h + x + rest) == Some(PlainPayload(x, |x| == BLOCK)) && LengthOf(h + x + rest) == |x|
  {
    Framed(h, x, rest);
  }

  lemma HeaderBack(n: nat)
    requires n <= BLOCK
    ensures HeaderOk(Header(n)) && LengthOf(Header(n)) == n && Header(n)[3] == 0
  {
    assert Header(n)[4..8] == BigBytes(n, 4);
    Width32();
    FixedRoundTrip(n, 4);
  }

  lemma Framed(h: seq<byte>, x: seq<byte>, rest: seq<byte>)
    requires |h| == 8
    ensures var s := h + x + rest;
            s[..8] == h && s[4..8] == h[4..8] && s[3] == h[3] && s[8..8 + |x|] == x && s[8 + |x|..] == rest
  {
  }

  /** Responses that fill their block and have no body: their frames crash the receiver. */
  lemma CrashingFrame(v: u32, text: seq<byte>)
    requires v < 128 && |text| == 4076
    ensures var m := Response(v, v, v, text, []);
            |Payload(m)| == BLOCK && FrameVerdict(Frame(m)) == Some(Crashed)
  {
    var m := Response(v, v, v, text, []);
    assert Varints.Encode(v) == [v];
    assert Frame(m) + [] == Frame(m);
    FrameRoundTrip(m, []);
  }

  /** An incoming frame of one block at most crashes the parser only if its payload fills the block. */
  lemma OnlyFullBlocksCrash(all: seq<byte>)
    requires FrameVerdict(all) == Some(Crashed)
    ensures |all| >= 8 && LengthOf(all) >= BLOCK && (LengthOf(all) == BLOCK || LengthOf(all) % BLOCK != 0)
  {
    var n := LengthOf(all);
    if Fits(n) && n < BLOCK { NoFault(all[8], all[8..8 + n][1..]); }
  }

  /** Rock round trip: whatever was sent before and follows, and however both transports split the bytes,
      `parseFrom` rebuilds the message `serializeTo` was given and takes exactly its frame off the stream. */
  method SendAndReceive(out: Stream, m: Message, rest: seq<byte>) returns (r: Parsed, left: seq<byte>)
    requires Small(m) && out.reliable && out.connected
    modifies out`outgoing, out`failures
    ensures r == Parsed(m) && left == rest
  {
    var before := |out.outgoing|;
    var sent := SerializeTo(out, m);
    assert out.outgoing[before..] == Frame(m);
    var peer := new Stream(true, out.outgoing[before..] + rest);
    FrameRoundTrip(m, rest);
    ghost var b;
    r, b := ParseFrom(peer);
    assert (Frame(m) + rest)[|Frame(m)|..] == rest;
    left := peer.incoming;
  }

  /** In a new byte array the growth formula makes room for more than one block only if the length is a
      multiple of the block size. */
  lemma RoomFor(n: nat)
    ensures Room(BLOCK, BLOCK, n) <==> Fits(n)
  {
    if n > BLOCK {
      IsDivMod(n - BLOCK, BLOCK);
      assert (n - BLOCK) % BLOCK == n % BLOCK;
    }
  }
}
