/** The WebSocket session code on a stream: sending a frame, and the receive loop. */
module WsSessions {
  import opened Basics
  import opened Bits
  import opened Fields
  import opened Streams
  import opened WebSocket

  class FrameMessage {
    var opcode: int
    var data: seq<byte>

    constructor (opcode: int, data: seq<byte>)
      ensures this.opcode == opcode && this.data == data
    {
      this.opcode, this.data := opcode, data;
    }
  }

  /** The loop that masks or unmasks byte by byte. */
  method XorLoop(data: seq<byte>, mask: seq<byte>) returns (r: seq<byte>)
    requires |mask| == 4
    ensures r == Masked(data, mask)
  {
    r := data;
    var i := 0;
    while i < |data|
      invariant i <= |data| == |r|
      invariant forall j :: 0 <= j < |r| ==> r[j] == if j < i then XorByte(data[j], mask[j % 4]) else data[j]
    {
      r := r[i := XorByte(r[i], mask[i % 4])];
      i := i + 1;
    }
  }

  /** `WSPing` and `WSPong`. */
  method SendControl(stream: Stream, ping: bool) returns (rc: int, end: WriteEnd)
    modifies stream`outgoing, stream`failures, stream`connected
    ensures rc > 0 ==>
              && end == Returns && stream.connected == old(stream.connected)
              && Delivered(old(stream.outgoing), stream.outgoing, old(stream.failures), stream.failures,
                           ControlHead(ping))
    ensures end == Returns && rc <= 0 ==> !stream.connected
    ensures end == Spins <==> !old(stream.connected)
    ensures end == LeavesBuffer ==> stream.failures < old(stream.failures)
    ensures stream.failures <= old(stream.failures)
    ensures stream.reliable && old(stream.connected) ==>
              end == Returns && rc == 2 && stream.failures == old(stream.failures)
  {
    rc, end := stream.WriteFixSize(ControlHead(ping));
    if end == Returns && rc <= 0 {
      stream.Close();
    }
  }

  /** The mask a client sends, none for a server. */
  function Mask(client: bool, mask: seq<byte>): (m: Option<seq<byte>>)
    requires |mask| == 4
    ensures m.Some? ==> |m.value| == 4
  {
    if client then Some(mask) else None
  }

  /** The head and the extended length. */
  method SendHead(stream: Stream, h: Head, size: nat) returns (ok: bool, end: WriteEnd)
    requires h.rsv < 8 && h.payload == PayloadField(size)
    modifies stream`outgoing, stream`failures
    ensures ok ==> end == Returns
    ensures ok ==> Delivered(old(stream.outgoing), stream.outgoing, old(stream.failures), stream.failures,
                             HeadBytes(h) + LengthBytes(size))
    ensures end == Spins <==> !stream.connected
    ensures end == LeavesBuffer ==> stream.failures < old(stream.failures)
    ensures stream.failures <= old(stream.failures)
    ensures stream.reliable && stream.connected ==> ok && stream.failures == old(stream.failures)
  {
    var rc;
    rc, end := stream.WriteFixSize(HeadBytes(h));
    ok := rc > 0;
    if !ok {
      return;
    }
    if h.payload >= 126 {
      var n := if h.payload == 126 then 2 else 8;
      ghost var mid, f := stream.outgoing, stream.failures;
      SwapStoresBig(size, n);
      rc, end := stream.WriteFixSize(LittleBytes(Swap(size, n), n));
      ok := rc > 0;
      if ok {
        DeliveredTwice(old(stream.outgoing), mid, stream.outgoing, old(stream.failures), f, stream.failures,
                       HeadBytes(h), LengthBytes(size));
      }
    } else {
      assert HeadBytes(h) + LengthBytes(size) == HeadBytes(h);
    }
  }

  /** The mask, if any, and the payload. A client masks the data of the message itself. */
  method SendBody(stream: Stream, msg: FrameMessage, client: bool, mask: seq<byte>) returns (ok: bool, end: WriteEnd)
    requires |mask| == 4 && stream.connected
    modifies stream`outgoing, stream`failures, msg`data
    ensures msg.data == Unmasked(old(msg.data), Mask(client, mask))
    ensures ok ==> old(msg.data) != [] && end == Returns
    ensures ok ==> Delivered(old(stream.outgoing), stream.outgoing, old(stream.failures), stream.failures,
                             MaskBytes(Mask(client, mask)) + msg.data)
    ensures end != Spins
    ensures end == LeavesBuffer ==> stream.failures < old(stream.failures)
    ensures stream.failures <= old(stream.failures)
    ensures stream.reliable ==> end == Returns && (ok <==> old(msg.data) != [])
    ensures stream.reliable ==> stream.failures == old(stream.failures)
  {
    ghost var mid, f := stream.outgoing, stream.failures;
    var rc;
    if client {
      msg.data := XorLoop(msg.data, mask);
      rc, end := stream.WriteFixSize(mask);
      if rc <= 0 {
        return false, end;
      }
      mid, f := stream.outgoing, stream.failures;
    }
    rc, end := stream.WriteFixSize(msg.data);
    ok := rc > 0;
    if ok && client {
      DeliveredTwice(old(stream.outgoing), mid, stream.outgoing, old(stream.failures), f, stream.failures,
                     mask, msg.data);
    }
    assert [] + msg.data == msg.data;
  }

  /** `WSSendMessage`. When it succeeds, the fragment went out as its frame if and only if no transfer failed.
      Over a transport that does not fail it succeeds for every non-empty fragment; an empty one ends as an
      error and closes the stream. */
  method SendMessage(stream: Stream, msg: FrameMessage, client: bool, fin: bool, mask: seq<byte>)
      returns (rc: int, end: WriteEnd)
    requires |mask| == 4
    modifies stream`outgoing, stream`failures, stream`connected, msg`data
    ensures rc > 0 ==>
              && end == Returns && rc == |old(msg.data)| + 2 && stream.connected == old(stream.connected)
              && msg.data == Unmasked(old(msg.data), Mask(client, mask))
    ensures rc > 0 ==> Delivered(old(stream.outgoing), stream.outgoing, old(stream.failures), stream.failures,
                                 FrameBytes(msg.opcode % 16, old(msg.data), Mask(client, mask), fin))
    ensures end == Returns && rc <= 0 ==> !stream.connected
    ensures end == Spins <==> !old(stream.connected)
    ensures end == LeavesBuffer ==> stream.failures < old(stream.failures)
    ensures stream.reliable && old(stream.connected) ==>
              end == Returns && (rc > 0 <==> old(msg.data) != []) && stream.failures == old(stream.failures)
  {
    var size := |msg.data|;
    ghost var m := Mask(client, mask);
    var h := Head(msg.opcode % 16, 0, fin, PayloadField(size), client);
    var ok;
    ok, end := SendHead(stream, h, size);
    if ok {
      ghost var mid, f := stream.outgoing, stream.failures;
      ok, end := SendBody(stream, msg, client, mask);
      if ok {
        DeliveredTwice(old(stream.outgoing), mid, stream.outgoing, old(stream.failures), f, stream.failures,
                       HeadBytes(h) + LengthBytes(size), MaskBytes(m) + msg.data);
        FrameParts(HeadBytes(h), LengthBytes(size), MaskBytes(m) + msg.data);
        return size + 2, Returns;
      }
    }
    if end != Returns {
      return 0, end;
    }
    stream.Close();
    return -1, Returns;
  }

  lemma FrameParts(x: seq<byte>, y: seq<byte>, z: seq<byte>)
    ensures x + y + z == x + (y + z)
  {
  }

  /** The extended length, the mask and the payload of one frame; false when the loop gives up. */
  method ReceiveFrame(stream: Stream, h: Head, client: bool, have: nat) returns (ok: bool, data: seq<byte>)
    requires have < MAX_SIZE
    modifies stream`incoming
    ensures ok ==>
              && FrameOk(h, old(stream.incoming), client, have)
              && data == FrameData(h, old(stream.incoming)) && stream.incoming == FrameRest(h, old(stream.incoming))
    ensures stream.reliable && stream.connected ==> (ok <==> FrameOk(h, old(stream.incoming), client, have))
  {
    ghost var s := stream.incoming;
    if !client && !h.mask {
      return false, [];
    }
    var length;
    ok, length := ReceiveLength(stream, h);
    if !ok {
      return false, [];
    }
    SizeCheck(have, length);
    if AddU64(have, length) >= MAX_SIZE {
      return false, [];
    }
    var mask;
    ok, mask := ReceiveMask(stream, h, s);
    if !ok || length == 0 || length >= TWO64 / 2 {
      return false, [];
    }
    var rc;
    data, rc := stream.ReadFixSize(length);
    if rc <= 0 {
      return false, [];
    }
    SliceOn(s, Skip(h), length);
    assert s[Skip(h)..][..length] == s[Skip(h)..Skip(h) + length];
    if mask.Some? {
      data := XorLoop(data, mask.value);
    }
    return true, data;
  }

  /** The mask behind the extended length, if the head says that there is one. */
  method ReceiveMask(stream: Stream, h: Head, ghost s: seq<byte>) returns (ok: bool, mask: Option<seq<byte>>)
    requires ExtBytes(h.payload) <= |s| && stream.incoming == s[ExtBytes(h.payload)..]
    modifies stream`incoming
    ensures ok ==> Skip(h) <= |s| && mask == MaskOf(h, s) && stream.incoming == s[Skip(h)..]
    ensures stream.reliable && stream.connected ==> (ok <==> Skip(h) <= |s|)
  {
    if !h.mask {
      return true, None;
    }
    var bytes, rc := stream.ReadFixSize(4);
    if rc <= 0 {
      return false, None;
    }
    ghost var e := ExtBytes(h.payload);
    assert s[e..][..4] == s[e..e + 4] && s[e..][4..] == s[e + 4..];
    return true, Some(bytes);
  }

  method ReceiveLength(stream: Stream, h: Head) returns (ok: bool, length: nat)
    modifies stream`incoming
    ensures ok ==> ExtBytes(h.payload) <= |old(stream.incoming)| && length == LengthOf(h, old(stream.incoming)) < TWO64
    ensures ok ==> stream.incoming == old(stream.incoming)[ExtBytes(h.payload)..]
    ensures stream.reliable && stream.connected ==> (ok <==> ExtBytes(h.payload) <= |old(stream.incoming)|)
  {
    var n := if h.payload == 126 then 2 else if h.payload == 127 then 8 else 0;
    if n == 0 {
      return true, h.payload;
    }
    var bytes, rc := stream.ReadFixSize(n);
    if rc <= 0 {
      return false, 0;
    }
    SwapLoadsBig(bytes);
    FromBigBound(bytes);
    Width64();
    Pow2Mono(8 * n, 64);
    return true, FromLittle(Backwards(bytes));
  }

  /** The pongs sent for `n` pings. */
  function Pongs(n: nat): seq<byte> {
    if n == 0 then [] else Pongs(n - 1) + ControlHead(false)
  }

  /** What one turn of the receive loop leaves: the gathered message so far, the finished one, the end of the
      loop, or a pong whose transfer loop leaves its buffer. */
  datatype Turn = Again(opcode: nibble, data: seq<byte>) | Done(opcode: nibble, data: seq<byte>) | Stop | Crash

  /** The state `st` with the opcode and data of a turn. */
  ghost predicate Leads(s: seq<byte>, client: bool, st: Partial, t: Turn, s': seq<byte>, st': Partial) {
    && (t.Again? ==> Receive(s, client, st) == Receive(s', client, st') && |s'| < |s| && |t.data| < MAX_SIZE)
    && (t.Done? ==> Receive(s, client, st) == Complete(st', s'))
    && (t.Again? || t.Done? ==> st'.opcode == t.opcode && st'.data == t.data)
  }

  lemma PingLeads(s: seq<byte>, client: bool, st: Partial)
    requires |s| >= 2 && HeadOf(s).opcode == PING && |st.data| < MAX_SIZE
    ensures Leads(s, client, st, Again(st.opcode, st.data), s[2..], WithPong(st))
  {
  }

  lemma OtherLeads(s: seq<byte>, client: bool, st: Partial)
    requires |s| >= 2 && HeadOf(s).opcode != PING && !IsData(HeadOf(s).opcode) && |st.data| < MAX_SIZE
    ensures Leads(s, client, st, Again(st.opcode, st.data), s[2..], st)
  {
  }

  lemma FrameLeads(s: seq<byte>, client: bool, st: Partial)
    requires |s| >= 2 && IsData(HeadOf(s).opcode) && FrameOk(HeadOf(s), s[2..], client, |st.data|)
    ensures var h := HeadOf(s);
            var next := WithFrame(st, h.opcode, FrameData(h, s[2..]));
            var turn := if h.fin then Done(next.opcode, next.data) else Again(next.opcode, next.data);
            Leads(s, client, st, turn, FrameRest(h, s[2..]), next)
  {
  }

  lemma StopCloses(s: seq<byte>, client: bool, st: Partial)
    requires |s| < 2 || (IsData(HeadOf(s).opcode) && !FrameOk(HeadOf(s), s[2..], client, |st.data|))
    ensures Receive(s, client, st) == Closed
  {
  }

  /** What a turn that goes on sent: a pong if the count of pongs went up. */
  function Reply(n: nat, n': nat): seq<byte> { if n' == n then [] else ControlHead(false) }

  /** One turn of the receive loop. */
  method ReceiveTurn(stream: Stream, client: bool, opcode: nibble, data: seq<byte>, ghost st: Partial)
      returns (t: Turn, ghost st': Partial)
    requires st.opcode == opcode && st.data == data && |data| < MAX_SIZE
    modifies stream`incoming, stream`outgoing, stream`failures, stream`connected
    ensures Leads(old(stream.incoming), client, st, t, stream.incoming, st')
    ensures t.Again? || t.Done? ==>
              && stream.connected == old(stream.connected) && st.pongs <= st'.pongs <= st.pongs + 1
              && Delivered(old(stream.outgoing), stream.outgoing, old(stream.failures), stream.failures,
                           Reply(st.pongs, st'.pongs))
    ensures t.Crash? ==> stream.failures < old(stream.failures)
    ensures stream.reliable && old(stream.connected) ==>
              && !t.Crash? && (t.Stop? ==> Receive(old(stream.incoming), client, st) == Closed)
              && stream.failures == old(stream.failures)
  {
    st' := st;
    ghost var s, out := stream.incoming, stream.outgoing;
    assert out + [] == out;
    var head, rc := stream.ReadFixSize(2);
    if rc <= 0 {
      if stream.reliable && stream.connected { StopCloses(s, client, st); }
      return Stop, st';
    }
    assert head == s[..2];
    var h := HeadOf(head);
    if h.opcode == PING {
      PingLeads(s, client, st);
      var end;
      rc, end := SendControl(stream, false);
      if end == LeavesBuffer {
        return Crash, st';
      }
      if rc <= 0 {
        return Stop, st';
      }
      return Again(opcode, data), WithPong(st);
    } else if h.opcode == CONTINUE || h.opcode == TEXT_FRAME || h.opcode == BIN_FRAME {
      var ok, piece := ReceiveFrame(stream, h, client, |data|);
      if !ok {
        if stream.reliable && stream.connected { StopCloses(s, client, st); }
        return Stop, st';
      }
      FrameLeads(s, client, st);
      var op: nibble := if opcode == 0 && h.opcode != CONTINUE then h.opcode else opcode;
      return if h.fin then Done(op, data + piece) else Again(op, data + piece), WithFrame(st, h.opcode, piece);
    } else {
      OtherLeads(s, client, st);
      return Again(opcode, data), st';
    }
  }

  /** `WSRecvMessage`. A message is what the receive function gives for the bytes that were to come; exactly one
      pong for each ping went out if and only if no transfer failed. Over a transport that does not fail there
      is no message only when that function gives none. */
  method RecvMessage(stream: Stream, client: bool) returns (msg: FrameMessage?, crash: bool)
    modifies stream`incoming, stream`outgoing, stream`failures, stream`connected
    ensures msg != null ==> fresh(msg)
    ensures msg != null ==>
              var r := Receive(old(stream.incoming), client, START);
              && r.Complete? && msg.opcode == r.msg.opcode && msg.data == r.msg.data && stream.incoming == r.rest
              && Delivered(old(stream.outgoing), stream.outgoing, old(stream.failures), stream.failures,
                           Pongs(r.msg.pongs))
    ensures msg == null && !crash ==> !stream.connected
    ensures crash ==> stream.failures < old(stream.failures)
    ensures stream.reliable && old(stream.connected) ==>
              && !crash && (msg == null <==> Receive(old(stream.incoming), client, START) == Closed)
              && stream.failures == old(stream.failures)
  {
    ghost var goal, out, st := Receive(stream.incoming, client, START), stream.outgoing, START;
    var opcode: nibble, data := 0, [];
    assert out == out + Pongs(0);
    while true
      invariant goal == Receive(stream.incoming, client, st)
      invariant st.opcode == opcode && st.data == data && |data| < MAX_SIZE
      invariant Delivered(out, stream.outgoing, old(stream.failures), stream.failures, Pongs(st.pongs))
      invariant stream.connected == old(stream.connected)
      invariant stream.reliable && stream.connected ==> stream.failures == old(stream.failures)
      decreases |stream.incoming|
    {
      ghost var st', mid, f := st, stream.outgoing, stream.failures;
      var t;
      t, st' := ReceiveTurn(stream, client, opcode, data, st);
      if t.Again? || t.Done? {
        DeliveredTwice(out, mid, stream.outgoing, old(stream.failures), f, stream.failures,
                       Pongs(st.pongs), Reply(st.pongs, st'.pongs));
        PongsOn(st.pongs, st'.pongs);
      }
      st := st';
      match t {
        case Again(op, text) => opcode, data := op, text;
        case Done(op, text) =>
          msg := new FrameMessage(op, text);
          return msg, false;
        case Stop => break;
        case Crash => return null, true;
      }
    }
    stream.Close();
    return null, false;
  }

  lemma PongsOn(n: nat, n': nat)
    requires n <= n' <= n + 1
    ensures Pongs(n) + Reply(n, n') == Pongs(n')
  {
  }

  // ---------------------------------------------------------------- the round trip

  /** Sends one item; `fin` marks the last fragment. */
  method SendItem(stream: Stream, it: Item, fin: bool, client: bool)
    requires ItemOk(it, client) && stream.reliable && stream.connected
    modifies stream`outgoing, stream`failures, stream`connected
    ensures stream.connected && stream.outgoing == old(stream.outgoing) + ItemBytes(it, fin, client)
  {
    if it.Fragment? {
      var msg := new FrameMessage(it.opcode, it.data);
      var mask := if it.mask.Some? then it.mask.value else [0, 0, 0, 0];
      var rc, end := SendMessage(stream, msg, it.mask.Some?, fin, mask);
    } else {
      var rc, end := SendControl(stream, it.ping);
    }
  }

  /** Sends the items in order, then the last fragment. */
  method SendItems(stream: Stream, items: seq<Item>, last: Item, client: bool)
    requires ItemsOk(items, client) && ItemOk(last, client) && stream.reliable && stream.connected
    modifies stream`outgoing, stream`failures, stream`connected
    ensures stream.outgoing == old(stream.outgoing) + Wire(items, last, client)
  {
    var i := 0;
    ghost var out := stream.outgoing;
    assert items[0..] == items;
    while i < |items|
      invariant i <= |items| && stream.connected && ItemsOk(items[i..], client)
      invariant stream.outgoing + Wire(items[i..], last, client) == out + Wire(items, last, client)
    {
      ghost var mid := stream.outgoing;
      SendItem(stream, items[i], false, client);
      assert items[i..][1..] == items[i + 1..];
      FrameParts(mid, ItemBytes(items[i], false, client), Wire(items[i + 1..], last, client));
      i := i + 1;
    }
    SendItem(stream, last, true, client);
  }

  /** WebSocket round trip through the code on both sides: any non-empty fragments under the limit, masked or not,
      with any pings and pongs between them, however the transports split the bytes and whatever was sent
      before and follows. */
  method SendAndReceive(out: Stream, items: seq<Item>, last: Item, rest: seq<byte>, client: bool)
      returns (opcode: int, data: seq<byte>, left: seq<byte>, replies: seq<byte>)
    requires ItemsOk(items, client) && ItemOk(last, client) && last.Fragment?
    requires |Text(items)| + |last.data| < MAX_SIZE && out.reliable && out.connected
    modifies out`outgoing, out`failures, out`connected
    ensures opcode == FirstOpcode(Opcode(items), last.opcode) && data == Text(items) + last.data
    ensures left == rest && replies == Pongs(Pings(items))
  {
    var before := |out.outgoing|;
    SendItems(out, items, last, client);
    var wire := out.outgoing[before..];
    assert wire == Wire(items, last, client);
    MessageRoundTrip(items, last, rest, client);
    var peer := new Stream(true, wire + rest);
    var msg, crash := RecvMessage(peer, client);
    assert [] + Pongs(Pings(items)) == Pongs(Pings(items));
    opcode, data, left, replies := msg.opcode, msg.data, peer.incoming, peer.outgoing;
  }
}
