/**
  WebSocket frames (sections 5.2 to 5.5 of RFC 6455) as the session writes and reads them.

  The receive function follows the receive loop frame by frame on the bytes still to come; it is what the
  loop does when the transport does not fail.
*/
module WebSocket {
  import opened Basics
  import opened Bits
  import opened Fields

  type nibble = x: int | 0 <= x < 16
  type septet = x: int | 0 <= x < 128

  const CONTINUE: nibble := 0
  const TEXT_FRAME: nibble := 1
  const BIN_FRAME: nibble := 2
  const PING: nibble := 9
  const PONG: nibble := 10
  const MAX_SIZE := 32 * 1024 * 1024

  /** The two bytes in front of every frame, as packed bit fields, lowest bit first. */
  datatype Head = Head(opcode: nibble, rsv: nat, fin: bool, payload: septet, mask: bool)

  function Bit(b: bool): nat { if b then 1 else 0 }

  function HeadBytes(h: Head): (s: seq<byte>)
    requires h.rsv < 8
    ensures |s| == 2
  {
    [h.opcode + 16 * h.rsv + 128 * Bit(h.fin), h.payload + 128 * Bit(h.mask)]
  }

  function HeadOf(s: seq<byte>): Head
    requires |s| >= 2
  {
    Head(s[0] % 16, s[0] / 16 % 8, s[0] >= 128, s[1] % 128, s[1] >= 128)
  }

  /** Reading the head back gives the fields, and every two bytes are the head of exactly one frame. */
  lemma HeadRoundTrip(h: Head, s: seq<byte>)
    requires h.rsv < 8 && |s| == 2
    ensures HeadOf(HeadBytes(h)) == h
    ensures HeadOf(s).rsv < 8 && HeadBytes(HeadOf(s)) == s
  {
    var h0 := h.opcode + 16 * h.rsv + 128 * Bit(h.fin);
    assert h0 / 16 == h.rsv + 8 * Bit(h.fin) && h0 % 16 == h.opcode;
    var t := HeadOf(s);
    assert s[0] == s[0] % 16 + 16 * (s[0] / 16) && s[0] / 16 == s[0] / 16 % 8 + 8 * (s[0] / 128);
  }

  // ---------------------------------------------------------------- masking

  function XorByte(a: byte, b: byte): (r: byte)
    ensures r == Xor(a, b)
  {
    EightBits(0);
    XorBound(a, b, 8);
    Xor(a, b)
  }

  function Masked(data: seq<byte>, mask: seq<byte>): (r: seq<byte>)
    requires |mask| == 4
    ensures |r| == |data|
  {
    seq(|data|, i requires 0 <= i < |data| => XorByte(data[i], mask[i % 4]))
  }

  /** Unmasking with the same mask undoes masking. */
  lemma MaskTwice(data: seq<byte>, mask: seq<byte>)
    requires |mask| == 4
    ensures Masked(Masked(data, mask), mask) == data
  {
    forall i | 0 <= i < |data| ensures Masked(Masked(data, mask), mask)[i] == data[i] {
      XorTwice(data[i], mask[i % 4]);
    }
  }

  /** A client masks the message it sends in place, so sending the same message again sends the masked payload:
      it is the original one if and only if the mask bytes used were zero. */
  lemma ResendIsOriginalIff(data: seq<byte>, mask: seq<byte>)
    requires |mask| == 4
    ensures Masked(data, mask) == data <==> forall i :: 0 <= i < |data| ==> mask[i % 4] == 0
  {
    forall i | 0 <= i < |data| ensures Masked(data, mask)[i] == data[i] <==> mask[i % 4] == 0 {
      XorUnchanged(data[i], mask[i % 4]);
    }
    if Masked(data, mask) != data {
      var i :| 0 <= i < |data| && Masked(data, mask)[i] != data[i];
      assert mask[i % 4] != 0;
    }
  }

  function Unmasked(data: seq<byte>, mask: Option<seq<byte>>): seq<byte>
    requires mask.Some? ==> |mask.value| == 4
  {
    if mask.None? then data else Masked(data, mask.value)
  }

  // ---------------------------------------------------------------- sending

  function PayloadField(size: nat): septet { if size < 126 then size else if size < 65536 then 126 else 127 }

  /** The extended length, most significant byte first. */
  function LengthBytes(size: nat): (s: seq<byte>)
    ensures |s| == ExtBytes(PayloadField(size))
  {
    BigBytes(size, ExtBytes(PayloadField(size)))
  }

  function MaskBytes(mask: Option<seq<byte>>): seq<byte> { if mask.None? then [] else mask.value }

  function FrameHead(opcode: nibble, size: nat, mask: Option<seq<byte>>, fin: bool): (h: Head)
    ensures h.rsv < 8
  {
    Head(opcode, 0, fin, PayloadField(size), mask.Some?)
  }

  /** What the sender writes for one fragment. */
  function FrameBytes(opcode: nibble, data: seq<byte>, mask: Option<seq<byte>>, fin: bool): seq<byte>
    requires mask.Some? ==> |mask.value| == 4
  {
    HeadBytes(FrameHead(opcode, |data|, mask, fin)) + (LengthBytes(|data|) + (MaskBytes(mask) + Unmasked(data, mask)))
  }

  /** The heads of control frames: final, without payload and mask. */
  const PONG_HEAD: seq<byte> := [0x8A, 0]
  const PING_HEAD: seq<byte> := [0x89, 0]

  function ControlHead(ping: bool): (s: seq<byte>)
    ensures |s| == 2
  {
    if ping then PING_HEAD else PONG_HEAD
  }

  // ---------------------------------------------------------------- receiving

  predicate IsData(opcode: nibble) { opcode == CONTINUE || opcode == TEXT_FRAME || opcode == BIN_FRAME }

  /** How many bytes of extended length follow the head. */
  function ExtBytes(payload: septet): nat { if payload == 126 then 2 else if payload == 127 then 8 else 0 }

  const TWO64 := 0x1_0000_0000_0000_0000

  /** The sum of two unsigned 64-bit integers. */
  function AddU64(a: nat, b: nat): nat { if a + b < TWO64 then a + b else a + b - TWO64 }

  /** The size check in unsigned 64-bit arithmetic, and the read that follows it: a length of 0, or one beyond
      the signed range, makes that read return no positive result. Together they let through exactly the
      lengths that are not 0 and keep the message below the limit, although the sum may wrap around. */
  lemma SizeCheck(have: nat, length: nat)
    requires have < MAX_SIZE && length < TWO64
    ensures AddU64(have, length) < MAX_SIZE && 0 < length < TWO64 / 2 <==> 0 < length && have + length < MAX_SIZE
  {
  }

  function LengthOf(h: Head, s: seq<byte>): nat
    requires ExtBytes(h.payload) <= |s|
  {
    if ExtBytes(h.payload) == 0 then h.payload else FromBig(s[..ExtBytes(h.payload)])
  }

  function Skip(h: Head): nat { ExtBytes(h.payload) + (if h.mask then 4 else 0) }

  function MaskOf(h: Head, s: seq<byte>): (m: Option<seq<byte>>)
    requires Skip(h) <= |s|
    ensures m.Some? ==> |m.value| == 4
  {
    if h.mask then Some(s[ExtBytes(h.payload)..Skip(h)]) else None
  }

  /** A data frame that the loop accepts behind its head when `have` bytes of the message are already there. */
  predicate FrameOk(h: Head, s: seq<byte>, client: bool, have: nat) {
    && (client || h.mask) && Skip(h) <= |s|
    && 0 < LengthOf(h, s) && have + LengthOf(h, s) < MAX_SIZE && Skip(h) + LengthOf(h, s) <= |s|
  }

  function FrameData(h: Head, s: seq<byte>): seq<byte>
    requires Skip(h) <= |s| && Skip(h) + LengthOf(h, s) <= |s|
  {
    Unmasked(s[Skip(h)..Skip(h) + LengthOf(h, s)], MaskOf(h, s))
  }

  function FrameRest(h: Head, s: seq<byte>): seq<byte>
    requires Skip(h) <= |s| && Skip(h) + LengthOf(h, s) <= |s|
  {
    s[Skip(h) + LengthOf(h, s)..]
  }

  /** What the loop has gathered: the opcode, the payload, and how many pings it answered. */
  datatype Partial = Partial(opcode: nibble, data: seq<byte>, pongs: nat)

  const START := Partial(0, [], 0)

  datatype Received = Complete(msg: Partial, rest: seq<byte>) | Closed

  function FirstOpcode(sofar: nibble, next: nibble): nibble { if sofar == 0 then next else sofar }

  function WithFrame(st: Partial, opcode: nibble, data: seq<byte>): Partial {
    Partial(FirstOpcode(st.opcode, opcode), st.data + data, st.pongs)
  }

  function WithPong(st: Partial): Partial { Partial(st.opcode, st.data, st.pongs + 1) }

  /** The receive loop on the bytes still to come. */
  function Receive(s: seq<byte>, client: bool, st: Partial): Received
    decreases |s|
  {
    if |s| < 2 then Closed
    else
      var h := HeadOf(s);
      if h.opcode == PING then Receive(s[2..], client, WithPong(st))
      else if !IsData(h.opcode) then Receive(s[2..], client, st)
      else if !FrameOk(h, s[2..], client, |st.data|) then Closed
      else
        var next := WithFrame(st, h.opcode, FrameData(h, s[2..]));
        if h.fin then Complete(next, FrameRest(h, s[2..])) else Receive(FrameRest(h, s[2..]), client, next)
  }

  // ---------------------------------------------------------------- the round trip

  predicate MaskOk(mask: Option<seq<byte>>, client: bool) {
    if mask.Some? then |mask.value| == 4 else client
  }

  lemma Width64()
    ensures Pow2(64) == TWO64
  {
    EightBits(0);
    EightBits(8);
    EightBits(16);
    EightBits(24);
    EightBits(32);
    EightBits(40);
    EightBits(48);
    EightBits(56);
  }

  lemma LengthFieldBack(size: nat, tail: seq<byte>)
    requires size < TWO64
    ensures ExtBytes(PayloadField(size)) == |LengthBytes(size)|
    ensures (LengthBytes(size) + tail)[..|LengthBytes(size)|] == LengthBytes(size)
    ensures size == if LengthBytes(size) == [] then PayloadField(size) else FromBig(LengthBytes(size))
  {
    if 126 <= size < 65536 {
      EightBits(0);
      EightBits(8);
      FixedRoundTrip(size, 2);
    } else if size >= 65536 {
      Width64();
      FixedRoundTrip(size, 8);
    }
  }

  /** The pieces of a frame behind its head. */
  lemma Pieces(ext: seq<byte>, m: seq<byte>, data: seq<byte>, rest: seq<byte>)
    ensures var s := ext + (m + data) + rest; var e, k := |ext|, |ext| + |m|;
            && |s| == k + |data| + |rest|
            && s[..e] == ext && s[e..k] == m && s[k..k + |data|] == data && s[k + |data|..] == rest
  {
  }

  /** A frame is read back whole, and what follows it is left. */
  lemma FrameBack(opcode: nibble, data: seq<byte>, mask: Option<seq<byte>>, fin: bool, rest: seq<byte>,
                  client: bool, have: nat)
    requires MaskOk(mask, client) && data != [] && have + |data| < MAX_SIZE
    ensures var h := FrameHead(opcode, |data|, mask, fin);
            var s := LengthBytes(|data|) + (MaskBytes(mask) + Unmasked(data, mask)) + rest;
            FrameOk(h, s, client, have) && FrameData(h, s) == data && FrameRest(h, s) == rest
  {
    LengthFieldBack(|data|, []);
    var h := FrameHead(opcode, |data|, mask, fin);
    PartsBack(h, LengthBytes(|data|), mask, Unmasked(data, mask), rest, client, have);
    if mask.Some? { MaskTwice(data, mask.value); }
  }

  lemma PartsBack(h: Head, ext: seq<byte>, mask: Option<seq<byte>>, sent: seq<byte>, rest: seq<byte>,
                  client: bool, have: nat)
    requires MaskOk(mask, client) && h.mask == mask.Some? && ExtBytes(h.payload) == |ext|
    requires 0 < |sent| && |sent| == if ext == [] then h.payload else FromBig(ext)
    requires have + |sent| < MAX_SIZE
    ensures var s := ext + (MaskBytes(mask) + sent) + rest;
            FrameOk(h, s, client, have) && FrameData(h, s) == Unmasked(sent, mask) && FrameRest(h, s) == rest
  {
    Pieces(ext, MaskBytes(mask), sent, rest);
  }

  /** What a peer may put on the wire within one message: fragments, and control heads between them. */
  datatype Item = Fragment(opcode: nibble, data: seq<byte>, mask: Option<seq<byte>>) | Control(ping: bool)

  predicate ItemOk(it: Item, client: bool) {
    it.Fragment? ==> IsData(it.opcode) && it.data != [] && MaskOk(it.mask, client)
  }

  predicate ItemsOk(items: seq<Item>, client: bool) { forall i :: 0 <= i < |items| ==> ItemOk(items[i], client) }

  function ControlCode(ping: bool): nibble { if ping then PING else PONG }

  function ItemBytes(it: Item, fin: bool, client: bool): seq<byte>
    requires ItemOk(it, client)
  {
    if it.Fragment? then FrameBytes(it.opcode, it.data, it.mask, fin) else ControlHead(it.ping)
  }

  /** The items in order, then the final fragment. */
  function Wire(items: seq<Item>, last: Item, client: bool): seq<byte>
    requires ItemsOk(items, client) && ItemOk(last, client)
  {
    if items == [] then ItemBytes(last, true, client)
    else ItemBytes(items[0], false, client) + Wire(items[1..], last, client)
  }

  /** The payloads in order. */
  function Text(items: seq<Item>): seq<byte> {
    if items == [] then [] else (if items[0].Fragment? then items[0].data else []) + Text(items[1..])
  }

  /** The first opcode of a fragment that is not a continuation, or 0. */
  function Opcode(items: seq<Item>): nibble {
    if items == [] then 0
    else if items[0].Fragment? && items[0].opcode != 0 then items[0].opcode
    else Opcode(items[1..])
  }

  function Pings(items: seq<Item>): nat {
    if items == [] then 0 else (if items[0].Control? && items[0].ping then 1 else 0) + Pings(items[1..])
  }

  /** One fragment in the receive loop. */
  lemma ReceiveFragment(opcode: nibble, data: seq<byte>, mask: Option<seq<byte>>, fin: bool, rest: seq<byte>,
                        client: bool, st: Partial)
    requires IsData(opcode) && data != [] && MaskOk(mask, client) && |st.data| + |data| < MAX_SIZE
    ensures Receive(FrameBytes(opcode, data, mask, fin) + rest, client, st) ==
              var next := WithFrame(st, opcode, data);
              if fin then Complete(next, rest) else Receive(rest, client, next)
  {
    var h := FrameHead(opcode, |data|, mask, fin);
    var body := LengthBytes(|data|) + (MaskBytes(mask) + Unmasked(data, mask));
    assert HeadBytes(h) + body + rest == HeadBytes(h) + (body + rest);
    HeadAhead(h, body + rest);
    FrameBack(opcode, data, mask, fin, rest, client, |st.data|);
  }

  lemma HeadAhead(h: Head, tail: seq<byte>)
    requires h.rsv < 8
    ensures HeadOf(HeadBytes(h) + tail) == h && (HeadBytes(h) + tail)[2..] == tail
  {
    HeadRoundTrip(h, HeadBytes(h));
    assert (HeadBytes(h) + tail)[..2] == HeadBytes(h);
  }

  lemma ControlAhead(ping: bool, rest: seq<byte>)
    ensures HeadOf(ControlHead(ping) + rest).opcode == ControlCode(ping) && (ControlHead(ping) + rest)[2..] == rest
  {
    assert (ControlHead(ping) + rest)[0] == ControlHead(ping)[0];
  }

  /** One control head in the receive loop. */
  lemma ReceiveControl(ping: bool, rest: seq<byte>, client: bool, st: Partial)
    ensures Receive(ControlHead(ping) + rest, client, st) == Receive(rest, client, if ping then WithPong(st) else st)
  {
    ControlAhead(ping, rest);
  }

  function AfterItem(st: Partial, it: Item): Partial {
    if it.Fragment? then WithFrame(st, it.opcode, it.data) else if it.ping then WithPong(st) else st
  }

  function AfterItems(st: Partial, items: seq<Item>): (r: Partial)
    ensures |r.data| == |st.data| + |Text(items)|
    decreases |items|
  {
    if items == [] then st else AfterItems(AfterItem(st, items[0]), items[1..])
  }

  /** The state of the receive loop after one item. */
  lemma ReceiveItem(it: Item, rest: seq<byte>, client: bool, st: Partial)
    requires ItemOk(it, client) && |AfterItem(st, it).data| < MAX_SIZE
    ensures Receive(ItemBytes(it, false, client) + rest, client, st) == Receive(rest, client, AfterItem(st, it))
  {
    if it.Fragment? {
      ReceiveFragment(it.opcode, it.data, it.mask, false, rest, client, st);
    } else {
      ReceiveControl(it.ping, rest, client, st);
    }
  }

  lemma FirstBytes(items: seq<Item>, last: Item, rest: seq<byte>, client: bool)
    requires items != [] && ItemsOk(items, client) && ItemOk(last, client)
    ensures Wire(items, last, client) + rest
            == ItemBytes(items[0], false, client) + (Wire(items[1..], last, client) + rest)
  {
  }

  lemma {:induction false} WireBack(items: seq<Item>, last: Item, rest: seq<byte>, client: bool, st: Partial)
    requires ItemsOk(items, client) && ItemOk(last, client) && last.Fragment?
    requires |st.data| + |Text(items)| + |last.data| < MAX_SIZE
    ensures Receive(Wire(items, last, client) + rest, client, st)
            == Complete(AfterItem(AfterItems(st, items), last), rest)
    decreases |items|
  {
    if items == [] {
      ReceiveFragment(last.opcode, last.data, last.mask, true, rest, client, st);
    } else {
      FirstBytes(items, last, rest, client);
      ReceiveItem(items[0], Wire(items[1..], last, client) + rest, client, st);
      WireBack(items[1..], last, rest, client, AfterItem(st, items[0]));
    }
  }

  /** What the loop has gathered after a list of items. */
  lemma {:induction false} Gathered(st: Partial, items: seq<Item>)
    ensures AfterItems(st, items)
            == Partial(FirstOpcode(st.opcode, Opcode(items)), st.data + Text(items), st.pongs + Pings(items))
    decreases |items|
  {
    if items == [] {
      assert st.data + [] == st.data;
    } else {
      var it := items[0];
      Gathered(AfterItem(st, it), items[1..]);
      Joined(st.data, if it.Fragment? then it.data else [], Text(items[1..]));
    }
  }

  lemma Joined(x: seq<byte>, y: seq<byte>, z: seq<byte>)
    ensures x + y + z == x + (y + z) && (y == [] ==> x + y == x)
  {
  }

  lemma GatheredMessage(items: seq<Item>, last: Item)
    requires last.Fragment?
    ensures AfterItem(AfterItems(START, items), last)
            == Partial(FirstOpcode(Opcode(items), last.opcode), Text(items) + last.data, Pings(items))
  {
    var st := START;
    Gathered(st, items);
    Joined(st.data, Text(items), []);
    assert AfterItems(st, items) == Partial(Opcode(items), Text(items), Pings(items));
  }

  /** WebSocket round trip: for every list of non-empty fragments under the size limit, any masks, and any
      ping and pong heads between them, receiving what was written gives the concatenated payload and the
      first data opcode, leaves exactly what follows, and answers every ping. */
  lemma MessageRoundTrip(items: seq<Item>, last: Item, rest: seq<byte>, client: bool)
    requires ItemsOk(items, client) && ItemOk(last, client) && last.Fragment?
    requires |Text(items)| + |last.data| < MAX_SIZE
    ensures Receive(Wire(items, last, client) + rest, client, START)
            == Complete(Partial(FirstOpcode(Opcode(items), last.opcode), Text(items) + last.data, Pings(items)), rest)
  {
    WireBack(items, last, rest, client, START);
    GatheredMessage(items, last);
  }

  /** A fragment without payload ends the connection. */
  lemma EmptyFragmentCloses(opcode: nibble, mask: Option<seq<byte>>, fin: bool, rest: seq<byte>,
                            client: bool, st: Partial)
    requires IsData(opcode) && (mask.Some? ==> |mask.value| == 4)
    ensures Receive(FrameBytes(opcode, [], mask, fin) + rest, client, st) == Closed
  {
    var none: seq<byte> := [];
    EmptyCloses(opcode, none, mask, fin, rest, client, st);
  }

  lemma EmptyCloses(opcode: nibble, data: seq<byte>, mask: Option<seq<byte>>, fin: bool, rest: seq<byte>,
                    client: bool, st: Partial)
    requires IsData(opcode) && (mask.Some? ==> |mask.value| == 4) && |data| == 0
    ensures Receive(FrameBytes(opcode, data, mask, fin) + rest, client, st) == Closed
  {
    var h := FrameHead(opcode, |data|, mask, fin);
    var body := LengthBytes(|data|) + (MaskBytes(mask) + Unmasked(data, mask));
    Joined(HeadBytes(h), body, rest);
    HeadAhead(h, body + rest);
    assert !FrameOk(h, body + rest, client, |st.data|);
  }
}
