/** The bytes on the wire, one by one: Rock frames, and WebSocket frames (section 5.2 of RFC 6455). */
module WireLayouts {
  import opened Basics
  import opened Bits
  import opened Fields
  import opened Rock
  import opened RockCodec
  import Varints
  import WebSocket

  // ---------------------------------------------------------------- integers of fixed width

  lemma BigAppend(s: seq<byte>, b: byte)
    ensures FromBig(s + [b]) == 256 * FromBig(s) + b
  {
    assert (s + [b])[..|s|] == s;
  }

  /** The number that bytes stand for, the most significant first. */
  lemma BigOrder(a: byte, b: byte, c: byte, d: byte)
    ensures FromBig([a, b]) == 0x100 * a + b
    ensures FromBig([a, b, c, d]) == 0x100_0000 * a + 0x1_0000 * b + 0x100 * c + d
  {
    var none: seq<byte> := [];
    BigAppend(none, a);
    BigAppend([a], b);
    BigAppend([a, b], c);
    BigAppend([a, b, c], d);
    assert none + [a] == [a] && [a] + [b] == [a, b] && [a, b] + [c] == [a, b, c] && [a, b, c] + [d] == [a, b, c, d];
  }

  // ---------------------------------------------------------------- Rock

  /** The header of a Rock frame: magic, version, flags, and 4 bytes of length. */
  lemma HeaderLayout(n: nat)
    requires n < 0x1_0000_0000
    ensures var h := Header(n);
            |h| == 8 && h[0] == 0xab && h[1] == 0xcd && h[2] == 1 && h[3] == 0 && FromBig(h[4..8]) == n
  {
    Width32();
    FixedRoundTrip(n, 4);
    assert Header(n)[4..8] == BigBytes(n, 4);
  }

  /** Eight bytes of length, the most significant first. */
  lemma LengthLayout(n: nat)
    requires n < WebSocket.TWO64
    ensures |BigBytes(n, LENGTH)| == 8 && FromBig(BigBytes(n, LENGTH)) == n
  {
    WebSocket.Width64();
    FixedRoundTrip(n, LENGTH);
  }

  /** The payload of a message: its type, the integers with variable length in the order of the fields, and each string
      behind its length in eight bytes. */
  lemma PayloadLayout(m: Message)
    ensures m.Request? ==>
              Payload(m) == [1] + Varints.Encode(m.sn) + Varints.Encode(m.cmd) + BigBytes(|m.body|, LENGTH) + m.body
    ensures m.Response? ==>
              Payload(m) == [2] + Varints.Encode(m.sn) + Varints.Encode(m.cmd) + Varints.Encode(m.result)
                            + BigBytes(|m.resultStr|, LENGTH) + m.resultStr + BigBytes(|m.body|, LENGTH) + m.body
    ensures m.Notify? ==> Payload(m) == [3] + Varints.Encode(m.notify) + BigBytes(|m.body|, LENGTH) + m.body
  {
    match m
    case Request(sn, cmd, body) =>
      Regroup([TypeByte(m)], Varints.Encode(sn), Varints.Encode(cmd), StringBytes(body));
      Join([TypeByte(m)] + Varints.Encode(sn) + Varints.Encode(cmd), body);
    case Response(sn, cmd, result, text, body) =>
      var x, y, z := Varints.Encode(sn), Varints.Encode(cmd), Varints.Encode(result);
      Regroup([TypeByte(m)], x, y, z + (StringBytes(text) + StringBytes(body)));
      Regroup([TypeByte(m)] + x + y, z, StringBytes(text), StringBytes(body));
      Join([TypeByte(m)] + x + y + z, text);
      Join([TypeByte(m)] + x + y + z + StringBytes(text), body);
    case Notify(notify, body) =>
      Regroup([TypeByte(m)], Varints.Encode(notify), StringBytes(body), []);
      Join([TypeByte(m)] + Varints.Encode(notify), body);
  }

  lemma Regroup(w: seq<byte>, x: seq<byte>, y: seq<byte>, z: seq<byte>)
    ensures w + (x + (y + z)) == w + x + y + z && w + (x + y) == w + x + y
  {
  }

  lemma Join(before: seq<byte>, text: seq<byte>)
    ensures before + StringBytes(text) == before + BigBytes(|text|, LENGTH) + text
  {
  }

  /** What a receiver looks at: everything is rejected without the magic, the version, a length under the limit, the
      whole payload and, within one block, a known type. */
  lemma RejectedUnless(all: seq<byte>)
    requires FrameVerdict(all) != Some(Rejected)
    ensures |all| >= 8 && all[0] == 0xab && all[1] == 0xcd && all[2] == 1
    ensures FromBig(all[4..8]) < 64 * 1024 * 1024
    ensures FrameVerdict(all) != Some(Crashed) ==> 0 < FromBig(all[4..8]) <= |all| - 8
    ensures all[3] % 2 == 0 && 0 < FromBig(all[4..8]) <= 4096 ==> |all| > 8 && 1 <= all[8] <= 3
  {
    assert all[..8][4..8] == all[4..8];
  }

  // ---------------------------------------------------------------- WebSocket

  /** The first two bytes of a frame. */
  lemma HeadLayout(h: WebSocket.Head)
    requires h.rsv < 8
    ensures var s := WebSocket.HeadBytes(h);
            && (s[0] >= 128 <==> h.fin) && s[0] / 16 % 8 == h.rsv && s[0] % 16 == h.opcode
            && (s[1] >= 128 <==> h.mask) && s[1] % 128 == h.payload
  {
    WebSocket.HeadRoundTrip(h, WebSocket.HeadBytes(h));
  }

  /** Where the mask begins. */
  function MaskStart(n: nat): nat { if n < 126 then 2 else if n < 65536 then 4 else 10 }

  /** The head and the length of a frame of `n` bytes of payload: the final bit, no reserved bits and the opcode; the
      mask bit and the 7-bit length; for longer payloads 2 or 8 bytes of length, the most significant first. */
  predicate StartsFrame(f: seq<byte>, opcode: WebSocket.nibble, n: nat, masked: bool, fin: bool) {
    && |f| >= MaskStart(n)
    && (f[0] >= 128 <==> fin) && f[0] / 16 % 8 == 0 && f[0] % 16 == opcode
    && (f[1] >= 128 <==> masked)
    && f[1] % 128 == (if n < 126 then n else if n < 65536 then 126 else 127)
    && (n >= 126 ==> FromBig(f[2..MaskStart(n)]) == n)
  }

  /** The beginning of a frame. */
  lemma FrameStart(opcode: WebSocket.nibble, data: seq<byte>, mask: Option<seq<byte>>, fin: bool)
    requires (mask.Some? ==> |mask.value| == 4) && |data| < WebSocket.TWO64
    ensures StartsFrame(WebSocket.FrameBytes(opcode, data, mask, fin), opcode, |data|, mask.Some?, fin)
  {
    var h, ext := WebSocket.FrameHead(opcode, |data|, mask, fin), WebSocket.LengthBytes(|data|);
    ExtensionLayout(|data|);
    HeadLayout(h);
    FrameParts(WebSocket.HeadBytes(h), ext, WebSocket.MaskBytes(mask), WebSocket.Unmasked(data, mask));
  }

  /** The rest of a frame: the 4 bytes of the mask, if any, and the payload, each byte combined by exclusive or with the
      mask byte of its place modulo 4. */
  lemma FrameLayout(opcode: WebSocket.nibble, data: seq<byte>, mask: Option<seq<byte>>, fin: bool)
    requires mask.Some? ==> |mask.value| == 4
    ensures var f, start := WebSocket.FrameBytes(opcode, data, mask, fin), MaskStart(|data|);
            var at := start + if mask.Some? then 4 else 0;
            && |f| == at + |data|
            && (mask.Some? ==> f[start..at] == mask.value)
            && (forall i :: 0 <= i < |data| ==>
                  f[at + i] == if mask.Some? then Xor(data[i], mask.value[i % 4]) else data[i])
  {
    var h, ext := WebSocket.FrameHead(opcode, |data|, mask, fin), WebSocket.LengthBytes(|data|);
    ExtensionLength(|data|);
    var sent := WebSocket.Unmasked(data, mask);
    FrameParts(WebSocket.HeadBytes(h), ext, WebSocket.MaskBytes(mask), sent);
    assert forall i :: 0 <= i < |data| ==> sent[i] == if mask.Some? then Xor(data[i], mask.value[i % 4]) else data[i];
  }

  lemma ExtensionLength(n: nat)
    ensures |WebSocket.LengthBytes(n)| == MaskStart(n) - 2
  {
  }

  lemma FrameParts(h: seq<byte>, ext: seq<byte>, m: seq<byte>, sent: seq<byte>)
    requires |h| == 2
    ensures var f, at := h + (ext + (m + sent)), 2 + |ext|;
            && |f| == at + |m| + |sent| && f[0] == h[0] && f[1] == h[1]
            && f[2..at] == ext && f[at..at + |m|] == m
            && (forall i :: 0 <= i < |sent| ==> f[at + |m| + i] == sent[i])
  {
  }

  lemma ExtensionLayout(n: nat)
    requires n < WebSocket.TWO64
    ensures var s := WebSocket.LengthBytes(n); |s| == MaskStart(n) - 2 && (n >= 126 ==> FromBig(s) == n)
  {
    WebSocket.Width64();
    if n >= 65536 {
      FixedRoundTrip(n, 8);
    } else if n >= 126 {
      EightBits(0);
      EightBits(8);
      FixedRoundTrip(n, 2);
    }
  }

  /** Bytes of extended length, and of the mask, behind the first two bytes. */
  function Extended(b: byte): nat { if b % 128 == 126 then 2 else if b % 128 == 127 then 8 else 0 }

  function MaskSize(b: byte): nat { if b >= 128 then 4 else 0 }

  /** The payload length a frame announces. */
  function Announced(s: seq<byte>): nat
    requires |s| >= 2 && 2 + Extended(s[1]) <= |s|
  {
    if Extended(s[1]) == 0 then s[1] % 128 else FromBig(s[2..2 + Extended(s[1])])
  }

  /** A receiver takes a data frame if and only if it is masked or comes from a server, is not empty, keeps the message
      under 32 MiB, and is there in full; otherwise the connection ends. */
  lemma TakenIff(s: seq<byte>, client: bool, st: WebSocket.Partial)
    requires |s| >= 2 && s[0] % 16 <= 2
    ensures var at := 2 + Extended(s[1]) + MaskSize(s[1]);
            WebSocket.FrameOk(WebSocket.HeadOf(s), s[2..], client, |st.data|) <==>
              && (client || s[1] >= 128) && at <= |s|
              && 0 < Announced(s) && |st.data| + Announced(s) < 32 * 1024 * 1024 && at + Announced(s) <= |s|
    ensures !WebSocket.FrameOk(WebSocket.HeadOf(s), s[2..], client, |st.data|) ==>
              WebSocket.Receive(s, client, st) == WebSocket.Closed
  {
    if 2 + Extended(s[1]) <= |s| {
      assert s[2..][..Extended(s[1])] == s[2..2 + Extended(s[1])];
    }
  }

  /** What it takes is the payload, each byte combined with the mask byte of its place modulo 4. */
  lemma TakenBytes(s: seq<byte>, client: bool, have: nat, i: nat)
    requires |s| >= 2 && WebSocket.FrameOk(WebSocket.HeadOf(s), s[2..], client, have)
    requires 2 + Extended(s[1]) <= |s| && i < Announced(s)
    ensures var data, e := WebSocket.FrameData(WebSocket.HeadOf(s), s[2..]), 2 + Extended(s[1]);
            && |data| == Announced(s) && e + MaskSize(s[1]) + i < |s|
            && data[i] == if s[1] >= 128 then Xor(s[e + 4 + i], s[e + i % 4]) else s[e + i]
  {
    assert s[2..][..Extended(s[1])] == s[2..2 + Extended(s[1])];
  }

  /** The heads of ping and pong: final, opcode 9 or 10, no mask, no payload. */
  lemma ControlLayout(ping: bool)
    ensures var s := WebSocket.ControlHead(ping);
            s == WebSocket.HeadBytes(WebSocket.Head(if ping then 9 else 10, 0, true, 0, false))
  {
  }
}
