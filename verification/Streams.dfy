/**
  Streams over a transport that moves any part of what is asked.

  Every choice of the transport, how many bytes and whether it fails, is left open. A `reliable` one
  never fails while it is connected; the end of the input is seen as 0. Any other may fail any finite
  number of times while it sends.
*/
module Streams {
  import opened Basics
  import opened Bits
  import opened Blocks
  import opened Buffers
  import opened ByteArrays
  import opened Fields

  /** How `writeFixSize` ends: it returns, its next transfer reads before the buffer, or, on a closed connection
      whose transfers touch no buffer, it goes on without end. */
  datatype WriteEnd = Returns | LeavesBuffer | Spins

  /** A successful call that was given `data`: without a failed transfer exactly the data went out, with one more
      than it. */
  ghost predicate Delivered(before: seq<byte>, after: seq<byte>, mayFail: nat, mayFail': nat, data: seq<byte>) {
    && mayFail' <= mayFail
    && (mayFail' == mayFail ==> after == before + data)
    && (mayFail' < mayFail ==> |after| > |before| + |data|)
  }

  /** Exactly the data went out if and only if no transfer failed. */
  lemma DeliveredIff(before: seq<byte>, after: seq<byte>, mayFail: nat, mayFail': nat, data: seq<byte>)
    requires Delivered(before, after, mayFail, mayFail', data)
    ensures mayFail' == mayFail <==> after == before + data
  {
    assert |before + data| == |before| + |data|;
  }

  /** Two calls in a row. */
  lemma DeliveredTwice(a: seq<byte>, b: seq<byte>, c: seq<byte>, f0: nat, f1: nat, f2: nat, x: seq<byte>, y: seq<byte>)
    requires Delivered(a, b, f0, f1, x) && Delivered(b, c, f1, f2, y)
    ensures Delivered(a, c, f0, f2, x + y)
  {
    assert a + x + y == a + (x + y);
  }

  class Stream {
    const reliable: bool
    var connected: bool
    var incoming: seq<byte>
    var outgoing: seq<byte>
    /** How many more transfers of a connected stream may fail while it sends. */
    var failures: nat

    constructor (reliable: bool, incoming: seq<byte>)
      ensures this.reliable == reliable && connected && this.incoming == incoming && outgoing == []
    {
      this.reliable, connected, this.incoming, outgoing := reliable, true, incoming, [];
      failures := *;
    }

    method Close()
      modifies this`connected
      ensures !connected
    {
      connected := false;
    }

    /** `recv`: a positive number of the next bytes, or a result that is not positive. */
    method Receive(n: nat) returns (data: seq<byte>, rc: int)
      modifies this`incoming
      ensures rc > 0 ==> rc <= n && rc <= |old(incoming)|
      ensures rc > 0 ==> data == old(incoming)[..rc] && incoming == old(incoming)[rc..]
      ensures rc <= 0 ==> data == [] && incoming == old(incoming)
      ensures reliable && connected && n > 0 ==> (rc > 0 <==> old(incoming) != [])
    {
      var fails: bool := *;
      if !connected || n == 0 || incoming == [] || (fails && !reliable) {
        var code: int :| code <= 0;
        return [], code;
      }
      rc :| 1 <= rc <= n && rc <= |incoming|;
      data, incoming := incoming[..rc], incoming[rc..];
    }

    /** `send`: takes a positive number of the bytes, or returns a result that is not positive. */
    method Transmit(data: seq<byte>) returns (rc: int)
      modifies this`outgoing, this`failures
      ensures rc > 0 ==> rc <= |data| && outgoing == old(outgoing) + data[..rc]
      ensures rc <= 0 ==> outgoing == old(outgoing)
      ensures reliable && connected ==> rc >= 0 && (rc > 0 <==> data != [])
      ensures !connected ==> rc == -1
      ensures if connected && rc < 0 then failures == old(failures) - 1 else failures == old(failures)
    {
      var fails: bool, stalls: bool := *, *;
      if !connected {
        return -1;
      }
      if fails && !reliable && failures > 0 {
        failures := failures - 1;
        rc :| rc < 0;
        return;
      }
      if data == [] || (stalls && !reliable) {
        return 0;
      }
      rc :| 1 <= rc <= |data|;
      outgoing := outgoing + data[..rc];
    }

    /** `readFixSize`: all `n` bytes, or a result that is not positive. */
    method ReadFixSize(n: nat) returns (data: seq<byte>, rc: int)
      modifies this`incoming
      ensures rc > 0 ==> rc == n && n <= |old(incoming)| && data == old(incoming)[..n] && incoming == old(incoming)[n..]
      ensures exists k :: 0 <= k <= |old(incoming)| && incoming == old(incoming)[k..]
      ensures n == 0 ==> rc == 0 && incoming == old(incoming)
      ensures reliable && connected && n > 0 ==> (rc == n <==> n <= |old(incoming)|)
    {
      data := [];
      var left := n;
      ghost var all := incoming;
      assert all == all[0..];
      while left > 0
        invariant 0 <= left <= n && n - left <= |all|
        invariant data == all[..n - left] && incoming == all[n - left..]
      {
        var piece, len := Receive(left);
        if len <= 0 {
          return data, len;
        }
        assert all[..n - left] + all[n - left..][..len] == all[..n - left + len];
        assert all[n - left..][len..] == all[n - left + len..];
        data := data + piece;
        left := left - len;
      }
      return data, n;
    }

    /** `writeFixSize`. The result of each transfer is kept unsigned and added to the offset, so a failed one is
        not recognised: it moves the offset back, and the bytes before it are sent again. When the call
        succeeds, what went out is the data if and only if no transfer failed, and more otherwise. */
    method WriteFixSize(data: seq<byte>) returns (rc: int, end: WriteEnd)
      modifies this`outgoing, this`failures
      ensures old(outgoing) <= outgoing && failures <= old(failures)
      ensures rc > 0 ==> connected && end == Returns && rc == |data|
      ensures rc > 0 ==> Delivered(old(outgoing), outgoing, old(failures), failures, data)
      ensures rc > 0 ==> (failures == old(failures) <==> outgoing == old(outgoing) + data)
      ensures failures == old(failures) ==> end != LeavesBuffer && outgoing <= old(outgoing) + data
      ensures end == LeavesBuffer ==> connected && rc <= 0
      ensures end == Spins <==> !connected && data != []
      ensures data == [] ==> rc == 0 && outgoing == old(outgoing)
      ensures reliable && connected ==> failures == old(failures) && end == Returns && rc == |data|
    {
      var offset := 0;
      ghost var sent, back: nat := [], 0;
      while offset < |data|
        invariant 0 <= offset <= |data| && |sent| == offset + back && outgoing == old(outgoing) + sent
        invariant failures <= old(failures) && (back == 0 <==> failures == old(failures))
        invariant back == 0 ==> sent == data[..offset]
        invariant data == [] ==> sent == []
        invariant offset > 0 ==> connected
        invariant reliable && connected ==> back == 0
        decreases failures, |data| - offset
      {
        var len := Transmit(data[offset..]);
        if len == 0 {
          return 0, Returns;
        }
        if !connected {
          return 0, Spins;
        }
        if len > 0 {
          SliceOn(data, offset, len);
          sent := sent + data[offset..][..len];
        } else {
          back := back - len;
        }
        offset := offset + len;
        if offset < 0 {
          return 0, LeavesBuffer;
        }
      }
      assert data[..|data|] == data;
      return |data|, Returns;
    }

    /** `SocketStream::read` into a byte array; a fault when the growth formula left no room. `done` is what
        was written since the state `b0`. */
    method ReadInto(ba: ByteArray, n: nat, ghost b0: Buf, ghost done: seq<byte>) returns (rc: int, fault: bool)
      requires ba.Valid() && Sound(b0) && Wrote(b0, ba.View(), done) && n > 0 && this !in ba.Nodes
      modifies this`incoming, ba, ba.Nodes
      ensures fresh(ba.Nodes - old(ba.Nodes)) && old(ba.Nodes) <= ba.Nodes
      ensures fault <==> connected && !Room(Free(old(ba.View())), ba.base, n)
      ensures !fault ==> ba.Valid() && Sound(ba.View())
      ensures !fault && rc > 0 ==>
                && rc <= n && rc <= |old(incoming)| && incoming == old(incoming)[rc..]
                && Wrote(b0, ba.View(), done + old(incoming)[..rc]) && Free(ba.View()) + rc >= n
      ensures !fault && n <= Free(old(ba.View())) ==> |ba.blocks| == |old(ba.blocks)|
      ensures fault || rc <= 0 ==> incoming == old(incoming)
      ensures rc > 0 ==> connected
      ensures reliable && connected && !fault ==> (rc > 0 <==> old(incoming) != [])
    {
      if !connected {
        return -1, false;
      }
      ghost var b, more := ba.View(), [];
      var iovs, ok;
      iovs, ok, more := ba.GetWriteBuffers(n);
      WriteTilesIff(b, n, more);
      if !ok {
        return 0, true;
      }
      GrowSound(b, n, more);
      var data;
      data, rc := Receive(n);
      fault := false;
      if rc > 0 {
        Deposit(ba, iovs, n, data, b, more);
        WroteTwice(b0, b, ba.View(), done, data);
      }
    }

    /** `readFixSize` into a byte array: the bytes are written at its position, however they arrive. */
    method ReadFixInto(ba: ByteArray, n: nat) returns (rc: int, fault: bool)
      requires ba.Valid() && Sound(ba.View()) && this !in ba.Nodes
      modifies this`incoming, ba, ba.Nodes
      ensures fresh(ba.Nodes - old(ba.Nodes)) && old(ba.Nodes) <= ba.Nodes
      ensures fault <==> connected && n > 0 && !Room(Free(old(ba.View())), ba.base, n)
      ensures !fault && rc > 0 ==>
                && rc == n && n <= |old(incoming)| && incoming == old(incoming)[n..]
                && ba.Valid() && Wrote(old(ba.View()), ba.View(), old(incoming)[..n])
      ensures !fault && rc > 0 && n <= Free(old(ba.View())) ==> |ba.blocks| == |old(ba.blocks)|
      ensures (n == 0 ==> rc == 0) && (rc > 0 ==> connected)
      ensures reliable && connected && n > 0 && !fault ==> (rc == n <==> n <= |old(incoming)|)
    {
      var left := n;
      ghost var all, b, done := incoming, ba.View(), [];
      ghost var room := Room(Free(b), b.base, n);
      WroteNothing(b);
      while left > 0
        invariant 0 <= left <= n && |done| == n - left && all == done + incoming
        invariant fresh(ba.Nodes - old(ba.Nodes)) && old(ba.Nodes) <= ba.Nodes
        invariant ba.Valid() && Wrote(b, ba.View(), done)
        invariant left < n ==> connected && room
        invariant Underway(b, ba.View(), n, left)
      {
        UnderwayRoom(b, ba.View(), n, left);
        ghost var was := incoming;
        var len;
        len, fault := ReadInto(ba, left, b, done);
        if fault {
          return 0, true;
        }
        if len <= 0 {
          return len, false;
        }
        done := done + was[..len];
        left := left - len;
      }
      assert done == all[..n] && incoming == all[n..];
      return n, false;
    }

    /** `SocketStream::write` from a byte array: at most the readable bytes. */
    method WriteFrom(ba: ByteArray, n: nat) returns (rc: int)
      requires ba.Valid() && Sound(ba.View()) && this !in ba.Nodes
      modifies this`outgoing, this`failures, ba`cur, ba`at, ba`position, ba`size
      ensures ba.Valid() && Sound(ba.View()) && failures <= old(failures)
      ensures rc > 0 ==>
                && rc <= n && rc <= |Readable(old(ba.View()))| && failures == old(failures)
                && outgoing == old(outgoing) + Readable(old(ba.View()))[..rc]
                && Moved(old(ba.View()), ba.View(), rc) && Readable(ba.View()) == Readable(old(ba.View()))[rc..]
      ensures rc <= 0 ==> outgoing == old(outgoing) && ba.View() == old(ba.View())
      ensures reliable && connected ==> failures == old(failures)
      ensures reliable && connected ==> (rc > 0 <==> 0 < n && Readable(old(ba.View())) != [])
    {
      if !connected {
        return -1;
      }
      var data := NextBytes(ba, n);
      rc := Transmit(data);
      if rc > 0 {
        assert data[..rc] == Readable(ba.View())[..rc];
        MoveOn(ba, rc);
      }
    }

    /** `writeFixSize` from a byte array: its next bytes go out in order, however they are split, and a failed
        transfer is recognised. Asked for more than is readable it sends all of that and ends as an error. */
    method WriteFixFrom(ba: ByteArray, n: nat) returns (rc: int, ghost sent: nat)
      requires ba.Valid() && Sound(ba.View()) && this !in ba.Nodes
      modifies this`outgoing, this`failures, ba`cur, ba`at, ba`position, ba`size
      ensures sent <= n && sent <= |Readable(old(ba.View()))|
      ensures outgoing == old(outgoing) + Readable(old(ba.View()))[..sent]
      ensures ba.Valid() && Moved(old(ba.View()), ba.View(), sent) && failures <= old(failures)
      ensures rc > 0 ==> rc == n == sent && failures == old(failures)
      ensures reliable && connected ==>
                && failures == old(failures) && sent == Min(n, |Readable(old(ba.View()))|)
                && (n <= |Readable(old(ba.View()))| ==> rc == n) && (n > |Readable(old(ba.View()))| ==> rc <= 0)
    {
      var left := n;
      sent := 0;
      ghost var all := Readable(ba.View());
      while left > 0
        invariant sent + left == n && 0 <= left && sent <= |all| && failures == old(failures)
        invariant ba.Valid() && Moved(old(ba.View()), ba.View(), sent)
        invariant Readable(ba.View()) == all[sent..] && outgoing == old(outgoing) + all[..sent]
      {
        var len := WriteFrom(ba, left);
        if len <= 0 {
          return len, sent;
        }
        SliceOn(all, sent, len);
        sent := sent + len;
        left := left - len;
      }
      return n, sent;
    }
  }

  lemma SliceOn(s: seq<byte>, k: nat, len: nat)
    requires k + len <= |s|
    ensures s[..k] + s[k..][..len] == s[..k + len] && s[k..][len..] == s[k + len..]
  {
  }

  /** What the iovecs for `n` bytes hold: the next readable bytes. */
  method NextBytes(ba: ByteArray, n: nat) returns (data: seq<byte>)
    requires ba.Valid() && Sound(ba.View())
    ensures data == Readable(ba.View())[..Min(n, |Readable(ba.View())|)]
  {
    ReadTilesAreReadable(ba.View(), n);
    var iovs, k, ok := ba.GetReadBuffers(n);
    data := ba.GatherFrom(iovs, ReadTiles(ba.View(), n).value);
  }

  /** Moves the position behind the next `n` readable bytes. */
  method MoveOn(ba: ByteArray, n: nat)
    requires ba.Valid() && Sound(ba.View()) && n <= |Readable(ba.View())|
    modifies ba`cur, ba`at, ba`position, ba`size
    ensures ba.Valid() && Moved(old(ba.View()), ba.View(), n)
    ensures Readable(ba.View()) == Readable(old(ba.View()))[n..]
  {
    ghost var b := ba.View();
    SetPosSyncs(b, b.position + n);
    var moved := ba.SetPosition(ba.position + n);
    MovedReadable(b, ba.View(), n);
  }

  /** Bytes that arrived through the iovecs are stored at the position, which moves behind them. */
  method Deposit(ba: ByteArray, iovs: seq<Iov>, n: nat, data: seq<byte>, ghost b: Buf, ghost more: seq<Block>)
    requires ba.Valid() && Sound(b) && GrowsBy(b, n, more) && ba.View() == Grow(b, more) && 0 < |data| <= n
    requires WriteTiles(ba.View(), n).Some? && TilesFit(WriteTiles(ba.View(), n).value, |ba.chain|, ba.base)
    requires ba.Pieces(iovs, WriteTiles(ba.View(), n).value)
    modifies ba`blocks, ba`cur, ba`at, ba`position, ba`size, ba.Nodes
    ensures ba.Valid() && Wrote(b, ba.View(), data) && Free(ba.View()) + |data| == Free(old(ba.View()))
    ensures |ba.blocks| == |old(ba.blocks)|
  {
    ghost var g := ba.View();
    Land(ba, iovs, n, data, b, more);
    ReceivedWrote(b, n, more, data);
    ReceivedFree(g, n, data);
  }

  method Land(ba: ByteArray, iovs: seq<Iov>, n: nat, data: seq<byte>, ghost b: Buf, ghost more: seq<Block>)
    requires ba.Valid() && Sound(b) && GrowsBy(b, n, more) && ba.View() == Grow(b, more) && 0 < |data| <= n
    requires WriteTiles(ba.View(), n).Some? && TilesFit(WriteTiles(ba.View(), n).value, |ba.chain|, ba.base)
    requires ba.Pieces(iovs, WriteTiles(ba.View(), n).value)
    modifies ba`blocks, ba`cur, ba`at, ba`position, ba`size, ba.Nodes
    ensures ba.Valid() && Received(old(ba.View()), n, data) == Some(ba.View())
  {
    GrowSynced(b, n, more);
    ScatteredAt(ba.View(), n, data);
    ScatteredForm(ba.View(), WriteTiles(ba.View(), n).value, data);
    ba.ScatterInto(iovs, data, WriteTiles(ba.View(), n).value);
    var moved := ba.SetPosition(ba.position + |data|);
  }

  lemma ReceivedFree(g: Buf, n: nat, data: seq<byte>)
    requires Formed(g) && WriteTiles(g, n).Some? && TilesFit(WriteTiles(g, n).value, |g.blocks|, g.base)
    requires Received(g, n, data).Some? && Formed(Received(g, n, data).value)
    ensures var r := Received(g, n, data).value; Free(r) + |data| == Free(g) && |r.blocks| == |g.blocks|
  {
  }

  lemma GrowSound(b: Buf, n: nat, more: seq<Block>)
    requires Sound(b) && GrowsBy(b, n, more)
    ensures Sound(Grow(b, more)) && (Free(Grow(b, more)) >= n <==> Room(Free(b), b.base, n))
  {
    GrowSynced(b, n, more);
    GrowFormed(b, n, more);
    GrowRoom(b, n, more);
  }

  /** Between transfers: untouched before the first one, with room for the rest after it. */
  ghost predicate Underway(b: Buf, v: Buf, n: nat, left: nat)
    requires Formed(b) && Formed(v)
  {
    && (left == n ==> v == b)
    && (left < n ==> left <= Free(v))
    && (n <= Free(b) ==> |v.blocks| == |b.blocks|)
  }

  lemma UnderwayRoom(b: Buf, v: Buf, n: nat, left: nat)
    requires Formed(b) && Formed(v) && Underway(b, v, n, left) && left <= n
    ensures left == n ==> Room(Free(v), v.base, left) == Room(Free(b), b.base, n)
    ensures left < n || n <= Free(b) ==> left <= Free(v) && Room(Free(v), v.base, left)
  {
  }

  lemma WroteNothing(b: Buf)
    requires Sound(b)
    ensures Wrote(b, b, [])
  {
    assert Overwrite(Stored(b), b.position, []) == Stored(b);
  }
}
