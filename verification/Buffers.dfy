/** The operations of the byte array on its value, and what they mean for the stored bytes. */
module Buffers {
  import opened Basics
  import opened Bits
  import opened Blocks

  /** A read that ends, throws `out_of_range`, or follows the null cursor. */
  datatype Outcome<+T> = Got(value: T) | OutOfRange | Fault

  function NewBuf(base: nat, block: Block): Buf { Buf(base, [block], 0, 0, 0) }

  // ---------------------------------------------------------------- write

  function Landed(g: Buf, r: Placed, n: nat): Buf {
    g.(blocks := r.blocks, cur := r.cur, position := g.position + n, size := Max(g.size, g.position + n))
  }

  function WriteBuf(b: Buf, data: seq<byte>, more: seq<Block>): Option<Buf>
    requires Formed(b) && GrowsBy(b, |data|, more)
  {
    if data == [] then Some(b)
    else
      var g := Grow(b, more);
      var r := Put(g.blocks, g.base, g.cur, Off(g.position, g.base), data);
      if r.None? then None else Some(Landed(g, r.value, |data|))
  }

  /** `s` with `data` written at `p`, which may reach beyond its end. */
  function Overwrite(s: seq<byte>, p: nat, data: seq<byte>): seq<byte>
    requires p <= |s|
  {
    s[..p] + data + (if p + |data| < |s| then s[p + |data|..] else [])
  }

  /** The state `b'` is `b` with `data` written at the position. */
  ghost predicate Wrote(b: Buf, b': Buf, data: seq<byte>)
    requires Synced(b) && b.size <= Capacity(b)
  {
    && Synced(b') && b'.size <= Capacity(b') && b'.base == b.base
    && b'.position == b.position + |data| && b'.size == Max(b.size, b'.position)
    && Stored(b') == Overwrite(Stored(b), b.position, data)
  }

  lemma WriteFormed(b: Buf, data: seq<byte>, more: seq<Block>)
    requires Formed(b) && GrowsBy(b, |data|, more) && WriteBuf(b, data, more).Some?
    ensures Formed(WriteBuf(b, data, more).value)
  {
    if data != [] {
      var g := Grow(b, more);
      GrowFormed(b, |data|, more);
      PutIsSplice(g.blocks, g.base, g.cur, Off(g.position, g.base), data);
      FlatLength(g.blocks, g.base);
      AheadOff(g);
    }
  }

  /** The place the loops work at is never before the position. */
  lemma AheadOff(b: Buf)
    requires Formed(b)
    ensures b.position <= Times(b.cur, b.base) + Off(b.position, b.base)
  {
    IdxOff(b.position, b.base);
    var i := Idx(b.position, b.base);
    if b.cur < i { TimesMono(b.cur, i, b.base); }
    else { TimesMono(i, b.cur, b.base); }
  }

  /** A write succeeds if and only if the growth formula left room. */
  lemma WriteSucceedsIff(b: Buf, data: seq<byte>, more: seq<Block>)
    requires Synced(b) && GrowsBy(b, |data|, more)
    ensures WriteBuf(b, data, more).Some? <==> data == [] || Room(Free(b), b.base, |data|)
  {
    if data != [] {
      var g := Grow(b, more);
      GrowRoom(b, |data|, more);
      GrowSynced(b, |data|, more);
      SyncedCursor(g);
      PutFits(g.blocks, g.base, g.cur, Off(g.position, g.base), data);
    }
  }

  /** Splicing the grown flat view, seen in the stored bytes. */
  lemma SpliceStored(old_: seq<byte>, more: seq<byte>, size: nat, p: nat, data: seq<byte>)
    requires p <= size <= |old_| && p + |data| <= |old_ + more|
    ensures Splice(old_ + more, p, data)[..Max(size, p + |data|)] == Overwrite(old_[..size], p, data)
  {
  }

  /** A write that succeeds overwrites the stored bytes at the position and moves the position behind them. */
  lemma WriteOverwrites(b: Buf, data: seq<byte>, more: seq<Block>)
    requires Synced(b) && b.size <= Capacity(b) && GrowsBy(b, |data|, more) && WriteBuf(b, data, more).Some?
    ensures Wrote(b, WriteBuf(b, data, more).value, data)
  {
    if data == [] {
      assert Overwrite(Stored(b), b.position, []) == Stored(b);
    } else {
      var g := Grow(b, more);
      GrowSynced(b, |data|, more);
      SyncedCursor(g);
      PutIsSplice(g.blocks, g.base, g.cur, Off(g.position, g.base), data);
      WriteFormed(b, data, more);
      WriteStored(b, g, WriteBuf(b, data, more).value, data, more);
    }
  }

  lemma WriteStored(b: Buf, g: Buf, r: Buf, data: seq<byte>, more: seq<Block>)
    requires Formed(b) && b.size <= Capacity(b) && g.blocks == b.blocks + more
    requires Formed(r) && r.size == Max(b.size, b.position + |data|)
    requires b.position + |data| <= |Flat(g.blocks)| && Flat(r.blocks) == Splice(Flat(g.blocks), b.position, data)
    ensures r.size <= Capacity(r) && Stored(r) == Overwrite(Stored(b), b.position, data)
  {
    FlatAppend(b.blocks, more);
    FlatLength(b.blocks, b.base);
    FlatLength(r.blocks, r.base);
    SpliceStored(Flat(b.blocks), Flat(more), b.size, b.position, data);
  }

  /** Writing twice is writing the concatenation. */
  lemma WroteTwice(b0: Buf, b1: Buf, b2: Buf, x: seq<byte>, y: seq<byte>)
    requires Synced(b0) && b0.size <= Capacity(b0) && Wrote(b0, b1, x) && Wrote(b1, b2, y)
    ensures Wrote(b0, b2, x + y)
  {
  }

  // ---------------------------------------------------------------- read

  /** The outcome of a read and the buffer after it. */
  datatype Read<+T> = Read(out: Outcome<T>, buf: Buf) {
    predicate IsFailure() { !out.Got? }

    function PropagateFailure<U>(): (r: Read<U>)
      requires IsFailure()
      ensures r.buf == buf && r.IsFailure()
    {
      Read(if out.Fault? then Fault else OutOfRange, buf)
    }

    function Extract(): (T, Buf)
      requires !IsFailure()
    {
      (out.value, buf)
    }
  }

  function ReadBuf(b: Buf, n: nat): Read<seq<byte>>
    requires Formed(b)
  {
    if n > b.size - b.position then Read(OutOfRange, b)
    else if b.cur >= |b.blocks| then Read(Fault, b)
    else
      var off := Off(b.position, b.base);
      var r := Take(b.blocks, b.base, b.cur, off, b.base - off, n);
      if r.None? then Read(Fault, b)
      else Read(Got(r.value.data), b.(cur := r.value.cur, position := b.position + n))
  }

  lemma {:induction false} TakeBound(bs: seq<Block>, base: nat, cur: nat, off: nat, ncap: nat, n: nat)
    requires Whole(bs, base) && 0 < ncap && off + ncap <= base && n > 0 && Take(bs, base, cur, off, ncap, n).Some?
    ensures var r := Take(bs, base, cur, off, ncap, n).value;
            && r.cur <= |bs| && Times(cur, base) + off + n <= Times(|bs|, base)
            && Times(cur, base) + off + n < Times(r.cur, base) + base
    decreases n
  {
    if ncap >= n {
      TimesMono(cur, |bs|, base);
    } else {
      TakeBound(bs, base, cur + 1, 0, ncap, n - ncap);
    }
  }

  lemma ReadFormed(b: Buf, n: nat)
    requires Formed(b)
    ensures Formed(ReadBuf(b, n).buf)
  {
    if ReadBuf(b, n).out.Got? && n > 0 {
      AheadOff(b);
      TakeBound(b.blocks, b.base, b.cur, Off(b.position, b.base), b.base - Off(b.position, b.base), n);
    }
  }

  /** `b'` is `b` with the position moved `n` bytes on. */
  predicate Moved(b: Buf, b': Buf, n: nat) {
    Synced(b') && b' == b.(cur := b'.cur, position := b.position + n)
  }

  /** In the safe range a read returns the next bytes and moves the position behind them. */
  lemma ReadGives(b: Buf, n: nat)
    requires Synced(b) && b.size <= Capacity(b) && n <= b.size - b.position && b.position < Capacity(b)
    requires ReadSafe(b.base, Off(b.position, b.base), n)
    ensures ReadBuf(b, n).out == Got(Readable(b)[..n]) && Moved(b, ReadBuf(b, n).buf, n)
  {
    TakeAhead(b, n);
    ReadFormed(b, n);
    ReadableSlice(Flat(b.blocks), b.size, b.position, n);
  }

  /** The loop of `read` from the position on, in the safe range. */
  lemma TakeAhead(b: Buf, n: nat)
    requires Synced(b) && b.position + n <= Capacity(b) && b.position < Capacity(b)
    requires ReadSafe(b.base, Off(b.position, b.base), n)
    ensures var off := Off(b.position, b.base); var r := Take(b.blocks, b.base, b.cur, off, b.base - off, n);
            && b.cur < |b.blocks| && |Flat(b.blocks)| == Capacity(b)
            && r.Some? && r.value.data == Flat(b.blocks)[b.position..b.position + n]
            && CursorAt(r.value, b.base, b.position + n)
  {
    SyncedCursor(b);
    FlatLength(b.blocks, b.base);
    TakeSafe(b.blocks, b.base, b.cur, Off(b.position, b.base), n);
  }

  lemma TakeSafe(bs: seq<Block>, base: nat, cur: nat, off: nat, n: nat)
    requires Whole(bs, base) && off < base && cur < |bs| && ReadSafe(base, off, n)
    requires Times(cur, base) + off + n <= Times(|bs|, base)
    ensures TakesSlice(bs, base, cur, off, n)
    ensures CursorAt(Take(bs, base, cur, off, base - off, n).value, base, Times(cur, base) + off + n)
  {
    if off == 0 { TakeAligned(bs, base, cur, n); } else { TakeNear(bs, base, cur, off, n); }
  }

  lemma ReadableSlice(s: seq<byte>, size: nat, p: nat, n: nat)
    requires p + n <= size <= |s|
    ensures s[..size][p..][..n] == s[p..p + n]
  {
  }

  /** One byte is always in the safe range, so byte-wise readers never meet the stale block capacity. */
  lemma ReadOne(b: Buf)
    requires Synced(b) && b.size <= Capacity(b)
    ensures b.position == b.size ==> ReadBuf(b, 1) == Read(OutOfRange, b)
    ensures b.position < b.size ==> ReadBuf(b, 1).out == Got([Readable(b)[0]]) && Moved(b, ReadBuf(b, 1).buf, 1)
  {
    if b.position < b.size {
      ReadGives(b, 1);
      assert Readable(b)[..1] == [Readable(b)[0]];
    }
  }

  /** Reading nothing at the end of the last block follows the null cursor. */
  lemma ReadNothingFaultsIff(b: Buf)
    requires Synced(b)
    ensures ReadBuf(b, 0).out == Fault <==> b.position == Capacity(b)
    ensures ReadBuf(b, 0).out == Got([]) <==> b.position < Capacity(b)
  {
    SyncedCursor(b);
  }

  // ---------------------------------------------------------------- position and clear

  /** `setPosition`; absent when it throws. */
  function SetPos(b: Buf, v: nat): Option<Buf>
    requires Formed(b)
  {
    if v > Capacity(b) then None else Some(b.(cur := Idx(v, b.base), position := v, size := Max(b.size, v)))
  }

  /** Moving the position puts the cursor on its block again, wherever it was. */
  lemma SetPosSyncs(b: Buf, v: nat)
    requires Formed(b) && v <= Capacity(b)
    ensures Synced(SetPos(b, v).value)
  {
    IdxOff(v, b.base);
    var i := Idx(v, b.base);
    if i > |b.blocks| { TimesMono(|b.blocks|, i, b.base); }
  }

  /** `clear` forgets all blocks but the first and moves to its beginning; the size stays. */
  function Cleared(b: Buf): Buf
    requires Formed(b)
  {
    b.(blocks := b.blocks[..1], cur := 0, position := 0)
  }

  /** The result is in order, but its size is backed by blocks only if it was at most one block, and it is
      empty, as documented, only if it was empty before. */
  lemma ClearSound(b: Buf)
    requires Formed(b)
    ensures Synced(Cleared(b))
    ensures Cleared(b).size <= Capacity(Cleared(b)) <==> b.size <= b.base
    ensures Cleared(b).size == 0 <==> b.size == 0
  {
    assert Times(1, b.base) == b.base;
  }

  // ---------------------------------------------------------------- scatter and gather

  /** One entry of an iovec list: a piece of block `block`. */
  datatype Tile = Tile(block: nat, off: nat, len: nat)

  /** The loop of `getReadBuffers` and `getWriteBuffers`. */
  function Tiles(count: nat, base: nat, cur: nat, off: nat, n: nat): Option<seq<Tile>>
    requires off < base
    decreases n
  {
    if cur >= count then None
    else if base - off >= n then Some([Tile(cur, off, n)])
    else
      var r := Tiles(count, base, cur + 1, 0, n - (base - off));
      if r.None? then None else Some([Tile(cur, off, base - off)] + r.value)
  }

  predicate TilesFit(ts: seq<Tile>, count: nat, base: nat) {
    forall i :: 0 <= i < |ts| ==> ts[i].block < count && ts[i].off + ts[i].len <= base
  }

  lemma {:induction false} TilesExist(count: nat, base: nat, cur: nat, off: nat, n: nat)
    requires off < base && n > 0 && cur <= count
    ensures Tiles(count, base, cur, off, n).Some? <==> Times(cur, base) + off + n <= Times(count, base)
    ensures Tiles(count, base, cur, off, n).Some? ==> TilesFit(Tiles(count, base, cur, off, n).value, count, base)
    decreases n
  {
    if cur < count {
      TimesMono(cur, count, base);
      if base - off < n { TilesExist(count, base, cur + 1, 0, n - (base - off)); }
    }
  }

  /** What sending through the list transfers. */
  function Gather(bs: seq<Block>, base: nat, ts: seq<Tile>): seq<byte>
    requires Whole(bs, base) && TilesFit(ts, |bs|, base)
  {
    if ts == [] then [] else bs[ts[0].block][ts[0].off..ts[0].off + ts[0].len] + Gather(bs, base, ts[1..])
  }

  ghost predicate GathersTo(bs: seq<Block>, base: nat, ts: seq<Tile>, p: nat, n: nat)
    requires Whole(bs, base)
  {
    TilesFit(ts, |bs|, base) && p + n <= |Flat(bs)| && Gather(bs, base, ts) == Flat(bs)[p..p + n]
  }

  /** The pieces, in order, are exactly the requested range of the flat view. */
  lemma {:induction false} TilesAreSlice(bs: seq<Block>, base: nat, cur: nat, off: nat, n: nat)
    requires Whole(bs, base) && off < base && n > 0 && cur <= |bs| && Tiles(|bs|, base, cur, off, n).Some?
    ensures GathersTo(bs, base, Tiles(|bs|, base, cur, off, n).value, Times(cur, base) + off, n)
    decreases n
  {
    if base - off >= n {
      assert [Tile(cur, off, n)][1..] == [];
      FlatPiece(bs, base, cur, off, n);
      assert Gather(bs, base, []) == [];
    } else {
      TilesAreSlice(bs, base, cur + 1, 0, n - (base - off));
      GatherMore(bs, base, cur, off, n, Tiles(|bs|, base, cur + 1, 0, n - (base - off)).value);
    }
  }

  lemma GatherMore(bs: seq<Block>, base: nat, cur: nat, off: nat, n: nat, ts: seq<Tile>)
    requires Whole(bs, base) && off < base && n > base - off && cur < |bs|
    requires GathersTo(bs, base, ts, Times(cur + 1, base), n - (base - off))
    ensures GathersTo(bs, base, [Tile(cur, off, base - off)] + ts, Times(cur, base) + off, n)
  {
    assert ([Tile(cur, off, base - off)] + ts)[1..] == ts;
    FlatPiece(bs, base, cur, off, base - off);
    JoinSlices(Flat(bs), Times(cur, base) + off, base - off, n);
  }

  /** What receiving `data` through the list stores: the pieces are filled in order. */
  function Scatter(bs: seq<Block>, base: nat, ts: seq<Tile>, data: seq<byte>): (r: seq<Block>)
    requires Whole(bs, base) && TilesFit(ts, |bs|, base)
    ensures Whole(r, base) && |r| == |bs|
    decreases |ts|
  {
    if ts == [] then bs
    else
      var k := Min(|data|, ts[0].len);
      Scatter(bs[ts[0].block := Splice(bs[ts[0].block], ts[0].off, data[..k])], base, ts[1..], data[k..])
  }

  ghost predicate ScattersTo(bs: seq<Block>, base: nat, ts: seq<Tile>, data: seq<byte>, p: nat)
    requires Whole(bs, base)
  {
    && TilesFit(ts, |bs|, base) && p + |data| <= |Flat(bs)|
    && Flat(Scatter(bs, base, ts, data)) == Splice(Flat(bs), p, data)
  }

  /** Received data, whole or partial, lands on the flat view from the start of the range on. */
  lemma {:induction false} ScatterIsSplice(bs: seq<Block>, base: nat, cur: nat, off: nat, n: nat, data: seq<byte>)
    requires Whole(bs, base) && off < base && n > 0 && cur <= |bs| && |data| <= n
    requires Tiles(|bs|, base, cur, off, n).Some?
    ensures ScattersTo(bs, base, Tiles(|bs|, base, cur, off, n).value, data, Times(cur, base) + off)
    decreases n
  {
    if base - off >= n {
      ScatterLast(bs, base, cur, off, n, data);
    } else {
      var k := Min(|data|, base - off);
      var bs' := bs[cur := Splice(bs[cur], off, data[..k])];
      ScatterIsSplice(bs', base, cur + 1, 0, n - (base - off), data[k..]);
      ScatterMore(bs, bs', base, cur, off, data, Tiles(|bs|, base, cur + 1, 0, n - (base - off)).value);
    }
  }

  lemma ScatterLast(bs: seq<Block>, base: nat, cur: nat, off: nat, n: nat, data: seq<byte>)
    requires Whole(bs, base) && off < base && cur < |bs| && n <= base - off && |data| <= n
    ensures ScattersTo(bs, base, [Tile(cur, off, n)], data, Times(cur, base) + off)
  {
    var t := Tile(cur, off, n);
    assert [t][1..] == [] && data[..|data|] == data;
    FlatSplice(bs, base, cur, off, data);
    assert Scatter(bs[cur := Splice(bs[cur], off, data)], base, [], []) == bs[cur := Splice(bs[cur], off, data)];
    assert Scatter(bs, base, [t], data)
        == Scatter(bs[cur := Splice(bs[cur], off, data)], base, [t][1..], data[|data|..]);
  }

  lemma ScatterMore(bs: seq<Block>, bs': seq<Block>, base: nat, cur: nat, off: nat, data: seq<byte>, ts: seq<Tile>)
    requires Whole(bs, base) && off < base && cur + 1 <= |bs|
    requires bs' == bs[cur := Splice(bs[cur], off, data[..Min(|data|, base - off)])]
    requires ScattersTo(bs', base, ts, data[Min(|data|, base - off)..], Times(cur + 1, base))
    ensures ScattersTo(bs, base, [Tile(cur, off, base - off)] + ts, data, Times(cur, base) + off)
  {
    FlatRest(bs, bs', base, cur, off, data);
    ScatterHead(bs, base, Tile(cur, off, base - off), ts, data);
  }

  lemma FlatRest(bs: seq<Block>, bs': seq<Block>, base: nat, cur: nat, off: nat, data: seq<byte>)
    requires Whole(bs, base) && off < base && cur < |bs|
    requires bs' == bs[cur := Splice(bs[cur], off, data[..Min(|data|, base - off)])]
    requires Times(cur + 1, base) + |data| - Min(|data|, base - off) <= |Flat(bs')|
    ensures Times(cur, base) + off + |data| <= |Flat(bs)|
    ensures Splice(Flat(bs'), Times(cur + 1, base), data[Min(|data|, base - off)..])
            == Splice(Flat(bs), Times(cur, base) + off, data)
  {
    var p, len := Times(cur, base) + off, base - off;
    assert p + len == Times(cur + 1, base);
    FlatSplice(bs, base, cur, off, data[..Min(|data|, len)]);
    FlatPiece(bs, base, cur, off, len);
    SpliceRest(Flat(bs), Flat(bs'), p, len, data);
  }

  lemma ScatterHead(bs: seq<Block>, base: nat, t: Tile, ts: seq<Tile>, data: seq<byte>)
    requires Whole(bs, base) && t.block < |bs| && t.off + t.len <= base && TilesFit(ts, |bs|, base)
    ensures TilesFit([t] + ts, |bs|, base)
    ensures var k := Min(|data|, t.len);
            Scatter(bs, base, [t] + ts, data)
            == Scatter(bs[t.block := Splice(bs[t.block], t.off, data[..k])], base, ts, data[k..])
  {
    assert ([t] + ts)[1..] == ts;
  }

  lemma SpliceRest(s: seq<byte>, s': seq<byte>, p: nat, len: nat, data: seq<byte>)
    requires p + Max(len, |data|) <= |s| && s' == Splice(s, p, data[..Min(|data|, len)])
    ensures Splice(s', p + len, data[Min(|data|, len)..]) == Splice(s, p, data)
  {
  }

  /** The list `getReadBuffers` builds for `len` bytes; at most the readable ones. */
  function ReadTiles(b: Buf, len: nat): Option<seq<Tile>>
    requires Formed(b)
  {
    var n := Min(len, b.size - b.position);
    if n == 0 then Some([]) else Tiles(|b.blocks|, b.base, b.cur, Off(b.position, b.base), n)
  }

  /** The list `getWriteBuffers` builds after growing. */
  function WriteTiles(g: Buf, len: nat): Option<seq<Tile>>
    requires Formed(g)
  {
    if len == 0 then Some([]) else Tiles(|g.blocks|, g.base, g.cur, Off(g.position, g.base), len)
  }

  /** The read list is the next readable bytes, in order. */
  lemma ReadTilesAreReadable(b: Buf, len: nat)
    requires Synced(b) && b.size <= Capacity(b)
    ensures var r := ReadTiles(b, len);
            && r.Some? && TilesFit(r.value, |b.blocks|, b.base)
            && Gather(b.blocks, b.base, r.value) == Readable(b)[..Min(len, b.size - b.position)]
  {
    var n := Min(len, b.size - b.position);
    if n > 0 {
      TilesFromPosition(b, n);
      ReadableSlice(Flat(b.blocks), b.size, b.position, n);
    }
  }

  lemma TilesFromPosition(b: Buf, n: nat)
    requires Synced(b) && b.size <= Capacity(b) && 0 < n <= b.size - b.position
    ensures var r := Tiles(|b.blocks|, b.base, b.cur, Off(b.position, b.base), n);
            r.Some? && GathersTo(b.blocks, b.base, r.value, b.position, n)
    ensures b.size <= |Flat(b.blocks)|
  {
    SyncedCursor(b);
    FlatLength(b.blocks, b.base);
    TilesExist(|b.blocks|, b.base, b.cur, Off(b.position, b.base), n);
    TilesAreSlice(b.blocks, b.base, b.cur, Off(b.position, b.base), n);
  }

  /** The write list exists if and only if the growth formula left room. */
  lemma WriteTilesIff(b: Buf, len: nat, more: seq<Block>)
    requires Synced(b) && GrowsBy(b, len, more)
    ensures Formed(Grow(b, more))
    ensures WriteTiles(Grow(b, more), len).Some? <==> len == 0 || Room(Free(b), b.base, len)
    ensures WriteTiles(Grow(b, more), len).Some?
            ==> TilesFit(WriteTiles(Grow(b, more), len).value, |b.blocks + more|, b.base)
  {
    var g := Grow(b, more);
    GrowRoom(b, len, more);
    if len > 0 {
      GrowSynced(b, len, more);
      SyncedCursor(g);
      TilesExist(|g.blocks|, g.base, g.cur, Off(g.position, g.base), len);
    }
  }

  /** The buffer after `data` came in through the write list and the position was moved behind it. */
  function Received(g: Buf, len: nat, data: seq<byte>): Option<Buf>
    requires Formed(g) && WriteTiles(g, len).Some? && TilesFit(WriteTiles(g, len).value, |g.blocks|, g.base)
  {
    SetPos(g.(blocks := Scatter(g.blocks, g.base, WriteTiles(g, len).value, data)), g.position + |data|)
  }

  /** Receiving part of what was asked for is writing it. */
  lemma ReceivedWrote(b: Buf, len: nat, more: seq<Block>, data: seq<byte>)
    requires Synced(b) && b.size <= Capacity(b) && GrowsBy(b, len, more) && 0 < |data| <= len
    requires Formed(Grow(b, more)) && WriteTiles(Grow(b, more), len).Some?
    requires TilesFit(WriteTiles(Grow(b, more), len).value, |b.blocks + more|, b.base)
    ensures Received(Grow(b, more), len, data).Some? && Wrote(b, Received(Grow(b, more), len, data).value, data)
  {
    var g := Grow(b, more);
    GrowSynced(b, len, more);
    var ts := WriteTiles(g, len).value;
    ScatteredAt(g, len, data);
    ScatteredForm(g, ts, data);
    var s := g.(blocks := Scatter(g.blocks, g.base, ts, data));
    SetPosSyncs(s, g.position + |data|);
    WriteStored(b, g, SetPos(s, g.position + |data|).value, data, more);
  }

  /** Data received through the write list lands at the position. */
  lemma ScatteredAt(g: Buf, len: nat, data: seq<byte>)
    requires Synced(g) && 0 < |data| <= len && WriteTiles(g, len).Some?
    ensures ScattersTo(g.blocks, g.base, WriteTiles(g, len).value, data, g.position)
  {
    SyncedCursor(g);
    ScatterIsSplice(g.blocks, g.base, g.cur, Off(g.position, g.base), len, data);
  }

  lemma ScatteredForm(g: Buf, ts: seq<Tile>, data: seq<byte>)
    requires Formed(g) && ScattersTo(g.blocks, g.base, ts, data, g.position)
    ensures Formed(g.(blocks := Scatter(g.blocks, g.base, ts, data)))
    ensures g.position + |data| <= |Flat(g.blocks)| == Capacity(g)
  {
    FlatLength(g.blocks, g.base);
    SameShape(g, Scatter(g.blocks, g.base, ts, data));
  }

  lemma SameShape(g: Buf, bs: seq<Block>)
    requires Formed(g) && Whole(bs, g.base) && |bs| == |g.blocks|
    ensures Formed(g.(blocks := bs))
  {
  }
}
