/**
  The byte array as a value: fixed-size blocks in a row, a cursor block, a position and a size.

  The functions follow the loops of the source block by block. `None` stands for following the null
  pointer behind the last block. The flat view, one sequence of bytes, is what they are compared with.
*/
module Blocks {
  import opened Basics
  import opened Bits

  type Block = seq<byte>

  // ---------------------------------------------------------------- division by the block size

  function Times(k: nat, base: nat): nat {
    if k == 0 then 0 else base + Times(k - 1, base)
  }

  /** The block that holds flat offset `p`. */
  function Idx(p: nat, base: nat): nat
    requires base > 0
    decreases p
  {
    if p < base then 0 else 1 + Idx(p - base, base)
  }

  /** The offset of `p` in its block. */
  function Off(p: nat, base: nat): (o: nat)
    requires base > 0
    ensures o < base
    decreases p
  {
    if p < base then p else Off(p - base, base)
  }

  lemma {:induction false} IdxOff(p: nat, base: nat)
    requires base > 0
    ensures p == Times(Idx(p, base), base) + Off(p, base)
    decreases p
  {
    if p >= base { IdxOff(p - base, base); }
  }

  lemma {:induction false} IdxOffUnique(k: nat, o: nat, base: nat)
    requires o < base
    ensures Idx(Times(k, base) + o, base) == k && Off(Times(k, base) + o, base) == o
    decreases k
  {
    if k > 0 { IdxOffUnique(k - 1, o, base); }
  }

  lemma {:induction false} TimesMono(j: nat, k: nat, base: nat)
    requires j <= k
    ensures Times(j, base) <= Times(k, base)
    ensures j < k ==> Times(j, base) + base <= Times(k, base)
    decreases k
  {
    if j < k { TimesMono(j, k - 1, base); }
  }

  lemma {:induction false} TimesAdd(j: nat, k: nat, base: nat)
    ensures Times(j + k, base) == Times(j, base) + Times(k, base)
    decreases k
  {
    if k > 0 { TimesAdd(j, k - 1, base); }
  }

  lemma {:induction false} TimesIsProduct(k: nat, base: nat)
    ensures Times(k, base) == k * base
    decreases k
  {
    if k > 0 { TimesIsProduct(k - 1, base); }
  }

  /** `Idx` and `Off` are the quotient and the remainder. */
  lemma IsDivMod(p: nat, base: nat)
    requires base > 0
    ensures Idx(p, base) == p / base && Off(p, base) == p % base
  {
    IdxOff(p, base);
    TimesIsProduct(Idx(p, base), base);
    QuotientUnique(p, base, Idx(p, base), Off(p, base));
  }

  lemma QuotientUnique(a: nat, d: nat, q: nat, r: nat)
    requires d > 0 && a == q * d + r && r < d
    ensures a / d == q && a % d == r
  {
    var q' := a / d;
    assert a == q' * d + a % d;
    if q' < q {
      ProductMono(q' + 1, q, d);
    } else {
      ProductMono(q, q', d);
      if q < q' { ProductMono(q + 1, q', d); }
    }
  }

  lemma {:induction false} ProductMono(x: nat, y: nat, d: nat)
    requires x <= y
    ensures x * d <= y * d && (x + 1) * d == x * d + d
    decreases y
  {
    if x < y {
      ProductMono(x, y - 1, d);
      assert y * d == (y - 1) * d + d;
    }
  }

  // ---------------------------------------------------------------- the flat view

  predicate Whole(bs: seq<Block>, base: nat) {
    forall i :: 0 <= i < |bs| ==> |bs[i]| == base
  }

  function Flat(bs: seq<Block>): seq<byte> {
    if bs == [] then [] else bs[0] + Flat(bs[1..])
  }

  /** `s` with `data` written over it at `p`. */
  function Splice(s: seq<byte>, p: nat, data: seq<byte>): (r: seq<byte>)
    requires p + |data| <= |s|
    ensures |r| == |s|
  {
    s[..p] + data + s[p + |data|..]
  }

  lemma {:induction false} FlatLength(bs: seq<Block>, base: nat)
    requires Whole(bs, base)
    ensures |Flat(bs)| == Times(|bs|, base)
  {
    if bs != [] { FlatLength(bs[1..], base); }
  }

  lemma {:induction false} FlatAppend(bs: seq<Block>, more: seq<Block>)
    ensures Flat(bs + more) == Flat(bs) + Flat(more)
  {
    if bs == [] {
      assert bs + more == more;
    } else {
      assert (bs + more)[1..] == bs[1..] + more;
      FlatAppend(bs[1..], more);
    }
  }

  /** A piece of one block is the piece of the flat view at the same place. */
  lemma {:induction false} FlatPiece(bs: seq<Block>, base: nat, i: nat, off: nat, n: nat)
    requires Whole(bs, base) && i < |bs| && off + n <= base
    ensures Times(i, base) + off + n <= |Flat(bs)|
    ensures Flat(bs)[Times(i, base) + off..Times(i, base) + off + n] == bs[i][off..off + n]
    decreases i
  {
    if i > 0 {
      FlatPiece(bs[1..], base, i - 1, off, n);
      var p := Times(i - 1, base) + off;
      assert Flat(bs)[base + p..base + p + n] == Flat(bs[1..])[p..p + n];
    }
  }

  /** Writing over a piece of one block is writing over the flat view at the same place. */
  lemma {:induction false} FlatSplice(bs: seq<Block>, base: nat, i: nat, off: nat, data: seq<byte>)
    requires Whole(bs, base) && i < |bs| && off + |data| <= base
    ensures Times(i, base) + off + |data| <= |Flat(bs)|
    ensures Flat(bs[i := Splice(bs[i], off, data)]) == Splice(Flat(bs), Times(i, base) + off, data)
    decreases i
  {
    var r, tail := bs[i := Splice(bs[i], off, data)], bs[1..];
    if i == 0 {
      assert r[1..] == tail;
      SpliceFirst(bs[i], Flat(tail), off, data);
    } else {
      FlatSplice(tail, base, i - 1, off, data);
      assert r[1..] == tail[i - 1 := Splice(bs[i], off, data)];
      SpliceLater(bs[0], Flat(tail), Times(i - 1, base) + off, data);
    }
  }

  lemma SpliceFirst(x: seq<byte>, y: seq<byte>, off: nat, data: seq<byte>)
    requires off + |data| <= |x|
    ensures Splice(x, off, data) + y == Splice(x + y, off, data)
  {
  }

  lemma SpliceLater(x: seq<byte>, y: seq<byte>, off: nat, data: seq<byte>)
    requires off + |data| <= |y|
    ensures x + Splice(y, off, data) == Splice(x + y, |x| + off, data)
  {
  }

  lemma SpliceTwice(s: seq<byte>, p: nat, a: seq<byte>, b: seq<byte>)
    requires p + |a| + |b| <= |s|
    ensures Splice(Splice(s, p, a), p + |a|, b) == Splice(s, p, a + b)
  {
  }

  // ---------------------------------------------------------------- the buffer

  /** `cur` is the index of the cursor block; it is the number of blocks when the cursor is null. */
  datatype Buf = Buf(base: nat, blocks: seq<Block>, cur: nat, position: nat, size: nat)

  function Capacity(b: Buf): nat { Times(|b.blocks|, b.base) }

  /** The cursor may run ahead of the position, never behind it. */
  predicate Formed(b: Buf) {
    && b.base > 0 && b.blocks != [] && Whole(b.blocks, b.base) && b.cur <= |b.blocks|
    && b.position <= Capacity(b) && b.position <= b.size
    && b.position < Times(b.cur, b.base) + b.base
  }

  /** The cursor block is the one that holds the position; it is null only at capacity. */
  predicate Synced(b: Buf) {
    Formed(b) && Times(b.cur, b.base) <= b.position
  }

  lemma SyncedCursor(b: Buf)
    requires Synced(b)
    ensures b.cur == Idx(b.position, b.base) && Off(b.position, b.base) == b.position - Times(b.cur, b.base)
    ensures b.cur == |b.blocks| <==> b.position == Capacity(b)
  {
    IdxOffUnique(b.cur, b.position - Times(b.cur, b.base), b.base);
    if b.cur < |b.blocks| { TimesMono(b.cur, |b.blocks|, b.base); }
  }

  /** What has been stored. After `clear` the size may exceed the capacity; see `ClearSound`. */
  function Stored(b: Buf): (r: seq<byte>)
    requires Formed(b) && b.size <= Capacity(b)
    ensures |r| == b.size
  {
    FlatLength(b.blocks, b.base);
    Flat(b.blocks)[..b.size]
  }

  /** The bytes between the position and the size. */
  function Readable(b: Buf): seq<byte>
    requires Formed(b) && b.size <= Capacity(b)
  {
    Stored(b)[b.position..]
  }

  // ---------------------------------------------------------------- growth

  function Free(b: Buf): nat
    requires Formed(b)
  {
    Capacity(b) - b.position
  }

  /** How many blocks `addCapacity` appends when `n` bytes are wanted and `free` are left. */
  function Count(free: nat, base: nat, n: nat): nat
    requires base > 0
  {
    if n <= free then 0
    else Idx(n - free, base) + (if Off(n - free, base) > free then 1 else 0)
  }

  /** Exactly when the growth formula leaves room for `n` bytes. */
  predicate Room(free: nat, base: nat, n: nat)
    requires base > 0
  {
    n <= free || Off(n - free, base) == 0 || Off(n - free, base) > free
  }

  lemma GrowthIsEnoughIff(free: nat, base: nat, n: nat)
    requires base > 0
    ensures free + Times(Count(free, base, n), base) >= n <==> Room(free, base, n)
  {
    if n > free { IdxOff(n - free, base); }
  }

  /** The documented contract asks for the least number of blocks with enough room: the formula returns it
      exactly when it leaves room at all. */
  lemma GrowthIsLeast(free: nat, base: nat, n: nat, k: nat)
    requires base > 0 && Room(free, base, n) && free + Times(k, base) >= n
    ensures Count(free, base, n) <= k
  {
    if n > free {
      IdxOff(n - free, base);
      var c := Count(free, base, n);
      if k < c { TimesMono(k, c - 1, base); }
    }
  }

  /** `addCapacity`; `more` holds whatever is in the new blocks. A null cursor moves to the first new block
      when nothing was free, and stays null otherwise. */
  function Grow(b: Buf, more: seq<Block>): Buf
    requires Formed(b)
  {
    b.(blocks := b.blocks + more, cur := if b.cur == |b.blocks| && Free(b) > 0 then |b.blocks| + |more| else b.cur)
  }

  predicate GrowsBy(b: Buf, n: nat, more: seq<Block>)
    requires Formed(b)
  {
    Whole(more, b.base) && |more| == Count(Free(b), b.base, n)
  }

  lemma GrowFormed(b: Buf, n: nat, more: seq<Block>)
    requires Formed(b) && GrowsBy(b, n, more)
    ensures var g := Grow(b, more); Formed(g) && Capacity(g) == Capacity(b) + Times(|more|, b.base)
  {
    TimesAdd(|b.blocks|, |more|, b.base);
    if b.cur < |b.blocks| { TimesMono(b.cur, |b.blocks|, b.base); }
    TimesMono(|b.blocks|, |b.blocks| + |more|, b.base);
  }

  /** After growing there is room for `n` bytes exactly under `Room`. */
  lemma GrowRoom(b: Buf, n: nat, more: seq<Block>)
    requires Formed(b) && GrowsBy(b, n, more)
    ensures Formed(Grow(b, more)) && (Free(Grow(b, more)) >= n <==> Room(Free(b), b.base, n))
  {
    GrowFormed(b, n, more);
    GrowthIsEnoughIff(Free(b), b.base, n);
  }

  lemma GrowSynced(b: Buf, n: nat, more: seq<Block>)
    requires Synced(b) && GrowsBy(b, n, more)
    ensures Synced(Grow(b, more))
  {
    GrowFormed(b, n, more);
    SyncedCursor(b);
  }

  // ---------------------------------------------------------------- write

  datatype Placed = Placed(blocks: seq<Block>, cur: nat)

  function StepCur(cur: nat, end: nat, base: nat): nat { if end == base then cur + 1 else cur }

  /** The loop of `write`: fill the cursor block, move on, start the next one at its beginning. */
  function Put(bs: seq<Block>, base: nat, cur: nat, off: nat, data: seq<byte>): (r: Option<Placed>)
    requires Whole(bs, base) && off < base && data != []
    ensures r.Some? ==> Whole(r.value.blocks, base) && |r.value.blocks| == |bs|
    decreases |data|
  {
    if cur >= |bs| then None
    else if base - off >= |data| then
      Some(Placed(bs[cur := Splice(bs[cur], off, data)], StepCur(cur, off + |data|, base)))
    else Put(bs[cur := Splice(bs[cur], off, data[..base - off])], base, cur + 1, 0, data[base - off..])
  }

  /** The loop succeeds exactly when the data fits behind the cursor. */
  lemma {:induction false} PutFits(bs: seq<Block>, base: nat, cur: nat, off: nat, data: seq<byte>)
    requires Whole(bs, base) && off < base && data != [] && cur <= |bs|
    ensures Put(bs, base, cur, off, data).Some? <==> Times(cur, base) + off + |data| <= Times(|bs|, base)
    decreases |data|
  {
    if cur < |bs| {
      TimesMono(cur, |bs|, base);
      if base - off < |data| {
        PutFits(bs[cur := Splice(bs[cur], off, data[..base - off])], base, cur + 1, 0, data[base - off..]);
      }
    }
  }

  /** The loop writes `data` over the flat view and leaves the cursor on the block of the new position. */
  lemma {:induction false} PutIsSplice(bs: seq<Block>, base: nat, cur: nat, off: nat, data: seq<byte>)
    requires Whole(bs, base) && off < base && data != [] && Put(bs, base, cur, off, data).Some?
    ensures var r := Put(bs, base, cur, off, data).value; var p := Times(cur, base) + off;
            && p + |data| <= |Flat(bs)| && Flat(r.blocks) == Splice(Flat(bs), p, data)
            && r.cur <= |bs| && Times(r.cur, base) <= p + |data| < Times(r.cur, base) + base
    decreases |data|
  {
    if base - off >= |data| {
      FlatSplice(bs, base, cur, off, data);
    } else {
      var head, tail := data[..base - off], data[base - off..];
      var bs' := bs[cur := Splice(bs[cur], off, head)];
      PutIsSplice(bs', base, cur + 1, 0, tail);
      SpliceNext(bs, bs', base, cur, off, head, tail);
      assert head + tail == data;
    }
  }

  /** Filling the rest of one block and going on in the next. */
  lemma SpliceNext(bs: seq<Block>, bs': seq<Block>, base: nat, cur: nat, off: nat, head: seq<byte>, tail: seq<byte>)
    requires Whole(bs, base) && cur < |bs| && off + |head| == base
    requires bs' == bs[cur := Splice(bs[cur], off, head)] && Times(cur + 1, base) + |tail| <= |Flat(bs')|
    ensures var p := Times(cur, base) + off;
            && p + |head + tail| <= |Flat(bs)| && Times(cur + 1, base) == p + |head|
            && Splice(Flat(bs'), Times(cur + 1, base), tail) == Splice(Flat(bs), p, head + tail)
  {
    FlatSplice(bs, base, cur, off, head);
    SpliceOn(Flat(bs), Flat(bs'), Times(cur, base) + off, head, Times(cur + 1, base), tail);
  }

  lemma SpliceOn(s: seq<byte>, s': seq<byte>, p: nat, head: seq<byte>, q: nat, tail: seq<byte>)
    requires p + |head| <= |s| && s' == Splice(s, p, head) && q == p + |head| && q + |tail| <= |s'|
    ensures p + |head + tail| <= |s| && Splice(s', q, tail) == Splice(s, p, head + tail)
  {
    SpliceTwice(s, p, head, tail);
  }

  // ---------------------------------------------------------------- read

  datatype Taken = Taken(data: seq<byte>, cur: nat)

  /** The loop of `read`. `ncap` is what was left in the first block, and is not refreshed afterwards. */
  function Take(bs: seq<Block>, base: nat, cur: nat, off: nat, ncap: nat, n: nat): (r: Option<Taken>)
    requires Whole(bs, base) && 0 < ncap && off + ncap <= base
    ensures r.Some? ==> |r.value.data| == n
    decreases n
  {
    if n == 0 then Some(Taken([], cur))
    else if cur >= |bs| then None
    else if ncap >= n then Some(Taken(bs[cur][off..off + n], StepCur(cur, off + n, base)))
    else
      var r := Take(bs, base, cur + 1, 0, ncap, n - ncap);
      if r.None? then None else Some(Taken(bs[cur][off..off + ncap] + r.value.data, r.value.cur))
  }

  /** Exactly when the loop returns the right bytes whatever the blocks hold. */
  predicate ReadSafe(base: nat, off: nat, n: nat) {
    off == 0 || n <= 2 * (base - off)
  }

  predicate TakesSlice(bs: seq<Block>, base: nat, cur: nat, off: nat, n: nat)
    requires Whole(bs, base) && off < base
  {
    var r := Take(bs, base, cur, off, base - off, n);
    var p := Times(cur, base) + off;
    r.Some? && p + n <= |Flat(bs)| && r.value.data == Flat(bs)[p..p + n]
  }

  predicate CursorAt(r: Taken, base: nat, p: nat) {
    Times(r.cur, base) <= p < Times(r.cur, base) + base
  }

  /** From a block boundary every block is read in full. */
  lemma {:induction false} TakeAligned(bs: seq<Block>, base: nat, cur: nat, n: nat)
    requires Whole(bs, base) && base > 0 && cur <= |bs| && Times(cur, base) + n <= Times(|bs|, base)
    ensures TakesSlice(bs, base, cur, 0, n)
    ensures CursorAt(Take(bs, base, cur, 0, base, n).value, base, Times(cur, base) + n)
    decreases n
  {
    if cur < |bs| && n > base {
      TakeAligned(bs, base, cur + 1, n - base);
      AlignedOn(bs, base, cur, n);
    } else if cur < |bs| {
      FlatPiece(bs, base, cur, 0, n);
    } else {
      FlatLength(bs, base);
    }
  }

  /** One whole block, and the rest from the next one on. */
  lemma AlignedOn(bs: seq<Block>, base: nat, cur: nat, n: nat)
    requires Whole(bs, base) && 0 < base < n && cur < |bs| && TakesSlice(bs, base, cur + 1, 0, n - base)
    ensures TakesSlice(bs, base, cur, 0, n)
    ensures Take(bs, base, cur, 0, base, n).value.cur == Take(bs, base, cur + 1, 0, base, n - base).value.cur
  {
    FlatPiece(bs, base, cur, 0, base);
    JoinSlices(Flat(bs), Times(cur, base), base, n);
  }

  lemma JoinSlices(s: seq<byte>, p: nat, k: nat, n: nat)
    requires k <= n && p + n <= |s|
    ensures s[p..p + n] == s[p..p + k] + s[p + k..p + n]
  {
  }

  lemma TakeWithin(bs: seq<Block>, base: nat, cur: nat, off: nat, n: nat)
    requires Whole(bs, base) && off < base && cur < |bs| && off + n <= base
    ensures TakesSlice(bs, base, cur, off, n)
    ensures CursorAt(Take(bs, base, cur, off, base - off, n).value, base, Times(cur, base) + off + n)
  {
    FlatPiece(bs, base, cur, off, n);
  }

  lemma TakeTwo(bs: seq<Block>, base: nat, cur: nat, off: nat, n: nat)
    requires Whole(bs, base) && off < base && cur + 1 < |bs| && base - off < n <= 2 * (base - off)
    ensures var k := base - off;
            Take(bs, base, cur, off, k, n)
            == Some(Taken(bs[cur][off..off + k] + bs[cur + 1][0..n - k], StepCur(cur + 1, n - k, base)))
  {
    var k := base - off;
    assert Take(bs, base, cur + 1, 0, k, n - k) == Some(Taken(bs[cur + 1][0..n - k], StepCur(cur + 1, n - k, base)));
  }

  lemma TakeAcross(bs: seq<Block>, base: nat, cur: nat, off: nat, n: nat)
    requires Whole(bs, base) && off < base && cur + 1 < |bs| && base - off < n <= 2 * (base - off)
    ensures TakesSlice(bs, base, cur, off, n)
    ensures CursorAt(Take(bs, base, cur, off, base - off, n).value, base, Times(cur, base) + off + n)
  {
    TakeTwo(bs, base, cur, off, n);
    FlatTwo(bs, base, cur, off, n);
  }

  lemma FlatTwo(bs: seq<Block>, base: nat, cur: nat, off: nat, n: nat)
    requires Whole(bs, base) && off < base && cur + 1 < |bs| && base - off < n <= 2 * (base - off)
    ensures var p, k := Times(cur, base) + off, base - off;
            p + n <= |Flat(bs)| && Flat(bs)[p..p + n] == bs[cur][off..off + k] + bs[cur + 1][0..n - k]
  {
    var p, k := Times(cur, base) + off, base - off;
    assert Times(cur + 1, base) == p + k;
    FlatPiece(bs, base, cur, off, k);
    FlatPiece(bs, base, cur + 1, 0, n - k);
    JoinSlices(Flat(bs), p, k, n);
  }

  lemma NextBlock(count: nat, base: nat, cur: nat, m: nat)
    requires cur < count && Times(cur, base) + m <= Times(count, base) && m > base
    ensures cur + 1 < count
  {
  }

  /** Inside the first block, or across into the next by no more than the first gave. */
  lemma TakeNear(bs: seq<Block>, base: nat, cur: nat, off: nat, n: nat)
    requires Whole(bs, base) && off < base && cur < |bs| && n <= 2 * (base - off)
    requires Times(cur, base) + off + n <= Times(|bs|, base)
    ensures TakesSlice(bs, base, cur, off, n)
    ensures CursorAt(Take(bs, base, cur, off, base - off, n).value, base, Times(cur, base) + off + n)
  {
    if n <= base - off {
      TakeWithin(bs, base, cur, off, n);
    } else {
      NextBlock(|bs|, base, cur, off + n);
      TakeAcross(bs, base, cur, off, n);
    }
  }

  function Filled(base: nat, v: byte): (r: Block)
    ensures |r| == base
  {
    seq(base, _ => v)
  }

  /** Blocks of zeroes with one block of ones. */
  function Marked(count: nat, base: nat, k: nat): (bs: seq<Block>)
    ensures |bs| == count
    ensures forall i :: 0 <= i < count ==> bs[i] == Filled(base, if i == k then 1 else 0)
    ensures Whole(bs, base)
  {
    seq(count, i requires 0 <= i < count => Filled(base, if i == k then 1 else 0))
  }

  /** The byte behind the first two pieces, as it is stored and as the loop reads it. */
  lemma StoredOne(count: nat, base: nat, cur: nat, k: nat)
    requires k < base && cur < count
    ensures var bs := Marked(count, base, cur); var q := Times(cur, base) + k; q < |Flat(bs)| && Flat(bs)[q] == 1
  {
    var bs := Marked(count, base, cur);
    FlatPiece(bs, base, cur, k, 1);
    var q := Times(cur, base) + k;
    assert Flat(bs)[q..q + 1] == bs[cur][k..k + 1];
    assert Flat(bs)[q..q + 1][0] == bs[cur][k..k + 1][0];
  }

  lemma ReadZero(bs: seq<Block>, base: nat, cur: nat, off: nat, n: nat)
    requires Whole(bs, base) && off < base && cur < |bs| && n > 2 * (base - off)
    requires forall i :: cur + 1 < i < |bs| ==> bs[i] == Filled(base, 0)
    ensures var r := Take(bs, base, cur, off, base - off, n); r.Some? ==> r.value.data[2 * (base - off)] == 0
  {
    var k := base - off;
    var r1, r2 := Take(bs, base, cur + 1, 0, k, n - k), Take(bs, base, cur + 2, 0, k, n - 2 * k);
    assert r1.Some? ==> r2.Some? && r1.value.data == bs[cur + 1][0..k] + r2.value.data;
    if r2.Some? {
      var m := Min(k, n - 2 * k);
      assert r2.value.data[..m] == bs[cur + 2][0..m];
      assert r2.value.data[..m][0] == bs[cur + 2][0..m][0] == 0;
    }
  }

  /** Otherwise the third piece is read one block too far: with ones only in the second block, the byte
      after the second piece should be one and is read as zero, or behind the last block. */
  lemma TakeFar(count: nat, base: nat, cur: nat, off: nat, n: nat)
    requires off < base && cur < count && Times(cur, base) + off + n <= Times(count, base)
    requires !ReadSafe(base, off, n)
    ensures !TakesSlice(Marked(count, base, cur + 1), base, cur, off, n)
  {
    NextBlock(count, base, cur, off + n);
    if TakesSlice(Marked(count, base, cur + 1), base, cur, off, n) {
      SliceAgrees(Marked(count, base, cur + 1), base, cur, off, n, 2 * (base - off));
      StoredOne(count, base, cur + 1, base - off);
      ReadZero(Marked(count, base, cur + 1), base, cur, off, n);
    }
  }

  lemma SliceAgrees(bs: seq<Block>, base: nat, cur: nat, off: nat, n: nat, j: nat)
    requires Whole(bs, base) && off < base && j < n && TakesSlice(bs, base, cur, off, n)
    ensures var p := Times(cur, base) + off;
            p + j < |Flat(bs)| && Take(bs, base, cur, off, base - off, n).value.data[j] == Flat(bs)[p + j]
  {
  }

  /** The read loop returns the flat slice for all contents if and only if it starts on a block boundary
      or takes at most twice the bytes left in the first block. */
  lemma ReadExactIff(count: nat, base: nat, cur: nat, off: nat, n: nat)
    requires off < base && cur < count && Times(cur, base) + off + n <= Times(count, base)
    ensures ReadSafe(base, off, n) <==>
              forall bs: seq<Block> :: |bs| == count && Whole(bs, base) ==> TakesSlice(bs, base, cur, off, n)
  {
    if ReadSafe(base, off, n) {
      forall bs: seq<Block> | |bs| == count && Whole(bs, base) ensures TakesSlice(bs, base, cur, off, n) {
        if off == 0 { TakeAligned(bs, base, cur, n); } else { TakeNear(bs, base, cur, off, n); }
      }
    } else {
      TakeFar(count, base, cur, off, n);
      assert |Marked(count, base, cur + 1)| == count;
    }
  }
}
