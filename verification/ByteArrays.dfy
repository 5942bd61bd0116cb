/** The byte array as the source keeps it: a singly linked chain of fixed-size nodes with a cursor. */
module ByteArrays {
  import opened Basics
  import opened Bits
  import opened Blocks
  import opened Buffers

  class Node {
    const data: array<byte>
    var next: Node?

    constructor (n: nat)
      ensures fresh(data) && data.Length == n && next == null
    {
      data := new byte[n];
      next := null;
    }
  }

  /** One iovec: a piece of a node's storage. */
  datatype Iov = Iov(data: array<byte>, off: nat, len: nat)

  /** `memcpy` into a node. */
  method Copy(a: array<byte>, off: nat, data: seq<byte>)
    requires off + |data| <= a.Length
    modifies a
    ensures a[..] == Splice(old(a[..]), off, data)
  {
    var i := 0;
    while i < |data|
      invariant i <= |data|
      invariant forall j :: 0 <= j < a.Length ==> a[j] == if off <= j < off + i then data[j - off] else old(a[j])
    {
      a[off + i] := data[i];
      i := i + 1;
    }
  }

  class ByteArray {
    const base: nat
    var position: nat
    var capacity: nat
    var size: nat
    var root: Node
    var cur: Node?
    ghost var chain: seq<Node>
    ghost var blocks: seq<Block>
    ghost var at: nat
    ghost var Nodes: set<object>

    /** Node `i` holds block `i` and points to the next node. */
    ghost predicate NodeOk(i: nat)
      requires i < |chain| == |blocks|
      reads this`chain, this`blocks, this`Nodes, Nodes
    {
      && chain[i] in Nodes && chain[i].data in Nodes && chain[i].data.Length == base && chain[i].data[..] == blocks[i]
      && chain[i].next == NodeAt(i + 1)
    }

    ghost predicate Apart(i: nat, j: nat)
      requires i < |chain| && j < |chain|
      reads this`chain
    {
      i != j ==> chain[i] != chain[j] && chain[i].data != chain[j].data
    }

    /** The nodes hang together, hold the blocks, and share nothing. */
    ghost predicate Linked()
      reads this`root, this`chain, this`blocks, this`Nodes, Nodes
    {
      && this !in Nodes && base > 0 && |chain| == |blocks| > 0 && chain[0] == root && Whole(blocks, base)
      && (forall i {:trigger NodeOk(i)} :: 0 <= i < |chain| ==> NodeOk(i))
      && (forall i, j {:trigger Apart(i, j)} :: 0 <= i < |chain| && 0 <= j < |chain| ==> Apart(i, j))
    }

    ghost function NodeAt(i: nat): Node?
      reads this`chain
    {
      if i < |chain| then chain[i] else null
    }

    ghost function View(): Buf
      reads this
    {
      Buf(base, blocks, at, position, size)
    }

    ghost predicate Valid()
      reads this, Nodes
    {
      Linked() && at <= |chain| && cur == NodeAt(at) && capacity == Times(|chain|, base) && Formed(View())
    }

    constructor (baseSize: nat)
      requires baseSize > 0
      ensures Valid() && fresh(Nodes) && base == baseSize
      ensures exists block :: |block| == baseSize && View() == NewBuf(baseSize, block)
    {
      base := baseSize;
      position, capacity, size := 0, baseSize, 0;
      var n := new Node(baseSize);
      root, cur := n, n;
      chain, blocks, at := [n], [n.data[..]], 0;
      new;
      Nodes := {n, n.data};
      assert Times(1, base) == base;
      assert View() == NewBuf(baseSize, n.data[..]);
    }

    /** The last node of the chain. */
    method Last() returns (tmp: Node)
      requires Linked()
      ensures tmp == chain[|chain| - 1]
    {
      tmp := root;
      ghost var k := 0;
      assert NodeOk(0);
      while tmp.next != null
        invariant k < |chain| && tmp == chain[k] && NodeOk(k)
        decreases |chain| - k
      {
        tmp := tmp.next;
        k := k + 1;
        assert NodeOk(k);
      }
    }

    /** Links a new node behind the last one. */
    method Append(tmp: Node) returns (node: Node)
      requires Linked() && tmp == chain[|chain| - 1]
      modifies this`chain, this`blocks, this`Nodes, tmp`next
      ensures Linked() && fresh(Nodes - old(Nodes)) && old(Nodes) <= Nodes
      ensures chain == old(chain) + [node]
      ensures |blocks[|old(blocks)|]| == base && blocks == old(blocks) + [blocks[|old(blocks)|]]
    {
      ghost var k := |chain| - 1;
      assert NodeOk(k);
      node := new Node(base);
      tmp.next := node;
      chain := chain + [node];
      blocks := blocks + [node.data[..]];
      Nodes := Nodes + {node, node.data};
      forall i | 0 <= i < |chain| ensures NodeOk(i) {
        if i <= k { assert old(NodeOk(i)) && old(Apart(i, k)); }
      }
      forall i, j | 0 <= i < |chain| && 0 <= j < |chain| ensures Apart(i, j) {
        if i <= k { assert old(NodeOk(i)); }
        if j <= k { assert old(NodeOk(j)); }
        if i <= k && j <= k { assert old(Apart(i, j)); }
      }
    }

    /** Appends `count` nodes; `first` is the first of them. */
    method AppendNodes(count: nat) returns (first: Node?, ghost more: seq<Block>)
      requires Linked() && (at < |chain| ==> cur == chain[at])
      modifies this, Nodes
      ensures Linked() && fresh(Nodes - old(Nodes)) && old(Nodes) <= Nodes
      ensures blocks == old(blocks) + more && |more| == count && Whole(more, base)
      ensures capacity == old(capacity) + Times(count, base)
      ensures first == if count > 0 then chain[|old(chain)|] else null
      ensures at < |old(chain)| ==> cur == chain[at]
      ensures position == old(position) && size == old(size) && cur == old(cur) && at == old(at)
    {
      var tmp := Last();
      first, more := null, [];
      var i := 0;
      while i < count
        invariant i <= count && Linked() && tmp == chain[|chain| - 1]
        invariant fresh(Nodes - old(Nodes)) && old(Nodes) <= Nodes
        invariant blocks == old(blocks) + more && |more| == i && Whole(more, base)
        invariant capacity == old(capacity) + Times(i, base)
        invariant first == if i > 0 then chain[|old(chain)|] else null
        invariant at < |old(chain)| ==> cur == chain[at]
        invariant position == old(position) && size == old(size) && cur == old(cur) && at == old(at)
      {
        ghost var k := |blocks|;
        assert NodeOk(k - 1);
        tmp := Append(tmp);
        more := more + [blocks[k]];
        if first == null {
          first := tmp;
        }
        capacity := capacity + base;
        i := i + 1;
      }
    }

    /** The growth formula as it stands. */
    method AddCapacity(n: nat) returns (ghost more: seq<Block>)
      requires Valid()
      modifies this, Nodes
      ensures Valid() && fresh(Nodes - old(Nodes)) && old(Nodes) <= Nodes
      ensures GrowsBy(old(View()), n, more) && View() == Grow(old(View()), more)
    {
      more := [];
      if n == 0 {
        return;
      }
      var free := capacity - position;
      if free >= n {
        return;
      }
      var want := n - free;
      var count := want / base + (if want % base > free then 1 else 0);
      IsDivMod(want, base);
      ghost var b := View();
      var first: Node?;
      first, more := AppendNodes(count);
      GrowFormed(b, n, more);
      if free == 0 {
        EmptyIsNull(b);
        cur := first;
      } else if at == |b.blocks| {
        at := |chain|;
      }
    }

    /** One turn of `write`: fill from `npos`, and go to the next node if this one is full. */
    method StorePiece(npos: nat, piece: seq<byte>)
      requires Linked() && at < |chain| && cur == chain[at] && npos + |piece| <= base
      modifies cur.data, this`blocks, this`cur, this`at, this`position
      ensures Linked() && blocks == old(blocks)[old(at) := Splice(old(blocks)[old(at)], npos, piece)]
      ensures at == StepCur(old(at), npos + |piece|, base) && cur == NodeAt(at) && position == old(position) + |piece|
    {
      assert NodeOk(at);
      Fill(cur.data, npos, piece, at);
      assert NodeOk(at);
      if cur.data.Length == npos + |piece| {
        Advance();
      }
      position := position + |piece|;
    }

    /** The turn that stores the rest of `data` from `from` on. */
    method StoreLast(npos: nat, data: seq<byte>, from: nat, ghost goal: Option<Placed>)
      requires Linked() && at < |chain| && cur == chain[at] && npos < base && from < |data| <= from + base - npos
      requires goal == Put(blocks, base, at, npos, data[from..])
      modifies cur.data, this`blocks, this`cur, this`at, this`position
      ensures Linked() && at <= |chain| && cur == NodeAt(at) && position == old(position) + |data| - from
      ensures goal == Some(Placed(blocks, at))
    {
      PutShort(blocks, base, at, npos, data, from);
      StorePiece(npos, data[from..|data|]);
    }

    /** The turn that fills a node when more of `data` remains. */
    method StoreMore(npos: nat, data: seq<byte>, from: nat, ghost goal: Option<Placed>)
      requires Linked() && at < |chain| && cur == chain[at] && npos < base && from + base - npos < |data|
      requires goal == Put(blocks, base, at, npos, data[from..])
      modifies cur.data, this`blocks, this`cur, this`at, this`position
      ensures Linked() && at <= |chain| && cur == NodeAt(at) && position == old(position) + base - npos
      ensures goal == Put(blocks, base, at, 0, data[from + base - npos..])
    {
      PutLong(blocks, base, at, npos, data, from);
      StorePiece(npos, data[from..from + base - npos]);
    }

    /** The loop of `write`; false when it follows the null pointer behind the last node. */
    method WriteLoop(data: seq<byte>) returns (ok: bool)
      requires Linked() && at <= |chain| && cur == NodeAt(at) && data != []
      modifies this`blocks, this`cur, this`at, this`position, Nodes
      ensures Linked()
      ensures var r := Put(old(blocks), base, old(at), Off(old(position), base), data);
              && ok == r.Some?
              && (ok ==> r == Some(Placed(blocks, at)) && at <= |chain| && cur == NodeAt(at))
              && (ok ==> position == old(position) + |data|)
    {
      if cur == null {
        return false;
      }
      assert NodeOk(at);
      IsDivMod(position, base);
      var npos: nat := position % base;
      var ncap: nat := cur.data.Length - npos;
      var bpos: nat, left: nat := 0, |data|;
      ghost var goal := Put(blocks, base, at, npos, data);
      assert data[0..] == data;
      while left > 0
        invariant bpos + left == |data| && position == old(position) + bpos
        invariant Linked() && at <= |chain| && cur == NodeAt(at)
        invariant left > 0 ==> cur != null && npos < base && ncap == base - npos
        invariant left > 0 ==> goal == Put(blocks, base, at, npos, data[bpos..])
        invariant left == 0 ==> goal == Some(Placed(blocks, at))
      {
        assert NodeOk(at);
        if ncap >= left {
          StoreLast(npos, data, bpos, goal);
          bpos, left := bpos + left, 0;
        } else {
          StoreMore(npos, data, bpos, goal);
          bpos, left := bpos + ncap, left - ncap;
          if cur == null {
            return false;
          }
          assert NodeOk(at);
          ncap := cur.data.Length;
          npos := 0;
        }
      }
      return true;
    }

    /** `m_cur = m_cur->next`. */
    method Advance()
      requires Linked() && at < |chain| && cur == chain[at]
      modifies this`cur, this`at
      ensures at == old(at) + 1 && cur == NodeAt(at)
    {
      assert NodeOk(at);
      cur := cur.next;
      at := at + 1;
    }

    method Write(data: seq<byte>) returns (ok: bool, ghost more: seq<Block>)
      requires Valid()
      modifies this, Nodes
      ensures fresh(Nodes - old(Nodes)) && old(Nodes) <= Nodes
      ensures GrowsBy(old(View()), |data|, more) && ok == WriteBuf(old(View()), data, more).Some?
      ensures ok ==> Valid() && View() == WriteBuf(old(View()), data, more).value
    {
      ghost var b := View();
      if |data| == 0 {
        return true, [];
      }
      more := AddCapacity(|data|);
      ok := WriteLoop(data);
      if !ok {
        return;
      }
      if position > size {
        size := position;
      }
      WriteFormed(b, data, more);
    }

    /** The loop of `read`, which keeps the first `ncap`; a fault when it follows the null pointer. */
    method ReadLoop(n: nat) returns (data: seq<byte>, ok: bool)
      requires Linked() && at < |chain| && cur == chain[at]
      modifies this`cur, this`at, this`position
      ensures var off := Off(old(position), base); var r := Take(blocks, base, old(at), off, base - off, n);
              && ok == r.Some?
              && (ok ==> r == Some(Taken(data, at)) && at <= |chain| && cur == NodeAt(at))
              && (ok ==> position == old(position) + n)
    {
      assert NodeOk(at);
      IsDivMod(position, base);
      var npos: nat := position % base;
      var ncap: nat := cur.data.Length - npos;
      var left: nat := n;
      ghost var goal := Take(blocks, base, at, npos, ncap, n);
      data := [];
      AfterNothing(goal);
      while left > 0
        invariant left <= n && position == old(position) + n - left && at <= |chain| && cur == NodeAt(at)
        invariant 0 < ncap && npos + ncap <= base
        invariant left > 0 ==> goal == After(data, Take(blocks, base, at, npos, ncap, left))
        invariant left == 0 ==> goal == Some(Taken(data, at))
      {
        if cur == null {
          return data, false;
        }
        assert NodeOk(at);
        TakeTurn(blocks, base, at, npos, ncap, left, data);
        if ncap >= left {
          data := data + cur.data[npos..npos + left];
          if cur.data.Length == npos + left {
            Advance();
          }
          position, left := position + left, 0;
        } else {
          data := data + cur.data[npos..npos + ncap];
          position, left := position + ncap, left - ncap;
          Advance();
          npos := 0;
        }
      }
      return data, true;
    }

    method ReadBytes(n: nat) returns (r: Outcome<seq<byte>>)
      requires Valid()
      modifies this`cur, this`at, this`position
      ensures r == ReadBuf(old(View()), n).out
      ensures r != Fault ==> Valid() && View() == ReadBuf(old(View()), n).buf
    {
      ReadFormed(View(), n);
      if n > size - position {
        return OutOfRange;
      }
      if cur == null {
        return Fault;
      }
      var data, ok := ReadLoop(n);
      return if ok then Got(data) else Fault;
    }

    /** Returns false when it throws. */
    method SetPosition(v: nat) returns (ok: bool)
      requires Valid()
      modifies this`cur, this`at, this`position, this`size
      ensures Valid() && ok == SetPos(old(View()), v).Some?
      ensures View() == if ok then SetPos(old(View()), v).value else old(View())
    {
      if v > capacity {
        return false;
      }
      SetPosSyncs(View(), v);
      Seek(v);
      position := v;
      if position > size {
        size := position;
      }
      return true;
    }

    /** The walk of `setPosition` from the root to the node of flat offset `v`. */
    method Seek(v: nat)
      requires Linked() && v <= Times(|chain|, base)
      modifies this`cur, this`at
      ensures at == Idx(v, base) && at <= |chain| && cur == NodeAt(at)
    {
      cur := root;
      at := 0;
      assert NodeOk(0);
      var rest: nat := v;
      while rest > cur.data.Length
        invariant at < |chain| && cur == chain[at] && NodeOk(at) && v == Times(at, base) + rest
      {
        NextBlock(|chain|, base, at, rest);
        rest := rest - cur.data.Length;
        Advance();
        assert NodeOk(at);
      }
      if rest == cur.data.Length {
        IdxOffUnique(at + 1, 0, base);
        assert v == Times(at + 1, base) + 0;
        Advance();
      } else {
        IdxOffUnique(at, rest, base);
      }
    }

    /** `clear`, which leaves the size as it is. */
    method Clear()
      requires Valid()
      modifies this, root`next
      ensures Valid() && Nodes == old(Nodes) && View() == Cleared(old(View()))
    {
      ClearSound(View());
      assert NodeOk(0) && Apart(0, 0);
      position := 0;
      capacity := base;
      cur := root;
      root.next := null;
      chain, blocks, at := chain[..1], blocks[..1], 0;
      assert NodeOk(0);
      assert Times(1, base) == base;
    }

    /** The pieces of storage named by `ts`. */
    ghost predicate Pieces(iovs: seq<Iov>, ts: seq<Tile>)
      requires TilesFit(ts, |chain|, base)
      reads this`chain
    {
      |iovs| == |ts| && forall i :: 0 <= i < |ts| ==> iovs[i] == Iov(chain[ts[i].block].data, ts[i].off, ts[i].len)
    }

    /** The loop of `getReadBuffers` and `getWriteBuffers`; false on following the null pointer. */
    method Iovecs(n: nat) returns (iovs: seq<Iov>, ok: bool)
      requires Linked() && at <= |chain| && cur == NodeAt(at) && n > 0
      ensures var off := Off(position, base); var r := Tiles(|chain|, base, at, off, n);
              && ok == r.Some?
              && (ok ==> TilesFit(r.value, |chain|, base) && Pieces(iovs, r.value))
    {
      iovs := [];
      if cur == null {
        return iovs, false;
      }
      assert NodeOk(at);
      IsDivMod(position, base);
      TilesExist(|chain|, base, at, Off(position, base), n);
      var npos: nat := position % base;
      var ncap: nat := cur.data.Length - npos;
      var node, left := cur, n;
      ghost var k: nat, ts: seq<Tile> := at, [];
      ghost var goal := Tiles(|chain|, base, at, npos, n);
      JoinedNothing(goal);
      while left > 0
        invariant k < |chain| && npos < base && 0 <= left
        invariant left > 0 ==> node == chain[k] && ncap == base - npos
        invariant left > 0 ==> goal == Joined(ts, Tiles(|chain|, base, k, npos, left))
        invariant left == 0 ==> goal == Some(ts)
        invariant TilesFit(ts, |chain|, base) && Pieces(iovs, ts)
      {
        assert NodeOk(k);
        TilesTurn(|chain|, base, k, npos, left, ts);
        if ncap >= left {
          iovs, ts := iovs + [Iov(node.data, npos, left)], ts + [Tile(k, npos, left)];
          left := 0;
        } else {
          iovs, ts := iovs + [Iov(node.data, npos, ncap)], ts + [Tile(k, npos, ncap)];
          left := left - ncap;
          if node.next == null {
            return iovs, false;
          }
          node, k := node.next, k + 1;
          assert NodeOk(k);
          ncap, npos := node.data.Length, 0;
        }
      }
      return iovs, true;
    }

    /** The iovecs of the next readable bytes; false on following the null pointer. */
    method GetReadBuffers(len: nat) returns (iovs: seq<Iov>, n: nat, ok: bool)
      requires Valid()
      ensures n == Min(len, size - position) && ok == ReadTiles(View(), len).Some?
      ensures ok ==> TilesFit(ReadTiles(View(), len).value, |chain|, base) && Pieces(iovs, ReadTiles(View(), len).value)
    {
      n := if len > size - position then size - position else len;
      if n == 0 {
        return [], n, true;
      }
      iovs, ok := Iovecs(n);
    }

    /** Grows for `len` bytes and returns the iovecs behind the position. */
    method GetWriteBuffers(len: nat) returns (iovs: seq<Iov>, ok: bool, ghost more: seq<Block>)
      requires Valid()
      modifies this, Nodes
      ensures Valid() && fresh(Nodes - old(Nodes)) && old(Nodes) <= Nodes
      ensures GrowsBy(old(View()), len, more) && View() == Grow(old(View()), more)
      ensures ok == WriteTiles(View(), len).Some?
      ensures ok ==> TilesFit(WriteTiles(View(), len).value, |chain|, base)
      ensures ok ==> Pieces(iovs, WriteTiles(View(), len).value)
    {
      if len == 0 {
        return [], true, [];
      }
      more := AddCapacity(len);
      iovs, ok := Iovecs(len);
    }

    /** What the kernel reads through a list of iovecs. */
    method GatherFrom(iovs: seq<Iov>, ghost ts: seq<Tile>) returns (data: seq<byte>)
      requires Linked() && TilesFit(ts, |chain|, base) && Pieces(iovs, ts)
      ensures data == Gather(blocks, base, ts)
    {
      data := [];
      var i := 0;
      ghost var goal := Gather(blocks, base, ts);
      assert ts[i..] == ts && data + goal == goal;
      while i < |iovs|
        invariant i <= |ts| && data + Gather(blocks, base, ts[i..]) == goal
      {
        assert NodeOk(ts[i].block);
        var piece := iovs[i].data[iovs[i].off..iovs[i].off + iovs[i].len];
        assert piece == blocks[ts[i].block][ts[i].off..ts[i].off + ts[i].len];
        GatherTurn(blocks, base, ts, i, data);
        data := data + piece;
        i := i + 1;
      }
    }

    /** What the kernel does with `data` that arrives through a list of iovecs: it fills them in order. */
    method ScatterInto(iovs: seq<Iov>, data: seq<byte>, ghost ts: seq<Tile>)
      requires Linked() && TilesFit(ts, |chain|, base) && Pieces(iovs, ts)
      modifies this`blocks, Nodes
      ensures Linked() && blocks == Scatter(old(blocks), base, ts, data)
    {
      var i, rest := 0, data;
      assert ts[0..] == ts;
      while i < |iovs|
        invariant i <= |ts| && Linked() && Scatter(blocks, base, ts[i..], rest) == Scatter(old(blocks), base, ts, data)
      {
        assert NodeOk(ts[i].block);
        assert ts[i..][1..] == ts[i + 1..];
        var k := Min(|rest|, iovs[i].len);
        Fill(iovs[i].data, iovs[i].off, rest[..k], ts[i].block);
        rest := rest[k..];
        i := i + 1;
      }
    }

    /** Fills a piece of the storage of node `k`. */
    method Fill(a: array<byte>, off: nat, data: seq<byte>, ghost k: nat)
      requires Linked() && k < |chain| && a == chain[k].data && off + |data| <= base
      modifies a, this`blocks
      ensures Linked() && blocks == old(blocks)[k := Splice(old(blocks)[k], off, data)]
    {
      assert NodeOk(k);
      Copy(a, off, data);
      blocks := blocks[k := a[..]];
      forall i | 0 <= i < |chain| ensures NodeOk(i) {
        assert old(NodeOk(i)) && old(Apart(i, k));
      }
      forall i, j | 0 <= i < |chain| && 0 <= j < |chain| ensures Apart(i, j) {
        assert old(Apart(i, j));
      }
    }
  }

  /** The rest of a read behind what is already there. */
  function After(data: seq<byte>, rest: Option<Taken>): Option<Taken> {
    if rest.None? then None else Some(Taken(data + rest.value.data, rest.value.cur))
  }

  lemma AfterNothing(rest: Option<Taken>)
    ensures After([], rest) == rest
  {
    if rest.Some? { assert [] + rest.value.data == rest.value.data; }
  }

  lemma JoinedNothing(rest: Option<seq<Tile>>)
    ensures Joined([], rest) == rest
  {
    if rest.Some? { assert [] + rest.value == rest.value; }
  }

  lemma TakeTurn(bs: seq<Block>, base: nat, cur: nat, off: nat, ncap: nat, n: nat, data: seq<byte>)
    requires Whole(bs, base) && 0 < ncap && off + ncap <= base && n > 0 && cur < |bs|
    ensures After(data, Take(bs, base, cur, off, ncap, n)) ==
              if ncap >= n then Some(Taken(data + bs[cur][off..off + n], StepCur(cur, off + n, base)))
              else After(data + bs[cur][off..off + ncap], Take(bs, base, cur + 1, 0, ncap, n - ncap))
  {
    if ncap < n {
      var r := Take(bs, base, cur + 1, 0, ncap, n - ncap);
      if r.Some? {
        assert data + (bs[cur][off..off + ncap] + r.value.data) == data + bs[cur][off..off + ncap] + r.value.data;
      }
    }
  }

  lemma GatherTurn(bs: seq<Block>, base: nat, ts: seq<Tile>, i: nat, data: seq<byte>)
    requires Whole(bs, base) && TilesFit(ts, |bs|, base) && i < |ts|
    ensures data + Gather(bs, base, ts[i..])
            == data + bs[ts[i].block][ts[i].off..ts[i].off + ts[i].len] + Gather(bs, base, ts[i + 1..])
  {
    assert ts[i..][0] == ts[i] && ts[i..][1..] == ts[i + 1..];
  }

  function Joined(ts: seq<Tile>, rest: Option<seq<Tile>>): Option<seq<Tile>> {
    if rest.None? then None else Some(ts + rest.value)
  }

  lemma TilesTurn(count: nat, base: nat, cur: nat, off: nat, n: nat, ts: seq<Tile>)
    requires off < base && cur < count
    ensures Joined(ts, Tiles(count, base, cur, off, n)) ==
              if base - off >= n then Some(ts + [Tile(cur, off, n)])
              else Joined(ts + [Tile(cur, off, base - off)], Tiles(count, base, cur + 1, 0, n - (base - off)))
  {
    if base - off < n {
      var r := Tiles(count, base, cur + 1, 0, n - (base - off));
      if r.Some? {
        assert ts + ([Tile(cur, off, base - off)] + r.value) == ts + [Tile(cur, off, base - off)] + r.value;
      }
    }
  }

  lemma PutShort(bs: seq<Block>, base: nat, cur: nat, off: nat, data: seq<byte>, from: nat)
    requires Whole(bs, base) && off < base && cur < |bs| && from < |data| <= from + base - off
    ensures data[from..|data|] == data[from..]
    ensures Put(bs, base, cur, off, data[from..])
            == Some(Placed(bs[cur := Splice(bs[cur], off, data[from..])], StepCur(cur, off + |data| - from, base)))
  {
  }

  lemma PutLong(bs: seq<Block>, base: nat, cur: nat, off: nat, data: seq<byte>, from: nat)
    requires Whole(bs, base) && off < base && cur < |bs| && from + base - off < |data|
    ensures var mid := from + base - off;
            Put(bs, base, cur, off, data[from..])
            == Put(bs[cur := Splice(bs[cur], off, data[from..mid])], base, cur + 1, 0, data[mid..])
  {
    var mid := from + base - off;
    assert data[from..][..base - off] == data[from..mid] && data[from..][base - off..] == data[mid..];
  }

  /** With nothing free the cursor is null. */
  lemma EmptyIsNull(b: Buf)
    requires Formed(b) && Free(b) == 0
    ensures b.cur == |b.blocks|
  {
    if b.cur < |b.blocks| { TimesMono(b.cur, |b.blocks|, b.base); }
  }
}
