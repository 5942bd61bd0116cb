/** The LRU cache as the source keeps it: a map to the nodes of a list, changed in place. */
module LruCaches {
  import opened Basics
  import opened LruLists
  import opened LruEviction

  /** A node of the list; the map holds a reference to it. */
  class Cell<K, V> {
    const key: K
    var value: V

    constructor (key: K, value: V)
      ensures this.key == key && this.value == value
    {
      this.key, this.value := key, value;
    }
  }

  ghost function Pairs<K, V>(cells: seq<Cell<K, V>>): (r: seq<Pair<K, V>>)
    reads cells
    ensures |r| == |cells|
    ensures forall i :: 0 <= i < |cells| ==> r[i] == Pair(cells[i].key, cells[i].value)
  {
    seq(|cells|, i requires 0 <= i < |cells| reads cells => Pair(cells[i].key, cells[i].value))
  }

  /** The map leads from the key of node `i` back to the node. */
  ghost predicate Mapped<K, V>(keys: seq<Cell<K, V>>, cache: map<K, Cell<K, V>>, i: nat)
    requires i < |keys|
  {
    keys[i].key in cache && cache[keys[i].key] == keys[i]
  }

  /** The node that the map holds for `k` is in the list. */
  ghost predicate Listed<K, V>(keys: seq<Cell<K, V>>, cache: map<K, Cell<K, V>>, k: K)
    requires k in cache
  {
    cache[k].key == k && cache[k] in keys
  }

  ghost predicate Differ<K, V>(keys: seq<Cell<K, V>>, i: nat, j: nat)
    requires i < |keys| && j < |keys|
  {
    i != j ==> keys[i].key != keys[j].key
  }

  /** Map entries and list nodes are in bijection. */
  ghost predicate Agree<K, V>(keys: seq<Cell<K, V>>, cache: map<K, Cell<K, V>>) {
    && (forall i {:trigger Mapped(keys, cache, i)} :: 0 <= i < |keys| ==> Mapped(keys, cache, i))
    && (forall i, j {:trigger Differ(keys, i, j)} :: 0 <= i < |keys| && 0 <= j < |keys| ==> Differ(keys, i, j))
    && (forall k {:trigger Listed(keys, cache, k)} :: k in cache ==> Listed(keys, cache, k))
    && |cache| == |keys|
  }

  function Taken<K, V>(keys: seq<Cell<K, V>>, i: nat): seq<Cell<K, V>>
    requires i < |keys|
  {
    keys[..i] + keys[i + 1..]
  }

  /** In a cache whose map and list agree a key has one place. */
  lemma AgreeIndex<K, V>(keys: seq<Cell<K, V>>, cache: map<K, Cell<K, V>>, i: nat)
    requires Agree(keys, cache) && i < |keys|
    ensures Index(Pairs(keys), keys[i].key) == i
  {
    var j := Index(Pairs(keys), keys[i].key);
    assert Pairs(keys)[i].key == keys[i].key;
    assert Differ(keys, j, i);
  }

  lemma AgreeHas<K, V>(keys: seq<Cell<K, V>>, cache: map<K, Cell<K, V>>, k: K)
    requires Agree(keys, cache)
    ensures Has(Pairs(keys), k) <==> k in cache
    ensures k in cache ==> cache[k].value == Value(Pairs(keys), k)
  {
    if k in cache {
      assert Listed(keys, cache, k);
      var i :| 0 <= i < |keys| && keys[i] == cache[k];
      AgreeIndex(keys, cache, i);
    } else {
      HasIff(Pairs(keys), k);
      forall i | 0 <= i < |keys| ensures keys[i].key != k { assert Mapped(keys, cache, i); }
    }
  }

  lemma PairsTaken<K, V>(keys: seq<Cell<K, V>>, cache: map<K, Cell<K, V>>, i: nat)
    requires Agree(keys, cache) && i < |keys|
    ensures Pairs(Taken(keys, i)) == Without(Pairs(keys), keys[i].key)
  {
    AgreeIndex(keys, cache, i);
    assert Pairs(Taken(keys, i)) == Pairs(keys)[..i] + Pairs(keys)[i + 1..];
  }

  /** A node taken out of both. */
  lemma AgreeErase<K, V>(keys: seq<Cell<K, V>>, cache: map<K, Cell<K, V>>, i: nat)
    requires Agree(keys, cache) && i < |keys|
    ensures Agree(Taken(keys, i), cache - {keys[i].key}) && keys[i].key in cache
  {
    var r, m := Taken(keys, i), cache - {keys[i].key};
    assert Mapped(keys, cache, i);
    forall j | 0 <= j < |r| ensures Mapped(r, m, j) {
      var k := if j < i then j else j + 1;
      assert r[j] == keys[k] && Mapped(keys, cache, k) && Differ(keys, k, i);
    }
    forall a, b | 0 <= a < |r| && 0 <= b < |r| ensures Differ(r, a, b) {
      assert Differ(keys, if a < i then a else a + 1, if b < i then b else b + 1);
    }
    forall k | k in m ensures Listed(r, m, k) {
      assert Listed(keys, cache, k);
      var j :| 0 <= j < |keys| && keys[j] == cache[k];
      assert r[if j < i then j else j - 1] == cache[k];
    }
    assert m.Keys == cache.Keys - {keys[i].key};
    assert |m.Keys| == |cache.Keys| - 1;
    assert |m| == |m.Keys| && |cache| == |cache.Keys|;
  }

  /** A new node at the front and in the map. */
  lemma AgreeInsert<K, V>(keys: seq<Cell<K, V>>, cache: map<K, Cell<K, V>>, cell: Cell<K, V>)
    requires Agree(keys, cache) && cell.key !in cache
    ensures Agree([cell] + keys, cache[cell.key := cell])
  {
    var r, m := [cell] + keys, cache[cell.key := cell];
    forall j | 0 <= j < |r| ensures Mapped(r, m, j) {
      if j > 0 { assert r[j] == keys[j - 1] && Mapped(keys, cache, j - 1); }
    }
    forall a, b | 0 <= a < |r| && 0 <= b < |r| ensures Differ(r, a, b) {
      if a > 0 { assert Mapped(keys, cache, a - 1); }
      if b > 0 { assert Mapped(keys, cache, b - 1); }
      if a > 0 && b > 0 { assert Differ(keys, a - 1, b - 1); }
    }
    forall k | k in m ensures Listed(r, m, k) {
      if k != cell.key {
        assert Listed(keys, cache, k);
        var j :| 0 <= j < |keys| && keys[j] == cache[k];
        assert r[j + 1] == cache[k];
      } else {
        assert r[0] == cell;
      }
    }
  }

  /** The list with one node moved to the front still agrees with the map. */
  lemma AgreeSplice<K, V>(keys: seq<Cell<K, V>>, cache: map<K, Cell<K, V>>, i: nat)
    requires Agree(keys, cache) && i < |keys|
    ensures Agree([keys[i]] + Taken(keys, i), cache)
  {
    var k := keys[i].key;
    assert Mapped(keys, cache, i);
    AgreeErase(keys, cache, i);
    AgreeInsert(Taken(keys, i), cache - {k}, keys[i]);
    assert (cache - {k})[k := keys[i]] == cache;
  }

  class LruCache<K(==), V> {
    const maxSize: nat
    const elasticity: nat
    const hasCallback: bool
    var keys: seq<Cell<K, V>>
    var cache: map<K, Cell<K, V>>
    /** What the prune callback was called with. */
    var calls: seq<Pair<K, V>>
    /** The operations so far. */
    ghost var ops: seq<Op<K, V>>

    /** The nodes made so far, those taken out again included. */
    ghost var Nodes: set<Cell<K, V>>

    ghost predicate Valid()
      reads this`keys, this`cache, this`Nodes
    {
      Agree(keys, cache) && Owned(keys, Nodes)
    }

    ghost function Items(): seq<Pair<K, V>>
      reads this`keys, keys
    {
      Pairs(keys)
    }

    /** The list is the one the run so far leads to, and the callback was called on what that run pruned. */
    ghost predicate Tracks()
      reads this`keys, this`ops, this`calls, keys
    {
      var w := After(ops, maxSize, elasticity);
      Items() == w.items && calls == if hasCallback then w.pruned else []
    }

    constructor (maxSize: nat, elasticity: nat, hasCallback: bool)
      ensures Valid() && Items() == [] && calls == [] && ops == [] && Tracks() && Nodes == {}
      ensures this.maxSize == maxSize && this.elasticity == elasticity && this.hasCallback == hasCallback
    {
      this.maxSize, this.elasticity, this.hasCallback := maxSize, elasticity, hasCallback;
      keys, cache, calls, ops, Nodes := [], map[], [], [], {};
    }

    /** Where a node is in the list. */
    method Locate(cell: Cell<K, V>) returns (i: nat)
      requires cell in keys
      ensures i < |keys| && keys[i] == cell
    {
      i := 0;
      while keys[i] != cell
        invariant i < |keys| && cell in keys[i..]
        decreases |keys| - i
      {
        i := i + 1;
      }
    }

    /** `splice` of one node to the front. */
    method Splice(cell: Cell<K, V>)
      requires Valid() && cell in keys
      modifies this`keys
      ensures Valid() && Items() == ToFront(old(Items()), cell.key, cell.value) && |keys| == |old(keys)|
    {
      var i := Locate(cell);
      AgreeSplice(keys, cache, i);
      PairsTaken(keys, cache, i);
      OwnedTaken(keys, Nodes, i);
      PairsFront(cell, Taken(keys, i));
      keys := [keys[i]] + (keys[..i] + keys[i + 1..]);
    }

    /** Calls the callback on the last node and removes it. */
    method PopBack()
      requires Valid() && keys != []
      modifies this`keys, this`cache, this`calls
      ensures Valid() && |keys| == |old(keys)| - 1 && Items() == old(Items())[..|keys|] && cache.Keys <= old(cache.Keys)
      ensures calls == old(calls) + (if hasCallback then [old(Items())[|keys|]] else [])
    {
      var n := |keys| - 1;
      var back := keys[n];
      if hasCallback {
        calls := calls + [Pair(back.key, back.value)];
      }
      AgreeErase(keys, cache, n);
      assert Taken(keys, n) == keys[..n];
      cache := cache - {back.key};
      keys := keys[..n];
    }

    /** One turn of the loop in `prune`, when the entries of `items` behind `n` are gone already. */
    method PopNext(ghost before: seq<Pair<K, V>>, ghost items: seq<Pair<K, V>>, ghost n: nat)
      requires Valid() && n < |items| && |keys| == n + 1 && Items() == items[..n + 1]
      requires calls == before + (if hasCallback then Backwards(items[n + 1..]) else [])
      modifies this`keys, this`cache, this`calls
      ensures Valid() && |keys| == n && Items() == items[..n] && cache.Keys <= old(cache.Keys)
      ensures calls == before + (if hasCallback then Backwards(items[n..]) else [])
    {
      PruneTurn(before, items, n);
      PopBack();
    }

    /** The loop of `prune`, from the back of the list while it is over the limit. */
    method PruneLoop() returns (count: nat)
      requires Valid() && maxSize <= |keys|
      modifies this`keys, this`cache, this`calls
      ensures Valid() && Items() == old(Items())[..maxSize] && count == |old(keys)| - maxSize
      ensures cache.Keys <= old(cache.Keys)
      ensures calls == old(calls) + (if hasCallback then Backwards(old(Items())[maxSize..]) else [])
    {
      count := 0;
      ghost var items, n := Items(), |keys|;
      assert items[..n] == items && items[n..] == [];
      while |cache| > maxSize
        invariant Valid() && maxSize <= n == |keys| <= |items| && count == |items| - n && Items() == items[..n]
        invariant cache.Keys <= old(cache.Keys)
        invariant calls == old(calls) + (if hasCallback then Backwards(items[n..]) else [])
        decreases n
      {
        n := n - 1;
        PopNext(old(calls), items, n);
        count := count + 1;
      }
    }

    method Prune() returns (count: nat)
      requires Valid()
      modifies this`keys, this`cache, this`calls
      ensures Valid() && Items() == Kept(old(Items()), maxSize, elasticity) && count == |old(keys)| - |keys|
      ensures cache.Keys <= old(cache.Keys)
      ensures calls == old(calls) + (if hasCallback then Evicted(old(Items()), maxSize, elasticity) else [])
      ensures count > 0 <==> maxSize > 0 && |old(keys)| > maxSize && |old(keys)| >= maxSize + elasticity
      ensures count > 0 ==> |keys| == maxSize && Items() == old(Items())[..maxSize]
      ensures count == 0 ==> Items() == old(Items()) && calls == old(calls)
    {
      ghost var items := Items();
      assert items[..|items|] == items && Backwards(items[|items|..]) == [];
      if maxSize == 0 || |cache| < maxSize + elasticity {
        return 0;
      }
      count := PruneLoop();
    }

    /** A hit of `set`: a new value in the node, and the node to the front. */
    method Update(k: K, v: V)
      requires Valid() && k in cache
      modifies this`keys, Nodes
      ensures Valid() && Items() == ToFront(old(Items()), k, v) && |keys| == |old(keys)|
    {
      assert Listed(keys, cache, k);
      var cell := cache[k];
      ghost var items := Items();
      cell.value := v;
      ValueChanged(keys, cache, k, items);
      Splice(cell);
    }

    /** A miss of `set`: a new node in front, then a prune. */
    method Insert(k: K, v: V)
      requires Valid() && k !in cache
      modifies this`keys, this`cache, this`calls, this`Nodes
      ensures Valid() && fresh(Nodes - old(Nodes)) && old(Nodes) <= Nodes
      ensures Items() == Kept([Pair(k, v)] + old(Items()), maxSize, elasticity) && cache.Keys <= old(cache.Keys) + {k}
      ensures calls == old(calls)
                       + (if hasCallback then Evicted([Pair(k, v)] + old(Items()), maxSize, elasticity) else [])
      ensures var n := |old(keys)| + 1;
              |keys| == if maxSize > 0 && n > maxSize && n >= maxSize + elasticity then maxSize else n
      ensures k in cache
    {
      var cell := new Cell(k, v);
      AgreeInsert(keys, cache, cell);
      keys := [cell] + keys;
      cache := cache[k := cell];
      Nodes := Nodes + {cell};
      assert Items() == [Pair(k, v)] + old(Items());
      var count := Prune();
      KeptFront(k, v, old(Items()), maxSize, elasticity);
      AgreeHas(keys, cache, k);
    }

    /** `set` without the record of the run. */
    method Store(k: K, v: V)
      requires Valid()
      modifies this`keys, this`cache, this`calls, this`Nodes, Nodes
      ensures Valid() && fresh(Nodes - old(Nodes)) && old(Nodes) <= Nodes
      ensures cache.Keys <= old(cache.Keys) + {k} && k in cache
      ensures k in old(cache) ==>
                Items() == ToFront(old(Items()), k, v) && calls == old(calls) && |keys| == |old(keys)|
      ensures k !in old(cache) ==>
                && Items() == Kept([Pair(k, v)] + old(Items()), maxSize, elasticity)
                && calls == old(calls)
                            + (if hasCallback then Evicted([Pair(k, v)] + old(Items()), maxSize, elasticity) else [])
                && var n := |old(keys)| + 1;
                   |keys| == if maxSize > 0 && n > maxSize && n >= maxSize + elasticity then maxSize else n
    {
      if k in cache {
        Update(k, v);
      } else {
        Insert(k, v);
      }
    }

    method Set(k: K, v: V)
      requires Valid() && Tracks()
      modifies this, Nodes
      ensures Valid() && Tracks() && ops == old(ops) + [Op.Set(k, v)]
      ensures fresh(Nodes - old(Nodes)) && old(Nodes) <= Nodes
      ensures cache.Keys <= old(cache.Keys) + {k} && k in cache
      ensures k in old(cache) ==> |keys| == |old(keys)|
      ensures k !in old(cache) ==>
                var n := |old(keys)| + 1;
                |keys| == if maxSize > 0 && n > maxSize && n >= maxSize + elasticity then maxSize else n
    {
      AgreeHas(keys, cache, k);
      SetStep(ops, k, v, maxSize, elasticity);
      ops := ops + [Op.Set(k, v)];
      Store(k, v);
    }

    /** Returns the value if the key was there; the source returns that value converted to a truth value. */
    method Get(k: K) returns (r: Option<V>)
      requires Valid() && Tracks()
      modifies this`keys, this`ops
      ensures Valid() && Tracks() && ops == old(ops) + [Op.Get(k)]
      ensures (r.Some? <==> k in cache) && cache == old(cache)
      ensures r.Some? ==> r == LastSet(old(ops), k) && k in SetKeys(old(ops))
      ensures k in SetKeys(old(ops)) && AlwaysRoomy(old(ops), maxSize, elasticity) ==> r.Some?
    {
      AgreeHas(keys, cache, k);
      HitOrMiss(ops, maxSize, elasticity, k);
      RecencyOrder(ops, maxSize, elasticity);
      AfterStep(ops, Op.Get(k), maxSize, elasticity);
      ops := ops + [Op.Get(k)];
      if k !in cache {
        return None;
      }
      assert Listed(keys, cache, k);
      var cell := cache[k];
      Splice(cell);
      return Some(cell.value);
    }

    /** A hit of `del`. */
    method Erase(k: K)
      requires Valid() && k in cache
      modifies this`keys, this`cache
      ensures Valid() && Items() == Without(old(Items()), k) && cache == old(cache) - {k}
    {
      assert Listed(keys, cache, k);
      var i := Locate(cache[k]);
      AgreeErase(keys, cache, i);
      PairsTaken(keys, cache, i);
      keys := keys[..i] + keys[i + 1..];
      cache := cache - {k};
      assert keys == Taken(old(keys), i);
    }

    method Del(k: K) returns (found: bool)
      requires Valid() && Tracks()
      modifies this`keys, this`cache, this`ops
      ensures Valid() && Tracks() && ops == old(ops) + [Op.Del(k)]
      ensures found == (k in old(cache)) && cache == old(cache) - {k}
    {
      AgreeHas(keys, cache, k);
      AfterStep(ops, Op.Del(k), maxSize, elasticity);
      ops := ops + [Op.Del(k)];
      found := k in cache;
      if found {
        Erase(k);
      }
    }

    method Clear()
      requires Valid() && Tracks()
      modifies this`keys, this`cache, this`ops
      ensures Valid() && Tracks() && ops == old(ops) + [Op.Clear] && keys == [] && cache == map[]
    {
      AfterClear(ops, maxSize, elasticity);
      ops := ops + [Op.Clear];
      cache := map[];
      keys := [];
      assert Pairs(keys) == [];
    }
  }

  /** The run after one more `set`. */
  lemma SetStep<K, V>(ops: seq<Op<K, V>>, k: K, v: V, maxSize: nat, elasticity: nat)
    ensures var w, w' := After(ops, maxSize, elasticity), After(ops + [Op.Set(k, v)], maxSize, elasticity);
            var all := [Pair(k, v)] + w.items;
            if Has(w.items, k) then w'.items == ToFront(w.items, k, v) && w'.pruned == w.pruned
            else w'.items == Kept(all, maxSize, elasticity) && w'.pruned == w.pruned + Evicted(all, maxSize, elasticity)
  {
    AfterStep(ops, Op.Set(k, v), maxSize, elasticity);
  }

  lemma KeptFront<K, V>(k: K, v: V, items: seq<Pair<K, V>>, maxSize: nat, elasticity: nat)
    ensures Has(Kept([Pair(k, v)] + items, maxSize, elasticity), k)
  {
  }

  lemma HitOrMiss<K, V>(ops: seq<Op<K, V>>, maxSize: nat, elasticity: nat, k: K)
    ensures Has(After(ops, maxSize, elasticity).items, k) ==> k in SetKeys(ops)
    ensures k in SetKeys(ops) && AlwaysRoomy(ops, maxSize, elasticity) ==> Has(After(ops, maxSize, elasticity).items, k)
  {
    InKeySet(After(ops, maxSize, elasticity).items, k);
    HitsWereSet(ops, maxSize, elasticity);
    NothingEvictedIff(ops, maxSize, elasticity);
  }

  ghost predicate Owned<K, V>(keys: seq<Cell<K, V>>, nodes: set<Cell<K, V>>) {
    forall i :: 0 <= i < |keys| ==> keys[i] in nodes
  }

  lemma OwnedTaken<K, V>(keys: seq<Cell<K, V>>, nodes: set<Cell<K, V>>, i: nat)
    requires Owned(keys, nodes) && i < |keys|
    ensures Owned([keys[i]] + Taken(keys, i), nodes)
  {
    assert forall j :: 0 <= j < |Taken(keys, i)| ==> Taken(keys, i)[j] == keys[if j < i then j else j + 1];
  }

  lemma PairsFront<K, V>(cell: Cell<K, V>, keys: seq<Cell<K, V>>)
    ensures Pairs([cell] + keys) == [Pair(cell.key, cell.value)] + Pairs(keys)
  {
  }

  lemma AfterStep<K, V>(ops: seq<Op<K, V>>, op: Op<K, V>, maxSize: nat, elasticity: nat)
    ensures After(ops + [op], maxSize, elasticity) == Step(After(ops, maxSize, elasticity), op, maxSize, elasticity)
  {
    assert (ops + [op])[..|ops|] == ops;
  }

  lemma AfterClear<K, V>(ops: seq<Op<K, V>>, maxSize: nat, elasticity: nat)
    ensures After(ops + [Op.Clear], maxSize, elasticity).items == []
    ensures After(ops + [Op.Clear], maxSize, elasticity).pruned == After(ops, maxSize, elasticity).pruned
  {
    AfterStep(ops, Op.Clear, maxSize, elasticity);
  }

  /** After the node of `k` got a new value, only that entry of the list has changed. */
  lemma ValueChanged<K, V>(keys: seq<Cell<K, V>>, cache: map<K, Cell<K, V>>, k: K, items: seq<Pair<K, V>>)
    requires Agree(keys, cache) && k in cache && |items| == |keys|
    requires forall i :: 0 <= i < |keys| ==>
               items[i].key == keys[i].key && (keys[i] != cache[k] ==> items[i].value == keys[i].value)
    ensures Without(Pairs(keys), k) == Without(items, k)
  {
    assert Listed(keys, cache, k);
    var i :| 0 <= i < |keys| && keys[i] == cache[k];
    AgreeIndex(keys, cache, i);
    assert Differ(keys, Min(Index(items, k), i), i);
    forall j | 0 <= j < |keys| && j != i ensures Pairs(keys)[j] == items[j] {
      assert Differ(keys, j, i);
    }
    SameWithout(Pairs(keys), items, k, i);
  }

  lemma SameWithout<K, V>(p: seq<Pair<K, V>>, q: seq<Pair<K, V>>, k: K, i: nat)
    requires |p| == |q| && i < |p| && Index(p, k) == i && Index(q, k) == i
    requires forall j :: 0 <= j < |p| && j != i ==> p[j] == q[j]
    ensures Without(p, k) == Without(q, k)
  {
    assert p[..i] == q[..i] && p[i + 1..] == q[i + 1..];
  }

  /** The last entry of the list is the next to be evicted. */
  lemma PruneTurn<K, V>(calls: seq<Pair<K, V>>, items: seq<Pair<K, V>>, n: nat)
    requires n < |items|
    ensures items[..n + 1][..n] == items[..n] && items[..n + 1][n] == items[n]
    ensures calls + Backwards(items[n + 1..]) + [items[n]] == calls + Backwards(items[n..])
  {
    assert items[n..][1..] == items[n + 1..];
  }
}
