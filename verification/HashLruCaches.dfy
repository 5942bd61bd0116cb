/** The sharded LRU cache: every key goes to the bucket its hash selects. */
module HashLruCaches {
  import opened Basics
  import opened LruLists
  import opened LruEviction
  import opened LruCaches

  /** `std::ceil(v * 1.0 / n)`. */
  function Ceil(v: nat, n: nat): nat
    requires n > 0
  {
    (v + n - 1) / n
  }

  /** Rounding each bucket up gives at least the capacity asked for, and less than it plus the bucket count. */
  lemma RoundedCapacity(v: nat, n: nat)
    requires n > 0
    ensures v <= Ceil(v, n) * n < v + n
  {
    var q, r := (v + n - 1) / n, (v + n - 1) % n;
    assert v + n - 1 == q * n + r;
  }

  /** The operations that reach bucket `b`: those on its keys, and every `clear`. */
  function Route<K, V>(ops: seq<Op<K, V>>, place: K -> nat, b: nat): seq<Op<K, V>>
    decreases |ops|
  {
    if ops == [] then []
    else
      var op := ops[|ops| - 1];
      var front := Route(ops[..|ops| - 1], place, b);
      if op.Clear? || place(op.key) == b then front + [op] else front
  }

  lemma RouteStep<K, V>(ops: seq<Op<K, V>>, op: Op<K, V>, place: K -> nat, b: nat)
    ensures Route(ops + [op], place, b) ==
              if op.Clear? || place(op.key) == b then Route(ops, place, b) + [op] else Route(ops, place, b)
  {
    assert (ops + [op])[..|ops|] == ops;
  }

  /** The bucket of a key sees the same last value for it as the whole cache. */
  lemma {:induction false} RouteLastSet<K, V>(ops: seq<Op<K, V>>, place: K -> nat, k: K)
    ensures LastSet(Route(ops, place, place(k)), k) == LastSet(ops, k)
    decreases |ops|
  {
    if ops != [] {
      var front, op := ops[..|ops| - 1], ops[|ops| - 1];
      var b := place(k);
      RouteLastSet(front, place, k);
      if op.Clear? || place(op.key) == b {
        assert (Route(front, place, b) + [op])[..|Route(front, place, b)|] == Route(front, place, b);
      }
    }
  }

  /** The bucket of a key has seen it set, deleted and cleared exactly as the whole cache has. */
  lemma {:induction false} RouteSetKeys<K, V>(ops: seq<Op<K, V>>, place: K -> nat, k: K)
    ensures k in SetKeys(Route(ops, place, place(k))) <==> k in SetKeys(ops)
    decreases |ops|
  {
    if ops != [] {
      var front, op := ops[..|ops| - 1], ops[|ops| - 1];
      var b := place(k);
      RouteSetKeys(front, place, k);
      if op.Clear? || place(op.key) == b {
        assert (Route(front, place, b) + [op])[..|Route(front, place, b)|] == Route(front, place, b);
      }
    }
  }

  /** A bucket in order, after the operations `share`, that holds only keys which belong to it. */
  ghost predicate Fits<K, V>(c: LruCache<K, V>, place: K -> nat, i: nat, share: seq<Op<K, V>>,
                             max: nat, elasticity: nat)
    reads c, c.Nodes
  {
    && c.Valid() && c.Tracks() && c.ops == share && c.maxSize == max && c.elasticity == elasticity
    && forall k :: k in c.cache ==> place(k) == i
  }

  method SetIn<K(==), V>(c: LruCache<K, V>, k: K, v: V, ghost place: K -> nat, ghost i: nat, ghost share: seq<Op<K, V>>,
                         ghost max: nat, ghost elasticity: nat)
    requires Fits(c, place, i, share, max, elasticity) && place(k) == i
    modifies c, c.Nodes
    ensures Fits(c, place, i, share + [Op.Set(k, v)], max, elasticity) && k in c.cache
    ensures fresh(c.Nodes - old(c.Nodes)) && old(c.Nodes) <= c.Nodes
  {
    c.Set(k, v);
  }

  method GetIn<K(==), V>(c: LruCache<K, V>, k: K, ghost place: K -> nat, ghost i: nat, ghost share: seq<Op<K, V>>,
                         ghost max: nat, ghost elasticity: nat) returns (r: Option<V>)
    requires Fits(c, place, i, share, max, elasticity)
    modifies c`keys, c`ops
    ensures Fits(c, place, i, share + [Op.Get(k)], max, elasticity)
    ensures (r.Some? <==> k in c.cache) && (r.Some? ==> r == LastSet(share, k) && k in SetKeys(share))
    ensures k in SetKeys(share) && AlwaysRoomy(share, max, elasticity) ==> r.Some?
  {
    r := c.Get(k);
  }

  method DelIn<K(==), V>(c: LruCache<K, V>, k: K, ghost place: K -> nat, ghost i: nat, ghost share: seq<Op<K, V>>,
                         ghost max: nat, ghost elasticity: nat) returns (found: bool)
    requires Fits(c, place, i, share, max, elasticity)
    modifies c`keys, c`cache, c`ops
    ensures Fits(c, place, i, share + [Op.Del(k)], max, elasticity)
    ensures found == (k in old(c.cache)) && k !in c.cache
  {
    found := c.Del(k);
  }

  method ClearIn<K(==), V>(c: LruCache<K, V>, ghost place: K -> nat, ghost i: nat, ghost share: seq<Op<K, V>>,
                           ghost max: nat, ghost elasticity: nat, ghost op: Op<K, V>)
    requires Fits(c, place, i, share, max, elasticity) && op.Clear?
    modifies c`keys, c`cache, c`ops
    ensures Fits(c, place, i, share + [op], max, elasticity) && c.cache == map[]
  {
    c.Clear();
  }

  ghost predicate NewBucket<K, V>(c: LruCache<K, V>, max: nat, elasticity: nat)
    reads c, c.Nodes
  {
    && c.Nodes == {} && c.Valid() && c.keys == [] && c.Tracks() && c.ops == []
    && c.maxSize == max && c.elasticity == elasticity
  }

  class HashLruCache<K(==, !new), V> {
    /** The bucket of a key. */
    const place: K -> nat
    const perMax: nat
    const perElasticity: nat
    const maxSize: nat
    const buckets: seq<LruCache<K, V>>
    ghost var ops: seq<Op<K, V>>
    ghost var Nodes: set<Cell<K, V>>

    /** Bucket `i` has seen its share of the run. */
    ghost predicate BucketOk(i: nat)
      requires i < |buckets|
      reads this`ops, this`Nodes, buckets, Nodes
    {
      buckets[i].Nodes <= Nodes && Fits(buckets[i], place, i, Route(ops, place, i), perMax, perElasticity)
    }

    ghost predicate Apart(i: nat, j: nat)
      requires i < |buckets| && j < |buckets|
      reads buckets
    {
      i != j ==> buckets[i] != buckets[j] && buckets[i].Nodes !! buckets[j].Nodes
    }

    ghost predicate Valid()
      reads this`ops, this`Nodes, buckets, Nodes
    {
      && (forall k :: place(k) < |buckets|)
      && (forall i {:trigger BucketOk(i)} :: 0 <= i < |buckets| ==> BucketOk(i))
      && (forall i, j {:trigger Apart(i, j)} :: 0 <= i < |buckets| && 0 <= j < |buckets| ==> Apart(i, j))
    }

    /** The keys in the first `n` buckets. */
    ghost function Live(n: nat): set<K>
      requires n <= |buckets|
      reads buckets
      decreases n
    {
      if n == 0 then {} else Live(n - 1) + buckets[n - 1].cache.Keys
    }

    /** Every bucket gets its part of the limits, rounded up. */
    constructor (hash: K -> nat, bucket: nat, max: nat, elasticity: nat)
      requires bucket > 0
      ensures Valid() && fresh(buckets) && Nodes == {} && ops == [] && |buckets| == bucket
      ensures forall k :: place(k) == hash(k) % bucket
      ensures perMax == Ceil(max, bucket) && perElasticity == Ceil(elasticity, bucket) && maxSize == perMax * bucket
    {
      place := k => hash(k) % bucket;
      perMax, perElasticity := Ceil(max, bucket), Ceil(elasticity, bucket);
      maxSize := Ceil(max, bucket) * bucket;
      var bs: seq<LruCache<K, V>> := [];
      while |bs| < bucket
        invariant |bs| <= bucket && fresh(bs)
        invariant forall i :: 0 <= i < |bs| ==> NewBucket(bs[i], Ceil(max, bucket), Ceil(elasticity, bucket))
        invariant forall i, j :: 0 <= i < j < |bs| ==> bs[i] != bs[j]
      {
        var c := new LruCache(Ceil(max, bucket), Ceil(elasticity, bucket), false);
        bs := bs + [c];
      }
      buckets, ops, Nodes := bs, [], {};
      new;
      forall i | 0 <= i < |buckets| ensures BucketOk(i) { assert NewBucket(buckets[i], perMax, perElasticity); }
    }

    /** One bucket took part in an operation; its new nodes are new to all buckets. */
    twostate predicate OnlyBucket(i: nat)
      requires i < |buckets|
      reads buckets
    {
      && old(buckets[i].Nodes) <= buckets[i].Nodes && fresh(buckets[i].Nodes - old(buckets[i].Nodes))
      && forall j :: 0 <= j < |buckets| && j != i ==> buckets[j].Nodes == old(buckets[j].Nodes)
    }

    twostate lemma KeptApart(i: nat)
      requires i < |buckets| && old(Valid()) && OnlyBucket(i)
      ensures forall a, b {:trigger Apart(a, b)} :: 0 <= a < |buckets| && 0 <= b < |buckets| ==> Apart(a, b)
    {
      forall a, b | 0 <= a < |buckets| && 0 <= b < |buckets| ensures Apart(a, b) {
        assert old(Apart(a, b));
      }
    }

    /** Bucket `j` when only bucket `i` has seen the operation that follows `run`. */
    ghost predicate MidOk(j: nat, i: nat, run: seq<Op<K, V>>, op: Op<K, V>)
      requires j < |buckets|
      reads this`Nodes, buckets, Nodes
    {
      var share := Route(run, place, j);
      && buckets[j].Nodes <= Nodes
      && Fits(buckets[j], place, j, if j == i then share + [op] else share, perMax, perElasticity)
    }

    /** Between the change of bucket `i` and the record of the operation. */
    ghost predicate Midway(i: nat, run: seq<Op<K, V>>, op: Op<K, V>)
      reads this`Nodes, buckets, Nodes
    {
      && (forall k :: place(k) < |buckets|)
      && (forall j {:trigger MidOk(j, i, run, op)} :: 0 <= j < |buckets| ==> MidOk(j, i, run, op))
      && (forall a, b {:trigger Apart(a, b)} :: 0 <= a < |buckets| && 0 <= b < |buckets| ==> Apart(a, b))
    }

    lemma Recorded(i: nat, run: seq<Op<K, V>>, op: Op<K, V>)
      requires Midway(i, run, op) && ops == run + [op] && !op.Clear? && place(op.key) == i
      ensures Valid()
    {
      forall j | 0 <= j < |buckets| ensures BucketOk(j) {
        assert MidOk(j, i, run, op);
        RouteStep(run, op, place, j);
      }
    }

    method SetBucket(i: nat, k: K, v: V, ghost op: Op<K, V>)
      requires Valid() && i == place(k) && op == Op.Set(k, v)
      modifies this`Nodes, buckets, Nodes
      ensures Midway(i, ops, op) && fresh(Nodes - old(Nodes)) && old(Nodes) <= Nodes && k in buckets[i].cache
    {
      assert BucketOk(i);
      SetIn(buckets[i], k, v, place, i, Route(ops, place, i), perMax, perElasticity);
      Nodes := Nodes + buckets[i].Nodes;
      forall j | 0 <= j < |buckets|
        ensures MidOk(j, i, ops, op) && (j != i ==> buckets[j].Nodes == old(buckets[j].Nodes))
      {
        assert old(BucketOk(j)) && old(Apart(i, j));
      }
      KeptApart(i);
    }

    method Set(k: K, v: V)
      requires Valid()
      modifies this`ops, this`Nodes, buckets, Nodes
      ensures Valid() && ops == old(ops) + [Op.Set(k, v)]
      ensures fresh(Nodes - old(Nodes)) && old(Nodes) <= Nodes
      ensures k in buckets[place(k)].cache
    {
      var i := place(k);
      ghost var run, op := ops, Op.Set(k, v);
      SetBucket(i, k, v, op);
      ops := ops + [op];
      Recorded(i, run, op);
    }

    method GetBucket(i: nat, k: K, ghost op: Op<K, V>) returns (r: Option<V>)
      requires Valid() && i == place(k) && op == Op.Get(k)
      modifies buckets
      ensures Midway(i, ops, op)
      ensures r.Some? <==> k in buckets[i].cache
      ensures r.Some? ==> r == LastSet(Route(ops, place, i), k) && k in SetKeys(Route(ops, place, i))
      ensures k in SetKeys(Route(ops, place, i)) && AlwaysRoomy(Route(ops, place, i), perMax, perElasticity) ==> r.Some?
    {
      assert BucketOk(i);
      r := GetIn(buckets[i], k, place, i, Route(ops, place, i), perMax, perElasticity);
      forall j | 0 <= j < |buckets|
        ensures MidOk(j, i, ops, op) && (j != i ==> buckets[j].Nodes == old(buckets[j].Nodes))
      {
        assert old(BucketOk(j)) && old(Apart(i, j));
      }
      KeptApart(i);
    }

    /** A hit returns the value of the last `set` of the key in the whole run; a key that was set and not deleted or
        cleared since is hit unless its bucket once had too many keys. */
    method Get(k: K) returns (r: Option<V>)
      requires Valid()
      modifies this`ops, buckets
      ensures Valid() && ops == old(ops) + [Op.Get(k)]
      ensures r.Some? <==> k in buckets[place(k)].cache
      ensures r.Some? ==> r == LastSet(old(ops), k) && k in SetKeys(old(ops))
      ensures k in SetKeys(old(ops)) && AlwaysRoomy(Route(old(ops), place, place(k)), perMax, perElasticity) ==> r.Some?
    {
      var i := place(k);
      ghost var run, op := ops, Op<K, V>.Get(k);
      RouteLastSet(ops, place, k);
      RouteSetKeys(ops, place, k);
      r := GetBucket(i, k, op);
      ops := ops + [op];
      Recorded(i, run, op);
    }

    method DelBucket(i: nat, k: K, ghost op: Op<K, V>) returns (found: bool)
      requires Valid() && i == place(k) && op == Op.Del(k)
      modifies buckets
      ensures Midway(i, ops, op)
      ensures found == (k in old(buckets[i].cache)) && k !in buckets[i].cache
    {
      assert BucketOk(i);
      found := DelIn(buckets[i], k, place, i, Route(ops, place, i), perMax, perElasticity);
      forall j | 0 <= j < |buckets|
        ensures MidOk(j, i, ops, op) && (j != i ==> buckets[j].Nodes == old(buckets[j].Nodes))
      {
        assert old(BucketOk(j)) && old(Apart(i, j));
      }
      KeptApart(i);
    }

    method Del(k: K) returns (found: bool)
      requires Valid()
      modifies this`ops, buckets
      ensures Valid() && ops == old(ops) + [Op.Del(k)]
      ensures found == (k in old(buckets[place(k)].cache)) && k !in buckets[place(k)].cache
    {
      var i := place(k);
      ghost var run, op := ops, Op<K, V>.Del(k);
      found := DelBucket(i, k, op);
      ops := ops + [op];
      Recorded(i, run, op);
    }

    /** Bucket `j` while the first `i` have been cleared. */
    ghost predicate ClearOk(j: nat, i: nat, run: seq<Op<K, V>>, op: Op<K, V>)
      requires j < |buckets|
      reads this`Nodes, buckets, Nodes
    {
      var share := Route(run, place, j);
      && buckets[j].Nodes <= Nodes
      && Fits(buckets[j], place, j, if j < i then share + [op] else share, perMax, perElasticity)
    }

    ghost predicate Clearing(i: nat, run: seq<Op<K, V>>, op: Op<K, V>)
      reads this`Nodes, buckets, Nodes
    {
      && (forall j {:trigger ClearOk(j, i, run, op)} :: 0 <= j < |buckets| ==> ClearOk(j, i, run, op))
      && (forall a, b {:trigger Apart(a, b)} :: 0 <= a < |buckets| && 0 <= b < |buckets| ==> Apart(a, b))
    }

    /** One turn of the loop in `clear`. */
    method ClearBucket(i: nat, ghost k: nat, ghost run: seq<Op<K, V>>, ghost op: Op<K, V>)
      requires i < |buckets| && k == i + 1 && Clearing(i, run, op) && op.Clear?
      modifies buckets
      ensures Clearing(k, run, op)
    {
      assert ClearOk(i, i, run, op);
      ClearIn(buckets[i], place, i, Route(run, place, i), perMax, perElasticity, op);
      forall j | 0 <= j < |buckets| ensures ClearOk(j, k, run, op) {
        assert old(ClearOk(j, i, run, op)) && old(Apart(i, j));
      }
      forall a, b | 0 <= a < |buckets| && 0 <= b < |buckets| ensures Apart(a, b) { assert old(Apart(a, b)); }
    }

    method Clear()
      requires Valid()
      modifies this`ops, buckets
      ensures Valid() && ops == old(ops) + [Op.Clear]
    {
      ghost var op: Op<K, V>, run := Op.Clear, ops;
      forall j | 0 <= j < |buckets| ensures ClearOk(j, 0, run, op) { assert BucketOk(j); }
      var i := 0;
      while i < |buckets|
        invariant i <= |buckets| && Clearing(i, run, op) && ops == run
      {
        ClearBucket(i, i + 1, run, op);
        i := i + 1;
      }
      ops := ops + [op];
      forall j | 0 <= j < |buckets| ensures BucketOk(j) {
        assert ClearOk(j, i, run, op);
        RouteStep(run, op, place, j);
      }
    }

    /** A key is live exactly in the bucket its hash selects. */
    lemma LiveInPlace(n: nat, k: K)
      requires Valid() && n <= |buckets|
      ensures k in Live(n) <==> place(k) < n && k in buckets[place(k)].cache
      decreases n
    {
      if n > 0 {
        LiveInPlace(n - 1, k);
        assert BucketOk(n - 1);
      }
    }

    /** Bucket `i` shares no key with the buckets before it. */
    lemma LiveDisjoint(i: nat)
      requires Valid() && i < |buckets|
      ensures |Live(i + 1)| == |Live(i)| + |buckets[i].cache|
    {
      forall k | k in buckets[i].cache ensures k !in Live(i) {
        LiveInPlace(i, k);
        assert BucketOk(i);
      }
      assert Live(i) !! buckets[i].cache.Keys;
      assert |buckets[i].cache.Keys| == |buckets[i].cache|;
    }

    lemma LiveKeys()
      requires Valid()
      ensures forall k :: k in Live(|buckets|) <==> k in buckets[place(k)].cache
    {
      forall k ensures k in Live(|buckets|) <==> k in buckets[place(k)].cache {
        LiveInPlace(|buckets|, k);
      }
    }

    /** The sum of the bucket sizes is the number of distinct live keys. */
    method Size() returns (total: nat)
      requires Valid()
      ensures total == |Live(|buckets|)|
      ensures forall k :: k in Live(|buckets|) <==> k in buckets[place(k)].cache
    {
      total := SumSizes();
      LiveKeys();
    }

    method SumSizes() returns (total: nat)
      requires Valid()
      ensures total == |Live(|buckets|)|
    {
      total := 0;
      var i := 0;
      while i < |buckets|
        invariant i <= |buckets| && total == |Live(i)|
      {
        LiveDisjoint(i);
        total := total + |buckets[i].cache|;
        i := i + 1;
      }
    }
  }
}
