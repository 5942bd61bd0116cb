/** The LRU cache as a plain list of pairs, most recently used first, and what holds over every run. */
module LruLists {
  import opened Basics

  datatype Pair<K, V> = Pair(key: K, value: V)

  // ---------------------------------------------------------------- the list

  ghost predicate Distinct<K, V>(items: seq<Pair<K, V>>) {
    forall i, j :: 0 <= i < j < |items| ==> items[i].key != items[j].key
  }

  /** Where the key is, or the length of the list. */
  function Index<K(==), V>(items: seq<Pair<K, V>>, k: K): (i: nat)
    ensures i <= |items|
    ensures i < |items| ==> items[i].key == k
    ensures forall j :: 0 <= j < i ==> items[j].key != k
  {
    if items == [] || items[0].key == k then 0 else 1 + Index(items[1..], k)
  }

  predicate Has<K(==), V>(items: seq<Pair<K, V>>, k: K) { Index(items, k) < |items| }

  function Value<K(==), V>(items: seq<Pair<K, V>>, k: K): V
    requires Has(items, k)
  {
    items[Index(items, k)].value
  }

  function Without<K(==), V>(items: seq<Pair<K, V>>, k: K): seq<Pair<K, V>> {
    var i := Index(items, k);
    if i < |items| then items[..i] + items[i + 1..] else items
  }

  function ToFront<K(==), V>(items: seq<Pair<K, V>>, k: K, v: V): seq<Pair<K, V>> {
    [Pair(k, v)] + Without(items, k)
  }

  /** `prune` acts when a limit is set and the list has reached the limit plus the elasticity. */
  predicate Prunes(n: nat, maxSize: nat, elasticity: nat) {
    maxSize > 0 && n >= maxSize + elasticity && n > maxSize
  }

  /** The entries that `prune` keeps: the most recent `maxSize`. */
  function Kept<K, V>(items: seq<Pair<K, V>>, maxSize: nat, elasticity: nat): seq<Pair<K, V>> {
    if Prunes(|items|, maxSize, elasticity) then items[..maxSize] else items
  }

  /** The entries that `prune` evicts, oldest first. */
  function Evicted<K, V>(items: seq<Pair<K, V>>, maxSize: nat, elasticity: nat): seq<Pair<K, V>> {
    if Prunes(|items|, maxSize, elasticity) then Backwards(items[maxSize..]) else []
  }

  // ---------------------------------------------------------------- runs

  datatype Op<K, V> = Set(key: K, value: V) | Get(key: K) | Del(key: K) | Clear

  /** The list, and the keys that were inserted, pruned, deleted and cleared so far. */
  datatype World<K, V> =
    World(items: seq<Pair<K, V>>, inserted: seq<K>, pruned: seq<Pair<K, V>>, deleted: seq<K>, cleared: seq<K>)

  function KeysOf<K, V>(items: seq<Pair<K, V>>): (r: seq<K>)
    ensures |r| == |items|
  {
    seq(|items|, i requires 0 <= i < |items| => items[i].key)
  }

  function Step<K(==), V>(w: World<K, V>, op: Op<K, V>, maxSize: nat, elasticity: nat): World<K, V> {
    match op
    case Set(k, v) =>
      if Has(w.items, k) then w.(items := ToFront(w.items, k, v))
      else
        var all := [Pair(k, v)] + w.items;
        w.(items := Kept(all, maxSize, elasticity), inserted := w.inserted + [k],
           pruned := w.pruned + Evicted(all, maxSize, elasticity))
    case Get(k) =>
      if Has(w.items, k) then w.(items := ToFront(w.items, k, Value(w.items, k))) else w
    case Del(k) =>
      if Has(w.items, k) then w.(items := Without(w.items, k), deleted := w.deleted + [k]) else w
    case Clear => w.(items := [], cleared := w.cleared + KeysOf(w.items))
  }

  function Empty<K, V>(): World<K, V> { World([], [], [], [], []) }

  /** The state after a run from the empty cache. */
  function After<K(==), V>(ops: seq<Op<K, V>>, maxSize: nat, elasticity: nat): World<K, V>
    decreases |ops|
  {
    if ops == [] then Empty()
    else Step(After(ops[..|ops| - 1], maxSize, elasticity), ops[|ops| - 1], maxSize, elasticity)
  }

  // ---------------------------------------------------------------- lists without repeated keys

  lemma WithoutDistinct<K, V>(items: seq<Pair<K, V>>, k: K)
    requires Distinct(items)
    ensures Distinct(Without(items, k)) && !Has(Without(items, k), k)
    ensures forall j :: 0 <= j < |Without(items, k)| ==>
              Without(items, k)[j] == items[if j < Index(items, k) then j else j + 1]
  {
    var r, i := Without(items, k), Index(items, k);
    assert forall j :: 0 <= j < |r| ==> r[j] == items[if j < i then j else j + 1];
    forall j | 0 <= j < |r| ensures r[j].key != k {
      if i < |items| && j >= i { assert items[i].key != items[j + 1].key; }
    }
    HasIff(r, k);
  }

  lemma HasIff<K, V>(items: seq<Pair<K, V>>, k: K)
    ensures Has(items, k) <==> exists i :: 0 <= i < |items| && items[i].key == k
  {
  }

  // ---------------------------------------------------------------- values and order over every run

  /** The value of the last `set` of the key. */
  function LastSet<K(==), V>(ops: seq<Op<K, V>>, k: K): Option<V>
    decreases |ops|
  {
    if ops == [] then None
    else
      var op := ops[|ops| - 1];
      if op.Set? && op.key == k then Some(op.value) else LastSet(ops[..|ops| - 1], k)
  }

  /** The time of the last `set` or `get` of the key, 0 if there was none. */
  function LastUse<K(==), V>(ops: seq<Op<K, V>>, k: K): (t: nat)
    ensures t <= |ops|
    decreases |ops|
  {
    if ops == [] then 0
    else
      var op := ops[|ops| - 1];
      if (op.Set? || op.Get?) && op.key == k then |ops| else LastUse(ops[..|ops| - 1], k)
  }

  /** Keys are distinct, every value is the last one set, and the most recently used key comes first. */
  ghost predicate Ordered<K, V>(ops: seq<Op<K, V>>, items: seq<Pair<K, V>>) {
    && Distinct(items)
    && (forall i :: 0 <= i < |items| ==> LastSet(ops, items[i].key) == Some(items[i].value))
    && (forall i, j :: 0 <= i < j < |items| ==> LastUse(ops, items[i].key) > LastUse(ops, items[j].key))
  }

  /** The bookkeeping of one more operation on the other keys. */
  lemma OtherKeys<K, V>(ops: seq<Op<K, V>>, op: Op<K, V>, k: K)
    requires op.Clear? || op.key != k
    ensures LastSet(ops + [op], k) == LastSet(ops, k) && LastUse(ops + [op], k) == LastUse(ops, k)
  {
    assert (ops + [op])[..|ops|] == ops;
  }

  /** The bookkeeping of one more operation on its own key. */
  lemma OwnKey<K, V>(ops: seq<Op<K, V>>, op: Op<K, V>)
    requires op.Set? || op.Get?
    ensures LastUse(ops + [op], op.key) == |ops| + 1
    ensures LastSet(ops + [op], op.key) == if op.Set? then Some(op.value) else LastSet(ops, op.key)
  {
    assert (ops + [op])[..|ops|] == ops;
  }

  /** A list of other keys stays in order. */
  lemma OthersOrdered<K, V>(ops: seq<Op<K, V>>, op: Op<K, V>, items: seq<Pair<K, V>>)
    requires Ordered(ops, items) && (op.Clear? || !Has(items, op.key))
    ensures Ordered(ops + [op], items)
  {
    forall i | 0 <= i < |items|
      ensures LastSet(ops + [op], items[i].key) == LastSet(ops, items[i].key)
      ensures LastUse(ops + [op], items[i].key) == LastUse(ops, items[i].key)
    {
      if !op.Clear? { HasIff(items, op.key); }
      OtherKeys(ops, op, items[i].key);
    }
  }

  lemma WithoutOrdered<K, V>(ops: seq<Op<K, V>>, items: seq<Pair<K, V>>, k: K)
    requires Ordered(ops, items)
    ensures Ordered(ops, Without(items, k)) && !Has(Without(items, k), k)
  {
    WithoutDistinct(items, k);
    if Has(items, k) { ErasedOrdered(ops, items, Index(items, k), Without(items, k)); }
  }

  /** The list with the entry at `at` taken out. */
  lemma ErasedOrdered<K, V>(ops: seq<Op<K, V>>, items: seq<Pair<K, V>>, at: nat, r: seq<Pair<K, V>>)
    requires Ordered(ops, items) && at < |items| == |r| + 1
    requires forall j :: 0 <= j < |r| ==> r[j] == items[if j < at then j else j + 1]
    ensures Ordered(ops, r)
  {
    forall i, j | 0 <= i < j < |r|
      ensures r[i].key != r[j].key && LastUse(ops, r[i].key) > LastUse(ops, r[j].key)
    {
      var p, q := if i < at then i else i + 1, if j < at then j else j + 1;
      assert r[i] == items[p] && r[j] == items[q];
    }
  }

  /** Putting the key just used in front. */
  lemma FrontOrdered<K, V>(ops: seq<Op<K, V>>, op: Op<K, V>, rest: seq<Pair<K, V>>, v: V)
    requires (op.Set? || op.Get?) && Ordered(ops, rest) && !Has(rest, op.key)
    requires LastSet(ops + [op], op.key) == Some(v)
    ensures Ordered(ops + [op], [Pair(op.key, v)] + rest)
  {
    OthersOrdered(ops, op, rest);
    OwnKey(ops, op);
    var all := [Pair(op.key, v)] + rest;
    HasIff(rest, op.key);
    forall j | 0 <= j < |rest| ensures LastUse(ops + [op], rest[j].key) < |ops| + 1 {
      OtherKeys(ops, op, rest[j].key);
    }
    assert forall j :: 0 < j < |all| ==> all[j] == rest[j - 1];
  }

  lemma PrefixOrdered<K, V>(ops: seq<Op<K, V>>, items: seq<Pair<K, V>>, n: nat)
    requires Ordered(ops, items) && n <= |items|
    ensures Ordered(ops, items[..n])
  {
  }

  lemma StepOrdered<K, V>(ops: seq<Op<K, V>>, w: World<K, V>, op: Op<K, V>, maxSize: nat, elasticity: nat)
    requires Ordered(ops, w.items)
    ensures Ordered(ops + [op], Step(w, op, maxSize, elasticity).items)
  {
    match op
    case Set(k, v) =>
      WithoutOrdered(ops, w.items, k);
      OwnKey(ops, op);
      FrontOrdered(ops, op, Without(w.items, k), v);
      var all := [Pair(k, v)] + Without(w.items, k);
      if Prunes(|all|, maxSize, elasticity) { PrefixOrdered(ops + [op], all, maxSize); }
    case Get(k) =>
      if Has(w.items, k) {
        WithoutOrdered(ops, w.items, k);
        OwnKey(ops, op);
        FrontOrdered(ops, op, Without(w.items, k), Value(w.items, k));
      } else {
        OthersOrdered(ops, op, w.items);
      }
    case Del(k) =>
      WithoutOrdered(ops, w.items, k);
      OthersOrdered(ops, op, Without(w.items, k));
    case Clear => OthersOrdered(ops, op, []);
  }

  /** Over every run: a hit returns the last value set, and the order is exactly most recently used first. */
  lemma {:induction false} RecencyOrder<K, V>(ops: seq<Op<K, V>>, maxSize: nat, elasticity: nat)
    ensures Ordered(ops, After(ops, maxSize, elasticity).items)
    decreases |ops|
  {
    if ops != [] {
      var n := |ops| - 1;
      RecencyOrder(ops[..n], maxSize, elasticity);
      StepOrdered(ops[..n], After(ops[..n], maxSize, elasticity), ops[n], maxSize, elasticity);
      assert ops[..n] + [ops[n]] == ops;
    }
  }

  // ---------------------------------------------------------------- size and conservation over every run

  /** With a limit, no operation leaves more than the limit, or the limit plus the elasticity less one. */
  lemma {:induction false} SizeBound<K, V>(ops: seq<Op<K, V>>, maxSize: nat, elasticity: nat)
    requires maxSize > 0
    ensures |After(ops, maxSize, elasticity).items| <= Max(maxSize, maxSize + elasticity - 1)
    decreases |ops|
  {
    if ops != [] { SizeBound(ops[..|ops| - 1], maxSize, elasticity); }
  }

  /** Every insertion of a key is still there, was pruned, deleted or cleared: exactly one of them. */
  ghost predicate Accounted<K, V>(w: World<K, V>) {
    multiset(w.inserted)
    == multiset(KeysOf(w.items)) + multiset(KeysOf(w.pruned)) + multiset(w.deleted) + multiset(w.cleared)
  }

  lemma KeysAppend<K, V>(a: seq<Pair<K, V>>, b: seq<Pair<K, V>>)
    ensures KeysOf(a + b) == KeysOf(a) + KeysOf(b)
    ensures multiset(KeysOf(a + b)) == multiset(KeysOf(a)) + multiset(KeysOf(b))
  {
  }

  lemma {:induction false} KeysBackwards<K, V>(a: seq<Pair<K, V>>)
    ensures multiset(KeysOf(Backwards(a))) == multiset(KeysOf(a))
  {
    if a != [] {
      KeysBackwards(a[1..]);
      KeysAppend(Backwards(a[1..]), [a[0]]);
      KeysAppend([a[0]], a[1..]);
      assert [a[0]] + a[1..] == a && Backwards(a) == Backwards(a[1..]) + [a[0]];
    }
  }

  lemma KeysWithout<K, V>(items: seq<Pair<K, V>>, k: K)
    requires Has(items, k)
    ensures multiset(KeysOf(items)) == multiset(KeysOf(Without(items, k))) + multiset{k}
  {
    var i := Index(items, k);
    KeysAround(items[..i], items[i], items[i + 1..]);
    assert items == items[..i] + [items[i]] + items[i + 1..];
  }

  lemma KeysAround<K, V>(a: seq<Pair<K, V>>, p: Pair<K, V>, b: seq<Pair<K, V>>)
    ensures multiset(KeysOf(a + [p] + b)) == multiset(KeysOf(a + b)) + multiset{p.key}
  {
    KeysAppend(a + [p], b);
    KeysAppend(a, [p]);
    KeysAppend(a, b);
    assert KeysOf([p]) == [p.key];
  }

  lemma KeysToFront<K, V>(items: seq<Pair<K, V>>, k: K, v: V)
    requires Has(items, k)
    ensures multiset(KeysOf(ToFront(items, k, v))) == multiset(KeysOf(items))
  {
    KeysWithout(items, k);
    KeysAppend([Pair(k, v)], Without(items, k));
    assert KeysOf([Pair(k, v)]) == [k];
  }

  /** A prune splits the list. */
  lemma KeysPruned<K, V>(items: seq<Pair<K, V>>, maxSize: nat, elasticity: nat)
    ensures multiset(KeysOf(items))
            == multiset(KeysOf(Kept(items, maxSize, elasticity)))
               + multiset(KeysOf(Evicted(items, maxSize, elasticity)))
  {
    if Prunes(|items|, maxSize, elasticity) {
      assert items == items[..maxSize] + items[maxSize..];
      KeysAppend(items[..maxSize], items[maxSize..]);
      KeysBackwards(items[maxSize..]);
    }
  }

  lemma InsertAccounted<K, V>(w: World<K, V>, k: K, v: V, maxSize: nat, elasticity: nat)
    requires Accounted(w) && !Has(w.items, k)
    ensures Accounted(Step(w, Set(k, v), maxSize, elasticity))
  {
    var all := [Pair(k, v)] + w.items;
    KeysAppend([Pair(k, v)], w.items);
    assert KeysOf([Pair(k, v)]) == [k];
    KeysPruned(all, maxSize, elasticity);
    KeysAppend(w.pruned, Evicted(all, maxSize, elasticity));
    var r := Step(w, Set(k, v), maxSize, elasticity);
    assert multiset([k]) == multiset{k};
    Balance(multiset(w.inserted), k, multiset(KeysOf(w.items)), multiset(KeysOf(r.items)),
            multiset(KeysOf(Evicted(all, maxSize, elasticity))), multiset(KeysOf(w.pruned)),
            multiset(w.deleted), multiset(w.cleared));
  }

  lemma Balance<K>(inserted: multiset<K>, k: K, items: multiset<K>, kept: multiset<K>, out: multiset<K>,
                   pruned: multiset<K>, deleted: multiset<K>, cleared: multiset<K>)
    requires inserted == items + pruned + deleted + cleared && multiset{k} + items == kept + out
    ensures inserted + multiset{k} == kept + (pruned + out) + deleted + cleared
  {
    assert inserted + multiset{k} == (multiset{k} + items) + pruned + deleted + cleared;
  }

  lemma StepAccounted<K, V>(w: World<K, V>, op: Op<K, V>, maxSize: nat, elasticity: nat)
    requires Accounted(w)
    ensures Accounted(Step(w, op, maxSize, elasticity))
  {
    match op
    case Set(k, v) =>
      if Has(w.items, k) { KeysToFront(w.items, k, v); } else { InsertAccounted(w, k, v, maxSize, elasticity); }
    case Get(k) => if Has(w.items, k) { KeysToFront(w.items, k, Value(w.items, k)); }
    case Del(k) => if Has(w.items, k) { KeysWithout(w.items, k); }
    case Clear => assert KeysOf<K, V>([]) == [];
  }

  /** Conservation over every run; in numbers, inserted is size plus pruned plus deleted plus cleared. */
  lemma {:induction false} Conservation<K, V>(ops: seq<Op<K, V>>, maxSize: nat, elasticity: nat)
    ensures var w := After(ops, maxSize, elasticity);
            Accounted(w) && |w.inserted| == |w.items| + |w.pruned| + |w.deleted| + |w.cleared|
    decreases |ops|
  {
    var w := After(ops, maxSize, elasticity);
    if ops == [] {
      assert KeysOf(w.items) == [] && KeysOf(w.pruned) == [];
    } else {
      Conservation(ops[..|ops| - 1], maxSize, elasticity);
      StepAccounted(After(ops[..|ops| - 1], maxSize, elasticity), ops[|ops| - 1], maxSize, elasticity);
    }
    CountKeys(w);
  }

  lemma CountKeys<K, V>(w: World<K, V>)
    requires Accounted(w)
    ensures |w.inserted| == |w.items| + |w.pruned| + |w.deleted| + |w.cleared|
  {
    assert |multiset(w.inserted)| == |w.inserted|;
    assert |multiset(KeysOf(w.items))| == |w.items| && |multiset(KeysOf(w.pruned))| == |w.pruned|;
  }

  lemma EvictedAt<K, V>(items: seq<Pair<K, V>>, maxSize: nat, elasticity: nat, j: nat)
    requires Prunes(|items|, maxSize, elasticity) && j < |items| - maxSize
    ensures |Evicted(items, maxSize, elasticity)| == |items| - maxSize
    ensures Evicted(items, maxSize, elasticity)[j] == items[|items| - 1 - j]
  {
  }

  /** A prune keeps exactly the most recently used entries and evicts the others, the least recent first. */
  lemma PruneKeepsMostRecent<K, V>(ops: seq<Op<K, V>>, items: seq<Pair<K, V>>, maxSize: nat, elasticity: nat,
                                   i: nat, j: nat)
    requires Ordered(ops, items) && Prunes(|items|, maxSize, elasticity) && j < |items| - maxSize
    ensures var kept, out := Kept(items, maxSize, elasticity), Evicted(items, maxSize, elasticity);
            && |kept| == maxSize && |out| == |items| - maxSize
            && (i < |kept| ==> LastUse(ops, kept[i].key) > LastUse(ops, out[j].key))
            && (i < j ==> LastUse(ops, out[i].key) < LastUse(ops, out[j].key))
  {
    EvictedAt(items, maxSize, elasticity, j);
    if i < j { EvictedAt(items, maxSize, elasticity, i); }
  }
}
