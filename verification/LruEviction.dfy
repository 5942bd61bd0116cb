/** Which keys an LRU cache still holds: when it evicts, and what it hits, over every run. */
module LruEviction {
  import opened Basics
  import opened LruLists

  // ---------------------------------------------------------------- one operation

  /** Setting a new key evicts if and only if there is a limit, the new size exceeds it, and the new size has reached
      the limit plus the elasticity; then the size drops to the limit, and otherwise nothing is lost. */
  lemma NewKeyEvictsIff<K, V>(w: World<K, V>, k: K, v: V, maxSize: nat, elasticity: nat)
    requires !Has(w.items, k)
    ensures var w', n := Step(w, Set(k, v), maxSize, elasticity), |w.items| + 1;
            && (w'.pruned != w.pruned <==> maxSize > 0 && n > maxSize && n >= maxSize + elasticity)
            && (w'.pruned != w.pruned ==> |w'.items| == maxSize && |w'.pruned| == |w.pruned| + n - maxSize)
            && (w'.pruned == w.pruned ==> w'.items == [Pair(k, v)] + w.items)
  {
    var all := [Pair(k, v)] + w.items;
    var out := Evicted(all, maxSize, elasticity);
    assert |w.pruned + out| == |w.pruned| + |out|;
    assert out == [] ==> w.pruned + out == w.pruned;
  }

  /** Nothing else evicts. */
  lemma OthersEvictNothing<K, V>(w: World<K, V>, op: Op<K, V>, maxSize: nat, elasticity: nat)
    requires op.Set? ==> Has(w.items, op.key)
    ensures Step(w, op, maxSize, elasticity).pruned == w.pruned
  {
  }

  // ---------------------------------------------------------------- the keys of a list

  ghost function KeySet<K, V>(items: seq<Pair<K, V>>): set<K> { set p | p in items :: p.key }

  lemma InKeySet<K, V>(items: seq<Pair<K, V>>, k: K)
    ensures k in KeySet(items) <==> Has(items, k)
  {
    HasIff(items, k);
    if k in KeySet(items) {
      var p :| p in items && p.key == k;
    }
    if Has(items, k) { assert items[Index(items, k)] in items; }
  }

  lemma KeySetFront<K, V>(p: Pair<K, V>, items: seq<Pair<K, V>>)
    ensures KeySet([p] + items) == {p.key} + KeySet(items)
  {
    assert p in [p] + items;
    forall k | k in KeySet(items) ensures k in KeySet([p] + items) {
      var q :| q in items && q.key == k;
      assert q in [p] + items;
    }
  }

  lemma KeySetWithout<K, V>(items: seq<Pair<K, V>>, k: K)
    requires Distinct(items)
    ensures KeySet(Without(items, k)) == KeySet(items) - {k}
  {
    WithoutDistinct(items, k);
    InKeySet(Without(items, k), k);
    var r, i := Without(items, k), Index(items, k);
    forall x | x in KeySet(items) && x != k ensures x in KeySet(r) {
      var q :| q in items && q.key == x;
      var j :| 0 <= j < |items| && items[j] == q;
      assert r[if j < i then j else j - 1] == q;
    }
  }

  lemma {:induction false} KeySetSize<K, V>(items: seq<Pair<K, V>>)
    requires Distinct(items)
    ensures |KeySet(items)| == |items|
  {
    if items != [] {
      KeySetSize(items[1..]);
      KeySetFront(items[0], items[1..]);
      assert [items[0]] + items[1..] == items;
      assert items[0].key !in KeySet(items[1..]);
    }
  }

  lemma KeySetPrefix<K, V>(items: seq<Pair<K, V>>, n: nat)
    requires n <= |items|
    ensures KeySet(items[..n]) <= KeySet(items)
  {
  }

  // ---------------------------------------------------------------- runs

  /** The keys that were set and not deleted or cleared since. */
  ghost function SetKeys<K, V>(ops: seq<Op<K, V>>): set<K>
    decreases |ops|
  {
    if ops == [] then {} else NextKeys(SetKeys(ops[..|ops| - 1]), ops[|ops| - 1])
  }

  ghost function NextKeys<K, V>(keys: set<K>, op: Op<K, V>): set<K> {
    match op
    case Set(k, _) => keys + {k}
    case Get(_) => keys
    case Del(k) => keys - {k}
    case Clear => {}
  }

  /** Without an eviction the keys in the list change as the operation says. */
  lemma StepKeys<K, V>(w: World<K, V>, op: Op<K, V>, maxSize: nat, elasticity: nat)
    requires Distinct(w.items) && Step(w, op, maxSize, elasticity).pruned == w.pruned
    ensures KeySet(Step(w, op, maxSize, elasticity).items) == NextKeys(KeySet(w.items), op)
  {
    match op
    case Set(k, v) =>
      InKeySet(w.items, k);
      if Has(w.items, k) {
        ToFrontKeys(w.items, k, v);
      } else {
        NewKeyEvictsIff(w, k, v, maxSize, elasticity);
        KeySetFront(Pair(k, v), w.items);
      }
    case Get(k) =>
      InKeySet(w.items, k);
      if Has(w.items, k) { ToFrontKeys(w.items, k, Value(w.items, k)); }
    case Del(k) =>
      InKeySet(w.items, k);
      KeySetWithout(w.items, k);
    case Clear =>
  }

  lemma ToFrontKeys<K, V>(items: seq<Pair<K, V>>, k: K, v: V)
    requires Distinct(items) && Has(items, k)
    ensures KeySet(ToFront(items, k, v)) == KeySet(items)
  {
    InKeySet(items, k);
    KeySetWithout(items, k);
    KeySetFront(Pair(k, v), Without(items, k));
  }

  /** In any case a list holds no other keys. */
  lemma StepKeysBound<K, V>(w: World<K, V>, op: Op<K, V>, maxSize: nat, elasticity: nat)
    requires Distinct(w.items)
    ensures KeySet(Step(w, op, maxSize, elasticity).items) <= NextKeys(KeySet(w.items), op)
  {
    if Step(w, op, maxSize, elasticity).pruned == w.pruned {
      StepKeys(w, op, maxSize, elasticity);
    } else {
      if op.Set? ==> Has(w.items, op.key) { OthersEvictNothing(w, op, maxSize, elasticity); }
      var all := [Pair(op.key, op.value)] + w.items;
      KeySetPrefix(all, maxSize);
      KeySetFront(Pair(op.key, op.value), w.items);
    }
  }

  /** Over every run only keys that were set and not deleted or cleared since are in the cache. */
  lemma {:induction false} HitsWereSet<K, V>(ops: seq<Op<K, V>>, maxSize: nat, elasticity: nat)
    ensures KeySet(After(ops, maxSize, elasticity).items) <= SetKeys(ops)
    decreases |ops|
  {
    if ops != [] {
      var n := |ops| - 1;
      HitsWereSet(ops[..n], maxSize, elasticity);
      RecencyOrder(ops[..n], maxSize, elasticity);
      StepKeysBound(After(ops[..n], maxSize, elasticity), ops[n], maxSize, elasticity);
    }
  }

  /** So many keys are kept. */
  predicate Roomy(n: nat, maxSize: nat, elasticity: nat) {
    maxSize == 0 || n <= maxSize || n < maxSize + elasticity
  }

  /** At no time of the run were there more. */
  ghost predicate AlwaysRoomy<K, V>(ops: seq<Op<K, V>>, maxSize: nat, elasticity: nat) {
    forall n :: 0 <= n <= |ops| ==> Roomy(|SetKeys(ops[..n])|, maxSize, elasticity)
  }

  lemma RoomyFront<K, V>(ops: seq<Op<K, V>>, maxSize: nat, elasticity: nat)
    requires ops != []
    ensures AlwaysRoomy(ops, maxSize, elasticity)
            <==> AlwaysRoomy(ops[..|ops| - 1], maxSize, elasticity) && Roomy(|SetKeys(ops)|, maxSize, elasticity)
  {
    var front := ops[..|ops| - 1];
    assert ops[..|ops|] == ops;
    assert forall n :: 0 <= n < |ops| ==> front[..n] == ops[..n];
    if AlwaysRoomy(ops, maxSize, elasticity) {
      forall n | 0 <= n <= |front| ensures Roomy(|SetKeys(front[..n])|, maxSize, elasticity) {
        assert Roomy(|SetKeys(ops[..n])|, maxSize, elasticity);
      }
      assert Roomy(|SetKeys(ops[..|ops|])|, maxSize, elasticity);
    }
    if AlwaysRoomy(front, maxSize, elasticity) && Roomy(|SetKeys(ops)|, maxSize, elasticity) {
      forall n | 0 <= n <= |ops| ensures Roomy(|SetKeys(ops[..n])|, maxSize, elasticity) {
        if n < |ops| { assert Roomy(|SetKeys(front[..n])|, maxSize, elasticity); }
      }
    }
  }

  /** A list that holds all keys that were set loses one exactly when they become too many. */
  lemma StepRoomy<K, V>(w: World<K, V>, op: Op<K, V>, maxSize: nat, elasticity: nat)
    requires Distinct(w.items) && Roomy(|w.items|, maxSize, elasticity)
    ensures Step(w, op, maxSize, elasticity).pruned == w.pruned
            <==> Roomy(|NextKeys(KeySet(w.items), op)|, maxSize, elasticity)
  {
    KeySetSize(w.items);
    if !op.Clear? { InKeySet(w.items, op.key); }
    if op.Set? && !Has(w.items, op.key) {
      NewKeyEvictsIff(w, op.key, op.value, maxSize, elasticity);
      assert |KeySet(w.items) + {op.key}| == |w.items| + 1;
    } else {
      OthersEvictNothing(w, op, maxSize, elasticity);
      assert NextKeys(KeySet(w.items), op) <= KeySet(w.items);
      SubsetSize(NextKeys(KeySet(w.items), op), KeySet(w.items));
    }
  }

  lemma SubsetSize<T>(a: set<T>, b: set<T>)
    requires a <= b
    ensures |a| <= |b|
  {
    assert a + (b - a) == b;
  }

  lemma PrunedGrows<K, V>(w: World<K, V>, op: Op<K, V>, maxSize: nat, elasticity: nat)
    ensures w.pruned <= Step(w, op, maxSize, elasticity).pruned
  {
  }

  /** Over every run: nothing has been evicted if and only if there were never too many keys; and then the cache holds
      exactly the keys that were set and not deleted or cleared since. */
  lemma {:induction false} NothingEvictedIff<K, V>(ops: seq<Op<K, V>>, maxSize: nat, elasticity: nat)
    ensures After(ops, maxSize, elasticity).pruned == [] <==> AlwaysRoomy(ops, maxSize, elasticity)
    ensures AlwaysRoomy(ops, maxSize, elasticity) ==> KeySet(After(ops, maxSize, elasticity).items) == SetKeys(ops)
    decreases |ops|
  {
    if ops == [] {
      assert ops[..0] == ops;
    } else {
      var front, op := ops[..|ops| - 1], ops[|ops| - 1];
      var w := After(front, maxSize, elasticity);
      NothingEvictedIff(front, maxSize, elasticity);
      RoomyFront(ops, maxSize, elasticity);
      PrunedGrows(w, op, maxSize, elasticity);
      RecencyOrder(front, maxSize, elasticity);
      if AlwaysRoomy(front, maxSize, elasticity) { RoomyStep(front, op, w, maxSize, elasticity); }
    }
  }

  lemma RoomyStep<K, V>(front: seq<Op<K, V>>, op: Op<K, V>, w: World<K, V>, maxSize: nat, elasticity: nat)
    requires Distinct(w.items) && AlwaysRoomy(front, maxSize, elasticity) && KeySet(w.items) == SetKeys(front)
    ensures var w' := Step(w, op, maxSize, elasticity);
            && (w'.pruned == w.pruned <==> Roomy(|NextKeys(SetKeys(front), op)|, maxSize, elasticity))
            && (w'.pruned == w.pruned ==> KeySet(w'.items) == NextKeys(SetKeys(front), op))
  {
    assert front[..|front|] == front;
    assert Roomy(|SetKeys(front[..|front|])|, maxSize, elasticity);
    KeySetSize(w.items);
    StepRoomy(w, op, maxSize, elasticity);
    if Step(w, op, maxSize, elasticity).pruned == w.pruned { StepKeys(w, op, maxSize, elasticity); }
  }

  /** As long as there were never too many keys, a key that was set and not deleted or cleared since is hit, with the
      value last set. */
  lemma StillHit<K, V>(ops: seq<Op<K, V>>, maxSize: nat, elasticity: nat, k: K)
    requires k in SetKeys(ops)
    requires forall n :: 0 <= n <= |ops| ==>
               |SetKeys(ops[..n])| < maxSize + elasticity || |SetKeys(ops[..n])| <= maxSize || maxSize == 0
    ensures var items := After(ops, maxSize, elasticity).items;
            Has(items, k) && LastSet(ops, k) == Some(Value(items, k))
  {
    assert AlwaysRoomy(ops, maxSize, elasticity);
    NothingEvictedIff(ops, maxSize, elasticity);
    InKeySet(After(ops, maxSize, elasticity).items, k);
    RecencyOrder(ops, maxSize, elasticity);
  }

  /** A key that has just been set is hit, whatever the limits. */
  lemma JustSetIsHit<K, V>(ops: seq<Op<K, V>>, k: K, v: V, maxSize: nat, elasticity: nat)
    ensures var items := After(ops + [Set(k, v)], maxSize, elasticity).items;
            Has(items, k) && Value(items, k) == v && items[0] == Pair(k, v)
  {
    assert (ops + [Set(k, v)])[..|ops|] == ops;
  }
}
