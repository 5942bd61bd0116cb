/**
  The timer manager: timers kept in a set ordered on a field that its own operations change.

  Timers are identified by their address; `table` holds their fields and `order` the contents of the
  ordered set from first to last. The set never re-sorts itself: every lookup compares with the
  current deadlines. Times are in milliseconds; deadlines stay below 2^64. `listExpiredCb` is one step.
*/
module Timers {
  import opened Basics

  /** `cb` is absent once the timer has been cancelled or, if it is one-shot, handed out. */
  datatype Timer = Timer(recurring: bool, ms: nat, deadline: nat, cb: Option<nat>)

  type Table = map<nat, Timer>

  datatype Manager = Manager(table: Table, order: seq<nat>, tickled: bool, previous: nat)

  // ---------------------------------------------------------------- the ordered set

  /** `Timer::Comparetor` on two timers: by deadline, then by address. */
  predicate KeyLess(d: nat, a: nat, d': nat, a': nat) { d < d' || (d == d' && a < a') }

  predicate Known(tab: Table, order: seq<nat>) {
    forall i :: 0 <= i < |order| ==> order[i] in tab
  }

  predicate Less(tab: Table, a: nat, b: nat)
    requires a in tab && b in tab
  {
    KeyLess(tab[a].deadline, a, tab[b].deadline, b)
  }

  ghost predicate Sorted(tab: Table, order: seq<nat>)
    requires Known(tab, order)
  {
    forall i, j :: 0 <= i < j < |order| ==> Less(tab, order[i], order[j])
  }

  /** `std::set::lower_bound`: the first position not before the key. */
  function LowerBound(tab: Table, order: seq<nat>, d: nat, a: nat): (i: nat)
    requires Known(tab, order)
    ensures i <= |order|
    ensures forall j :: 0 <= j < i ==> KeyLess(tab[order[j]].deadline, order[j], d, a)
    ensures i < |order| ==> !KeyLess(tab[order[i]].deadline, order[i], d, a)
  {
    if order == [] || !KeyLess(tab[order[0]].deadline, order[0], d, a) then 0
    else 1 + LowerBound(tab, order[1..], d, a)
  }

  /** `std::set::find`: the position of an equivalent element, or the end. */
  function Find(tab: Table, order: seq<nat>, a: nat): (i: nat)
    requires Known(tab, order) && a in tab
    ensures i <= |order|
  {
    var i := LowerBound(tab, order, tab[a].deadline, a);
    if i < |order| && !Less(tab, a, order[i]) then i else |order|
  }

  function Erase(order: seq<nat>, i: nat): seq<nat>
    requires i < |order|
  {
    order[..i] + order[i + 1..]
  }

  function InsertPos(tab: Table, order: seq<nat>, a: nat): (i: nat)
    requires Known(tab, order) && a in tab
    ensures i <= |order|
  {
    LowerBound(tab, order, tab[a].deadline, a)
  }

  function Insert(tab: Table, order: seq<nat>, a: nat): seq<nat>
    requires Known(tab, order) && a in tab
  {
    var i := InsertPos(tab, order, a);
    order[..i] + [a] + order[i..]
  }

  /** In a set that is sorted by the current deadlines, lookup finds exactly the elements. */
  lemma FindFinds(tab: Table, order: seq<nat>, a: nat)
    requires Known(tab, order) && a in tab && Sorted(tab, order)
    ensures Find(tab, order, a) < |order| <==> a in order
    ensures a in order ==> order[Find(tab, order, a)] == a
  {
    var i := LowerBound(tab, order, tab[a].deadline, a);
    if a in order {
      var k :| 0 <= k < |order| && order[k] == a;
      assert i <= k;
      assert forall j :: 0 <= j < k ==> Less(tab, order[j], order[k]);
    }
  }

  lemma EraseSorted(tab: Table, order: seq<nat>, i: nat)
    requires Known(tab, order) && Sorted(tab, order) && i < |order|
    ensures Known(tab, Erase(order, i)) && Sorted(tab, Erase(order, i))
    ensures forall b :: b in Erase(order, i) <==> b in order && b != order[i]
  {
    var e := Erase(order, i);
    assert forall j :: 0 <= j < |e| ==> e[j] == order[if j < i then j else j + 1];
    forall b | b in order && b != order[i] ensures b in e {
      var k :| 0 <= k < |order| && order[k] == b;
      assert e[if k < i then k else k - 1] == b;
    }
    forall b | b in e ensures b in order && b != order[i] {
      var j :| 0 <= j < |e| && e[j] == b;
      var k := if j < i then j else j + 1;
      assert Less(tab, order[if k < i then k else i], order[if k < i then i else k]);
    }
  }

  lemma InsertSorted(tab: Table, order: seq<nat>, a: nat)
    requires Known(tab, order) && Sorted(tab, order) && a in tab && a !in order
    ensures Known(tab, Insert(tab, order, a)) && Sorted(tab, Insert(tab, order, a))
    ensures forall b :: b in Insert(tab, order, a) <==> b in order || b == a
    ensures |Insert(tab, order, a)| == |order| + 1
  {
    var i := InsertPos(tab, order, a);
    var r := Insert(tab, order, a);
    assert r == order[..i] + [a] + order[i..] && order == order[..i] + order[i..];
    assert i < |order| ==> order[i] in order && Less(tab, a, order[i]);
    forall j | i <= j < |order| ensures Less(tab, a, order[j]) {
      assert i < j ==> Less(tab, order[i], order[j]);
    }
    SplicedSorted(tab, order, i, a, r);
  }

  /** A timer put between the smaller and the larger ones. */
  lemma SplicedSorted(tab: Table, order: seq<nat>, i: nat, a: nat, r: seq<nat>)
    requires Known(tab, order) && Sorted(tab, order) && a in tab && i <= |order|
    requires r == order[..i] + [a] + order[i..]
    requires forall j :: 0 <= j < i ==> Less(tab, order[j], a)
    requires forall j :: i <= j < |order| ==> Less(tab, a, order[j])
    ensures Known(tab, r) && Sorted(tab, r)
  {
    assert forall j :: 0 <= j < |r| ==> r[j] == if j < i then order[j] else if j == i then a else order[j - 1];
  }

  /** Changing the fields of timers outside the set does not disturb it. */
  lemma OutsideChange(tab: Table, tab': Table, order: seq<nat>)
    requires Known(tab, order) && Sorted(tab, order)
    requires forall b :: b in order ==> b in tab' && tab'[b] == tab[b]
    ensures Known(tab', order) && Sorted(tab', order)
  {
  }

  // ---------------------------------------------------------------- the operations

  /** A timer is in the set exactly when its callback is still there, and the set is in order. */
  ghost predicate Valid(m: Manager) {
    && Known(m.table, m.order) && Sorted(m.table, m.order)
    && forall a :: a in m.table ==> (a in m.order <==> m.table[a].cb.Some?)
  }

  predicate AtFront(m: Manager, a: nat)
    requires Known(m.table, m.order) && a in m.table
  {
    InsertPos(m.table, m.order, a) == 0
  }

  /** Private `addTimer`: insert, and notify once when the new timer is first. */
  function Enqueue(m: Manager, a: nat): Manager
    requires Known(m.table, m.order) && a in m.table
  {
    m.(order := Insert(m.table, m.order, a), tickled := m.tickled || AtFront(m, a))
  }

  function Inserted(m: Manager, a: nat): Manager
    requires Known(m.table, m.order) && a in m.table
  {
    m.(order := Insert(m.table, m.order, a))
  }

  predicate Notifies(m: Manager, a: nat)
    requires Known(m.table, m.order) && a in m.table
  {
    AtFront(m, a) && !m.tickled
  }

  /** The manager with a new timer object that is not in the set yet. */
  function WithNew(m: Manager, a: nat, ms: nat, cb: nat, recurring: bool, now: nat): Manager {
    m.(table := m.table[a := Timer(recurring, ms, now + ms, Some(cb))])
  }

  /** The timer taken out of the set, if lookup finds it. */
  function TakenOut(m: Manager, a: nat): Manager
    requires Known(m.table, m.order) && a in m.table
  {
    var i := Find(m.table, m.order, a);
    if i < |m.order| then m.(order := Erase(m.order, i)) else m
  }

  function WithTimer(m: Manager, a: nat, t: Timer): Manager {
    m.(table := m.table[a := t])
  }

  predicate Live(m: Manager, a: nat)
    requires a in m.table
  {
    m.table[a].cb.Some?
  }

  function Cancelled(m: Manager, a: nat): Manager
    requires Known(m.table, m.order) && a in m.table
  {
    if !Live(m, a) then m else WithTimer(TakenOut(m, a), a, m.table[a].(cb := None))
  }

  /** A live timer taken out, given new fields, and not yet put back. */
  function Changed(m: Manager, a: nat, t: Timer): (m1: Manager)
    requires Valid(m) && a in m.table && Live(m, a)
    ensures Known(m1.table, m1.order) && a in m1.table
  {
    LookupSucceeds(m, a);
    WithTimer(TakenOut(m, a), a, t)
  }

  function RefreshTimer(t: Timer, now: nat): Timer { t.(deadline := now + t.ms) }

  /** `refresh` moves the deadline and inserts without notifying. */
  function Refreshed(m: Manager, a: nat, now: nat): Manager
    requires Valid(m) && a in m.table
  {
    if !Live(m, a) then m
    else Inserted(Changed(m, a, RefreshTimer(m.table[a], now)), a)
  }

  predicate ResetIsNop(t: Timer, ms: nat, fromNow: bool) { ms == t.ms && !fromNow }

  function ResetTimer(t: Timer, ms: nat, fromNow: bool, now: nat): Timer {
    var start := if fromNow then now else if t.deadline >= t.ms then t.deadline - t.ms else 0;
    t.(ms := ms, deadline := start + ms)
  }

  function WasReset(m: Manager, a: nat, ms: nat, fromNow: bool, now: nat): Manager
    requires Valid(m) && a in m.table
  {
    if ResetIsNop(m.table[a], ms, fromNow) || !Live(m, a) then m
    else Enqueue(Changed(m, a, ResetTimer(m.table[a], ms, fromNow, now)), a)
  }

  /** A new timer is at the front if and only if every timer in the set is due after it, or with it and has a higher
      address. */
  lemma FrontIff(m: Manager, a: nat)
    requires Known(m.table, m.order) && Sorted(m.table, m.order) && a in m.table && a !in m.order
    ensures AtFront(m, a) <==> forall b :: b in m.order ==>
              m.table[a].deadline < m.table[b].deadline || (m.table[a].deadline == m.table[b].deadline && a < b)
  {
    if AtFront(m, a) {
      forall b | b in m.order
        ensures m.table[a].deadline < m.table[b].deadline || (m.table[a].deadline == m.table[b].deadline && a < b)
      {
        var j :| 0 <= j < |m.order| && m.order[j] == b;
        assert j > 0 ==> Less(m.table, m.order[0], m.order[j]);
        assert m.order[0] in m.order;
      }
    } else {
      assert m.order[0] in m.order;
    }
  }

  /** The earliest deadline in the set. */
  function Earliest(m: Manager): Option<nat>
    requires Known(m.table, m.order)
  {
    if m.order == [] then None else Some(m.table[m.order[0]].deadline)
  }

  /** What `getNextTimer` returns: the wait until the earliest deadline, or no limit. */
  function NextWait(m: Manager, now: nat): Option<nat>
    requires Known(m.table, m.order)
  {
    if m.order == [] then None
    else Some(if now >= m.table[m.order[0]].deadline then 0 else m.table[m.order[0]].deadline - now)
  }

  /** The lookup in `cancel`, `refresh` and `reset` always finds a live timer. */
  lemma LookupSucceeds(m: Manager, a: nat)
    requires Valid(m) && a in m.table
    ensures Find(m.table, m.order, a) < |m.order| <==> Live(m, a)
    ensures Live(m, a) ==> m.order[Find(m.table, m.order, a)] == a
    ensures Live(m, a) ==> Known(m.table, TakenOut(m, a).order) && Sorted(m.table, TakenOut(m, a).order)
    ensures Live(m, a) ==> forall b :: b in TakenOut(m, a).order <==> b in m.order && b != a
  {
    FindFinds(m.table, m.order, a);
    if Live(m, a) { EraseSorted(m.table, m.order, Find(m.table, m.order, a)); }
  }

  lemma ValidAdd(m: Manager, a: nat, ms: nat, cb: nat, recurring: bool, now: nat)
    requires Valid(m) && a !in m.table
    ensures Known(WithNew(m, a, ms, cb, recurring, now).table, m.order)
    ensures Valid(Enqueue(WithNew(m, a, ms, cb, recurring, now), a))
  {
    var m1 := WithNew(m, a, ms, cb, recurring, now);
    OutsideChange(m.table, m1.table, m.order);
    InsertSorted(m1.table, m.order, a);
  }

  /** The notification of a new timer, and the set it joins. */
  lemma AddNotifies(m: Manager, a: nat, ms: nat, cb: nat, recurring: bool, now: nat)
    requires Valid(m) && a !in m.table
    ensures var m1 := WithNew(m, a, ms, cb, recurring, now);
            && Known(m1.table, m.order)
            && (Notifies(m1, a) <==> !m.tickled && forall b :: b in m.order ==>
                  now + ms < m.table[b].deadline || (now + ms == m.table[b].deadline && a < b))
            && forall b :: b in Enqueue(m1, a).order <==> b in m.order || b == a
  {
    var m1 := WithNew(m, a, ms, cb, recurring, now);
    OutsideChange(m.table, m1.table, m.order);
    FrontIff(m1, a);
    InsertSorted(m1.table, m1.order, a);
  }

  lemma ValidCancel(m: Manager, a: nat)
    requires Valid(m) && a in m.table
    ensures Valid(Cancelled(m, a)) && Cancelled(m, a).table[a].cb.None?
  {
    LookupSucceeds(m, a);
    if Live(m, a) { OutsideChange(m.table, Cancelled(m, a).table, Cancelled(m, a).order); }
  }

  /** A live timer taken out, changed and put back. */
  lemma ValidPutBack(m: Manager, a: nat, t: Timer)
    requires Valid(m) && a in m.table && Live(m, a) && t.cb.Some?
    ensures Valid(Inserted(Changed(m, a, t), a)) && Valid(Enqueue(Changed(m, a, t), a))
  {
    LookupSucceeds(m, a);
    var m1 := Changed(m, a, t);
    OutsideChange(m.table, m1.table, m1.order);
    InsertSorted(m1.table, m1.order, a);
  }

  lemma ValidRefresh(m: Manager, a: nat, now: nat)
    requires Valid(m) && a in m.table
    ensures Valid(Refreshed(m, a, now))
  {
    if Live(m, a) { ValidPutBack(m, a, RefreshTimer(m.table[a], now)); }
  }

  lemma ValidReset(m: Manager, a: nat, ms: nat, fromNow: bool, now: nat)
    requires Valid(m) && a in m.table
    ensures Valid(WasReset(m, a, ms, fromNow, now))
  {
    if Live(m, a) { ValidPutBack(m, a, ResetTimer(m.table[a], ms, fromNow, now)); }
  }

  // ---------------------------------------------------------------- expiry

  const HOUR := 60 * 60 * 1000

  /** `detectClockRollover`: the clock went back by more than an hour (unsigned subtraction). */
  predicate Rollover(m: Manager, now: nat) {
    now < m.previous && (m.previous < HOUR || now < m.previous - HOUR)
  }

  function SkipEqual(tab: Table, order: seq<nat>, i: nat, now: nat): (k: nat)
    requires Known(tab, order) && i <= |order|
    ensures i <= k <= |order|
    ensures forall j :: i <= j < k ==> tab[order[j]].deadline == now
    ensures k < |order| ==> tab[order[k]].deadline != now
    decreases |order| - i
  {
    if i < |order| && tab[order[i]].deadline == now then SkipEqual(tab, order, i + 1, now) else i
  }

  /** How many timers from the front are taken; `probe` is the address of the temporary search key. */
  function ExpiredCount(m: Manager, now: nat, probe: nat): (k: nat)
    requires Known(m.table, m.order)
    ensures k <= |m.order|
  {
    if Rollover(m, now) then |m.order|
    else SkipEqual(m.table, m.order, LowerBound(m.table, m.order, now, probe), now)
  }

  /** Without a rollback the timers taken are exactly those whose deadline has come, whatever the
      address of the search key. */
  lemma ExpiredExactly(m: Manager, now: nat, probe: nat)
    requires Valid(m) && !Rollover(m, now)
    ensures var k := ExpiredCount(m, now, probe);
            && (forall j :: 0 <= j < k ==> m.table[m.order[j]].deadline <= now)
            && (forall j :: k <= j < |m.order| ==> m.table[m.order[j]].deadline > now)
  {
    var k := ExpiredCount(m, now, probe);
    var i := LowerBound(m.table, m.order, now, probe);
    forall j | k <= j < |m.order| ensures m.table[m.order[j]].deadline > now {
      assert i < |m.order| ==> m.table[m.order[i]].deadline >= now;
      assert i < k ==> Less(m.table, m.order[i], m.order[k]);
      assert k < j ==> Less(m.table, m.order[k], m.order[j]);
    }
  }

  /** One expired timer: a recurring one is re-armed, a one-shot one loses its callback. */
  function SettleOne(m: Manager, a: nat, now: nat): (r: Manager)
    requires Known(m.table, m.order) && a in m.table
    ensures Known(r.table, r.order) && r.table.Keys == m.table.Keys
    ensures r.tickled == m.tickled && r.previous == m.previous
  {
    if m.table[a].recurring then Inserted(WithTimer(m, a, RefreshTimer(m.table[a], now)), a)
    else WithTimer(m, a, m.table[a].(cb := None))
  }

  /** The loop of `listExpiredCb` after its first `i` turns. */
  function Settle(m: Manager, es: seq<nat>, i: nat, now: nat): (r: Manager)
    requires Known(m.table, m.order) && Known(m.table, es) && i <= |es|
    ensures Known(r.table, r.order) && r.table.Keys == m.table.Keys
    ensures r.tickled == m.tickled && r.previous == m.previous
  {
    if i == 0 then m else SettleOne(Settle(m, es, i - 1, now), es[i - 1], now)
  }

  function Handed(tab: Table, es: seq<nat>): seq<Option<nat>>
    requires Known(tab, es)
  {
    seq(|es|, i requires 0 <= i < |es| => tab[es[i]].cb)
  }

  /** The timers taken by `listExpiredCb`. */
  function Taken(m: Manager, now: nat, probe: nat): (es: seq<nat>)
    requires Known(m.table, m.order)
    ensures es <= m.order && Known(m.table, es)
  {
    m.order[..ExpiredCount(m, now, probe)]
  }

  function Expired(m: Manager, now: nat, probe: nat): Manager
    requires Known(m.table, m.order)
  {
    if m.order == [] then m
    else
      var k := ExpiredCount(m, now, probe);
      Settle(m.(order := m.order[k..], previous := now), m.order[..k], k, now)
  }

  /** The timers `es` are distinct and out of the set, which is in order. */
  ghost predicate OutOfSet(m: Manager, es: seq<nat>) {
    && Known(m.table, m.order) && Sorted(m.table, m.order) && Known(m.table, es)
    && (forall i :: 0 <= i < |es| ==> es[i] !in m.order)
    && (forall i, j :: 0 <= i < j < |es| ==> es[i] != es[j])
  }

  /** The expired timers `es` are alive, distinct and already out of the set. */
  ghost predicate Pulled(m: Manager, es: seq<nat>) {
    && OutOfSet(m, es)
    && (forall i :: 0 <= i < |es| ==> m.table[es[i]].cb.Some?)
    && (forall a :: a in m.table ==> (m.table[a].cb.Some? <==> a in m.order || a in es))
  }

  function SettledTimer(t: Timer, now: nat): Timer {
    if t.recurring then RefreshTimer(t, now) else t.(cb := None)
  }

  lemma SettleOneEffect(m: Manager, a: nat, now: nat)
    requires Known(m.table, m.order) && Sorted(m.table, m.order) && a in m.table && a !in m.order
    ensures var r := SettleOne(m, a, now);
            && Sorted(r.table, r.order) && r.table == m.table[a := SettledTimer(m.table[a], now)]
            && (forall b :: b in r.order <==> b in m.order || (b == a && m.table[a].recurring))
  {
    var m1 := WithTimer(m, a, SettledTimer(m.table[a], now));
    OutsideChange(m.table, m1.table, m.order);
    if m.table[a].recurring { InsertSorted(m1.table, m1.order, a); }
  }

  /** The timers from turn `i` on are out of the set and as they were. */
  ghost predicate Unreached(m: Manager, r: Manager, es: seq<nat>, i: nat)
    requires Known(m.table, es) && Known(r.table, es)
  {
    forall j :: i <= j < |es| ==> es[j] !in r.order && r.table[es[j]] == m.table[es[j]]
  }

  lemma UnreachedOn(m: Manager, r0: Manager, r: Manager, es: seq<nat>, i: nat, t: Timer)
    requires Known(m.table, es) && Known(r0.table, es) && i < |es| && Unreached(m, r0, es, i)
    requires forall j :: i < j < |es| ==> es[j] != es[i]
    requires r.table == r0.table[es[i] := t] && (forall b :: b in r.order ==> b in r0.order || b == es[i])
    ensures Known(r.table, es) && Unreached(m, r, es, i + 1)
  {
  }

  /** The set is in order, and the timers from turn `i` on are not touched yet. */
  ghost predicate InLoop(m: Manager, r: Manager, es: seq<nat>, i: nat)
    requires Known(m.table, es)
  {
    Known(r.table, r.order) && Known(r.table, es) && Sorted(r.table, r.order) && Unreached(m, r, es, i)
  }

  lemma InLoopStep(m: Manager, r: Manager, es: seq<nat>, i: nat, now: nat)
    requires Known(m.table, es) && OutOfSet(m, es) && InLoop(m, r, es, i) && i < |es|
    ensures InLoop(m, SettleOne(r, es[i], now), es, i + 1)
  {
    SettleOneEffect(r, es[i], now);
    UnreachedOn(m, r, SettleOne(r, es[i], now), es, i, SettledTimer(r.table[es[i]], now));
  }

  /** The loop keeps the set in order and does not touch the timers it has not reached. */
  lemma {:induction false} SettleSorted(m: Manager, es: seq<nat>, i: nat, now: nat)
    requires Known(m.table, m.order) && Known(m.table, es) && OutOfSet(m, es) && i <= |es|
    ensures InLoop(m, Settle(m, es, i, now), es, i)
    decreases i
  {
    if i > 0 {
      var k := i - 1;
      SettleSorted(m, es, k, now);
      InLoopStep(m, Settle(m, es, k, now), es, k, now);
    } else {
      InLoopStart(m, es, i);
    }
  }

  lemma InLoopStart(m: Manager, es: seq<nat>, i: nat)
    requires Known(m.table, es) && OutOfSet(m, es)
    ensures InLoop(m, m, es, i)
  {
  }

  /** A turn of the loop finds its timer as it was before the loop. */
  lemma SettleNext(m: Manager, es: seq<nat>, i: nat, now: nat)
    requires OutOfSet(m, es) && i < |es|
    ensures var r := Settle(m, es, i, now); es[i] in r.table && r.table[es[i]].cb == m.table[es[i]].cb
    ensures Settle(m, es, i + 1, now) == SettleOne(Settle(m, es, i, now), es[i], now)
    ensures Handed(m.table, es)[..i + 1] == Handed(m.table, es)[..i] + [m.table[es[i]].cb]
  {
    SettleSorted(m, es, i, now);
  }

  /** Before the first turn nothing has changed and nothing is handed out; after the last one everything is. */
  lemma SettleEnds(m: Manager, es: seq<nat>, i: nat, now: nat)
    requires Known(m.table, m.order) && Known(m.table, es) && i == 0
    ensures Settle(m, es, i, now) == m && Handed(m.table, es)[..i] == []
    ensures Handed(m.table, es)[..|es|] == Handed(m.table, es)
  {
  }

  /** What one turn does to timer `a`, when `e` is the timer of that turn. */
  ghost predicate Turned(r0: Manager, r: Manager, e: nat, now: nat, a: nat) {
    && a in r0.table && a in r.table
    && (a != e ==> r.table[a] == r0.table[a] && (a in r.order <==> a in r0.order))
    && (a == e ==> r.table[a] == SettledTimer(r0.table[a], now) && (a in r.order <==> r0.table[a].recurring))
  }

  lemma SettleTurn(m: Manager, es: seq<nat>, i: nat, now: nat, a: nat)
    requires Pulled(m, es) && 0 < i <= |es| && a in m.table
    ensures Turned(Settle(m, es, i - 1, now), Settle(m, es, i, now), es[i - 1], now, a)
  {
    SettleSorted(m, es, i - 1, now);
    SettleOneEffect(Settle(m, es, i - 1, now), es[i - 1], now);
  }

  /** A timer that is not among the first `i` taken is untouched. */
  lemma {:induction false} SettleOther(rs: seq<Manager>, es: seq<nat>, i: nat, now: nat, a: nat)
    requires i <= |es| && |rs| == |es| + 1 && a in rs[0].table
    requires forall k :: 0 <= k < i ==> Turned(rs[k], rs[k + 1], es[k], now, a) && es[k] != a
    ensures a in rs[i].table && rs[i].table[a] == rs[0].table[a] && (a in rs[i].order <==> a in rs[0].order)
    decreases i
  {
    if i > 0 {
      SettleOther(rs, es, i - 1, now, a);
      assert Turned(rs[i - 1], rs[i - 1 + 1], es[i - 1], now, a);
    }
  }

  /** An expired recurring timer is due `ms` after now and back in the set; an expired one-shot timer has
      lost its callback. */
  lemma {:induction false} SettleAt(rs: seq<Manager>, es: seq<nat>, i: nat, now: nat, j: nat)
    requires j < i <= |es| && |rs| == |es| + 1 && es[j] in rs[0].table
    requires forall k :: 0 <= k < i ==> Turned(rs[k], rs[k + 1], es[k], now, es[j])
    requires forall k :: 0 <= k < i && k != j ==> es[k] != es[j]
    ensures es[j] in rs[i].table && rs[i].table[es[j]] == SettledTimer(rs[0].table[es[j]], now)
    ensures es[j] in rs[i].order <==> rs[0].table[es[j]].recurring
    decreases i
  {
    if j < i - 1 { SettleAt(rs, es, i - 1, now, j); } else { SettleOther(rs, es, j, now, es[j]); }
    assert Turned(rs[i - 1], rs[i - 1 + 1], es[i - 1], now, es[j]);
  }

  /** What the whole loop does to timer `a`. */
  ghost predicate Settled(m: Manager, r: Manager, es: seq<nat>, now: nat, a: nat)
    requires a in m.table && a in r.table
  {
    && r.table[a] == (if a in es then SettledTimer(m.table[a], now) else m.table[a])
    && (a in r.order <==> if a in es then m.table[a].recurring else a in m.order)
  }

  /** The loop as the sequence of its states, seen from timer `a`. */
  lemma SettleStates(rs: seq<Manager>, es: seq<nat>, now: nat, a: nat)
    requires |rs| == |es| + 1 && a in rs[0].table
    requires forall k :: 0 <= k < |es| ==> Turned(rs[k], rs[k + 1], es[k], now, a)
    requires forall i, j :: 0 <= i < j < |es| ==> es[i] != es[j]
    ensures a in rs[|es|].table && Settled(rs[0], rs[|es|], es, now, a)
  {
    if a in es {
      var j :| 0 <= j < |es| && es[j] == a;
      SettleAt(rs, es, |es|, now, j);
    } else {
      SettleOther(rs, es, |es|, now, a);
    }
  }

  /** The whole loop, seen from timer `a`. */
  lemma SettleAll(m: Manager, es: seq<nat>, now: nat, a: nat)
    requires Pulled(m, es) && a in m.table
    ensures a in Settle(m, es, |es|, now).table && Settled(m, Settle(m, es, |es|, now), es, now, a)
  {
    var rs := seq(|es| + 1, i requires 0 <= i <= |es| => Settle(m, es, i, now));
    forall k | 0 <= k < |es| ensures Turned(rs[k], rs[k + 1], es[k], now, a) { SettleTurn(m, es, k + 1, now, a); }
    SettleStates(rs, es, now, a);
  }

  lemma TakenPulled(m: Manager, now: nat, probe: nat)
    requires Valid(m)
    ensures var k := ExpiredCount(m, now, probe);
            Pulled(m.(order := m.order[k..], previous := now), m.order[..k])
  {
    SplitPulled(m, ExpiredCount(m, now, probe), now);
  }

  /** The first `k` timers taken out of the set. */
  lemma SplitPulled(m: Manager, k: nat, now: nat)
    requires Valid(m) && k <= |m.order|
    ensures Pulled(m.(order := m.order[k..], previous := now), m.order[..k])
  {
    var es, rest := m.order[..k], m.order[k..];
    assert m.order == es + rest;
    forall i, j | 0 <= i < j < |m.order| ensures m.order[i] != m.order[j] {
      assert Less(m.table, m.order[i], m.order[j]);
    }
    forall i | 0 <= i < k ensures es[i] !in rest && es[i] in m.order {
      assert es[i] == m.order[i];
    }
    assert Sorted(m.table, rest) by { assert forall i :: 0 <= i < |rest| ==> rest[i] == m.order[k + i]; }
  }

  /** Without a rollback `listExpiredCb` hands out the callbacks of exactly the timers whose deadline has
      come, in the order of their deadlines; after a rollback, of all. */
  lemma HandedOutExactly(m: Manager, now: nat, probe: nat)
    requires Valid(m)
    ensures var es := Taken(m, now, probe);
            && (!Rollover(m, now) ==> forall a :: a in m.table ==>
                  (a in es <==> m.table[a].cb.Some? && m.table[a].deadline <= now))
            && (Rollover(m, now) ==> es == m.order)
            && (forall i :: 0 <= i < |es| ==> Handed(m.table, es)[i] == m.table[es[i]].cb && m.table[es[i]].cb.Some?)
            && (forall i, j :: 0 <= i < j < |es| ==>
                  m.table[es[i]].deadline <= m.table[es[j]].deadline && es[i] != es[j])
  {
    var es := Taken(m, now, probe);
    var k := |es|;
    assert forall i :: 0 <= i < k ==> es[i] == m.order[i] && es[i] in m.order;
    forall i, j | 0 <= i < j < k ensures m.table[es[i]].deadline <= m.table[es[j]].deadline && es[i] != es[j] {
      assert Less(m.table, m.order[i], m.order[j]);
    }
    if !Rollover(m, now) {
      ExpiredExactly(m, now, probe);
      forall a | a in m.table && m.table[a].cb.Some? && m.table[a].deadline <= now ensures a in es {
        var i :| 0 <= i < |m.order| && m.order[i] == a;
        assert es[i] == a;
      }
    }
  }

  /** `listExpiredCb` keeps the set in order, re-arms the recurring timers it took, clears the one-shot
      ones, and touches no other timer. */
  lemma ExpiredEffect(m: Manager, now: nat, probe: nat)
    requires Valid(m)
    ensures var es := Taken(m, now, probe); var r := Expired(m, now, probe);
            && Valid(r) && r.table.Keys == m.table.Keys && r.tickled == m.tickled
            && (forall a :: a in m.table ==>
                  r.table[a] == if a in es then SettledTimer(m.table[a], now) else m.table[a])
            && (forall b :: b in r.order ==> b in m.order && (b in es ==> m.table[b].recurring))
  {
    if m.order != [] {
      var k := ExpiredCount(m, now, probe);
      var m0 := m.(order := m.order[k..], previous := now);
      var es := m.order[..k];
      var r := Expired(m, now, probe);
      TakenPulled(m, now, probe);
      SettleSorted(m0, es, k, now);
      forall a | a in m.table
        ensures r.table[a] == if a in es then SettledTimer(m.table[a], now) else m.table[a]
        ensures a in r.order <==> r.table[a].cb.Some?
        ensures a in r.order ==> a in m.order && (a in es ==> m.table[a].recurring)
      {
        SettleAll(m0, es, now, a);
      }
    }
  }
}
