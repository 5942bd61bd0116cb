/** The timer manager over whole runs: delivery at most once, and no lost wake-up of the idle thread. */
module TimerRuns {
  import opened Basics
  import opened Timers

  datatype Op =
    | AddOp(a: nat, ms: nat, cb: nat, recurring: bool)
    | CancelOp(a: nat)
    | RefreshOp(a: nat)
    | ResetOp(a: nat, ms: nat, fromNow: bool)
    | NextOp
    | ExpireOp(probe: nat)

  /** The manager and the history of its run: the clock at the last call, the deadline seen by the last
      `getNextTimer` (absent: no timer), whether `onTimerInsertedAtFront` was called since, the timers
      handed out in order, and the timers cancelled while alive. */
  datatype World = World(m: Manager, clock: nat, seen: Option<nat>, notified: bool,
                         delivered: seq<nat>, cancelled: set<nat>)

  /** A new timer has a new address; the other calls are made on existing timers. */
  predicate Possible(m: Manager, op: Op) {
    match op
    case AddOp(a, _, _, _) => a !in m.table
    case CancelOp(a) => a in m.table
    case RefreshOp(a) => a in m.table
    case ResetOp(a, _, _) => a in m.table
    case NextOp => true
    case ExpireOp(_) => true
  }

  ghost function Apply(w: World, op: Op, now: nat): World
    requires Valid(w.m) && Possible(w.m, op)
  {
    var m := w.m;
    var w' := w.(clock := now);
    match op
    case AddOp(a, ms, cb, recurring) =>
      ValidAdd(m, a, ms, cb, recurring, now);
      var m1 := WithNew(m, a, ms, cb, recurring, now);
      w'.(m := Enqueue(m1, a), notified := w.notified || Notifies(m1, a))
    case CancelOp(a) => w'.(m := Cancelled(m, a), cancelled := if Live(m, a) then w.cancelled + {a} else w.cancelled)
    case RefreshOp(a) => w'.(m := Refreshed(m, a, now))
    case ResetOp(a, ms, fromNow) =>
      w'.(m := WasReset(m, a, ms, fromNow, now),
          notified := w.notified || (!ResetIsNop(m.table[a], ms, fromNow) && Live(m, a)
                                     && Notifies(Changed(m, a, ResetTimer(m.table[a], ms, fromNow, now)), a)))
    case NextOp => w'.(m := m.(tickled := false), seen := Earliest(m), notified := false)
    case ExpireOp(probe) => w'.(m := Expired(m, now, probe), delivered := w.delivered + Taken(m, now, probe))
  }

  lemma ValidApply(w: World, op: Op, now: nat)
    requires Valid(w.m) && Possible(w.m, op)
    ensures Valid(Apply(w, op, now).m)
  {
    match op
    case AddOp(a, ms, cb, recurring) => ValidAdd(w.m, a, ms, cb, recurring, now);
    case CancelOp(a) => ValidCancel(w.m, a);
    case RefreshOp(a) => ValidRefresh(w.m, a, now);
    case ResetOp(a, ms, fromNow) => ValidReset(w.m, a, ms, fromNow, now);
    case NextOp =>
    case ExpireOp(probe) => ExpiredEffect(w.m, now, probe);
  }

  /** Taking a live timer out, changing it and putting it back keeps every other timer, and keeps it alive. */
  lemma PutBackFrame(m: Manager, b: nat, t: Timer, a: nat)
    requires Valid(m) && b in m.table && Live(m, b) && a in m.table
    ensures var r := Changed(m, b, t); a in r.table && r.table[a] == if a == b then t else m.table[a]
  {
    LookupSucceeds(m, b);
  }

  /** What a call does to the timers that were there before it. */
  lemma TimerFrame(w: World, op: Op, now: nat, a: nat)
    requires Valid(w.m) && Possible(w.m, op) && a in w.m.table
    ensures var w' := Apply(w, op, now);
            && a in w'.m.table && w'.m.table[a].recurring == w.m.table[a].recurring
            && (!Live(w.m, a) ==> !Live(w'.m, a))
            && (Live(w.m, a) && !Live(w'.m, a) ==>
                  op == CancelOp(a) || (op.ExpireOp? && a in Taken(w.m, now, op.probe) && !w.m.table[a].recurring))
  {
    match op
    case AddOp(b, ms, cb, recurring) => ValidAdd(w.m, b, ms, cb, recurring, now);
    case CancelOp(b) => ValidCancel(w.m, b);
    case RefreshOp(b) => if Live(w.m, b) { PutBackFrame(w.m, b, RefreshTimer(w.m.table[b], now), a); }
    case ResetOp(b, ms, fromNow) =>
      if Live(w.m, b) { PutBackFrame(w.m, b, ResetTimer(w.m.table[b], ms, fromNow, now), a); }
    case NextOp =>
    case ExpireOp(probe) => ExpiredEffect(w.m, now, probe);
  }

  // ---------------------------------------------------------------- delivery

  /** A one-shot timer is handed out at most once, not while it is alive, and not if it was cancelled. */
  ghost predicate TimerOk(w: World, a: nat)
    requires a in w.m.table
  {
    && (!w.m.table[a].recurring ==> multiset(w.delivered)[a] <= if Live(w.m, a) then 0 else 1)
    && (a in w.cancelled ==> !Live(w.m, a))
    && (a in w.cancelled && !w.m.table[a].recurring ==> multiset(w.delivered)[a] == 0)
  }

  ghost predicate DeliveryOk(w: World) {
    && Valid(w.m)
    && (forall a :: a in w.delivered || a in w.cancelled ==> a in w.m.table)
    && (forall a :: a in w.m.table ==> TimerOk(w, a))
  }

  lemma {:induction false} CountInDistinct(es: seq<nat>, a: nat)
    requires forall i, j :: 0 <= i < j < |es| ==> es[i] != es[j]
    ensures multiset(es)[a] == if a in es then 1 else 0
  {
    if es != [] {
      CountInDistinct(es[1..], a);
      assert es == [es[0]] + es[1..];
    }
  }

  /** A step hands out a timer only if it was alive, and at most once. */
  lemma DeliveredGrows(w: World, op: Op, now: nat, a: nat)
    requires DeliveryOk(w) && Possible(w.m, op)
    ensures var w' := Apply(w, op, now);
            && multiset(w'.delivered)[a] <= multiset(w.delivered)[a] + 1
            && (multiset(w'.delivered)[a] > multiset(w.delivered)[a] ==>
                  op.ExpireOp? && a in w.m.table && Live(w.m, a) && a in Taken(w.m, now, op.probe))
  {
    if op.ExpireOp? {
      var es := Taken(w.m, now, op.probe);
      HandedOutExactly(w.m, now, op.probe);
      CountInDistinct(es, a);
      assert multiset(w.delivered + es) == multiset(w.delivered) + multiset(es);
    }
  }

  lemma TimerOkStep(w: World, op: Op, now: nat, a: nat)
    requires DeliveryOk(w) && Possible(w.m, op) && a in w.m.table
    ensures var w' := Apply(w, op, now); a in w'.m.table && TimerOk(w', a)
  {
    TimerFrame(w, op, now, a);
    DeliveredGrows(w, op, now, a);
    assert TimerOk(w, a);
    if op.ExpireOp? { ExpiredEffect(w.m, now, op.probe); }
    if op.CancelOp? { ValidCancel(w.m, op.a); }
  }

  /** A call creates no timer but the one it adds, and speaks of no timer that does not exist. */
  lemma NewTimer(w: World, op: Op, now: nat, a: nat)
    requires DeliveryOk(w) && Possible(w.m, op) && a !in w.m.table
    ensures var w' := Apply(w, op, now);
            a !in w'.delivered && a !in w'.cancelled && (a in w'.m.table ==> op.AddOp? && Live(w'.m, a))
  {
    match op
    case AddOp(b, ms, cb, recurring) => ValidAdd(w.m, b, ms, cb, recurring, now);
    case CancelOp(b) => ValidCancel(w.m, b);
    case RefreshOp(b) => LookupSucceeds(w.m, b);
    case ResetOp(b, ms, fromNow) => LookupSucceeds(w.m, b);
    case NextOp =>
    case ExpireOp(probe) => ExpiredEffect(w.m, now, probe);
  }

  lemma DeliveryStep(w: World, op: Op, now: nat)
    requires DeliveryOk(w) && Possible(w.m, op)
    ensures DeliveryOk(Apply(w, op, now))
  {
    var w' := Apply(w, op, now);
    ValidApply(w, op, now);
    forall a | a in w'.delivered || a in w'.cancelled ensures a in w'.m.table {
      if a in w.m.table { TimerFrame(w, op, now, a); } else { NewTimer(w, op, now, a); }
    }
    forall a | a in w'.m.table ensures TimerOk(w', a) {
      if a in w.m.table { TimerOkStep(w, op, now, a); } else { NewTimer(w, op, now, a); }
    }
  }

  // ---------------------------------------------------------------- the front notification

  /** No timer in the set is due before `seen`. */
  ghost predicate NoneBefore(m: Manager, seen: Option<nat>)
    requires Known(m.table, m.order)
  {
    match seen
    case None => m.order == []
    case Some(d) => forall a :: a in m.order ==> m.table[a].deadline >= d
  }

  /** No live timer was started in the future. */
  ghost predicate StartedBy(m: Manager, clock: nat) {
    forall a :: a in m.table && Live(m, a) ==> m.table[a].ms <= m.table[a].deadline <= clock + m.table[a].ms
  }

  /** The invariant behind `m_tickled`: if it is set a notification has been sent since the last
      `getNextTimer`; if not, no timer is due before the deadline seen then. */
  ghost predicate FrontOk(w: World) {
    && Valid(w.m) && StartedBy(w.m, w.clock) && w.m.previous <= w.clock
    && (w.m.tickled ==> w.notified)
    && (!w.m.tickled ==> NoneBefore(w.m, w.seen))
  }

  lemma EarliestIsLeast(m: Manager)
    requires Valid(m)
    ensures NoneBefore(m, Earliest(m))
  {
    forall a | a in m.order ensures m.table[a].deadline >= m.table[m.order[0]].deadline {
      var i :| 0 <= i < |m.order| && m.order[i] == a;
      assert i > 0 ==> Less(m.table, m.order[0], m.order[i]);
    }
  }

  /** A timer put into the set behind another one is not due before anything that was seen. */
  lemma NotFrontIsLater(m: Manager, a: nat, seen: Option<nat>)
    requires Known(m.table, m.order) && Sorted(m.table, m.order) && a in m.table && a !in m.order
    requires NoneBefore(m, seen) && !AtFront(m, a)
    ensures Known(m.table, Inserted(m, a).order) && NoneBefore(Inserted(m, a), seen)
  {
    InsertSorted(m.table, m.order, a);
    assert m.order[0] in m.order;
  }

  lemma FrontAdd(w: World, op: Op, now: nat)
    requires FrontOk(w) && Possible(w.m, op) && now >= w.clock && op.AddOp?
    ensures FrontOk(Apply(w, op, now))
  {
    var m1 := WithNew(w.m, op.a, op.ms, op.cb, op.recurring, now);
    ValidAdd(w.m, op.a, op.ms, op.cb, op.recurring, now);
    OutsideChange(w.m.table, m1.table, w.m.order);
    if !w.m.tickled && !AtFront(m1, op.a) { NotFrontIsLater(m1, op.a, w.seen); }
  }

  lemma FrontCancel(w: World, op: Op, now: nat)
    requires FrontOk(w) && Possible(w.m, op) && now >= w.clock && op.CancelOp?
    ensures FrontOk(Apply(w, op, now))
  {
    ValidCancel(w.m, op.a);
    LookupSucceeds(w.m, op.a);
  }

  /** Taking a live timer out and changing it. */
  lemma ChangedFront(m: Manager, a: nat, t: Timer, seen: Option<nat>, clock: nat)
    requires Valid(m) && a in m.table && Live(m, a)
    ensures var m1 := Changed(m, a, t);
            && Sorted(m1.table, m1.order) && a !in m1.order
            && (NoneBefore(m, seen) ==> NoneBefore(m1, seen))
            && (StartedBy(m, clock) && t.ms <= t.deadline <= clock + t.ms ==> StartedBy(m1, clock))
  {
    LookupSucceeds(m, a);
    OutsideChange(m.table, Changed(m, a, t).table, Changed(m, a, t).order);
  }

  /** `refresh` does not notify, and need not: the deadline can only move later. */
  lemma FrontRefresh(w: World, op: Op, now: nat)
    requires FrontOk(w) && Possible(w.m, op) && now >= w.clock && op.RefreshOp?
    ensures FrontOk(Apply(w, op, now))
  {
    ValidRefresh(w.m, op.a, now);
    if Live(w.m, op.a) {
      var t := RefreshTimer(w.m.table[op.a], now);
      ChangedFront(w.m, op.a, t, w.seen, now);
      InsertSorted(Changed(w.m, op.a, t).table, Changed(w.m, op.a, t).order, op.a);
      assert op.a in w.m.order && t.deadline >= w.m.table[op.a].deadline;
    }
  }

  lemma FrontReset(w: World, op: Op, now: nat)
    requires FrontOk(w) && Possible(w.m, op) && now >= w.clock && op.ResetOp?
    ensures FrontOk(Apply(w, op, now))
  {
    ValidReset(w.m, op.a, op.ms, op.fromNow, now);
    if Live(w.m, op.a) && !ResetIsNop(w.m.table[op.a], op.ms, op.fromNow) {
      var t := ResetTimer(w.m.table[op.a], op.ms, op.fromNow, now);
      assert t.ms <= t.deadline <= now + t.ms by { assert op.a in w.m.order; }
      ResetFront(w.m, op.a, t, w.seen, now);
    }
  }

  /** A live timer that is taken out, changed and added again. */
  lemma ResetFront(m: Manager, a: nat, t: Timer, seen: Option<nat>, clock: nat)
    requires Valid(m) && a in m.table && Live(m, a) && StartedBy(m, clock) && t.ms <= t.deadline <= clock + t.ms
    requires !m.tickled ==> NoneBefore(m, seen)
    ensures var r := Enqueue(Changed(m, a, t), a);
            StartedBy(r, clock) && Known(r.table, r.order) && (!r.tickled ==> NoneBefore(r, seen))
  {
    ChangedFront(m, a, t, seen, clock);
    var m1 := Changed(m, a, t);
    InsertSorted(m1.table, m1.order, a);
    if !m.tickled && !AtFront(m1, a) { NotFrontIsLater(m1, a, seen); }
  }

  lemma FrontExpire(w: World, op: Op, now: nat)
    requires FrontOk(w) && Possible(w.m, op) && now >= w.clock && op.ExpireOp?
    ensures FrontOk(Apply(w, op, now))
  {
    ExpiredEffect(w.m, now, op.probe);
    HandedOutExactly(w.m, now, op.probe);
  }

  lemma FrontStep(w: World, op: Op, now: nat)
    requires FrontOk(w) && Possible(w.m, op) && now >= w.clock
    ensures FrontOk(Apply(w, op, now))
  {
    match op
    case AddOp(_, _, _, _) => FrontAdd(w, op, now);
    case CancelOp(_) => FrontCancel(w, op, now);
    case RefreshOp(_) => FrontRefresh(w, op, now);
    case ResetOp(_, _, _) => FrontReset(w, op, now);
    case NextOp => EarliestIsLeast(w.m);
    case ExpireOp(_) => FrontExpire(w, op, now);
  }

  // ---------------------------------------------------------------- runs

  /** A run: states linked by possible calls, each at some time of the clock. */
  ghost predicate IsRun(ws: seq<World>, ops: seq<Op>, times: seq<nat>) {
    && |ws| == |ops| + 1 && |times| == |ops|
    && ws[0].m == Manager(map[], [], false, ws[0].clock)
    && ws[0].seen == None && !ws[0].notified && ws[0].delivered == [] && ws[0].cancelled == {}
    && forall i :: 0 <= i < |ops| ==>
         Valid(ws[i].m) && Possible(ws[i].m, ops[i]) && ws[i + 1] == Apply(ws[i], ops[i], times[i])
  }

  lemma {:induction false} DeliveryRun(ws: seq<World>, ops: seq<Op>, times: seq<nat>, i: nat)
    requires IsRun(ws, ops, times) && i < |ws|
    ensures DeliveryOk(ws[i])
    decreases i
  {
    if i > 0 {
      DeliveryRun(ws, ops, times, i - 1);
      DeliveryStep(ws[i - 1], ops[i - 1], times[i - 1]);
    }
  }

  /** Over every run, with any clock: a timer is in the set exactly when its callback is there; a
      one-shot timer is handed out at most once, and never once cancelled; and lookup finds every
      timer that is alive. */
  lemma DeliveredAtMostOnce(ws: seq<World>, ops: seq<Op>, times: seq<nat>, i: nat, a: nat)
    requires IsRun(ws, ops, times) && i < |ws| && a in ws[i].m.table
    ensures Known(ws[i].m.table, ws[i].m.order)
    ensures a in ws[i].m.order <==> ws[i].m.table[a].cb.Some?
    ensures Find(ws[i].m.table, ws[i].m.order, a) < |ws[i].m.order| <==> ws[i].m.table[a].cb.Some?
    ensures !ws[i].m.table[a].recurring ==> multiset(ws[i].delivered)[a] <= 1
    ensures !ws[i].m.table[a].recurring && a in ws[i].cancelled ==> a !in ws[i].delivered
  {
    DeliveryRun(ws, ops, times, i);
    LookupSucceeds(ws[i].m, a);
    assert TimerOk(ws[i], a);
  }

  /** Once cancelled or spent, a timer stays dead and nothing is handed out for it any more. */
  lemma {:induction false} DeadForGood(ws: seq<World>, ops: seq<Op>, times: seq<nat>, i: nat, j: nat, a: nat)
    requires IsRun(ws, ops, times) && i <= j < |ws| && a in ws[i].m.table && !Live(ws[i].m, a)
    ensures a in ws[j].m.table && !Live(ws[j].m, a)
    ensures multiset(ws[j].delivered)[a] == multiset(ws[i].delivered)[a]
    decreases j - i
  {
    if i < j {
      DeadForGood(ws, ops, times, i, j - 1, a);
      DeliveryRun(ws, ops, times, j - 1);
      TimerFrame(ws[j - 1], ops[j - 1], times[j - 1], a);
      DeliveredGrows(ws[j - 1], ops[j - 1], times[j - 1], a);
      DeliveredKept(ws[j - 1], ops[j - 1], times[j - 1]);
    }
  }

  lemma DeliveredKept(w: World, op: Op, now: nat)
    requires Valid(w.m) && Possible(w.m, op)
    ensures w.delivered <= Apply(w, op, now).delivered
    ensures forall a :: multiset(w.delivered)[a] <= multiset(Apply(w, op, now).delivered)[a]
  {
    if op.ExpireOp? {
      assert multiset(w.delivered + Taken(w.m, now, op.probe))
          == multiset(w.delivered) + multiset(Taken(w.m, now, op.probe));
    }
  }

  ghost predicate Monotone(clock: nat, times: seq<nat>) {
    && (forall i :: 0 <= i < |times| ==> times[i] >= clock)
    && (forall i, j :: 0 <= i < j < |times| ==> times[i] <= times[j])
  }

  lemma {:induction false} FrontRun(ws: seq<World>, ops: seq<Op>, times: seq<nat>, i: nat)
    requires IsRun(ws, ops, times) && i < |ws| && Monotone(ws[0].clock, times)
    ensures FrontOk(ws[i]) && ws[i].clock == if i == 0 then ws[0].clock else times[i - 1]
    decreases i
  {
    if i > 0 {
      FrontRun(ws, ops, times, i - 1);
      FrontStep(ws[i - 1], ops[i - 1], times[i - 1]);
    }
  }

  /** No lost timer wake-up: with a clock that never goes back, whenever some timer is due earlier than
      the deadline seen by the last `getNextTimer`, a front notification has been sent since. */
  lemma NoLostWakeUp(ws: seq<World>, ops: seq<Op>, times: seq<nat>, i: nat, a: nat)
    requires IsRun(ws, ops, times) && i < |ws| && Monotone(ws[0].clock, times)
    requires a in ws[i].m.table && Live(ws[i].m, a)
    requires ws[i].seen.None? || ws[i].m.table[a].deadline < ws[i].seen.value
    ensures ws[i].notified
  {
    FrontRun(ws, ops, times, i);
  }

  /** The wait returned by `getNextTimer` ends neither before nor after the first moment at which some
      timer is due. */
  lemma WaitIsExact(m: Manager, now: nat)
    requires Valid(m)
    ensures NextWait(m, now).None? <==> forall a :: a in m.table ==> !Live(m, a)
    ensures NextWait(m, now).Some? ==>
              && (forall a :: a in m.table && Live(m, a) ==>
                    now + NextWait(m, now).value <= Max(now, m.table[a].deadline))
              && exists a :: a in m.table && Live(m, a) && now + NextWait(m, now).value == Max(now, m.table[a].deadline)
  {
    EarliestIsLeast(m);
    if m.order != [] {
      assert m.order[0] in m.order && m.order[0] in m.table && Live(m, m.order[0]);
    }
  }
}
