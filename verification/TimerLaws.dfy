/** When timers are due, over whole runs, in terms of the calls made and the times they were made at. */
module TimerLaws {
  import opened Basics
  import opened Timers
  import opened TimerRuns

  // ---------------------------------------------------------------- the calls that matter to one timer

  /** Call `k` hands out timer `a`. */
  ghost predicate HandedOut(ws: seq<World>, k: nat, a: nat)
    requires k + 1 < |ws|
  {
    |ws[k].delivered| <= |ws[k + 1].delivered| && a in ws[k + 1].delivered[|ws[k].delivered|..]
  }

  /** Call `k` starts the period of timer `a` anew: it adds the timer, or the timer is alive and it is refreshed, reset
      from now on, or handed out. */
  ghost predicate Restarts(ws: seq<World>, ops: seq<Op>, k: nat, a: nat)
    requires k < |ops| < |ws|
  {
    match ops[k]
    case AddOp(b, _, _, _) => b == a
    case RefreshOp(b) => b == a && a in ws[k].m.order
    case ResetOp(b, _, fromNow) => b == a && a in ws[k].m.order && fromNow
    case ExpireOp(_) => HandedOut(ws, k, a)
    case _ => false
  }

  /** When the current period of timer `a` began: the time of the last call that started it. */
  ghost function Began(ws: seq<World>, ops: seq<Op>, times: seq<nat>, i: nat, a: nat): nat
    requires IsRun(ws, ops, times) && i < |ws|
    decreases i
  {
    if i == 0 then 0
    else if Restarts(ws, ops, i - 1, a) then times[i - 1]
    else Began(ws, ops, times, i - 1, a)
  }

  /** The period of timer `a`: the one it was added with, or last reset to. */
  ghost function Period(ws: seq<World>, ops: seq<Op>, times: seq<nat>, i: nat, a: nat): nat
    requires IsRun(ws, ops, times) && i < |ws|
    decreases i
  {
    if i == 0 then 0
    else
      match ops[i - 1]
      case AddOp(b, ms, _, _) => if b == a then ms else Period(ws, ops, times, i - 1, a)
      case ResetOp(b, ms, _) =>
        if b == a && a in ws[i - 1].m.order then ms else Period(ws, ops, times, i - 1, a)
      case _ => Period(ws, ops, times, i - 1, a)
  }

  // ---------------------------------------------------------------- one call

  /** A timer as the sum of when its period began and how long it is. */
  predicate Is(t: Timer, began: nat, period: nat) { t.ms == period && t.deadline == began + period }

  /** What a call does to the period of a timer that is alive after it. */
  ghost predicate Law(w: World, op: Op, now: nat, a: nat)
    requires Valid(w.m) && Possible(w.m, op)
  {
    var w' := Apply(w, op, now);
    a in w'.m.table && Live(w'.m, a) ==>
      match op
      case AddOp(b, ms, _, _) => if b == a then Is(w'.m.table[a], now, ms) else Same(w, w', a)
      case RefreshOp(b) =>
        a in w.m.order && if b == a then Is(w'.m.table[a], now, w.m.table[a].ms) else Same(w, w', a)
      case ResetOp(b, ms, fromNow) =>
        && a in w.m.order
        && if b != a then Same(w, w', a)
           else if fromNow then Is(w'.m.table[a], now, ms)
           else forall began: nat :: Is(w.m.table[a], began, w.m.table[a].ms) ==> Is(w'.m.table[a], began, ms)
      case ExpireOp(probe) =>
        && a in w.m.order
        && if a in Taken(w.m, now, probe) then Is(w'.m.table[a], now, w.m.table[a].ms) else Same(w, w', a)
      case _ => Same(w, w', a)
  }

  predicate Same(w: World, w': World, a: nat) {
    a in w.m.table && a in w'.m.table && w'.m.table[a] == w.m.table[a] && a in w.m.order
  }

  lemma LawAdd(w: World, op: Op, now: nat, a: nat)
    requires Valid(w.m) && Possible(w.m, op) && op.AddOp?
    ensures Law(w, op, now, a)
  {
    ValidAdd(w.m, op.a, op.ms, op.cb, op.recurring, now);
  }

  lemma LawCancel(w: World, op: Op, now: nat, a: nat)
    requires Valid(w.m) && Possible(w.m, op) && op.CancelOp?
    ensures Law(w, op, now, a)
  {
    ValidCancel(w.m, op.a);
    LookupSucceeds(w.m, op.a);
  }

  lemma LawRefresh(w: World, op: Op, now: nat, a: nat)
    requires Valid(w.m) && Possible(w.m, op) && op.RefreshOp?
    ensures Law(w, op, now, a)
  {
    ValidRefresh(w.m, op.a, now);
    if Live(w.m, op.a) && a in w.m.table { PutBackFrame(w.m, op.a, RefreshTimer(w.m.table[op.a], now), a); }
    LookupSucceeds(w.m, op.a);
  }

  lemma LawReset(w: World, op: Op, now: nat, a: nat)
    requires Valid(w.m) && Possible(w.m, op) && op.ResetOp?
    ensures Law(w, op, now, a)
  {
    ValidReset(w.m, op.a, op.ms, op.fromNow, now);
    if Live(w.m, op.a) && a in w.m.table {
      PutBackFrame(w.m, op.a, ResetTimer(w.m.table[op.a], op.ms, op.fromNow, now), a);
    }
    LookupSucceeds(w.m, op.a);
  }

  lemma LawExpire(w: World, op: Op, now: nat, a: nat)
    requires Valid(w.m) && Possible(w.m, op) && op.ExpireOp?
    ensures Law(w, op, now, a)
  {
    ExpiredEffect(w.m, now, op.probe);
  }

  lemma LawHolds(w: World, op: Op, now: nat, a: nat)
    requires Valid(w.m) && Possible(w.m, op)
    ensures Law(w, op, now, a)
  {
    match op
    case AddOp(_, _, _, _) => LawAdd(w, op, now, a);
    case CancelOp(_) => LawCancel(w, op, now, a);
    case RefreshOp(_) => LawRefresh(w, op, now, a);
    case ResetOp(_, _, _) => LawReset(w, op, now, a);
    case NextOp =>
    case ExpireOp(_) => LawExpire(w, op, now, a);
  }

  // ---------------------------------------------------------------- runs

  lemma DeadlineIn(ws: seq<World>, ops: seq<Op>, times: seq<nat>, k: nat, a: nat)
    requires IsRun(ws, ops, times) && k < |ops| && a in ws[k + 1].m.table && Live(ws[k + 1].m, a)
    requires a in ws[k].m.table && Live(ws[k].m, a) ==>
               Is(ws[k].m.table[a], Began(ws, ops, times, k, a), Period(ws, ops, times, k, a))
    ensures Is(ws[k + 1].m.table[a], Began(ws, ops, times, k + 1, a), Period(ws, ops, times, k + 1, a))
  {
    LawHolds(ws[k], ops[k], times[k], a);
    if ops[k].ExpireOp? { HandedOutIs(ws, ops, times, k, a); }
  }

  lemma HandedOutIs(ws: seq<World>, ops: seq<Op>, times: seq<nat>, k: nat, a: nat)
    requires IsRun(ws, ops, times) && k < |ops|
    ensures Valid(ws[k].m)
    ensures HandedOut(ws, k, a) <==> ops[k].ExpireOp? && a in Taken(ws[k].m, times[k], ops[k].probe)
  {
    var m := ws[k].m;
    if ops[k].ExpireOp? {
      var es := Taken(m, times[k], ops[k].probe);
      assert (ws[k].delivered + es)[|ws[k].delivered|..] == es;
    } else {
      assert ws[k + 1].delivered == ws[k].delivered;
    }
  }

  /** Over every run, with any clock: a timer that is alive is due one period after its period began. */
  lemma {:induction false} DeadlineLaw(ws: seq<World>, ops: seq<Op>, times: seq<nat>, i: nat, a: nat)
    requires IsRun(ws, ops, times) && i < |ws| && a in ws[i].m.table && Live(ws[i].m, a)
    ensures ws[i].m.table[a].deadline == Began(ws, ops, times, i, a) + Period(ws, ops, times, i, a)
    ensures ws[i].m.table[a].ms == Period(ws, ops, times, i, a)
    decreases i
  {
    if i > 0 {
      var k := i - 1;
      if a in ws[k].m.table && Live(ws[k].m, a) { DeadlineLaw(ws, ops, times, k, a); }
      DeadlineIn(ws, ops, times, k, a);
    }
  }

  lemma CallbackKept(w: World, op: Op, now: nat, a: nat)
    requires Valid(w.m) && Possible(w.m, op) && a in w.m.table
    ensures var w' := Apply(w, op, now);
            a in w'.m.table && (Live(w'.m, a) ==> w'.m.table[a].cb == w.m.table[a].cb)
            && w'.m.table[a].recurring == w.m.table[a].recurring
  {
    TimerFrame(w, op, now, a);
    match op
    case AddOp(b, ms, cb, recurring) => ValidAdd(w.m, b, ms, cb, recurring, now);
    case CancelOp(b) => ValidCancel(w.m, b);
    case RefreshOp(b) => if Live(w.m, b) { PutBackFrame(w.m, b, RefreshTimer(w.m.table[b], now), a); }
    case ResetOp(b, ms, fromNow) =>
      if Live(w.m, b) { PutBackFrame(w.m, b, ResetTimer(w.m.table[b], ms, fromNow, now), a); }
    case NextOp =>
    case ExpireOp(probe) => ExpiredEffect(w.m, now, probe);
  }

  /** Over every run a timer that is alive has the callback it was added with. */
  lemma {:induction false} CallbackLaw(ws: seq<World>, ops: seq<Op>, times: seq<nat>, j: nat, i: nat, a: nat)
    requires IsRun(ws, ops, times) && j < i < |ws| && ops[j].AddOp? && ops[j].a == a
    ensures a in ws[i].m.table && ws[i].m.table[a].recurring == ops[j].recurring
    ensures ws[i].m.table[a].cb == None || ws[i].m.table[a].cb == Some(ops[j].cb)
    decreases i
  {
    if i == j + 1 {
      CallbackAdded(ws, ops, times, j, a);
    } else {
      CallbackLaw(ws, ops, times, j, i - 1, a);
      CallbackKept(ws[i - 1], ops[i - 1], times[i - 1], a);
    }
  }

  lemma CallbackAdded(ws: seq<World>, ops: seq<Op>, times: seq<nat>, k: nat, a: nat)
    requires IsRun(ws, ops, times) && k < |ops| && ops[k].AddOp? && ops[k].a == a
    ensures a in ws[k + 1].m.table && ws[k + 1].m.table[a].cb == Some(ops[k].cb)
    ensures ws[k + 1].m.table[a].recurring == ops[k].recurring
  {
    var op := ops[k];
    ValidAdd(ws[k].m, op.a, op.ms, op.cb, op.recurring, times[k]);
  }

  // ---------------------------------------------------------------- what is handed out

  /** The clock at the last check for expired timers, or at the start. A check that finds no timer at all does not
      count. */
  ghost function LastCheck(ws: seq<World>, ops: seq<Op>, times: seq<nat>, i: nat): nat
    requires IsRun(ws, ops, times) && i < |ws|
    decreases i
  {
    if i == 0 then ws[0].clock
    else if ops[i - 1].ExpireOp? && ws[i - 1].m.order != [] then times[i - 1]
    else LastCheck(ws, ops, times, i - 1)
  }

  lemma PreviousIn(ws: seq<World>, ops: seq<Op>, times: seq<nat>, k: nat)
    requires IsRun(ws, ops, times) && k < |ops|
    ensures ws[k + 1].m.previous
            == if ops[k].ExpireOp? && ws[k].m.order != [] then times[k] else ws[k].m.previous
  {
    var w := ws[k];
    match ops[k]
    case AddOp(b, ms, cb, recurring) => ValidAdd(w.m, b, ms, cb, recurring, times[k]);
    case _ =>
  }

  lemma {:induction false} PreviousRun(ws: seq<World>, ops: seq<Op>, times: seq<nat>, i: nat)
    requires IsRun(ws, ops, times) && i < |ws|
    ensures ws[i].m.previous == LastCheck(ws, ops, times, i)
    decreases i
  {
    if i > 0 {
      var k := i - 1;
      PreviousRun(ws, ops, times, k);
      PreviousIn(ws, ops, times, k);
    }
  }

  /** The clock has gone back by more than an hour; by anything at all if it was below one hour, because the unsigned
      subtraction wraps around. */
  predicate SteppedBack(last: nat, now: nat) {
    now < last && (last < 3600000 || now + 3600000 < last)
  }

  /** A check for expired timers hands out exactly the live timers whose period has passed since it began; after a step
      back of the clock, all live timers. */
  lemma DueExactly(ws: seq<World>, ops: seq<Op>, times: seq<nat>, i: nat, a: nat)
    requires IsRun(ws, ops, times) && i < |ops| && ops[i].ExpireOp?
    ensures var now := times[i];
            HandedOut(ws, i, a) <==>
              && a in ws[i].m.order
              && (SteppedBack(LastCheck(ws, ops, times, i), now)
                  || now >= Began(ws, ops, times, i, a) + Period(ws, ops, times, i, a))
  {
    var m, now, probe := ws[i].m, times[i], ops[i].probe;
    HandedOutIs(ws, ops, times, i, a);
    HandedOutExactly(m, now, probe);
    PreviousRun(ws, ops, times, i);
    if a in m.order { DeadlineLaw(ws, ops, times, i, a); }
  }

  // ---------------------------------------------------------------- a timer left alone

  predicate Names(op: Op, a: nat) { (op.CancelOp? || op.RefreshOp? || op.ResetOp?) && op.a == a }

  /** Nothing happens to the timer between the two calls: it is not cancelled, refreshed or reset, nor handed out. */
  ghost predicate Undisturbed(ws: seq<World>, ops: seq<Op>, j: nat, i: nat, a: nat)
    requires j <= i <= |ops| < |ws|
  {
    forall k :: j <= k < i ==> Passes(ws, ops, k, a)
  }

  /** Call `k` leaves the timer alone. */
  ghost predicate Passes(ws: seq<World>, ops: seq<Op>, k: nat, a: nat)
    requires k < |ops| < |ws|
  {
    !Names(ops[k], a) && !HandedOut(ws, k, a)
  }

  lemma AddedIn(ws: seq<World>, ops: seq<Op>, times: seq<nat>, k: nat, a: nat)
    requires IsRun(ws, ops, times) && k < |ops| && ops[k].AddOp? && ops[k].a == a
    ensures DueAt(ws[k + 1], a, times[k] + ops[k].ms)
  {
    CallbackAdded(ws, ops, times, k, a);
    LawHolds(ws[k], ops[k], times[k], a);
  }

  lemma LeftAlone(ws: seq<World>, ops: seq<Op>, times: seq<nat>, k: nat, a: nat, due: nat)
    requires IsRun(ws, ops, times) && k < |ops| && Passes(ws, ops, k, a)
    requires DueAt(ws[k], a, due)
    ensures DueAt(ws[k + 1], a, due)
  {
    TimerFrame(ws[k], ops[k], times[k], a);
    LawHolds(ws[k], ops[k], times[k], a);
    HandedOutIs(ws, ops, times, k, a);
  }

  predicate DueAt(w: World, a: nat, due: nat) {
    a in w.m.table && Live(w.m, a) && w.m.table[a].deadline == due
  }

  lemma {:induction false} StillCounting(ws: seq<World>, ops: seq<Op>, times: seq<nat>, j: nat, i: nat, a: nat)
    requires IsRun(ws, ops, times) && j < i < |ws| && ops[j].AddOp? && ops[j].a == a
    requires Undisturbed(ws, ops, j + 1, i, a)
    ensures DueAt(ws[i], a, times[j] + ops[j].ms)
    decreases i
  {
    if i == j + 1 {
      AddedIn(ws, ops, times, j, a);
    } else {
      var k := i - 1;
      StillCounting(ws, ops, times, j, k, a);
      LeftAlone(ws, ops, times, k, a, times[j] + ops[j].ms);
    }
  }

  /** A timer added at time T with period d, and left alone since, is handed out by the first check at T + d or
      later and by no earlier one, unless the clock has stepped back. */
  lemma FirstExpiry(ws: seq<World>, ops: seq<Op>, times: seq<nat>, j: nat, i: nat, a: nat)
    requires IsRun(ws, ops, times) && j < i < |ops| && ops[j].AddOp? && ops[j].a == a && ops[i].ExpireOp?
    requires Undisturbed(ws, ops, j + 1, i, a) && !SteppedBack(LastCheck(ws, ops, times, i), times[i])
    ensures HandedOut(ws, i, a) <==> times[i] >= times[j] + ops[j].ms
  {
    StillCounting(ws, ops, times, j, i, a);
    HandedOutIs(ws, ops, times, i, a);
    HandedOutExactly(ws[i].m, times[i], ops[i].probe);
    PreviousRun(ws, ops, times, i);
  }
}
