/**
  What `IOManager::stopping` protects, exactly. It reads the timers, the pending events and the queue one
  after the other, and the workers read them at different times, so that something registered in between
  can be left behind when the last worker has gone.
*/
module StopRace {
  import opened Basics
  import opened ParkWake
  import opened Ownership
  import opened WakeTheorems
  import opened Shutdown

  // ---------------------------------------------------------------- who registers what

  /** The ways to register an event or a timer: a fiber parks on an event or sleeps, or somebody adds an event
      with a callback, a one-shot timer or a recurring timer, from a task or from outside the pool. */
  datatype Kind = ParkEvent | Sleep | CallEvent(outside: bool) | CallTimer(outside: bool) | Recurring(outside: bool)

  predicate FromOutside(k: Kind) { (k.CallEvent? || k.CallTimer? || k.Recurring?) && k.outside }

  function Registration(l: Label): Option<Kind> {
    match l
    case Arming(_, x) => if x.ArmEvent? then Some(ParkEvent) else if x.ArmSleep? then Some(Sleep) else None
    case Api(a, x) =>
      if x.AddCallEvent? then Some(CallEvent(a.Outside?))
      else if x.AddCallTimer? then Some(CallTimer(a.Outside?))
      else if x.AddRecurring? then Some(Recurring(a.Outside?))
      else None
    case _ => None
  }

  /** After `stop` nothing comes from outside, and only the given kinds of registrations occur at all. */
  ghost predicate Obeys(s: State, l: Label, kinds: set<Kind>) {
    Quiet(s, l) && (Registration(l).Some? ==> Registration(l).value in kinds)
  }

  /** A run of an IOManager with `n` workers. */
  ghost predicate Lawful(ss: seq<State>, ls: seq<Label>, n: nat, kinds: set<Kind>) {
    && IsRun(ss, ls) && ss[0].io && |ss[0].workers| == n
    && forall i :: 0 <= i < |ls| ==> Obeys(ss[i], ls[i], kinds)
  }

  /** No such run leaves a timer or an event behind when all workers have gone. */
  ghost predicate StopsClean(n: nat, kinds: set<Kind>) {
    forall ss: seq<State>, ls: seq<Label> ::
      Lawful(ss, ls, n, kinds) && AllGone(ss[|ls|]) ==> Empty(ss[|ls|])
  }

  /** Stopping is clean if and only if nobody registers anything, or there is one worker and nobody outside
      the pool registers. */
  lemma StopsCleanIff(n: nat, kinds: set<Kind>)
    requires n > 0
    ensures StopsClean(n, kinds) <==> kinds == {} || (n == 1 && forall k :: k in kinds ==> !FromOutside(k))
  {
    if kinds == {} {
      NothingRegistered(n);
    } else if k :| k in kinds && FromOutside(k) {
      LeftFromOutside(n, kinds, k);
    } else if n == 1 {
      SoloStopsClean(kinds);
    } else {
      var k :| k in kinds;
      LeftByTask(n, kinds, k);
    }
  }

  // ---------------------------------------------------------------- nothing registered

  ghost predicate Empty(s: State) { s.timers == map[] && s.slots == map[] }

  lemma EmptyLoop(s: State, w: nat, x: LoopStep)
    requires EnabledLoop(s, w, x) && Empty(s)
    ensures Empty(ApplyLoop(s, w, x))
  {
  }

  lemma EmptyApi(s: State, a: Actor, x: ApiStep)
    requires EnabledApi(s, a, x) && Registration(Api(a, x)).None? && Empty(s)
    ensures Empty(ApplyApi(s, a, x))
  {
  }

  lemma EmptyIdle(s: State, w: nat, x: IdleStep)
    requires EnabledIdle(s, w, x) && Empty(s)
    ensures Empty(ApplyIdle(s, w, x))
  {
  }

  lemma EmptyStep(s: State, l: Label)
    requires Enabled(s, l) && Registration(l).None? && Empty(s)
    ensures Empty(Apply(s, l))
  {
    match l
    case Loop(w, x) => EmptyLoop(s, w, x);
    case Arming(w, x) =>
    case Api(a, x) => EmptyApi(s, a, x);
    case Idling(w, x) => EmptyIdle(s, w, x);
    case Stop =>
  }

  lemma {:induction false} EmptyRun(ss: seq<State>, ls: seq<Label>, n: nat, i: nat)
    requires Lawful(ss, ls, n, {}) && i < |ss|
    ensures Empty(ss[i])
    decreases i
  {
    if i > 0 {
      EmptyRun(ss, ls, n, i - 1);
      assert Obeys(ss[i - 1], ls[i - 1], {});
      EmptyStep(ss[i - 1], ls[i - 1]);
    }
  }

  lemma NothingRegistered(n: nat)
    ensures StopsClean(n, {})
  {
    forall ss: seq<State>, ls: seq<Label> | Lawful(ss, ls, n, {}) && AllGone(ss[|ls|])
      ensures Empty(ss[|ls|])
    {
      EmptyRun(ss, ls, n, |ls|);
    }
  }

  // ---------------------------------------------------------------- one worker

  /** Outside threads submit tasks but do not register timers or events. */
  predicate Local(l: Label) {
    l.Api? && l.a.Outside? ==> !(l.api.AddCallEvent? || l.api.AddCallTimer? || l.api.AddRecurring?)
  }

  ghost predicate Solo(s: State) {
    && s.io && |s.workers| == 1
    && var wk := s.workers[0];
       && (wk.pc.Probe1? ==> s.timers == map[])
       && (wk.pc.Probe2? ==> s.timers == map[] && s.slots == map[])
       && (wk.idle == TERM ==>
             s.stop && s.timers == map[] && s.slots == map[] && s.queue == []
             && (wk.pc.LeavingIdle? || wk.pc.Head? || wk.pc.Gone?))
       && (wk.pc.Gone? ==> wk.idle == TERM)
  }

  lemma SoloApi(s: State, a: Actor, l: ApiStep)
    requires Solo(s) && EnabledApi(s, a, l) && Quiet(s, Api(a, l)) && Local(Api(a, l))
    ensures Solo(ApplyApi(s, a, l))
  {
    ApiFrame(s, a, l);
    var s' := ApplyApi(s, a, l);
    if a.Outside? && !s.stop {
      assert l.CancelAll? || l.CancelEvent? ==> s'.timers == s.timers && s'.slots.Keys <= s.slots.Keys;
      assert s.timers == map[] ==> s'.timers == map[];
      assert s.slots == map[] ==> s'.slots == map[];
    }
  }

  lemma SoloLoop(s: State, w: nat, l: LoopStep)
    requires Solo(s) && EnabledLoop(s, w, l)
    ensures Solo(ApplyLoop(s, w, l))
  {
  }

  lemma SoloArm(s: State, w: nat, l: ArmStep)
    requires Solo(s) && EnabledArm(s, w, l)
    ensures Solo(ApplyArm(s, w, l))
  {
  }

  lemma SoloIdle(s: State, w: nat, l: IdleStep)
    requires Solo(s) && EnabledIdle(s, w, l)
    ensures Solo(ApplyIdle(s, w, l))
  {
  }

  lemma SoloStep(s: State, l: Label)
    requires Solo(s) && Enabled(s, l) && Quiet(s, l) && Local(l)
    ensures Solo(Apply(s, l))
  {
    match l
    case Api(a, x) => SoloApi(s, a, x);
    case Loop(w, x) => SoloLoop(s, w, x);
    case Arming(w, x) => SoloArm(s, w, x);
    case Idling(w, x) => SoloIdle(s, w, x);
    case Stop =>
  }

  lemma {:induction false} SoloRun(ss: seq<State>, ls: seq<Label>, kinds: set<Kind>, i: nat)
    requires Lawful(ss, ls, 1, kinds) && i < |ss| && forall k :: k in kinds ==> !FromOutside(k)
    ensures Solo(ss[i])
    decreases i
  {
    if i > 0 {
      SoloRun(ss, ls, kinds, i - 1);
      assert Obeys(ss[i - 1], ls[i - 1], kinds);
      SoloStep(ss[i - 1], ls[i - 1]);
    }
  }

  /** With one worker, and timers and events registered only by its own tasks, nothing at all is left
      when the worker has gone. */
  lemma SoloLeavesNothing(ss: seq<State>, ls: seq<Label>, kinds: set<Kind>, i: nat)
    requires Lawful(ss, ls, 1, kinds) && i < |ss| && forall k :: k in kinds ==> !FromOutside(k)
    requires AllGone(ss[i])
    ensures ss[i].queue == [] && ss[i].timers == map[] && ss[i].slots == map[]
  {
    SoloRun(ss, ls, kinds, i);
  }

  lemma SoloStopsClean(kinds: set<Kind>)
    requires forall k :: k in kinds ==> !FromOutside(k)
    ensures StopsClean(1, kinds)
  {
    forall ss: seq<State>, ls: seq<Label> | Lawful(ss, ls, 1, kinds) && AllGone(ss[|ls|])
      ensures Empty(ss[|ls|])
    {
      SoloLeavesNothing(ss, ls, kinds, |ls|);
    }
  }

  // ---------------------------------------------------------------- building a run

  /** `s` ends a lawful run. */
  ghost predicate Reaches(n: nat, kinds: set<Kind>, s: State) {
    exists ss, ls :: Lawful(ss, ls, n, kinds) && ss[|ls|] == s
  }

  lemma Extend(ss: seq<State>, ls: seq<Label>, n: nat, kinds: set<Kind>, l: Label)
    requires Lawful(ss, ls, n, kinds) && Enabled(ss[|ls|], l) && Obeys(ss[|ls|], l, kinds)
    ensures Lawful(ss + [Apply(ss[|ls|], l)], ls + [l], n, kinds)
  {
    var ss', ls' := ss + [Apply(ss[|ls|], l)], ls + [l];
    forall i | 0 <= i < |ls'|
      ensures Enabled(ss'[i], ls'[i]) && ss'[i + 1] == Apply(ss'[i], ls'[i]) && Obeys(ss'[i], ls'[i], kinds)
    {
      assert i < |ls| ==> ss'[i] == ss[i] && ss'[i + 1] == ss[i + 1] && ls'[i] == ls[i];
    }
  }

  lemma Go(n: nat, kinds: set<Kind>, s: State, l: Label)
    requires Reaches(n, kinds, s) && Enabled(s, l) && Obeys(s, l, kinds)
    ensures Reaches(n, kinds, Apply(s, l))
  {
    var ss, ls :| Lawful(ss, ls, n, kinds) && ss[|ls|] == s;
    Extend(ss, ls, n, kinds, l);
    assert (ss + [Apply(s, l)])[|ls + [l]|] == Apply(s, l);
  }

  lemma GoIdle(n: nat, kinds: set<Kind>, s: State, w: nat, x: IdleStep, t: State)
    requires Reaches(n, kinds, s) && EnabledIdle(s, w, x) && ApplyIdle(s, w, x) == t
    ensures Reaches(n, kinds, t)
  {
    Go(n, kinds, s, Idling(w, x));
  }

  lemma GoLoop(n: nat, kinds: set<Kind>, s: State, w: nat, x: LoopStep, t: State)
    requires Reaches(n, kinds, s) && EnabledLoop(s, w, x) && ApplyLoop(s, w, x) == t
    ensures Reaches(n, kinds, t)
  {
    Go(n, kinds, s, Loop(w, x));
  }

  lemma GoApi(n: nat, kinds: set<Kind>, s: State, a: Actor, x: ApiStep, t: State)
    requires Reaches(n, kinds, s) && EnabledApi(s, a, x) && ApplyApi(s, a, x) == t && Obeys(s, Api(a, x), kinds)
    ensures Reaches(n, kinds, t)
  {
    Go(n, kinds, s, Api(a, x));
  }

  /** An IOManager with `n` workers before anything has happened. */
  function New(n: nat): State {
    State(true, [], map[], seq(n, _ => Worker(Head, None, INIT)), map[], map[], map[], 0, 0, false, 0, [], {})
  }

  lemma AtStart(n: nat, kinds: set<Kind>)
    requires n > 0
    ensures Reaches(n, kinds, New(n))
  {
    var ss, ls: seq<Label> := [New(n)], [];
    assert Lawful(ss, ls, n, kinds) && ss[|ls|] == New(n);
  }

  /** Worker `w` with another record. */
  function Put(s: State, w: nat, wk: Worker): State
    requires IsWorker(s, w)
  {
    s.(workers := s.workers[w := wk])
  }

  /** A worker that found nothing reads the timers and the events. */
  lemma Probes(n: nat, kinds: set<Kind>, s: State, w: nat) returns (t: State)
    requires Reaches(n, kinds, s) && s.io && IsWorker(s, w) && PcOf(s, w).Head? && s.workers[w].idle != TERM
    requires s.queue == [] && s.timers == map[] && s.slots == map[]
    ensures t == Put(s, w, Worker(Probe2, s.workers[w].cb, EXEC)).(idling := s.idling + 1) && Reaches(n, kinds, t)
  {
    var cb := s.workers[w].cb;
    var s1 := Put(s, w, Worker(InIdle([]), cb, EXEC)).(idling := s.idling + 1);
    GoLoop(n, kinds, s, w, EnterIdle, s1);
    var s2 := Put(s, w, Worker(Probe1, cb, EXEC)).(idling := s.idling + 1);
    GoIdle(n, kinds, s1, w, SeeNoTimer, s2);
    t := Put(s, w, Worker(Probe2, cb, EXEC)).(idling := s.idling + 1);
    GoIdle(n, kinds, s2, w, SeeNoEvent, t);
  }

  /** After `stop` its idle fiber ends, whatever has been registered since. */
  lemma Decides(n: nat, kinds: set<Kind>, s: State, w: nat) returns (t: State)
    requires Reaches(n, kinds, s) && s.io && IsWorker(s, w) && PcOf(s, w).Probe2?
    requires s.stop && s.queue == [] && s.active == 0
    ensures t == Put(s, w, Worker(Head, s.workers[w].cb, TERM)).(idling := s.idling - 1) && Reaches(n, kinds, t)
  {
    var s1 := Put(s, w, Worker(LeavingIdle, s.workers[w].cb, TERM));
    GoIdle(n, kinds, s, w, DecideStop, s1);
    t := Put(s, w, Worker(Head, s.workers[w].cb, TERM)).(idling := s.idling - 1);
    GoIdle(n, kinds, s1, w, LeaveIdle, t);
  }

  /** The workers from `j` on are `wk`, the others as in `s`; nothing else but the idle counter differs. */
  ghost predicate Since(s: State, t: State, j: nat, wk: Worker) {
    && t == s.(workers := t.workers, idling := t.idling) && |t.workers| == |s.workers|
    && forall i :: 0 <= i < |s.workers| ==> t.workers[i] == if i < j then s.workers[i] else wk
  }

  lemma {:induction false} ProbeAll(n: nat, kinds: set<Kind>, s: State, j: nat) returns (t: State)
    requires Reaches(n, kinds, s) && s.io && j <= |s.workers|
    requires s.queue == [] && s.timers == map[] && s.slots == map[]
    requires forall i :: j <= i < |s.workers| ==> s.workers[i] == Worker(Head, None, INIT)
    ensures Since(s, t, j, Worker(Probe2, None, EXEC)) && Reaches(n, kinds, t)
    decreases |s.workers| - j
  {
    t := s;
    if j < |s.workers| {
      var s1 := Probes(n, kinds, s, j);
      t := ProbeAll(n, kinds, s1, j + 1);
    }
  }

  lemma {:induction false} DecideAll(n: nat, kinds: set<Kind>, s: State, j: nat) returns (t: State)
    requires Reaches(n, kinds, s) && s.io && j <= |s.workers| && s.stop && s.queue == [] && s.active == 0
    requires forall i :: j <= i < |s.workers| ==> s.workers[i] == Worker(Probe2, None, EXEC)
    ensures Since(s, t, j, Worker(Head, None, TERM)) && Reaches(n, kinds, t)
    decreases |s.workers| - j
  {
    t := s;
    if j < |s.workers| {
      var s1 := Decides(n, kinds, s, j);
      t := DecideAll(n, kinds, s1, j + 1);
    }
  }

  /** Workers whose idle fiber has ended leave as long as the queue is empty. */
  lemma {:induction false} LeaveAll(n: nat, kinds: set<Kind>, s: State, j: nat) returns (t: State)
    requires Reaches(n, kinds, s) && j <= |s.workers| && s.queue == []
    requires forall i :: j <= i < |s.workers| ==> s.workers[i] == Worker(Head, None, TERM)
    ensures Since(s, t, j, Worker(Gone, None, TERM)) && Reaches(n, kinds, t)
    decreases |s.workers| - j
  {
    t := s;
    if j < |s.workers| {
      var s1 := Put(s, j, Worker(Gone, None, TERM));
      GoLoop(n, kinds, s, j, Leave, s1);
      t := LeaveAll(n, kinds, s1, j + 1);
    }
  }

  /** A state like this after a lawful run is what `StopsClean` excludes. */
  lemma NotClean(n: nat, kinds: set<Kind>, s: State)
    requires Reaches(n, kinds, s) && AllGone(s) && (s.timers != map[] || s.slots != map[])
    ensures !StopsClean(n, kinds)
  {
  }

  // ---------------------------------------------------------------- registered from outside

  function OutsideCall(k: Kind): ApiStep
    requires FromOutside(k)
  {
    if k.CallEvent? then AddCallEvent(SlotKey(0, READ)) else if k.CallTimer? then AddCallTimer(0) else AddRecurring(0)
  }

  lemma RegistersOutside(n: nat, kinds: set<Kind>, s: State, k: Kind) returns (t: State)
    requires Reaches(n, kinds, s) && !s.stop && s.timers == map[] && s.slots == map[] && k in kinds && FromOutside(k)
    ensures t == s.(timers := t.timers, slots := t.slots, next := t.next) && (t.timers != map[] || t.slots != map[])
    ensures Reaches(n, kinds, t)
  {
    t := ApplyApi(s, Outside, OutsideCall(k));
    GoApi(n, kinds, s, Outside, OutsideCall(k), t);
    assert k.CallEvent? ==> SlotKey(0, READ) in t.slots;
    assert !k.CallEvent? ==> 0 in t.timers;
  }

  /** All workers have read timers and events; then something is registered from outside and `stop` is called. */
  lemma LeftFromOutside(n: nat, kinds: set<Kind>, k: Kind)
    requires n > 0 && k in kinds && FromOutside(k)
    ensures !StopsClean(n, kinds)
  {
    AtStart(n, kinds);
    var s1 := ProbeAll(n, kinds, New(n), 0);
    var s2 := RegistersOutside(n, kinds, s1, k);
    Go(n, kinds, s2, Stop);
    var s3 := s2.(stop := true);
    var s4 := DecideAll(n, kinds, s3, 0);
    var s5 := LeaveAll(n, kinds, s4, 0);
    NotClean(n, kinds, s5);
  }

  // ---------------------------------------------------------------- registered by a task, two workers or more

  predicate Waiting(s: State, f: nat) {
    s.queue == [Entry(Resume(f), None)] && f in s.fibers && s.fibers[f] in {INIT, HOLD, READY}
  }

  /** The state after worker `w` took the only entry. */
  function Taken(s: State, w: nat, pc: Pc): State
    requires IsWorker(s, w)
  {
    Put(s, w, s.workers[w].(pc := pc)).(queue := [], active := s.active + 1)
  }

  lemma Picks(n: nat, kinds: set<Kind>, s: State, w: nat, f: nat)
    requires Reaches(n, kinds, s) && IsWorker(s, w) && PcOf(s, w).Head? && Waiting(s, f)
    ensures Reaches(n, kinds, Taken(s, w, Took(Resume(f))))
  {
    assert s.queue[..0] + s.queue[1..] == [];
    GoLoop(n, kinds, s, w, Pick(0), Taken(s, w, Took(Resume(f))));
  }

  /** A worker takes the only entry and switches to its fiber. */
  lemma Takes(n: nat, kinds: set<Kind>, s: State, w: nat, f: nat) returns (t: State)
    requires Reaches(n, kinds, s) && IsWorker(s, w) && PcOf(s, w).Head? && Waiting(s, f)
    ensures Reaches(n, kinds, t) && t == Taken(s, w, InFiber(f, false)).(fibers := s.fibers[f := EXEC])
  {
    Picks(n, kinds, s, w, f);
    t := Taken(s, w, InFiber(f, false)).(fibers := s.fibers[f := EXEC]);
    GoLoop(n, kinds, Taken(s, w, Took(Resume(f))), w, SwitchIn, t);
  }

  /** The state after worker `w` switched out of fiber `f`, which is READY. */
  function Yielded(s: State, w: nat, f: nat, pc: Pc): State
    requires IsWorker(s, w)
  {
    Put(s, w, s.workers[w].(pc := pc)).(fibers := s.fibers[f := READY])
  }

  lemma SwitchesOut(n: nat, kinds: set<Kind>, s: State, w: nat, f: nat)
    requires Reaches(n, kinds, s) && IsWorker(s, w) && PcOf(s, w) == InFiber(f, false)
    ensures Reaches(n, kinds, Yielded(s, w, f, Left(f, false)))
  {
    GoLoop(n, kinds, s, w, SwitchOut(READY), Yielded(s, w, f, Left(f, false)));
  }

  /** The fiber yields to READY, and the counter drops before it is queued again. */
  lemma Yields(n: nat, kinds: set<Kind>, s: State, w: nat, f: nat) returns (t: State)
    requires Reaches(n, kinds, s) && IsWorker(s, w) && PcOf(s, w) == InFiber(f, false)
    ensures Reaches(n, kinds, t) && t == Yielded(s, w, f, Requeue(f, false)).(active := s.active - 1)
  {
    SwitchesOut(n, kinds, s, w, f);
    t := Yielded(s, w, f, Requeue(f, false)).(active := s.active - 1);
    GoLoop(n, kinds, Yielded(s, w, f, Left(f, false)), w, LowerReady, t);
  }

  lemma Queues(n: nat, kinds: set<Kind>, s: State, w: nat, f: nat) returns (t: State)
    requires Reaches(n, kinds, s) && IsWorker(s, w) && PcOf(s, w) == Requeue(f, false)
    ensures Reaches(n, kinds, t)
    ensures t == Put(s, w, s.workers[w].(pc := Head)).(queue := s.queue + [Entry(Resume(f), None)])
  {
    t := Put(s, w, s.workers[w].(pc := Head)).(queue := s.queue + [Entry(Resume(f), None)]);
    GoLoop(n, kinds, s, w, PutBack, t);
  }

  function InsideLabel(w: nat, k: Kind): Label
    requires !FromOutside(k)
  {
    match k
    case ParkEvent => Arming(w, ArmEvent(SlotKey(0, READ)))
    case Sleep => Arming(w, ArmSleep(0))
    case CallEvent(_) => Api(OnWorker(w), AddCallEvent(SlotKey(0, READ)))
    case CallTimer(_) => Api(OnWorker(w), AddCallTimer(0))
    case Recurring(_) => Api(OnWorker(w), AddRecurring(0))
  }

  /** The task registers something. */
  lemma RegistersInside(n: nat, kinds: set<Kind>, s: State, w: nat, f: nat, k: Kind) returns (t: State)
    requires Reaches(n, kinds, s) && IsWorker(s, w) && PcOf(s, w) == InFiber(f, false)
    requires s.timers == map[] && s.slots == map[] && k in kinds && !FromOutside(k)
    ensures Reaches(n, kinds, t) && (t.timers != map[] || t.slots != map[])
    ensures t == s.(workers := t.workers, timers := t.timers, slots := t.slots, next := t.next)
    ensures PcOf(s, w).InFiber? && |t.workers| == |s.workers| && PcOf(t, w).InFiber? && PcOf(t, w).f == f
    ensures t.workers == s.workers[w := s.workers[w].(pc := PcOf(t, w))]
  {
    InsideEffect(s, w, f, k);
    t := Apply(s, InsideLabel(w, k));
    Go(n, kinds, s, InsideLabel(w, k));
  }

  lemma InsideEffect(s: State, w: nat, f: nat, k: Kind)
    requires IsWorker(s, w) && PcOf(s, w) == InFiber(f, false) && !FromOutside(k)
    requires s.timers == map[] && s.slots == map[]
    ensures Enabled(s, InsideLabel(w, k)) && Registration(InsideLabel(w, k)) == Some(k)
    ensures var t := Apply(s, InsideLabel(w, k));
            && t == s.(workers := t.workers, timers := t.timers, slots := t.slots, next := t.next)
            && (t.timers != map[] || t.slots != map[])
            && |t.workers| == |s.workers| && PcOf(t, w).InFiber? && PcOf(t, w).f == f
            && t.workers == s.workers[w := s.workers[w].(pc := PcOf(t, w))]
  {
    var t := Apply(s, InsideLabel(w, k));
    assert k.ParkEvent? || k.CallEvent? ==> SlotKey(0, READ) in t.slots;
    assert !(k.ParkEvent? || k.CallEvent?) ==> 0 in t.timers;
  }

  /** The task yields to HOLD. */
  lemma Holds(n: nat, kinds: set<Kind>, s: State, w: nat, f: nat) returns (t: State)
    requires Reaches(n, kinds, s) && IsWorker(s, w) && PcOf(s, w).InFiber? && PcOf(s, w).f == f
    ensures Reaches(n, kinds, t)
    ensures t == Put(s, w, s.workers[w].(pc := Head)).(active := s.active - 1, fibers := s.fibers[f := HOLD])
  {
    t := Put(s, w, s.workers[w].(pc := Head)).(active := s.active - 1, fibers := s.fibers[f := HOLD]);
    GoLoop(n, kinds, s, w, YieldHold, t);
  }

  /** A worker at the loop head whose idle fiber has ended. */
  const ENDED := Worker(Head, None, TERM)

  /** A worker that holds fiber 0 in hand, READY, with the counter lowered. */
  function InHand(idle: FiberState): Worker { Worker(Requeue(0, false), None, idle) }

  /** After `stop`: fiber 0 is all there is, and the workers from 2 on have ended their idle fibers. */
  ghost predicate Stage(s: State, n: nat, a: Worker, b: Worker) {
    && s.io && s.stop && s.timers == map[] && s.slots == map[] && s.queue == [] && s.active == 0
    && s.fibers == map[0 := READY] && |s.workers| == n >= 2 && s.workers[0] == a && s.workers[1] == b
    && forall i :: 2 <= i < n ==> s.workers[i] == ENDED
  }

  /** Fiber 0 is submitted and worker 0 runs it. */
  lemma FirstRuns(n: nat, kinds: set<Kind>) returns (t: State)
    requires n > 0
    ensures Reaches(n, kinds, t)
    ensures t == Put(New(n), 0, Worker(InFiber(0, false), None, INIT)).(active := 1, fibers := map[0 := EXEC])
  {
    AtStart(n, kinds);
    var s1 := New(n).(fibers := map[0 := INIT], queue := [Entry(Resume(0), None)]);
    GoApi(n, kinds, New(n), Outside, SubmitFiber(0, None), s1);
    t := Takes(n, kinds, s1, 0, 0);
  }

  /** It yields after `stop`. */
  lemma FirstYield(n: nat, kinds: set<Kind>) returns (t: State)
    requires n > 0
    ensures Reaches(n, kinds, t) && t == Put(New(n), 0, InHand(INIT)).(stop := true, fibers := map[0 := READY])
  {
    var s := FirstRuns(n, kinds);
    Go(n, kinds, s, Stop);
    t := Yields(n, kinds, s.(stop := true), 0, 0);
  }

  /** While worker 0 has the fiber in hand, all others see nothing and end their idle fibers. */
  lemma OthersEnd(n: nat, kinds: set<Kind>) returns (t: State)
    requires n >= 2
    ensures Reaches(n, kinds, t) && Stage(t, n, InHand(INIT), ENDED)
  {
    var s := FirstYield(n, kinds);
    var s1 := ProbeAll(n, kinds, s, 1);
    t := DecideAll(n, kinds, s1, 1);
  }

  /** The fiber goes back and yields again on worker 1. */
  lemma YieldsAgain(n: nat, kinds: set<Kind>, s: State) returns (t: State)
    requires Reaches(n, kinds, s) && Stage(s, n, InHand(INIT), ENDED)
    ensures Reaches(n, kinds, t) && Stage(t, n, Worker(Head, None, INIT), InHand(TERM))
  {
    var s1 := Moves(n, kinds, s);
    t := Yields(n, kinds, s1, 1, 0);
  }

  /** The fiber moves from the hand of worker 0 to worker 1. */
  lemma Moves(n: nat, kinds: set<Kind>, s: State) returns (t: State)
    requires Reaches(n, kinds, s) && Stage(s, n, InHand(INIT), ENDED)
    ensures Reaches(n, kinds, t)
    ensures t == Put(Put(s, 0, Worker(Head, None, INIT)), 1, Worker(InFiber(0, false), None, TERM))
                 .(active := 1, fibers := map[0 := EXEC])
  {
    var s1 := Queues(n, kinds, s, 0, 0);
    t := Takes(n, kinds, s1, 1, 0);
  }

  /** Now worker 0 sees nothing and ends its idle fiber. */
  lemma FirstEnds(n: nat, kinds: set<Kind>, s: State) returns (t: State)
    requires Reaches(n, kinds, s) && Stage(s, n, InHand(INIT), ENDED)
    ensures Reaches(n, kinds, t) && Stage(t, n, ENDED, InHand(TERM))
  {
    var s1 := YieldsAgain(n, kinds, s);
    var s2 := Probes(n, kinds, s1, 0);
    t := Decides(n, kinds, s2, 0);
  }

  /** The fiber goes back once more, registers something and parks. */
  lemma ThenRegisters(n: nat, kinds: set<Kind>, s: State, k: Kind) returns (t: State)
    requires Reaches(n, kinds, s) && Stage(s, n, ENDED, InHand(TERM)) && k in kinds && !FromOutside(k)
    ensures Reaches(n, kinds, t) && (t.timers != map[] || t.slots != map[]) && t.queue == [] && |t.workers| == n
    ensures forall i :: 0 <= i < n ==> t.workers[i] == ENDED
  {
    var s1 := Queues(n, kinds, s, 1, 0);
    var s2 := Takes(n, kinds, s1, 1, 0);
    var s3 := RegistersInside(n, kinds, s2, 1, 0, k);
    t := Holds(n, kinds, s3, 1, 0);
  }

  /** Two workers or more: each ends its idle fiber while another has the fiber in hand, and what the fiber
      registers after that is left behind. */
  lemma LeftByTask(n: nat, kinds: set<Kind>, k: Kind)
    requires n >= 2 && k in kinds && !FromOutside(k)
    ensures !StopsClean(n, kinds)
  {
    var s1 := OthersEnd(n, kinds);
    var s2 := FirstEnds(n, kinds, s1);
    var s3 := ThenRegisters(n, kinds, s2, k);
    var s4 := LeaveAll(n, kinds, s3, 0);
    NotClean(n, kinds, s4);
  }
}
