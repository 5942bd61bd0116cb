/**
  What the workers can always do, in which state a parked fiber is, and how a sleeper comes back.
*/
module Progress {
  import opened Basics
  import opened ParkWake
  import opened Ownership
  import opened OwnershipProof
  import opened WakeTheorems
  import opened Shutdown

  // ---------------------------------------------------------------- what may be kept where

  /** A worker inside the callback of a sleep timer has not armed itself; only callbacks, of users or of sleep
      timers, are in a batch. */
  predicate PcKind(pc: Pc) {
    && (pc.InCall? && pc.wake.Some? ==> !pc.armed)
    && (pc.InIdle? ==> forall i :: 0 <= i < |pc.batch| ==> !pc.batch[i].Resume?)
  }

  /** Event slots hold fibers and callbacks of users, timers hold callbacks. */
  ghost predicate KindsOk(s: State) {
    && (forall k :: k in s.slots ==> !s.slots[k].WakeCall?)
    && (forall t :: t in s.timers && s.timers[t].Once? ==> !s.timers[t].item.Resume?)
    && (forall w :: 0 <= w < |s.workers| ==> PcKind(s.workers[w].pc))
  }

  lemma KindsLoop(s: State, w: nat, x: LoopStep)
    requires KindsOk(s) && EnabledLoop(s, w, x)
    ensures KindsOk(ApplyLoop(s, w, x))
  {
  }

  lemma KindsArm(s: State, w: nat, x: ArmStep)
    requires KindsOk(s) && EnabledArm(s, w, x)
    ensures KindsOk(ApplyArm(s, w, x))
  {
    assert PcKind(s.workers[w].pc);
  }

  lemma KindsApi(s: State, a: Actor, x: ApiStep)
    requires KindsOk(s) && EnabledApi(s, a, x)
    ensures KindsOk(ApplyApi(s, a, x))
  {
    KindsSlots(s, a, x);
    KindsTimers(s, a, x);
    ApiFrame(s, a, x);
  }

  lemma KindsSlots(s: State, a: Actor, x: ApiStep)
    requires EnabledApi(s, a, x)
    ensures forall k :: k in ApplyApi(s, a, x).slots ==>
              (k in s.slots && ApplyApi(s, a, x).slots[k] == s.slots[k]) || ApplyApi(s, a, x).slots[k].Call?
  {
  }

  lemma KindsTimers(s: State, a: Actor, x: ApiStep)
    requires EnabledApi(s, a, x)
    ensures forall t :: t in ApplyApi(s, a, x).timers ==>
              || (t in s.timers && ApplyApi(s, a, x).timers[t] == s.timers[t])
              || ApplyApi(s, a, x).timers[t].Every? || ApplyApi(s, a, x).timers[t].item.Call?
  {
  }

  lemma KindsIdle(s: State, w: nat, x: IdleStep)
    requires KindsOk(s) && EnabledIdle(s, w, x)
    ensures KindsOk(ApplyIdle(s, w, x))
  {
    assert PcKind(s.workers[w].pc);
    if x.Dispatch? { KindsTrigger(s, x.fd); }
  }

  lemma KindsTrigger(s: State, fd: nat)
    requires KindsOk(s)
    ensures KindsOk(TriggerFd(s, fd))
  {
  }

  lemma KindsStep(s: State, l: Label)
    requires KindsOk(s) && Enabled(s, l)
    ensures KindsOk(Apply(s, l))
  {
    match l
    case Loop(w, x) => KindsLoop(s, w, x);
    case Arming(w, x) => KindsArm(s, w, x);
    case Api(a, x) => KindsApi(s, a, x);
    case Idling(w, x) => KindsIdle(s, w, x);
    case Stop =>
  }

  lemma {:induction false} KindsRun(ss: seq<State>, ls: seq<Label>, i: nat)
    requires IsRun(ss, ls) && i < |ss|
    ensures KindsOk(ss[i])
    decreases i
  {
    if i > 0 {
      KindsRun(ss, ls, i - 1);
      KindsStep(ss[i - 1], ls[i - 1]);
    }
  }

  // ---------------------------------------------------------------- no worker is stuck

  lemma {:induction false} Above(keys: set<nat>) returns (g: nat)
    ensures forall k :: k in keys ==> k < g
    decreases |keys|
  {
    if keys == {} {
      g := 0;
    } else {
      var k :| k in keys;
      var h := Above(keys - {k});
      g := Max(h, k + 1);
      assert forall j :: j in keys ==> j == k || j in keys - {k};
    }
  }

  predicate Of(l: Label, w: nat) { (l.Loop? || l.Idling?) && l.w == w }

  /** The step a worker with a task in hand can take. */
  lemma CanStart(s: State, w: nat) returns (x: LoopStep)
    requires Inv(s) && IsWorker(s, w) && PcOf(s, w).Took?
    ensures EnabledLoop(s, w, x) && (x.SwitchIn? || x.ReuseCall? || x.NewCall?)
    ensures x.SwitchIn? <==> PcOf(s, w).item.Resume?
  {
    assert WorkerOk(s, s.workers[w]);
    if PcOf(s, w).item.Resume? {
      x := SwitchIn;
    } else if s.workers[w].cb.Some? {
      x := ReuseCall;
    } else {
      var g := Above(s.fibers.Keys);
      assert g !in s.fibers;
      x := NewCall(g);
    }
  }

  /** At the loop head a worker can take its next step, whatever the queue holds. */
  lemma {:induction false} CanScan(s: State, w: nat, i: nat) returns (x: LoopStep)
    requires IsWorker(s, w) && PcOf(s, w).Head? && i <= |s.queue|
    requires forall j :: 0 <= j < i ==> !Eligible(s, w, s.queue[j])
    ensures EnabledLoop(s, w, x)
    decreases |s.queue| - i
  {
    if i == |s.queue| {
      x := if s.workers[w].idle == TERM then Leave else EnterIdle;
    } else if Eligible(s, w, s.queue[i]) {
      x := Pick(i);
    } else {
      x := CanScan(s, w, i + 1);
    }
  }

  lemma CanFinish(s: State, w: nat) returns (x: LoopStep)
    requires Inv(s) && KindsOk(s) && IsWorker(s, w)
    requires PcOf(s, w).InFiber? || PcOf(s, w).InCall? || PcOf(s, w).Left? || PcOf(s, w).Requeue?
    ensures EnabledLoop(s, w, x)
  {
    assert WorkerOk(s, s.workers[w]) && PcKind(s.workers[w].pc);
    match PcOf(s, w)
    case InFiber(_, _) => x := YieldHold;
    case InCall(_, wake, _) => x := if wake.Some? then FireWake else YieldHold;
    case Left(f, call) => x := if s.fibers[f] == READY then LowerReady else if call then LowerCall else LowerDone;
    case Requeue(_, _) => x := PutBack;
  }

  lemma CanMove(s: State, w: nat) returns (l: Label)
    requires Inv(s) && KindsOk(s) && IsWorker(s, w) && !PcOf(s, w).Gone?
    ensures Of(l, w) && Enabled(s, l)
  {
    var pc := PcOf(s, w);
    if pc.Head? {
      var zero := 0;
      var x := CanScan(s, w, zero);
      l := Loop(w, x);
    } else if pc.Took? {
      var x := CanStart(s, w);
      l := Loop(w, x);
    } else if pc.InIdle? {
      l := Idling(w, Flush);
    } else if pc.Probe1? || pc.Probe2? {
      l := Idling(w, IdleOut);
    } else if pc.LeavingIdle? {
      l := Idling(w, LeaveIdle);
    } else {
      var x := CanFinish(s, w);
      l := Loop(w, x);
    }
  }

  /** No worker is ever stuck: in every state of every run each worker that has not left `run` has a step of its own;
      with a fiber in hand it can switch to it, with a callback in hand it can start it. */
  lemma NeverStuck(ss: seq<State>, ls: seq<Label>, i: nat, w: nat)
    requires IsRun(ss, ls) && i < |ss| && IsWorker(ss[i], w) && !PcOf(ss[i], w).Gone?
    ensures exists l :: Of(l, w) && Enabled(ss[i], l)
    ensures PcOf(ss[i], w).Took? ==>
              exists x :: EnabledLoop(ss[i], w, x)
                          && if PcOf(ss[i], w).item.Resume? then x.SwitchIn? else x.ReuseCall? || x.NewCall?
  {
    InvRun(ss, ls, i);
    KindsRun(ss, ls, i);
    var l := CanMove(ss[i], w);
    if PcOf(ss[i], w).Took? { var x := CanStart(ss[i], w); }
  }

  // ---------------------------------------------------------------- a sleeper comes back

  predicate Waking(s: State, w: nat, f: nat) {
    IsWorker(s, w) && PcOf(s, w).InCall? && PcOf(s, w).wake == Some(f)
  }

  /** The last entry of the queue resumes the fiber, on any thread. */
  predicate JustQueued(s: State, f: nat) {
    s.queue != [] && s.queue[|s.queue| - 1] == Entry(Resume(f), None)
  }

  lemma WakingLoop(s: State, v: nat, x: LoopStep, w: nat, f: nat)
    requires EnabledLoop(s, v, x) && Waking(s, w, f)
    ensures if v == w then x.FireWake? && JustQueued(ApplyLoop(s, v, x), f) else Waking(ApplyLoop(s, v, x), w, f)
  {
  }

  lemma WakingArm(s: State, v: nat, x: ArmStep, w: nat, f: nat)
    requires EnabledArm(s, v, x) && Waking(s, w, f)
    ensures Waking(ApplyArm(s, v, x), w, f)
  {
  }

  lemma WakingApi(s: State, a: Actor, x: ApiStep, w: nat, f: nat)
    requires EnabledApi(s, a, x) && Waking(s, w, f)
    ensures Waking(ApplyApi(s, a, x), w, f)
  {
  }

  lemma WakingIdle(s: State, v: nat, x: IdleStep, w: nat, f: nat)
    requires EnabledIdle(s, v, x) && Waking(s, w, f)
    ensures Waking(ApplyIdle(s, v, x), w, f)
  {
  }

  /** The callback of a sleep timer does one thing: the queue gets an entry that resumes the sleeper. */
  lemma WakingStep(s: State, l: Label, w: nat, f: nat)
    requires Enabled(s, l) && Waking(s, w, f)
    ensures if l == Loop(w, FireWake) then JustQueued(Apply(s, l), f) else Waking(Apply(s, l), w, f)
  {
    match l
    case Loop(v, x) => WakingLoop(s, v, x, w, f);
    case Arming(v, x) => WakingArm(s, v, x, w, f);
    case Api(a, x) => WakingApi(s, a, x, w, f);
    case Idling(v, x) => WakingIdle(s, v, x, w, f);
    case Stop =>
  }

  /** Starting the callback of a sleep timer is beginning to wake its sleeper. */
  lemma WakeCallBegins(s: State, w: nat, x: LoopStep, f: nat)
    requires EnabledLoop(s, w, x) && PcOf(s, w) == Took(WakeCall(f))
    ensures Waking(ApplyLoop(s, w, x), w, f)
  {
  }

  lemma SleeperBegins(ss: seq<State>, ls: seq<Label>, k: nat, w: nat, f: nat)
    requires IsRun(ss, ls) && k < |ls| && Of(ls[k], w) && IsWorker(ss[k], w) && PcOf(ss[k], w) == Took(WakeCall(f))
    ensures Waking(ss[k + 1], w, f)
  {
    assert Enabled(ss[k], ls[k]) && ss[k + 1] == Apply(ss[k], ls[k]);
    match ls[k]
    case Loop(_, x) => WakeCallBegins(ss[k], w, x, f);
    case Idling(_, x) =>
  }

  lemma WakingIn(ss: seq<State>, ls: seq<Label>, k: nat, w: nat, f: nat)
    requires IsRun(ss, ls) && k < |ls| && Waking(ss[k], w, f)
    ensures if ls[k] == Loop(w, FireWake) then JustQueued(ss[k + 1], f) else Waking(ss[k + 1], w, f)
  {
    WakingStep(ss[k], ls[k], w, f);
  }

  /** A sleeper whose timer callback was started is put in the queue, to be resumed, by the next step of that worker;
      until then the worker is inside that callback. */
  lemma {:induction false} SleeperQueued(ss: seq<State>, ls: seq<Label>, j: nat, i: nat, w: nat, f: nat)
    requires IsRun(ss, ls) && j < i < |ss| && Of(ls[j], w) && IsWorker(ss[j], w) && PcOf(ss[j], w) == Took(WakeCall(f))
    requires forall k :: j < k < i ==> ls[k] != Loop(w, FireWake)
    ensures Waking(ss[i], w, f)
    ensures i < |ls| && ls[i] == Loop(w, FireWake) ==> JustQueued(ss[i + 1], f)
    decreases i
  {
    if i == j + 1 {
      SleeperBegins(ss, ls, j, w, f);
    } else {
      SleeperQueued(ss, ls, j, i - 1, w, f);
      WakingIn(ss, ls, i - 1, w, f);
    }
    if i < |ls| { WakingIn(ss, ls, i, w, f); }
  }

  // ---------------------------------------------------------------- parked fibers

  /** Where a parked fiber waits for its wake-up. */
  predicate Parking(p: Pos) { p.SlotAt? || p.WaiterAt? || p.TimerAt? || p.BatchAt? }

  predicate AwayOrRunning(st: FiberState) { st.HOLD? || st.EXEC? }

  ghost predicate ParkedOk(s: State) {
    forall p, f :: Parking(p) && At(s, p) == Some(OfFiber(f)) ==> f in s.fibers && AwayOrRunning(s.fibers[f])
  }

  /** The fiber a step of the loop takes out of HOLD and EXEC. */
  function Changes(s: State, w: nat, x: LoopStep): Option<nat>
    requires EnabledLoop(s, w, x)
  {
    if x.SwitchOut? then Running(PcOf(s, w)) else if x.LowerCall? then Some(PcOf(s, w).f) else None
  }

  lemma LoopStates(s: State, w: nat, x: LoopStep, f: nat)
    requires EnabledLoop(s, w, x) && f in s.fibers && Some(f) != Changes(s, w, x)
    ensures f in ApplyLoop(s, w, x).fibers
    ensures ApplyLoop(s, w, x).fibers[f] == s.fibers[f] || AwayOrRunning(ApplyLoop(s, w, x).fibers[f])
  {
  }

  lemma LoopParking(s: State, w: nat, x: LoopStep, p: Pos)
    requires EnabledLoop(s, w, x) && Parking(p) && At(ApplyLoop(s, w, x), p).Some?
    ensures At(s, p) == At(ApplyLoop(s, w, x), p)
  {
  }

  lemma ChangedNotParked(s: State, w: nat, x: LoopStep, p: Pos)
    requires Inv(s) && EnabledLoop(s, w, x) && Changes(s, w, x).Some? && Parking(p)
    ensures At(s, p) != Some(OfFiber(Changes(s, w, x).value))
  {
    var q := if x.SwitchOut? then BodyAt(w) else HandAt(w);
    assert At(s, q) == Some(OfFiber(Changes(s, w, x).value));
  }

  lemma ParkedLoop(s: State, w: nat, x: LoopStep)
    requires Inv(s) && ParkedOk(s) && EnabledLoop(s, w, x)
    ensures ParkedOk(ApplyLoop(s, w, x))
  {
    var s' := ApplyLoop(s, w, x);
    forall p, f | Parking(p) && At(s', p) == Some(OfFiber(f)) ensures f in s'.fibers && AwayOrRunning(s'.fibers[f]) {
      LoopParking(s, w, x, p);
      if Changes(s, w, x).Some? { ChangedNotParked(s, w, x, p); }
      LoopStates(s, w, x, f);
    }
  }

  lemma ArmParking(s: State, w: nat, x: ArmStep, p: Pos)
    requires EnabledArm(s, w, x) && Parking(p) && At(ApplyArm(s, w, x), p).Some?
    ensures At(ApplyArm(s, w, x), p) == At(s, p)
            || At(ApplyArm(s, w, x), p) == Some(OfFiber(Running(PcOf(s, w)).value))
    ensures ApplyArm(s, w, x).fibers == s.fibers
  {
  }

  lemma ParkedArm(s: State, w: nat, x: ArmStep)
    requires Inv(s) && ParkedOk(s) && EnabledArm(s, w, x)
    ensures ParkedOk(ApplyArm(s, w, x))
  {
    var s' := ApplyArm(s, w, x);
    assert WorkerOk(s, s.workers[w]);
    forall p, f | Parking(p) && At(s', p) == Some(OfFiber(f)) ensures f in s'.fibers && AwayOrRunning(s'.fibers[f]) {
      ArmParking(s, w, x, p);
    }
  }

  /** Where the token at `p` was before a call. */
  function BeforeApi(x: ApiStep, p: Pos): Pos {
    if x.NotifyWake? && p.WaiterAt? && p.m == x.m then WaiterAt(p.m, p.i + 1) else p
  }

  lemma ApiParking(s: State, a: Actor, x: ApiStep, p: Pos)
    requires EnabledApi(s, a, x) && Parking(p) && At(ApplyApi(s, a, x), p).Some?
    ensures At(s, BeforeApi(x, p)) == At(ApplyApi(s, a, x), p) || At(ApplyApi(s, a, x), p).value.OfCall?
  {
    match p
    case SlotAt(k) => KindsSlots(s, a, x);
    case TimerAt(t) => KindsTimers(s, a, x);
    case WaiterAt(m, i) => WaitersApi(s, a, x, m, i);
    case BatchAt(w, _) => ApiFrame(s, a, x);
  }

  lemma WaitersApi(s: State, a: Actor, x: ApiStep, m: nat, i: nat)
    requires EnabledApi(s, a, x) && m in ApplyApi(s, a, x).sems && i < |ApplyApi(s, a, x).sems[m].waiters|
    ensures var j := if x.NotifyWake? && m == x.m then i + 1 else i;
            m in s.sems && j < |s.sems[m].waiters| && s.sems[m].waiters[j] == ApplyApi(s, a, x).sems[m].waiters[i]
  {
  }

  lemma ApiStates(s: State, a: Actor, x: ApiStep, f: nat)
    requires EnabledApi(s, a, x) && f in s.fibers
    ensures f in ApplyApi(s, a, x).fibers && ApplyApi(s, a, x).fibers[f] == s.fibers[f]
  {
  }

  lemma TriggerParking(s: State, fd: nat, p: Pos)
    requires Parking(p) && At(TriggerFd(s, fd), p).Some?
    ensures At(s, p) == At(TriggerFd(s, fd), p)
  {
  }

  lemma ParkedApi(s: State, a: Actor, x: ApiStep)
    requires ParkedOk(s) && EnabledApi(s, a, x)
    ensures ParkedOk(ApplyApi(s, a, x))
  {
    var s' := ApplyApi(s, a, x);
    forall p, f | Parking(p) && At(s', p) == Some(OfFiber(f)) ensures f in s'.fibers && AwayOrRunning(s'.fibers[f]) {
      ApiParking(s, a, x, p);
      ApiStates(s, a, x, f);
      assert Parking(BeforeApi(x, p));
    }
  }

  function BeforeIdle(s: State, w: nat, x: IdleStep, p: Pos): Pos
    requires EnabledIdle(s, w, x)
  {
    if x.Collect? && p == BatchAt(w, |PcOf(s, w).batch|) then TimerAt(x.t) else p
  }

  lemma IdleParking(s: State, w: nat, x: IdleStep, p: Pos)
    requires EnabledIdle(s, w, x) && Parking(p) && At(ApplyIdle(s, w, x), p).Some?
    ensures At(s, BeforeIdle(s, w, x, p)) == At(ApplyIdle(s, w, x), p) || At(ApplyIdle(s, w, x), p).value.OfCall?
    ensures ApplyIdle(s, w, x).fibers == s.fibers
  {
    if x.Dispatch? { TriggerParking(s, x.fd, p); }
  }

  lemma ParkedIdle(s: State, w: nat, x: IdleStep)
    requires ParkedOk(s) && EnabledIdle(s, w, x)
    ensures ParkedOk(ApplyIdle(s, w, x))
  {
    var s' := ApplyIdle(s, w, x);
    forall p, f | Parking(p) && At(s', p) == Some(OfFiber(f)) ensures f in s'.fibers && AwayOrRunning(s'.fibers[f]) {
      IdleParking(s, w, x, p);
      assert Parking(BeforeIdle(s, w, x, p));
    }
  }

  lemma ParkedStep(s: State, l: Label)
    requires Inv(s) && ParkedOk(s) && Enabled(s, l)
    ensures ParkedOk(Apply(s, l))
  {
    match l
    case Loop(w, x) => ParkedLoop(s, w, x);
    case Arming(w, x) => ParkedArm(s, w, x);
    case Api(a, x) => ParkedApi(s, a, x);
    case Idling(w, x) => ParkedIdle(s, w, x);
    case Stop => assert forall p :: At(Apply(s, l), p) == At(s, p);
  }

  lemma {:induction false} ParkedRun(ss: seq<State>, ls: seq<Label>, i: nat)
    requires IsRun(ss, ls) && i < |ss|
    ensures ParkedOk(ss[i])
    decreases i
  {
    if i > 0 {
      ParkedRun(ss, ls, i - 1);
      InvRun(ss, ls, i - 1);
      ParkedStep(ss[i - 1], ls[i - 1]);
    }
  }

  /** A fiber that waits in an event slot, a waiter list, a timer or a batch of expired timers is in HOLD, or it still
      runs and has handed out its wake-up, so that it yields next. */
  lemma ParkedFibers(ss: seq<State>, ls: seq<Label>, i: nat, p: Pos, f: nat)
    requires IsRun(ss, ls) && i < |ss| && Parking(p) && At(ss[i], p) == Some(OfFiber(f))
    ensures f in ss[i].fibers
    ensures ss[i].fibers[f] == HOLD || exists w :: RunsOn(ss[i], w, f) && PcOf(ss[i], w).armed
  {
    var s := ss[i];
    ParkedRun(ss, ls, i);
    InvRun(ss, ls, i);
    if s.fibers[f] == EXEC {
      var w :| RunsOn(s, w, f);
      assert PcOf(s, w).armed || At(s, BodyAt(w)) == Some(OfFiber(f));
    }
  }
}
