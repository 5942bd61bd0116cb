/**
  The worker loop over whole runs: what its two counters count, and that no task is left behind when
  the last worker leaves `run`.
*/
module Shutdown {
  import opened Basics
  import opened ParkWake
  import opened Ownership
  import opened WakeTheorems
  import opened Callbacks

  // ---------------------------------------------------------------- the counters

  /** Between the pick of a task and the decrement after it. */
  predicate Busy(pc: Pc) { pc.Took? || pc.InFiber? || pc.InCall? || pc.Left? }

  /** Between the two updates of the idle counter. */
  predicate InIdlePart(pc: Pc) { pc.InIdle? || pc.Probe1? || pc.Probe2? || pc.LeavingIdle? }

  function CountBusy(ws: seq<Worker>): nat {
    if ws == [] then 0 else (if Busy(ws[0].pc) then 1 else 0) + CountBusy(ws[1..])
  }

  function CountIdle(ws: seq<Worker>): nat {
    if ws == [] then 0 else (if InIdlePart(ws[0].pc) then 1 else 0) + CountIdle(ws[1..])
  }

  ghost predicate Counted(s: State) {
    s.active == CountBusy(s.workers) && s.idling == CountIdle(s.workers)
  }

  lemma {:induction false} CountUpdate(ws: seq<Worker>, w: nat, wk: Worker)
    requires w < |ws|
    ensures CountBusy(ws[w := wk]) == CountBusy(ws) - (if Busy(ws[w].pc) then 1 else 0) + (if Busy(wk.pc) then 1 else 0)
    ensures CountIdle(ws[w := wk])
            == CountIdle(ws) - (if InIdlePart(ws[w].pc) then 1 else 0) + (if InIdlePart(wk.pc) then 1 else 0)
  {
    if w == 0 {
      assert ws[0 := wk][1..] == ws[1..];
    } else {
      CountUpdate(ws[1..], w - 1, wk);
      assert ws[w := wk][1..] == ws[1..][w - 1 := wk];
    }
  }

  function One(b: bool): int { if b then 1 else 0 }

  /** A turn of the loop changes each counter as its worker moves in or out of what it counts. */
  lemma LoopActive(s: State, w: nat, l: LoopStep)
    requires EnabledLoop(s, w, l)
    ensures ApplyLoop(s, w, l).active == s.active - One(Busy(PcOf(s, w))) + One(Busy(ApplyLoop(s, w, l).workers[w].pc))
  {
  }

  lemma LoopIdling(s: State, w: nat, l: LoopStep)
    requires EnabledLoop(s, w, l)
    ensures ApplyLoop(s, w, l).idling
            == s.idling - One(InIdlePart(PcOf(s, w))) + One(InIdlePart(ApplyLoop(s, w, l).workers[w].pc))
  {
  }

  lemma LoopFrame(s: State, w: nat, l: LoopStep)
    requires EnabledLoop(s, w, l)
    ensures w < |s.workers| == |ApplyLoop(s, w, l).workers|
    ensures ApplyLoop(s, w, l).workers == s.workers[w := ApplyLoop(s, w, l).workers[w]]
  {
  }

  lemma CountedLoop(s: State, w: nat, l: LoopStep)
    requires Counted(s) && EnabledLoop(s, w, l)
    ensures Counted(ApplyLoop(s, w, l))
  {
    LoopFrame(s, w, l);
    LoopActive(s, w, l);
    LoopIdling(s, w, l);
    CountUpdate(s.workers, w, ApplyLoop(s, w, l).workers[w]);
  }

  lemma CountedArm(s: State, w: nat, l: ArmStep)
    requires Counted(s) && EnabledArm(s, w, l)
    ensures Counted(ApplyArm(s, w, l))
  {
    var s' := ApplyArm(s, w, l);
    assert s'.workers == s.workers[w := s'.workers[w]];
    CountUpdate(s.workers, w, s'.workers[w]);
  }

  lemma CountedIdle(s: State, w: nat, l: IdleStep)
    requires Counted(s) && EnabledIdle(s, w, l)
    ensures Counted(ApplyIdle(s, w, l))
  {
    var s' := ApplyIdle(s, w, l);
    assert s'.workers == s.workers[w := s'.workers[w]];
    CountUpdate(s.workers, w, s'.workers[w]);
  }

  lemma ApiFrame(s: State, a: Actor, l: ApiStep)
    requires EnabledApi(s, a, l)
    ensures var s' := ApplyApi(s, a, l);
            s'.workers == s.workers && s'.stop == s.stop && s'.active == s.active && s'.idling == s.idling
  {
  }

  lemma CountedStep(s: State, l: Label)
    requires Counted(s) && Enabled(s, l)
    ensures Counted(Apply(s, l))
  {
    match l
    case Loop(w, x) => CountedLoop(s, w, x);
    case Arming(w, x) => CountedArm(s, w, x);
    case Api(a, x) => ApiFrame(s, a, x);
    case Idling(w, x) => CountedIdle(s, w, x);
    case Stop =>
  }

  lemma {:induction false} NoneCounted(ws: seq<Worker>)
    requires forall w :: 0 <= w < |ws| ==> ws[w].pc == Head
    ensures CountBusy(ws) == 0 && CountIdle(ws) == 0
  {
    if ws != [] { NoneCounted(ws[1..]); }
  }

  /** In every state of every run the active counter is the number of threads inside a picked task and
      the idle counter the number of threads inside the idle fiber. */
  lemma {:induction false} CountersExact(ss: seq<State>, ls: seq<Label>, i: nat)
    requires IsRun(ss, ls) && i < |ss|
    ensures ss[i].active == CountBusy(ss[i].workers) && ss[i].idling == CountIdle(ss[i].workers)
    decreases i
  {
    if i == 0 {
      NoneCounted(ss[0].workers);
    } else {
      CountersExact(ss, ls, i - 1);
      CountedStep(ss[i - 1], ls[i - 1]);
    }
  }

  // ---------------------------------------------------------------- leaving `run`

  /** After `stop` nothing is submitted from outside the pool. */
  predicate Quiet(s: State, l: Label) { !(s.stop && l.Api? && l.a.Outside?) }

  ghost predicate AliveAt(s: State, w: nat) { IsWorker(s, w) && !PcOf(s, w).Gone? }

  ghost predicate Unpinned(s: State) {
    exists i :: 0 <= i < |s.queue| && s.queue[i].pin.None?
  }

  /** An idle fiber ends only after `stop`; as long as an unpinned entry is queued, a worker is left. */
  ghost predicate Attended(s: State) {
    && |s.workers| > 0
    && (forall w :: 0 <= w < |s.workers| && s.workers[w].idle == TERM ==> s.stop)
    && (Unpinned(s) ==> exists w :: AliveAt(s, w))
  }

  lemma AttendedLoop(s: State, w: nat, l: LoopStep)
    requires Inv(s) && Attended(s) && EnabledLoop(s, w, l) && !l.Leave?
    ensures Attended(ApplyLoop(s, w, l))
  {
    assert AliveAt(ApplyLoop(s, w, l), w);
  }

  /** A worker that leaves has seen no entry it may run: what is left unpinned is being executed by
      another worker. */
  lemma AttendedLeave(s: State, w: nat)
    requires Inv(s) && Attended(s) && CanLeave(s, w)
    ensures Attended(DoLeave(s, w))
  {
    if Unpinned(s) {
      var i :| 0 <= i < |s.queue| && s.queue[i].pin.None?;
      assert !Eligible(s, w, s.queue[i]);
      var f := s.queue[i].item.f;
      var v :| RunsOn(s, v, f);
      assert AliveAt(DoLeave(s, w), v);
    }
  }

  lemma AttendedArm(s: State, w: nat, l: ArmStep)
    requires Attended(s) && EnabledArm(s, w, l)
    ensures Attended(ApplyArm(s, w, l))
  {
    assert AliveAt(ApplyArm(s, w, l), w);
  }

  lemma AttendedIdle(s: State, w: nat, l: IdleStep)
    requires Attended(s) && EnabledIdle(s, w, l)
    ensures Attended(ApplyIdle(s, w, l))
  {
    assert AliveAt(ApplyIdle(s, w, l), w);
  }

  lemma AttendedApi(s: State, a: Actor, l: ApiStep)
    requires Inv(s) && Attended(s) && EnabledApi(s, a, l) && (a.Outside? ==> !s.stop)
    ensures Attended(ApplyApi(s, a, l))
  {
    ApiFrame(s, a, l);
    var w := if a.OnWorker? then a.w else 0;
    assert WorkerOk(s, s.workers[w]);
    assert AliveAt(ApplyApi(s, a, l), w) by { assert AliveAt(s, w); }
  }

  lemma AttendedStep(s: State, l: Label)
    requires Inv(s) && Attended(s) && Enabled(s, l) && Quiet(s, l)
    ensures Attended(Apply(s, l))
  {
    match l
    case Loop(w, x) => if x.Leave? { AttendedLeave(s, w); } else { AttendedLoop(s, w, x); }
    case Arming(w, x) => AttendedArm(s, w, x);
    case Api(a, x) => AttendedApi(s, a, x);
    case Idling(w, x) => AttendedIdle(s, w, x);
    case Stop =>
      if Unpinned(Apply(s, l)) {
        assert Unpinned(s);
        var w :| AliveAt(s, w);
        assert AliveAt(Apply(s, l), w);
      }
  }

  lemma {:induction false} AttendedRun(ss: seq<State>, ls: seq<Label>, i: nat)
    requires IsRun(ss, ls) && i < |ss| && (forall k :: 0 <= k < i ==> Quiet(ss[k], ls[k]))
    ensures Attended(ss[i])
    decreases i
  {
    if i > 0 {
      AttendedRun(ss, ls, i - 1);
      InvRun(ss, ls, i - 1);
      AttendedStep(ss[i - 1], ls[i - 1]);
    }
  }

  ghost predicate AllGone(s: State) {
    forall w :: 0 <= w < |s.workers| ==> s.workers[w].pc == Gone
  }

  /** No task is lost at shutdown: once the last worker has left `run`, every queue entry still there
      is pinned to a thread, no fiber is in EXEC, and every callback ever submitted was started exactly
      once, was dropped, or still waits in an event slot, a timer or a pinned entry. */
  lemma NoTaskLost(ss: seq<State>, ls: seq<Label>, i: nat)
    requires IsRun(ss, ls) && i < |ss| && (forall k :: 0 <= k < i ==> Quiet(ss[k], ls[k]))
    requires AllGone(ss[i])
    ensures forall j :: 0 <= j < |ss[i].queue| ==> ss[i].queue[j].pin.Some?
    ensures forall f :: f in ss[i].fibers ==> ss[i].fibers[f] != EXEC
    ensures forall id: nat :: id < ss[i].next ==>
              || (id in ss[i].started && multiset(ss[i].started)[id] == 1)
              || id in ss[i].dropped
              || exists p :: At(ss[i], p) == Some(OfCall(id)) && (p.SlotAt? || p.TimerAt? || p.QueueAt?)
  {
    var s := ss[i];
    AttendedRun(ss, ls, i);
    InvRun(ss, ls, i);
    forall j | 0 <= j < |s.queue| ensures s.queue[j].pin.Some? {
      if s.queue[j].pin.None? { assert Unpinned(s); }
    }
    forall id: nat | id < s.next && id !in s.started && id !in s.dropped
      ensures exists p :: At(s, p) == Some(OfCall(id)) && (p.SlotAt? || p.TimerAt? || p.QueueAt?)
    {
      CallbackExactlyOnce(ss, ls, i, id);
      var p :| At(s, p) == Some(OfCall(id));
    }
    forall id: nat | id < s.next && id in s.started ensures multiset(s.started)[id] == 1 {
      CallbackExactlyOnce(ss, ls, i, id);
    }
  }
}
