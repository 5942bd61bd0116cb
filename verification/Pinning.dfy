/**
  Which worker runs which task: the queue scan of `run`, and tasks submitted to one thread, over whole runs.
*/
module Pinning {
  import opened Basics
  import opened ParkWake
  import opened Ownership
  import opened OwnershipProof
  import opened WakeTheorems
  import opened Callbacks
  import opened Shutdown

  // ---------------------------------------------------------------- the scan

  /** A worker that finds an entry for any thread, or for its own, whose fiber is not executing, does not enter its
      idle fiber, does not leave, and takes no later entry. */
  lemma ScanMissesNothing(s: State, w: nat, x: LoopStep, q: nat)
    requires EnabledLoop(s, w, x) && PcOf(s, w).Head? && q < |s.queue|
    requires s.queue[q].pin == None || s.queue[q].pin == Some(w)
    requires forall f :: s.queue[q].item == Resume(f) ==> f !in s.fibers || s.fibers[f] != EXEC
    ensures x.Pick? && x.i <= q
  {
    assert x.Pick? || x.EnterIdle? || x.Leave?;
    assert !NothingFor(s, w) by { assert Eligible(s, w, s.queue[q]); }
  }

  /** What a worker takes is for any thread or for its own, is not a fiber that is executing, and leaves the rest of
      the queue in order. */
  lemma ScanTakesOwn(s: State, w: nat, i: nat)
    requires EnabledLoop(s, w, Pick(i))
    ensures s.queue[i].pin == None || s.queue[i].pin == Some(w)
    ensures forall f :: s.queue[i].item == Resume(f) && f in s.fibers ==> s.fibers[f] != EXEC
    ensures PcOf(ApplyLoop(s, w, Pick(i)), w) == Took(s.queue[i].item)
    ensures ApplyLoop(s, w, Pick(i)).queue == s.queue[..i] + s.queue[i + 1..]
  {
  }

  /** The part of the queue that was there before a step. */
  function Remaining(s: State, l: Label): seq<Entry>
    requires Enabled(s, l)
  {
    if l.Loop? && l.loop.Pick? then s.queue[..l.loop.i] + s.queue[l.loop.i + 1..] else s.queue
  }

  lemma QueueLoop(s: State, w: nat, x: LoopStep)
    requires EnabledLoop(s, w, x)
    ensures Remaining(s, Loop(w, x)) <= ApplyLoop(s, w, x).queue
    ensures forall q :: |Remaining(s, Loop(w, x))| <= q < |ApplyLoop(s, w, x).queue| ==>
              ApplyLoop(s, w, x).queue[q].pin == None
  {
  }

  lemma QueueArm(s: State, w: nat, x: ArmStep)
    requires EnabledArm(s, w, x)
    ensures s.queue <= ApplyArm(s, w, x).queue
    ensures forall q :: |s.queue| <= q < |ApplyArm(s, w, x).queue| ==>
              Submitted(s, Arming(w, x)) == Some(ApplyArm(s, w, x).queue[q])
  {
  }

  lemma QueueTrigger(s: State, fd: nat)
    ensures s.queue <= TriggerFd(s, fd).queue
    ensures forall q :: |s.queue| <= q < |TriggerFd(s, fd).queue| ==> TriggerFd(s, fd).queue[q].pin == None
  {
  }

  lemma QueueApi(s: State, a: Actor, x: ApiStep)
    requires EnabledApi(s, a, x)
    ensures s.queue <= ApplyApi(s, a, x).queue
    ensures forall q :: |s.queue| <= q < |ApplyApi(s, a, x).queue| ==>
              ApplyApi(s, a, x).queue[q].pin == None || Submitted(s, Api(a, x)) == Some(ApplyApi(s, a, x).queue[q])
  {
    match x
    case CancelAll(fd) => QueueTrigger(s, fd);
    case _ =>
  }

  lemma QueueIdle(s: State, w: nat, x: IdleStep)
    requires EnabledIdle(s, w, x)
    ensures s.queue <= ApplyIdle(s, w, x).queue
    ensures forall q :: |s.queue| <= q < |ApplyIdle(s, w, x).queue| ==> ApplyIdle(s, w, x).queue[q].pin == None
  {
    if x.Dispatch? { QueueTrigger(s, x.fd); }
  }

  /** First in, first out: a step takes at most the one entry that is picked, and adds only at the back; what it adds
      has no pin unless it is a submission with that pin. */
  lemma QueueStep(s: State, l: Label)
    requires Enabled(s, l)
    ensures Remaining(s, l) <= Apply(s, l).queue
    ensures forall q :: |Remaining(s, l)| <= q < |Apply(s, l).queue| ==>
              Apply(s, l).queue[q].pin == None || Submitted(s, l) == Some(Apply(s, l).queue[q])
  {
    match l
    case Loop(w, x) => QueueLoop(s, w, x);
    case Arming(w, x) => QueueArm(s, w, x);
    case Api(a, x) => QueueApi(s, a, x);
    case Idling(w, x) => QueueIdle(s, w, x);
    case Stop =>
  }

  // ---------------------------------------------------------------- tasks on their way to a worker

  /** What a step submits by `schedule` or `switchTo`, and for which thread. */
  function Submitted(s: State, l: Label): Option<Entry>
    requires Enabled(s, l)
  {
    match l
    case Api(_, SubmitCall(pin)) => Some(Entry(Call(s.next), pin))
    case Api(_, SubmitFiber(f, pin)) => Some(Entry(Resume(f), pin))
    case Api(_, WakeParked(f, pin)) => Some(Entry(Resume(f), pin))
    case Arming(w, ArmSwitch(pin)) => Some(Entry(Resume(Running(PcOf(s, w)).value), pin))
    case _ => None
  }

  /** A thread that the pin admits. */
  predicate Allowed(pin: Option<nat>, w: nat) { pin == None || pin == Some(w) }

  predicate Holds(s: State, w: nat, item: Item) { IsWorker(s, w) && PcOf(s, w) == Took(item) }

  /** In a queue entry that still has its pin, or in the hand of a worker it is meant for. */
  ghost predicate Waits(s: State, e: Entry) {
    e in s.queue || exists w :: Holds(s, w, e.item) && Allowed(e.pin, w)
  }

  /** Worker `w` switches to the fiber, or to its callback fiber with the callback. */
  predicate Starts(s: State, l: Label, w: nat, item: Item) {
    Holds(s, w, item) && l.Loop? && l.w == w && (l.loop.SwitchIn? || l.loop.ReuseCall? || l.loop.NewCall?)
  }

  /** A start is what it says: the fiber runs on that worker, or the callback is recorded as started. */
  lemma StartRuns(s: State, l: Label, w: nat, item: Item)
    requires Enabled(s, l) && Starts(s, l, w, item)
    ensures item.Resume? ==> RunsOn(Apply(s, l), w, item.f)
    ensures item.Call? ==> Apply(s, l).started == s.started + [item.id] && PcOf(Apply(s, l), w).InCall?
  {
  }

  /** A worker with a task in hand can only start it; the others do not touch it. */
  lemma HoldsStep(s: State, l: Label, w: nat, item: Item)
    requires Inv(s) && Enabled(s, l) && Holds(s, w, item)
    ensures Holds(Apply(s, l), w, item) || Starts(s, l, w, item)
  {
    match l
    case Loop(v, x) => HoldsLoop(s, v, x, w, item);
    case Arming(v, x) => HoldsArm(s, v, x, w, item);
    case Api(a, x) => ApiFrame(s, a, x);
    case Idling(v, x) => HoldsIdle(s, v, x, w, item);
    case Stop =>
  }

  lemma HoldsLoop(s: State, v: nat, x: LoopStep, w: nat, item: Item)
    requires WorkersOk(s) && EnabledLoop(s, v, x) && Holds(s, w, item)
    ensures Holds(ApplyLoop(s, v, x), w, item) || Starts(s, Loop(v, x), w, item)
  {
    assert WorkerOk(s, s.workers[w]);
  }

  lemma HoldsArm(s: State, v: nat, x: ArmStep, w: nat, item: Item)
    requires EnabledArm(s, v, x) && Holds(s, w, item)
    ensures Holds(ApplyArm(s, v, x), w, item)
  {
  }

  lemma HoldsIdle(s: State, v: nat, x: IdleStep, w: nat, item: Item)
    requires EnabledIdle(s, v, x) && Holds(s, w, item)
    ensures Holds(ApplyIdle(s, v, x), w, item)
  {
  }

  lemma QueuedStep(s: State, l: Label, e: Entry)
    requires Enabled(s, l) && e in s.queue
    ensures e in Apply(s, l).queue || (l.Loop? && Holds(Apply(s, l), l.w, e.item) && Allowed(e.pin, l.w))
  {
    QueueStep(s, l);
    var q :| 0 <= q < |s.queue| && s.queue[q] == e;
    if l.Loop? && l.loop == Pick(q) {
      ScanTakesOwn(s, l.w, q);
    } else {
      assert e in Remaining(s, l);
    }
  }

  lemma WaitsStep(s: State, l: Label, e: Entry)
    requires Inv(s) && Enabled(s, l) && Waits(s, e)
    ensures Waits(Apply(s, l), e) || exists w :: Starts(s, l, w, e.item) && Allowed(e.pin, w)
  {
    if e in s.queue {
      QueuedStep(s, l, e);
    } else {
      var w :| Holds(s, w, e.item) && Allowed(e.pin, w);
      HoldsStep(s, l, w, e.item);
      assert Holds(Apply(s, l), w, e.item) || Starts(s, l, w, e.item);
    }
  }

  lemma WaitsIn(ss: seq<State>, ls: seq<Label>, k: nat, e: Entry)
    requires IsRun(ss, ls) && k < |ls| && Waits(ss[k], e)
    ensures Waits(ss[k + 1], e) || exists w :: Starts(ss[k], ls[k], w, e.item)
  {
    InvRun(ss, ls, k);
    WaitsStep(ss[k], ls[k], e);
  }

  lemma SubmittedWaits(s: State, l: Label, e: Entry)
    requires Enabled(s, l) && Submitted(s, l) == Some(e)
    ensures Waits(Apply(s, l), e)
  {
    match l
    case Api(a, x) => SubmittedApi(s, a, x, e);
    case Arming(w, x) => SubmittedArm(s, w, x, e);
  }

  lemma SubmittedApi(s: State, a: Actor, x: ApiStep, e: Entry)
    requires EnabledApi(s, a, x) && Submitted(s, Api(a, x)) == Some(e)
    ensures ApplyApi(s, a, x).queue == s.queue + [e]
  {
  }

  lemma SubmittedArm(s: State, w: nat, x: ArmStep, e: Entry)
    requires EnabledArm(s, w, x) && Submitted(s, Arming(w, x)) == Some(e)
    ensures ApplyArm(s, w, x).queue == s.queue + [e]
  {
  }

  /** Nobody starts the task between the two states of the run. */
  ghost predicate NotStarted(ss: seq<State>, ls: seq<Label>, j: nat, i: nat, item: Item)
    requires j <= i <= |ls| < |ss|
  {
    forall k, w :: j <= k < i ==> !Starts(ss[k], ls[k], w, item)
  }

  lemma {:induction false} WaitsRun(ss: seq<State>, ls: seq<Label>, j: nat, i: nat, e: Entry)
    requires IsRun(ss, ls) && j < i < |ss| && Submitted(ss[j], ls[j]) == Some(e)
    requires NotStarted(ss, ls, j + 1, i, e.item)
    ensures Waits(ss[i], e)
    decreases i
  {
    if i == j + 1 {
      SubmittedWaits(ss[j], ls[j], e);
    } else {
      WaitsRun(ss, ls, j, i - 1, e);
      WaitsIn(ss, ls, i - 1, e);
    }
  }

  lemma OnePlace(s: State, e: Entry)
    requires Linear(s) && Waits(s, e)
    ensures forall q :: 0 <= q < |s.queue| && s.queue[q].item == e.item ==> s.queue[q] == e
    ensures forall w :: Holds(s, w, e.item) ==> Allowed(e.pin, w)
  {
    var p := if e in s.queue then (var r :| 0 <= r < |s.queue| && s.queue[r] == e; QueueAt(r))
             else (var v :| Holds(s, v, e.item) && Allowed(e.pin, v); HandAt(v));
    assert At(s, p) == Some(Tok(e.item));
    forall q | 0 <= q < |s.queue| && s.queue[q].item == e.item ensures s.queue[q] == e {
      assert At(s, QueueAt(q)) == Some(Tok(e.item));
    }
    forall w | Holds(s, w, e.item) ensures Allowed(e.pin, w) {
      assert At(s, HandAt(w)) == Some(Tok(e.item));
    }
  }

  /** A task submitted for a thread waits, until it is started, in a queue entry with that pin or in the hand of that
      thread, and nowhere else; and the worker that starts it is that thread. */
  lemma PinRespected(ss: seq<State>, ls: seq<Label>, j: nat, i: nat, e: Entry)
    requires IsRun(ss, ls) && j < i < |ss| && Submitted(ss[j], ls[j]) == Some(e)
    requires NotStarted(ss, ls, j + 1, i, e.item)
    ensures e in ss[i].queue || exists w: nat :: Holds(ss[i], w, e.item) && (e.pin == None || e.pin == Some(w))
    ensures forall q :: 0 <= q < |ss[i].queue| && ss[i].queue[q].item == e.item ==> ss[i].queue[q].pin == e.pin
    ensures forall w: nat :: Holds(ss[i], w, e.item) ==> e.pin == None || e.pin == Some(w)
    ensures i < |ls| ==> forall w: nat :: Starts(ss[i], ls[i], w, e.item) ==> e.pin == None || e.pin == Some(w)
  {
    WaitsRun(ss, ls, j, i, e);
    InvRun(ss, ls, i);
    OnePlace(ss[i], e);
  }

  // ---------------------------------------------------------------- callbacks

  /** A step records callbacks as started only by starting them. */
  lemma RecordedLoop(s: State, w: nat, x: LoopStep, id: nat)
    requires EnabledLoop(s, w, x) && id !in s.started && id in ApplyLoop(s, w, x).started
    ensures Starts(s, Loop(w, x), w, Call(id))
  {
  }

  lemma RecordedStep(s: State, l: Label, id: nat)
    requires Enabled(s, l) && id !in s.started && id in Apply(s, l).started
    ensures l.Loop? && Starts(s, l, l.w, Call(id))
  {
    match l
    case Loop(w, x) => RecordedLoop(s, w, x, id);
    case Arming(w, x) => RecordedArm(s, w, x);
    case Api(a, x) => RecordedApi(s, a, x);
    case Idling(w, x) => RecordedIdle(s, w, x);
    case Stop =>
  }

  lemma RecordedApi(s: State, a: Actor, x: ApiStep)
    requires EnabledApi(s, a, x)
    ensures ApplyApi(s, a, x).started == s.started
  {
  }

  lemma RecordedIdle(s: State, w: nat, x: IdleStep)
    requires EnabledIdle(s, w, x)
    ensures ApplyIdle(s, w, x).started == s.started
  {
  }

  lemma RecordedArm(s: State, w: nat, x: ArmStep)
    requires EnabledArm(s, w, x)
    ensures ApplyArm(s, w, x).started == s.started
  {
  }

  lemma CallbackStep(s: State, l: Label, e: Entry)
    requires Inv(s) && Enabled(s, l) && e.item.Call? && Waits(s, e) && e.item.id !in s.started
    ensures e.item.id !in Apply(s, l).started ==> Waits(Apply(s, l), e)
    ensures e.item.id in Apply(s, l).started ==> l.Loop? && Starts(s, l, l.w, e.item) && Allowed(e.pin, l.w)
  {
    if e.item.id in Apply(s, l).started {
      RecordedStep(s, l, e.item.id);
      OnePlace(s, e);
    } else {
      WaitsStep(s, l, e);
      if exists w :: Starts(s, l, w, e.item) {
        var w :| Starts(s, l, w, e.item);
        StartRuns(s, l, w, e.item);
      }
    }
  }

  /** The callback was started between the two states, by a worker it was meant for. */
  ghost predicate StartedBetween(ss: seq<State>, ls: seq<Label>, j: nat, i: nat, e: Entry)
    requires j <= i <= |ls| < |ss|
  {
    exists k :: j <= k < i && ls[k].Loop? && Allowed(e.pin, ls[k].w) && Starts(ss[k], ls[k], ls[k].w, e.item)
  }

  lemma StaysStarted(ss: seq<State>, ls: seq<Label>, k: nat, id: nat)
    requires IsRun(ss, ls) && k < |ls| && id in ss[k].started
    ensures id in ss[k + 1].started
  {
    LedgerStep(ss[k], ls[k]);
  }

  lemma CallbackIn(ss: seq<State>, ls: seq<Label>, k: nat, e: Entry)
    requires IsRun(ss, ls) && k < |ls| && e.item.Call? && Waits(ss[k], e) && e.item.id !in ss[k].started
    ensures e.item.id !in ss[k + 1].started ==> Waits(ss[k + 1], e)
    ensures e.item.id in ss[k + 1].started ==> StartedBetween(ss, ls, k, k + 1, e)
  {
    InvRun(ss, ls, k);
    CallbackStep(ss[k], ls[k], e);
  }

  lemma FreshCallback(ss: seq<State>, ls: seq<Label>, j: nat, e: Entry)
    requires IsRun(ss, ls) && j < |ls| && Submitted(ss[j], ls[j]) == Some(e) && e.item.Call?
    ensures Waits(ss[j + 1], e) && e.item.id !in ss[j + 1].started
  {
    InvRun(ss, ls, j);
    SubmittedWaits(ss[j], ls[j], e);
    RecordedApi(ss[j], ls[j].a, ls[j].api);
  }

  /** A callback submitted for a thread still waits for it, or was started by that thread. */
  lemma {:induction false} PinnedCallback(ss: seq<State>, ls: seq<Label>, j: nat, i: nat, e: Entry)
    requires IsRun(ss, ls) && j < i < |ss| && Submitted(ss[j], ls[j]) == Some(e) && e.item.Call?
    ensures e.item.id !in ss[i].started ==> Waits(ss[i], e)
    ensures e.item.id in ss[i].started ==> StartedBetween(ss, ls, j + 1, i, e)
    decreases i
  {
    if i == j + 1 {
      FreshCallback(ss, ls, j, e);
    } else {
      PinnedCallback(ss, ls, j, i - 1, e);
      if e.item.id !in ss[i - 1].started {
        CallbackIn(ss, ls, i - 1, e);
      } else {
        StaysStarted(ss, ls, i - 1, e.item.id);
      }
    }
  }

  lemma PinStep(s: State, l: Label, e: Entry)
    requires Enabled(s, l) && e in Apply(s, l).queue && e.pin.Some?
    ensures e in s.queue || Submitted(s, l) == Some(e)
  {
    QueueStep(s, l);
    var q :| 0 <= q < |Apply(s, l).queue| && Apply(s, l).queue[q] == e;
    if q < |Remaining(s, l)| {
      assert Remaining(s, l)[q] == e;
    }
  }

  lemma PinIn(ss: seq<State>, ls: seq<Label>, k: nat, e: Entry)
    requires IsRun(ss, ls) && k < |ls| && e in ss[k + 1].queue && e.pin.Some?
    ensures e in ss[k].queue || Submitted(ss[k], ls[k]) == Some(e)
  {
    PinStep(ss[k], ls[k], e);
  }

  /** Every pinned entry of every state was submitted with that pin. */
  lemma {:induction false} PinsComeFromCallers(ss: seq<State>, ls: seq<Label>, i: nat, e: Entry)
    requires IsRun(ss, ls) && i < |ss| && e in ss[i].queue && e.pin.Some?
    ensures exists j :: 0 <= j < i && Submitted(ss[j], ls[j]) == Some(e)
    decreases i
  {
    if i > 0 {
      PinIn(ss, ls, i - 1, e);
      if e in ss[i - 1].queue { PinsComeFromCallers(ss, ls, i - 1, e); }
    }
  }
}
