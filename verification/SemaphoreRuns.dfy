/** The semaphores of the scheduler protocol are fiber semaphores, over every run. */
module SemaphoreRuns {
  import opened Basics
  import opened ParkWake
  import FiberSemaphores

  /** The call on semaphore `m` that a step makes, if any. */
  function SemCall(s: State, l: Label, m: nat): Option<FiberSemaphores.Call>
    requires Enabled(s, l)
  {
    match l
    case Arming(w, ArmSem(x)) => if x == m then Some(FiberSemaphores.Wait(Running(PcOf(s, w)).value)) else None
    case Api(_, TakeSem(x)) => if x == m then Some(FiberSemaphores.TryWait) else None
    case Api(_, NotifyWake(x)) => if x == m then Some(FiberSemaphores.Notify) else None
    case Api(_, NotifyCount(x)) => if x == m then Some(FiberSemaphores.Notify) else None
    case _ => None
  }

  /** The calls on semaphore `m` in the first `i` steps. */
  ghost function SemCalls(ss: seq<State>, ls: seq<Label>, i: nat, m: nat): seq<FiberSemaphores.Call>
    requires IsRun(ss, ls) && i < |ss|
    decreases i
  {
    if i == 0 then []
    else
      var front := SemCalls(ss, ls, i - 1, m);
      var c := SemCall(ss[i - 1], ls[i - 1], m);
      if c.Some? then front + [c.value] else front
  }

  predicate Matches(s: State, m: nat, h: FiberSemaphores.History) {
    m in s.sems && s.sems[m] == Sem(h.concurrency, h.waiters)
  }

  lemma SemsLoop(s: State, w: nat, x: LoopStep)
    requires EnabledLoop(s, w, x)
    ensures ApplyLoop(s, w, x).sems == s.sems
  {
  }

  lemma SemsIdle(s: State, w: nat, x: IdleStep)
    requires EnabledIdle(s, w, x)
    ensures ApplyIdle(s, w, x).sems == s.sems
  {
  }

  lemma SemsArm(s: State, w: nat, x: ArmStep, m: nat, h: FiberSemaphores.History)
    requires EnabledArm(s, w, x) && Matches(s, m, h)
    ensures var c := SemCall(s, Arming(w, x), m);
            Matches(ApplyArm(s, w, x), m, if c.Some? then FiberSemaphores.Step(h, c.value) else h)
  {
  }

  lemma SemsApi(s: State, a: Actor, x: ApiStep, m: nat, h: FiberSemaphores.History)
    requires EnabledApi(s, a, x) && Matches(s, m, h) && FiberSemaphores.Valid(h)
    ensures var c := SemCall(s, Api(a, x), m);
            Matches(ApplyApi(s, a, x), m, if c.Some? then FiberSemaphores.Step(h, c.value) else h)
  {
  }

  lemma SemsStep(s: State, l: Label, m: nat, h: FiberSemaphores.History)
    requires Enabled(s, l) && Matches(s, m, h) && FiberSemaphores.Valid(h)
    ensures var c := SemCall(s, l, m);
            Matches(Apply(s, l), m, if c.Some? then FiberSemaphores.Step(h, c.value) else h)
  {
    match l
    case Loop(w, x) => SemsLoop(s, w, x);
    case Arming(w, x) => SemsArm(s, w, x, m, h);
    case Api(a, x) => SemsApi(s, a, x, m, h);
    case Idling(w, x) => SemsIdle(s, w, x);
    case Stop =>
  }

  lemma SemsIn(ss: seq<State>, ls: seq<Label>, k: nat, m: nat, h: FiberSemaphores.History)
    requires IsRun(ss, ls) && k < |ls| && Matches(ss[k], m, h) && FiberSemaphores.Valid(h)
    ensures var c := SemCall(ss[k], ls[k], m);
            Matches(ss[k + 1], m, if c.Some? then FiberSemaphores.Step(h, c.value) else h)
  {
    SemsStep(ss[k], ls[k], m, h);
  }

  lemma AfterMore(initial: nat, calls: seq<FiberSemaphores.Call>, c: FiberSemaphores.Call)
    ensures FiberSemaphores.After(initial, calls + [c])
            == FiberSemaphores.Step(FiberSemaphores.After(initial, calls), c)
  {
    assert (calls + [c])[..|calls|] == calls;
  }

  /** In every state of every run a semaphore has the permits and waiters to which the calls made on it lead, so that
      conservation, arrival order and the balance hold for it. */
  lemma {:induction false} SemaphoreRefined(ss: seq<State>, ls: seq<Label>, i: nat, m: nat)
    requires IsRun(ss, ls) && i < |ss| && m in ss[0].sems
    ensures Matches(ss[i], m, FiberSemaphores.After(ss[0].sems[m].count, SemCalls(ss, ls, i, m)))
    decreases i
  {
    var initial := ss[0].sems[m].count;
    if i > 0 {
      var k := i - 1;
      var calls := SemCalls(ss, ls, k, m);
      SemaphoreRefined(ss, ls, k, m);
      FiberSemaphores.ValidAfter(initial, calls);
      SemsIn(ss, ls, k, m, FiberSemaphores.After(initial, calls));
      var c := SemCall(ss[k], ls[k], m);
      if c.Some? { AfterMore(initial, calls, c.value); }
    }
  }

  /** `notify` puts the fiber that has waited longest at the end of the queue, to be resumed by any worker. */
  lemma NotifyResumesFirst(s: State, a: Actor, m: nat)
    requires EnabledApi(s, a, NotifyWake(m))
    ensures ApplyApi(s, a, NotifyWake(m)).queue == s.queue + [Entry(Resume(s.sems[m].waiters[0]), None)]
  {
  }
}
