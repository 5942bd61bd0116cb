/** What the park/wake protocol guarantees in every state of every run. */
module WakeTheorems {
  import opened Basics
  import opened ParkWake
  import opened Ownership
  import opened OwnershipProof
  import opened NoLostWake

  lemma InvInit(s: State)
    requires Init(s)
    ensures Inv(s)
  {
    assert forall p :: At(s, p).None?;
  }

  lemma InvStep(s: State, l: Label)
    requires Inv(s) && Enabled(s, l)
    ensures Inv(Apply(s, l))
  {
    match l
    case Loop(w, x) => InvLoop(s, w, x);
    case Arming(w, x) => InvArm(s, w, x);
    case Api(a, x) => InvApi(s, a, x);
    case Idling(w, x) => InvIdle(s, w, x);
    case Stop =>
      KeepOrDrop(s, Apply(s, l));
      SameRunners(s, Apply(s, l), 0);
  }

  lemma {:induction false} InvRun(ss: seq<State>, ls: seq<Label>, i: nat)
    requires IsRun(ss, ls) && i < |ss|
    ensures Inv(ss[i])
    decreases i
  {
    if i == 0 {
      InvInit(ss[0]);
    } else {
      InvRun(ss, ls, i - 1);
      InvStep(ss[i - 1], ls[i - 1]);
    }
  }

  /** Linear ownership: a fiber or callback is in at most one queue entry, event slot, waiter list,
      timer, batch or worker's hand. */
  lemma OneWakeUp(ss: seq<State>, ls: seq<Label>, i: nat, p: Pos, q: Pos)
    requires IsRun(ss, ls) && i < |ss| && At(ss[i], p).Some? && At(ss[i], p) == At(ss[i], q)
    ensures p == q
  {
    InvRun(ss, ls, i);
  }

  /** No fiber is ever executed by two threads at once, and the fiber a thread executes is in EXEC. */
  lemma NoDoubleRun(ss: seq<State>, ls: seq<Label>, i: nat, v: nat, w: nat, f: nat)
    requires IsRun(ss, ls) && i < |ss| && RunsOn(ss[i], v, f) && RunsOn(ss[i], w, f)
    ensures v == w && f in ss[i].fibers && ss[i].fibers[f] == EXEC
  {
    InvRun(ss, ls, i);
    assert WorkerOk(ss[i], ss[i].workers[w]);
  }

  /** The state assertions in `Fiber::swapIn` and `Fiber::reset` cannot fail: a picked fiber is not
      executing and has not ended, the callback fiber is INIT when it is reset, and the idle fiber is
      INIT, HOLD or TERM whenever the worker is outside it. */
  lemma FiberAssertionsHold(ss: seq<State>, ls: seq<Label>, i: nat, w: nat)
    requires IsRun(ss, ls) && i < |ss| && IsWorker(ss[i], w)
    ensures PcOf(ss[i], w).Took? && PcOf(ss[i], w).item.Resume? ==>
              PcOf(ss[i], w).item.f in ss[i].fibers
              && ss[i].fibers[PcOf(ss[i], w).item.f] in {INIT, HOLD, READY}
              && forall v :: !RunsOn(ss[i], v, PcOf(ss[i], w).item.f)
    ensures PcOf(ss[i], w).Head? || PcOf(ss[i], w).Took? ==>
              && ss[i].workers[w].idle in {INIT, HOLD, TERM}
              && (ss[i].workers[w].cb.Some? ==>
                    ss[i].workers[w].cb.value in ss[i].fibers && ss[i].fibers[ss[i].workers[w].cb.value] == INIT)
  {
    InvRun(ss, ls, i);
    var s := ss[i];
    assert WorkerOk(s, s.workers[w]);
    forall v: nat, f: nat | RunsOn(s, v, f) ensures s.fibers[f] == EXEC {
      assert WorkerOk(s, s.workers[v]);
    }
  }

  // ---------------------------------------------------------------- no wake-up is lost

  function UsedUp(s: State, l: Label): Option<Token>
    requires Enabled(s, l)
  {
    match l
    case Loop(w, x) => UsedLoop(s, w, x)
    case Api(a, x) => UsedApi(s, a, x)
    case _ => None
  }

  lemma Survives(s: State, l: Label, t: Token)
    requires Inv(s) && Enabled(s, l) && Held(s, t) && Some(t) != UsedUp(s, l)
    ensures Held(Apply(s, l), t)
  {
    var p :| At(s, p) == Some(t);
    match l
    case Loop(w, x) => SurviveLoop(s, w, x, p);
    case Arming(w, x) => SurviveArm(s, w, x, p);
    case Api(a, x) => SurviveApi(s, a, x, p);
    case Idling(w, x) => SurviveIdle(s, w, x, p);
    case Stop => assert At(Apply(s, l), p) == Some(t);
  }

  lemma SurvivesIn(ss: seq<State>, ls: seq<Label>, k: nat, t: Token)
    requires IsRun(ss, ls) && k < |ls| && Held(ss[k], t) && UsedUp(ss[k], ls[k]) != Some(t)
    ensures Held(ss[k + 1], t)
  {
    InvRun(ss, ls, k);
    Survives(ss[k], ls[k], t);
  }

  /** A wake-up that is pending stays pending until a step uses it up. */
  lemma {:induction false} WakeUpNotLost(ss: seq<State>, ls: seq<Label>, i: nat, j: nat, t: Token)
    requires IsRun(ss, ls) && i <= j < |ss| && Held(ss[i], t)
    requires forall k :: i <= k < j ==> UsedUp(ss[k], ls[k]) != Some(t)
    ensures Held(ss[j], t)
    decreases j - i
  {
    if i < j {
      WakeUpNotLost(ss, ls, i, j - 1, t);
      SurvivesIn(ss, ls, j - 1, t);
    }
  }
}
