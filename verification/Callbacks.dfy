/** Every submitted callback is started at most once, and is never forgotten. */
module Callbacks {
  import opened Basics
  import opened ParkWake
  import opened Ownership
  import opened NoLostWake
  import opened WakeTheorems

  /** Every callback ever submitted is held, was started, or was dropped. */
  ghost predicate Accounted(s: State) {
    forall id: nat :: id < s.next ==> Held(s, OfCall(id)) || id in s.started || id in s.dropped
  }

  /** From `s` to `s'` the records only grow, and a callback that is used up is recorded. */
  ghost predicate Ledger(s: State, s': State, gone: Option<Token>) {
    && s.started <= s'.started && s.dropped <= s'.dropped && s.next <= s'.next <= s.next + 1
    && (gone.Some? && gone.value.OfCall? ==> gone.value.id in s'.started || gone.value.id in s'.dropped)
  }

  lemma LedgerLoop(s: State, w: nat, l: LoopStep)
    requires EnabledLoop(s, w, l)
    ensures Ledger(s, ApplyLoop(s, w, l), UsedLoop(s, w, l)) && ApplyLoop(s, w, l).next == s.next
  {
  }

  lemma LedgerArm(s: State, w: nat, l: ArmStep)
    requires EnabledArm(s, w, l)
    ensures Ledger(s, ApplyArm(s, w, l), None) && ApplyArm(s, w, l).next == s.next
  {
  }

  lemma LedgerApi(s: State, a: Actor, l: ApiStep)
    requires EnabledApi(s, a, l)
    ensures Ledger(s, ApplyApi(s, a, l), UsedApi(s, a, l))
    ensures ApplyApi(s, a, l).next > s.next ==> l.AddCallEvent? || l.AddCallTimer? || l.SubmitCall?
  {
  }

  lemma BornApi(s: State, a: Actor, l: ApiStep)
    requires EnabledApi(s, a, l) && (l.AddCallEvent? || l.AddCallTimer? || l.SubmitCall?)
    ensures Held(ApplyApi(s, a, l), OfCall(s.next))
  {
    var p := if l.AddCallEvent? then SlotAt(l.k) else if l.AddCallTimer? then TimerAt(l.t) else QueueAt(|s.queue|);
    assert At(ApplyApi(s, a, l), p) == Some(OfCall(s.next));
  }

  lemma LedgerIdle(s: State, w: nat, l: IdleStep)
    requires EnabledIdle(s, w, l)
    ensures Ledger(s, ApplyIdle(s, w, l), None)
    ensures ApplyIdle(s, w, l).next > s.next ==> l.CollectEvery?
  {
  }

  lemma BornIdle(s: State, w: nat, l: IdleStep)
    requires EnabledIdle(s, w, l) && l.CollectEvery?
    ensures Held(ApplyIdle(s, w, l), OfCall(s.next))
  {
    assert At(ApplyIdle(s, w, l), BatchAt(w, |PcOf(s, w).batch|)) == Some(OfCall(s.next));
  }

  lemma LedgerStep(s: State, l: Label)
    requires Enabled(s, l)
    ensures Ledger(s, Apply(s, l), UsedUp(s, l))
    ensures Apply(s, l).next > s.next ==> Held(Apply(s, l), OfCall(s.next))
  {
    match l
    case Loop(w, x) => LedgerLoop(s, w, x);
    case Arming(w, x) => LedgerArm(s, w, x);
    case Api(a, x) =>
      LedgerApi(s, a, x);
      if x.AddCallEvent? || x.AddCallTimer? || x.SubmitCall? { BornApi(s, a, x); }
    case Idling(w, x) =>
      LedgerIdle(s, w, x);
      if x.CollectEvery? { BornIdle(s, w, x); }
    case Stop =>
  }

  lemma AccountedFrame(s: State, s': State, gone: Option<Token>)
    requires Accounted(s) && Ledger(s, s', gone)
    requires s'.next > s.next ==> Held(s', OfCall(s.next))
    requires forall t :: Held(s, t) && Some(t) != gone ==> Held(s', t)
    ensures Accounted(s')
  {
  }

  lemma AccountedStep(s: State, l: Label)
    requires Inv(s) && Accounted(s) && Enabled(s, l)
    ensures Accounted(Apply(s, l))
  {
    LedgerStep(s, l);
    forall t | Held(s, t) && Some(t) != UsedUp(s, l) ensures Held(Apply(s, l), t) {
      Survives(s, l, t);
    }
    AccountedFrame(s, Apply(s, l), UsedUp(s, l));
  }

  /** In every state of every run, a submitted callback is held at exactly one place, or was started
      exactly once, or was dropped; and these three exclude each other. */
  lemma {:induction false} CallbackExactlyOnce(ss: seq<State>, ls: seq<Label>, i: nat, id: nat)
    requires IsRun(ss, ls) && i < |ss| && id < ss[i].next
    ensures Held(ss[i], OfCall(id)) || id in ss[i].started || id in ss[i].dropped
    ensures Held(ss[i], OfCall(id)) ==> id !in ss[i].started && id !in ss[i].dropped
    ensures id in ss[i].started ==> id !in ss[i].dropped && multiset(ss[i].started)[id] == 1
  {
    AccountedRun(ss, ls, i);
    InvRun(ss, ls, i);
    OccursOnce(ss[i].started, id);
  }

  lemma {:induction false} AccountedRun(ss: seq<State>, ls: seq<Label>, i: nat)
    requires IsRun(ss, ls) && i < |ss|
    ensures Accounted(ss[i])
    decreases i
  {
    if i > 0 {
      AccountedRun(ss, ls, i - 1);
      InvRun(ss, ls, i - 1);
      AccountedStep(ss[i - 1], ls[i - 1]);
    }
  }

  lemma {:induction false} OccursOnce(xs: seq<nat>, x: nat)
    requires forall i, j :: 0 <= i < j < |xs| ==> xs[i] != xs[j]
    ensures x in xs ==> multiset(xs)[x] == 1
  {
    if |xs| > 0 {
      OccursOnce(xs[1..], x);
      assert xs == [xs[0]] + xs[1..];
    }
  }
}
