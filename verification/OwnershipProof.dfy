/** Every step of the park/wake protocol keeps the ownership invariant. */
module OwnershipProof {
  import opened Basics
  import opened ParkWake
  import opened Ownership

  lemma InvTrigger(s: State, k: SlotKey)
    requires Inv(s)
    ensures Inv(Trigger(s, k)) && Trigger(s, k).workers == s.workers && Trigger(s, k).fibers == s.fibers
  {
    if k in s.slots {
      var s' := Trigger(s, k);
      TokensTrigger(s, k);
      assert WorkersOk(s') by {
        forall w | 0 <= w < |s'.workers| ensures WorkerOk(s', s'.workers[w]) { assert WorkerOk(s, s.workers[w]); }
      }
      assert SoleRunner(s') && ExecRuns(s') by { SameRunners(s, s', |s.workers|); }
    }
  }

  lemma TokensTrigger(s: State, k: SlotKey)
    requires Linear(s) && TokensOk(s) && k in s.slots
    ensures Linear(Trigger(s, k)) && TokensOk(Trigger(s, k))
  {
    var s' := Trigger(s, k);
    var dst := QueueAt(|s.queue|);
    forall p | p != dst && At(s', p).Some? ensures At(s', p) == At(s, p) && TokenOk(s', p, At(s', p).value) {
      KeptTrigger(s, k, p);
    }
    assert At(s', dst) == At(s, SlotAt(k)) && TokenOk(s, SlotAt(k), At(s', dst).value);
    Move(s, s', SlotAt(k), dst);
  }

  lemma KeptTrigger(s: State, k: SlotKey, p: Pos)
    requires TokensOk(s) && k in s.slots && p != QueueAt(|s.queue|) && At(Trigger(s, k), p).Some?
    ensures At(Trigger(s, k), p) == At(s, p) && TokenOk(Trigger(s, k), p, At(s, p).value)
  {
  }

  lemma InvTriggerFd(s: State, fd: nat)
    requires Inv(s)
    ensures Inv(TriggerFd(s, fd))
  {
    InvTrigger(s, SlotKey(fd, READ));
    InvTrigger(Trigger(s, SlotKey(fd, READ)), SlotKey(fd, WRITE));
  }

  lemma TokensPick(s: State, w: nat, i: nat)
    requires Linear(s) && TokensOk(s) && CanPick(s, w, i)
    ensures Linear(DoPick(s, w, i)) && TokensOk(DoPick(s, w, i))
  {
    Relocate(s, DoPick(s, w, i), (p: Pos) => if p == HandAt(w) then QueueAt(i)
                            else if p.QueueAt? && p.i >= i then QueueAt(p.i + 1) else p);
  }

  lemma InvPick(s: State, w: nat, i: nat)
    requires Inv(s) && CanPick(s, w, i)
    ensures Inv(DoPick(s, w, i))
  {
    var s' := DoPick(s, w, i);
    assert WorkerOk(s, s.workers[w]);
    assert At(s, QueueAt(i)).Some?;
    TokensPick(s, w, i);
    assert SoleRunner(s') && ExecRuns(s') by { SameRunners(s, s', w); }
  }

  /** A worker that goes from one point without tokens to another. */
  ghost predicate Handless(wk: Worker) {
    HandOf(wk.pc).None? && BodyOf(wk.pc).None? && !UsesCb(wk.pc) && (wk.pc.InIdle? ==> wk.pc.batch == [])
  }

  lemma TokensHandless(s: State, s': State, w: nat)
    requires Linear(s) && TokensOk(s) && IsWorker(s, w) && SameRunnersBut(s, s', w)
    requires s'.queue == s.queue && s'.slots == s.slots && s'.sems == s.sems && s'.timers == s.timers
    requires s'.fibers == s.fibers && s'.next == s.next && s'.started == s.started && s'.dropped == s.dropped
    requires Handless(s.workers[w]) && Handless(s'.workers[w]) && s'.workers[w].cb == s.workers[w].cb
    ensures Linear(s') && TokensOk(s')
  {
    forall p | At(s', p).Some? ensures At(s', p) == At(s, p) && TokenOk(s', p, At(s', p).value) {
      assert TokenOk(s, p, At(s, p).value);
    }
    KeepOrDrop(s, s');
  }

  lemma InvEnterIdle(s: State, w: nat)
    requires Inv(s) && CanEnterIdle(s, w)
    ensures Inv(DoEnterIdle(s, w))
  {
    var s' := DoEnterIdle(s, w);
    assert WorkerOk(s, s.workers[w]);
    TokensHandless(s, s', w);
    assert SoleRunner(s') && ExecRuns(s') by { SameRunners(s, s', w); }
  }

  lemma InvLeave(s: State, w: nat)
    requires Inv(s) && CanLeave(s, w)
    ensures Inv(DoLeave(s, w))
  {
    var s' := DoLeave(s, w);
    assert WorkerOk(s, s.workers[w]);
    assert Linear(s') && TokensOk(s') by { KeepOrDrop(s, s'); }
    assert SoleRunner(s') && ExecRuns(s') by { SameRunners(s, s', w); }
  }

  lemma TokensSwitchIn(s: State, w: nat)
    requires Linear(s) && TokensOk(s) && CanSwitchIn(s, w) && WorkerOk(s, s.workers[w])
    ensures Linear(DoSwitchIn(s, w)) && TokensOk(DoSwitchIn(s, w))
  {
    assert At(s, SpareAt(w)) != At(s, HandAt(w));
    Move(s, DoSwitchIn(s, w), HandAt(w), BodyAt(w));
  }

  lemma InvSwitchIn(s: State, w: nat)
    requires Inv(s) && CanSwitchIn(s, w)
    ensures Inv(DoSwitchIn(s, w))
  {
    var s' := DoSwitchIn(s, w);
    assert WorkerOk(s, s.workers[w]);
    assert At(s, SpareAt(w)) != At(s, HandAt(w));
    TokensSwitchIn(s, w);
    assert SoleRunner(s') && ExecRuns(s') by { Starts(s, s', w, PcOf(s, w).item.f); }
    assert WorkersOk(s') by { OthersOk(s, s', w, PcOf(s, w).item.f); }
  }

  /** The branch of `run` for a picked fiber that has ended is never taken. */
  lemma SkipDeadNever(s: State, w: nat)
    requires Inv(s)
    ensures !CanSkipDead(s, w)
  {
    assert IsWorker(s, w) ==> WorkerOk(s, s.workers[w]);
  }

  lemma KeptReuseCall(s: State, w: nat, p: Pos)
    requires Linear(s) && TokensOk(s) && CanReuseCall(s, w) && WorkerOk(s, s.workers[w])
    requires p != BodyAt(w) && At(DoReuseCall(s, w), p).Some?
    ensures var s' := DoReuseCall(s, w); At(s', p) == At(s, p) && TokenOk(s', p, At(s', p).value)
  {
    assert At(s, HandAt(w)).Some? && TokenOk(s, p, At(s, p).value);
  }

  lemma TokensReuseCall(s: State, w: nat)
    requires Linear(s) && TokensOk(s) && CanReuseCall(s, w) && WorkerOk(s, s.workers[w])
    ensures Linear(DoReuseCall(s, w)) && TokensOk(DoReuseCall(s, w))
  {
    var s' := DoReuseCall(s, w);
    forall p | p != BodyAt(w) && At(s', p).Some? ensures At(s', p) == At(s, p) && TokenOk(s', p, At(s', p).value) {
      KeptReuseCall(s, w, p);
    }
    Move(s, s', SpareAt(w), BodyAt(w));
  }

  lemma InvReuseCall(s: State, w: nat)
    requires Inv(s) && CanReuseCall(s, w)
    ensures Inv(DoReuseCall(s, w))
  {
    var s' := DoReuseCall(s, w);
    assert WorkerOk(s, s.workers[w]);
    assert At(s, HandAt(w)).Some?;
    TokensReuseCall(s, w);
    assert SoleRunner(s') && ExecRuns(s') by { Starts(s, s', w, s.workers[w].cb.value); }
    assert WorkersOk(s') by { OthersOk(s, s', w, s.workers[w].cb.value); }
  }

  lemma KeptNewCall(s: State, w: nat, g: nat, p: Pos)
    requires Linear(s) && TokensOk(s) && CanNewCall(s, w, g) && p != BodyAt(w) && At(DoNewCall(s, w, g), p).Some?
    ensures var s' := DoNewCall(s, w, g); At(s', p) == At(s, p) && TokenOk(s', p, At(s', p).value)
  {
    assert At(s, HandAt(w)).Some? && TokenOk(s, p, At(s, p).value);
  }

  lemma TokensNewCall(s: State, w: nat, g: nat)
    requires Linear(s) && TokensOk(s) && CanNewCall(s, w, g)
    ensures Linear(DoNewCall(s, w, g)) && TokensOk(DoNewCall(s, w, g))
  {
    var s' := DoNewCall(s, w, g);
    forall p | p != BodyAt(w) && At(s', p).Some? ensures At(s', p) == At(s, p) && TokenOk(s', p, At(s', p).value) {
      KeptNewCall(s, w, g, p);
    }
    Birth(s, s', BodyAt(w));
  }

  lemma InvNewCall(s: State, w: nat, g: nat)
    requires Inv(s) && CanNewCall(s, w, g)
    ensures Inv(DoNewCall(s, w, g))
  {
    var s' := DoNewCall(s, w, g);
    assert WorkerOk(s, s.workers[w]);
    assert At(s, HandAt(w)).Some?;
    TokensNewCall(s, w, g);
    assert SoleRunner(s') && ExecRuns(s') by { Starts(s, s', w, g); }
  }

  lemma InvFireWake(s: State, w: nat)
    requires Inv(s) && CanFireWake(s, w)
    ensures Inv(DoFireWake(s, w))
  {
    var s' := DoFireWake(s, w);
    assert WorkerOk(s, s.workers[w]);
    assert Linear(s') && TokensOk(s') by { Move(s, s', HandAt(w), QueueAt(|s.queue|)); }
    assert SoleRunner(s') && ExecRuns(s') by { SameRunners(s, s', w); }
  }

  lemma KeptSwitchOut(s: State, w: nat, st: FiberState, p: Pos)
    requires Linear(s) && TokensOk(s) && CanSwitchOut(s, w, st) && WorkerOk(s, s.workers[w])
    requires p != HandAt(w) && At(DoSwitchOut(s, w, st), p).Some?
    ensures var s' := DoSwitchOut(s, w, st); At(s', p) == At(s, p) && TokenOk(s', p, At(s', p).value)
  {
    assert At(s, BodyAt(w)).Some? && TokenOk(s, p, At(s, p).value);
  }

  lemma TokensSwitchOut(s: State, w: nat, st: FiberState)
    requires Linear(s) && TokensOk(s) && CanSwitchOut(s, w, st) && WorkerOk(s, s.workers[w])
    ensures Linear(DoSwitchOut(s, w, st)) && TokensOk(DoSwitchOut(s, w, st))
  {
    var s' := DoSwitchOut(s, w, st);
    forall p | p != HandAt(w) && At(s', p).Some? ensures At(s', p) == At(s, p) && TokenOk(s', p, At(s', p).value) {
      KeptSwitchOut(s, w, st, p);
    }
    Move(s, s', BodyAt(w), HandAt(w));
  }

  lemma InvSwitchOut(s: State, w: nat, st: FiberState)
    requires Inv(s) && CanSwitchOut(s, w, st)
    ensures Inv(DoSwitchOut(s, w, st))
  {
    var s' := DoSwitchOut(s, w, st);
    assert WorkerOk(s, s.workers[w]);
    TokensSwitchOut(s, w, st);
    assert SoleRunner(s') && ExecRuns(s') by { Ends(s, s', w, Running(PcOf(s, w)).value); }
    assert WorkersOk(s') by { OthersOk(s, s', w, Running(PcOf(s, w)).value); }
  }

  lemma TokensYieldHold(s: State, w: nat)
    requires Linear(s) && TokensOk(s) && CanYieldHold(s, w) && WorkerOk(s, s.workers[w])
    ensures Linear(DoYieldHold(s, w)) && TokensOk(DoYieldHold(s, w))
  {
    KeepOrDrop(s, DoYieldHold(s, w));
  }

  lemma InvYieldHold(s: State, w: nat)
    requires Inv(s) && CanYieldHold(s, w)
    ensures Inv(DoYieldHold(s, w))
  {
    var s' := DoYieldHold(s, w);
    assert WorkerOk(s, s.workers[w]);
    TokensYieldHold(s, w);
    assert SoleRunner(s') && ExecRuns(s') by { Ends(s, s', w, Running(PcOf(s, w)).value); }
    assert WorkersOk(s') by { OthersOk(s, s', w, Running(PcOf(s, w)).value); }
  }

  lemma InvLowerReady(s: State, w: nat)
    requires Inv(s) && CanLowerReady(s, w)
    ensures Inv(DoLowerReady(s, w))
  {
    var s' := DoLowerReady(s, w);
    assert WorkerOk(s, s.workers[w]);
    assert Linear(s') && TokensOk(s') by { KeepOrDrop(s, s'); }
    assert SoleRunner(s') && ExecRuns(s') by { SameRunners(s, s', w); }
  }

  lemma InvLowerDone(s: State, w: nat)
    requires Inv(s) && CanLowerDone(s, w)
    ensures Inv(DoLowerDone(s, w))
  {
    var s' := DoLowerDone(s, w);
    assert WorkerOk(s, s.workers[w]);
    assert Linear(s') && TokensOk(s') by { KeepOrDrop(s, s'); }
    assert SoleRunner(s') && ExecRuns(s') by { SameRunners(s, s', w); }
  }

  lemma TokensLowerCall(s: State, w: nat)
    requires Linear(s) && TokensOk(s) && CanLowerCall(s, w) && WorkerOk(s, s.workers[w])
    ensures Linear(DoLowerCall(s, w)) && TokensOk(DoLowerCall(s, w))
  {
    Move(s, DoLowerCall(s, w), HandAt(w), SpareAt(w));
  }

  lemma InvLowerCall(s: State, w: nat)
    requires Inv(s) && CanLowerCall(s, w)
    ensures Inv(DoLowerCall(s, w))
  {
    var s' := DoLowerCall(s, w);
    assert WorkerOk(s, s.workers[w]);
    TokensLowerCall(s, w);
    assert SoleRunner(s') && ExecRuns(s') by { SameRunners(s, s', w); }
    assert WorkersOk(s') by { OthersOk(s, s', w, PcOf(s, w).f); }
  }

  lemma InvPutBack(s: State, w: nat)
    requires Inv(s) && CanPutBack(s, w)
    ensures Inv(DoPutBack(s, w))
  {
    var s' := DoPutBack(s, w);
    assert WorkerOk(s, s.workers[w]);
    assert Linear(s') && TokensOk(s') by { Move(s, s', HandAt(w), QueueAt(|s.queue|)); }
    assert SoleRunner(s') && ExecRuns(s') by { SameRunners(s, s', w); }
  }

  lemma TokensArmEvent(s: State, w: nat, k: SlotKey)
    requires Linear(s) && TokensOk(s) && CanArmEvent(s, w, k)
    ensures Linear(DoArmEvent(s, w, k)) && TokensOk(DoArmEvent(s, w, k))
  {
    Move(s, DoArmEvent(s, w, k), BodyAt(w), SlotAt(k));
  }

  lemma InvArmEvent(s: State, w: nat, k: SlotKey)
    requires Inv(s) && CanArmEvent(s, w, k)
    ensures Inv(DoArmEvent(s, w, k))
  {
    var s' := DoArmEvent(s, w, k);
    assert WorkerOk(s, s.workers[w]);
    TokensArmEvent(s, w, k);
    assert SoleRunner(s') && ExecRuns(s') by { SameRunners(s, s', w); }
  }

  lemma TokensArmSleep(s: State, w: nat, t: nat)
    requires Linear(s) && TokensOk(s) && CanArmSleep(s, w, t)
    ensures Linear(DoArmSleep(s, w, t)) && TokensOk(DoArmSleep(s, w, t))
  {
    Move(s, DoArmSleep(s, w, t), BodyAt(w), TimerAt(t));
  }

  lemma InvArmSleep(s: State, w: nat, t: nat)
    requires Inv(s) && CanArmSleep(s, w, t)
    ensures Inv(DoArmSleep(s, w, t))
  {
    var s' := DoArmSleep(s, w, t);
    assert WorkerOk(s, s.workers[w]);
    TokensArmSleep(s, w, t);
    assert SoleRunner(s') && ExecRuns(s') by { SameRunners(s, s', w); }
  }

  lemma TokensArmSem(s: State, w: nat, m: nat)
    requires Linear(s) && TokensOk(s) && CanArmSem(s, w, m)
    ensures Linear(DoArmSem(s, w, m)) && TokensOk(DoArmSem(s, w, m))
  {
    Move(s, DoArmSem(s, w, m), BodyAt(w), WaiterAt(m, |s.sems[m].waiters|));
  }

  lemma InvArmSem(s: State, w: nat, m: nat)
    requires Inv(s) && CanArmSem(s, w, m)
    ensures Inv(DoArmSem(s, w, m))
  {
    var s' := DoArmSem(s, w, m);
    assert WorkerOk(s, s.workers[w]);
    TokensArmSem(s, w, m);
    assert SoleRunner(s') && ExecRuns(s') by { SameRunners(s, s', w); }
  }

  lemma TokensArmSwitch(s: State, w: nat, pin: Option<nat>)
    requires Linear(s) && TokensOk(s) && CanArmSwitch(s, w, pin)
    ensures Linear(DoArmSwitch(s, w, pin)) && TokensOk(DoArmSwitch(s, w, pin))
  {
    Move(s, DoArmSwitch(s, w, pin), BodyAt(w), QueueAt(|s.queue|));
  }

  lemma InvArmSwitch(s: State, w: nat, pin: Option<nat>)
    requires Inv(s) && CanArmSwitch(s, w, pin)
    ensures Inv(DoArmSwitch(s, w, pin))
  {
    var s' := DoArmSwitch(s, w, pin);
    assert WorkerOk(s, s.workers[w]);
    TokensArmSwitch(s, w, pin);
    assert SoleRunner(s') && ExecRuns(s') by { SameRunners(s, s', w); }
  }

  lemma InvTakeSem(s: State, a: Actor, m: nat)
    requires Inv(s) && CanTakeSem(s, a, m)
    ensures Inv(DoTakeSem(s, a, m))
  {
    var s' := DoTakeSem(s, a, m);
    assert Linear(s') && TokensOk(s') by { KeepOrDrop(s, s'); }
    assert SoleRunner(s') && ExecRuns(s') by { SameRunners(s, s', 0); }
  }

  lemma TokensNotifyWake(s: State, a: Actor, m: nat)
    requires Linear(s) && TokensOk(s) && CanNotifyWake(s, a, m)
    ensures Linear(DoNotifyWake(s, a, m)) && TokensOk(DoNotifyWake(s, a, m))
  {
    Relocate(s, DoNotifyWake(s, a, m), (p: Pos) => if p == QueueAt(|s.queue|) then WaiterAt(m, 0)
                            else if p.WaiterAt? && p.m == m then WaiterAt(m, p.i + 1) else p);
  }

  lemma InvNotifyWake(s: State, a: Actor, m: nat)
    requires Inv(s) && CanNotifyWake(s, a, m)
    ensures Inv(DoNotifyWake(s, a, m))
  {
    var s' := DoNotifyWake(s, a, m);
    TokensNotifyWake(s, a, m);
    assert SoleRunner(s') && ExecRuns(s') by { SameRunners(s, s', 0); }
  }

  lemma InvNotifyCount(s: State, a: Actor, m: nat)
    requires Inv(s) && CanNotifyCount(s, a, m)
    ensures Inv(DoNotifyCount(s, a, m))
  {
    var s' := DoNotifyCount(s, a, m);
    assert Linear(s') && TokensOk(s') by { KeepOrDrop(s, s'); }
    assert SoleRunner(s') && ExecRuns(s') by { SameRunners(s, s', 0); }
  }

  lemma InvAddCallEvent(s: State, a: Actor, k: SlotKey)
    requires Inv(s) && CanAddCallEvent(s, a, k)
    ensures Inv(DoAddCallEvent(s, a, k))
  {
    var s' := DoAddCallEvent(s, a, k);
    assert Linear(s') && TokensOk(s') by { Birth(s, s', SlotAt(k)); }
    assert SoleRunner(s') && ExecRuns(s') by { SameRunners(s, s', 0); }
  }

  lemma InvDelEvent(s: State, a: Actor, k: SlotKey)
    requires Inv(s) && CanDelEvent(s, a, k)
    ensures Inv(DoDelEvent(s, a, k))
  {
    var s' := DoDelEvent(s, a, k);
    assert At(s, SlotAt(k)).Some?;
    assert Linear(s') && TokensOk(s') by { KeepOrDrop(s, s'); }
    assert SoleRunner(s') && ExecRuns(s') by { SameRunners(s, s', 0); }
  }

  lemma InvCancelEvent(s: State, a: Actor, k: SlotKey)
    requires Inv(s) && CanCancelEvent(s, a, k)
    ensures Inv(DoCancelEvent(s, a, k))
  {
    InvTrigger(s, k);
  }

  lemma InvCancelAll(s: State, a: Actor, fd: nat)
    requires Inv(s) && CanCancelAll(s, a, fd)
    ensures Inv(DoCancelAll(s, a, fd))
  {
    InvTriggerFd(s, fd);
  }

  lemma InvAddCallTimer(s: State, a: Actor, t: nat)
    requires Inv(s) && CanAddCallTimer(s, a, t)
    ensures Inv(DoAddCallTimer(s, a, t))
  {
    var s' := DoAddCallTimer(s, a, t);
    assert Linear(s') && TokensOk(s') by { Birth(s, s', TimerAt(t)); }
    assert SoleRunner(s') && ExecRuns(s') by { SameRunners(s, s', 0); }
  }

  lemma InvAddRecurring(s: State, a: Actor, t: nat)
    requires Inv(s) && CanAddRecurring(s, a, t)
    ensures Inv(DoAddRecurring(s, a, t))
  {
    var s' := DoAddRecurring(s, a, t);
    assert Linear(s') && TokensOk(s') by { KeepOrDrop(s, s'); }
    assert SoleRunner(s') && ExecRuns(s') by { SameRunners(s, s', 0); }
  }

  lemma InvCancelTimer(s: State, a: Actor, t: nat)
    requires Inv(s) && CanCancelTimer(s, a, t)
    ensures Inv(DoCancelTimer(s, a, t))
  {
    var s' := DoCancelTimer(s, a, t);
    assert s.timers[t].Once? ==> At(s, TimerAt(t)).Some?;
    assert Linear(s') && TokensOk(s') by { KeepOrDrop(s, s'); }
    assert SoleRunner(s') && ExecRuns(s') by { SameRunners(s, s', 0); }
  }

  lemma InvSubmitCall(s: State, a: Actor, pin: Option<nat>)
    requires Inv(s) && CanSubmitCall(s, a, pin)
    ensures Inv(DoSubmitCall(s, a, pin))
  {
    var s' := DoSubmitCall(s, a, pin);
    assert Linear(s') && TokensOk(s') by { Birth(s, s', QueueAt(|s.queue|)); }
    assert SoleRunner(s') && ExecRuns(s') by { SameRunners(s, s', 0); }
  }

  lemma InvSubmitFiber(s: State, a: Actor, f: nat, pin: Option<nat>)
    requires Inv(s) && CanSubmitFiber(s, a, f, pin)
    ensures Inv(DoSubmitFiber(s, a, f, pin))
  {
    var s' := DoSubmitFiber(s, a, f, pin);
    assert Linear(s') && TokensOk(s') by { Birth(s, s', QueueAt(|s.queue|)); }
    assert SoleRunner(s') && ExecRuns(s') by { SameRunners(s, s', 0); }
  }

  /** Nothing holds an abandoned fiber. */
  lemma AbandonedUnheld(s: State, f: nat)
    requires WorkersOk(s) && Abandoned(s, f)
    ensures !Held(s, OfFiber(f))
  {
    forall p ensures At(s, p) != Some(OfFiber(f)) {
      match p
      case BodyAt(w) => if w < |s.workers| { assert WorkerOk(s, s.workers[w]); }
      case HandAt(w) => if w < |s.workers| { assert !WorkerHolds(s.workers[w], f); }
      case SpareAt(w) => if w < |s.workers| { assert !WorkerHolds(s.workers[w], f); }
      case BatchAt(w, i) => if w < |s.workers| { assert !WorkerHolds(s.workers[w], f); }
      case WaiterAt(m, i) => if At(s, p).Some? { assert s.sems[m].waiters[i] in s.sems[m].waiters; }
      case QueueAt(_) =>
      case SlotAt(_) =>
      case TimerAt(_) =>
    }
  }

  lemma InvWakeParked(s: State, a: Actor, f: nat, pin: Option<nat>)
    requires Inv(s) && CanWakeParked(s, a, f, pin)
    ensures Inv(DoWakeParked(s, a, f, pin))
  {
    var s' := DoWakeParked(s, a, f, pin);
    AbandonedUnheld(s, f);
    assert Linear(s') && TokensOk(s') by { Birth(s, s', QueueAt(|s.queue|)); }
    assert SoleRunner(s') && ExecRuns(s') by { SameRunners(s, s', 0); }
  }

  lemma TokensCollect(s: State, w: nat, t: nat)
    requires Linear(s) && TokensOk(s) && CanCollect(s, w, t)
    ensures Linear(DoCollect(s, w, t)) && TokensOk(DoCollect(s, w, t))
  {
    Move(s, DoCollect(s, w, t), TimerAt(t), BatchAt(w, |PcOf(s, w).batch|));
  }

  lemma InvCollect(s: State, w: nat, t: nat)
    requires Inv(s) && CanCollect(s, w, t)
    ensures Inv(DoCollect(s, w, t))
  {
    var s' := DoCollect(s, w, t);
    assert WorkerOk(s, s.workers[w]);
    TokensCollect(s, w, t);
    assert SoleRunner(s') && ExecRuns(s') by { SameRunners(s, s', w); }
  }

  lemma TokensCollectEvery(s: State, w: nat, t: nat)
    requires Linear(s) && TokensOk(s) && IdsOk(s) && CanCollectEvery(s, w, t)
    ensures Linear(DoCollectEvery(s, w, t)) && TokensOk(DoCollectEvery(s, w, t))
  {
    Birth(s, DoCollectEvery(s, w, t), BatchAt(w, |PcOf(s, w).batch|));
  }

  lemma InvCollectEvery(s: State, w: nat, t: nat)
    requires Inv(s) && CanCollectEvery(s, w, t)
    ensures Inv(DoCollectEvery(s, w, t))
  {
    var s' := DoCollectEvery(s, w, t);
    assert WorkerOk(s, s.workers[w]);
    TokensCollectEvery(s, w, t);
    assert SoleRunner(s') && ExecRuns(s') by { SameRunners(s, s', w); }
  }

  lemma TokensFlush(s: State, w: nat)
    requires Linear(s) && TokensOk(s) && CanFlush(s, w)
    ensures Linear(DoFlush(s, w)) && TokensOk(DoFlush(s, w))
  {
    Relocate(s, DoFlush(s, w), (p: Pos) => if p.QueueAt? && p.i >= |s.queue| then BatchAt(w, p.i - |s.queue|) else p);
  }

  lemma InvFlush(s: State, w: nat)
    requires Inv(s) && CanFlush(s, w)
    ensures Inv(DoFlush(s, w))
  {
    var s' := DoFlush(s, w);
    assert WorkerOk(s, s.workers[w]);
    TokensFlush(s, w);
    assert SoleRunner(s') && ExecRuns(s') by { SameRunners(s, s', w); }
  }

  lemma InvDispatch(s: State, w: nat, fd: nat)
    requires Inv(s) && CanDispatch(s, w, fd)
    ensures Inv(DoDispatch(s, w, fd))
  {
    InvTriggerFd(s, fd);
  }

  lemma InvSeeNoTimer(s: State, w: nat)
    requires Inv(s) && CanSeeNoTimer(s, w)
    ensures Inv(DoSeeNoTimer(s, w))
  {
    var s' := DoSeeNoTimer(s, w);
    assert WorkerOk(s, s.workers[w]);
    assert Linear(s') && TokensOk(s') by { KeepOrDrop(s, s'); }
    assert SoleRunner(s') && ExecRuns(s') by { SameRunners(s, s', w); }
  }

  lemma InvSeeNoEvent(s: State, w: nat)
    requires Inv(s) && CanSeeNoEvent(s, w)
    ensures Inv(DoSeeNoEvent(s, w))
  {
    var s' := DoSeeNoEvent(s, w);
    assert WorkerOk(s, s.workers[w]);
    assert Linear(s') && TokensOk(s') by { KeepOrDrop(s, s'); }
    assert SoleRunner(s') && ExecRuns(s') by { SameRunners(s, s', w); }
  }

  lemma InvDecideStop(s: State, w: nat)
    requires Inv(s) && CanDecideStop(s, w)
    ensures Inv(DoDecideStop(s, w))
  {
    var s' := DoDecideStop(s, w);
    assert WorkerOk(s, s.workers[w]);
    assert Linear(s') && TokensOk(s') by { KeepOrDrop(s, s'); }
    assert SoleRunner(s') && ExecRuns(s') by { SameRunners(s, s', w); }
  }

  lemma InvIdleOut(s: State, w: nat)
    requires Inv(s) && CanIdleOut(s, w)
    ensures Inv(DoIdleOut(s, w))
  {
    var s' := DoIdleOut(s, w);
    assert WorkerOk(s, s.workers[w]);
    TokensHandless(s, s', w);
    assert SoleRunner(s') && ExecRuns(s') by { SameRunners(s, s', w); }
  }

  lemma InvLeaveIdle(s: State, w: nat)
    requires Inv(s) && CanLeaveIdle(s, w)
    ensures Inv(DoLeaveIdle(s, w))
  {
    var s' := DoLeaveIdle(s, w);
    assert WorkerOk(s, s.workers[w]);
    TokensHandless(s, s', w);
    assert SoleRunner(s') && ExecRuns(s') by { SameRunners(s, s', w); }
  }

  lemma InvLoop(s: State, w: nat, l: LoopStep)
    requires Inv(s) && EnabledLoop(s, w, l)
    ensures Inv(ApplyLoop(s, w, l))
  {
    match l
    case Pick(i) => InvPick(s, w, i);
    case EnterIdle => InvEnterIdle(s, w);
    case Leave => InvLeave(s, w);
    case SwitchIn => InvSwitchIn(s, w);
    case SkipDead => SkipDeadNever(s, w);
    case ReuseCall => InvReuseCall(s, w);
    case NewCall(g) => InvNewCall(s, w, g);
    case FireWake => InvFireWake(s, w);
    case SwitchOut(st) => InvSwitchOut(s, w, st);
    case YieldHold => InvYieldHold(s, w);
    case LowerReady => InvLowerReady(s, w);
    case LowerDone => InvLowerDone(s, w);
    case LowerCall => InvLowerCall(s, w);
    case PutBack => InvPutBack(s, w);
  }

  lemma InvArm(s: State, w: nat, l: ArmStep)
    requires Inv(s) && EnabledArm(s, w, l)
    ensures Inv(ApplyArm(s, w, l))
  {
    match l
    case ArmEvent(k) => InvArmEvent(s, w, k);
    case ArmSleep(t) => InvArmSleep(s, w, t);
    case ArmSem(m) => InvArmSem(s, w, m);
    case ArmSwitch(pin) => InvArmSwitch(s, w, pin);
  }

  lemma InvApi(s: State, a: Actor, l: ApiStep)
    requires Inv(s) && EnabledApi(s, a, l)
    ensures Inv(ApplyApi(s, a, l))
  {
    match l
    case TakeSem(m) => InvTakeSem(s, a, m);
    case NotifyWake(m) => InvNotifyWake(s, a, m);
    case NotifyCount(m) => InvNotifyCount(s, a, m);
    case AddCallEvent(k) => InvAddCallEvent(s, a, k);
    case DelEvent(k) => InvDelEvent(s, a, k);
    case CancelEvent(k) => InvCancelEvent(s, a, k);
    case CancelAll(fd) => InvCancelAll(s, a, fd);
    case AddCallTimer(t) => InvAddCallTimer(s, a, t);
    case AddRecurring(t) => InvAddRecurring(s, a, t);
    case CancelTimer(t) => InvCancelTimer(s, a, t);
    case SubmitCall(pin) => InvSubmitCall(s, a, pin);
    case SubmitFiber(f, pin) => InvSubmitFiber(s, a, f, pin);
    case WakeParked(f, pin) => InvWakeParked(s, a, f, pin);
  }

  lemma InvIdle(s: State, w: nat, l: IdleStep)
    requires Inv(s) && EnabledIdle(s, w, l)
    ensures Inv(ApplyIdle(s, w, l))
  {
    match l
    case Collect(t) => InvCollect(s, w, t);
    case CollectEvery(t) => InvCollectEvery(s, w, t);
    case Flush => InvFlush(s, w);
    case Dispatch(fd) => InvDispatch(s, w, fd);
    case SeeNoTimer => InvSeeNoTimer(s, w);
    case SeeNoEvent => InvSeeNoEvent(s, w);
    case DecideStop => InvDecideStop(s, w);
    case IdleOut => InvIdleOut(s, w);
    case LeaveIdle => InvLeaveIdle(s, w);
  }
}
