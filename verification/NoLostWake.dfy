/** No wake-up is lost. */
module NoLostWake {
  import opened Basics
  import opened ParkWake
  import opened Ownership

  /** The token that a step of the worker loop uses up: a callback that starts, a fiber that ended, a
      fiber that parks without having handed out a wake-up. */
  function UsedLoop(s: State, w: nat, l: LoopStep): Option<Token>
    requires EnabledLoop(s, w, l)
  {
    match l
    case SkipDead => HandOf(PcOf(s, w))
    case ReuseCall => if PcOf(s, w).item.Call? then HandOf(PcOf(s, w)) else None
    case NewCall(_) => if PcOf(s, w).item.Call? then HandOf(PcOf(s, w)) else None
    case YieldHold => BodyOf(PcOf(s, w))
    case LowerDone => HandOf(PcOf(s, w))
    case _ => None
  }

  function UsedArm(s: State, w: nat, l: ArmStep): Option<Token> { None }

  /** Deleting an event and cancelling a one-shot timer drop what they held. */
  function UsedApi(s: State, a: Actor, l: ApiStep): Option<Token>
    requires EnabledApi(s, a, l)
  {
    match l
    case DelEvent(k) => Some(Tok(s.slots[k]))
    case CancelTimer(t) => if s.timers[t].Once? then Some(Tok(s.timers[t].item)) else None
    case _ => None
  }

  function UsedIdle(s: State, w: nat, l: IdleStep): Option<Token> { None }

  /** Where the token held at `p` goes. */
  function FwdLoop(s: State, w: nat, l: LoopStep, p: Pos): Pos
    requires EnabledLoop(s, w, l)
  {
    match l
    case Pick(i) => if p == QueueAt(i) then HandAt(w) else if p.QueueAt? && p.i > i then QueueAt(p.i - 1) else p
    case SwitchIn => if p == HandAt(w) then BodyAt(w) else p
    case ReuseCall => if p == SpareAt(w) then BodyAt(w) else p
    case FireWake => if p == HandAt(w) then QueueAt(|s.queue|) else p
    case SwitchOut(st) => if p == BodyAt(w) then HandAt(w) else p
    case LowerCall => if p == HandAt(w) then SpareAt(w) else p
    case PutBack => if p == HandAt(w) then QueueAt(|s.queue|) else p
    case _ => p
  }

  /** Where the token held at `p` goes. */
  function FwdArm(s: State, w: nat, l: ArmStep, p: Pos): Pos
    requires EnabledArm(s, w, l)
  {
    match l
    case ArmEvent(k) => if p == BodyAt(w) then SlotAt(k) else p
    case ArmSleep(t) => if p == BodyAt(w) then TimerAt(t) else p
    case ArmSem(m) => if p == BodyAt(w) then WaiterAt(m, |s.sems[m].waiters|) else p
    case ArmSwitch(pin) => if p == BodyAt(w) then QueueAt(|s.queue|) else p
  }

  /** Where the token held at `p` goes. */
  function FwdApi(s: State, a: Actor, l: ApiStep, p: Pos): Pos
    requires EnabledApi(s, a, l)
  {
    match l
    case NotifyWake(m) =>
      if p == WaiterAt(m, 0) then QueueAt(|s.queue|)
      else if p.WaiterAt? && p.m == m then WaiterAt(m, p.i - 1)
      else p
    case CancelEvent(k) => if p == SlotAt(k) then QueueAt(|s.queue|) else p
    case _ => p
  }

  /** Where the token held at `p` goes. */
  function FwdIdle(s: State, w: nat, l: IdleStep, p: Pos): Pos
    requires EnabledIdle(s, w, l)
  {
    match l
    case Collect(t) => if p == TimerAt(t) then BatchAt(w, |PcOf(s, w).batch|) else p
    case Flush => if p.BatchAt? && p.w == w then QueueAt(|s.queue| + p.i) else p
    case _ => p
  }

  lemma SurviveTake(s: State, w: nat, l: LoopStep, p: Pos)
    requires EnabledLoop(s, w, l) && (l.Pick? || l.EnterIdle? || l.Leave? || l.SwitchIn? || l.SkipDead?)
    requires At(s, p).Some? && At(s, p) != UsedLoop(s, w, l)
    ensures Held(ApplyLoop(s, w, l), At(s, p).value)
  {
    assert At(ApplyLoop(s, w, l), FwdLoop(s, w, l, p)) == At(s, p);
  }

  lemma SurviveCall(s: State, w: nat, l: LoopStep, p: Pos)
    requires EnabledLoop(s, w, l) && (l.ReuseCall? || l.NewCall? || l.FireWake?) && WorkersOk(s)
    requires At(s, p).Some? && At(s, p) != UsedLoop(s, w, l)
    ensures Held(ApplyLoop(s, w, l), At(s, p).value)
  {
    assert At(ApplyLoop(s, w, l), FwdLoop(s, w, l, p)) == At(s, p);
  }

  lemma SurviveOut(s: State, w: nat, l: LoopStep, p: Pos)
    requires EnabledLoop(s, w, l) && (l.SwitchOut? || l.YieldHold?) && WorkersOk(s)
    requires At(s, p).Some? && At(s, p) != UsedLoop(s, w, l)
    ensures Held(ApplyLoop(s, w, l), At(s, p).value)
  {
    assert At(ApplyLoop(s, w, l), FwdLoop(s, w, l, p)) == At(s, p);
  }

  lemma SurviveLower(s: State, w: nat, l: LoopStep, p: Pos)
    requires EnabledLoop(s, w, l) && (l.LowerReady? || l.LowerDone? || l.LowerCall? || l.PutBack?) && WorkersOk(s)
    requires At(s, p).Some? && At(s, p) != UsedLoop(s, w, l)
    ensures Held(ApplyLoop(s, w, l), At(s, p).value)
  {
    assert At(ApplyLoop(s, w, l), FwdLoop(s, w, l, p)) == At(s, p);
  }

  lemma SurviveArm(s: State, w: nat, l: ArmStep, p: Pos)
    requires EnabledArm(s, w, l)
    requires At(s, p).Some? && At(s, p) != UsedArm(s, w, l)
    ensures Held(ApplyArm(s, w, l), At(s, p).value)
  {
    assert At(ApplyArm(s, w, l), FwdArm(s, w, l, p)) == At(s, p);
  }

  lemma SurviveEvent(s: State, a: Actor, l: ApiStep, p: Pos)
    requires EnabledApi(s, a, l)
    requires l.TakeSem? || l.NotifyWake? || l.NotifyCount? || l.AddCallEvent? || l.DelEvent? || l.CancelEvent?
    requires At(s, p).Some? && At(s, p) != UsedApi(s, a, l)
    ensures Held(ApplyApi(s, a, l), At(s, p).value)
  {
    assert At(ApplyApi(s, a, l), FwdApi(s, a, l, p)) == At(s, p);
  }

  lemma SurviveTimer(s: State, a: Actor, l: ApiStep, p: Pos)
    requires EnabledApi(s, a, l)
    requires l.AddCallTimer? || l.AddRecurring? || l.CancelTimer? || l.SubmitCall? || l.SubmitFiber? || l.WakeParked?
    requires At(s, p).Some? && At(s, p) != UsedApi(s, a, l)
    ensures Held(ApplyApi(s, a, l), At(s, p).value)
  {
    assert At(ApplyApi(s, a, l), FwdApi(s, a, l, p)) == At(s, p);
  }

  lemma SurviveBatch(s: State, w: nat, l: IdleStep, p: Pos)
    requires EnabledIdle(s, w, l) && (l.Collect? || l.CollectEvery? || l.Flush?)
    requires At(s, p).Some? && At(s, p) != UsedIdle(s, w, l)
    ensures Held(ApplyIdle(s, w, l), At(s, p).value)
  {
    assert At(ApplyIdle(s, w, l), FwdIdle(s, w, l, p)) == At(s, p);
  }

  lemma SurviveProbe(s: State, w: nat, l: IdleStep, p: Pos)
    requires EnabledIdle(s, w, l) && (l.SeeNoTimer? || l.SeeNoEvent? || l.DecideStop? || l.IdleOut? || l.LeaveIdle?)
    requires At(s, p).Some? && At(s, p) != UsedIdle(s, w, l)
    ensures Held(ApplyIdle(s, w, l), At(s, p).value)
  {
    assert At(ApplyIdle(s, w, l), FwdIdle(s, w, l, p)) == At(s, p);
  }

  lemma SurviveTrigger(s: State, k: SlotKey, t: Token)
    requires Held(s, t)
    ensures Held(Trigger(s, k), t)
  {
    var p :| At(s, p) == Some(t);
    assert At(Trigger(s, k), if p == SlotAt(k) && k in s.slots then QueueAt(|s.queue|) else p) == Some(t);
  }

  lemma SurviveTriggerFd(s: State, fd: nat, t: Token)
    requires Held(s, t)
    ensures Held(TriggerFd(s, fd), t)
  {
    SurviveTrigger(s, SlotKey(fd, READ), t);
    SurviveTrigger(Trigger(s, SlotKey(fd, READ)), SlotKey(fd, WRITE), t);
  }

  lemma SurviveLoop(s: State, w: nat, l: LoopStep, p: Pos)
    requires EnabledLoop(s, w, l) && WorkersOk(s)
    requires At(s, p).Some? && At(s, p) != UsedLoop(s, w, l)
    ensures Held(ApplyLoop(s, w, l), At(s, p).value)
  {
    match l
    case Pick(i) => SurviveTake(s, w, l, p);
    case EnterIdle => SurviveTake(s, w, l, p);
    case Leave => SurviveTake(s, w, l, p);
    case SwitchIn => SurviveTake(s, w, l, p);
    case SkipDead => SurviveTake(s, w, l, p);
    case ReuseCall => SurviveCall(s, w, l, p);
    case NewCall(g) => SurviveCall(s, w, l, p);
    case FireWake => SurviveCall(s, w, l, p);
    case SwitchOut(st) => SurviveOut(s, w, l, p);
    case YieldHold => SurviveOut(s, w, l, p);
    case LowerReady => SurviveLower(s, w, l, p);
    case LowerDone => SurviveLower(s, w, l, p);
    case LowerCall => SurviveLower(s, w, l, p);
    case PutBack => SurviveLower(s, w, l, p);
  }

  lemma SurviveApi(s: State, a: Actor, l: ApiStep, p: Pos)
    requires EnabledApi(s, a, l) && WorkersOk(s)
    requires At(s, p).Some? && At(s, p) != UsedApi(s, a, l)
    ensures Held(ApplyApi(s, a, l), At(s, p).value)
  {
    match l
    case TakeSem(m) => SurviveEvent(s, a, l, p);
    case NotifyWake(m) => SurviveEvent(s, a, l, p);
    case NotifyCount(m) => SurviveEvent(s, a, l, p);
    case AddCallEvent(k) => SurviveEvent(s, a, l, p);
    case DelEvent(k) => SurviveEvent(s, a, l, p);
    case CancelEvent(k) => SurviveEvent(s, a, l, p);
    case CancelAll(fd) => SurviveTriggerFd(s, fd, At(s, p).value);
    case AddCallTimer(t) => SurviveTimer(s, a, l, p);
    case AddRecurring(t) => SurviveTimer(s, a, l, p);
    case CancelTimer(t) => SurviveTimer(s, a, l, p);
    case SubmitCall(pin) => SurviveTimer(s, a, l, p);
    case SubmitFiber(f, pin) => SurviveTimer(s, a, l, p);
    case WakeParked(f, pin) => SurviveTimer(s, a, l, p);
  }

  lemma SurviveIdle(s: State, w: nat, l: IdleStep, p: Pos)
    requires EnabledIdle(s, w, l) && WorkersOk(s)
    requires At(s, p).Some? && At(s, p) != UsedIdle(s, w, l)
    ensures Held(ApplyIdle(s, w, l), At(s, p).value)
  {
    match l
    case Collect(t) => SurviveBatch(s, w, l, p);
    case CollectEvery(t) => SurviveBatch(s, w, l, p);
    case Flush => SurviveBatch(s, w, l, p);
    case Dispatch(fd) => SurviveTriggerFd(s, fd, At(s, p).value);
    case SeeNoTimer => SurviveProbe(s, w, l, p);
    case SeeNoEvent => SurviveProbe(s, w, l, p);
    case DecideStop => SurviveProbe(s, w, l, p);
    case IdleOut => SurviveProbe(s, w, l, p);
    case LeaveIdle => SurviveProbe(s, w, l, p);
  }
}
