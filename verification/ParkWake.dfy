/**
  The park/wake protocol of one scheduler: worker threads, the shared task queue, fibers,
  event slots, fiber semaphores and timers (scheduler, fiber, iomanager, mutex, hook).

  The protocol is a labelled step relation over any number of workers, fibers, descriptors,
  semaphores and timers. One label is one critical section or one thread-local stretch of code.

  Atomicity. A `YieldToHold` (state change, context switch and the bookkeeping after the switch) is
  one step; without that, a fiber could be resumed before its context is saved. All other code is
  split: in particular the active counter drops in one step and a READY fiber is put back in the
  queue in a later one.

  Discipline of task code. A fiber that has handed out a wake-up for itself (armed) yields next;
  a fiber is scheduled by hand only when it is new, or parked and nothing else will resume it.
*/
module ParkWake {
  import opened Basics

  datatype FiberState = INIT | HOLD | EXEC | TERM | READY | EXCEPT

  datatype SlotKey = SlotKey(fd: nat, ev: Ev)

  /** What can sit in a queue entry, an event slot or a timer: a fiber to resume, a callback that
      will schedule a sleeping fiber, or a user callback with its own identity. */
  datatype Item = Resume(f: nat) | WakeCall(f: nat) | Call(id: nat)

  datatype Entry = Entry(item: Item, pin: Option<nat>)

  /** Where a worker stands in `Scheduler::run`. */
  datatype Pc =
    | Head                                              // about to scan the queue
    | Took(item: Item)                                  // entry erased, active counter raised
    | InFiber(f: nat, armed: bool)                      // switched into a queued fiber
    | InCall(g: nat, wake: Option<nat>, armed: bool)    // switched into the callback fiber
    | Left(f: nat, call: bool)                          // switched out, counter not yet lowered
    | Requeue(f: nat, call: bool)                       // counter lowered, READY fiber still in hand
    | InIdle(batch: seq<Item>)                          // inside the idle fiber
    | Probe1                                            // idle: saw no timer
    | Probe2                                            // idle: saw no timer, then no pending event
    | LeavingIdle                                       // idle fiber switched out
    | Gone                                              // left `run`

  datatype Worker = Worker(pc: Pc, cb: Option<nat>, idle: FiberState)

  datatype Sem = Sem(count: nat, waiters: seq<nat>)

  datatype TimerBody = Once(item: Item) | Every

  datatype State = State(
    io: bool,                        // an IOManager (true) or a plain Scheduler (false)
    queue: seq<Entry>,
    fibers: map<nat, FiberState>,
    workers: seq<Worker>,
    slots: map<SlotKey, Item>,
    sems: map<nat, Sem>,
    timers: map<nat, TimerBody>,
    active: int,
    idling: int,
    stop: bool,
    next: nat,                       // next unused callback identity
    started: seq<nat>,               // callbacks started, in order
    dropped: set<nat>)               // callbacks cancelled or deleted before they were queued

  /** Code that calls the API: a task on a worker, or a thread outside the pool. */
  datatype Actor = OnWorker(w: nat) | Outside

  /** A turn of the worker loop or a switch of its current fiber. */
  datatype LoopStep =
    | Pick(i: nat)
    | EnterIdle
    | Leave
    | SwitchIn
    | SkipDead
    | ReuseCall
    | NewCall(g: nat)
    | FireWake
    | SwitchOut(st: FiberState)
    | YieldHold
    | LowerReady
    | LowerDone
    | LowerCall
    | PutBack

  /** A running fiber hands out a wake-up for itself. */
  datatype ArmStep =
    | ArmEvent(k: SlotKey)
    | ArmSleep(t: nat)
    | ArmSem(m: nat)
    | ArmSwitch(pin: Option<nat>)

  /** A call into the API from task code or from outside. */
  datatype ApiStep =
    | TakeSem(m: nat)
    | NotifyWake(m: nat)
    | NotifyCount(m: nat)
    | AddCallEvent(k: SlotKey)
    | DelEvent(k: SlotKey)
    | CancelEvent(k: SlotKey)
    | CancelAll(fd: nat)
    | AddCallTimer(t: nat)
    | AddRecurring(t: nat)
    | CancelTimer(t: nat)
    | SubmitCall(pin: Option<nat>)
    | SubmitFiber(f: nat, pin: Option<nat>)
    | WakeParked(f: nat, pin: Option<nat>)

  /** A part of the idle fiber's loop. */
  datatype IdleStep =
    | Collect(t: nat)
    | CollectEvery(t: nat)
    | Flush
    | Dispatch(fd: nat)
    | SeeNoTimer
    | SeeNoEvent
    | DecideStop
    | IdleOut
    | LeaveIdle

  datatype Label = Loop(w: nat, loop: LoopStep) | Arming(w: nat, arm: ArmStep) | Api(a: Actor, api: ApiStep)
                 | Idling(w: nat, idle: IdleStep) | Stop

  // ---------------------------------------------------------------- reading a state

  predicate IsWorker(s: State, w: nat) { w < |s.workers| }

  function PcOf(s: State, w: nat): Pc
    requires IsWorker(s, w)
  {
    s.workers[w].pc
  }

  /** The fiber whose code the worker is executing. */
  function Running(pc: Pc): Option<nat> {
    match pc
    case InFiber(f, _) => Some(f)
    case InCall(g, _, _) => Some(g)
    case _ => None
  }

  /** Task code that may call the API: it runs, has not armed itself, and (for the callback of a
      sleep timer) has already scheduled its sleeper. */
  predicate Free(pc: Pc) {
    match pc
    case InFiber(_, armed) => !armed
    case InCall(_, wake, armed) => wake.None? && !armed
    case _ => false
  }

  predicate MayYield(pc: Pc) {
    match pc
    case InFiber(_, _) => true
    case InCall(_, wake, _) => wake.None?
    case _ => false
  }

  predicate MayAct(s: State, a: Actor) {
    match a
    case OnWorker(w) => IsWorker(s, w) && Free(PcOf(s, w))
    case Outside => true
  }

  /** The scan in `run` skips entries pinned to another thread and fibers still in EXEC. */
  predicate Eligible(s: State, w: nat, e: Entry) {
    && (e.pin.None? || e.pin.value == w)
    && !(e.item.Resume? && e.item.f in s.fibers && s.fibers[e.item.f] == EXEC)
  }

  predicate NothingFor(s: State, w: nat) {
    forall j :: 0 <= j < |s.queue| ==> !Eligible(s, w, s.queue[j])
  }

  /** What is left to do with the item includes resuming the fiber. */
  predicate Resumes(item: Item, f: nat) { item == Resume(f) || item == WakeCall(f) }

  /** The worker will resume the fiber, put it back, or reuse it. */
  predicate WorkerHolds(wk: Worker, f: nat) {
    || wk.cb == Some(f)
    || match wk.pc
       case Took(item) => Resumes(item, f)
       case InCall(_, wake, _) => wake == Some(f)
       case Left(g, _) => g == f
       case Requeue(g, _) => g == f
       case InIdle(batch) => exists i :: 0 <= i < |batch| && Resumes(batch[i], f)
       case _ => false
  }

  /** A fiber that yielded to HOLD and that nothing in the scheduler will resume. */
  ghost predicate Abandoned(s: State, f: nat) {
    && f in s.fibers && s.fibers[f] == HOLD
    && (forall i :: 0 <= i < |s.queue| ==> !Resumes(s.queue[i].item, f))
    && (forall k :: k in s.slots ==> !Resumes(s.slots[k], f))
    && (forall m :: m in s.sems ==> f !in s.sems[m].waiters)
    && (forall t :: t in s.timers && s.timers[t].Once? ==> !Resumes(s.timers[t].item, f))
    && (forall w :: 0 <= w < |s.workers| ==> !WorkerHolds(s.workers[w], f))
  }

  // ---------------------------------------------------------------- building blocks of a step

  function WithWorker(s: State, w: nat, wk: Worker): State
    requires IsWorker(s, w)
  {
    s.(workers := s.workers[w := wk])
  }

  function WithPc(s: State, w: nat, pc: Pc): State
    requires IsWorker(s, w)
  {
    WithWorker(s, w, s.workers[w].(pc := pc))
  }

  function WithFiber(s: State, f: nat, st: FiberState): State {
    s.(fibers := s.fibers[f := st])
  }

  function Push(s: State, item: Item, pin: Option<nat>): State {
    s.(queue := s.queue + [Entry(item, pin)])
  }

  function Arm(pc: Pc): Pc
    requires Free(pc)
  {
    match pc
    case InFiber(f, _) => InFiber(f, true)
    case InCall(g, wake, _) => InCall(g, wake, true)
  }

  function Entries(items: seq<Item>): (es: seq<Entry>)
    ensures |es| == |items|
  {
    seq(|items|, i requires 0 <= i < |items| => Entry(items[i], None))
  }

  /** `FdContext::triggerEvent`: clear the slot and schedule what it held. */
  function Trigger(s: State, k: SlotKey): (t: State)
    ensures t == s.(slots := t.slots, queue := t.queue)
  {
    if k in s.slots then Push(s.(slots := s.slots - {k}), s.slots[k], None) else s
  }

  function TriggerFd(s: State, fd: nat): (t: State)
    ensures t == s.(slots := t.slots, queue := t.queue)
  {
    Trigger(Trigger(s, SlotKey(fd, READ)), SlotKey(fd, WRITE))
  }

  function CallBody(item: Item): Option<nat> {
    if item.WakeCall? then Some(item.f) else None
  }

  // ---------------------------------------------------------------- the step relation

  /** A callback starts in fiber `g`: `Fiber::reset` or a new fiber, then `swapIn`. */
  function BeginCall(s: State, w: nat, g: nat): State
    requires IsWorker(s, w) && PcOf(s, w).Took? && !PcOf(s, w).item.Resume?
  {
    var item := PcOf(s, w).item;
    WithWorker(WithFiber(s, g, EXEC), w, s.workers[w].(pc := InCall(g, CallBody(item), false), cb := Some(g)))
    .(started := if item.Call? then s.started + [item.id] else s.started)
  }

  predicate CanPick(s: State, w: nat, i: nat) {
    IsWorker(s, w) && PcOf(s, w).Head? && i < |s.queue| && Eligible(s, w, s.queue[i])
    && forall j :: 0 <= j < i ==> !Eligible(s, w, s.queue[j])
  }

  /** Queue scan: take the first entry this worker may run. */
  function DoPick(s: State, w: nat, i: nat): State
    requires CanPick(s, w, i)
  {
    WithPc(s.(queue := s.queue[..i] + s.queue[i + 1..], active := s.active + 1), w, Took(s.queue[i].item))
  }

  predicate CanEnterIdle(s: State, w: nat) {
    IsWorker(s, w) && PcOf(s, w).Head? && NothingFor(s, w) && s.workers[w].idle != TERM
  }

  /** Queue scan found nothing: switch to the idle fiber. */
  function DoEnterIdle(s: State, w: nat): State
    requires CanEnterIdle(s, w)
  {
    WithWorker(s.(idling := s.idling + 1), w, s.workers[w].(pc := InIdle([]), idle := EXEC))
  }

  predicate CanLeave(s: State, w: nat) {
    IsWorker(s, w) && PcOf(s, w).Head? && NothingFor(s, w) && s.workers[w].idle == TERM
  }

  /** Queue scan found nothing and the idle fiber has ended: leave `run`. */
  function DoLeave(s: State, w: nat): State
    requires CanLeave(s, w)
  {
    WithPc(s, w, Gone)
  }

  predicate CanSwitchIn(s: State, w: nat) {
    IsWorker(s, w) && PcOf(s, w).Took? && PcOf(s, w).item.Resume? && PcOf(s, w).item.f in s.fibers
    && s.fibers[PcOf(s, w).item.f] !in {TERM, EXCEPT}
  }

  /** A live fiber was picked. */
  function DoSwitchIn(s: State, w: nat): State
    requires CanSwitchIn(s, w)
  {
    WithPc(WithFiber(s, PcOf(s, w).item.f, EXEC), w, InFiber(PcOf(s, w).item.f, false))
  }

  predicate CanSkipDead(s: State, w: nat) {
    IsWorker(s, w) && PcOf(s, w).Took? && PcOf(s, w).item.Resume? && PcOf(s, w).item.f in s.fibers
    && s.fibers[PcOf(s, w).item.f] in {TERM, EXCEPT}
  }

  /** A picked fiber that has already ended is thrown away. */
  function DoSkipDead(s: State, w: nat): State
    requires CanSkipDead(s, w)
  {
    WithPc(s.(active := s.active - 1), w, Head)
  }

  predicate CanReuseCall(s: State, w: nat) {
    IsWorker(s, w) && PcOf(s, w).Took? && !PcOf(s, w).item.Resume? && s.workers[w].cb.Some?
  }

  /** A callback was picked: reset the worker's callback fiber and switch to it. */
  function DoReuseCall(s: State, w: nat): State
    requires CanReuseCall(s, w)
  {
    BeginCall(s, w, s.workers[w].cb.value)
  }

  predicate CanNewCall(s: State, w: nat, g: nat) {
    IsWorker(s, w) && PcOf(s, w).Took? && !PcOf(s, w).item.Resume? && s.workers[w].cb.None? && g !in s.fibers
  }

  /** A callback was picked and there is no callback fiber: make one. */
  function DoNewCall(s: State, w: nat, g: nat): State
    requires CanNewCall(s, w, g)
  {
    BeginCall(s, w, g)
  }

  predicate CanFireWake(s: State, w: nat) {
    IsWorker(s, w) && PcOf(s, w).InCall? && PcOf(s, w).wake.Some? && !PcOf(s, w).armed
  }

  /** The callback of a sleep timer schedules its sleeper. */
  function DoFireWake(s: State, w: nat): State
    requires CanFireWake(s, w)
  {
    Push(WithPc(s, w, InCall(PcOf(s, w).g, None, false)), Resume(PcOf(s, w).wake.value), None)
  }

  predicate CanSwitchOut(s: State, w: nat, st: FiberState) {
    IsWorker(s, w) && Free(PcOf(s, w)) && st in {READY, TERM, EXCEPT}
  }

  /** `YieldToReady` (READY) and the end of `MainFunc` (TERM, EXCEPT), up to the switch. */
  function DoSwitchOut(s: State, w: nat, st: FiberState): State
    requires CanSwitchOut(s, w, st)
  {
    var pc := PcOf(s, w);
    WithPc(WithFiber(s, Running(pc).value, st), w, Left(Running(pc).value, pc.InCall?))
  }

  predicate CanYieldHold(s: State, w: nat) {
    IsWorker(s, w) && MayYield(PcOf(s, w))
  }

  /** `YieldToHold` with the bookkeeping of `run` after the switch. */
  function DoYieldHold(s: State, w: nat): State
    requires CanYieldHold(s, w)
  {
    var pc := PcOf(s, w);
    WithWorker(WithFiber(s.(active := s.active - 1), Running(pc).value, HOLD), w,
               s.workers[w].(pc := Head, cb := if pc.InCall? then None else s.workers[w].cb))
  }

  predicate CanLowerReady(s: State, w: nat) {
    IsWorker(s, w) && PcOf(s, w).Left? && PcOf(s, w).f in s.fibers && s.fibers[PcOf(s, w).f] == READY
  }

  /** After the switch: lower the active counter; the fiber is READY and stays in hand. */
  function DoLowerReady(s: State, w: nat): State
    requires CanLowerReady(s, w)
  {
    WithPc(s.(active := s.active - 1), w, Requeue(PcOf(s, w).f, PcOf(s, w).call))
  }

  predicate CanLowerDone(s: State, w: nat) {
    IsWorker(s, w) && PcOf(s, w).Left? && !PcOf(s, w).call && PcOf(s, w).f in s.fibers
    && s.fibers[PcOf(s, w).f] in {TERM, EXCEPT}
  }

  /** After the switch: lower the active counter; a queued fiber has ended. */
  function DoLowerDone(s: State, w: nat): State
    requires CanLowerDone(s, w)
  {
    WithPc(s.(active := s.active - 1), w, Head)
  }

  predicate CanLowerCall(s: State, w: nat) {
    IsWorker(s, w) && PcOf(s, w).Left? && PcOf(s, w).call && PcOf(s, w).f in s.fibers
    && s.fibers[PcOf(s, w).f] in {TERM, EXCEPT}
  }

  /** After the switch: lower the active counter; the callback fiber has ended and is reset. */
  function DoLowerCall(s: State, w: nat): State
    requires CanLowerCall(s, w)
  {
    WithPc(WithFiber(s.(active := s.active - 1), PcOf(s, w).f, INIT), w, Head)
  }

  predicate CanPutBack(s: State, w: nat) {
    IsWorker(s, w) && PcOf(s, w).Requeue?
  }

  /** A READY fiber goes back to the queue, unpinned. */
  function DoPutBack(s: State, w: nat): State
    requires CanPutBack(s, w)
  {
    var Requeue(f, call) := PcOf(s, w);
    WithWorker(Push(s, Resume(f), None), w, s.workers[w].(pc := Head, cb := if call then None else s.workers[w].cb))
  }

  predicate CanArmEvent(s: State, w: nat, k: SlotKey) {
    IsWorker(s, w) && Free(PcOf(s, w)) && k !in s.slots
  }

  /** `addEvent` without a callback, as in `do_io` (a failing `epoll_ctl` changes nothing). */
  function DoArmEvent(s: State, w: nat, k: SlotKey): State
    requires CanArmEvent(s, w, k)
  {
    WithPc(s.(slots := s.slots[k := Resume(Running(PcOf(s, w)).value)]), w, Arm(PcOf(s, w)))
  }

  predicate CanArmSleep(s: State, w: nat, t: nat) {
    IsWorker(s, w) && Free(PcOf(s, w)) && t !in s.timers
  }

  /** The hooked `sleep` and `usleep`: a one-shot timer whose callback schedules this fiber. */
  function DoArmSleep(s: State, w: nat, t: nat): State
    requires CanArmSleep(s, w, t)
  {
    WithPc(s.(timers := s.timers[t := Once(WakeCall(Running(PcOf(s, w)).value))]), w, Arm(PcOf(s, w)))
  }

  predicate CanArmSem(s: State, w: nat, m: nat) {
    IsWorker(s, w) && Free(PcOf(s, w)) && m in s.sems && s.sems[m].count == 0
  }

  /** `FiberSemaphore::wait` with no permit left. */
  function DoArmSem(s: State, w: nat, m: nat): State
    requires CanArmSem(s, w, m)
  {
    var sem := s.sems[m].(waiters := s.sems[m].waiters + [Running(PcOf(s, w)).value]);
    WithPc(s.(sems := s.sems[m := sem]), w, Arm(PcOf(s, w)))
  }

  predicate CanArmSwitch(s: State, w: nat, pin: Option<nat>) {
    IsWorker(s, w) && Free(PcOf(s, w))
  }

  /** `Scheduler::switchTo`: schedule the current fiber on a thread, then yield. */
  function DoArmSwitch(s: State, w: nat, pin: Option<nat>): State
    requires CanArmSwitch(s, w, pin)
  {
    WithPc(Push(s, Resume(Running(PcOf(s, w)).value), pin), w, Arm(PcOf(s, w)))
  }

  predicate CanTakeSem(s: State, a: Actor, m: nat) {
    MayAct(s, a) && m in s.sems && s.sems[m].count > 0
  }

  /** `tryWait` or `wait` with a permit. */
  function DoTakeSem(s: State, a: Actor, m: nat): State
    requires CanTakeSem(s, a, m)
  {
    s.(sems := s.sems[m := s.sems[m].(count := s.sems[m].count - 1)])
  }

  predicate CanNotifyWake(s: State, a: Actor, m: nat) {
    MayAct(s, a) && m in s.sems && |s.sems[m].waiters| > 0
  }

  /** `FiberSemaphore::notify` with a waiter. */
  function DoNotifyWake(s: State, a: Actor, m: nat): State
    requires CanNotifyWake(s, a, m)
  {
    Push(s.(sems := s.sems[m := s.sems[m].(waiters := s.sems[m].waiters[1..])]), Resume(s.sems[m].waiters[0]), None)
  }

  predicate CanNotifyCount(s: State, a: Actor, m: nat) {
    MayAct(s, a) && m in s.sems && |s.sems[m].waiters| == 0
  }

  /** `FiberSemaphore::notify` without a waiter. */
  function DoNotifyCount(s: State, a: Actor, m: nat): State
    requires CanNotifyCount(s, a, m)
  {
    s.(sems := s.sems[m := s.sems[m].(count := s.sems[m].count + 1)])
  }

  predicate CanAddCallEvent(s: State, a: Actor, k: SlotKey) {
    MayAct(s, a) && k !in s.slots
  }

  /** `addEvent` with a callback. */
  function DoAddCallEvent(s: State, a: Actor, k: SlotKey): State
    requires CanAddCallEvent(s, a, k)
  {
    s.(slots := s.slots[k := Call(s.next)], next := s.next + 1)
  }

  predicate CanDelEvent(s: State, a: Actor, k: SlotKey) {
    MayAct(s, a) && k in s.slots
  }

  /** `delEvent`: forget the registration without running it. */
  function DoDelEvent(s: State, a: Actor, k: SlotKey): State
    requires CanDelEvent(s, a, k)
  {
    s.(slots := s.slots - {k},
       dropped := if s.slots[k].Call? then s.dropped + {s.slots[k].id} else s.dropped)
  }

  predicate CanCancelEvent(s: State, a: Actor, k: SlotKey) {
    MayAct(s, a) && k in s.slots
  }

  /** `cancelEvent`, also called by the timeout callback of `do_io`. */
  function DoCancelEvent(s: State, a: Actor, k: SlotKey): State
    requires CanCancelEvent(s, a, k)
  {
    Trigger(s, k)
  }

  predicate CanCancelAll(s: State, a: Actor, fd: nat) {
    MayAct(s, a)
  }

  /** `cancelAll`, called when a descriptor is closed. */
  function DoCancelAll(s: State, a: Actor, fd: nat): State
    requires CanCancelAll(s, a, fd)
  {
    TriggerFd(s, fd)
  }

  predicate CanAddCallTimer(s: State, a: Actor, t: nat) {
    MayAct(s, a) && t !in s.timers
  }

  /** `addTimer` and `addConditionTimer` for a one-shot user callback. */
  function DoAddCallTimer(s: State, a: Actor, t: nat): State
    requires CanAddCallTimer(s, a, t)
  {
    s.(timers := s.timers[t := Once(Call(s.next))], next := s.next + 1)
  }

  predicate CanAddRecurring(s: State, a: Actor, t: nat) {
    MayAct(s, a) && t !in s.timers
  }

  /** `addTimer` for a recurring user callback. */
  function DoAddRecurring(s: State, a: Actor, t: nat): State
    requires CanAddRecurring(s, a, t)
  {
    s.(timers := s.timers[t := Every])
  }

  predicate CanCancelTimer(s: State, a: Actor, t: nat) {
    MayAct(s, a) && t in s.timers && (s.timers[t].Every? || s.timers[t].item.Call?)
  }

  /** `Timer::cancel`; the handle of a sleep timer is discarded, so only user timers are cancelled. */
  function DoCancelTimer(s: State, a: Actor, t: nat): State
    requires CanCancelTimer(s, a, t)
  {
    s.(timers := s.timers - {t},
       dropped := if s.timers[t].Once? then s.dropped + {s.timers[t].item.id} else s.dropped)
  }

  predicate CanSubmitCall(s: State, a: Actor, pin: Option<nat>) {
    MayAct(s, a)
  }

  /** `schedule` of a callback. */
  function DoSubmitCall(s: State, a: Actor, pin: Option<nat>): State
    requires CanSubmitCall(s, a, pin)
  {
    Push(s.(next := s.next + 1), Call(s.next), pin)
  }

  predicate CanSubmitFiber(s: State, a: Actor, f: nat, pin: Option<nat>) {
    MayAct(s, a) && f !in s.fibers
  }

  /** `schedule` of a new fiber. */
  function DoSubmitFiber(s: State, a: Actor, f: nat, pin: Option<nat>): State
    requires CanSubmitFiber(s, a, f, pin)
  {
    Push(WithFiber(s, f, INIT), Resume(f), pin)
  }

  ghost predicate CanWakeParked(s: State, a: Actor, f: nat, pin: Option<nat>) {
    MayAct(s, a) && Abandoned(s, f)
  }

  /** `schedule` by hand of a fiber that parked itself without handing out a wake-up. */
  ghost function DoWakeParked(s: State, a: Actor, f: nat, pin: Option<nat>): State
    requires CanWakeParked(s, a, f, pin)
  {
    Push(s, Resume(f), pin)
  }

  predicate CanCollect(s: State, w: nat, t: nat) {
    IsWorker(s, w) && PcOf(s, w).InIdle? && t in s.timers && s.timers[t].Once?
  }

  /** `listExpiredCb`: an expired one-shot timer moves to the local batch. */
  function DoCollect(s: State, w: nat, t: nat): State
    requires CanCollect(s, w, t)
  {
    WithPc(s.(timers := s.timers - {t}), w, InIdle(PcOf(s, w).batch + [s.timers[t].item]))
  }

  predicate CanCollectEvery(s: State, w: nat, t: nat) {
    IsWorker(s, w) && PcOf(s, w).InIdle? && t in s.timers && s.timers[t].Every?
  }

  /** `listExpiredCb`: an expired recurring timer adds a run of its callback to the batch. */
  function DoCollectEvery(s: State, w: nat, t: nat): State
    requires CanCollectEvery(s, w, t)
  {
    WithPc(s.(next := s.next + 1), w, InIdle(PcOf(s, w).batch + [Call(s.next)]))
  }

  predicate CanFlush(s: State, w: nat) {
    IsWorker(s, w) && PcOf(s, w).InIdle?
  }

  /** The whole batch is scheduled under one lock. */
  function DoFlush(s: State, w: nat): State
    requires CanFlush(s, w)
  {
    WithPc(s.(queue := s.queue + Entries(PcOf(s, w).batch)), w, InIdle([]))
  }

  predicate CanDispatch(s: State, w: nat, fd: nat) {
    IsWorker(s, w) && PcOf(s, w).InIdle?
  }

  /** Every event registered on a ready descriptor is triggered. */
  function DoDispatch(s: State, w: nat, fd: nat): State
    requires CanDispatch(s, w, fd)
  {
    TriggerFd(s, fd)
  }

  predicate CanSeeNoTimer(s: State, w: nat) {
    s.io && IsWorker(s, w) && PcOf(s, w) == InIdle([]) && s.timers == map[]
  }

  /** `IOManager::stopping`, first read. */
  function DoSeeNoTimer(s: State, w: nat): State
    requires CanSeeNoTimer(s, w)
  {
    WithPc(s, w, Probe1)
  }

  predicate CanSeeNoEvent(s: State, w: nat) {
    IsWorker(s, w) && PcOf(s, w).Probe1? && s.slots == map[]
  }

  /** `IOManager::stopping`, second read. */
  function DoSeeNoEvent(s: State, w: nat): State
    requires CanSeeNoEvent(s, w)
  {
    WithPc(s, w, Probe2)
  }

  predicate CanDecideStop(s: State, w: nat) {
    IsWorker(s, w) && (if s.io then PcOf(s, w).Probe2? else PcOf(s, w) == InIdle([]))
    && s.stop && s.queue == [] && s.active == 0
  }

  /** `Scheduler::stopping` holds: the idle fiber ends. */
  function DoDecideStop(s: State, w: nat): State
    requires CanDecideStop(s, w)
  {
    WithWorker(s, w, s.workers[w].(pc := LeavingIdle, idle := TERM))
  }

  predicate CanIdleOut(s: State, w: nat) {
    IsWorker(s, w) && (PcOf(s, w) == InIdle([]) || PcOf(s, w).Probe1? || PcOf(s, w).Probe2?)
  }

  /** The idle fiber gives the thread back without ending. */
  function DoIdleOut(s: State, w: nat): State
    requires CanIdleOut(s, w)
  {
    WithPc(s, w, LeavingIdle)
  }

  predicate CanLeaveIdle(s: State, w: nat) {
    IsWorker(s, w) && PcOf(s, w).LeavingIdle?
  }

  /** `run` after the idle fiber. */
  function DoLeaveIdle(s: State, w: nat): State
    requires CanLeaveIdle(s, w)
  {
    WithWorker(s.(idling := s.idling - 1), w,
               s.workers[w].(pc := Head, idle := if s.workers[w].idle == TERM then TERM else HOLD))
  }

  predicate EnabledLoop(s: State, w: nat, l: LoopStep) {
    match l
    case Pick(i) => CanPick(s, w, i)
    case EnterIdle => CanEnterIdle(s, w)
    case Leave => CanLeave(s, w)
    case SwitchIn => CanSwitchIn(s, w)
    case SkipDead => CanSkipDead(s, w)
    case ReuseCall => CanReuseCall(s, w)
    case NewCall(g) => CanNewCall(s, w, g)
    case FireWake => CanFireWake(s, w)
    case SwitchOut(st) => CanSwitchOut(s, w, st)
    case YieldHold => CanYieldHold(s, w)
    case LowerReady => CanLowerReady(s, w)
    case LowerDone => CanLowerDone(s, w)
    case LowerCall => CanLowerCall(s, w)
    case PutBack => CanPutBack(s, w)
  }

  function ApplyLoop(s: State, w: nat, l: LoopStep): State
    requires EnabledLoop(s, w, l)
  {
    match l
    case Pick(i) => DoPick(s, w, i)
    case EnterIdle => DoEnterIdle(s, w)
    case Leave => DoLeave(s, w)
    case SwitchIn => DoSwitchIn(s, w)
    case SkipDead => DoSkipDead(s, w)
    case ReuseCall => DoReuseCall(s, w)
    case NewCall(g) => DoNewCall(s, w, g)
    case FireWake => DoFireWake(s, w)
    case SwitchOut(st) => DoSwitchOut(s, w, st)
    case YieldHold => DoYieldHold(s, w)
    case LowerReady => DoLowerReady(s, w)
    case LowerDone => DoLowerDone(s, w)
    case LowerCall => DoLowerCall(s, w)
    case PutBack => DoPutBack(s, w)
  }

  predicate EnabledArm(s: State, w: nat, l: ArmStep) {
    match l
    case ArmEvent(k) => CanArmEvent(s, w, k)
    case ArmSleep(t) => CanArmSleep(s, w, t)
    case ArmSem(m) => CanArmSem(s, w, m)
    case ArmSwitch(pin) => CanArmSwitch(s, w, pin)
  }

  function ApplyArm(s: State, w: nat, l: ArmStep): State
    requires EnabledArm(s, w, l)
  {
    match l
    case ArmEvent(k) => DoArmEvent(s, w, k)
    case ArmSleep(t) => DoArmSleep(s, w, t)
    case ArmSem(m) => DoArmSem(s, w, m)
    case ArmSwitch(pin) => DoArmSwitch(s, w, pin)
  }

  ghost predicate EnabledApi(s: State, a: Actor, l: ApiStep) {
    match l
    case TakeSem(m) => CanTakeSem(s, a, m)
    case NotifyWake(m) => CanNotifyWake(s, a, m)
    case NotifyCount(m) => CanNotifyCount(s, a, m)
    case AddCallEvent(k) => CanAddCallEvent(s, a, k)
    case DelEvent(k) => CanDelEvent(s, a, k)
    case CancelEvent(k) => CanCancelEvent(s, a, k)
    case CancelAll(fd) => CanCancelAll(s, a, fd)
    case AddCallTimer(t) => CanAddCallTimer(s, a, t)
    case AddRecurring(t) => CanAddRecurring(s, a, t)
    case CancelTimer(t) => CanCancelTimer(s, a, t)
    case SubmitCall(pin) => CanSubmitCall(s, a, pin)
    case SubmitFiber(f, pin) => CanSubmitFiber(s, a, f, pin)
    case WakeParked(f, pin) => CanWakeParked(s, a, f, pin)
  }

  ghost function ApplyApi(s: State, a: Actor, l: ApiStep): State
    requires EnabledApi(s, a, l)
  {
    match l
    case TakeSem(m) => DoTakeSem(s, a, m)
    case NotifyWake(m) => DoNotifyWake(s, a, m)
    case NotifyCount(m) => DoNotifyCount(s, a, m)
    case AddCallEvent(k) => DoAddCallEvent(s, a, k)
    case DelEvent(k) => DoDelEvent(s, a, k)
    case CancelEvent(k) => DoCancelEvent(s, a, k)
    case CancelAll(fd) => DoCancelAll(s, a, fd)
    case AddCallTimer(t) => DoAddCallTimer(s, a, t)
    case AddRecurring(t) => DoAddRecurring(s, a, t)
    case CancelTimer(t) => DoCancelTimer(s, a, t)
    case SubmitCall(pin) => DoSubmitCall(s, a, pin)
    case SubmitFiber(f, pin) => DoSubmitFiber(s, a, f, pin)
    case WakeParked(f, pin) => DoWakeParked(s, a, f, pin)
  }

  predicate EnabledIdle(s: State, w: nat, l: IdleStep) {
    match l
    case Collect(t) => CanCollect(s, w, t)
    case CollectEvery(t) => CanCollectEvery(s, w, t)
    case Flush => CanFlush(s, w)
    case Dispatch(fd) => CanDispatch(s, w, fd)
    case SeeNoTimer => CanSeeNoTimer(s, w)
    case SeeNoEvent => CanSeeNoEvent(s, w)
    case DecideStop => CanDecideStop(s, w)
    case IdleOut => CanIdleOut(s, w)
    case LeaveIdle => CanLeaveIdle(s, w)
  }

  function ApplyIdle(s: State, w: nat, l: IdleStep): State
    requires EnabledIdle(s, w, l)
  {
    match l
    case Collect(t) => DoCollect(s, w, t)
    case CollectEvery(t) => DoCollectEvery(s, w, t)
    case Flush => DoFlush(s, w)
    case Dispatch(fd) => DoDispatch(s, w, fd)
    case SeeNoTimer => DoSeeNoTimer(s, w)
    case SeeNoEvent => DoSeeNoEvent(s, w)
    case DecideStop => DoDecideStop(s, w)
    case IdleOut => DoIdleOut(s, w)
    case LeaveIdle => DoLeaveIdle(s, w)
  }

  ghost predicate Enabled(s: State, l: Label) {
    match l
    case Loop(w, x) => EnabledLoop(s, w, x)
    case Arming(w, x) => EnabledArm(s, w, x)
    case Api(a, x) => EnabledApi(s, a, x)
    case Idling(w, x) => EnabledIdle(s, w, x)
    case Stop => true
  }

  ghost function Apply(s: State, l: Label): State
    requires Enabled(s, l)
  {
    match l
    case Loop(w, x) => ApplyLoop(s, w, x)
    case Arming(w, x) => ApplyArm(s, w, x)
    case Api(a, x) => ApplyApi(s, a, x)
    case Idling(w, x) => ApplyIdle(s, w, x)
    case Stop => s.(stop := true)
  }

  ghost predicate Init(s: State) {
    && |s.workers| > 0
    && s.queue == [] && s.fibers == map[] && s.slots == map[] && s.timers == map[]
    && (forall w :: 0 <= w < |s.workers| ==> s.workers[w] == Worker(Head, None, INIT))
    && (forall m :: m in s.sems ==> s.sems[m].waiters == [])
    && s.active == 0 && s.idling == 0 && !s.stop
    && s.next == 0 && s.started == [] && s.dropped == {}
  }

  /** A run: states linked by enabled labels, starting in an initial state. */
  ghost predicate IsRun(ss: seq<State>, ls: seq<Label>) {
    && |ss| == |ls| + 1
    && Init(ss[0])
    && forall i :: 0 <= i < |ls| ==> Enabled(ss[i], ls[i]) && ss[i + 1] == Apply(ss[i], ls[i])
  }
}
