/** What each call on the event table does to bits, waiters, counters and kernel, field by field. */
module EventEffects {
  import opened Basics
  import opened EventTable
  import opened KernelInterest

  // ---------------------------------------------------------------- reading the fields

  predicate Registered(c: FdContext, ev: Ev) { if ev == READ then c.read.Some? else c.write.Some? }

  function Waiter(c: FdContext, ev: Ev): nat
    requires Registered(c, ev)
  {
    if ev == READ then c.read.value else c.write.value
  }

  /** The reader, then the writer. */
  function WaitersOf(c: FdContext): seq<nat> {
    (if c.read.Some? then [c.read.value] else []) + (if c.write.Some? then [c.write.value] else [])
  }

  /** The kernel watches exactly these bits of the descriptor; none: it does not know the descriptor. */
  predicate Watches(t: Table, fd: nat, read: bool, write: bool) {
    if read || write then fd in t.kernel && t.kernel[fd] == Mask(read, write) else fd !in t.kernel
  }

  /** Only the context and the kernel's registration of one descriptor differ. */
  ghost predicate OnlyAt(t: Table, t': Table, fd: nat) {
    && fd < |t.contexts| == |t'.contexts|
    && (forall d :: 0 <= d < |t.contexts| && d != fd ==> t'.contexts[d] == t.contexts[d])
    && (forall d :: d != fd && d in t.kernel ==> d in t'.kernel && t'.kernel[d] == t.kernel[d])
    && (forall d :: d != fd && d in t'.kernel ==> d in t.kernel)
  }

  // ---------------------------------------------------------------- delEvent and cancelEvent

  /** One waiter has left: its slot is empty, the other slot is as it was, the counter is one lower, and the kernel
      watches what is still registered. */
  ghost predicate Removed(t: Table, t': Table, fd: nat, ev: Ev) {
    && OnlyAt(t, t', fd) && t'.pending == t.pending - 1 && t'.added == t.added
    && var c, c' := t.contexts[fd], t'.contexts[fd];
       if ev == READ then c'.read == None && c'.write == c.write && Watches(t', fd, false, c.write.Some?)
       else c'.write == None && c'.read == c.read && Watches(t', fd, c.read.Some?, false)
  }

  /** `delEvent` and `cancelEvent` succeed if and only if the event is registered, the kernel knows the descriptor, and
      the system call is allowed. */
  predicate Removable(t: Table, fd: nat, ev: Ev, allow: bool) {
    allow && fd in t.kernel && fd < |t.contexts| && Registered(t.contexts[fd], ev)
  }

  /** `cancelEvent` hands exactly the waiter to the scheduler; if it fails nothing changes. */
  lemma CancelEffect(t: Table, fd: nat, ev: Ev, allow: bool)
    requires Formed(t)
    ensures Removable(t, fd, ev, allow) <==> DelOk(t, fd, ev, allow)
    ensures Removable(t, fd, ev, allow) ==>
              && Removed(t, Cancel(t, fd, ev, allow), fd, ev)
              && Cancel(t, fd, ev, allow).scheduled == t.scheduled + [Waiter(t.contexts[fd], ev)]
              && Cancel(t, fd, ev, allow).deleted == t.deleted
    ensures !Removable(t, fd, ev, allow) ==> Cancel(t, fd, ev, allow) == t
  {
    if fd < |t.contexts| { assert CtxOk(t.contexts[fd]); }
  }

  /** `delEvent` forgets exactly the waiter and schedules nobody; if it fails nothing changes. */
  lemma DelEffect(t: Table, fd: nat, ev: Ev, allow: bool)
    requires Formed(t)
    ensures Removable(t, fd, ev, allow) <==> DelOk(t, fd, ev, allow)
    ensures Removable(t, fd, ev, allow) ==>
              && Removed(t, Del(t, fd, ev, allow), fd, ev)
              && Del(t, fd, ev, allow).scheduled == t.scheduled
              && Del(t, fd, ev, allow).deleted == t.deleted + [Waiter(t.contexts[fd], ev)]
    ensures !Removable(t, fd, ev, allow) ==> Del(t, fd, ev, allow) == t
  {
    if fd < |t.contexts| { assert CtxOk(t.contexts[fd]); }
  }

  // ---------------------------------------------------------------- addEvent

  /** The context of a descriptor; a descriptor beyond the table has nothing registered. */
  function ContextOf(t: Table, fd: nat): FdContext {
    if fd < |t.contexts| then t.contexts[fd] else FdContext(Mask(false, false), None, None)
  }

  /** `addEvent` succeeds if and only if the event is not registered yet, the call is allowed, and the kernel knows the
      descriptor exactly when the other event is registered. */
  predicate Addable(t: Table, fd: nat, ev: Ev, allow: bool) {
    var c := ContextOf(t, fd);
    !Registered(c, ev) && allow && (fd in t.kernel <==> c.read.Some? || c.write.Some?)
  }

  lemma AddOutcomes(t: Table, fd: nat, ev: Ev, allow: bool)
    requires Formed(t)
    ensures AddOutcome(t, fd, ev, allow) == Aborted <==> Registered(ContextOf(t, fd), ev)
    ensures AddOutcome(t, fd, ev, allow) == Added <==> Addable(t, fd, ev, allow)
  {
    if fd < |t.contexts| { assert CtxOk(t.contexts[fd]); }
  }

  /** One waiter has been stored in its slot, and nothing else has changed. */
  ghost predicate Stored(t: Table, t': Table, fd: nat, ev: Ev, who: nat) {
    && fd < |t'.contexts| && t'.pending == t.pending + 1 && t'.added == t.added + [who]
    && t'.scheduled == t.scheduled && t'.deleted == t.deleted
    && (forall d: nat :: d != fd ==> ContextOf(t', d) == ContextOf(t, d))
    && (forall d :: d != fd && d in t.kernel ==> d in t'.kernel && t'.kernel[d] == t.kernel[d])
    && (forall d :: d != fd && d in t'.kernel ==> d in t.kernel)
    && var c, c' := ContextOf(t, fd), t'.contexts[fd];
       if ev == READ then c'.read == Some(who) && c'.write == c.write && Watches(t', fd, true, c.write.Some?)
       else c'.write == Some(who) && c'.read == c.read && Watches(t', fd, c.read.Some?, true)
  }

  lemma GrownContexts(t: Table, fd: nat, d: nat)
    requires Formed(t)
    ensures ContextOf(t.(contexts := Grown(t.contexts, fd)), d) == ContextOf(t, d)
  {
  }

  /** `addEvent` stores the waiter in the slot of its event; if it fails at most empty contexts are added. */
  lemma AddEffect(t: Table, fd: nat, ev: Ev, who: nat, allow: bool)
    requires Formed(t)
    ensures Addable(t, fd, ev, allow) ==> Stored(t, Add(t, fd, ev, who, allow), fd, ev, who)
    ensures !Addable(t, fd, ev, allow) ==>
              && Add(t, fd, ev, who, allow).(contexts := t.contexts) == t
              && forall d: nat :: ContextOf(Add(t, fd, ev, who, allow), d) == ContextOf(t, d)
  {
    AddOutcomes(t, fd, ev, allow);
    forall d: nat ensures ContextOf(t.(contexts := Grown(t.contexts, fd)), d) == ContextOf(t, d) {
      GrownContexts(t, fd, d);
    }
    var c := Grown(t.contexts, fd)[fd];
    assert CtxOk(c) && c == ContextOf(t, fd);
  }

  // ---------------------------------------------------------------- cancelAll and dispatch

  /** All waiters of the descriptor were handed to the scheduler, the reader first. */
  ghost predicate Fired(t: Table, t': Table, fd: nat) {
    && OnlyAt(t, t', fd) && t'.added == t.added && t'.deleted == t.deleted
    && t'.contexts[fd] == FdContext(Mask(false, false), None, None)
    && t'.scheduled == t.scheduled + WaitersOf(t.contexts[fd])
    && t'.pending == t.pending - |WaitersOf(t.contexts[fd])|
  }

  lemma FireAllEffect(t: Table, fd: nat)
    requires fd < |t.contexts| && CtxOk(t.contexts[fd])
    ensures Fired(t, FireAll(t, fd), fd) && FireAll(t, fd).kernel == t.kernel
  {
  }

  /** `cancelAll` hands every waiter of the descriptor to the scheduler, and the kernel forgets the descriptor; if it
      fails nothing changes. */
  lemma CancelAllEffect(t: Table, fd: nat, allow: bool)
    requires Formed(t)
    ensures var ok := allow && fd in t.kernel && fd < |t.contexts| && WaitersOf(t.contexts[fd]) != [];
            && (ok <==> CancelAllOk(t, fd, allow))
            && (ok ==> Fired(t, CancelEvery(t, fd, allow), fd) && fd !in CancelEvery(t, fd, allow).kernel)
            && (!ok ==> CancelEvery(t, fd, allow) == t)
  {
    if fd < |t.contexts| {
      assert CtxOk(t.contexts[fd]);
      FireAllEffect(AfterCtl(t, fd, NONE), fd);
    }
  }

  /** The kernel watches exactly what is registered on the descriptor. */
  predicate AgreesAt(t: Table, fd: nat) {
    fd < |t.contexts| ==> Watches(t, fd, t.contexts[fd].read.Some?, t.contexts[fd].write.Some?)
  }

  /** A reported event wakes its descriptor if and only if a reported bit is registered; then both waiters are
      scheduled and the kernel keeps the registered bits that were not reported. */
  lemma DispatchEffect(t: Table, fd: nat, ready: Mask)
    requires Formed(t) && AgreesAt(t, fd)
    ensures var c := ContextOf(t, fd); var t' := Dispatch(t, fd, ready, true);
            if (ready.read && c.read.Some?) || (ready.write && c.write.Some?)
            then Fired(t, t', fd) && Watches(t', fd, c.read.Some? && !ready.read, c.write.Some? && !ready.write)
            else t' == t
  {
    if fd < |t.contexts| {
      assert CtxOk(t.contexts[fd]);
      FireAllEffect(AfterCtl(t, fd, Minus(t.contexts[fd].events, ready)), fd);
    }
  }

  // ---------------------------------------------------------------- runs

  /** Only `delEvent` forgets a waiter. */
  lemma DeletedStep(t: Table, c: Call)
    requires Valid(t)
    ensures !c.DelCall? ==> Step(t, c).deleted == t.deleted
  {
    match c
    case AddCall(fd, ev, who, allow) =>
    case DelCall(fd, ev, allow) =>
    case CancelCall(fd, ev, allow) => CancelEffect(t, fd, ev, allow);
    case CancelAllCall(fd, allow) => CancelAllEffect(t, fd, allow);
    case ReadyCall(fd, ready, allow) =>
  }

  /** Over every run without `delEvent` nobody is forgotten: every waiter that was added is still registered or has
      been scheduled, as often as it was added. */
  lemma {:induction false} NobodyForgotten(calls: seq<Call>, who: nat)
    requires forall i :: 0 <= i < |calls| ==> !calls[i].DelCall?
    ensures var t := After(calls);
            t.deleted == [] && multiset(t.added)[who] == Waiters(t.contexts)[who] + multiset(t.scheduled)[who]
    decreases |calls|
  {
    if calls != [] {
      var n := |calls| - 1;
      NobodyForgotten(calls[..n], who);
      DeletedStep(After(calls[..n]), calls[n]);
    }
  }

  /** The calls that can end a registration, and what becomes of its waiter. */
  ghost predicate Ended(t: Table, t': Table, c: Call, fd: nat, ev: Ev)
    requires fd < |t.contexts| && Registered(t.contexts[fd], ev)
  {
    && fd < |t'.contexts| && !Registered(t'.contexts[fd], ev) && !c.AddCall? && c.fd == fd
    && var who := Waiter(t.contexts[fd], ev);
       if c.DelCall? then c.ev == ev && t'.deleted == t.deleted + [who] && t'.scheduled == t.scheduled
       else && t'.deleted == t.deleted && t.scheduled <= t'.scheduled && who in t'.scheduled[|t.scheduled|..]
            && (c.CancelCall? ==> c.ev == ev)
  }

  predicate SameSlot(t: Table, t': Table, fd: nat, ev: Ev)
    requires fd < |t.contexts|
  {
    fd < |t'.contexts| && if ev == READ then t'.contexts[fd].read == t.contexts[fd].read
                          else t'.contexts[fd].write == t.contexts[fd].write
  }

  lemma EndedByFire(t: Table, t': Table, c: Call, fd: nat, ev: Ev)
    requires fd < |t.contexts| && Registered(t.contexts[fd], ev) && Fired(t, t', fd)
    requires c.fd == fd && (c.CancelAllCall? || c.ReadyCall?)
    ensures Ended(t, t', c, fd, ev)
  {
    assert Waiter(t.contexts[fd], ev) in WaitersOf(t.contexts[fd]);
    assert t'.scheduled[|t.scheduled|..] == WaitersOf(t.contexts[fd]);
  }

  lemma DispatchFires(t: Table, fd: nat, ready: Mask, allow: bool)
    requires Formed(t)
    ensures Dispatch(t, fd, ready, allow) == t || Fired(t, Dispatch(t, fd, ready, allow), fd)
  {
    if DispatchOk(t, fd, ready, allow) {
      assert CtxOk(t.contexts[fd]);
      FireAllEffect(AfterCtl(t, fd, Minus(t.contexts[fd].events, ready)), fd);
    }
  }

  /** A registration lasts until a call on its descriptor ends it; that call schedules the waiter, unless it is
      `delEvent`, which forgets it. */
  lemma RegistrationLasts(t: Table, c: Call, fd: nat, ev: Ev)
    requires Valid(t) && fd < |t.contexts| && Registered(t.contexts[fd], ev)
    ensures SameSlot(t, Step(t, c), fd, ev) || Ended(t, Step(t, c), c, fd, ev)
  {
    match c
    case AddCall(d, x, who, allow) =>
      AddEffect(t, d, x, who, allow);
      assert ContextOf(Step(t, c), fd) == ContextOf(t, fd) || d == fd;
    case DelCall(d, x, allow) => DelEffect(t, d, x, allow);
    case CancelCall(d, x, allow) => CancelEffect(t, d, x, allow);
    case CancelAllCall(d, allow) =>
      CancelAllEffect(t, d, allow);
      if d == fd && Step(t, c) != t { EndedByFire(t, Step(t, c), c, fd, ev); }
    case ReadyCall(d, ready, allow) =>
      DispatchFires(t, d, ready, allow);
      if d == fd && Step(t, c) != t { EndedByFire(t, Step(t, c), c, fd, ev); }
  }
}
