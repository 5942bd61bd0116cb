/**
  The event registrations of an IOManager: per-descriptor event bits and waiters, the pending counter,
  and the interest set held by the kernel.

  One public call is one step (it runs under the descriptor's lock). `epoll_ctl` succeeds when the
  operation is legal for the kernel's current registration and `allow` holds; `allow` is arbitrary.
*/
module EventTable {
  import opened Basics

  /** READ = 0x1 and WRITE = 0x4, which are also EPOLLIN and EPOLLOUT. */
  datatype Mask = Mask(read: bool, write: bool)

  const NONE := Mask(false, false)

  /** `FdContext`: the registered bits and, per event, the fiber or callback to schedule. */
  datatype FdContext = FdContext(events: Mask, read: Option<nat>, write: Option<nat>)

  const EMPTY := FdContext(NONE, None, None)

  /** The whole table. `added` and `deleted` record the waiters that entered by a successful `addEvent`
      and left by `delEvent`; `scheduled` those handed to a scheduler, in order. */
  datatype Table = Table(contexts: seq<FdContext>, pending: int, kernel: map<nat, Mask>,
                         scheduled: seq<nat>, added: seq<nat>, deleted: seq<nat>)

  datatype CtlOp = ADD | MOD | DEL

  datatype AddResult = Added | CtlFailed | Aborted

  // ---------------------------------------------------------------- masks and contexts

  function Bit(ev: Ev): Mask { if ev.READ? then Mask(true, false) else Mask(false, true) }

  function Or(a: Mask, b: Mask): Mask { Mask(a.read || b.read, a.write || b.write) }

  function Minus(a: Mask, b: Mask): Mask { Mask(a.read && !b.read, a.write && !b.write) }

  predicate Meets(a: Mask, b: Mask) { (a.read && b.read) || (a.write && b.write) }

  predicate Covers(a: Mask, b: Mask) { (b.read ==> a.read) && (b.write ==> a.write) }

  function Slot(c: FdContext, ev: Ev): Option<nat> { if ev.READ? then c.read else c.write }

  function WithSlot(c: FdContext, ev: Ev, who: Option<nat>): FdContext {
    if ev.READ? then c.(read := who) else c.(write := who)
  }

  predicate CtxOk(c: FdContext) { c.events == Mask(c.read.Some?, c.write.Some?) }

  // ---------------------------------------------------------------- the kernel

  predicate Legal(kernel: map<nat, Mask>, op: CtlOp, fd: nat) {
    if op.ADD? then fd !in kernel else fd in kernel
  }

  function Ctl(kernel: map<nat, Mask>, op: CtlOp, fd: nat, mask: Mask): map<nat, Mask> {
    if op.DEL? then kernel - {fd} else kernel[fd := mask]
  }

  /** The operation chosen when some bits stay registered. */
  function OpFor(left: Mask): CtlOp { if left == NONE then DEL else MOD }

  // ---------------------------------------------------------------- the calls

  /** `contextResize(fd * 1.5)` when the descriptor has no context yet. */
  function Grown(cs: seq<FdContext>, fd: nat): (r: seq<FdContext>)
    ensures cs <= r
    ensures forall i :: |cs| <= i < |r| ==> r[i] == EMPTY
    ensures |cs| >= 2 ==> fd < |r|
  {
    if fd < |cs| || 3 * fd / 2 < |cs| then cs else cs + seq(3 * fd / 2 - |cs|, _ => EMPTY)
  }

  function AddOp(t: Table, fd: nat): CtlOp
    requires fd < |Grown(t.contexts, fd)|
  {
    if Grown(t.contexts, fd)[fd].events == NONE then ADD else MOD
  }

  function AddOutcome(t: Table, fd: nat, ev: Ev, allow: bool): AddResult
    requires fd < |Grown(t.contexts, fd)|
  {
    if Meets(Grown(t.contexts, fd)[fd].events, Bit(ev)) then Aborted
    else if allow && Legal(t.kernel, AddOp(t, fd), fd) then Added
    else CtlFailed
  }

  function Add(t: Table, fd: nat, ev: Ev, who: nat, allow: bool): Table
    requires fd < |Grown(t.contexts, fd)|
  {
    var cs := Grown(t.contexts, fd);
    if AddOutcome(t, fd, ev, allow) != Added then t.(contexts := cs)
    else
      var mask := Or(cs[fd].events, Bit(ev));
      t.(contexts := cs[fd := WithSlot(cs[fd], ev, Some(who)).(events := mask)],
         pending := t.pending + 1, kernel := Ctl(t.kernel, AddOp(t, fd), fd, mask), added := t.added + [who])
  }

  /** `FdContext::triggerEvent` and the decrement that goes with it. */
  function Fire(t: Table, fd: nat, ev: Ev): (r: Table)
    requires fd < |t.contexts|
    ensures |r.contexts| == |t.contexts| && r.kernel == t.kernel
  {
    var c := t.contexts[fd];
    if !Meets(c.events, Bit(ev)) || Slot(c, ev).None? then t
    else t.(contexts := t.contexts[fd := WithSlot(c, ev, None).(events := Minus(c.events, Bit(ev)))],
            pending := t.pending - 1, scheduled := t.scheduled + [Slot(c, ev).value])
  }

  function FireAll(t: Table, fd: nat): Table
    requires fd < |t.contexts|
  {
    Fire(Fire(t, fd, READ), fd, WRITE)
  }

  predicate DelOk(t: Table, fd: nat, ev: Ev, allow: bool) {
    && fd < |t.contexts| && Meets(t.contexts[fd].events, Bit(ev))
    && allow && Legal(t.kernel, OpFor(Minus(t.contexts[fd].events, Bit(ev))), fd)
  }

  function AfterCtl(t: Table, fd: nat, left: Mask): Table {
    t.(kernel := Ctl(t.kernel, OpFor(left), fd, left))
  }

  function Del(t: Table, fd: nat, ev: Ev, allow: bool): Table {
    if !DelOk(t, fd, ev, allow) || Slot(t.contexts[fd], ev).None? then t
    else
      var c := t.contexts[fd];
      AfterCtl(t, fd, Minus(c.events, Bit(ev)))
      .(contexts := t.contexts[fd := WithSlot(c, ev, None).(events := Minus(c.events, Bit(ev)))],
        pending := t.pending - 1, deleted := t.deleted + [Slot(c, ev).value])
  }

  function Cancel(t: Table, fd: nat, ev: Ev, allow: bool): Table {
    if !DelOk(t, fd, ev, allow) then t
    else Fire(AfterCtl(t, fd, Minus(t.contexts[fd].events, Bit(ev))), fd, ev)
  }

  predicate CancelAllOk(t: Table, fd: nat, allow: bool) {
    fd < |t.contexts| && t.contexts[fd].events != NONE && allow && Legal(t.kernel, DEL, fd)
  }

  function CancelEvery(t: Table, fd: nat, allow: bool): Table {
    if !CancelAllOk(t, fd, allow) then t else FireAll(AfterCtl(t, fd, NONE), fd)
  }

  predicate DispatchOk(t: Table, fd: nat, ready: Mask, allow: bool) {
    && fd < |t.contexts| && Meets(t.contexts[fd].events, ready)
    && allow && Legal(t.kernel, OpFor(Minus(t.contexts[fd].events, ready)), fd)
  }

  /** One ready descriptor in the idle loop: the kernel keeps the bits that were not ready, and every
      registered event is triggered, ready or not. */
  function Dispatch(t: Table, fd: nat, ready: Mask, allow: bool): Table {
    if !DispatchOk(t, fd, ready, allow) then t
    else FireAll(AfterCtl(t, fd, Minus(t.contexts[fd].events, ready)), fd)
  }

  // ---------------------------------------------------------------- the invariant

  function CtxWaiters(c: FdContext): multiset<nat> {
    (if c.read.Some? then multiset{c.read.value} else multiset{})
    + (if c.write.Some? then multiset{c.write.value} else multiset{})
  }

  function Waiters(cs: seq<FdContext>): multiset<nat> {
    if cs == [] then multiset{} else CtxWaiters(cs[0]) + Waiters(cs[1..])
  }

  /** Event bits and waiters agree in every context. */
  predicate Formed(t: Table) {
    && |t.contexts| >= 32
    && forall i :: 0 <= i < |t.contexts| ==> CtxOk(t.contexts[i])
  }

  /** Bits and waiters agree, the pending counter counts the registered bits, and every waiter ever
      added is still registered, was scheduled, or was deleted: exactly one of them, once. */
  ghost predicate Valid(t: Table) {
    && Formed(t)
    && t.pending == |Waiters(t.contexts)|
    && multiset(t.added) == Waiters(t.contexts) + multiset(t.scheduled) + multiset(t.deleted)
  }

  /** The kernel watches exactly the registered bits. */
  ghost predicate Agrees(t: Table) {
    && (forall fd :: 0 <= fd < |t.contexts| ==>
          if t.contexts[fd].events == NONE then fd !in t.kernel
          else fd in t.kernel && t.kernel[fd] == t.contexts[fd].events)
    && (forall fd :: fd in t.kernel ==> fd < |t.contexts|)
  }

  /** Registering one more waiter. */
  lemma {:induction false} PutWaiter(cs: seq<FdContext>, i: nat, c: FdContext, who: nat)
    requires i < |cs| && CtxWaiters(c) == CtxWaiters(cs[i]) + multiset{who}
    ensures Waiters(cs[i := c]) == Waiters(cs) + multiset{who}
  {
    if i == 0 {
      assert cs[0 := c][1..] == cs[1..];
    } else {
      PutWaiter(cs[1..], i - 1, c, who);
      assert cs[i := c][1..] == cs[1..][i - 1 := c];
    }
  }

  /** Taking one waiter away. */
  lemma TakeWaiter(cs: seq<FdContext>, i: nat, c: FdContext, who: nat)
    requires i < |cs| && CtxWaiters(cs[i]) == CtxWaiters(c) + multiset{who}
    ensures Waiters(cs) == Waiters(cs[i := c]) + multiset{who}
    ensures |Waiters(cs)| == |Waiters(cs[i := c])| + 1
  {
    PutWaiter(cs[i := c], i, cs[i], who);
    assert cs[i := c][i := cs[i]] == cs;
  }

  lemma {:induction false} WaitersGrown(cs: seq<FdContext>, more: seq<FdContext>)
    requires forall i :: 0 <= i < |more| ==> more[i] == EMPTY
    ensures Waiters(cs + more) == Waiters(cs)
  {
    if cs == [] {
      assert cs + more == more;
      if more != [] {
        WaitersGrown([], more[1..]);
        assert [] + more[1..] == more[1..];
      }
    } else {
      assert (cs + more)[1..] == cs[1..] + more;
      WaitersGrown(cs[1..], more);
    }
  }

  lemma ValidGrown(t: Table, fd: nat)
    requires Valid(t)
    ensures Valid(t.(contexts := Grown(t.contexts, fd)))
  {
    var g := Grown(t.contexts, fd);
    assert g == t.contexts + g[|t.contexts|..];
    WaitersGrown(t.contexts, g[|t.contexts|..]);
  }

  /** A context that gains waiter `who`, with the counter and the history moved along. */
  lemma ValidPut(t: Table, r: Table, fd: nat, c: FdContext, who: nat)
    requires Valid(t) && fd < |t.contexts| && CtxOk(c)
    requires CtxWaiters(c) == CtxWaiters(t.contexts[fd]) + multiset{who}
    requires r.contexts == t.contexts[fd := c] && r.pending == t.pending + 1 && r.added == t.added + [who]
    requires r.scheduled == t.scheduled && r.deleted == t.deleted
    ensures Valid(r)
  {
    PutWaiter(t.contexts, fd, c, who);
    assert |Waiters(r.contexts)| == |Waiters(t.contexts)| + 1;
  }

  lemma ValidAdd(t: Table, fd: nat, ev: Ev, who: nat, allow: bool)
    requires Valid(t)
    ensures Valid(Add(t, fd, ev, who, allow))
  {
    ValidGrown(t, fd);
    var g := t.(contexts := Grown(t.contexts, fd));
    if AddOutcome(t, fd, ev, allow).Added? {
      var c := WithSlot(g.contexts[fd], ev, Some(who)).(events := Or(g.contexts[fd].events, Bit(ev)));
      assert CtxOk(g.contexts[fd]);
      ValidPut(g, Add(t, fd, ev, who, allow), fd, c, who);
    }
  }

  /** The context without one registered event. */
  function Cleared(c: FdContext, ev: Ev): FdContext {
    WithSlot(c, ev, None).(events := Minus(c.events, Bit(ev)))
  }

  lemma ClearedTakes(t: Table, fd: nat, ev: Ev)
    requires Valid(t) && fd < |t.contexts| && Meets(t.contexts[fd].events, Bit(ev))
    ensures Slot(t.contexts[fd], ev).Some? && CtxOk(Cleared(t.contexts[fd], ev))
    ensures var cs' := t.contexts[fd := Cleared(t.contexts[fd], ev)];
            && Waiters(t.contexts) == Waiters(cs') + multiset{Slot(t.contexts[fd], ev).value}
            && |Waiters(t.contexts)| == |Waiters(cs')| + 1
  {
    assert CtxOk(t.contexts[fd]);
    TakeWaiter(t.contexts, fd, Cleared(t.contexts[fd], ev), Slot(t.contexts[fd], ev).value);
  }

  /** A context that loses waiter `who` to the scheduler. */
  lemma ValidTaken(t: Table, r: Table, fd: nat, c: FdContext, who: nat)
    requires Valid(t) && fd < |t.contexts| && CtxOk(c) && r.contexts == t.contexts[fd := c]
    requires Waiters(t.contexts) == Waiters(r.contexts) + multiset{who}
    requires |Waiters(t.contexts)| == |Waiters(r.contexts)| + 1
    requires r.pending == t.pending - 1 && r.added == t.added && r.deleted == t.deleted
    requires r.scheduled == t.scheduled + [who]
    ensures Valid(r)
  {
  }

  lemma ValidFire(t: Table, fd: nat, ev: Ev)
    requires Valid(t) && fd < |t.contexts|
    ensures Valid(Fire(t, fd, ev))
  {
    if Meets(t.contexts[fd].events, Bit(ev)) {
      ClearedTakes(t, fd, ev);
      ValidTaken(t, Fire(t, fd, ev), fd, Cleared(t.contexts[fd], ev), Slot(t.contexts[fd], ev).value);
    }
  }

  lemma ValidDel(t: Table, fd: nat, ev: Ev, allow: bool)
    requires Valid(t)
    ensures Valid(Del(t, fd, ev, allow))
  {
    if DelOk(t, fd, ev, allow) { ClearedTakes(t, fd, ev); }
  }

  lemma ValidFireAll(t: Table, fd: nat)
    requires Valid(t) && fd < |t.contexts|
    ensures Valid(FireAll(t, fd))
  {
    ValidFire(t, fd, READ);
    ValidFire(Fire(t, fd, READ), fd, WRITE);
  }

  lemma ValidDispatch(t: Table, fd: nat, ready: Mask, allow: bool)
    requires Valid(t)
    ensures Valid(Dispatch(t, fd, ready, allow))
  {
    if DispatchOk(t, fd, ready, allow) { ValidFireAll(AfterCtl(t, fd, Minus(t.contexts[fd].events, ready)), fd); }
  }

  // ---------------------------------------------------------------- runs

  datatype Call =
    | AddCall(fd: nat, ev: Ev, who: nat, allow: bool)
    | DelCall(fd: nat, ev: Ev, allow: bool)
    | CancelCall(fd: nat, ev: Ev, allow: bool)
    | CancelAllCall(fd: nat, allow: bool)
    | ReadyCall(fd: nat, ready: Mask, allow: bool)

  function Step(t: Table, c: Call): Table
    requires Valid(t)
  {
    match c
    case AddCall(fd, ev, who, allow) => Add(t, fd, ev, who, allow)
    case DelCall(fd, ev, allow) => Del(t, fd, ev, allow)
    case CancelCall(fd, ev, allow) => Cancel(t, fd, ev, allow)
    case CancelAllCall(fd, allow) => CancelEvery(t, fd, allow)
    case ReadyCall(fd, ready, allow) => Dispatch(t, fd, ready, allow)
  }

  lemma ValidStep(t: Table, c: Call)
    requires Valid(t)
    ensures Valid(Step(t, c))
  {
    match c
    case AddCall(fd, ev, who, allow) => ValidAdd(t, fd, ev, who, allow);
    case DelCall(fd, ev, allow) => ValidDel(t, fd, ev, allow);
    case CancelCall(fd, ev, allow) =>
      if DelOk(t, fd, ev, allow) { ValidFire(AfterCtl(t, fd, Minus(t.contexts[fd].events, Bit(ev))), fd, ev); }
    case CancelAllCall(fd, allow) =>
      if CancelAllOk(t, fd, allow) { ValidFireAll(AfterCtl(t, fd, NONE), fd); }
    case ReadyCall(fd, ready, allow) => ValidDispatch(t, fd, ready, allow);
  }

  /** The table after `calls`, starting from the 32 empty contexts of the constructor. */
  ghost function After(calls: seq<Call>): (t: Table)
    ensures Valid(t)
    decreases |calls|
  {
    if calls == [] then
      WaitersGrown([], seq(32, _ => EMPTY));
      var cs := seq(32, _ => EMPTY);
      assert [] + cs == cs;
      Table(cs, 0, map[], [], [], [])
    else
      var t := After(calls[..|calls| - 1]);
      ValidStep(t, calls[|calls| - 1]);
      Step(t, calls[|calls| - 1])
  }

  /** Event conservation over every run: adds = still registered + scheduled + deleted, per waiter, and
      the pending counter is the number of registered bits; so a waiter is scheduled at most as often
      as it was added. */
  lemma Conservation(calls: seq<Call>, who: nat)
    ensures var t := After(calls);
            && multiset(t.added)[who]
               == Waiters(t.contexts)[who] + multiset(t.scheduled)[who] + multiset(t.deleted)[who]
            && t.pending == |Waiters(t.contexts)|
            && t.pending == |t.added| - |t.scheduled| - |t.deleted|
            && multiset(t.scheduled)[who] <= multiset(t.added)[who]
  {
    var t := After(calls);
    assert |multiset(t.added)| == |Waiters(t.contexts) + multiset(t.scheduled) + multiset(t.deleted)|;
  }
}
