/** The event calls of the IOManager as they update their object in place, and the dispatch loop. */
module IoManagers {
  import opened Basics
  import opened EventTable
  import opened KernelInterest
  import opened EventEffects

  /** One `epoll_event` reported by `epoll_wait`; no descriptor means the tickle pipe. */
  datatype Ready = Ready(fd: Option<nat>, epollin: bool, epollout: bool, err: bool)

  /** What the loop takes as ready: an error or hang-up is written to the first array element, so it
      only widens the event being handled when that is the first one. */
  function Taken(e: Ready, i: nat): Mask {
    if e.err && i == 0 then Mask(true, true) else Mask(e.epollin, e.epollout)
  }

  /** The table after the first `i` reported events have been handled. */
  function Handled(t: Table, es: seq<Ready>, allow: seq<bool>, i: nat): Table
    requires i <= |es| <= |allow|
  {
    if i == 0 then t
    else
      var p := Handled(t, es, allow, i - 1);
      if es[i - 1].fd.None? then p else Dispatch(p, es[i - 1].fd.value, Taken(es[i - 1], i - 1), allow[i - 1])
  }

  /** The dispatch loop keeps conservation. */
  lemma {:induction false} HandledValid(t: Table, es: seq<Ready>, allow: seq<bool>, i: nat)
    requires i <= |es| <= |allow| && Valid(t)
    ensures Valid(Handled(t, es, allow, i))
    decreases i
  {
    if i > 0 {
      HandledValid(t, es, allow, i - 1);
      if es[i - 1].fd.Some? {
        ValidDispatch(Handled(t, es, allow, i - 1), es[i - 1].fd.value, Taken(es[i - 1], i - 1), allow[i - 1]);
      }
    }
  }

  /** An event that reports only an error or hang-up wakes the waiters of its descriptor if and only if
      it is the first of the batch. */
  lemma ErrorWakesIffFirst(t: Table, es: seq<Ready>, allow: seq<bool>, i: nat)
    requires i < |es| <= |allow| && Valid(t) && allow[i]
    requires es[i].fd.Some? && es[i].err && !es[i].epollin && !es[i].epollout
    requires var p := Handled(t, es, allow, i);
             Agrees(p) && es[i].fd.value < |p.contexts| && p.contexts[es[i].fd.value].events != NONE
    ensures Handled(t, es, allow, i + 1) != Handled(t, es, allow, i) <==> i == 0
    ensures i == 0 ==> Handled(t, es, allow, 1).contexts[es[0].fd.value] == EMPTY
  {
    var p := Handled(t, es, allow, i);
    HandledValid(t, es, allow, i);
    if i == 0 {
      var fd := es[0].fd.value;
      IssuedIsLegal(p, ReadyCall(fd, Taken(es[0], 0), true));
      FireAllClears(AfterCtl(p, fd, NONE), fd);
    }
  }

  // ---------------------------------------------------------------- which event wakes whom

  /** An event wakes its descriptor if and only if it reports input and a reader is registered, or it reports output
      and a writer is registered, or it is the first of the batch and reports an error, with anything registered. */
  predicate Wakes(c: FdContext, e: Ready, first: bool) {
    || (e.epollin && c.read.Some?)
    || (e.epollout && c.write.Some?)
    || (first && e.err && (c.read.Some? || c.write.Some?))
  }

  lemma HandledFormed(t: Table, es: seq<Ready>, allow: seq<bool>, i: nat)
    requires i <= |es| <= |allow| && Valid(t)
    ensures Formed(Handled(t, es, allow, i))
  {
    HandledValid(t, es, allow, i);
  }

  /** One event of the batch, at any place in it: it schedules exactly the registered reader and writer and the kernel
      keeps exactly the registered bits that were not reported, or nothing changes. */
  lemma EventWakes(t: Table, es: seq<Ready>, allow: seq<bool>, i: nat, fd: nat)
    requires i < |es| <= |allow| && Valid(t) && allow[i] && es[i].fd == Some(fd)
    requires AgreesAt(Handled(t, es, allow, i), fd)
    ensures var p, p' := Handled(t, es, allow, i), Handled(t, es, allow, i + 1);
            var c, first := ContextOf(p, fd), i == 0;
            if Wakes(c, es[i], first) then
              && Fired(p, p', fd)
              && Watches(p', fd, c.read.Some? && !es[i].epollin && !(first && es[i].err),
                                 c.write.Some? && !es[i].epollout && !(first && es[i].err))
            else p' == p
  {
    var p := Handled(t, es, allow, i);
    HandledFormed(t, es, allow, i);
    DispatchEffect(p, fd, Taken(es[i], i));
  }

  /** `epoll_wait` reports a descriptor at most once. */
  ghost predicate DistinctFds(es: seq<Ready>) {
    forall i, j :: 0 <= i < j < |es| && es[i].fd.Some? ==> es[i].fd != es[j].fd
  }

  /** The waiters that the first `n` events wake, in order. */
  function Woken(t: Table, es: seq<Ready>, n: nat): seq<nat>
    requires n <= |es|
  {
    if n == 0 then []
    else
      var e := es[n - 1];
      Woken(t, es, n - 1)
      + if e.fd.Some? && Wakes(ContextOf(t, e.fd.value), e, n - 1 == 0) then WaitersOf(ContextOf(t, e.fd.value)) else []
  }

  ghost predicate WokenAmong(t: Table, es: seq<Ready>, n: nat, fd: nat)
    requires n <= |es|
  {
    exists i :: 0 <= i < n && es[i].fd == Some(fd) && Wakes(ContextOf(t, fd), es[i], i == 0)
  }

  ghost predicate Reported(es: seq<Ready>, n: nat, fd: nat)
    requires n <= |es|
  {
    exists i :: 0 <= i < n && es[i].fd == Some(fd)
  }

  /** What the first `n` events do to descriptor `fd`. */
  ghost predicate BatchAt(t: Table, r: Table, es: seq<Ready>, n: nat, fd: nat)
    requires n <= |es|
  {
    && ContextOf(r, fd) == (if WokenAmong(t, es, n, fd) then EMPTY else ContextOf(t, fd))
    && (!Reported(es, n, fd) ==>
          (fd in r.kernel <==> fd in t.kernel) && (fd in t.kernel ==> r.kernel[fd] == t.kernel[fd]))
  }

  lemma UnreportedAgrees(t: Table, r: Table, es: seq<Ready>, n: nat, fd: nat)
    requires n <= |es| && BatchAt(t, r, es, n, fd) && !Reported(es, n, fd) && AgreesAt(t, fd)
    requires |r.contexts| == |t.contexts|
    ensures AgreesAt(r, fd) && ContextOf(r, fd) == ContextOf(t, fd)
  {
    assert !WokenAmong(t, es, n, fd);
  }

  /** What one event did, in terms of the table before the batch. */
  ghost predicate Turn(t: Table, p: Table, p': Table, e: Ready, first: bool) {
    if e.fd.Some? && Wakes(ContextOf(t, e.fd.value), e, first)
    then Fired(p, p', e.fd.value) && ContextOf(p, e.fd.value) == ContextOf(t, e.fd.value)
    else p' == p
  }

  lemma BatchAtStep(t: Table, p: Table, p': Table, es: seq<Ready>, n: nat, fd: nat)
    requires n < |es| && BatchAt(t, p, es, n, fd) && DistinctFds(es) && Turn(t, p, p', es[n], n == 0)
    ensures BatchAt(t, p', es, n + 1, fd)
  {
    assert WokenAmong(t, es, n + 1, fd)
        <==> WokenAmong(t, es, n, fd) || (es[n].fd == Some(fd) && Wakes(ContextOf(t, fd), es[n], n == 0));
    assert Reported(es, n, fd) ==> Reported(es, n + 1, fd);
    if es[n].fd == Some(fd) { assert Reported(es, n + 1, fd); }
  }

  /** What the first `n` events have done: the waiters scheduled are exactly those of the events that wake, in the order
      of the batch; the descriptors woken have nothing registered any more and all others are as they were. */
  ghost predicate BatchDone(t: Table, r: Table, es: seq<Ready>, n: nat)
    requires n <= |es|
  {
    && |r.contexts| == |t.contexts| && r.scheduled == t.scheduled + Woken(t, es, n)
    && forall fd: nat :: BatchAt(t, r, es, n, fd)
  }

  lemma BatchDoneStep(t: Table, p: Table, p': Table, es: seq<Ready>, n: nat)
    requires n < |es| && BatchDone(t, p, es, n) && DistinctFds(es) && Turn(t, p, p', es[n], n == 0)
    ensures BatchDone(t, p', es, n + 1)
  {
    var k := n + 1;
    forall fd: nat ensures BatchAt(t, p', es, k, fd) { BatchAtStep(t, p, p', es, n, fd); }
  }

  /** The event at place `k`, in terms of the table before the batch. */
  lemma BatchEvent(t: Table, es: seq<Ready>, allow: seq<bool>, k: nat)
    requires k < |es| <= |allow| && Valid(t) && Agrees(t) && DistinctFds(es) && allow[k]
    requires BatchDone(t, Handled(t, es, allow, k), es, k)
    ensures Turn(t, Handled(t, es, allow, k), Handled(t, es, allow, k + 1), es[k], k == 0)
  {
    if es[k].fd.Some? {
      var d := es[k].fd.value;
      assert !Reported(es, k, d);
      AgreesHere(t, d);
      UnreportedAgrees(t, Handled(t, es, allow, k), es, k, d);
      EventWakes(t, es, allow, k, d);
    }
  }

  /** The whole dispatch loop, on a batch that reports each descriptor once while the kernel agrees with the table and
      refuses nothing. */
  lemma {:induction false} BatchWakes(t: Table, es: seq<Ready>, allow: seq<bool>, n: nat)
    requires n <= |es| <= |allow| && Valid(t) && Agrees(t) && DistinctFds(es)
    requires forall i :: 0 <= i < n ==> allow[i]
    ensures BatchDone(t, Handled(t, es, allow, n), es, n)
    decreases n
  {
    if n == 0 {
      forall fd: nat ensures BatchAt(t, t, es, n, fd) { assert !WokenAmong(t, es, n, fd); }
    } else {
      BatchWakes(t, es, allow, n - 1);
      BatchEvent(t, es, allow, n - 1);
      BatchDoneStep(t, Handled(t, es, allow, n - 1), Handled(t, es, allow, n), es, n - 1);
    }
  }

  lemma AgreesHere(t: Table, fd: nat)
    requires Valid(t) && Agrees(t)
    ensures AgreesAt(t, fd)
  {
    if fd < |t.contexts| { assert CtxOk(t.contexts[fd]); }
  }

  class IoManager {
    var contexts: seq<FdContext>
    var pending: int
    var kernel: map<nat, Mask>
    var scheduled: seq<nat>
    ghost var added: seq<nat>
    ghost var deleted: seq<nat>

    ghost function View(): Table
      reads this
    {
      Table(contexts, pending, kernel, scheduled, added, deleted)
    }

    constructor ()
      ensures View() == After([])
    {
      contexts := seq(32, _ => EMPTY);
      pending := 0;
      kernel := map[];
      scheduled, added, deleted := [], [], [];
    }

    method EpollCtl(op: CtlOp, fd: nat, mask: Mask, allow: bool) returns (ok: bool)
      modifies this`kernel
      ensures ok <==> allow && Legal(old(kernel), op, fd)
      ensures kernel == if ok then Ctl(old(kernel), op, fd, mask) else old(kernel)
    {
      ok := allow && if op == ADD then fd !in kernel else fd in kernel;
      if ok {
        kernel := if op == DEL then kernel - {fd} else kernel[fd := mask];
      }
    }

    method AddEvent(fd: nat, ev: Ev, who: nat, allow: bool) returns (r: AddResult)
      requires Formed(View())
      modifies this
      ensures r == AddOutcome(old(View()), fd, ev, allow)
      ensures View() == Add(old(View()), fd, ev, who, allow) && Formed(View())
      ensures r == Aborted <==> Registered(ContextOf(old(View()), fd), ev)
      ensures r == Added <==> Addable(old(View()), fd, ev, allow)
      ensures r == Added ==> Stored(old(View()), View(), fd, ev, who)
      ensures r != Added ==> View().(contexts := old(contexts)) == old(View())
    {
      AddOutcomes(View(), fd, ev, allow);
      AddEffect(View(), fd, ev, who, allow);
      if |contexts| <= fd {
        contexts := Grown(contexts, fd);
      }
      var c := contexts[fd];
      if Meets(c.events, Bit(ev)) {
        return Aborted;
      }
      var op := if c.events == NONE then ADD else MOD;
      var ok := EpollCtl(op, fd, Or(c.events, Bit(ev)), allow);
      if !ok {
        return CtlFailed;
      }
      pending := pending + 1;
      contexts := contexts[fd := c.(events := Or(c.events, Bit(ev)))];
      contexts := contexts[fd := WithSlot(contexts[fd], ev, Some(who))];
      added := added + [who];
      return Added;
    }

    method DelEvent(fd: nat, ev: Ev, allow: bool) returns (ok: bool)
      requires Formed(View())
      modifies this
      ensures ok <==> DelOk(old(View()), fd, ev, allow)
      ensures View() == Del(old(View()), fd, ev, allow) && Formed(View())
      ensures ok <==> Removable(old(View()), fd, ev, allow)
      ensures ok ==> Removed(old(View()), View(), fd, ev)
      ensures ok ==> scheduled == old(scheduled) && deleted == old(deleted) + [Waiter(old(contexts)[fd], ev)]
      ensures !ok ==> View() == old(View())
    {
      DelEffect(View(), fd, ev, allow);
      if |contexts| <= fd || !Meets(contexts[fd].events, Bit(ev)) {
        return false;
      }
      assert CtxOk(contexts[fd]);
      var left := Minus(contexts[fd].events, Bit(ev));
      ok := EpollCtl(OpFor(left), fd, left, allow);
      if !ok {
        return;
      }
      pending := pending - 1;
      deleted := deleted + [Slot(contexts[fd], ev).value];
      contexts := contexts[fd := contexts[fd].(events := left)];
      contexts := contexts[fd := WithSlot(contexts[fd], ev, None)];
    }

    /** `triggerEvent`, with the decrement its callers make. */
    method TriggerEvent(fd: nat, ev: Ev)
      requires fd < |contexts| && CtxOk(contexts[fd]) && Meets(contexts[fd].events, Bit(ev))
      modifies this
      ensures View() == Fire(old(View()), fd, ev)
    {
      var c := contexts[fd];
      contexts := contexts[fd := c.(events := Minus(c.events, Bit(ev)))];
      scheduled := scheduled + [Slot(c, ev).value];
      contexts := contexts[fd := WithSlot(contexts[fd], ev, None)];
      pending := pending - 1;
    }

    method CancelEvent(fd: nat, ev: Ev, allow: bool) returns (ok: bool)
      requires Formed(View())
      modifies this
      ensures ok <==> DelOk(old(View()), fd, ev, allow)
      ensures View() == Cancel(old(View()), fd, ev, allow) && Formed(View())
      ensures ok <==> Removable(old(View()), fd, ev, allow)
      ensures ok ==> Removed(old(View()), View(), fd, ev)
      ensures ok ==> scheduled == old(scheduled) + [Waiter(old(contexts)[fd], ev)] && deleted == old(deleted)
      ensures !ok ==> View() == old(View())
    {
      CancelEffect(View(), fd, ev, allow);
      if |contexts| <= fd || !Meets(contexts[fd].events, Bit(ev)) {
        return false;
      }
      assert CtxOk(contexts[fd]);
      var left := Minus(contexts[fd].events, Bit(ev));
      ok := EpollCtl(OpFor(left), fd, left, allow);
      if ok {
        TriggerEvent(fd, ev);
      }
    }

    /** The two triggers at the end of `cancelAll` and of the dispatch loop. */
    method TriggerAll(fd: nat)
      requires fd < |contexts| && CtxOk(contexts[fd])
      modifies this
      ensures View() == FireAll(old(View()), fd)
    {
      if contexts[fd].events.read {
        TriggerEvent(fd, READ);
      }
      if contexts[fd].events.write {
        TriggerEvent(fd, WRITE);
      }
    }

    method CancelAll(fd: nat, allow: bool) returns (ok: bool)
      requires Formed(View())
      modifies this
      ensures ok <==> CancelAllOk(old(View()), fd, allow)
      ensures View() == CancelEvery(old(View()), fd, allow) && Formed(View())
      ensures ok <==> allow && fd in old(kernel) && fd < |old(contexts)| && WaitersOf(old(contexts)[fd]) != []
      ensures ok ==> Fired(old(View()), View(), fd) && fd !in kernel
      ensures !ok ==> View() == old(View())
    {
      CancelAllEffect(View(), fd, allow);
      if |contexts| <= fd || contexts[fd].events == NONE {
        return false;
      }
      assert CtxOk(contexts[fd]);
      ok := EpollCtl(DEL, fd, NONE, allow);
      if ok {
        TriggerAll(fd);
      }
    }

    /** One event on a descriptor, with the bits it is taken to report: the kernel keeps the bits that were not
        ready, and everything registered is triggered. */
    method DispatchOne(events: array<Ready>, i: nat, fd: nat, ready: Mask, allow: bool)
      requires Formed(View()) && i < events.Length
      modifies this, events
      ensures View() == Dispatch(old(View()), fd, ready, allow) && Formed(View())
      ensures forall j :: 0 <= j < events.Length && j != i ==> events[j] == old(events[j])
    {
      if fd < |contexts| && Meets(contexts[fd].events, ready) {
        assert CtxOk(contexts[fd]);
        var left := Minus(contexts[fd].events, ready);
        events[i] := events[i].(epollin := left.read, epollout := left.write, err := false);
        var ok := EpollCtl(OpFor(left), fd, left, allow);
        if ok {
          TriggerAll(fd);
        }
      }
    }

    /** The loop of the idle fiber over the events `epoll_wait` reported. */
    method DispatchLoop(events: array<Ready>, n: nat, allow: seq<bool>)
      requires Formed(View()) && n <= events.Length && n == |allow|
      modifies this, events
      ensures View() == Handled(old(View()), old(events[..n]), allow, n) && Formed(View())
      ensures Valid(old(View())) && Agrees(old(View())) && DistinctFds(old(events[..n]))
              && (forall i :: 0 <= i < n ==> allow[i])
              ==> BatchDone(old(View()), View(), old(events[..n]), n)
    {
      ghost var es := events[..n];
      ghost var t := View();
      var i := 0;
      while i < n
        invariant 0 <= i <= n
        invariant View() == Handled(t, es, allow, i) && Formed(View())
        invariant forall j :: i <= j < n ==> events[j] == es[j]
      {
        if events[i].fd.Some? {
          var fd := events[i].fd.value;
          if events[i].err {
            events[0] := events[0].(epollin := true, epollout := true);
          }
          var ready := Mask(events[i].epollin, events[i].epollout);
          assert ready == Taken(es[i], i);
          DispatchOne(events, i, fd, ready, allow[i]);
        }
        i := i + 1;
      }
      if Valid(t) && Agrees(t) && DistinctFds(es) && (forall i :: 0 <= i < n ==> allow[i]) {
        BatchWakes(t, es, allow, n);
      }
    }
  }
}
