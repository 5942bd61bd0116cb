/** When the kernel's interest set and the registered events agree. */
module KernelInterest {
  import opened Basics
  import opened EventTable

  /** The `epoll_ctl` a call issues, if it gets that far. */
  function Issued(t: Table, c: Call): Option<CtlOp>
    requires Valid(t)
  {
    match c
    case AddCall(fd, ev, _, _) => if AddOutcome(t, fd, ev, true).Aborted? then None else Some(AddOp(t, fd))
    case DelCall(fd, ev, _) =>
      if fd < |t.contexts| && Meets(t.contexts[fd].events, Bit(ev))
      then Some(OpFor(Minus(t.contexts[fd].events, Bit(ev)))) else None
    case CancelCall(fd, ev, _) =>
      if fd < |t.contexts| && Meets(t.contexts[fd].events, Bit(ev))
      then Some(OpFor(Minus(t.contexts[fd].events, Bit(ev)))) else None
    case CancelAllCall(fd, _) => if fd < |t.contexts| && t.contexts[fd].events != NONE then Some(DEL) else None
    case ReadyCall(fd, ready, _) =>
      if fd < |t.contexts| && Meets(t.contexts[fd].events, ready)
      then Some(OpFor(Minus(t.contexts[fd].events, ready))) else None
  }

  /** While table and kernel agree, every operation issued is legal for the current registration. */
  lemma IssuedIsLegal(t: Table, c: Call)
    requires Valid(t) && Agrees(t) && Issued(t, c).Some?
    ensures Legal(t.kernel, Issued(t, c).value, c.fd)
  {
    if c.fd < |t.contexts| { assert t.contexts[c.fd].events == NONE <==> c.fd !in t.kernel; }
  }

  lemma FireAllClears(t: Table, fd: nat)
    requires fd < |t.contexts| && CtxOk(t.contexts[fd])
    ensures FireAll(t, fd).contexts == t.contexts[fd := EMPTY] && FireAll(t, fd).kernel == t.kernel
  {
  }

  /** Dispatching a ready descriptor keeps the agreement exactly when everything registered is ready. */
  lemma DispatchAgreesIff(t: Table, fd: nat, ready: Mask, allow: bool)
    requires Valid(t) && Agrees(t) && DispatchOk(t, fd, ready, allow)
    ensures Agrees(Dispatch(t, fd, ready, allow)) <==> Covers(ready, t.contexts[fd].events)
  {
    var left := Minus(t.contexts[fd].events, ready);
    FireAllClears(AfterCtl(t, fd, left), fd);
    var t' := Dispatch(t, fd, ready, allow);
    assert t'.contexts[fd] == EMPTY;
    if left != NONE { assert fd in t'.kernel; }
  }

  /** Nothing is registered on the descriptor, but the kernel still watches it. */
  ghost predicate Jammed(t: Table, fd: nat) {
    fd < |t.contexts| && t.contexts[fd].events == NONE && fd in t.kernel
  }

  /** A dispatch that was not covering jams the descriptor. */
  lemma PartialDispatchJams(t: Table, fd: nat, ready: Mask, allow: bool)
    requires Valid(t) && Agrees(t) && DispatchOk(t, fd, ready, allow) && !Covers(ready, t.contexts[fd].events)
    ensures Jammed(Dispatch(t, fd, ready, allow), fd)
  {
    FireAllClears(AfterCtl(t, fd, Minus(t.contexts[fd].events, ready)), fd);
  }

  /** On a jammed descriptor `addEvent` issues ADD for a descriptor the kernel still watches, and fails whatever
      the kernel would allow; no other call changes it either. So it stays jammed for good. */
  lemma JamLasts(t: Table, c: Call, fd: nat, ev: Ev, allow: bool)
    requires Valid(t) && Jammed(t, fd)
    ensures AddOutcome(t, fd, ev, allow) == CtlFailed && Jammed(Step(t, c), fd)
  {
    match c
    case AddCall(other, _, _, _) => AgreesGrownAt(t, other, fd);
    case DelCall(other, _, _) => if other < |t.contexts| { assert CtxOk(t.contexts[other]); }
    case CancelCall(other, _, _) => if other < |t.contexts| { assert CtxOk(t.contexts[other]); }
    case CancelAllCall(other, allowed) =>
      if CancelAllOk(t, other, allowed) { FireAllClears(AfterCtl(t, other, NONE), other); }
    case ReadyCall(other, ready, allowed) =>
      if DispatchOk(t, other, ready, allowed) {
        FireAllClears(AfterCtl(t, other, Minus(t.contexts[other].events, ready)), other);
      }
  }

  lemma AgreesGrownAt(t: Table, other: nat, fd: nat)
    requires Valid(t) && fd < |t.contexts|
    ensures fd < |Grown(t.contexts, other)| && Grown(t.contexts, other)[fd] == t.contexts[fd]
  {
  }

  lemma AgreesGrown(t: Table, fd: nat)
    requires Valid(t) && Agrees(t)
    ensures Agrees(t.(contexts := Grown(t.contexts, fd)))
  {
  }

  /** A call that is not a dispatch, or one that finds all registered bits of its descriptor ready. */
  ghost predicate Covering(t: Table, c: Call)
    requires Valid(t)
  {
    c.ReadyCall? && DispatchOk(t, c.fd, c.ready, c.allow) ==> Covers(c.ready, t.contexts[c.fd].events)
  }

  lemma AgreesAdd(t: Table, fd: nat, ev: Ev, who: nat, allow: bool)
    requires Valid(t) && Agrees(t)
    ensures Agrees(Add(t, fd, ev, who, allow))
  {
    AgreesGrown(t, fd);
  }

  lemma AgreesTake(t: Table, fd: nat, ev: Ev, allow: bool)
    requires Valid(t) && Agrees(t)
    ensures Agrees(Del(t, fd, ev, allow)) && Agrees(Cancel(t, fd, ev, allow))
  {
    if DelOk(t, fd, ev, allow) { assert CtxOk(t.contexts[fd]); }
  }

  lemma AgreesStep(t: Table, c: Call)
    requires Valid(t) && Agrees(t) && Covering(t, c)
    ensures Agrees(Step(t, c))
  {
    match c
    case AddCall(fd, ev, who, allow) => AgreesAdd(t, fd, ev, who, allow);
    case DelCall(fd, ev, allow) => AgreesTake(t, fd, ev, allow);
    case CancelCall(fd, ev, allow) => AgreesTake(t, fd, ev, allow);
    case CancelAllCall(fd, allow) =>
      if CancelAllOk(t, fd, allow) { FireAllClears(AfterCtl(t, fd, NONE), fd); }
    case ReadyCall(fd, ready, allow) =>
      if DispatchOk(t, fd, ready, allow) { DispatchAgreesIff(t, fd, ready, allow); }
  }

  /** Every dispatch of the run found all registered bits of its descriptor ready. */
  ghost predicate Covered(calls: seq<Call>)
    decreases |calls|
  {
    calls == [] || (Covered(calls[..|calls| - 1]) && Covering(After(calls[..|calls| - 1]), calls[|calls| - 1]))
  }

  /** Over every run the kernel watches exactly the registered bits if and only if every dispatch was covering;
      after the first one that was not, some descriptor is jammed for good. */
  lemma {:induction false} KernelAgreesIff(calls: seq<Call>)
    ensures Agrees(After(calls)) <==> Covered(calls)
    ensures Covered(calls) || exists fd :: Jammed(After(calls), fd)
    decreases |calls|
  {
    if calls != [] {
      var n := |calls| - 1;
      var before, c := calls[..n], calls[n];
      var t := After(before);
      KernelAgreesIff(before);
      if !Covered(before) {
        var fd :| Jammed(t, fd);
        JamLasts(t, c, fd, READ, true);
        assert Jammed(After(calls), fd);
      } else if Covering(t, c) {
        AgreesStep(t, c);
      } else {
        PartialDispatchJams(t, c.fd, c.ready, c.allow);
        assert Jammed(After(calls), c.fd);
      }
    }
  }

  /** Over every covering run the next operation issued, whatever the call, is the legal one. */
  lemma KernelAgreement(calls: seq<Call>, next: Call)
    requires Covered(calls)
    ensures Agrees(After(calls))
    ensures Issued(After(calls), next).Some? ==> Legal(After(calls).kernel, Issued(After(calls), next).value, next.fd)
  {
    KernelAgreesIff(calls);
    if Issued(After(calls), next).Some? { IssuedIsLegal(After(calls), next); }
  }
}
