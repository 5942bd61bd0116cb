/** `FiberSemaphore`: permits, parked fibers in arrival order, and what every run of it keeps. */
module FiberSemaphores {
  import opened Basics

  /** The semaphore with the history of its run: `parked` are the fibers that had to wait and `resumed`
      those scheduled by `notify`, both in order; `passed` counts the calls that took a permit at once. */
  datatype History = History(initial: nat, concurrency: nat, waiters: seq<nat>,
                             parked: seq<nat>, resumed: seq<nat>, passed: nat, notifies: nat)

  datatype Call = TryWait | Wait(f: nat) | Notify

  function Step(h: History, c: Call): History {
    match c
    case TryWait => if h.concurrency > 0 then h.(concurrency := h.concurrency - 1, passed := h.passed + 1) else h
    case Wait(f) =>
      if h.concurrency > 0 then h.(concurrency := h.concurrency - 1, passed := h.passed + 1)
      else h.(waiters := h.waiters + [f], parked := h.parked + [f])
    case Notify =>
      if h.waiters != [] then
        h.(waiters := h.waiters[1..], resumed := h.resumed + [h.waiters[0]], notifies := h.notifies + 1)
      else h.(concurrency := h.concurrency + 1, notifies := h.notifies + 1)
  }

  function After(initial: nat, calls: seq<Call>): History {
    if calls == [] then History(initial, initial, [], [], [], 0, 0)
    else Step(After(initial, calls[..|calls| - 1]), calls[|calls| - 1])
  }

  ghost predicate Valid(h: History) {
    && h.concurrency + h.passed + |h.resumed| == h.initial + h.notifies
    && (h.concurrency > 0 ==> h.waiters == [])
    && h.parked == h.resumed + h.waiters
  }

  lemma ValidStep(h: History, c: Call)
    requires Valid(h)
    ensures Valid(Step(h, c)) && Step(h, c).initial == h.initial
  {
    if c.Notify? && h.waiters != [] {
      assert h.waiters == [h.waiters[0]] + h.waiters[1..];
    }
  }

  lemma {:induction false} ValidAfter(initial: nat, calls: seq<Call>)
    ensures Valid(After(initial, calls)) && After(initial, calls).initial == initial
    decreases |calls|
  {
    if calls != [] {
      ValidAfter(initial, calls[..|calls| - 1]);
      ValidStep(After(initial, calls[..|calls| - 1]), calls[|calls| - 1]);
    }
  }

  /** Over every run: permits left plus grants equal initial plus notifies; a free permit means nobody
      waits; fibers are resumed in the order in which they parked; and whatever the interleaving, the
      number of grants is the smaller of the requests made and the permits ever available. */
  lemma Conservation(initial: nat, calls: seq<Call>)
    ensures var h := After(initial, calls);
            && h.concurrency + (h.passed + |h.resumed|) == initial + h.notifies
            && (h.concurrency > 0 ==> h.waiters == [])
            && h.resumed <= h.parked && h.waiters == h.parked[|h.resumed|..]
            && h.passed + |h.resumed| == Min(h.passed + |h.parked|, initial + h.notifies)
  {
    ValidAfter(initial, calls);
  }

  /** `tryWait` and `wait` never overtake a queued waiter. */
  lemma NoOvertaking(initial: nat, calls: seq<Call>, c: Call)
    requires After(initial, calls).waiters != [] && !c.Notify?
    ensures Step(After(initial, calls), c).passed == After(initial, calls).passed
    ensures After(initial, calls).waiters <= Step(After(initial, calls), c).waiters
  {
    ValidAfter(initial, calls);
  }

  /** The semaphore as one number: every `wait` takes one, every `notify` gives one, and `tryWait` takes one if it is
      positive. */
  function Balance(initial: nat, calls: seq<Call>): int {
    if calls == [] then initial
    else
      var b := Balance(initial, calls[..|calls| - 1]);
      match calls[|calls| - 1]
      case TryWait => if b > 0 then b - 1 else b
      case Wait(_) => b - 1
      case Notify => b + 1
  }

  /** Over every run the permits are what that number has above zero, and the waiters what it has below. */
  lemma {:induction false} BalanceLaw(initial: nat, calls: seq<Call>)
    ensures var h, b := After(initial, calls), Balance(initial, calls);
            h.concurrency == Max(0, b) && |h.waiters| == Max(0, -b)
    decreases |calls|
  {
    if calls != [] {
      BalanceLaw(initial, calls[..|calls| - 1]);
    }
  }

  class FiberSemaphore {
    var concurrency: nat
    var waiters: seq<nat>
    ghost var history: History

    ghost predicate Ok()
      reads this
    {
      history.concurrency == concurrency && history.waiters == waiters && Valid(history)
    }

    constructor (initial: nat)
      ensures Ok() && history == After(initial, [])
    {
      concurrency := initial;
      waiters := [];
      history := History(initial, initial, [], [], [], 0, 0);
    }

    method TryWait() returns (ok: bool)
      requires Ok()
      modifies this
      ensures Ok() && history == Step(old(history), Call.TryWait)
      ensures ok <==> old(concurrency) > 0
      ensures concurrency == old(concurrency) - (if ok then 1 else 0) && waiters == old(waiters)
    {
      ValidStep(history, Call.TryWait);
      history := Step(history, Call.TryWait);
      if concurrency > 0 {
        concurrency := concurrency - 1;
        return true;
      }
      return false;
    }

    /** Returns whether the calling fiber has to yield. */
    method Wait(f: nat) returns (parks: bool)
      requires Ok()
      modifies this
      ensures Ok() && history == Step(old(history), Call.Wait(f))
      ensures parks <==> old(concurrency) == 0
      ensures parks ==> concurrency == 0 && waiters == old(waiters) + [f]
      ensures !parks ==> concurrency == old(concurrency) - 1 && waiters == old(waiters)
    {
      ValidStep(history, Call.Wait(f));
      history := Step(history, Call.Wait(f));
      if concurrency > 0 {
        concurrency := concurrency - 1;
        return false;
      }
      waiters := waiters + [f];
      return true;
    }

    /** Returns the fiber that is scheduled, if any. */
    method Notify() returns (next: Option<nat>)
      requires Ok()
      modifies this
      ensures Ok() && history == Step(old(history), Call.Notify)
      ensures next == if old(waiters) == [] then None else Some(old(waiters)[0])
      ensures next.Some? ==> waiters == old(waiters)[1..] && concurrency == old(concurrency)
      ensures next.None? ==> waiters == [] && concurrency == old(concurrency) + 1
    {
      ValidStep(history, Call.Notify);
      history := Step(history, Call.Notify);
      if waiters != [] {
        next := Some(waiters[0]);
        waiters := waiters[1..];
      } else {
        next := None;
        concurrency := concurrency + 1;
      }
    }
  }
}
