/**
  Linear ownership of wake-ups: every fiber and every callback is held at no more than one place of
  the scheduler, in every state of every run.
*/
module Ownership {
  import opened Basics
  import opened ParkWake

  datatype Token = OfFiber(f: nat) | OfCall(id: nat)

  /** Every place that can hold a fiber or a callback. */
  datatype Pos =
    | QueueAt(i: nat)
    | SlotAt(k: SlotKey)
    | WaiterAt(m: nat, i: nat)
    | TimerAt(t: nat)
    | BatchAt(w: nat, i: nat)     // expired callbacks the idle fiber has not scheduled yet
    | HandAt(w: nat)              // picked, or waiting to be put back
    | BodyAt(w: nat)              // being executed, wake-up not handed out
    | SpareAt(w: nat)             // kept as the worker's reusable callback fiber

  function Tok(item: Item): Token {
    match item
    case Resume(f) => OfFiber(f)
    case WakeCall(f) => OfFiber(f)
    case Call(id) => OfCall(id)
  }

  function HandOf(pc: Pc): Option<Token> {
    match pc
    case Took(item) => Some(Tok(item))
    case InCall(_, wake, _) => if wake.Some? then Some(OfFiber(wake.value)) else None
    case Left(f, _) => Some(OfFiber(f))
    case Requeue(f, _) => Some(OfFiber(f))
    case _ => None
  }

  function BodyOf(pc: Pc): Option<Token> {
    match pc
    case InFiber(f, armed) => if armed then None else Some(OfFiber(f))
    case InCall(g, _, armed) => if armed then None else Some(OfFiber(g))
    case _ => None
  }

  predicate UsesCb(pc: Pc) { pc.InCall? || (pc.Left? && pc.call) || (pc.Requeue? && pc.call) }

  function SpareOf(w: Worker): Option<Token> {
    if w.cb.Some? && !UsesCb(w.pc) then Some(OfFiber(w.cb.value)) else None
  }

  function At(s: State, p: Pos): Option<Token> {
    match p
    case QueueAt(i) => if i < |s.queue| then Some(Tok(s.queue[i].item)) else None
    case SlotAt(k) => if k in s.slots then Some(Tok(s.slots[k])) else None
    case WaiterAt(m, i) =>
      if m in s.sems && i < |s.sems[m].waiters| then Some(OfFiber(s.sems[m].waiters[i])) else None
    case TimerAt(t) => if t in s.timers && s.timers[t].Once? then Some(Tok(s.timers[t].item)) else None
    case BatchAt(w, i) =>
      if w < |s.workers| && s.workers[w].pc.InIdle? && i < |s.workers[w].pc.batch|
      then Some(Tok(s.workers[w].pc.batch[i])) else None
    case HandAt(w) => if w < |s.workers| then HandOf(s.workers[w].pc) else None
    case BodyAt(w) => if w < |s.workers| then BodyOf(s.workers[w].pc) else None
    case SpareAt(w) => if w < |s.workers| then SpareOf(s.workers[w]) else None
  }

  /** No token is held at two places. */
  ghost predicate Linear(s: State) {
    forall p, q :: At(s, p).Some? && At(s, p) == At(s, q) ==> p == q
  }

  ghost predicate Held(s: State, t: Token) {
    exists p :: At(s, p) == Some(t)
  }

  predicate IsLeftHand(s: State, p: Pos) {
    p.HandAt? && IsWorker(s, p.w) && PcOf(s, p.w).Left?
  }

  /** A held fiber exists, and has ended only in the hand of the worker that just switched out of
      it; a held callback was submitted and neither started nor dropped. */
  ghost predicate TokenOk(s: State, p: Pos, t: Token) {
    match t
    case OfFiber(f) => f in s.fibers && (s.fibers[f] in {TERM, EXCEPT} ==> IsLeftHand(s, p))
    case OfCall(id) => id < s.next && id !in s.started && id !in s.dropped
  }

  ghost predicate TokensOk(s: State) {
    forall p :: At(s, p).Some? ==> TokenOk(s, p, At(s, p).value)
  }

  /** What a worker's program point says about the fibers it handles. */
  ghost predicate WorkerOk(s: State, wk: Worker) {
    && (match wk.pc
        case Took(item) => item.Resume? ==> item.f in s.fibers && s.fibers[item.f] in {INIT, HOLD, READY}
        case InFiber(f, _) => f in s.fibers && s.fibers[f] == EXEC
        case InCall(g, _, _) => g in s.fibers && s.fibers[g] == EXEC && wk.cb == Some(g)
        case Left(f, call) =>
          f in s.fibers && s.fibers[f] in {READY, TERM, EXCEPT} && (call ==> wk.cb == Some(f))
        case Requeue(f, call) => f in s.fibers && s.fibers[f] == READY && (call ==> wk.cb == Some(f))
        case _ => true)
    && (wk.cb.Some? && !UsesCb(wk.pc) ==> wk.cb.value in s.fibers && s.fibers[wk.cb.value] == INIT)
    && (match wk.pc
        case InIdle(_) => wk.idle == EXEC
        case Probe1 => wk.idle == EXEC
        case Probe2 => wk.idle == EXEC
        case LeavingIdle => wk.idle in {EXEC, HOLD, TERM}
        case Gone => wk.idle == TERM
        case _ => wk.idle in {INIT, HOLD, TERM})
  }

  /** The workers' program points agree with the fiber states. */
  ghost predicate WorkersOk(s: State) {
    forall w :: 0 <= w < |s.workers| ==> WorkerOk(s, s.workers[w])
  }

  ghost predicate RunsOn(s: State, w: nat, f: nat) {
    IsWorker(s, w) && Running(PcOf(s, w)) == Some(f)
  }

  /** No fiber is executed by two workers. */
  ghost predicate SoleRunner(s: State) {
    forall v, w, f :: RunsOn(s, v, f) && RunsOn(s, w, f) ==> v == w
  }

  /** A fiber in EXEC is being executed. */
  ghost predicate ExecRuns(s: State) {
    forall f :: f in s.fibers && s.fibers[f] == EXEC ==> exists w :: RunsOn(s, w, f)
  }

  /** Callbacks are started at most once, and never after they were dropped. */
  ghost predicate IdsOk(s: State) {
    && (forall i :: 0 <= i < |s.started| ==> s.started[i] < s.next && s.started[i] !in s.dropped)
    && (forall i, j :: 0 <= i < j < |s.started| ==> s.started[i] != s.started[j])
    && (forall id :: id in s.dropped ==> id < s.next)
  }

  ghost predicate Inv(s: State) {
    Linear(s) && TokensOk(s) && WorkersOk(s) && SoleRunner(s) && ExecRuns(s) && IdsOk(s)
  }

  // ---------------------------------------------------------------- how a step may move tokens

  /** A step that only forgets tokens. */
  lemma KeepOrDrop(s: State, s': State)
    requires Linear(s)
    requires forall p :: At(s', p).Some? ==> At(s', p) == At(s, p) && TokenOk(s', p, At(s', p).value)
    ensures Linear(s') && TokensOk(s')
  {
    forall p, q | At(s', p).Some? && At(s', p) == At(s', q) ensures p == q {
      assert At(s, p) == At(s, q);
    }
  }

  /** A step that moves one token from `src` to `dst`. */
  lemma Move(s: State, s': State, src: Pos, dst: Pos)
    requires Linear(s)
    requires At(s', dst) == At(s, src) && At(s', src).None?
    requires At(s', dst).Some? ==> TokenOk(s', dst, At(s', dst).value)
    requires forall p :: p != dst && At(s', p).Some? ==> At(s', p) == At(s, p) && TokenOk(s', p, At(s', p).value)
    ensures Linear(s') && TokensOk(s')
  {
    forall p, q | At(s', p).Some? && At(s', p) == At(s', q) ensures p == q {
      assert At(s, if p == dst then src else p) == At(s, if q == dst then src else q);
    }
  }

  /** A step that puts a token at `dst` which was nowhere before. */
  lemma Birth(s: State, s': State, dst: Pos)
    requires Linear(s)
    requires At(s', dst).Some? && !Held(s, At(s', dst).value) && TokenOk(s', dst, At(s', dst).value)
    requires forall p :: p != dst && At(s', p).Some? ==> At(s', p) == At(s, p) && TokenOk(s', p, At(s', p).value)
    ensures Linear(s') && TokensOk(s')
  {
    forall p, q | At(s', p).Some? && At(s', p) == At(s', q) ensures p == q {
      assert p != dst ==> At(s, p) == At(s', p);
      assert q != dst ==> At(s, q) == At(s', q);
    }
  }

  /** A step that relocates tokens along an injective map. */
  lemma Relocate(s: State, s': State, pre: Pos -> Pos)
    requires Linear(s)
    requires forall p :: At(s', p).Some? ==> At(s, pre(p)) == At(s', p) && TokenOk(s', p, At(s', p).value)
    requires forall p, q :: At(s', p).Some? && At(s', q).Some? && pre(p) == pre(q) ==> p == q
    ensures Linear(s') && TokensOk(s')
  {
    forall p, q | At(s', p).Some? && At(s', p) == At(s', q) ensures p == q {
      assert At(s, pre(p)) == At(s, pre(q));
    }
  }

  // ---------------------------------------------------------------- how a step may change who runs

  ghost predicate SameRunnersBut(s: State, s': State, w: nat) {
    && |s'.workers| == |s.workers|
    && forall v :: 0 <= v < |s.workers| && v != w ==> s'.workers[v] == s.workers[v]
  }

  predicate InExec(s: State, f: nat) { f in s.fibers && s.fibers[f] == EXEC }

  /** Nobody starts or stops running. */
  lemma SameRunners(s: State, s': State, w: nat)
    requires SoleRunner(s) && ExecRuns(s) && SameRunnersBut(s, s', w)
    requires IsWorker(s, w) ==> Running(PcOf(s', w)) == Running(PcOf(s, w))
    requires forall f :: InExec(s', f) ==> InExec(s, f)
    ensures SoleRunner(s') && ExecRuns(s')
  {
    assert forall v, f :: RunsOn(s', v, f) <==> RunsOn(s, v, f);
    forall f | f in s'.fibers && s'.fibers[f] == EXEC ensures exists v :: RunsOn(s', v, f) {
      assert InExec(s', f);
      var v :| RunsOn(s, v, f);
      assert RunsOn(s', v, f);
    }
  }

  /** Worker `w` starts to run `f`, which nobody ran. */
  lemma Starts(s: State, s': State, w: nat, f: nat)
    requires SoleRunner(s) && ExecRuns(s) && WorkersOk(s) && SameRunnersBut(s, s', w) && IsWorker(s, w)
    requires Running(PcOf(s, w)).None? && RunsOn(s', w, f) && !InExec(s, f)
    requires forall g :: InExec(s', g) && g != f ==> InExec(s, g)
    ensures SoleRunner(s') && ExecRuns(s')
  {
    assert forall v, g :: RunsOn(s', v, g) && v != w ==> RunsOn(s, v, g) && InExec(s, g);
    forall g | g in s'.fibers && s'.fibers[g] == EXEC ensures exists v :: RunsOn(s', v, g) {
      assert InExec(s', g);
      if g != f {
        var v :| RunsOn(s, v, g);
        assert RunsOn(s', v, g);
      }
    }
  }

  /** Worker `w` stops running `f`. */
  lemma Ends(s: State, s': State, w: nat, f: nat)
    requires SoleRunner(s) && ExecRuns(s) && SameRunnersBut(s, s', w) && RunsOn(s, w, f)
    requires Running(PcOf(s', w)).None? && !InExec(s', f)
    requires forall g :: InExec(s', g) ==> InExec(s, g)
    ensures SoleRunner(s') && ExecRuns(s')
  {
    assert forall v, g :: RunsOn(s', v, g) ==> RunsOn(s, v, g);
    forall g | g in s'.fibers && s'.fibers[g] == EXEC ensures exists v :: RunsOn(s', v, g) {
      assert InExec(s', g);
      var v :| RunsOn(s, v, g);
      assert RunsOn(s', v, g);
    }
  }

  // ---------------------------------------------------------------- whose fiber is it

  /** The fibers a worker's program point speaks about. */
  predicate Mentions(wk: Worker, f: nat) {
    || wk.cb == Some(f)
    || match wk.pc
       case Took(item) => item == Resume(f)
       case InFiber(g, _) => g == f
       case InCall(g, _, _) => g == f
       case Left(g, _) => g == f
       case Requeue(g, _) => g == f
       case _ => false
  }

  /** A fiber mentioned but not run by a worker is in its hand or its spare fiber, and not in EXEC. */
  lemma MentionedIdle(s: State, w: nat, f: nat)
    requires WorkersOk(s) && IsWorker(s, w) && Mentions(s.workers[w], f) && !RunsOn(s, w, f)
    ensures !InExec(s, f)
    ensures At(s, HandAt(w)) == Some(OfFiber(f)) || At(s, SpareAt(w)) == Some(OfFiber(f))
  {
    assert WorkerOk(s, s.workers[w]);
  }

  /** No fiber is mentioned by two workers. */
  lemma Mine(s: State, w: nat, f: nat, v: nat)
    requires Inv(s) && IsWorker(s, w) && IsWorker(s, v) && v != w && Mentions(s.workers[w], f)
    ensures !Mentions(s.workers[v], f)
  {
    if Mentions(s.workers[v], f) {
      assert WorkerOk(s, s.workers[v]) && WorkerOk(s, s.workers[w]);
      if !RunsOn(s, v, f) { MentionedIdle(s, v, f); }
      if !RunsOn(s, w, f) { MentionedIdle(s, w, f); }
      assert RunsOn(s, v, f) || RunsOn(s, w, f) ==> InExec(s, f);
    }
  }

  /** Changing the state of a worker's own fiber does not disturb the other workers. */
  lemma OthersOk(s: State, s': State, w: nat, f: nat)
    requires Inv(s) && IsWorker(s, w) && SameRunnersBut(s, s', w)
    requires Mentions(s.workers[w], f)
    requires forall g :: g in s.fibers && g != f ==> g in s'.fibers && s'.fibers[g] == s.fibers[g]
    requires WorkerOk(s', s'.workers[w])
    ensures WorkersOk(s')
  {
    forall v | 0 <= v < |s'.workers| ensures WorkerOk(s', s'.workers[v]) {
      if v != w {
        Mine(s, w, f, v);
        assert WorkerOk(s, s.workers[v]);
      }
    }
  }
}
