/** The timer calls as they update the manager in place. */
module TimerManagers {
  import opened Basics
  import opened Timers

  class TimerManager {
    var table: Table
    var order: seq<nat>
    var tickled: bool
    var previous: nat

    ghost function View(): Manager
      reads this
    {
      Manager(table, order, tickled, previous)
    }

    constructor (now: nat)
      ensures View() == Manager(map[], [], false, now) && Valid(View())
    {
      table, order, tickled, previous := map[], [], false, now;
    }

    /** Private `addTimer`; returns whether `onTimerInsertedAtFront` is called. */
    method Add(a: nat) returns (notify: bool)
      requires Known(table, order) && a in table
      modifies this`order, this`tickled
      ensures View() == Enqueue(old(View()), a)
      ensures notify == Notifies(old(View()), a)
    {
      var i := LowerBound(table, order, table[a].deadline, a);
      order := order[..i] + [a] + order[i..];
      notify := i == 0 && !tickled;
      if notify {
        tickled := true;
      }
    }

    method AddTimer(a: nat, ms: nat, cb: nat, recurring: bool, now: nat) returns (notify: bool)
      requires Valid(View()) && a !in table
      modifies this
      ensures Known(WithNew(old(View()), a, ms, cb, recurring, now).table, old(order))
      ensures View() == Enqueue(WithNew(old(View()), a, ms, cb, recurring, now), a) && Valid(View())
      ensures notify == Notifies(WithNew(old(View()), a, ms, cb, recurring, now), a)
      ensures a in table && table[a].deadline == now + ms && table[a].ms == ms
      ensures table[a].cb == Some(cb) && table[a].recurring == recurring
      ensures notify <==> !old(tickled) && forall b :: b in old(order) ==>
                now + ms < old(table)[b].deadline || (now + ms == old(table)[b].deadline && a < b)
      ensures forall b :: b in old(table) ==> b in table && table[b] == old(table)[b]
      ensures forall b :: b in order <==> b in old(order) || b == a
    {
      ValidAdd(View(), a, ms, cb, recurring, now);
      AddNotifies(View(), a, ms, cb, recurring, now);
      table := table[a := Timer(recurring, ms, now + ms, Some(cb))];
      notify := Add(a);
    }

    /** The erase after the lookup never receives the end of the set. */
    method Cancel(a: nat) returns (ok: bool)
      requires Valid(View()) && a in table
      modifies this
      ensures ok == Live(old(View()), a)
      ensures View() == Cancelled(old(View()), a) && Valid(View())
      ensures a in table && table[a].cb == None && a !in order
      ensures forall b :: b in old(table) && b != a ==> b in table && table[b] == old(table)[b]
    {
      ValidCancel(View(), a);
      LookupSucceeds(View(), a);
      if table[a].cb.None? {
        return false;
      }
      var i := Find(table, order, a);
      table := table[a := table[a].(cb := None)];
      order := order[..i] + order[i + 1..];
      return true;
    }

    /** Takes a live timer out of the set and then changes it. */
    method TakeAndChange(a: nat, t: Timer)
      requires Valid(View()) && a in table && Live(View(), a)
      modifies this`order, this`table
      ensures View() == Changed(old(View()), a, t)
    {
      LookupSucceeds(View(), a);
      var i := Find(table, order, a);
      order := order[..i] + order[i + 1..];
      table := table[a := t];
    }

    method Refresh(a: nat, now: nat) returns (ok: bool)
      requires Valid(View()) && a in table
      modifies this
      ensures ok == Live(old(View()), a)
      ensures View() == Refreshed(old(View()), a, now) && Valid(View())
      ensures ok ==> a in table && table[a] == old(table)[a].(deadline := now + old(table)[a].ms)
      ensures !ok ==> View() == old(View())
    {
      ValidRefresh(View(), a, now);
      LookupSucceeds(View(), a);
      if table[a].cb.None? {
        return false;
      }
      TakeAndChange(a, RefreshTimer(table[a], now));
      var k := LowerBound(table, order, table[a].deadline, a);
      order := order[..k] + [a] + order[k..];
      return true;
    }

    method Reset(a: nat, ms: nat, fromNow: bool, now: nat) returns (ok: bool, notify: bool)
      requires Valid(View()) && a in table
      modifies this
      ensures ok == (ResetIsNop(old(table)[a], ms, fromNow) || Live(old(View()), a))
      ensures View() == WasReset(old(View()), a, ms, fromNow, now) && Valid(View())
      ensures notify == (!ResetIsNop(old(table)[a], ms, fromNow) && Live(old(View()), a)
                         && Notifies(Changed(old(View()), a, ResetTimer(old(table)[a], ms, fromNow, now)), a))
      ensures old(table)[a].cb.Some? && fromNow ==>
                a in table && table[a] == old(table)[a].(ms := ms, deadline := now + ms)
      ensures old(table)[a].cb.Some? && !fromNow && old(table)[a].deadline >= old(table)[a].ms ==>
                a in table
                && table[a] == old(table)[a].(ms := ms, deadline := old(table)[a].deadline - old(table)[a].ms + ms)
      ensures old(table)[a].cb.None? ==> View() == old(View())
    {
      ValidReset(View(), a, ms, fromNow, now);
      LookupSucceeds(View(), a);
      if ms == table[a].ms && !fromNow {
        return true, false;
      }
      if table[a].cb.None? {
        return false, false;
      }
      TakeAndChange(a, ResetTimer(table[a], ms, fromNow, now));
      notify := Add(a);
      ok := true;
    }

    method GetNextTimer(now: nat) returns (wait: Option<nat>)
      requires Valid(View())
      modifies this`tickled
      ensures wait == NextWait(old(View()), now)
      ensures View() == old(View()).(tickled := false) && Valid(View())
    {
      tickled := false;
      if order == [] {
        return None;
      }
      var deadline := table[order[0]].deadline;
      return Some(if now >= deadline then 0 else deadline - now);
    }

    /** The body of the loop over the expired timers. */
    method SettleTimer(a: nat, now: nat)
      requires Known(table, order) && a in table
      modifies this
      ensures View() == SettleOne(old(View()), a, now)
    {
      if table[a].recurring {
        table := table[a := RefreshTimer(table[a], now)];
        var p := LowerBound(table, order, table[a].deadline, a);
        order := order[..p] + [a] + order[p..];
      } else {
        table := table[a := table[a].(cb := None)];
      }
    }

    /** One turn of the loop: the callback of the timer, and the timer settled. */
    method SettleTurn(a: nat, now: nat, ghost m: Manager, ghost es: seq<nat>, ghost i: nat) returns (cb: Option<nat>)
      requires OutOfSet(m, es) && i < |es| && a == es[i] && View() == Settle(m, es, i, now)
      modifies this
      ensures View() == Settle(m, es, i + 1, now)
      ensures Handed(m.table, es)[..i + 1] == Handed(m.table, es)[..i] + [cb]
    {
      SettleNext(m, es, i, now);
      cb := table[a].cb;
      SettleTimer(a, now);
    }

    /** The loop over the expired timers. */
    method SettleAll(es: seq<nat>, now: nat) returns (cbs: seq<Option<nat>>)
      requires OutOfSet(View(), es)
      modifies this
      ensures View() == Settle(old(View()), es, |es|, now)
      ensures cbs == Handed(old(table), es)
    {
      cbs := [];
      var i := |cbs|;
      ghost var m := View();
      SettleEnds(m, es, i, now);
      while i < |es|
        invariant 0 <= i <= |es|
        invariant View() == Settle(m, es, i, now)
        invariant cbs == Handed(m.table, es)[..i]
      {
        var cb := SettleTurn(es[i], now, m, es, i);
        cbs := cbs + [cb];
        i := i + 1;
      }
    }

    /** `listExpiredCb`: the callbacks handed out are those of the timers taken from the front. */
    method ListExpiredCb(now: nat, probe: nat) returns (cbs: seq<Option<nat>>)
      requires Valid(View())
      modifies this
      ensures View() == Expired(old(View()), now, probe) && Valid(View())
      ensures cbs == Handed(old(table), Taken(old(View()), now, probe))
      ensures forall a :: a in Taken(old(View()), now, probe) ==>
                a in old(table) && a in table
                && if old(table)[a].recurring then table[a] == old(table)[a].(deadline := now + old(table)[a].ms)
                   else table[a] == old(table)[a].(cb := None)
      ensures forall a :: a in old(table) && a !in Taken(old(View()), now, probe) ==>
                a in table && table[a] == old(table)[a]
    {
      ExpiredEffect(View(), now, probe);
      if order == [] {
        return [];
      }
      TakenPulled(View(), now, probe);
      var k := ExpiredCount(Manager(table, order, tickled, previous), now, probe);
      previous := now;
      var es := order[..k];
      order := order[k..];
      cbs := SettleAll(es, now);
    }
  }
}
