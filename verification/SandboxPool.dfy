/** The pool's own fields, updated in place: each method is one stretch of `pool.py` between two
  * points of preemption, proved to be the matching step of the transition system. */
module SandboxPool {
  import opened Strings
  import opened PoolProtocol

  class Pool {
    const size: nat
    const maxUses: nat
    var items: seq<Item>
    var closed: bool
    var threads: seq<Phase>      // each borrower's local variables
    var closer: Closer           // the closing thread's local variables
    var lent: seq<nat>
    var dead: set<Sandbox>
    var released: set<Sandbox>
    ghost var owedAtDrain: nat
    ghost var waitersAtDrain: nat
    ghost var takenLate: nat
    ghost var putSample: map<Sandbox, bool>

    ghost function Abs(): State
      reads this
    {
      State(size, maxUses, items, closed, threads, closer, lent, dead, released, owedAtDrain, waitersAtDrain, takenLate,
            putSample)
    }

    constructor Filled(size: nat, maxUses: nat, borrowers: nat)
      requires size > 0 && maxUses > 0
      ensures Abs() == Initial(size, maxUses, borrowers).value
    {
      this.size, this.maxUses := size, maxUses;
      items, closed, closer := [], false, NotClosing;
      threads := seq(borrowers, i => Idle);
      lent, dead, released := [], {}, {};
      owedAtDrain, waitersAtDrain, takenLate, putSample := 0, 0, 0, map[];
      new;
      for i := 0 to size
        invariant items == Fresh(i) && lent == seq(i, k => 0) && !closed && closer == NotClosing
        invariant threads == seq(borrowers, k => Idle) && dead == {} && released == {}
        invariant owedAtDrain == waitersAtDrain == takenLate == 0 && putSample == map[]
      {
        lent := lent + [0];
        items := items + [Item(i, 0)];
      }
    }

    /** `__init__`: null stands for ValueError. */
    static method Create(size: int, maxUses: int, borrowers: nat) returns (pool: Pool?)
      ensures pool == null <==> size <= 0 || maxUses <= 0
      ensures pool == null <==> Initial(size, maxUses, borrowers) == None
      ensures pool != null ==> fresh(pool) && Some(pool.Abs()) == Initial(size, maxUses, borrowers)
    {
      if size <= 0 || maxUses <= 0 {
        return null;
      }
      pool := new Pool.Filled(size, maxUses, borrowers);
    }

    /** The open check at the start of `acquire`: false stands for PoolExhaustedError. */
    method CheckOpen(t: nat) returns (open: bool)
      requires t < |threads| && threads[t].Idle?
      modifies this`threads
      ensures open == Enabled(old(Abs()), Admit(t))
      ensures Abs() == if open then Next(old(Abs()), Admit(t)) else old(Abs())
    {
      open := !closed;
      if open {
        threads := threads[t := Admitted];
      }
    }

    /** `self._items.get`: false when it waits in vain, which the borrower may give up on. */
    method Take(t: nat) returns (found: bool)
      requires t < |threads| && threads[t].Admitted? && Inv(Abs())
      modifies this
      ensures found == Enabled(old(Abs()), PoolProtocol.Take(t))
      ensures Abs() == if found then Next(old(Abs()), PoolProtocol.Take(t)) else Next(old(Abs()), GiveUp(t))
    {
      found := items != [];
      if found {
        assert ItemCounted(Abs(), items[0], 0);
        threads := threads[t := Holding(items[0])];
        lent := lent[items[0].sandbox := lent[items[0].sandbox] + 1];
        items := items[1..];
        takenLate := if closer.Drained? then takenLate + 1 else takenLate;
      } else {
        threads := threads[t := Idle];
      }
    }

    /** Leaving the `with` body: sample the flag under the lock and count the use. */
    method Sample(t: nat)
      requires t < |threads| && threads[t].Holding?
      modifies this`threads
      ensures Abs() == Next(old(Abs()), Return(t))
    {
      var item := threads[t].item;
      threads := threads[t := Sampled(Item(item.sandbox, item.uses + 1), closed)];
    }

    /** The test that decides between replacing the sandbox and putting it back. */
    method Choose(t: nat)
      requires t < |threads| && threads[t].Sampled?
      modifies this`threads
      ensures Abs() == Next(old(Abs()), Decide(t))
    {
      var Sampled(item, wasClosed) := threads[t];
      if wasClosed || item.sandbox in dead || item.uses >= maxUses {
        threads := threads[t := Doomed(item, wasClosed)];
      } else {
        threads := threads[t := Putting(item, wasClosed)];
      }
    }

    /** `sandbox.destroy()` on the return path. */
    method DestroyReturned(t: nat)
      requires t < |threads| && threads[t].Doomed?
      modifies this`threads, this`dead, this`released
      ensures Abs() == Next(old(Abs()), Destroy(t))
    {
      var Doomed(item, wasClosed) := threads[t];
      dead := dead + {item.sandbox};
      released := released + {item.sandbox};
      threads := threads[t := if wasClosed then Idle else Replacing(wasClosed)];
    }

    /** `self._factory()` for a replacement. */
    method Replace(t: nat)
      requires t < |threads| && threads[t].Replacing?
      modifies this`threads, this`lent
      ensures Abs() == Next(old(Abs()), PoolProtocol.Create(t))
    {
      threads := threads[t := Putting(Item(|lent|, 0), threads[t].closed)];
      lent := lent + [0];
    }

    /** `self._items.put`: in a reachable pool there is always room. */
    method PutBack(t: nat)
      requires t < |threads| && threads[t].Putting? && Inv(Abs())
      modifies this`threads, this`items, this`putSample
      ensures Enabled(old(Abs()), Put(t))
      ensures Abs() == Next(old(Abs()), Put(t))
    {
      SumUpdate(Occupied, threads, t, Idle);
      items := items + [threads[t].item];
      putSample := putSample[threads[t].item.sandbox := threads[t].closed];
      threads := threads[t := Idle];
    }

    /** The first part of `close`: set the flag. False when the pool was closed before. */
    method SetClosed() returns (first: bool)
      requires Inv(Abs())
      modifies this`closed, this`closer
      ensures first == Enabled(old(Abs()), PoolProtocol.Close)
      ensures Abs() == if first then Next(old(Abs()), PoolProtocol.Close) else old(Abs())
      ensures Inv(Abs()) && closed && (first ==> closer == Draining)
      ensures first == !old(closed) && items == old(items) && threads == old(threads)
    {
      first := !closed;
      if first {
        InvNext(Abs(), PoolProtocol.Close);
        closed := true;
        closer := Draining;
      }
    }

    /** One round of the drain that finds a sandbox. */
    method DrainOne()
      requires Inv(Abs()) && closer == Draining && items != []
      modifies this
      ensures Abs() == Next(Next(old(Abs()), Drain), Discard)
      ensures Inv(Abs()) && closer == Draining
      ensures items == old(items)[1..] && closed == old(closed) && threads == old(threads)
    {
      hide Inv;
      ghost var s := Abs();
      InvNext(s, Drain);
      InvNext(Next(s, Drain), Discard);
      var Item(sandbox, _) := items[0];
      items := items[1..];
      dead := dead + {sandbox};
      released := released + {sandbox};
    }

    /** The round of the drain that finds the queue empty. */
    method FinishDrain()
      requires Inv(Abs()) && closer == Draining && items == []
      modifies this
      ensures Abs() == Next(old(Abs()), Drain) && Inv(Abs())
      ensures items == [] && closer == Drained && threads == old(threads) && closed == old(closed)
    {
      hide Inv;
      InvNext(Abs(), Drain);
      closer := Drained;
      owedAtDrain, waitersAtDrain, takenLate := Sum(Owed, threads), Sum(Waiting, threads), 0;
    }

    /** `close`, run to its end without interference. */
    method CloseAlone()
      requires Inv(Abs())
      modifies this
      ensures Inv(Abs()) && closed
      ensures Abs() == if old(closed) then old(Abs())
                       else Run(old(Abs()), [PoolProtocol.Close] + DrainSteps(|old(items)|))
      ensures !old(closed) ==> items == [] && closer == Drained && threads == old(threads)
    {
      ghost var before := Abs();
      var first := SetClosed();
      if !first {
        return;
      }
      FirstRound(before);
      hide Inv, Run, DrainSteps, Next, Enabled;
      while items != []
        invariant closed && closer == Draining && Inv(Abs())
        invariant threads == old(threads)
        invariant Run(Abs(), DrainSteps(|items|)) == Run(before, [PoolProtocol.Close] + DrainSteps(|old(items)|))
        decreases |items|
      {
        DrainRound(Abs());
        DrainOne();
      }
      LastRound(Abs());
      FinishDrain();
    }
  }

  lemma FirstRound(s: State)
    requires !s.closed
    ensures var steps := DrainSteps(|s.items|);
      Run(s, [PoolProtocol.Close] + steps) == Run(Next(s, PoolProtocol.Close), steps)
  {
    var steps := DrainSteps(|s.items|);
    assert ([PoolProtocol.Close] + steps)[1..] == steps;
  }

  /** The closing thread's steps for a queue of some length. */
  ghost function DrainSteps(n: nat): seq<Step> {
    if n == 0 then [Drain] else [Drain, Discard] + DrainSteps(n - 1)
  }

  lemma DrainRound(s: State)
    requires s.closer == Draining && s.items != []
    ensures Run(s, DrainSteps(|s.items|)) == Run(Next(Next(s, Drain), Discard), DrainSteps(|s.items| - 1))
  {
    var steps := DrainSteps(|s.items|);
    assert steps[0] == Drain && steps[1..][0] == Discard && steps[1..][1..] == DrainSteps(|s.items| - 1);
    assert Run(s, steps) == Run(Next(s, Drain), steps[1..]);
    assert Run(Next(s, Drain), steps[1..]) == Run(Next(Next(s, Drain), Discard), steps[1..][1..]);
  }

  lemma LastRound(s: State)
    requires s.closer == Draining && s.items == []
    ensures Run(s, DrainSteps(0)) == Next(s, Drain)
  {
    assert [Drain][1..] == [];
  }
}
