/** Exactly when closing a pool destroys everything, as a condition that a caller can check first. */
module PoolClosing {
  import opened Strings
  import opened PoolProtocol

  lemma {:induction false} RunConcat(s: State, left: seq<Step>, right: seq<Step>)
    ensures Run(s, left + right) == Run(Run(s, left), right)
    decreases left
  {
    hide Next, Enabled;
    if left == [] {
      assert left + right == right;
    } else {
      assert (left + right)[0] == left[0] && (left + right)[1..] == left[1..] + right;
      RunConcat(if Enabled(s, left[0]) then Next(s, left[0]) else s, left[1..], right);
    }
  }

  /** The closing thread alone empties the queue; what was owed before is owed when it is done. */
  lemma {:induction false} DrainToTheEnd(s: State) returns (steps: seq<Step>)
    requires Inv(s) && s.closer == Draining
    ensures var s' := Run(s, steps);
      Inv(s') && s'.closer == Drained && s'.owedAtDrain == Sum(Owed, s.threads) && s'.takenLate == 0
    decreases |s.items|
  {
    hide Inv, Sum;
    InvNext(s, Drain);
    var s1 := Next(s, Drain);
    if s.items == [] {
      RunCons(s, Drain, []);
      steps := [Drain];
    } else {
      InvNext(s1, Discard);
      var rest := DrainToTheEnd(Next(s1, Discard));
      RunCons(s1, Discard, rest);
      RunCons(s, Drain, [Discard] + rest);
      steps := [Drain] + ([Discard] + rest);
    }
  }

  /** How many steps a borrower is from being outside `acquire`, without taking from the queue. */
  function Rank(phase: Phase): nat {
    match phase
    case Idle => 0
    case Admitted => 1
    case Holding(_) => 5
    case Sampled(_, _) => 4
    case Doomed(_, _) => 3
    case Replacing(_) => 2
    case Putting(_, _) => 1
  }

  function Ranks(threads: seq<Phase>): nat {
    if threads == [] then 0 else Rank(threads[0]) + Ranks(threads[1..])
  }

  lemma {:induction false} RanksUpdate(threads: seq<Phase>, t: nat, phase: Phase)
    requires t < |threads|
    ensures Ranks(threads[t := phase]) == Ranks(threads) - Rank(threads[t]) + Rank(phase)
    ensures Rank(threads[t]) <= Ranks(threads)
  {
    if t == 0 {
      assert threads[t := phase][1..] == threads[1..];
    } else {
      assert threads[t := phase][1..] == threads[1..][t - 1 := phase];
      RanksUpdate(threads[1..], t - 1, phase);
    }
  }

  /** The step that brings a borrower nearer to the outside. */
  function Onward(phase: Phase, t: nat): Step
    requires !phase.Idle?
  {
    match phase
    case Admitted => GiveUp(t)
    case Holding(_) => Return(t)
    case Sampled(_, _) => Decide(t)
    case Doomed(_, _) => Destroy(t)
    case Replacing(_) => Create(t)
    case Putting(_, _) => Put(t)
  }

  lemma OnwardEnabled(s: State, t: nat)
    requires Inv(s) && t < |s.threads| && !s.threads[t].Idle?
    ensures Enabled(s, Onward(s.threads[t], t))
  {
    hide Sum, Conserved, UsesCounted, DrainSettled, PutsOpen;
    SumUpdate(Occupied, s.threads, t, Idle);
  }

  lemma OnwardStep(s: State, t: nat)
    requires t < |s.threads| && !s.threads[t].Idle? && Enabled(s, Onward(s.threads[t], t))
    ensures var s' := Next(s, Onward(s.threads[t], t));
      && s'.closer == s.closer && s'.owedAtDrain == s.owedAtDrain && s'.takenLate == s.takenLate
      && t < |s'.threads| && s'.threads == s.threads[t := s'.threads[t]] && Rank(s'.threads[t]) < Rank(s.threads[t])
  {
    hide Sum;
  }

  /** All borrowers finish, one step after another, and none of them takes anything more. */
  lemma {:induction false} SettleAll(s: State) returns (steps: seq<Step>)
    requires Inv(s) && s.closer.Drained?
    ensures var s' := Run(s, steps);
      && Quiet(s') && s'.owedAtDrain == s.owedAtDrain && s'.takenLate == s.takenLate
    decreases Ranks(s.threads)
  {
    hide Inv, Sum, Next, Onward, Rank;
    if t: nat :| t < |s.threads| && !s.threads[t].Idle? {
      var step := Onward(s.threads[t], t);
      OnwardEnabled(s, t);
      OnwardStep(s, t);
      InvNext(s, step);
      RanksUpdate(s.threads, t, Next(s, step).threads[t]);
      var rest := SettleAll(Next(s, step));
      RunCons(s, step, rest);
      steps := [step] + rest;
    } else {
      steps := [];
    }
  }

  /** If a return is under way that sampled the pool as open, closing can leave a sandbox alive: the
    * queue is drained first, and then the return finishes. */
  lemma OwedCanOutliveClose(s: State) returns (steps: seq<Step>)
    requires Reachable(s) && Enabled(s, Close) && Sum(Owed, s.threads) > 0
    ensures var s' := Run(Next(s, Close), steps);
      Quiet(s') && !AllDestroyed(s')
  {
    ReachableInv(s);
    InvNext(s, Close);
    ReachableNext(s, Close);
    var closing := Next(s, Close);
    assert closing.threads == s.threads && closing.closer == Draining;
    hide Inv, Sum, Next, Reachable, AllDestroyed, Quiet;
    var first := DrainToTheEnd(closing);
    var second := SettleAll(Run(closing, first));
    RunConcat(closing, first, second);
    steps := first + second;
    ReachableRun(closing, steps);
    CloseDestroysEverything(Run(closing, steps));
  }

  /** Everything that can happen after closing now ends with every sandbox ever created destroyed. */
  ghost predicate CloseIsSafe(s: State)
    requires Enabled(s, Close)
  {
    forall steps: seq<Step> :: Quiet(Run(Next(s, Close), steps)) ==> AllDestroyed(Run(Next(s, Close), steps))
  }

  /** What a caller can check before closing, exactly: no return is under way that sampled the pool as
    * open. */
  lemma CloseIsSafeExactly(s: State)
    requires Reachable(s) && Enabled(s, Close)
    ensures Sum(Owed, s.threads) == 0 <==> CloseIsSafe(s)
  {
    hide Next, Sum, Quiet, AllDestroyed, Reachable;
    if Sum(Owed, s.threads) == 0 {
      forall steps: seq<Step> ensures Quiet(Run(Next(s, Close), steps)) ==> AllDestroyed(Run(Next(s, Close), steps)) {
        CloseWithNothingOwed(s, steps);
      }
    } else {
      var steps := OwedCanOutliveClose(s);
      assert !(Quiet(Run(Next(s, Close), steps)) ==> AllDestroyed(Run(Next(s, Close), steps)));
    }
  }
}
