/** The bounded sandbox pool as a transition system: any number of borrowers, the closing thread and
  * outside destruction, interleaved at every point where the pool's code can be preempted. */
module PoolProtocol {
  import opened Strings

  type Sandbox = nat

  datatype Item = Item(sandbox: Sandbox, uses: nat)

  /** Where one borrowing thread is inside `acquire`. */
  datatype Phase =
    | Idle
    | Admitted                            // found the pool open, is about to take from the queue
    | Holding(item: Item)                 // inside the `with` body
    | Sampled(item: Item, closed: bool)   // has sampled `_closed` and counted the use
    | Doomed(item: Item, closed: bool)    // is about to destroy the sandbox
    | Replacing(closed: bool)             // has destroyed it and is about to call the factory
    | Putting(item: Item, closed: bool)   // is about to put a sandbox into the queue

  /** Where the thread that closes the pool is. */
  datatype Closer = NotClosing | Draining | Discarding(sandbox: Sandbox) | Drained

  datatype State = State(
    size: nat,
    maxUses: nat,
    items: seq<Item>,
    closed: bool,
    threads: seq<Phase>,
    closer: Closer,
    lent: seq<nat>,             // how often each sandbox ever created was lent; its length names the next
    dead: set<Sandbox>,         // sandboxes whose `destroyed` flag is set, by anyone
    released: set<Sandbox>,     // sandboxes that the pool itself has destroyed
    owedAtDrain: nat,           // returns still to put a sandbox when the drain saw the queue empty
    waitersAtDrain: nat,        // borrowers past the open check at that moment
    takenLate: nat,             // sandboxes taken from the queue after that moment
    putSample: map<Sandbox, bool> // `closed` as sampled by the return that last put a sandbox
  )

  datatype Step =
    | Admit(t: nat) | Take(t: nat) | GiveUp(t: nat)
    | Return(t: nat) | Decide(t: nat) | Destroy(t: nat) | Create(t: nat) | Put(t: nat)
    | Kill(sandbox: Sandbox)
    | Close | Drain | Discard

  /** Whether a step can be taken; `Put` waits for room because the queue is bounded. */
  predicate Enabled(s: State, step: Step) {
    match step
    case Admit(t) => t < |s.threads| && s.threads[t].Idle? && !s.closed
    case Take(t) => t < |s.threads| && s.threads[t].Admitted? && s.items != []
    case GiveUp(t) => t < |s.threads| && s.threads[t].Admitted?
    case Return(t) => t < |s.threads| && s.threads[t].Holding?
    case Decide(t) => t < |s.threads| && s.threads[t].Sampled?
    case Destroy(t) => t < |s.threads| && s.threads[t].Doomed?
    case Create(t) => t < |s.threads| && s.threads[t].Replacing?
    case Put(t) => t < |s.threads| && s.threads[t].Putting? && |s.items| < s.size
    case Kill(sandbox) => sandbox < |s.lent|
    case Close => !s.closed
    case Drain => s.closer.Draining?
    case Discard => s.closer.Discarding?
  }

  function Next(s: State, step: Step): State
    requires Enabled(s, step)
  {
    match step
    case Admit(t) => s.(threads := s.threads[t := Admitted])
    case Take(t) =>
      var Item(sandbox, uses) := s.items[0];
      s.(threads := s.threads[t := Holding(s.items[0])],
         items := s.items[1..],
         lent := if sandbox < |s.lent| then s.lent[sandbox := s.lent[sandbox] + 1] else s.lent,
         takenLate := if s.closer.Drained? then s.takenLate + 1 else s.takenLate)
    case GiveUp(t) => s.(threads := s.threads[t := Idle])
    case Return(t) =>
      var Item(sandbox, uses) := s.threads[t].item;
      s.(threads := s.threads[t := Sampled(Item(sandbox, uses + 1), s.closed)])
    case Decide(t) =>
      var Sampled(item, closed) := s.threads[t];
      if closed || item.sandbox in s.dead || item.uses >= s.maxUses
      then s.(threads := s.threads[t := Doomed(item, closed)])
      else s.(threads := s.threads[t := Putting(item, closed)])
    case Destroy(t) =>
      var Doomed(item, closed) := s.threads[t];
      s.(threads := s.threads[t := if closed then Idle else Replacing(closed)],
         dead := s.dead + {item.sandbox},
         released := s.released + {item.sandbox})
    case Create(t) =>
      s.(threads := s.threads[t := Putting(Item(|s.lent|, 0), s.threads[t].closed)], lent := s.lent + [0])
    case Put(t) =>
      var Putting(item, closed) := s.threads[t];
      s.(threads := s.threads[t := Idle], items := s.items + [item], putSample := s.putSample[item.sandbox := closed])
    case Kill(sandbox) => s.(dead := s.dead + {sandbox})
    case Close => s.(closed := true, closer := Draining)
    case Drain =>
      if s.items == []
      then
        s.(closer := Drained,
           owedAtDrain := Sum(Owed, s.threads),
           waitersAtDrain := Sum(Waiting, s.threads),
           takenLate := 0)
      else s.(closer := Discarding(s.items[0].sandbox), items := s.items[1..])
    case Discard =>
      s.(closer := Draining, dead := s.dead + {s.closer.sandbox}, released := s.released + {s.closer.sandbox})
  }

  /** A run: steps that cannot be taken when their turn comes leave the state alone. */
  function Run(s: State, steps: seq<Step>): State
    decreases steps
  {
    if steps == [] then s
    else Run(if Enabled(s, steps[0]) then Next(s, steps[0]) else s, steps[1..])
  }

  function Fresh(size: nat): seq<Item> {
    seq(size, (i: nat) => Item(i, 0))
  }

  /** `__init__` for some number of threads; None stands for ValueError. */
  function Initial(size: int, maxUses: int, threads: nat): Option<State> {
    if size <= 0 || maxUses <= 0 then None
    else Some(State(size, maxUses, Fresh(size), false, seq(threads, i => Idle), NotClosing,
                    seq(size, i => 0), {}, {}, 0, 0, 0, map[]))
  }

  // ---------------------------------------------------------------- counting

  datatype Kind = Occupied | Owed | Waiting | Carrying(sandbox: Sandbox)

  function One(b: bool): nat {
    if b then 1 else 0
  }

  /** Whether a thread holds a pool slot, owes the queue a sandbox, waits for the queue, or carries
    * a given sandbox. */
  function Weight(kind: Kind, phase: Phase): nat {
    match kind
    case Occupied => One(!phase.Idle? && !phase.Admitted?)
    case Owed =>
      One(phase.Replacing? || phase.Putting? || ((phase.Sampled? || phase.Doomed?) && !phase.closed))
    case Waiting => One(phase.Admitted?)
    case Carrying(sandbox) =>
      One((phase.Holding? || phase.Sampled? || phase.Doomed? || phase.Putting?) && phase.item.sandbox == sandbox)
  }

  function Sum(kind: Kind, threads: seq<Phase>): nat {
    if threads == [] then 0 else Weight(kind, threads[0]) + Sum(kind, threads[1..])
  }

  function Queued(items: seq<Item>, sandbox: Sandbox): nat {
    if items == [] then 0 else One(items[0].sandbox == sandbox) + Queued(items[1..], sandbox)
  }

  /** In how many places a sandbox is: the queue, the borrowers, the closer's hand. */
  function Places(s: State, sandbox: Sandbox): nat {
    Queued(s.items, sandbox) + Sum(Carrying(sandbox), s.threads) + One(s.closer == Discarding(sandbox))
  }

  predicate Live(s: State, sandbox: Sandbox) {
    sandbox < |s.lent| && sandbox !in s.released
  }

  lemma {:induction false} SumUpdate(kind: Kind, threads: seq<Phase>, t: nat, phase: Phase)
    requires t < |threads|
    ensures Sum(kind, threads[t := phase]) == Sum(kind, threads) - Weight(kind, threads[t]) + Weight(kind, phase)
    ensures Weight(kind, threads[t]) <= Sum(kind, threads)
  {
    if t > 0 {
      assert threads[t := phase][1..] == threads[1..][t - 1 := phase];
      SumUpdate(kind, threads[1..], t - 1, phase);
    } else {
      assert threads[t := phase][1..] == threads[1..];
    }
  }

  lemma {:induction false} SumOfIdle(kind: Kind, threads: seq<Phase>)
    requires forall t :: 0 <= t < |threads| ==> threads[t].Idle?
    ensures Sum(kind, threads) == 0
  {
    if threads != [] {
      SumOfIdle(kind, threads[1..]);
    }
  }

  lemma {:induction false} QueuedSnoc(items: seq<Item>, item: Item, sandbox: Sandbox)
    ensures Queued(items + [item], sandbox) == Queued(items, sandbox) + One(item.sandbox == sandbox)
  {
    if items == [] {
      assert items + [item] == [item] && [item][1..] == [];
    } else {
      assert (items + [item])[1..] == items[1..] + [item];
      QueuedSnoc(items[1..], item, sandbox);
    }
  }

  lemma {:induction false} QueuedMember(items: seq<Item>, i: nat)
    requires i < |items|
    ensures Queued(items, items[i].sandbox) >= 1
  {
    if i > 0 {
      QueuedMember(items[1..], i - 1);
    }
  }

  lemma {:induction false} QueuedAbsent(items: seq<Item>, sandbox: Sandbox)
    requires Queued(items, sandbox) > 0
    ensures exists i :: 0 <= i < |items| && items[i].sandbox == sandbox
  {
    if items[0].sandbox != sandbox {
      QueuedAbsent(items[1..], sandbox);
      var i :| 0 <= i < |items[1..]| && items[1..][i].sandbox == sandbox;
      assert items[i + 1].sandbox == sandbox;
    }
  }

  // ---------------------------------------------------------------- the invariant

  /** Every live sandbox is in exactly one place, and nothing else is anywhere. */
  ghost predicate Conserved(s: State) {
    forall sandbox: Sandbox :: Places(s, sandbox) == One(Live(s, sandbox))
  }

  /** Slots in the queue, with borrowers and in the closer's hand: all of them while the pool is open. */
  ghost predicate SlotsHeld(s: State) {
    var slots := |s.items| + Sum(Occupied, s.threads) + One(s.closer.Discarding?);
    slots <= s.size && (!s.closed ==> slots == s.size)
  }

  /** The use count that travels with a sandbox is how often it was lent. */
  ghost predicate ItemCounted(s: State, item: Item, extra: nat) {
    item.sandbox < |s.lent| && s.lent[item.sandbox] == item.uses + extra
  }

  ghost predicate UsesCounted(s: State) {
    && (forall i :: 0 <= i < |s.items| ==> ItemCounted(s, s.items[i], 0) && s.items[i].uses < s.maxUses)
    && (forall t :: 0 <= t < |s.threads| ==> PhaseCounted(s, s.threads[t]))
    && (forall sandbox :: 0 <= sandbox < |s.lent| ==> s.lent[sandbox] <= s.maxUses)
  }

  ghost predicate PhaseCounted(s: State, phase: Phase) {
    match phase
    case Holding(item) => ItemCounted(s, item, 1)
    case Sampled(item, _) => ItemCounted(s, item, 0)
    case Doomed(item, _) => ItemCounted(s, item, 0)
    case Putting(item, _) => ItemCounted(s, item, 0) && item.uses < s.maxUses
    case _ => true
  }

  /** After the drain, what is queued or still owed to the queue is what was owed when it ended,
    * less what borrowers already past the open check have taken since. */
  ghost predicate DrainSettled(s: State) {
    && (s.closer.NotClosing? <==> !s.closed)
    && (forall t :: 0 <= t < |s.threads| ==>
          ((s.threads[t].Sampled? || s.threads[t].Doomed?) && s.threads[t].closed ==> s.closed))
    && (s.closer.Drained? ==>
          && |s.items| + Sum(Owed, s.threads) + s.takenLate == s.owedAtDrain
          && Sum(Waiting, s.threads) + s.takenLate <= s.waitersAtDrain)
  }

  /** Only returns that sampled the pool as open put anything, and whatever is queued after the drain
    * was put by one. */
  ghost predicate PutsOpen(s: State) {
    && (forall t :: 0 <= t < |s.threads| && (s.threads[t].Replacing? || s.threads[t].Putting?) ==> !s.threads[t].closed)
    && (forall sandbox :: sandbox in s.putSample ==> !s.putSample[sandbox])
    && (s.closer.Drained? ==> forall i :: 0 <= i < |s.items| ==> s.items[i].sandbox in s.putSample)
  }

  ghost predicate Inv(s: State) {
    && s.size > 0 && s.maxUses > 0
    && s.released <= s.dead && (forall sandbox :: sandbox in s.dead ==> sandbox < |s.lent|)
    && Conserved(s) && SlotsHeld(s) && UsesCounted(s) && DrainSettled(s) && PutsOpen(s)
  }

  /** The thread that a step moves, and the phase it moves to. */
  lemma SumNext(s: State, step: Step, kind: Kind)
    requires Enabled(s, step)
    ensures match step
      case Kill(_) => Next(s, step).threads == s.threads
      case Close => Next(s, step).threads == s.threads
      case Drain => Next(s, step).threads == s.threads
      case Discard => Next(s, step).threads == s.threads
      case _ =>
        && Next(s, step).threads == s.threads[step.t := Next(s, step).threads[step.t]]
        && Sum(kind, Next(s, step).threads)
           == Sum(kind, s.threads) - Weight(kind, s.threads[step.t]) + Weight(kind, Next(s, step).threads[step.t])
        && Weight(kind, s.threads[step.t]) <= Sum(kind, s.threads)
  {
    hide Sum, Weight;
    if !step.Kill? && !step.Close? && !step.Drain? && !step.Discard? {
      SumUpdate(kind, s.threads, step.t, Next(s, step).threads[step.t]);
    }
  }

  lemma PlacesNext(s: State, step: Step, sandbox: Sandbox)
    requires Enabled(s, step) && Inv(s)
    ensures Places(Next(s, step), sandbox) == One(Live(Next(s, step), sandbox))
  {
    hide Sum, SlotsHeld, UsesCounted, PutsOpen;
    assert Places(s, sandbox) == One(Live(s, sandbox));
    SumNext(s, step, Carrying(sandbox));
    if step.Put? {
      QueuedSnoc(s.items, s.threads[step.t].item, sandbox);
    }
    if step.Destroy? {
      var item := s.threads[step.t].item;
      assert Places(s, item.sandbox) == One(Live(s, item.sandbox));
      SumUpdate(Carrying(item.sandbox), s.threads, step.t, Idle);
    }
  }

  lemma SlotsNext(s: State, step: Step)
    requires Enabled(s, step) && Inv(s)
    ensures SlotsHeld(Next(s, step))
  {
    hide Sum, Conserved, UsesCounted, PutsOpen;
    SumNext(s, step, Occupied);
  }

  /** A queued or carried sandbox is nowhere else. */
  lemma HeadIsUnique(s: State)
    requires Conserved(s) && s.items != []
    ensures forall i :: 1 <= i < |s.items| ==> s.items[i].sandbox != s.items[0].sandbox
    ensures forall t :: 0 <= t < |s.threads| ==> Weight(Carrying(s.items[0].sandbox), s.threads[t]) == 0
  {
    var sandbox := s.items[0].sandbox;
    assert Places(s, sandbox) == One(Live(s, sandbox));
    forall i | 1 <= i < |s.items| ensures s.items[i].sandbox != sandbox {
      if s.items[i].sandbox == sandbox {
        QueuedMember(s.items[1..], i - 1);
      }
    }
    forall t | 0 <= t < |s.threads| ensures Weight(Carrying(sandbox), s.threads[t]) == 0 {
      SumUpdate(Carrying(sandbox), s.threads, t, Idle);
    }
  }

  /** Only taking a sandbox from the queue changes how often it was lent. */
  lemma CountKept(s: State, step: Step, item: Item, extra: nat)
    requires Enabled(s, step) && ItemCounted(s, item, extra)
    requires step.Take? ==> item.sandbox != s.items[0].sandbox
    ensures ItemCounted(Next(s, step), item, extra)
  {
  }

  lemma UsesNext(s: State, step: Step)
    requires Enabled(s, step) && Inv(s)
    ensures UsesCounted(Next(s, step))
  {
    hide Sum, Places;
    var s' := Next(s, step);
    if step.Take? {
      HeadIsUnique(s);
      assert ItemCounted(s, s.items[0], 0);
    }
    hide Conserved, SlotsHeld, DrainSettled, PutsOpen;
    forall i | 0 <= i < |s'.items| ensures ItemCounted(s', s'.items[i], 0) && s'.items[i].uses < s'.maxUses {
      QueueCountKept(s, step, i);
    }
    forall t | 0 <= t < |s'.threads| ensures PhaseCounted(s', s'.threads[t]) {
      ThreadCountKept(s, step, t);
    }
  }

  lemma QueueCountKept(s: State, step: Step, i: nat)
    requires Enabled(s, step) && UsesCounted(s) && i < |Next(s, step).items|
    requires step.Take? ==> forall k :: 1 <= k < |s.items| ==> s.items[k].sandbox != s.items[0].sandbox
    ensures ItemCounted(Next(s, step), Next(s, step).items[i], 0) && Next(s, step).items[i].uses < s.maxUses
  {
    hide ItemCounted;
    var item := Next(s, step).items[i];
    if step.Put? && i == |s.items| {
      assert PhaseCounted(s, s.threads[step.t]);
    } else {
      var k := if (step.Take? || step.Drain?) && s.items != [] then i + 1 else i;
      assert item == s.items[k] && ItemCounted(s, s.items[k], 0);
    }
    CountKept(s, step, item, 0);
  }

  /** The item of a phase, where it has one. */
  lemma PhaseKept(s: State, step: Step, phase: Phase)
    requires Enabled(s, step) && PhaseCounted(s, phase)
    requires step.Take? ==> Weight(Carrying(s.items[0].sandbox), phase) == 0
    ensures PhaseCounted(Next(s, step), phase)
  {
    hide Next, ItemCounted;
    match phase
    case Holding(item) => CountKept(s, step, item, 1);
    case Sampled(item, _) => CountKept(s, step, item, 0);
    case Doomed(item, _) => CountKept(s, step, item, 0);
    case Putting(item, _) =>
      CountKept(s, step, item, 0);
      SettingsKept(s, step);
    case _ =>
  }

  lemma SettingsKept(s: State, step: Step)
    requires Enabled(s, step)
    ensures Next(s, step).size == s.size && Next(s, step).maxUses == s.maxUses && |Next(s, step).threads| == |s.threads|
  {
    hide Sum;
  }

  predicate Moves(step: Step, t: nat) {
    !step.Kill? && !step.Close? && !step.Drain? && !step.Discard? && step.t == t
  }

  lemma OthersKept(s: State, step: Step, t: nat)
    requires Enabled(s, step) && t < |s.threads| && !Moves(step, t)
    ensures t < |Next(s, step).threads| && Next(s, step).threads[t] == s.threads[t]
  {
    hide Sum;
  }

  /** The thread that a step moves. */
  lemma MovedCounted(s: State, step: Step, t: nat)
    requires Enabled(s, step) && t < |s.threads| && Moves(step, t) && PhaseCounted(s, s.threads[t]) && s.maxUses > 0
    requires s.items != [] ==> ItemCounted(s, s.items[0], 0)
    ensures t < |Next(s, step).threads| && PhaseCounted(Next(s, step), Next(s, step).threads[t])
  {
    hide Sum;
  }

  lemma ThreadCountKept(s: State, step: Step, t: nat)
    requires Enabled(s, step) && UsesCounted(s) && t < |s.threads| && s.maxUses > 0
    requires step.Take? ==> Weight(Carrying(s.items[0].sandbox), s.threads[t]) == 0
    ensures t < |Next(s, step).threads| && PhaseCounted(Next(s, step), Next(s, step).threads[t])
  {
    hide Next, ItemCounted, PhaseCounted, Weight;
    if Moves(step, t) {
      MovedCounted(s, step, t);
    } else {
      OthersKept(s, step, t);
      PhaseKept(s, step, s.threads[t]);
    }
  }

  lemma DrainNext(s: State, step: Step)
    requires Enabled(s, step) && Inv(s)
    ensures DrainSettled(Next(s, step))
  {
    hide Sum, Conserved, UsesCounted, SlotsHeld, PutsOpen;
    SumNext(s, step, Owed);
    SumNext(s, step, Waiting);
  }

  lemma PutsNext(s: State, step: Step)
    requires Enabled(s, step) && PutsOpen(s)
    ensures PutsOpen(Next(s, step))
  {
    hide Sum;
    var s' := Next(s, step);
    forall t | 0 <= t < |s'.threads| && (s'.threads[t].Replacing? || s'.threads[t].Putting?)
      ensures !s'.threads[t].closed
    {
      if !Moves(step, t) {
        OthersKept(s, step, t);
      }
    }
    if s'.closer.Drained? {
      forall i | 0 <= i < |s'.items| ensures s'.items[i].sandbox in s'.putSample {
        if step.Take? {
          assert s'.items[i] == s.items[i + 1];
        } else if i < |s.items| {
          assert s'.items[i] == s.items[i];
        }
      }
    }
  }

  lemma ReleasedNext(s: State, step: Step)
    requires Enabled(s, step) && Inv(s)
    ensures forall sandbox :: sandbox in Next(s, step).dead ==> sandbox < |Next(s, step).lent|
  {
    hide Sum, SlotsHeld, DrainSettled, PutsOpen;
    if step.Destroy? {
      assert PhaseCounted(s, s.threads[step.t]);
    } else if step.Discard? {
      assert Places(s, s.closer.sandbox) == One(Live(s, s.closer.sandbox));
    }
  }

  /** Every step of every thread keeps the invariant. */
  lemma InvNext(s: State, step: Step)
    requires Enabled(s, step) && Inv(s)
    ensures Inv(Next(s, step))
  {
    forall sandbox: Sandbox ensures Places(Next(s, step), sandbox) == One(Live(Next(s, step), sandbox)) {
      PlacesNext(s, step, sandbox);
    }
    SlotsNext(s, step);
    UsesNext(s, step);
    DrainNext(s, step);
    ReleasedNext(s, step);
    PutsNext(s, step);
    hide Sum, SlotsHeld, UsesCounted, DrainSettled, PutsOpen, Places;
  }

  lemma {:induction false} InitialInv(size: int, maxUses: int, threads: nat)
    requires size > 0 && maxUses > 0
    ensures Inv(Initial(size, maxUses, threads).value)
  {
    var s := Initial(size, maxUses, threads).value;
    forall sandbox: Sandbox ensures Places(s, sandbox) == One(Live(s, sandbox)) {
      SumOfIdle(Carrying(sandbox), s.threads);
      FreshQueued(size, sandbox);
    }
    SumOfIdle(Occupied, s.threads);
  }

  lemma {:induction false} FreshQueued(size: nat, sandbox: Sandbox)
    ensures Queued(Fresh(size), sandbox) == One(sandbox < size)
  {
    if size == 0 {
      assert Fresh(0) == [];
    } else {
      assert Fresh(size) == Fresh(size - 1) + [Item(size - 1, 0)];
      FreshQueued(size - 1, sandbox);
      QueuedSnoc(Fresh(size - 1), Item(size - 1, 0), sandbox);
    }
  }

  lemma {:induction false} InvRun(s: State, steps: seq<Step>)
    requires Inv(s)
    ensures Inv(Run(s, steps))
    decreases steps
  {
    if steps != [] {
      if Enabled(s, steps[0]) {
        InvNext(s, steps[0]);
      }
      InvRun(if Enabled(s, steps[0]) then Next(s, steps[0]) else s, steps[1..]);
    }
  }

  // ---------------------------------------------------------------- what holds in every run

  /** The state after any interleaving from a new pool. */
  ghost predicate Reachable(s: State) {
    exists size: int, maxUses: int, threads: nat, steps: seq<Step> ::
      size > 0 && maxUses > 0 && s == Run(Initial(size, maxUses, threads).value, steps)
  }

  lemma ReachableInv(s: State)
    requires Reachable(s)
    ensures Inv(s)
  {
    var size: int, maxUses: int, threads: nat, steps: seq<Step> :|
      size > 0 && maxUses > 0 && s == Run(Initial(size, maxUses, threads).value, steps);
    InitialInv(size, maxUses, threads);
    InvRun(Initial(size, maxUses, threads).value, steps);
  }

  /** Conservation: queued, borrowed and returning slots make up the pool while it is open and never
    * exceed it, so a return never finds the queue full; and no sandbox is in two places at once. */
  lemma PoolConservation(s: State, sandbox: Sandbox)
    requires Reachable(s)
    ensures |s.items| + Sum(Occupied, s.threads) + One(s.closer.Discarding?) <= s.size
    ensures !s.closed ==> |s.items| + Sum(Occupied, s.threads) == s.size
    ensures forall t :: 0 <= t < |s.threads| && s.threads[t].Putting? ==> |s.items| < s.size && Enabled(s, Put(t))
    ensures Places(s, sandbox) == One(Live(s, sandbox)) <= 1
  {
    ReachableInv(s);
    forall t | 0 <= t < |s.threads| && s.threads[t].Putting? ensures |s.items| < s.size && Enabled(s, Put(t)) {
      SumUpdate(Occupied, s.threads, t, Idle);
    }
  }

  /** No sandbox is ever lent more often than the bound. */
  lemma UseBound(s: State, sandbox: Sandbox)
    requires Reachable(s) && sandbox < |s.lent|
    ensures s.lent[sandbox] <= s.maxUses
  {
    ReachableInv(s);
  }

  /** Nobody is inside `acquire` and the drain is over. */
  ghost predicate Quiet(s: State) {
    s.closer.Drained? && forall t :: 0 <= t < |s.threads| ==> s.threads[t].Idle?
  }

  /** After the drain only sandboxes owed when it ended can be queued: no more of them than were owed,
    * each put by a return that had sampled the pool as open. Once everything is returned exactly the
    * queued ones live. */
  lemma AfterTheDrain(s: State)
    requires Reachable(s) && s.closer.Drained?
    ensures |s.items| <= s.owedAtDrain
    ensures forall i :: 0 <= i < |s.items| ==>
      s.items[i].sandbox in s.putSample && !s.putSample[s.items[i].sandbox]
    ensures s.owedAtDrain == 0 ==> s.items == []
    ensures Quiet(s) ==> |s.items| == s.owedAtDrain - s.takenLate && s.takenLate <= s.waitersAtDrain
    ensures Quiet(s) ==> forall sandbox :: 0 <= sandbox < |s.lent| ==>
      (sandbox !in s.released <==> exists i :: 0 <= i < |s.items| && s.items[i].sandbox == sandbox)
  {
    ReachableInv(s);
    if Quiet(s) {
      SumOfIdle(Owed, s.threads);
      SumOfIdle(Waiting, s.threads);
      forall sandbox | 0 <= sandbox < |s.lent|
        ensures sandbox !in s.released <==> exists i :: 0 <= i < |s.items| && s.items[i].sandbox == sandbox
      {
        SumOfIdle(Carrying(sandbox), s.threads);
        assert Places(s, sandbox) == One(Live(s, sandbox));
        if sandbox !in s.released {
          QueuedAbsent(s.items, sandbox);
        }
        if i :| 0 <= i < |s.items| && s.items[i].sandbox == sandbox {
          QueuedMember(s.items, i);
        }
      }
    }
  }

  ghost predicate AllDestroyed(s: State) {
    forall sandbox :: 0 <= sandbox < |s.lent| ==> sandbox in s.dead && sandbox in s.released
  }

  /** Closing destroys every sandbox ever created if no return was still owed when the drain ended,
    * and, when no borrower was waiting then either, only if. */
  lemma CloseDestroysEverything(s: State)
    requires Reachable(s) && Quiet(s)
    ensures AllDestroyed(s) <==> s.owedAtDrain == s.takenLate
    ensures s.owedAtDrain == 0 ==> AllDestroyed(s)
    ensures s.waitersAtDrain == 0 ==> (AllDestroyed(s) <==> s.owedAtDrain == 0)
  {
    ReachableInv(s);
    AfterTheDrain(s);
    if s.items == [] {
      assert AllDestroyed(s);
    } else {
      assert Places(s, s.items[0].sandbox) == One(Live(s, s.items[0].sandbox));
      QueuedMember(s.items, 0);
      assert !AllDestroyed(s);
    }
  }

  /** Once the pool is closed, no return comes to owe the queue a sandbox. */
  lemma NothingNewOwed(s: State, step: Step)
    requires Inv(s) && Enabled(s, step) && s.closed && Sum(Owed, s.threads) == 0
    requires s.closer.Drained? ==> s.owedAtDrain == 0
    ensures var s' := Next(s, step);
      s'.closed && Sum(Owed, s'.threads) == 0 && (s'.closer.Drained? ==> s'.owedAtDrain == 0)
  {
    hide Sum, Conserved, UsesCounted, SlotsHeld, PutsOpen;
    SumNext(s, step, Owed);
  }

  lemma {:induction false} NothingOwedToTheEnd(s: State, steps: seq<Step>)
    requires Inv(s) && s.closed && Sum(Owed, s.threads) == 0
    requires s.closer.Drained? ==> s.owedAtDrain == 0
    ensures Run(s, steps).closer.Drained? ==> Run(s, steps).owedAtDrain == 0
    decreases steps
  {
    hide Inv, Sum, Next;
    if steps != [] {
      if Enabled(s, steps[0]) {
        InvNext(s, steps[0]);
        NothingNewOwed(s, steps[0]);
        NothingOwedToTheEnd(Next(s, steps[0]), steps[1..]);
      } else {
        NothingOwedToTheEnd(s, steps[1..]);
      }
    }
  }

  lemma {:induction false} ReachableRun(s: State, steps: seq<Step>)
    requires Reachable(s)
    ensures Reachable(Run(s, steps))
    decreases steps
  {
    hide Reachable, Next;
    if steps != [] {
      if Enabled(s, steps[0]) {
        ReachableNext(s, steps[0]);
        ReachableRun(Next(s, steps[0]), steps[1..]);
      } else {
        ReachableRun(s, steps[1..]);
      }
    }
  }

  /** What a caller can check before closing: if no return is under way that sampled the pool as open,
    * then whatever happens after, once the drain is over and everything is returned, every sandbox
    * ever created is destroyed. */
  lemma CloseWithNothingOwed(s: State, steps: seq<Step>)
    requires Reachable(s) && Enabled(s, Close) && Sum(Owed, s.threads) == 0
    ensures var s' := Run(Next(s, Close), steps);
      Quiet(s') ==> AllDestroyed(s')
  {
    ReachableInv(s);
    InvNext(s, Close);
    ReachableNext(s, Close);
    var closing := Next(s, Close);
    assert closing.closed && closing.threads == s.threads && closing.closer == Draining;
    hide Inv, Sum, Next, Reachable, AllDestroyed;
    NothingOwedToTheEnd(closing, steps);
    ReachableRun(closing, steps);
    var s' := Run(closing, steps);
    if Quiet(s') {
      CloseDestroysEverything(s');
    }
  }

  lemma {:induction false} RunSnoc(s: State, steps: seq<Step>, last: Step)
    ensures Run(s, steps + [last])
         == if Enabled(Run(s, steps), last) then Next(Run(s, steps), last) else Run(s, steps)
    decreases steps
  {
    hide Next, Enabled;
    if steps == [] {
      assert steps + [last] == [last] && [last][1..] == [];
    } else {
      assert (steps + [last])[0] == steps[0] && (steps + [last])[1..] == steps[1..] + [last];
      RunSnoc(if Enabled(s, steps[0]) then Next(s, steps[0]) else s, steps[1..], last);
    }
  }

  lemma ReachableNext(s: State, step: Step)
    requires Reachable(s) && Enabled(s, step)
    ensures Reachable(Next(s, step))
  {
    hide Next, Enabled;
    var size: int, maxUses: int, threads: nat, steps: seq<Step> :|
      size > 0 && maxUses > 0 && s == Run(Initial(size, maxUses, threads).value, steps);
    RunSnoc(Initial(size, maxUses, threads).value, steps, step);
  }

  /** A run in which a sandbox outlives the closed pool: its return sampled the flag before `close`
    * set it and put the sandbox back after the drain had seen an empty queue. */
  lemma ReturnCanOutliveClose() returns (s: State)
    ensures Reachable(s) && Quiet(s) && s.items == [Item(0, 1)] && !AllDestroyed(s)
  {
    hide Run, Sum;
    var s0 := LoneBorrower();
    ReachableNext(s0, Close);
    var s1 := Next(s0, Close);
    ReachableNext(s1, Drain);
    var s2 := Next(s1, Drain);
    ReachableNext(s2, Decide(0));
    var s3 := Next(s2, Decide(0));
    ReachableNext(s3, Put(0));
    s := Next(s3, Put(0));
    assert s.threads[0] == Idle && |s.threads| == 1;
    assert 0 !in s.released && 0 < |s.lent|;
  }

  /** A pool of one whose only borrower has sampled the flag and not yet acted on it. */
  lemma LoneBorrower() returns (s: State)
    ensures Reachable(s) && !s.closed && s.items == [] && s.threads == [Sampled(Item(0, 1), false)]
    ensures s.size == 1 && s.maxUses == 2 && s.lent == [1] && s.dead == {} && s.released == {}
  {
    var s0 := Initial(1, 2, 1).value;
    assert s0 == Run(Initial(1, 2, 1).value, []);
    hide Run, Sum;
    assert Reachable(s0);
    ReachableNext(s0, Admit(0));
    var s1 := Next(s0, Admit(0));
    ReachableNext(s1, Take(0));
    var s2 := Next(s1, Take(0));
    ReachableNext(s2, Return(0));
    s := Next(s2, Return(0));
    assert s0.items == [Item(0, 0)] && s2.items == [];
  }

  // ---------------------------------------------------------------- what a return does

  /** A step that cannot be taken when its turn comes is left out. */
  function Attempt(s: State, step: Step): State {
    if Enabled(s, step) then Next(s, step) else s
  }

  lemma RunCons(s: State, step: Step, rest: seq<Step>)
    ensures Run(s, [step] + rest) == Run(Attempt(s, step), rest)
  {
    assert ([step] + rest)[1..] == rest;
  }

  /** A borrower that returns without interference, to the end of its `finally` block. */
  function Returned(s: State, t: nat): State {
    Run(s, [Return(t), Decide(t), Destroy(t), Create(t), Put(t)])
  }

  lemma ReturnedInSteps(s: State, t: nat)
    ensures Returned(s, t)
         == Attempt(Attempt(Attempt(Attempt(Attempt(s, Return(t)), Decide(t)), Destroy(t)), Create(t)), Put(t))
  {
    hide Attempt;
    var s1 := Attempt(s, Return(t));
    var s2 := Attempt(s1, Decide(t));
    var s3 := Attempt(s2, Destroy(t));
    RunCons(s, Return(t), [Decide(t), Destroy(t), Create(t), Put(t)]);
    RunCons(s1, Decide(t), [Destroy(t), Create(t), Put(t)]);
    RunCons(s2, Destroy(t), [Create(t), Put(t)]);
    RunCons(s3, Create(t), [Put(t)]);
    RunCons(Attempt(s3, Create(t)), Put(t), []);
    assert [Return(t)] + [Decide(t), Destroy(t), Create(t), Put(t)]
        == [Return(t), Decide(t), Destroy(t), Create(t), Put(t)];
    assert [Decide(t)] + [Destroy(t), Create(t), Put(t)] == [Decide(t), Destroy(t), Create(t), Put(t)];
    assert [Destroy(t)] + [Create(t), Put(t)] == [Destroy(t), Create(t), Put(t)];
    assert [Create(t)] + [Put(t)] == [Create(t), Put(t)] && [Put(t)] + [] == [Put(t)];
  }

  /** What an uninterrupted return does: if the pool is open, the sandbox alive and its uses not exhausted,
    * the same sandbox is queued with one use more, and nothing is destroyed or made; otherwise it is
    * destroyed, and replaced by a new one at the end of the queue exactly if the pool is open. */
  lemma ReturnExactly(s: State, t: nat)
    requires Inv(s) && t < |s.threads| && s.threads[t].Holding?
    ensures var item := s.threads[t].item;
      var s' := Returned(s, t);
      var healthy := !s.closed && item.sandbox !in s.dead && item.uses + 1 < s.maxUses;
      && |s'.threads| == |s.threads| && s'.threads[t].Idle?
      && s'.items == s.items + (if healthy then [Item(item.sandbox, item.uses + 1)]
                                else if s.closed then [] else [Item(|s.lent|, 0)])
      && s'.dead == s.dead + (if healthy then {} else {item.sandbox})
      && s'.released == s.released + (if healthy then {} else {item.sandbox})
      && s'.lent == s.lent + (if healthy || s.closed then [] else [0])
  {
    RoomToReturn(s, t);
    ReturnedInSteps(s, t);
    hide Inv, Sum, Run, Returned;
  }

  /** A sandbox that is destroyed while it is borrowed is not lent again: an open pool queues a new one. */
  lemma DestroyedIsReplaced(s: State, t: nat)
    requires Inv(s) && t < |s.threads| && s.threads[t].Holding? && !s.closed
    ensures var sandbox := s.threads[t].item.sandbox;
      && Enabled(s, Kill(sandbox))
      && Returned(Next(s, Kill(sandbox)), t).items == s.items + [Item(|s.lent|, 0)]
      && sandbox in Returned(Next(s, Kill(sandbox)), t).released
  {
    var sandbox := s.threads[t].item.sandbox;
    assert ItemCounted(s, s.threads[t].item, 1);
    InvNext(s, Kill(sandbox));
    ReturnExactly(Next(s, Kill(sandbox)), t);
    hide Inv, Returned;
  }

  /** The queue is bounded and first in, first out: a step takes the head, appends one within the bound, or
    * leaves it alone, and whoever takes the head holds it. */
  lemma QueueIsFifo(s: State, step: Step)
    requires Enabled(s, step)
    ensures var s' := Next(s, step);
      match step
      case Take(t) => s.items == [s'.threads[t].item] + s'.items
      case Put(t) => s'.items == s.items + [s.threads[t].item] && |s'.items| <= s.size
      case Drain => if s'.closer.Discarding? then s.items != [] && s'.closer.sandbox == s.items[0].sandbox
                      && s'.items == s.items[1..] else s'.items == s.items == []
      case _ => s'.items == s.items
  {
    hide Sum;
  }

  lemma RoomToReturn(s: State, t: nat)
    requires Inv(s) && t < |s.threads| && s.threads[t].Holding?
    ensures |s.items| < s.size
  {
    SumUpdate(Occupied, s.threads, t, Idle);
  }
}
