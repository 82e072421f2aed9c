/** Any number of concurrent `destroy` calls on one Docker runtime: the fields are taken and cleared
  * under the lock, the removals happen outside it, in any interleaving and with any failures. */
module DestroyRace {
  import opened Strings
  import opened DockerLedger
  import opened DockerRemovals
  import opened DockerFleet

  /** One call of `destroy`: before the lock, with some of the resources it took still to remove, done. */
  datatype Thread = Waiting | Removing(left: seq<Id>) | Finished

  /** `missed` collects what was tried in vain and what was never tried after an exception. */
  datatype State = State(fields: seq<Id>, threads: seq<Thread>, released: seq<Id>, missed: seq<Id>)

  datatype Turn = Turn(caller: nat, removal: Removal)

  function Start(r: Runtime, callers: nat): State {
    State(Order(r), seq(callers, (i: nat) => Waiting), [], [])
  }

  /** The next atomic step of one call. */
  function Next(s: State, turn: Turn): State {
    var i := turn.caller;
    if i >= |s.threads| then s
    else
      match s.threads[i]
      case Waiting => s.(fields := [], threads := s.threads[i := Removing(s.fields)])
      case Removing(left) =>
        if left == [] then s.(threads := s.threads[i := Finished])
        else
          (match turn.removal
           case Works => s.(threads := s.threads[i := Removing(left[1..])], released := s.released + [left[0]])
           case Swallowed => s.(threads := s.threads[i := Removing(left[1..])], missed := s.missed + [left[0]])
           case CutsShort => s.(threads := s.threads[i := Finished], missed := s.missed + left))
      case Finished => s
  }

  function Run(s: State, schedule: seq<Turn>): State
    decreases schedule
  {
    if schedule == [] then s else Run(Next(s, schedule[0]), schedule[1..])
  }

  /** How often a call that has begun still has to remove a resource. */
  function Left(t: Thread, id: Id): nat {
    if t.Removing? then Count(t.left, id) else 0
  }

  function Pending(threads: seq<Thread>, id: Id): nat {
    if threads == [] then 0 else Left(threads[0], id) + Pending(threads[1..], id)
  }

  lemma {:induction false} PendingUpdate(threads: seq<Thread>, i: nat, t: Thread, id: Id)
    requires i < |threads|
    ensures Pending(threads[i := t], id) + Left(threads[i], id) == Pending(threads, id) + Left(t, id)
  {
    if i > 0 {
      PendingUpdate(threads[1..], i - 1, t, id);
      assert threads[i := t][1..] == threads[1..][i - 1 := t];
    } else {
      assert threads[i := t][1..] == threads[1..];
    }
  }

  lemma {:induction false} NothingPending(threads: seq<Thread>, id: Id)
    requires forall i :: 0 <= i < |threads| ==> !threads[i].Removing?
    ensures Pending(threads, id) == 0
  {
    if threads != [] {
      NothingPending(threads[1..], id);
    }
  }

  /** In how many places a resource is: in the fields, in the hands of one call, released, missed. */
  function Places(s: State, id: Id): nat {
    Count(s.fields, id) + Pending(s.threads, id) + Count(s.released, id) + Count(s.missed, id)
  }

  /** Once one call has begun, the fields are clear. */
  ghost predicate Taken(s: State) {
    (exists i :: 0 <= i < |s.threads| && !s.threads[i].Waiting?) ==> s.fields == []
  }

  lemma NextConserves(s: State, turn: Turn, id: Id)
    requires Taken(s)
    ensures Taken(Next(s, turn)) && Places(Next(s, turn), id) == Places(s, id) && |Next(s, turn).threads| == |s.threads|
  {
    var i := turn.caller;
    if i < |s.threads| {
      var s' := Next(s, turn);
      PendingUpdate(s.threads, i, s'.threads[i], id);
      assert s'.threads == s.threads[i := s'.threads[i]];
      if s.threads[i].Removing? && s.threads[i].left != [] {
        var left := s.threads[i].left;
        CountConcat(s.released, [left[0]], id);
        CountConcat(s.missed, [left[0]], id);
        CountConcat(s.missed, left, id);
        assert [left[0]][1..] == [];
      }
      if !s.threads[i].Waiting? {
        assert s.fields == [];
      }
    }
  }

  lemma {:induction false} RunConserves(s: State, schedule: seq<Turn>, id: Id)
    requires Taken(s)
    ensures var s' := Run(s, schedule);
      Taken(s') && Places(s', id) == Places(s, id) && |s'.threads| == |s.threads|
    decreases schedule
  {
    hide Next, Taken, Places;
    if schedule != [] {
      NextConserves(s, schedule[0], id);
      RunConserves(Next(s, schedule[0]), schedule[1..], id);
    }
  }

  /** No removal of the schedule fails. */
  ghost predicate AllWork(schedule: seq<Turn>) {
    forall k :: 0 <= k < |schedule| ==> schedule[k].removal == Works
  }

  lemma {:induction false} NothingMissed(s: State, schedule: seq<Turn>)
    requires AllWork(schedule)
    ensures Run(s, schedule).missed == s.missed
    decreases schedule
  {
    if schedule != [] {
      NothingMissed(Next(s, schedule[0]), schedule[1..]);
    }
  }

  /** For every interleaving of any number of calls, every way their removals end and every resource:
    * it is never released twice, nor if the fields did not hold it. Once all calls are done (and there
    * was one), what the fields held was released or missed, once in all, and released exactly once if
    * no removal failed. */
  lemma ReleasedExactlyOnce(r: Runtime, callers: nat, schedule: seq<Turn>, id: Id)
    requires Separate(r)
    ensures var s := Run(Start(r, callers), schedule);
      var once := if id in Held(r) then 1 else 0;
      && Count(s.released, id) + Count(s.missed, id) <= once
      && (AllWork(schedule) ==> s.missed == [])
      && (callers > 0 && (forall i :: 0 <= i < |s.threads| ==> s.threads[i] == Finished) ==>
            Count(s.released, id) + Count(s.missed, id) == once)
  {
    var start := Start(r, callers);
    hide Order, Held, Separate;
    NothingPending(start.threads, id);
    RunConserves(start, schedule, id);
    OrderIsHeld(r, id);
    var s := Run(start, schedule);
    if AllWork(schedule) {
      NothingMissed(start, schedule);
    }
    hide Run;
    if callers > 0 && forall i :: 0 <= i < |s.threads| ==> s.threads[i] == Finished {
      NothingPending(s.threads, id);
      assert !s.threads[0].Waiting?;
    }
  }

  /** In particular for every runtime of every reachable fleet. */
  lemma ReachableReleasedExactlyOnce(f: Fleet, ops: seq<Op>, i: nat, callers: nat, schedule: seq<Turn>, id: Id)
    requires Balanced(f) && i < |DockerFleet.Run(f, ops).runtimes| && callers > 0 && AllWork(schedule)
    ensures var r := DockerFleet.Run(f, ops).runtimes[i];
      var s := Run(Start(r, callers), schedule);
      (forall k :: 0 <= k < |s.threads| ==> s.threads[k] == Finished) ==>
        Count(s.released, id) == if id in Held(r) then 1 else 0
  {
    hide Separate, Held;
    RunBalanced(f, ops);
    ReleasedExactlyOnce(DockerFleet.Run(f, ops).runtimes[i], callers, schedule, id);
  }

  // ---------------------------------------------------------------- one call on its own

  function Turns(removals: seq<Removal>): seq<Turn> {
    if removals == [] then [] else [Turn(0, removals[0])] + Turns(removals[1..])
  }

  lemma {:induction false} RunConcat(s: State, first: seq<Turn>, second: seq<Turn>)
    ensures Run(s, first + second) == Run(Run(s, first), second)
    decreases first
  {
    if first == [] {
      assert first + second == second;
    } else {
      assert (first + second)[1..] == first[1..] + second;
      RunConcat(Next(s, first[0]), first[1..], second);
    }
  }

  lemma OneTurn(s: State, removal: Removal, others: seq<Removal>)
    ensures Run(s, Turns([removal] + others)) == Run(Next(s, Turn(0, removal)), Turns(others))
  {
    assert ([removal] + others)[1..] == others;
    assert Turns([removal] + others)[1..] == Turns(others);
  }

  /** The first of the removals that are left. */
  lemma FirstFreed(left: seq<Id>, removal: Removal, others: seq<Removal>)
    requires left != []
    ensures Freed(left, [removal] + others) == (if removal == Works then [left[0]] else []) + Freed(left[1..], others)
  {
    assert ([removal] + others)[1..] == others;
  }

  lemma {:induction false} RemovingReleases(s: State, faults: seq<Fault>, left: seq<Id>, parts: seq<Part>)
    requires s.threads == [Removing(left)] && |left| == |parts|
    ensures var removals := PlayedAll(faults, parts, false).0;
      var s' := Run(s, Turns(removals));
      && s'.released == s.released + Freed(left, removals) && s'.fields == s.fields
      && s'.threads == [if Cut(removals) then Finished else Removing([])]
    decreases left
  {
    if left != [] {
      var (removal, rest) := Played(faults, parts[0], false);
      var others := if removal == CutsShort then [] else PlayedAll(rest, parts[1..], false).0;
      assert PlayedAll(faults, parts, false).0 == [removal] + others;
      var s1 := Next(s, Turn(0, removal));
      OneTurn(s, removal, others);
      FirstFreed(left, removal, others);
      hide PlayedAll, Played;
      if removal == CutsShort {
        assert Freed(left[1..], others) == [];
        assert Turns(others) == [];
      } else {
        hide Freed, Run;
        RemovingReleases(s1, rest, left[1..], parts[1..]);
      }
    }
  }

  /** A single call takes the fields, removes, and is done. */
  lemma AloneRuns(r: Runtime, faults: seq<Fault>)
    ensures var removals := PlayedAll(faults, Parts(r), false).0;
      var s := Run(Start(r, 1), [Turn(0, Works)] + Turns(removals) + [Turn(0, Works)]);
      s.threads == [Finished] && s.fields == [] && s.released == Freed(Order(r), removals)
  {
    assert |Order(r)| == |Parts(r)|;
    hide Order, Parts, PlayedAll, Freed, Turns;
    var removals := PlayedAll(faults, Parts(r), false).0;
    var taken := State([], [Removing(Order(r))], [], []);
    assert Next(Start(r, 1), Turn(0, Works)) == taken;
    RunConcat(Start(r, 1), [Turn(0, Works)] + Turns(removals), [Turn(0, Works)]);
    RunConcat(Start(r, 1), [Turn(0, Works)], Turns(removals));
    RemovingReleases(taken, faults, Order(r), Parts(r));
    assert [Turn(0, Works)][1..] == [];
  }

  /** `destroy` of the ledger is one call of this race that runs alone, its removals ending as the host
    * makes them end: it removes what that call releases, and is cut short when that call is. */
  lemma DestroyIsOneCall(d: Daemon, r: Runtime)
    ensures var removals := PlayedAll(d.removals, Parts(r), false).0;
      var s := Run(Start(r, 1), [Turn(0, Works)] + Turns(removals) + [Turn(0, Works)]);
      var (d', r', cut) := Destroy(d, r);
      && s.threads == [Finished] && s.fields == Order(r')
      && d'.live == d.live - (set id | id in s.released) && (cut <==> CutsShort in removals)
  {
    assert Order(EMPTY) == [];
    hide Order, Parts, PlayedAll, Freed, TearDown, Run, Turns;
    AloneRuns(r, d.removals);
    TearDownClears(d, r, false);
  }
}
