/** Whole runs of the Docker runtime: any sequence of create, fork and destroy over any number of
  * runtimes, with any call failing. */
module DockerFleet {
  import opened Strings
  import opened DockerLedger

  /** `unowned` collects what no runtime holds: what others made, and what operations lost. */
  datatype Fleet = Fleet(daemon: Daemon, runtimes: seq<Runtime>, unowned: set<Id>)

  datatype Op = Open | DoCreate(index: nat, config: Config) | DoFork(index: nat, config: Config) | DoDestroy(index: nat)

  /** What one operation leaves without an owner. */
  function Loses(f: Fleet, op: Op): set<Id> {
    match op
    case Open => {}
    case DoDestroy(_) => {}
    case DoCreate(i, c) => if i < |f.runtimes| then CreateLoses(f.daemon, f.runtimes[i], c) else {}
    case DoFork(i, c) =>
      if i < |f.runtimes|
      then
        var (d, child, outcome) := Fork(f.daemon, f.runtimes[i], c);
        if outcome == Escaped then d.live - f.daemon.live else {}
      else {}
  }

  function Step(f: Fleet, op: Op): Fleet {
    var unowned := f.unowned + Loses(f, op);
    match op
    case Open => f.(runtimes := f.runtimes + [EMPTY])
    case DoCreate(i, c) =>
      if i < |f.runtimes| then
        var (d, r, _) := Create(f.daemon, f.runtimes[i], c);
        Fleet(d, f.runtimes[i := r], unowned)
      else f
    case DoFork(i, c) =>
      if i < |f.runtimes| then
        var (d, child, _) := Fork(f.daemon, f.runtimes[i], c);
        Fleet(d, if child.Some? then f.runtimes + [child.value] else f.runtimes, unowned)
      else f
    case DoDestroy(i) =>
      if i < |f.runtimes| then
        var (d, r, _) := Destroy(f.daemon, f.runtimes[i]);
        Fleet(d, f.runtimes[i := r], unowned)
      else f
  }

  /** A fleet does what its runtimes do: each operation is that of the named runtime on the common daemon,
    * and no other runtime changes. */
  lemma StepIsTheOperation(f: Fleet, i: nat, c: Config)
    ensures Step(f, Open) == f.(runtimes := f.runtimes + [EMPTY])
    ensures i < |f.runtimes| ==>
      && Step(f, DoCreate(i, c)).daemon == Create(f.daemon, f.runtimes[i], c).0
      && Step(f, DoCreate(i, c)).runtimes == f.runtimes[i := Create(f.daemon, f.runtimes[i], c).1]
      && Step(f, DoDestroy(i)).daemon == Destroy(f.daemon, f.runtimes[i]).0
      && Step(f, DoDestroy(i)).runtimes == f.runtimes[i := EMPTY]
      && Step(f, DoFork(i, c)).daemon == Fork(f.daemon, f.runtimes[i], c).0
      && Step(f, DoFork(i, c)).runtimes[..|f.runtimes|] == f.runtimes
      && Step(f, DoFork(i, c)).runtimes[|f.runtimes|..] ==
           (match Fork(f.daemon, f.runtimes[i], c).1 case None => [] case Some(child) => [child])
  {
    hide Create, Fork, Loses;
  }

  function Run(f: Fleet, ops: seq<Op>): Fleet
    decreases ops
  {
    if ops == [] then f else Run(Step(f, ops[0]), ops[1..])
  }

  /** A run takes its operations one after the other. */
  lemma {:induction false} RunSnoc(f: Fleet, ops: seq<Op>, op: Op)
    ensures Run(f, []) == f && Run(f, ops + [op]) == Step(Run(f, ops), op)
    decreases ops
  {
    hide Step;
    if ops == [] {
      assert [] + [op] == [op] && [op][1..] == [];
      assert Run(f, [op]) == Run(Step(f, op), []);
    } else {
      assert (ops + [op])[1..] == ops[1..] + [op];
      RunSnoc(Step(f, ops[0]), ops[1..], op);
    }
  }

  /** What the fields of all runtimes hold. */
  function AllHeld(runtimes: seq<Runtime>): set<Id> {
    set i, id | 0 <= i < |runtimes| && id in Held(runtimes[i]) :: id
  }

  /** No two runtimes hold the same resource. */
  ghost predicate Apart(runtimes: seq<Runtime>) {
    forall i, j :: 0 <= i < j < |runtimes| ==> Held(runtimes[i]) !! Held(runtimes[j])
  }

  /** Live is exactly what some runtime holds and what nobody owns, without overlap. */
  ghost predicate Balanced(f: Fleet) {
    && Good(f.daemon) && Apart(f.runtimes)
    && f.unowned !! AllHeld(f.runtimes) && f.daemon.live == f.unowned + AllHeld(f.runtimes)
    && (forall i :: 0 <= i < |f.runtimes| ==> Separate(f.runtimes[i]))
    && (forall i :: 0 <= i < |f.runtimes| && f.runtimes[i].container.None? ==> Vacant(f.runtimes[i]))
  }

  lemma HeldIn(runtimes: seq<Runtime>, i: nat)
    requires i < |runtimes|
    ensures Held(runtimes[i]) <= AllHeld(runtimes)
  {
  }

  lemma ReplaceOne(runtimes: seq<Runtime>, i: nat, r: Runtime)
    requires i < |runtimes| && Apart(runtimes) && Held(r) !! (AllHeld(runtimes) - Held(runtimes[i]))
    ensures Apart(runtimes[i := r])
    ensures AllHeld(runtimes[i := r]) == (AllHeld(runtimes) - Held(runtimes[i])) + Held(r)
  {
    hide Held;
    var after := runtimes[i := r];
    assert after[i] == r;
    forall j | 0 <= j < |runtimes| && j != i ensures Held(runtimes[j]) <= AllHeld(runtimes) - Held(runtimes[i]) {
    }
    forall id | id in (AllHeld(runtimes) - Held(runtimes[i])) + Held(r) ensures id in AllHeld(after) {
      if id !in Held(r) {
        var j :| 0 <= j < |runtimes| && id in Held(runtimes[j]);
        assert after[j] == runtimes[j];
      }
    }
  }

  lemma AppendOne(runtimes: seq<Runtime>, r: Runtime)
    requires Apart(runtimes) && Held(r) !! AllHeld(runtimes)
    ensures Apart(runtimes + [r]) && AllHeld(runtimes + [r]) == AllHeld(runtimes) + Held(r)
  {
    hide Held;
    var after := runtimes + [r];
    forall j | 0 <= j < |runtimes| ensures Held(runtimes[j]) <= AllHeld(runtimes) {
    }
    forall id | id in AllHeld(runtimes) + Held(r) ensures id in AllHeld(after) {
      if id in AllHeld(runtimes) {
        var j :| 0 <= j < |runtimes| && id in Held(runtimes[j]);
        assert after[j] == runtimes[j];
      } else {
        assert after[|runtimes|] == r;
      }
    }
  }

  lemma CreateBalanced(f: Fleet, i: nat, c: Config)
    requires Balanced(f) && i < |f.runtimes|
    ensures Balanced(Step(f, DoCreate(i, c)))
  {
    hide Create, CreateLoses, RemovalsWork, Held, Separate;
    var r := f.runtimes[i];
    HeldIn(f.runtimes, i);
    CreateLosesExactly(f.daemon, r, c);
    var (d, r', _) := Create(f.daemon, r, c);
    ReplaceOne(f.runtimes, i, r');
  }

  lemma ForkBalanced(f: Fleet, i: nat, c: Config)
    requires Balanced(f) && i < |f.runtimes|
    ensures Balanced(Step(f, DoFork(i, c)))
  {
    hide Fork, RemovalsWork, Held, Separate;
    ForkKeepsLedger(f.daemon, f.runtimes[i], c);
    var child := Fork(f.daemon, f.runtimes[i], c).1;
    if child.Some? {
      AppendOne(f.runtimes, child.value);
    }
  }

  lemma NothingHeld()
    ensures Held(EMPTY) == {} && Vacant(EMPTY) && Separate(EMPTY)
  {
  }

  lemma DestroyBalanced(f: Fleet, i: nat)
    requires Balanced(f) && i < |f.runtimes|
    ensures Balanced(Step(f, DoDestroy(i)))
  {
    hide TearDown, RemovalsWork, Held, Vacant, Separate, AllHeld, Apart;
    HeldIn(f.runtimes, i);
    TearDownReleasesHeld(f.daemon, f.runtimes[i], false);
    NothingHeld();
    ReplaceOne(f.runtimes, i, EMPTY);
  }

  lemma StepBalanced(f: Fleet, op: Op)
    requires Balanced(f)
    ensures Balanced(Step(f, op))
  {
    match op
    case Open =>
      assert Held(EMPTY) == {};
      AppendOne(f.runtimes, EMPTY);
    case DoCreate(i, c) => if i < |f.runtimes| { CreateBalanced(f, i, c); }
    case DoFork(i, c) => if i < |f.runtimes| { ForkBalanced(f, i, c); }
    case DoDestroy(i) => if i < |f.runtimes| { DestroyBalanced(f, i); }
  }

  /** In every reachable state the live resources are exactly those that some runtime's fields hold
    * and those that nobody owns: others' at the start, and what operations lost since. */
  lemma {:induction false} RunBalanced(f: Fleet, ops: seq<Op>)
    requires Balanced(f)
    ensures Balanced(Run(f, ops))
    decreases ops
  {
    hide Step, Balanced;
    if ops != [] {
      StepBalanced(f, ops[0]);
      RunBalanced(Step(f, ops[0]), ops[1..]);
    }
  }

  /** `create` refuses, or does not get a directory, or opens the directory up and the runtime held
    * nothing before. */
  predicate CreateAccounts(calls: seq<Fault>, r: Runtime, c: Config) {
    || r.container.Some? || !c.imageAllowed || First(calls) != Fine
    || (&& First(Rest(calls)) == Fine && (c.nestedWorkdir ==> First(Rest(Rest(calls))) == Fine)
        && Held(r) == {})
  }

  /** Exactly then `create` accounts for everything: what is live is what was live and not held, and
    * what the fields hold now. */
  lemma CreateIsCarefulExactly(d: Daemon, r: Runtime, c: Config)
    requires Good(d) && Held(r) <= d.live && (r.container.None? ==> Vacant(r))
    ensures var (d', r', _) := Create(d, r, c);
      d'.live == (d.live - Held(r)) + Held(r') <==> CreateAccounts(d.calls, r, c)
  {
    CreateLosesExactly(d, r, c);
    CreateLosesNothingExactly(d, r, c);
    hide Create, CreateAccounts, Held;
    var d' := Create(d, r, c).0;
    assert CreateLoses(d, r, c) <= d'.live;
  }

  lemma CreateLosesNothingExactly(d: Daemon, r: Runtime, c: Config)
    requires r.container.None? ==> Vacant(r)
    ensures CreateLoses(d, r, c) == {} <==> CreateAccounts(d.calls, r, c)
  {
    if r.container.None? {
      assert Held(r) == One(r.workspace) + One(r.ownsImage);
    }
    assert d.next in {d.next};
  }

  /** `fork` leaves something without an owner if and only if its parent is alive, the copy and the
    * image are made, and an error then passes the handlers of the child's boot. */
  lemma ForkIsCarefulExactly(f: Fleet, i: nat, c: Config)
    requires Balanced(f) && i < |f.runtimes|
    ensures Loses(f, DoFork(i, c)) == {} <==> !ForkLoses(f.daemon.calls, f.runtimes[i], c)
  {
    hide Fork, ForkLoses;
    ForkKeepsLedger(f.daemon, f.runtimes[i], c);
    ForkLosesExactly(f.daemon, f.runtimes[i], c);
    var (d, child, outcome) := Fork(f.daemon, f.runtimes[i], c);
    if outcome == Escaped {
      assert d.live == f.daemon.live + (d.live - f.daemon.live);
    }
  }

  /** What a caller, the configuration and the calls to come must be like for an operation to lose
    * nothing. */
  predicate Harmless(f: Fleet, op: Op) {
    match op
    case Open => true
    case DoDestroy(_) => true
    case DoCreate(i, c) => i < |f.runtimes| ==> CreateAccounts(f.daemon.calls, f.runtimes[i], c)
    case DoFork(i, c) => i < |f.runtimes| ==> !ForkLoses(f.daemon.calls, f.runtimes[i], c)
  }

  lemma HarmlessExactly(f: Fleet, op: Op)
    requires Balanced(f)
    ensures Loses(f, op) == {} <==> Harmless(f, op)
  {
    hide Create, Fork, ForkLoses, CreateLoses, CreateAccounts, RemovalsWork;
    match op
    case DoCreate(i, c) =>
      if i < |f.runtimes| {
        HeldIn(f.runtimes, i);
        CreateLosesNothingExactly(f.daemon, f.runtimes[i], c);
      }
    case DoFork(i, c) =>
      if i < |f.runtimes| {
        ForkIsCarefulExactly(f, i, c);
      }
    case _ =>
  }

  /** Every operation of the run is harmless when its turn comes. */
  ghost predicate Careful(f: Fleet, ops: seq<Op>)
    decreases ops
  {
    ops == [] || (Harmless(f, ops[0]) && Careful(Step(f, ops[0]), ops[1..]))
  }

  lemma {:induction false} CarefulKeepsUnowned(f: Fleet, ops: seq<Op>)
    requires Balanced(f) && Careful(f, ops)
    ensures Run(f, ops).unowned == f.unowned
    decreases ops
  {
    hide Balanced, Harmless, Loses;
    if ops != [] {
      HarmlessExactly(f, ops[0]);
      StepBalanced(f, ops[0]);
      StepUnowned(f, ops[0]);
      CarefulKeepsUnowned(Step(f, ops[0]), ops[1..]);
    }
  }

  lemma StepUnowned(f: Fleet, op: Op)
    ensures Loses(f, op) == {} ==> Step(f, op).unowned == f.unowned
  {
  }

  /** After a careful run live is exactly what was nobody's before and what the fields hold; once
    * every runtime is destroyed, nothing is left of the whole run. */
  lemma CarefulRunLeavesNothing(f: Fleet, ops: seq<Op>)
    requires Balanced(f) && Careful(f, ops)
    ensures var f' := Run(f, ops);
      && f'.daemon.live == f.unowned + AllHeld(f'.runtimes)
      && ((forall i :: 0 <= i < |f'.runtimes| ==> f'.runtimes[i] == EMPTY) ==> f'.daemon.live == f.unowned)
  {
    RunBalanced(f, ops);
    CarefulKeepsUnowned(f, ops);
  }

  const ALLOWLIST := Config(true, false, true, true, false, false, true)

  /** The losing case is reachable: the proxy does not start, RuntimeNotAvailableError passes the
    * handlers of `_boot` and leaves the workspace in its field; a second `create` on which nothing
    * fails puts another workspace in its place. */
  lemma RetryLosesWorkspace()
    ensures var d := Daemon({}, 0, [Fine, Fine, Fine, Fine, Fine, Fine, Docker], []);
      var (d1, r1, first) := Create(d, EMPTY, ALLOWLIST);
      var (d2, r2, second) := Create(d1, r1, ALLOWLIST);
      && first == Escaped && r1 == Runtime(None, Some(0), Some(IDLE), None) && d1.live == {0}
      && 0 in d2.live && 0 !in Held(r2)
  {
  }

  /** `create` makes the directory, cannot open it up, and nobody owns it. */
  lemma CreateLosesDirectory()
    ensures var (d, r, outcome) := Create(Daemon({}, 0, [Fine, Os], []), EMPTY, ALLOWLIST);
      outcome == Escaped && r == EMPTY && d.live == {0}
  {
  }

  /** A fork copies its parent's workspace; then the proxy cannot be made, RuntimeNotAvailableError
    * passes the handlers of the child's boot, and nobody owns the copy. */
  lemma ForkLosesCopy()
    ensures var parent := Runtime(Some(0), Some(1), None, None);
      var d := Daemon({0, 1}, 2, [Fine, Fine, Fine, Fine, Fine, Fine, Docker], []);
      var (d', child, outcome) := Fork(d, parent, ALLOWLIST);
      outcome == Escaped && child == None && d'.live == {0, 1, 2}
  {
  }

  /** `destroy` lets OSError, and any DockerException that is no APIError, pass from the removal of the
    * container: then it has cleared the fields and removed nothing. `_cleanup_failed_create`, which
    * catches DockerException, goes on after the latter. */
  lemma DestroyCutShort(d: Daemon, r: Runtime)
    requires r.container.Some? && First(d.removals) in {Docker, Os}
    ensures Destroy(d, r) == (d.(removals := Rest(d.removals)), EMPTY, true)
    ensures First(d.removals) == Docker && r.workspace.Some? && First(Rest(d.removals)) == Fine ==>
              r.workspace.value !in TearDown(d, r, true).0.live
  {
    if First(d.removals) == Docker && r.workspace.Some? && First(Rest(d.removals)) == Fine {
      var d2 := ReleaseIf(ReleaseIf(d, r.container).0, r.workspace).0;
      assert r.workspace.value !in d2.live;
      if r.egress.Some? {
        assert SidecarDestroy(d2, r.egress.value).0.live <= d2.live;
      }
    }
  }
}
