/** The life of one sandbox: any number of callers destroy it, let its timer fire, or run something in
  * it, their steps interleaved in any way while time passes. */
module SandboxLifecycle {
  import opened Strings
  import opened WorkspacePath
  import DockerLedger

  datatype Action = ExecutePython | Execute | ExecuteShell | WriteFile | ReadFile | Snapshot | Restore | Fork

  /** What one call asks of the backend: a command with a time limit, a file at a path, or neither. */
  datatype Request =
    | Command(action: Action, workdir: Option<string>, requested: Option<real>)
    | OnPath(action: Action, path: string)
    | Plainly(action: Action)

  datatype End = Returned | AlreadyDestroyed | Denied | Invalid | Expired | Raised | TimedOut | BackendGone

  /** Where a call stands: before the next of its atomic steps. */
  datatype Phase =
    | AtActive | AtPath | AtApproval(path: string) | AtWorkdir | AtTimeout(workdir: string)
    | AtCommand(workdir: string, timeout: real, sampled: real) | Executing | AtOperation(path: string)
    | AtFlip(outcome: End) | AtBackend(outcome: End) | AtEvent(outcome: End) | Over(end: End)

  datatype Job = Job(request: Option<Request>, phase: Phase)

  /** What the outside sees: the hook's answers, calls of the backend, its destruction of itself when a command
    * passes the host's own deadline, the call of its `destroy` by the sandbox, and the DESTROYED event. */
  datatype Event =
    | Asked(job: nat, action: Action, path: string, approved: bool)
    | Executed(job: nat, action: Action, workdir: string, timeout: real, sampled: real)
    | Operated(job: nat, action: Action, path: string)
    | SelfDestroyed(job: nat)
    | BackendDestroyed
    | DestroyedEmitted

  type Backend = DockerLedger.Runtime
  type Id = DockerLedger.Id

  /** `destroyed` is the sandbox's flag, `backend` what the fields of the backend hold, and `released`
    * what its `destroy` took from them to remove, call after call. */
  datatype State = State(now: real, deadline: real, configured: string, destroyed: bool, backend: Backend,
                         released: seq<Id>, jobs: seq<Job>, trace: seq<Event>)

  /** Time passes, or one call takes its next step; `yes` is the approval hook's answer, that the
    * command ends in time, or that the backend's `destroy` returns. */
  datatype Step = Tick(elapsed: real) | Move(job: nat, yes: bool)

  // ---------------------------------------------------------------- the steps

  function Noted(event: Option<Event>): seq<Event> {
    if event.Some? then [event.value] else []
  }

  function Record(s: State, i: nat, phase: Phase, event: Option<Event>): State
    requires i < |s.jobs|
  {
    s.(jobs := s.jobs[i := s.jobs[i].(phase := phase)], trace := s.trace + Noted(event))
  }

  /** `destroy` of the backend: it takes and clears its fields in one step under its own lock. */
  function Emptied(s: State): State {
    s.(backend := DockerLedger.EMPTY, released := s.released + DockerLedger.Order(s.backend))
  }

  /** `_effective_workdir`. */
  function EffectiveWorkdir(s: State, requested: Option<string>): Option<string> {
    NormalizeWorkdir(if requested.Some? && requested.value != "" then requested.value else s.configured)
  }

  function Least(a: real, b: real): real {
    if a <= b then a else b
  }

  /** The arithmetic of `_effective_timeout` for the time that remains: a limit, or the way out. */
  datatype Limit = Seconds(value: real) | NoneLeft | NotPositive

  function EffectiveTimeout(requested: Option<real>, remaining: real): Limit {
    if remaining <= 0.0 then NoneLeft
    else
      match requested
      case None => Seconds(remaining)
      case Some(wanted) => if wanted <= 0.0 then NotPositive else Seconds(Least(wanted, remaining))
  }

  /** Where the next step takes a call, and what is seen of it. */
  function Moved(s: State, i: nat, yes: bool): (Phase, Option<Event>)
    requires i < |s.jobs|
  {
    var Job(request, phase) := s.jobs[i];
    match phase
    case Over(_) => (phase, None)
    case AtFlip(end) => (if s.destroyed then Over(end) else AtBackend(end), None)
    case AtBackend(end) => (if yes then AtEvent(end) else Over(Raised), Some(BackendDestroyed))
    case AtEvent(end) => (Over(end), Some(DestroyedEmitted))
    case Executing => if yes then (Over(Returned), None) else (Over(TimedOut), Some(SelfDestroyed(i)))
    case AtActive =>
      (if s.destroyed then Over(AlreadyDestroyed)
       else if request.Some? && request.value.OnPath? then AtPath
       else AtApproval(""), None)
    case _ => if request.None? then (phase, None) else MovedRequest(s, i, request.value, phase, yes)
  }

  /** The steps of a call that asks the backend for something, after it found the sandbox alive. */
  function MovedRequest(s: State, i: nat, request: Request, phase: Phase, yes: bool): (Phase, Option<Event>) {
    match phase
    case AtPath =>
      var path := if request.OnPath? then NormalizeWorkspacePath(request.path) else None;
      (if path.Some? then AtApproval(path.value) else Over(Invalid), None)
    case AtApproval(path) =>
      (if !yes then Over(Denied) else if request.Command? then AtWorkdir else AtOperation(path),
       Some(Asked(i, request.action, path, yes)))
    case AtWorkdir =>
      var workdir := if request.Command? then EffectiveWorkdir(s, request.workdir) else None;
      (if workdir.Some? then AtTimeout(workdir.value) else Over(Invalid), None)
    case AtTimeout(workdir) =>
      var limit := EffectiveTimeout(if request.Command? then request.requested else None, s.deadline - s.now);
      (match limit
       case NoneLeft => AtFlip(Expired)
       case NotPositive => Over(Invalid)
       case Seconds(value) => AtCommand(workdir, value, s.now), None)
    case AtCommand(workdir, timeout, sampled) =>
      (if s.backend.container.None? then Over(BackendGone) else Executing,
       Some(Executed(i, request.action, workdir, timeout, sampled)))
    case AtOperation(path) => (Over(Returned), Some(Operated(i, request.action, path)))
    case _ => (phase, None)
  }

  /** The steps with which the backend takes and clears its fields: its `destroy` called by the
    * sandbox, or by the backend itself when a command does not end in time. */
  predicate Empties(phase: Phase, yes: bool) {
    phase.AtBackend? || (phase.Executing? && !yes)
  }

  function MoveJob(s: State, i: nat, yes: bool): State
    requires i < |s.jobs|
  {
    var phase := s.jobs[i].phase;
    var (next, event) := Moved(s, i, yes);
    var s1 := Record(s, i, next, event).(destroyed := s.destroyed || phase.AtFlip?);
    if Empties(phase, yes) then Emptied(s1) else s1
  }

  function Next(s: State, step: Step): State {
    match step
    case Tick(elapsed) => if elapsed > 0.0 then s.(now := s.now + elapsed) else s
    case Move(i, yes) => if i < |s.jobs| then MoveJob(s, i, yes) else s
  }

  function Run(s: State, steps: seq<Step>): State
    decreases steps
  {
    if steps == [] then s else Run(Next(s, steps[0]), steps[1..])
  }

  /** A sandbox whose backend has been created, with its lifetime counted from now. A caller without a
    * request destroys it: explicitly, on leaving its context, or as its timer. */
  function Created(now: real, lifetime: real, configured: string, backend: Backend,
                   callers: seq<Option<Request>>): State {
    State(now, now + lifetime, configured, false, backend, [],
          seq(|callers|, i requires 0 <= i < |callers| =>
            Job(callers[i], if callers[i].Some? then AtActive else AtFlip(Returned))), [])
  }

  // ---------------------------------------------------------------- destroyed once

  function Flag(b: bool): nat {
    if b then 1 else 0
  }

  function AtBackends(jobs: seq<Job>): nat {
    if jobs == [] then 0 else Flag(jobs[0].phase.AtBackend?) + AtBackends(jobs[1..])
  }

  function AtEvents(jobs: seq<Job>): nat {
    if jobs == [] then 0 else Flag(jobs[0].phase.AtEvent?) + AtEvents(jobs[1..])
  }

  function Times(trace: seq<Event>, event: Event): nat {
    if trace == [] then 0 else Flag(trace[0] == event) + Times(trace[1..], event)
  }

  lemma {:induction false} CountUpdate(jobs: seq<Job>, i: nat, job: Job)
    requires i < |jobs|
    ensures AtBackends(jobs[i := job]) == AtBackends(jobs) - Flag(jobs[i].phase.AtBackend?) + Flag(job.phase.AtBackend?)
    ensures AtEvents(jobs[i := job]) == AtEvents(jobs) - Flag(jobs[i].phase.AtEvent?) + Flag(job.phase.AtEvent?)
  {
    if i == 0 {
      assert jobs[i := job][1..] == jobs[1..];
    } else {
      CountUpdate(jobs[1..], i - 1, job);
      assert jobs[i := job][1..] == jobs[1..][i - 1 := job];
    }
  }

  lemma {:induction false} TimesAppend(trace: seq<Event>, last: Event, event: Event)
    ensures Times(trace + [last], event) == Times(trace, event) + Flag(last == event)
  {
    if trace == [] {
      assert [] + [last] == [last] && [last][1..] == [];
    } else {
      TimesAppend(trace[1..], last, event);
      assert (trace + [last])[1..] == trace[1..] + [last];
    }
  }

  /** Exactly one call destroys the backend once the flag is set, none before; the event follows it. */
  ghost predicate DestroyedOnce(s: State) {
    && AtBackends(s.jobs) + Times(s.trace, BackendDestroyed) == Flag(s.destroyed)
    && AtEvents(s.jobs) + Times(s.trace, DestroyedEmitted) <= Times(s.trace, BackendDestroyed)
  }

  /** Recording a phase and at most one event. */
  lemma RecordCounts(s: State, i: nat, phase: Phase, event: Option<Event>)
    requires i < |s.jobs|
    ensures var s' := Record(s, i, phase, event);
      && AtBackends(s'.jobs) == AtBackends(s.jobs) - Flag(s.jobs[i].phase.AtBackend?) + Flag(phase.AtBackend?)
      && AtEvents(s'.jobs) == AtEvents(s.jobs) - Flag(s.jobs[i].phase.AtEvent?) + Flag(phase.AtEvent?)
      && Times(s'.trace, BackendDestroyed) == Times(s.trace, BackendDestroyed) + Flag(event == Some(BackendDestroyed))
      && Times(s'.trace, DestroyedEmitted) == Times(s.trace, DestroyedEmitted) + Flag(event == Some(DestroyedEmitted))
  {
    CountUpdate(s.jobs, i, s.jobs[i].(phase := phase));
    if event.None? {
      assert s.trace + [] == s.trace;
    } else {
      TimesAppend(s.trace, event.value, BackendDestroyed);
      TimesAppend(s.trace, event.value, DestroyedEmitted);
    }
  }

  lemma MovedDestroys(s: State, i: nat, yes: bool)
    requires i < |s.jobs|
    ensures var (next, event) := Moved(s, i, yes);
      && (next.AtBackend? <==> s.jobs[i].phase.AtFlip? && !s.destroyed)
      && (event == Some(BackendDestroyed) <==> s.jobs[i].phase.AtBackend?)
      && (next.AtEvent? ==> s.jobs[i].phase.AtBackend?)
      && (event == Some(DestroyedEmitted) <==> s.jobs[i].phase.AtEvent?)
  {
    hide NormalizeWorkdir, NormalizeWorkspacePath, EffectiveTimeout;
  }

  lemma NextDestroysOnce(s: State, step: Step)
    requires DestroyedOnce(s)
    ensures DestroyedOnce(Next(s, step))
  {
    hide Moved, Times, AtBackends, AtEvents;
    if step.Move? && step.job < |s.jobs| {
      var (next, event) := Moved(s, step.job, step.yes);
      MovedDestroys(s, step.job, step.yes);
      RecordCounts(s, step.job, next, event);
    }
  }

  // ---------------------------------------------------------------- released once

  predicate Clears(event: Event) {
    event.SelfDestroyed? || event.BackendDestroyed?
  }

  ghost predicate SelfEnded(trace: seq<Event>) {
    exists k :: 0 <= k < |trace| && trace[k].SelfDestroyed?
  }

  /** What the backend held at first is in its fields still, or was taken from them, in order and once;
    * the fields are clear once it destroyed itself or the sandbox called its `destroy`. */
  ghost predicate ReleasedOnce(s: State, backend: Backend) {
    && s.released + DockerLedger.Order(s.backend) == DockerLedger.Order(backend)
    && (s.backend == backend || s.backend == DockerLedger.EMPTY)
    && (s.backend.container.None? <==> SelfEnded(s.trace) || Times(s.trace, BackendDestroyed) > 0)
  }

  lemma MovedClears(s: State, i: nat, yes: bool)
    requires i < |s.jobs|
    ensures var event := Moved(s, i, yes).1;
      Empties(s.jobs[i].phase, yes) <==> event.Some? && Clears(event.value)
  {
    hide NormalizeWorkdir, NormalizeWorkspacePath, EffectiveTimeout;
  }

  lemma SelfEndedAppend(trace: seq<Event>, event: Option<Event>)
    ensures SelfEnded(trace + Noted(event)) <==> SelfEnded(trace) || (event.Some? && event.value.SelfDestroyed?)
  {
    var after := trace + Noted(event);
    if k :| 0 <= k < |trace| && trace[k].SelfDestroyed? {
      assert after[k].SelfDestroyed?;
    }
    if event.Some? {
      assert after[|trace|] == event.value;
    }
  }

  lemma NextReleasesOnce(s: State, step: Step, backend: Backend)
    requires ReleasedOnce(s, backend) && backend.container.Some?
    ensures ReleasedOnce(Next(s, step), backend)
  {
    assert DockerLedger.Order(DockerLedger.EMPTY) == [];
    hide Moved, Times, SelfEnded, DockerLedger.Order;
    if step.Move? && step.job < |s.jobs| {
      var (next, event) := Moved(s, step.job, step.yes);
      MovedClears(s, step.job, step.yes);
      MovedDestroys(s, step.job, step.yes);
      RecordCounts(s, step.job, next, event);
      SelfEndedAppend(s.trace, event);
    }
  }

  // ---------------------------------------------------------------- approved and in time

  /** The longest time limit that ends no later than the deadline and is no longer than what was asked
    * for: either as asked for, or up to the deadline. */
  ghost predicate InTime(s: State, requested: Option<real>, timeout: real, sampled: real) {
    && 0.0 < timeout && sampled + timeout <= s.deadline
    && (requested.Some? ==> timeout <= requested.value)
    && (requested == Some(timeout) || sampled + timeout == s.deadline)
  }

  ghost predicate IsCommand(s: State, i: nat) {
    i < |s.jobs| && s.jobs[i].request.Some? && s.jobs[i].request.value.Command?
  }

  /** A command that may run: its own action was approved before position `k`, where and how long. */
  ghost predicate MayRun(s: State, i: nat, k: nat, workdir: string, timeout: real, sampled: real) {
    && IsCommand(s, i) && k <= |s.trace|
    && var request := s.jobs[i].request.value;
      && Asked(i, request.action, "", true) in s.trace[..k]
      && EffectiveWorkdir(s, request.workdir) == Some(workdir) && InTime(s, request.requested, timeout, sampled)
  }

  /** An operation that may run: its own action was approved before position `k`, for the same path. */
  ghost predicate MayOperate(s: State, i: nat, k: nat, path: string) {
    && i < |s.jobs| && s.jobs[i].request.Some? && !s.jobs[i].request.value.Command? && k <= |s.trace|
    && var request := s.jobs[i].request.value;
      && Asked(i, request.action, path, true) in s.trace[..k]
      && (request.OnPath? ==> NormalizeWorkspacePath(request.path) == Some(path))
  }

  /** What is known of a call in each phase. */
  ghost predicate JobLawful(s: State, i: nat)
    requires i < |s.jobs|
  {
    var Job(request, phase) := s.jobs[i];
    match phase
    case AtApproval(path) => request.Some? ==>
      if request.value.OnPath? then NormalizeWorkspacePath(request.value.path) == Some(path) else path == ""
    case AtWorkdir => IsCommand(s, i) && Asked(i, request.value.action, "", true) in s.trace
    case AtTimeout(workdir) =>
      IsCommand(s, i) && Asked(i, request.value.action, "", true) in s.trace
      && EffectiveWorkdir(s, request.value.workdir) == Some(workdir)
    case AtCommand(workdir, timeout, sampled) => MayRun(s, i, |s.trace|, workdir, timeout, sampled)
    case AtOperation(path) => MayOperate(s, i, |s.trace|, path)
    case _ => true
  }

  /** The call has reached the backend, or will not any more. */
  predicate Past(phase: Phase) {
    phase.Over? || phase.Executing?
  }

  /** A recorded backend call was allowed to run when it ran, and its caller is past that point. */
  ghost predicate EventLawful(s: State, k: nat)
    requires k < |s.trace|
  {
    match s.trace[k]
    case Executed(i, action, workdir, timeout, sampled) =>
      MayRun(s, i, k, workdir, timeout, sampled) && action == s.jobs[i].request.value.action && Past(s.jobs[i].phase)
    case Operated(i, action, path) =>
      MayOperate(s, i, k, path) && action == s.jobs[i].request.value.action && Past(s.jobs[i].phase)
    case _ => true
  }

  predicate RunsFor(event: Event, i: nat) {
    (event.Executed? || event.Operated?) && event.job == i
  }

  /** One approval serves one call of the backend. */
  ghost predicate OneEach(trace: seq<Event>) {
    forall k, l, i :: 0 <= k < l < |trace| && RunsFor(trace[k], i) ==> !RunsFor(trace[l], i)
  }

  ghost predicate Lawful(s: State) {
    && (forall i :: 0 <= i < |s.jobs| ==> JobLawful(s, i))
    && (forall k :: 0 <= k < |s.trace| ==> EventLawful(s, k))
    && OneEach(s.trace)
  }

  /** What every step keeps: the requests, the deadline, the past, and that no call goes back. */
  ghost predicate Extends(s: State, s': State) {
    && s'.deadline == s.deadline && s'.configured == s.configured && s.now <= s'.now
    && s.trace <= s'.trace && |s'.jobs| == |s.jobs|
    && (forall i :: 0 <= i < |s.jobs| ==> s'.jobs[i].request == s.jobs[i].request)
    && (forall i :: 0 <= i < |s.jobs| && Past(s.jobs[i].phase) ==> Past(s'.jobs[i].phase))
  }

  lemma LawStays(s: State, s': State)
    requires Extends(s, s')
    ensures forall i :: 0 <= i < |s.jobs| && s'.jobs[i] == s.jobs[i] && JobLawful(s, i) ==> JobLawful(s', i)
    ensures forall k :: 0 <= k < |s.trace| && EventLawful(s, k) ==> EventLawful(s', k)
  {
    hide NormalizeWorkdir, NormalizeWorkspacePath;
    forall event | event in s.trace ensures event in s'.trace {
      var k :| 0 <= k < |s.trace| && s.trace[k] == event;
      assert s'.trace[k] == event;
    }
    forall k | 0 <= k <= |s.trace| ensures s'.trace[..k] == s.trace[..k] {
    }
    assert s.trace[..|s.trace|] == s.trace && s'.trace[..|s'.trace|] == s'.trace;
  }

  lemma MoveExtends(s: State, i: nat, yes: bool)
    requires i < |s.jobs|
    ensures var s' := MoveJob(s, i, yes);
      && Extends(s, s') && s'.trace == s.trace + Noted(Moved(s, i, yes).1)
      && s'.jobs[i] == s.jobs[i].(phase := Moved(s, i, yes).0)
      && (forall j :: 0 <= j < |s.jobs| && j != i ==> s'.jobs[j] == s.jobs[j])
  {
    PastStays(s, i, yes);
    hide Moved;
  }

  lemma PastStays(s: State, i: nat, yes: bool)
    requires i < |s.jobs|
    ensures Past(s.jobs[i].phase) ==> Past(Moved(s, i, yes).0)
  {
    hide MovedRequest;
  }

  lemma ApprovedIsLawful(s: State, i: nat, yes: bool)
    requires i < |s.jobs| && JobLawful(s, i) && s.jobs[i].phase.AtApproval?
    ensures JobLawful(MoveJob(s, i, yes), i)
  {
    MoveExtends(s, i, yes);
    hide MoveJob, NormalizeWorkdir, NormalizeWorkspacePath;
    var s' := MoveJob(s, i, yes);
    assert s'.trace[..|s'.trace|] == s'.trace;
    if |s'.trace| > |s.trace| {
      assert s'.trace[|s.trace|] in s'.trace;
    }
  }

  lemma TimedIsLawful(s: State, i: nat, yes: bool)
    requires i < |s.jobs| && JobLawful(s, i) && s.jobs[i].phase.AtTimeout?
    ensures JobLawful(MoveJob(s, i, yes), i)
  {
    MoveExtends(s, i, yes);
    hide MoveJob, NormalizeWorkdir, NormalizeWorkspacePath;
    var s' := MoveJob(s, i, yes);
    assert s.trace + [] == s.trace && s'.trace[..|s'.trace|] == s'.trace;
  }

  lemma PlacedIsLawful(s: State, i: nat, yes: bool)
    requires i < |s.jobs| && JobLawful(s, i) && s.jobs[i].phase.AtWorkdir?
    ensures JobLawful(MoveJob(s, i, yes), i)
  {
    MoveExtends(s, i, yes);
    hide MoveJob, NormalizeWorkdir, NormalizeWorkspacePath;
    assert s.trace + [] == s.trace;
  }

  /** The other phases lead to one that promises nothing, or to the approval of a path. */
  lemma OtherwiseLawful(s: State, i: nat, yes: bool)
    requires i < |s.jobs| && !s.jobs[i].phase.AtApproval? && !s.jobs[i].phase.AtWorkdir? && !s.jobs[i].phase.AtTimeout?
    requires JobLawful(s, i)
    ensures JobLawful(MoveJob(s, i, yes), i)
  {
    MoveExtends(s, i, yes);
    hide MoveJob, NormalizeWorkdir, NormalizeWorkspacePath, MayRun, MayOperate, Extends;
  }

  /** The moved call is lawful in its new phase. */
  lemma MovedIsLawful(s: State, i: nat, yes: bool)
    requires i < |s.jobs| && JobLawful(s, i)
    ensures JobLawful(MoveJob(s, i, yes), i)
  {
    hide MoveJob, JobLawful;
    match s.jobs[i].phase
    case AtApproval(_) => ApprovedIsLawful(s, i, yes);
    case AtWorkdir => PlacedIsLawful(s, i, yes);
    case AtTimeout(_) => TimedIsLawful(s, i, yes);
    case _ => OtherwiseLawful(s, i, yes);
  }

  lemma PermissionStays(s: State, s': State, i: nat, workdir: string, timeout: real, sampled: real, path: string)
    requires Extends(s, s')
    ensures MayRun(s, i, |s.trace|, workdir, timeout, sampled) ==> MayRun(s', i, |s.trace|, workdir, timeout, sampled)
    ensures MayOperate(s, i, |s.trace|, path) ==> MayOperate(s', i, |s.trace|, path)
  {
    hide NormalizeWorkdir, NormalizeWorkspacePath;
    assert s'.trace[..|s.trace|] == s.trace == s.trace[..|s.trace|];
  }

  /** What a move adds to the trace is lawful, and is a backend call only of the moved one. */
  lemma AddedIsLawful(s: State, i: nat, yes: bool)
    requires i < |s.jobs| && JobLawful(s, i) && |MoveJob(s, i, yes).trace| > |s.trace|
    ensures EventLawful(MoveJob(s, i, yes), |s.trace|)
    ensures forall j :: RunsFor(MoveJob(s, i, yes).trace[|s.trace|], j) ==> j == i && !Past(s.jobs[i].phase)
  {
    MoveExtends(s, i, yes);
    var s' := MoveJob(s, i, yes);
    hide MoveJob, NormalizeWorkdir, NormalizeWorkspacePath, EffectiveTimeout, MayRun, MayOperate, Extends;
    match s.jobs[i].phase
    case AtCommand(workdir, timeout, sampled) => PermissionStays(s, s', i, workdir, timeout, sampled, "");
    case AtOperation(path) => PermissionStays(s, s', i, "", 0.0, 0.0, path);
    case _ =>
  }

  lemma NextLawful(s: State, step: Step)
    requires Lawful(s)
    ensures Lawful(Next(s, step)) && Extends(s, Next(s, step))
  {
    hide NormalizeWorkdir, NormalizeWorkspacePath, MoveJob, Moved, JobLawful, EventLawful;
    var s' := Next(s, step);
    if step.Tick? {
      LawStays(s, s');
    } else if step.job < |s.jobs| {
      var i := step.job;
      MoveExtends(s, i, step.yes);
      LawStays(s, s');
      MovedIsLawful(s, i, step.yes);
      if |s'.trace| > |s.trace| {
        AddedIsLawful(s, i, step.yes);
        NoSecondRun(s, s', i);
      }
    }
  }

  lemma RanIsOver(s: State, k: nat, i: nat)
    requires k < |s.trace| && EventLawful(s, k) && RunsFor(s.trace[k], i)
    ensures i < |s.jobs| && Past(s.jobs[i].phase)
  {
  }

  lemma NoSecondRun(s: State, s': State, i: nat)
    requires Lawful(s) && Extends(s, s') && |s'.trace| == |s.trace| + 1 && i < |s.jobs|
    requires forall j :: RunsFor(s'.trace[|s.trace|], j) ==> j == i && !Past(s.jobs[i].phase)
    ensures OneEach(s'.trace)
  {
    hide JobLawful, EventLawful;
    forall k, j | 0 <= k < |s.trace| && RunsFor(s'.trace[k], j) ensures !RunsFor(s'.trace[|s.trace|], j) {
      assert s'.trace[k] == s.trace[k];
      RanIsOver(s, k, j);
    }
    forall k, l, j | 0 <= k < l < |s'.trace| && RunsFor(s'.trace[k], j) ensures !RunsFor(s'.trace[l], j) {
      assert s'.trace[k] == s.trace[k];
      assert l < |s.trace| ==> s'.trace[l] == s.trace[l];
    }
  }

  lemma {:induction false} RunKeepsLaws(s: State, steps: seq<Step>, backend: Backend)
    requires Lawful(s) && DestroyedOnce(s) && ReleasedOnce(s, backend) && backend.container.Some?
    ensures var s' := Run(s, steps); Lawful(s') && DestroyedOnce(s') && ReleasedOnce(s', backend) && Extends(s, s')
    decreases steps
  {
    hide Next, Lawful, DestroyedOnce, ReleasedOnce;
    if steps != [] {
      NextLawful(s, steps[0]);
      NextDestroysOnce(s, steps[0]);
      NextReleasesOnce(s, steps[0], backend);
      RunKeepsLaws(Next(s, steps[0]), steps[1..], backend);
    }
  }

  lemma {:induction false} NoneAt(jobs: seq<Job>)
    requires forall i :: 0 <= i < |jobs| ==> !jobs[i].phase.AtBackend? && !jobs[i].phase.AtEvent?
    ensures AtBackends(jobs) == 0 && AtEvents(jobs) == 0
  {
    if jobs != [] {
      NoneAt(jobs[1..]);
    }
  }

  /** The life of a sandbox, for any callers in any interleaving. Its `destroy` calls the backend's and
    * emits the event at most once; no resource of the backend, which may also destroy itself while a
    * command runs, is ever taken for removal twice. When all callers are done, the backend's `destroy`
    * was called by the sandbox exactly if the flag is up, and each of its resources was taken exactly
    * once if the flag is up or it destroyed itself, and never otherwise. Every call of the backend was
    * approved for its own action and path, once for each approval; every command runs in a working
    * directory of the workspace for as long as asked for or, counted from when the clock was read, up to
    * the deadline, whichever ends first. The backend is any runtime that holds a container and different resources, as
    * every one that `create` and `fork` hand out does. */
  lemma LifetimeTheorem(now: real, lifetime: real, configured: string, backend: Backend,
                        callers: seq<Option<Request>>, steps: seq<Step>, id: Id)
    requires backend.container.Some? && DockerLedger.Separate(backend)
    ensures var s := Run(Created(now, lifetime, configured, backend, callers), steps);
      var once := if id in DockerLedger.Held(backend) then 1 else 0;
      && s.deadline == now + lifetime
      && Times(s.trace, DestroyedEmitted) <= Times(s.trace, BackendDestroyed) <= 1
      && DockerLedger.Count(s.released, id) <= once
      && ((forall i :: 0 <= i < |s.jobs| ==> s.jobs[i].phase.Over?) ==>
            && Times(s.trace, BackendDestroyed) == Flag(s.destroyed)
            && DockerLedger.Count(s.released, id) == if s.destroyed || SelfEnded(s.trace) then once else 0)
      && Lawful(s)
  {
    var start := Created(now, lifetime, configured, backend, callers);
    hide MoveJob, JobLawful, EventLawful, DockerLedger.Order, DockerLedger.Held, DockerLedger.Separate;
    NoneAt(start.jobs);
    StartIsLawful(now, lifetime, configured, backend, callers);
    RunKeepsLaws(start, steps, backend);
    var s := Run(start, steps);
    ReleasedCounts(s, backend, id);
    if forall i :: 0 <= i < |s.jobs| ==> s.jobs[i].phase.Over? {
      NoneAt(s.jobs);
    }
  }

  lemma ReleasedCounts(s: State, backend: Backend, id: Id)
    requires ReleasedOnce(s, backend) && backend.container.Some? && DockerLedger.Separate(backend)
    ensures DockerLedger.Count(s.released, id)
         == if s.backend.container.None? && id in DockerLedger.Held(backend) then 1 else 0
  {
    DockerLedger.OrderIsHeld(backend, id);
    DockerLedger.CountConcat(s.released, DockerLedger.Order(s.backend), id);
    assert DockerLedger.Order(DockerLedger.EMPTY) == [];
    hide DockerLedger.Order, DockerLedger.Held, DockerLedger.Separate;
  }

  lemma StartIsLawful(now: real, lifetime: real, configured: string, backend: Backend, callers: seq<Option<Request>>)
    ensures Lawful(Created(now, lifetime, configured, backend, callers))
  {
  }

  // ---------------------------------------------------------------- what the steps mean to a caller

  /** The directory a command runs in: the one asked for, or the sandbox's own if none or an empty one was. */
  lemma WorkdirIsAskedForOrConfigured(s: State, requested: Option<string>)
    ensures requested == None || requested == Some("") ==>
      EffectiveWorkdir(s, requested) == NormalizeWorkdir(s.configured)
    ensures requested.Some? && requested.value != "" ==>
      EffectiveWorkdir(s, requested) == NormalizeWorkdir(requested.value)
  {
    hide NormalizeWorkdir;
  }

  /** Time that passes between two steps counts: a command without a limit of its own gets exactly what is
    * left then, and once nothing is left its caller goes on to destroy the sandbox. */
  lemma TimeRunsOut(s: State, i: nat, elapsed: real, yes: bool)
    requires IsCommand(s, i) && s.jobs[i].phase.AtTimeout? && s.jobs[i].request.value.requested == None && elapsed > 0.0
    ensures var s' := Next(Next(s, Tick(elapsed)), Move(i, yes));
      && s'.now == s.now + elapsed
      && s'.jobs[i].phase == if s.now + elapsed >= s.deadline then AtFlip(Expired)
         else AtCommand(s.jobs[i].phase.workdir, s.deadline - s.now - elapsed, s.now + elapsed)
  {
    hide NormalizeWorkdir, NormalizeWorkspacePath;
  }

  /** The job of a caller that comes when the flag is already up. */
  ghost predicate ShutOut(s: State, i: nat) {
    s.destroyed && i < |s.jobs| && (s.jobs[i].phase.AtActive? || s.jobs[i].phase == Over(AlreadyDestroyed))
  }

  predicate Concerns(event: Event, i: nat) {
    !event.BackendDestroyed? && !event.DestroyedEmitted? && event.job == i
  }

  lemma NextShutsOut(s: State, i: nat, step: Step)
    requires ShutOut(s, i)
    ensures var s' := Next(s, step);
      ShutOut(s', i) && s.trace <= s'.trace && forall k :: |s.trace| <= k < |s'.trace| ==> !Concerns(s'.trace[k], i)
  {
    if step.Move? && step.job < |s.jobs| {
      MoveExtends(s, step.job, step.yes);
      MovedConcerns(s, step.job, step.yes, i);
    }
    hide Moved, NormalizeWorkdir, NormalizeWorkspacePath;
  }

  lemma MovedConcerns(s: State, i: nat, yes: bool, other: nat)
    requires i < |s.jobs|
    ensures var (next, event) := Moved(s, i, yes);
      && (event.Some? && Concerns(event.value, other) ==> other == i)
      && (s.jobs[i].phase.AtActive? && s.destroyed ==> next == Over(AlreadyDestroyed) && event == None)
      && (s.jobs[i].phase.Over? ==> next == s.jobs[i].phase && event == None)
  {
    hide NormalizeWorkdir, NormalizeWorkspacePath, EffectiveTimeout;
  }

  /** A call that begins after the sandbox was destroyed, by whoever and whatever others do, is neither put
    * to the hook nor does it reach the backend: all it can do is end with SandboxDestroyedError. */
  lemma {:induction false} NothingStartsLate(s: State, i: nat, steps: seq<Step>)
    requires ShutOut(s, i)
    ensures var s' := Run(s, steps);
      ShutOut(s', i) && s.trace <= s'.trace && forall k :: |s.trace| <= k < |s'.trace| ==> !Concerns(s'.trace[k], i)
    decreases steps
  {
    hide Next, ShutOut, Concerns;
    if steps != [] {
      NextShutsOut(s, i, steps[0]);
      NothingStartsLate(Next(s, steps[0]), i, steps[1..]);
    }
  }
}
