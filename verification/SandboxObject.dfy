/** The sandbox object: `destroy`, `_effective_timeout` and the way of one command through its checks,
  * each proved to be the matching steps of the life of a sandbox. */
module SandboxObject {
  import opened Strings
  import opened WorkspacePath
  import DockerLedger
  import opened SandboxLifecycle

  class Sandbox {
    var now: real
    const deadline: real
    const configured: string
    var destroyed: bool
    var jobs: seq<Job>           // where each caller stands
    var backend: Backend         // what the backend's fields hold
    ghost var released: seq<Id>  // what its `destroy` took from them
    ghost var trace: seq<Event>

    ghost function Abs(): State
      reads this
    {
      State(now, deadline, configured, destroyed, backend, released, jobs, trace)
    }

    /** The end of `__init__` and of `_adopt`: the backend exists, the lifetime starts. */
    constructor (now: real, lifetime: real, configured: string, backend: Backend, callers: seq<Option<Request>>)
      ensures Abs() == Created(now, lifetime, configured, backend, callers)
    {
      this.now, deadline, this.configured, destroyed := now, now + lifetime, configured, false;
      jobs := seq(|callers|, i requires 0 <= i < |callers| =>
        Job(callers[i], if callers[i].Some? then AtActive else AtFlip(Returned)));
      this.backend, released, trace := backend, [], [];
    }

    method Go(i: nat, phase: Phase, ghost event: Option<Event>)
      requires i < |jobs|
      modifies this`jobs, this`trace
      ensures Abs() == Record(old(Abs()), i, phase, event)
    {
      jobs := jobs[i := jobs[i].(phase := phase)];
      trace := trace + Noted(event);
    }

    /** The backend's own `destroy`, called by the sandbox or by itself. */
    method EmptyBackend()
      modifies this`backend, this`released
      ensures Abs() == Emptied(old(Abs()))
    {
      released := released + DockerLedger.Order(backend);
      backend := DockerLedger.EMPTY;
    }

    /** Under the lock: whoever finds the flag down raises it and goes on, everyone else is done. */
    method Flip(i: nat) returns (first: bool)
      requires i < |jobs| && jobs[i].phase.AtFlip?
      modifies this`jobs, this`trace, this`destroyed
      ensures Abs() == Next(old(Abs()), Move(i, true)) && first == !old(destroyed)
      ensures |jobs| == old(|jobs|) && destroyed && trace == old(trace)
      ensures var end := old(jobs[i].phase.outcome);
        jobs[i].phase == if first then AtBackend(end) else Over(end)
    {
      var end := jobs[i].phase.outcome;
      if destroyed {
        Go(i, Over(end), None);
        return false;
      }
      Go(i, AtBackend(end), None);
      destroyed := true;
      return true;
    }

    /** `self._backend.destroy()` and the event that follows it if it returns. */
    method DestroyBackend(i: nat, answered: bool)
      requires i < |jobs| && jobs[i].phase.AtBackend?
      modifies this`jobs, this`trace, this`backend, this`released
      ensures Abs() == Run(old(Abs()), Moves(i, answered, 2))
      ensures |jobs| == old(|jobs|) && backend == DockerLedger.EMPTY
      ensures jobs[i].phase == Over(if answered then old(jobs[i].phase.outcome) else Raised)
      ensures trace == old(trace) + if answered then [BackendDestroyed, DestroyedEmitted] else [BackendDestroyed]
    {
      hide Run, NormalizeWorkdir, NormalizeWorkspacePath, MovedRequest, DockerLedger.Order;
      OneMove(Abs(), i, answered, 2);
      var end := jobs[i].phase.outcome;
      Go(i, if answered then AtEvent(end) else Over(Raised), Some(BackendDestroyed));
      EmptyBackend();
      OneMove(Abs(), i, answered, 1);
      if answered {
        Go(i, Over(end), Some(DestroyedEmitted));
      } else {
        OverStays(Abs(), i, answered, 1);
      }
    }

    /** `destroy`, without interference; `answered` says whether the backend's own `destroy` returns. */
    method Destroy(i: nat, answered: bool)
      requires i < |jobs| && jobs[i].phase.AtFlip?
      modifies this`jobs, this`trace, this`destroyed, this`backend, this`released
      ensures Abs() == Run(old(Abs()), Moves(i, answered, 3))
      ensures |jobs| == old(|jobs|) && destroyed && jobs[i].phase.Over?
      ensures !old(destroyed) ==> backend == DockerLedger.EMPTY
      ensures trace == old(trace) + if old(destroyed) then []
                                    else if answered then [BackendDestroyed, DestroyedEmitted] else [BackendDestroyed]
    {
      hide Run, NormalizeWorkdir, NormalizeWorkspacePath, Next;
      OneMove(Abs(), i, answered, 3);
      AnyAnswer(Abs(), i);
      var first := Flip(i);
      if first {
        DestroyBackend(i, answered);
      } else {
        OverStays(Abs(), i, answered, 2);
      }
    }

    /** `_effective_timeout`: a limit that ends by the deadline, or the destruction of the sandbox. */
    method LimitTime(i: nat, answered: bool) returns (limit: Limit)
      requires i < |jobs| && jobs[i].phase.AtTimeout? && IsCommand(Abs(), i)
      modifies this`jobs, this`trace, this`destroyed, this`backend, this`released
      ensures var s := Next(old(Abs()), Move(i, answered));
        Abs() == if limit.NoneLeft? then Run(s, Moves(i, answered, 3)) else s
      ensures |jobs| == old(|jobs|) && (!limit.Seconds? <==> jobs[i].phase.Over?)
      ensures limit.NoneLeft? <==> now >= deadline
      ensures limit.Seconds? ==> InTime(Abs(), old(jobs[i].request.value.requested), limit.value, now)
      ensures limit.NotPositive? ==>
            old(jobs[i].request.value.requested).Some? && old(jobs[i].request.value.requested).value <= 0.0
      ensures limit.Seconds? ==>
            jobs[i] == old(jobs[i]).(phase := AtCommand(old(jobs[i].phase.workdir), limit.value, now))
    {
      var requested := jobs[i].request.value.requested;
      var workdir := jobs[i].phase.workdir;
      var remaining := deadline - now;
      if remaining <= 0.0 {
        Go(i, AtFlip(Expired), None);
        Destroy(i, answered);
        return NoneLeft;
      }
      if requested.Some? && requested.value <= 0.0 {
        Go(i, Over(Invalid), None);
        return NotPositive;
      }
      var value := if requested.Some? then Least(requested.value, remaining) else remaining;
      Go(i, AtCommand(workdir, value, now), None);
      return Seconds(value);
    }

    /** `_ensure_active` and `_approve`, as every operation begins. */
    method Admit(i: nat, approved: bool) returns (admitted: bool)
      requires i < |jobs| && jobs[i].phase.AtActive? && IsCommand(Abs(), i)
      modifies this`jobs, this`trace
      ensures Abs() == Run(old(Abs()), Moves(i, approved, 2))
      ensures |jobs| == old(|jobs|) && jobs[i].request == old(jobs[i].request)
      ensures admitted <==> !destroyed && approved
      ensures jobs[i].phase == if admitted then AtWorkdir else Over(if destroyed then AlreadyDestroyed else Denied)
      ensures trace == old(trace) + if destroyed then [] else [Asked(i, jobs[i].request.value.action, "", approved)]
    {
      hide Run;
      OneMove(Abs(), i, approved, 2);
      if destroyed {
        Go(i, Over(AlreadyDestroyed), None);
        OverStays(Abs(), i, approved, 1);
        return false;
      }
      Go(i, AtApproval(""), None);
      OneMove(Abs(), i, approved, 1);
      if !approved {
        Go(i, Over(Denied), Some(Asked(i, jobs[i].request.value.action, "", false)));
        return false;
      }
      Go(i, AtWorkdir, Some(Asked(i, jobs[i].request.value.action, "", true)));
      return true;
    }

    /** `self._backend.exec(...)`: a backend that is empty refuses, and one whose command does not end
      * in time destroys itself, unnoticed by the sandbox. */
    method RunCommand(i: nat, answered: bool)
      requires i < |jobs| && jobs[i].phase.AtCommand? && IsCommand(Abs(), i)
      modifies this`jobs, this`trace, this`backend, this`released
      ensures Abs() == Run(old(Abs()), Moves(i, answered, 2))
      ensures |jobs| == old(|jobs|) && jobs[i].phase.Over?
      ensures backend == if old(backend).container.None? || answered then old(backend) else DockerLedger.EMPTY
    {
      hide NormalizeWorkdir, NormalizeWorkspacePath, Run;
      OneMove(Abs(), i, answered, 2);
      var AtCommand(workdir, timeout, sampled) := jobs[i].phase;
      ghost var event := Executed(i, jobs[i].request.value.action, workdir, timeout, sampled);
      if backend.container.None? {
        Go(i, Over(BackendGone), Some(event));
        OverStays(Abs(), i, answered, 1);
        return;
      }
      Go(i, Executing, Some(event));
      OneMove(Abs(), i, answered, 1);
      if answered {
        Go(i, Over(Returned), None);
      } else {
        Go(i, Over(TimedOut), Some(SelfDestroyed(i)));
        EmptyBackend();
      }
    }

    /** The time limit, then `self._backend.exec(...)`. */
    method CallInTime(i: nat, answered: bool) returns (timeout: Option<real>)
      requires i < |jobs| && jobs[i].phase.AtTimeout? && IsCommand(Abs(), i)
      modifies this`jobs, this`trace, this`destroyed, this`backend, this`released
      ensures Abs() == Run(old(Abs()), Moves(i, answered, 4))
      ensures var requested := old(jobs[i].request.value.requested);
        && (timeout.Some? <==> now < deadline && (requested.Some? ==> requested.value > 0.0))
        && (timeout.Some? ==> InTime(Abs(), requested, timeout.value, now))
    {
      hide NormalizeWorkdir, NormalizeWorkspacePath, Run;
      OneMove(Abs(), i, answered, 4);
      var limit := LimitTime(i, answered);
      match limit
      case NoneLeft => return None;
      case NotPositive =>
        OverStays(Abs(), i, answered, 3);
        return None;
      case Seconds(value) =>
        TwoParts(Abs(), Moves(i, answered, 2), Moves(i, answered, 1));
        assert Moves(i, answered, 3) == Moves(i, answered, 2) + Moves(i, answered, 1) by { MovesAgain(i, answered); }
        RunCommand(i, answered);
        OverStays(Abs(), i, answered, 1);
        return Some(value);
    }

    /** `_effective_workdir`, and what comes after it. */
    method CallBackend(i: nat, answered: bool) returns (timeout: Option<real>)
      requires i < |jobs| && jobs[i].phase.AtWorkdir? && IsCommand(Abs(), i)
      modifies this`jobs, this`trace, this`destroyed, this`backend, this`released
      ensures Abs() == Run(old(Abs()), Moves(i, answered, 5))
      ensures var Command(_, workdir, requested) := old(jobs[i].request.value);
        && (timeout.Some? <==> EffectiveWorkdir(old(Abs()), workdir).Some?
                               && now < deadline && (requested.Some? ==> requested.value > 0.0))
        && (timeout.Some? ==> InTime(Abs(), requested, timeout.value, now))
    {
      hide NormalizeWorkdir, NormalizeWorkspacePath, Run;
      OneMove(Abs(), i, answered, 5);
      var requested := jobs[i].request.value.workdir;
      var workdir := NormalizeWorkdir(if requested.Some? && requested.value != "" then requested.value else configured);
      if workdir.None? {
        Go(i, Over(Invalid), None);
        OverStays(Abs(), i, answered, 4);
        return None;
      }
      Go(i, AtTimeout(workdir.value), None);
      timeout := CallInTime(i, answered);
    }

    /** `exec_python`, `exec` and `exec_shell` without interference. The command reaches the backend
      * exactly if the sandbox is alive and in time, the hook says yes and the arguments are good. */
    method Exec(i: nat, approved: bool, answered: bool) returns (timeout: Option<real>)
      requires i < |jobs| && jobs[i].phase.AtActive? && IsCommand(Abs(), i)
      modifies this`jobs, this`trace, this`destroyed, this`backend, this`released
      ensures Abs() == Run(old(Abs()), Moves(i, approved, 2) + Moves(i, answered, 5))
      ensures var Command(_, workdir, requested) := old(jobs[i].request.value);
        && (timeout.Some? <==> !old(destroyed) && approved && EffectiveWorkdir(old(Abs()), workdir).Some?
                               && now < deadline && (requested.Some? ==> requested.value > 0.0))
        && (timeout.Some? ==> InTime(Abs(), requested, timeout.value, now))
    {
      hide Run, NormalizeWorkdir;
      TwoParts(Abs(), Moves(i, approved, 2), Moves(i, answered, 5));
      var admitted := Admit(i, approved);
      if !admitted {
        OverStays(Abs(), i, answered, 5);
        return None;
      }
      timeout := CallBackend(i, answered);
    }

    /** The hook's answer to a file operation, and the operation if it is yes. */
    method OperateAsked(i: nat, action: Action, path: string, approved: bool)
      requires i < |jobs| && jobs[i].phase == AtApproval(path)
      requires jobs[i].request.Some? && jobs[i].request.value.OnPath? && jobs[i].request.value.action == action
      modifies this`jobs, this`trace
      ensures Abs() == Run(old(Abs()), Moves(i, approved, 2))
      ensures |jobs| == old(|jobs|) && jobs[i].phase == Over(if approved then Returned else Denied)
      ensures trace == old(trace) + if approved then [Asked(i, action, path, true), Operated(i, action, path)]
                                    else [Asked(i, action, path, false)]
    {
      hide NormalizeWorkspacePath, NormalizeWorkdir, Run, EffectiveTimeout;
      OneMove(Abs(), i, approved, 2);
      if approved {
        Go(i, AtOperation(path), Some(Asked(i, action, path, true)));
        OneMove(Abs(), i, approved, 1);
        Go(i, Over(Returned), Some(Operated(i, action, path)));
      } else {
        Go(i, Over(Denied), Some(Asked(i, action, path, false)));
        OverStays(Abs(), i, approved, 1);
      }
    }

    /** `write_file` and `read_file` without interference: the path is judged before the hook is asked, the
      * hook sees the normalised path, and the backend gets the same one. */
    method Operate(i: nat, approved: bool) returns (reached: bool)
      requires i < |jobs| && jobs[i].phase.AtActive? && jobs[i].request.Some? && jobs[i].request.value.OnPath?
      modifies this`jobs, this`trace
      ensures Abs() == Run(old(Abs()), Moves(i, approved, 4))
      ensures var OnPath(action, asked) := old(jobs[i].request.value);
        var path := NormalizeWorkspacePath(asked);
        && (reached <==> !destroyed && path.Some? && approved)
        && |jobs| == old(|jobs|)
        && (destroyed ==> jobs[i].phase == Over(AlreadyDestroyed) && trace == old(trace))
        && (!destroyed && path.None? ==> jobs[i].phase == Over(Invalid) && trace == old(trace))
        && (!destroyed && path.Some? ==>
              && jobs[i].phase == Over(if approved then Returned else Denied)
              && trace == old(trace) + if approved
                   then [Asked(i, action, path.value, true), Operated(i, action, path.value)]
                   else [Asked(i, action, path.value, false)])
    {
      hide NormalizeWorkspacePath, NormalizeWorkdir, Run, EffectiveTimeout;
      OneMove(Abs(), i, approved, 4);
      if destroyed {
        Go(i, Over(AlreadyDestroyed), None);
        OverStays(Abs(), i, approved, 3);
        return false;
      }
      Go(i, AtPath, None);
      OneMove(Abs(), i, approved, 3);
      var OnPath(action, asked) := jobs[i].request.value;
      var path := NormalizeWorkspacePath(asked);
      if path.None? {
        Go(i, Over(Invalid), None);
        OverStays(Abs(), i, approved, 2);
        return false;
      }
      Go(i, AtApproval(path.value), None);
      OperateAsked(i, action, path.value, approved);
      return approved;
    }
  }

  /** One call moving on its own. */
  function Moves(i: nat, yes: bool, n: nat): seq<Step> {
    if n == 0 then [] else [Move(i, yes)] + Moves(i, yes, n - 1)
  }

  lemma OneMove(s: State, i: nat, yes: bool, n: nat)
    requires n > 0
    ensures Run(s, Moves(i, yes, n)) == Run(Next(s, Move(i, yes)), Moves(i, yes, n - 1))
    ensures n == 1 ==> Run(s, Moves(i, yes, n)) == Next(s, Move(i, yes))
  {
    assert Moves(i, yes, n)[1..] == Moves(i, yes, n - 1);
  }

  /** The flag does not depend on what the backend will answer. */
  lemma AnyAnswer(s: State, i: nat)
    requires i < |s.jobs| && s.jobs[i].phase.AtFlip?
    ensures Next(s, Move(i, true)) == Next(s, Move(i, false))
  {
  }

  lemma MovesAgain(i: nat, yes: bool)
    ensures Moves(i, yes, 3) == Moves(i, yes, 2) + Moves(i, yes, 1)
  {
    assert Moves(i, yes, 1) == [Move(i, yes)] && Moves(i, yes, 2) == [Move(i, yes), Move(i, yes)];
  }

  lemma {:induction false} TwoParts(s: State, left: seq<Step>, right: seq<Step>)
    ensures Run(s, left + right) == Run(Run(s, left), right)
    decreases left
  {
    if left == [] {
      assert left + right == right;
    } else {
      TwoParts(Next(s, left[0]), left[1..], right);
      assert (left + right)[1..] == left[1..] + right;
    }
  }

  lemma {:induction false} OverStays(s: State, i: nat, yes: bool, n: nat)
    requires i < |s.jobs| && s.jobs[i].phase.Over?
    ensures Run(s, Moves(i, yes, n)) == s
  {
    if n > 0 {
      OneMove(s, i, yes, n);
      assert s.jobs[i := s.jobs[i]] == s.jobs && s.trace + [] == s.trace;
      assert Next(s, Move(i, yes)) == s;
      OverStays(s, i, yes, n - 1);
    }
  }

  /** A caller without a request destroys the sandbox; left alone, it takes everything that the backend
    * held, and the event follows. */
  lemma CallerDestroys(now: real, lifetime: real, configured: string, backend: Backend,
                       callers: seq<Option<Request>>, i: nat)
    requires i < |callers| && callers[i] == None
    ensures var s := Run(Created(now, lifetime, configured, backend, callers), Moves(i, true, 3));
      && |s.jobs| == |callers| && s.destroyed && s.jobs[i].phase == Over(Returned) && s.backend == DockerLedger.EMPTY
      && s.released == DockerLedger.Order(backend) && s.trace == [BackendDestroyed, DestroyedEmitted]
  {
    var s := Created(now, lifetime, configured, backend, callers);
    hide NormalizeWorkdir, NormalizeWorkspacePath, Run, DockerLedger.Order;
    OneMove(s, i, true, 3);
    var s1 := Next(s, Move(i, true));
    OneMove(s1, i, true, 2);
    OneMove(Next(s1, Move(i, true)), i, true, 1);
  }

  /** A sandbox whose backend destroyed itself does not know: its flag is down, and the next command is
    * admitted and approved before the backend refuses it. */
  lemma SelfDestructionGoesUnnoticed(lifetime: real, configured: string, backend: Backend, action: Action)
    requires 0.0 < lifetime && NormalizeWorkdir(configured).Some? && backend.container.Some?
    ensures var caller := Some(Command(action, None, None));
      var start := Created(0.0, lifetime, configured, backend, [caller, caller]);
      var s := Run(start, Moves(0, true, 5) + Moves(0, false, 1));
      var s' := Run(s, Moves(1, true, 5));
      && |s.jobs| == |s'.jobs| == 2
      && s.backend == DockerLedger.EMPTY && !s.destroyed && s.jobs[0].phase == Over(TimedOut)
      && s'.jobs[1].phase == Over(BackendGone) && !s'.destroyed
  {
    hide NormalizeWorkdir, NormalizeWorkspacePath, Run, Next, Moves;
    var caller := Some(Command(action, None, None));
    var s := Created(0.0, lifetime, configured, backend, [caller, caller]);
    TwoParts(s, Moves(0, true, 5), Moves(0, false, 1));
    ReachesCommand(s, 0);
    var s1 := Run(s, Moves(0, true, 5));
    OneMove(s1, 0, false, 1);
    TooLate(s1, 0);
    var s2 := Next(s1, Move(0, false));
    ReachesCommand(s2, 1);
  }

  /** A command that does not end in time: the backend destroys itself, and nothing else changes. */
  lemma TooLate(s: State, i: nat)
    requires i < |s.jobs| && s.jobs[i].phase.Executing?
    ensures var s' := Next(s, Move(i, false));
      SameBut(s, s'.(backend := s.backend), i) && s'.backend == DockerLedger.EMPTY
      && s'.jobs[i] == s.jobs[i].(phase := Over(TimedOut))
  {
    hide DockerLedger.Order;
  }

  /** The same moment in another state, as far as callers can tell, except where one of them stands. */
  ghost predicate SameBut(s: State, s': State, i: nat) {
    && s'.destroyed == s.destroyed && s'.backend == s.backend && s'.now == s.now && s'.deadline == s.deadline
    && s'.configured == s.configured && |s'.jobs| == |s.jobs|
    && (forall j :: 0 <= j < |s.jobs| && j != i ==> s'.jobs[j] == s.jobs[j])
  }

  lemma PatientStep(s: State, i: nat)
    requires i < |s.jobs| && !s.jobs[i].phase.AtFlip? && !s.jobs[i].phase.AtBackend?
    ensures var s' := Next(s, Move(i, true));
      SameBut(s, s', i) && s'.jobs[i] == s.jobs[i].(phase := Moved(s, i, true).0)
  {
    hide Moved;
  }

  lemma FromTimeout(s: State, i: nat)
    requires IsCommand(s, i) && s.jobs[i].phase.AtTimeout?
    requires s.now < s.deadline && s.jobs[i].request.value.requested == None
    ensures var s' := Run(s, Moves(i, true, 2));
      SameBut(s, s', i)
      && s'.jobs[i] == s.jobs[i].(phase := if s.backend.container.None? then Over(BackendGone) else Executing)
  {
    hide NormalizeWorkdir, NormalizeWorkspacePath, Run, Next;
    OneMove(s, i, true, 2);
    PatientStep(s, i);
    var s1 := Next(s, Move(i, true));
    OneMove(s1, i, true, 1);
    PatientStep(s1, i);
  }

  /** A patient command in a living sandbox gets to the backend with its fifth step. */
  lemma ReachesCommand(s: State, i: nat)
    requires IsCommand(s, i) && s.jobs[i].phase == AtActive && !s.destroyed && s.now < s.deadline
    requires s.jobs[i].request.value.workdir == None && s.jobs[i].request.value.requested == None
    requires NormalizeWorkdir(s.configured).Some?
    ensures var s' := Run(s, Moves(i, true, 5));
      SameBut(s, s', i)
      && s'.jobs[i] == s.jobs[i].(phase := if s.backend.container.None? then Over(BackendGone) else Executing)
  {
    hide NormalizeWorkdir, NormalizeWorkspacePath, EffectiveTimeout, Run, Next;
    OneMove(s, i, true, 5);
    PatientStep(s, i);
    var s1 := Next(s, Move(i, true));
    OneMove(s1, i, true, 4);
    PatientStep(s1, i);
    var s2 := Next(s1, Move(i, true));
    OneMove(s2, i, true, 3);
    PatientStep(s2, i);
    FromTimeout(Next(s2, Move(i, true)), i);
  }
}
