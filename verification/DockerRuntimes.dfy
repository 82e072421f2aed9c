/** EgressSidecar and DockerRuntime as objects. Every method is the operation of DockerLedger that bears
  * its name, and says what it does to the resources that are live. */
module DockerRuntimes {
  import opened Strings
  import opened DockerLedger
  import opened DockerTeardown
  import DockerFleet

  /** The fields hold different live resources, and a runtime without a container has no sidecar. */
  ghost predicate Owns(d: Daemon, r: Runtime) {
    Good(d) && Held(r) <= d.live && Separate(r) && (r.container.None? ==> Vacant(r))
  }

  /** Nothing was lost and nothing of others was touched: what is live is what was live and not held,
    * and what the fields hold now. */
  ghost predicate Accounted(d: Daemon, r: Runtime, d': Daemon, r': Runtime) {
    d'.live == (d.live - Held(r)) + Held(r')
  }

  lemma CreatePromise(d: Daemon, r: Runtime, c: Config)
    requires Owns(d, r)
    ensures var (d', r', outcome) := DockerLedger.Create(d, r, c);
      && Owns(d', r') && (Accounted(d, r, d', r') <==> DockerFleet.CreateAccounts(d.calls, r, c))
      && (outcome.Running? ==> r'.container.Some? && r'.workspace.Some?) && (outcome.CleanedUp? ==> r' == EMPTY)
  {
    hide DockerLedger.Create, DockerFleet.CreateAccounts, RemovalsWork, Vacant, Separate;
    CreateLosesExactly(d, r, c);
    DockerFleet.CreateIsCarefulExactly(d, r, c);
  }

  /** What `_boot` promises for a workspace and an image of its own, on fields without container and
    * sidecar: everything is accounted for; a handled error leaves nothing; an error passes exactly in
    * the given cases, and then workspace and image stay in their fields. */
  ghost predicate BootKept(d: Daemon, r: Runtime, workspace: Id, image: Option<Id>, c: Config,
                           d': Daemon, r': Runtime, outcome: Outcome) {
    var own := {workspace} + One(image);
    Good(d) && Vacant(r) && own <= d.live && workspace !in One(image) ==>
      && Owns(d', r') && d'.live == (d.live - own) + Held(r')
      && (outcome.Running? ==> r'.container.Some? && r'.workspace == Some(workspace) && r'.ownsImage == image)
      && (outcome.CleanedUp? ==> r' == EMPTY)
      && (outcome.Escaped? <==> BootEscapes(d.calls, c)) && (outcome.Escaped? ==> Held(r') == own)
  }

  lemma BootPromise(d: Daemon, r: Runtime, workspace: Id, image: Option<Id>, c: Config)
    ensures var (d', r', outcome) := DockerLedger.Boot(d, r, workspace, image, c);
      BootKept(d, r, workspace, image, c, d', r', outcome)
  {
    assert Good(d) ==> NoHostErrors(d);
    hide DockerLedger.Boot, BootEscapes, RemovalsWork, NoHostErrors, Vacant;
    if Good(d) && Vacant(r) && {workspace} + One(image) <= d.live && workspace !in One(image) {
      BootKeepsLedger(d, r, workspace, image, c);
      BootSeparates(d, r, workspace, image, c);
      BootEscapesExactly(d, r, workspace, image, c);
    }
  }

  lemma ForkPromise(d: Daemon, r: Runtime, c: Config)
    requires Good(d)
    ensures var (d', child, outcome) := DockerLedger.Fork(d, r, c);
      && Good(d') && (child.Some? <==> outcome.Running?)
      && (child.Some? ==> Owns(d', child.value) && d'.live == d.live + Held(child.value) && Held(child.value) !! d.live)
      && (child.None? ==> (d'.live == d.live <==> !ForkLoses(d.calls, r, c)))
  {
    hide DockerLedger.Fork, ForkLoses, RemovalsWork;
    ForkKeepsLedger(d, r, c);
    ForkLosesExactly(d, r, c);
  }

  lemma TearDownPromise(d: Daemon, r: Runtime, lenient: bool)
    ensures var (d', cut) := TearDown(d, r, lenient);
      && (Good(d) ==> Good(d') && d'.live == d.live - Held(r) && !cut)
      && (Separate(r) && Held(r) <= d.live ==> (d'.live !! Held(r) <==> AllFine(d.removals, Removals(r))))
  {
    hide TearDown, AllFine, Removals, Held, Separate;
    if Good(d) {
      TearDownReleasesHeld(d, r, lenient);
    }
    if Separate(r) && Held(r) <= d.live {
      TearDownLeavesNothingExactly(d, r, lenient);
    }
  }

  /** The daemon and the host, as the calls of this process see them. */
  class Engine {
    var state: Daemon

    constructor (state: Daemon)
      ensures this.state == state
    {
      this.state := state;
    }

    method Call() returns (fault: Fault)
      modifies this
      ensures (state, fault) == DockerLedger.Call(old(state))
    {
      var (next, f) := DockerLedger.Call(state);
      state, fault := next, f;
    }

    method Acquire() returns (made: Result<Id, Fault>)
      modifies this
      ensures (state, made) == DockerLedger.Acquire(old(state))
    {
      var (next, m) := DockerLedger.Acquire(state);
      state, made := next, m;
    }

    method Release(id: Id) returns (fault: Fault)
      modifies this
      ensures (state, fault) == DockerLedger.Release(old(state), id)
    {
      var (next, f) := DockerLedger.Release(state, id);
      state, fault := next, f;
    }

    /** `network.reload()`, the first call of a network's removal. */
    method Reload() returns (fault: Fault)
      modifies this
      ensures fault == First(old(state).removals) && state == old(state).(removals := Rest(old(state).removals))
    {
      fault := First(state.removals);
      state := state.(removals := Rest(state.removals));
    }
  }

  class EgressSidecar {
    var network: Option<Id>
    var proxy: Option<Id>

    ghost function View(): Sidecar
      reads this
    {
      Sidecar(network, proxy)
    }

    constructor ()
      ensures View() == IDLE
    {
      network, proxy := None, None;
    }

    method Start(e: Engine) returns (raised: Option<Raise>)
      requires View() == IDLE
      modifies this, e
      ensures (e.state, View(), raised) == DockerLedger.Start(old(e.state))
      ensures old(Good(e.state)) ==>
        && Good(e.state) && e.state.live == old(e.state.live) + SidecarHeld(Some(View()))
        && (raised == Some(Unavailable) <==> First(old(e.state.calls)) == Fine && StartFails(Rest(old(e.state.calls))))
        && (raised == Some(Unavailable) ==> View() == IDLE)
    {
      if Good(e.state) {
        StartKeepsLedger(e.state);
        StartFailsExactly(e.state);
      }
      hide Good, StartFails, SidecarHeld;
      var image := e.Call();
      if image != Fine {
        return Some(DaemonOrHost);
      }
      var madeNetwork := e.Acquire();
      if madeNetwork.Err? {
        raised := Abort(e, madeNetwork.error);
        return;
      }
      network := Some(madeNetwork.value);
      var madeProxy := e.Acquire();
      if madeProxy.Err? {
        raised := Abort(e, madeProxy.error);
        return;
      }
      proxy := Some(madeProxy.value);
      var connected := e.Call();
      if connected != Fine {
        raised := Abort(e, connected);
        return;
      }
      return None;
    }

    method Abort(e: Engine, fault: Fault) returns (raised: Option<Raise>)
      modifies this, e
      ensures (e.state, View(), raised) == DockerLedger.Abort(old(e.state), old(View()), fault)
    {
      if fault == Os {
        return Some(DaemonOrHost);
      }
      var cut := Destroy(e);
      return Some(if cut then DaemonOrHost else Unavailable);
    }

    method Destroy(e: Engine) returns (cut: bool)
      modifies this, e
      ensures (e.state, cut) == SidecarDestroy(old(e.state), old(View())) && View() == IDLE
      ensures old(Good(e.state)) ==> Good(e.state) && e.state.live == old(e.state.live) - old(SidecarHeld(Some(View())))
    {
      if Good(e.state) {
        SidecarDestroyWorks(e.state, View());
      }
      hide Good, SidecarHeld;
      var heldProxy, heldNetwork := proxy, network;
      proxy, network := None, None;
      if heldProxy.Some? {
        var fault := e.Release(heldProxy.value);
        if fault == Os {
          return true;
        }
      }
      if heldNetwork.Some? {
        var reload := e.Reload();
        if reload != Fine {
          return reload == Os;
        }
        var fault := e.Release(heldNetwork.value);
        return fault == Os;
      }
      return false;
    }
  }

  class DockerRuntime {
    var container: Option<Id>
    var workspace: Option<Id>
    var egress: EgressSidecar?
    var ownsImage: Option<Id>

    ghost function View(): Runtime
      reads this, egress
    {
      Runtime(container, workspace, if egress == null then None else Some(egress.View()), ownsImage)
    }

    /** Between calls, while removals work. */
    ghost predicate Valid(e: Engine)
      reads this, egress, e
    {
      Owns(e.state, View())
    }

    constructor ()
      ensures View() == EMPTY && egress == null
    {
      container, workspace, egress, ownsImage := None, None, null, None;
    }

    method Create(e: Engine, c: Config) returns (outcome: Outcome)
      modifies this, e, egress
      ensures (e.state, View(), outcome) == DockerLedger.Create(old(e.state), old(View()), c)
      ensures egress == null || egress == old(egress) || fresh(egress)
      ensures old(Valid(e)) ==>
        && Valid(e) && (outcome.CleanedUp? ==> View() == EMPTY)
        && (outcome.Running? ==> container.Some? && workspace.Some?)
        && (Accounted(old(e.state), old(View()), e.state, View())
            <==> DockerFleet.CreateAccounts(old(e.state.calls), old(View()), c))
    {
      if Valid(e) {
        CreatePromise(e.state, View(), c);
      }
      hide Owns, Accounted, DockerFleet.CreateAccounts, DockerLedger.Boot, Prepare;
      if container.Some? || !c.imageAllowed {
        return Refused;
      }
      var prepared := PrepareWorkspace(e, c);
      if prepared.Err? {
        return Escaped;
      }
      outcome := Boot(e, prepared.value, None, c);
    }

    static method PrepareWorkspace(e: Engine, c: Config) returns (r: Result<Id, Fault>)
      modifies e
      ensures (e.state, r) == Prepare(old(e.state), c)
      ensures old(Good(e.state)) ==> Good(e.state)
      ensures old(Good(e.state)) ==>
        e.state.live == old(e.state.live) + if First(old(e.state.calls)) == Fine then {old(e.state.next)} else {}
    {
      if Good(e.state) {
        PrepareKeepsLedger(e.state, c);
      }
      var made := e.Acquire();
      if made.Err? {
        return made;
      }
      var chmod := e.Call();
      if chmod != Fine {
        return Err(chmod);
      }
      if c.nestedWorkdir {
        var nested := e.Call();
        if nested != Fine {
          return Err(nested);
        }
      }
      return made;
    }

    method Boot(e: Engine, prepared: Id, image: Option<Id>, c: Config) returns (outcome: Outcome)
      modifies this, e, egress
      ensures (e.state, View(), outcome) == DockerLedger.Boot(old(e.state), old(View()), prepared, image, c)
      ensures egress == null || egress == old(egress) || fresh(egress)
      ensures BootKept(old(e.state), old(View()), prepared, image, c, e.state, View(), outcome)
    {
      BootPromise(e.state, View(), prepared, image, c);
      hide BootKept, DockerLedger.Attempt, TearDown;
      workspace, ownsImage := Some(prepared), image;
      if c.allowlist && c.cidrs {
        return Escaped;
      }
      var raised := Attempt(e, c);
      match raised
      case None => return Running;
      case Some(Unavailable) => return Escaped;
      case Some(_) =>
        var cut := CleanupFailedCreate(e);
        return if cut then Escaped else CleanedUp;
    }

    /** The guarded block of `_boot`. */
    method Attempt(e: Engine, c: Config) returns (raised: Option<Raise>)
      modifies this, e
      ensures (e.state, View(), raised) == DockerLedger.Attempt(old(e.state), old(View()), c)
      ensures egress == old(egress) || fresh(egress)
    {
      var ping := e.Call();
      if ping != Fine {
        return Some(DaemonOrHost);
      }
      if c.rootlessRefused {
        return Some(Unsupported);
      }
      var image := e.Call();
      if image != Fine {
        return Some(DaemonOrHost);
      }
      if c.allowlist {
        if !c.domains {
          return Some(Unsupported);
        }
        egress := new EgressSidecar();
        raised := egress.Start(e);
        if raised.Some? {
          return;
        }
      }
      var made := e.Acquire();
      if made.Err? {
        return Some(DaemonOrHost);
      }
      container := Some(made.value);
      var started := e.Call();
      return if started == Fine then None else Some(DaemonOrHost);
    }

    method CleanupFailedCreate(e: Engine) returns (cut: bool)
      modifies this, e, egress
      ensures (e.state, cut) == TearDown(old(e.state), old(View()), true) && View() == EMPTY && egress == null
      ensures old(Good(e.state)) ==> Good(e.state) && e.state.live == old(e.state.live) - old(Held(View())) && !cut
      ensures old(Separate(View()) && Held(View()) <= e.state.live) ==>
        (e.state.live !! old(Held(View())) <==> old(AllFine(e.state.removals, Removals(View()))))
    {
      TearDownPromise(e.state, View(), true);
      hide Good, Held, Separate, AllFine, Removals;
      var heldContainer, heldWorkspace, heldEgress, heldImage := container, workspace, egress, ownsImage;
      container, workspace, egress, ownsImage := None, None, null, None;
      if heldContainer.Some? {
        var fault := e.Release(heldContainer.value);
        if fault == Os {
          return true;
        }
      }
      cut := ReleaseRest(e, heldWorkspace, heldEgress, heldImage);
    }

    method Destroy(e: Engine) returns (cut: bool)
      modifies this, e, egress
      ensures (e.state, View(), cut) == DockerLedger.Destroy(old(e.state), old(View())) && egress == null
      ensures old(Good(e.state)) ==> Good(e.state) && e.state.live == old(e.state.live) - old(Held(View())) && !cut
      ensures old(Separate(View()) && Held(View()) <= e.state.live) ==>
        (e.state.live !! old(Held(View())) <==> old(AllFine(e.state.removals, Removals(View()))))
    {
      TearDownPromise(e.state, View(), false);
      hide Good, Held, Separate, AllFine, Removals;
      var heldContainer, heldWorkspace, heldEgress, heldImage := container, workspace, egress, ownsImage;
      container, workspace, egress, ownsImage := None, None, null, None;
      if heldContainer.Some? {
        var fault := e.Release(heldContainer.value);
        if fault == Os || fault == Docker {
          return true;
        }
      }
      cut := ReleaseRest(e, heldWorkspace, heldEgress, heldImage);
    }

    /** What both do after the container: workspace, sidecar, committed image. */
    static method ReleaseRest(e: Engine, heldWorkspace: Option<Id>, heldEgress: EgressSidecar?, heldImage: Option<Id>)
      returns (cut: bool)
      modifies e, heldEgress
      ensures var sidecar := if heldEgress == null then None else Some(old(heldEgress.View()));
        (e.state, cut) == TearDown(old(e.state), Runtime(None, heldWorkspace, sidecar, heldImage), true)
    {
      if heldWorkspace.Some? {
        var _ := e.Release(heldWorkspace.value);
      }
      if heldEgress != null {
        var escaped := heldEgress.Destroy(e);
        if escaped {
          return true;
        }
      }
      if heldImage.Some? {
        var fault := e.Release(heldImage.value);
        return fault == Os;
      }
      return false;
    }

    /** The parent is only read. */
    method Fork(e: Engine, c: Config) returns (child: DockerRuntime?, outcome: Outcome)
      modifies e
      ensures child == null || fresh(child)
      ensures var branch := if child == null then None else Some(child.View());
        (e.state, branch, outcome) == DockerLedger.Fork(old(e.state), old(View()), c)
      ensures child == null || child.egress == null || fresh(child.egress)
      ensures child != null <==> outcome.Running?
      ensures old(Good(e.state)) ==>
        && Good(e.state) && (child != null ==> child.Valid(e) && Held(child.View()) !! old(e.state.live))
        && (child != null ==> e.state.live == old(e.state.live) + Held(child.View()))
        && (child == null ==> (e.state.live == old(e.state.live) <==> !ForkLoses(old(e.state.calls), old(View()), c)))
    {
      if Good(e.state) {
        ForkPromise(e.state, View(), c);
      }
      hide Owns, Good, Held, ForkLoses, DockerLedger.Boot;
      child := null;
      if container.None? || workspace.None? {
        return null, Refused;
      }
      var copy := e.Acquire();
      if copy.Err? {
        return null, Escaped;
      }
      var copied := e.Call();
      if copied != Fine {
        var _ := e.Release(copy.value);
        return null, CleanedUp;
      }
      var image: Option<Id> := None;
      if !c.readOnlyRoot {
        var committed := e.Acquire();
        if committed.Err? {
          var _ := e.Release(copy.value);
          return null, CleanedUp;
        }
        image := Some(committed.value);
      }
      var branch := new DockerRuntime();
      outcome := branch.Boot(e, copy.value, image, c);
      child := if outcome == Running then branch else null;
    }
  }
}
