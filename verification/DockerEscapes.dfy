/** Which errors pass the handlers of `_boot` when the removals of its clean-up can fail as well. */
module DockerEscapes {
  import opened Strings
  import opened DockerLedger
  import opened DockerRemovals

  // ---------------------------------------------------------------- where `_boot` stops

  /** Where the guarded block of `_boot` stops, from its configuration and its calls: not at all; with an
    * error of its own, holding a container or not and these parts of a sidecar; or while the sidecar
    * with these parts destroys itself. */
  datatype Stop = Runs | Fails(container: bool, sidecar: seq<Part>) | Aborts(sidecar: seq<Part>)

  function SidecarStop(fault: Fault, sidecar: seq<Part>): Stop {
    if fault == Os then Fails(false, sidecar) else Aborts(sidecar)
  }

  /** The sidecar's own stop, once the proxy image is there. */
  function StartStop(calls: seq<Fault>): Stop {
    var network := Rest(calls);
    var proxy, connect := Rest(network), Rest(Rest(network));
    if First(calls) != Fine then Fails(false, [])
    else if First(network) != Fine then SidecarStop(First(network), [])
    else if First(proxy) != Fine then SidecarStop(First(proxy), [NetworkPart])
    else if First(connect) != Fine then SidecarStop(First(connect), [ProxyPart, NetworkPart])
    else Runs
  }

  function ContainerStop(calls: seq<Fault>, sidecar: seq<Part>): Stop {
    if First(calls) != Fine then Fails(false, sidecar)
    else if First(Rest(calls)) != Fine then Fails(true, sidecar)
    else Runs
  }

  function StopAt(calls: seq<Fault>, c: Config): Stop {
    var afterImage := Rest(Rest(calls));
    if First(calls) != Fine || c.rootlessRefused || First(Rest(calls)) != Fine then Fails(false, [])
    else if !c.allowlist then ContainerStop(afterImage, [])
    else if !c.domains then Fails(false, [])
    else if StartStop(afterImage) != Runs then StartStop(afterImage)
    else ContainerStop(Rest(Rest(Rest(Rest(afterImage)))), [ProxyPart, NetworkPart])
  }

  /** The guarded block stops where its calls say. */
  ghost predicate StoppedAt(d: Daemon, attempted: (Daemon, Runtime, Option<Raise>), stop: Stop) {
    var (d', r', raised) := attempted;
    match stop
    case Runs => raised == None
    case Fails(container, sidecar) =>
      && (raised == Some(DaemonOrHost) || raised == Some(Unsupported)) && d'.removals == d.removals
      && (r'.container.Some? <==> container) && SidecarParts(Inner(r')) == sidecar
    case Aborts(sidecar) =>
      var (removals, rest) := PlayedAll(d.removals, sidecar, true);
      && raised == Some(if Cut(removals) then DaemonOrHost else Unavailable) && d'.removals == rest
      && r'.container.None? && SidecarParts(Inner(r')) == []
  }

  lemma AbortStops(d: Daemon, s: Sidecar, fault: Fault)
    requires fault != Fine
    ensures var (d', s', raised) := Abort(d, s, fault);
      match SidecarStop(fault, SidecarParts(s))
      case Fails(container, sidecar) =>
        !container && raised == Some(DaemonOrHost) && d' == d && SidecarParts(s') == sidecar
      case Aborts(sidecar) =>
        var (removals, rest) := PlayedAll(d.removals, sidecar, true);
        raised == Some(if Cut(removals) then DaemonOrHost else Unavailable) && d'.removals == rest && s' == IDLE
      case Runs => false
  {
    hide SidecarDestroy, PlayedAll;
    SidecarClears(d, s, true);
  }

  lemma StartStops(d: Daemon)
    ensures var (d', s, raised) := Start(d);
      match StartStop(d.calls)
      case Runs =>
        raised == None && SidecarParts(s) == [ProxyPart, NetworkPart]
        && d'.removals == d.removals && d'.calls == Rest(Rest(Rest(Rest(d.calls))))
      case Fails(container, sidecar) =>
        !container && raised == Some(DaemonOrHost) && d'.removals == d.removals && SidecarParts(s) == sidecar
      case Aborts(sidecar) =>
        var (removals, rest) := PlayedAll(d.removals, sidecar, true);
        raised == Some(if Cut(removals) then DaemonOrHost else Unavailable) && d'.removals == rest
        && SidecarParts(s) == []
  {
    hide Abort, PlayedAll;
    var (d1, image) := Call(d);
    assert SidecarParts(IDLE) == [];
    if image == Fine {
      var (d2, network) := Acquire(d1);
      if network.Err? {
        AbortStops(d2, IDLE, network.error);
      } else {
        var s2 := IDLE.(network := Some(network.value));
        assert SidecarParts(s2) == [NetworkPart];
        var (d3, proxy) := Acquire(d2);
        if proxy.Err? {
          AbortStops(d3, s2, proxy.error);
        } else {
          var s3 := s2.(proxy := Some(proxy.value));
          assert SidecarParts(s3) == [ProxyPart, NetworkPart];
          var (d4, connected) := Call(d3);
          if connected != Fine {
            AbortStops(d4, s3, connected);
          }
        }
      }
    }
  }

  lemma AttemptStops(d: Daemon, r: Runtime, c: Config)
    requires Vacant(r)
    ensures StoppedAt(d, Attempt(d, r, c), StopAt(d.calls, c))
  {
    hide Start, StartStop, WithContainer, PlayedAll, SidecarParts, Vacant;
    assert SidecarParts(Inner(r)) == [] && r.container.None? by { VacantParts(r); }
    var d2 := Call(Call(d).0).0;
    StartStops(d2);
    var (d3, r3, raised) := WithEgress(d2, r, c);
    ContainerStops(d3, r3);
  }

  lemma ContainerStops(d: Daemon, r: Runtime)
    ensures var (d', r', raised) := WithContainer(d, r);
      match ContainerStop(d.calls, SidecarParts(Inner(r)))
      case Runs => raised == None
      case Fails(container, sidecar) =>
        raised == Some(DaemonOrHost) && d'.removals == d.removals && Inner(r') == Inner(r)
        && sidecar == SidecarParts(Inner(r)) && (container ==> r'.container.Some?) && (!container ==> r' == r)
      case Aborts(_) => false
  {
    hide SidecarParts;
  }

  lemma VacantParts(r: Runtime)
    requires Vacant(r)
    ensures SidecarParts(Inner(r)) == [] && r.container.None?
  {
    assert One(Inner(r).proxy) <= SidecarHeld(r.egress) && One(Inner(r).network) <= SidecarHeld(r.egress);
  }

  // ---------------------------------------------------------------- which errors pass

  /** What the clean-up finds after the guarded block stopped. */
  function PartsAt(stop: Stop, image: bool): seq<Part> {
    var last := if image then [ImagePart] else [];
    match stop
    case Fails(container, sidecar) => (if container then [ContainerPart] else []) + ([WorkspacePart] + (sidecar + last))
    case _ => [WorkspacePart] + last
  }

  /** An error passes `_boot`: the allowlist holds address ranges; or the block fails and an OSError comes
    * through the clean-up; or the sidecar aborts, and either destroys itself without one, or one comes
    * through that and then another through the clean-up of what is left. */
  predicate BootLetsPass(calls: seq<Fault>, removals: seq<Fault>, c: Config, image: bool) {
    var stop := StopAt(calls, c);
    || (c.allowlist && c.cidrs)
    || match stop
       case Runs => false
       case Fails(_, _) => Cut(PlayedAll(removals, PartsAt(stop, image), true).0)
       case Aborts(sidecar) =>
         var (first, rest) := PlayedAll(removals, sidecar, true);
         !Cut(first) || Cut(PlayedAll(rest, PartsAt(stop, image), true).0)
  }

  lemma PartsFound(d: Daemon, attempted: (Daemon, Runtime, Option<Raise>), stop: Stop, image: Option<Id>)
    requires StoppedAt(d, attempted, stop) && !stop.Runs?
    requires attempted.1.workspace.Some? && attempted.1.ownsImage == image
    ensures Parts(attempted.1) == PartsAt(stop, image.Some?)
  {
    hide PlayedAll, SidecarParts;
    assert [] + ([WorkspacePart] + ([] + PartIf(image, ImagePart))) == [WorkspacePart] + PartIf(image, ImagePart);
  }

  /** Which errors pass the handlers of `_boot`, for every configuration, every way its calls end and
    * every way the removals of its clean-up end. */
  lemma BootLetsPassExactly(d: Daemon, r: Runtime, workspace: Id, image: Option<Id>, c: Config)
    requires Vacant(r)
    ensures Boot(d, r, workspace, image, c).2 == Escaped <==> BootLetsPass(d.calls, d.removals, c, image.Some?)
  {
    var r1 := r.(workspace := Some(workspace), ownsImage := image);
    AttemptStops(d, r1, c);
    AttemptFields(d, r1, c);
    var attempted := Attempt(d, r1, c);
    hide Attempt, TearDown, StopAt, PlayedAll, Vacant, Parts;
    var stop := StopAt(d.calls, c);
    if !stop.Runs? {
      PartsFound(d, attempted, stop, image);
      TearDownClears(attempted.0, attempted.1, true);
    }
    hide PartsAt;
  }

  lemma AttemptFields(d: Daemon, r: Runtime, c: Config)
    ensures var r' := Attempt(d, r, c).1;
      r'.workspace == r.workspace && r'.ownsImage == r.ownsImage
  {
    hide Start;
  }

  /** Which errors pass `fork`: that of its first directory, and those of the child's boot. */
  lemma ForkLetsPassExactly(d: Daemon, r: Runtime, c: Config)
    ensures var afterCopy := Rest(Rest(d.calls));
      var boot := if c.readOnlyRoot then afterCopy else Rest(afterCopy);
      Fork(d, r, c).2 == Escaped
      <==> && r.container.Some? && r.workspace.Some?
           && (|| First(d.calls) != Fine
               || (&& First(Rest(d.calls)) == Fine && (c.readOnlyRoot || First(afterCopy) == Fine)
                   && BootLetsPass(boot, d.removals, c, !c.readOnlyRoot)))
  {
    hide Boot, BootLetsPass;
    if r.container.Some? && r.workspace.Some? && First(d.calls) == Fine && First(Rest(d.calls)) == Fine {
      var copy := Acquire(d).1;
      var d2 := Call(Acquire(d).0).0;
      var (d3, image) := if c.readOnlyRoot then (d2, Ok(None)) else Commit(d2);
      if image.Ok? {
        BootLetsPassExactly(d3, EMPTY, copy.value, image.value, c);
      }
    }
  }

  const PLAIN := Config(true, false, false, false, false, false, true)

  /** The daemon vanishes between creating and starting the container, without any allowlist: both the
    * start and the removal raise OSError, and container and workspace stay live behind empty fields,
    * although no error of the calls alone would have passed. */
  lemma VanishedDaemonPasses()
    ensures var d := Daemon({0}, 1, [Fine, Fine, Fine, Os], [Os]);
      var (d', r', outcome) := Boot(d, EMPTY, 0, None, PLAIN);
      outcome == Escaped && !BootEscapes(d.calls, PLAIN) && r' == EMPTY && d'.live == {0, 1}
  {
  }
}
