/** Who owns what of a Docker sandbox: workspace directory, container, egress network, proxy and
  * committed image, through every failure of every call that creates or removes one. */
module DockerLedger {
  import opened Strings

  type Id = nat

  /** How one call ends: as it should, with APIError, with another DockerException, with OSError. */
  datatype Fault = Fine | Api | Docker | Os

  /** Everything that exists on the host; ids are never used twice. `calls` says how the calls to come
    * end, `removals` how the removals to come end. */
  datatype Daemon = Daemon(live: set<Id>, next: Id, calls: seq<Fault>, removals: seq<Fault>)

  function First(faults: seq<Fault>): Fault {
    if faults == [] then Fine else faults[0]
  }

  function Rest(faults: seq<Fault>): seq<Fault> {
    if faults == [] then [] else faults[1..]
  }

  function Call(d: Daemon): (Daemon, Fault) {
    (d.(calls := Rest(d.calls)), First(d.calls))
  }

  function Acquire(d: Daemon): (Daemon, Result<Id, Fault>) {
    var (d1, fault) := Call(d);
    if fault == Fine then (d1.(live := d1.live + {d1.next}, next := d1.next + 1), Ok(d1.next)) else (d1, Err(fault))
  }

  function Release(d: Daemon, id: Id): (Daemon, Fault) {
    var fault := First(d.removals);
    (d.(live := if fault == Fine then d.live - {id} else d.live, removals := Rest(d.removals)), fault)
  }

  function ReleaseIf(d: Daemon, id: Option<Id>): (Daemon, Fault) {
    if id.Some? then Release(d, id.value) else (d, Fine)
  }

  /** The fields of EgressSidecar and of DockerRuntime that own something. */
  datatype Sidecar = Sidecar(network: Option<Id>, proxy: Option<Id>)
  datatype Runtime = Runtime(container: Option<Id>, workspace: Option<Id>, egress: Option<Sidecar>,
                             ownsImage: Option<Id>)

  const IDLE := Sidecar(None, None)
  const EMPTY := Runtime(None, None, None, None)

  function One(id: Option<Id>): set<Id> {
    if id.Some? then {id.value} else {}
  }

  function SidecarHeld(egress: Option<Sidecar>): set<Id> {
    if egress.Some? then One(egress.value.network) + One(egress.value.proxy) else {}
  }

  /** What the fields hold. */
  function Held(r: Runtime): set<Id> {
    One(r.container) + One(r.workspace) + SidecarHeld(r.egress) + One(r.ownsImage)
  }

  /** The fields hold different resources. */
  ghost predicate Separate(r: Runtime) {
    var sidecar := Inner(r);
    && One(r.container) !! One(r.workspace) !! One(sidecar.proxy) !! One(sidecar.network) !! One(r.ownsImage)
  }

  function Inner(r: Runtime): Sidecar {
    if r.egress.Some? then r.egress.value else IDLE
  }

  function Listed(id: Option<Id>): seq<Id> {
    if id.Some? then [id.value] else []
  }

  /** What `destroy` and the clean-up remove, in their order: container, workspace, proxy, network, image. */
  function Order(r: Runtime): seq<Id> {
    Listed(r.container) + Listed(r.workspace) + Listed(Inner(r).proxy) + Listed(Inner(r).network) + Listed(r.ownsImage)
  }

  /** What the configuration and the daemon's answers decide: `rootlessRefused` says that a rootless
    * daemon is required and this one is not. */
  datatype Config = Config(imageAllowed: bool, nestedWorkdir: bool, allowlist: bool, domains: bool, cidrs: bool,
                           rootlessRefused: bool, readOnlyRoot: bool)

  /** What a call raises: an error of the daemon or the host, UnsupportedCapabilityError, or
    * RuntimeNotAvailableError. */
  datatype Raise = DaemonOrHost | Unsupported | Unavailable

  // ---------------------------------------------------------------- the egress sidecar

  /** `EgressSidecar.destroy`; true when an OSError cuts it short. */
  function SidecarDestroy(d: Daemon, s: Sidecar): (Daemon, bool) {
    var (d1, proxyFault) := ReleaseIf(d, s.proxy);
    if proxyFault == Os then (d1, true)
    else if s.network.None? then (d1, false)
    else
      var reload := First(d1.removals);
      var d2 := d1.(removals := Rest(d1.removals));
      if reload != Fine then (d2, reload == Os)
      else
        var (d3, networkFault) := Release(d2, s.network.value);
        (d3, networkFault == Os)
  }

  /** The exception handler of `EgressSidecar.start`: it catches DockerException only. */
  function Abort(d: Daemon, s: Sidecar, fault: Fault): (Daemon, Sidecar, Option<Raise>) {
    if fault == Os then (d, s, Some(DaemonOrHost))
    else
      var (d', escaped) := SidecarDestroy(d, s);
      (d', IDLE, Some(if escaped then DaemonOrHost else Unavailable))
  }

  /** `EgressSidecar.start`: the image, then network, proxy, and the connection between them. */
  function Start(d: Daemon): (Daemon, Sidecar, Option<Raise>) {
    var (d1, image) := Call(d);
    if image != Fine then (d1, IDLE, Some(DaemonOrHost))
    else
      var (d2, network) := Acquire(d1);
      if network.Err? then Abort(d2, IDLE, network.error)
      else
        var s2 := IDLE.(network := Some(network.value));
        var (d3, proxy) := Acquire(d2);
        if proxy.Err? then Abort(d3, s2, proxy.error)
        else
          var s3 := s2.(proxy := Some(proxy.value));
          var (d4, connected) := Call(d3);
          if connected != Fine then Abort(d4, s3, connected) else (d4, s3, None)
  }

  // ---------------------------------------------------------------- `_boot`

  /** The egress part of the guarded block of `_boot`. */
  function WithEgress(d: Daemon, r: Runtime, c: Config): (Daemon, Runtime, Option<Raise>) {
    if !c.allowlist then (d, r, None)
    else if !c.domains then (d, r, Some(Unsupported))
    else
      var (d1, sidecar, raised) := Start(d);
      (d1, r.(egress := Some(sidecar)), raised)
  }

  /** The container part: create it, then start it. */
  function WithContainer(d: Daemon, r: Runtime): (Daemon, Runtime, Option<Raise>) {
    var (d1, container) := Acquire(d);
    if container.Err? then (d1, r, Some(DaemonOrHost))
    else
      var (d2, started) := Call(d1);
      (d2, r.(container := Some(container.value)), if started == Fine then None else Some(DaemonOrHost))
  }

  /** The guarded block of `_boot`: daemon, rootless check, image, egress, container. */
  function Attempt(d: Daemon, r: Runtime, c: Config): (Daemon, Runtime, Option<Raise>) {
    var (d1, ping) := Call(d);
    if ping != Fine then (d1, r, Some(DaemonOrHost))
    else if c.rootlessRefused then (d1, r, Some(Unsupported))
    else
      var (d2, image) := Call(d1);
      if image != Fine then (d2, r, Some(DaemonOrHost))
      else
        var (d3, r3, raised) := WithEgress(d2, r, c);
        if raised.Some? then (d3, r3, raised) else WithContainer(d3, r3)
  }

  /** `destroy` and `_cleanup_failed_create`, after the fields were cleared: they differ in which
    * failure of the container's removal they let pass. True when an exception cuts it short. */
  function TearDown(d: Daemon, r: Runtime, lenient: bool): (Daemon, bool) {
    var (d1, containerFault) := ReleaseIf(d, r.container);
    if containerFault == Os || (containerFault == Docker && !lenient) then (d1, true)
    else
      var d2 := ReleaseIf(d1, r.workspace).0;
      var (d3, escaped) := if r.egress.Some? then SidecarDestroy(d2, r.egress.value) else (d2, false);
      if escaped then (d3, true)
      else
        var (d4, imageFault) := ReleaseIf(d3, r.ownsImage);
        (d4, imageFault == Os)
  }

  /** How an operation ends: it works, it refuses before it takes anything, its own handlers clean up
    * and report, or an exception passes them by. */
  datatype Outcome = Running | Refused | CleanedUp | Escaped

  /** `_boot`, over a workspace that was prepared and an image that was committed. */
  function Boot(d: Daemon, r: Runtime, workspace: Id, image: Option<Id>, c: Config): (Daemon, Runtime, Outcome) {
    var r1 := r.(workspace := Some(workspace), ownsImage := image);
    if c.allowlist && c.cidrs then (d, r1, Escaped)
    else
      var (d2, r2, raised) := Attempt(d, r1, c);
      match raised
      case None => (d2, r2, Running)
      case Some(Unavailable) => (d2, r2, Escaped)
      case Some(_) =>
        var (d3, cut) := TearDown(d2, r2, true);
        (d3, EMPTY, if cut then Escaped else CleanedUp)
  }

  /** `_prepare_workspace`: only its first call makes something; a later failure is not cleaned up. */
  function Prepare(d: Daemon, c: Config): (Daemon, Result<Id, Fault>) {
    var (d1, made) := Acquire(d);
    if made.Err? then (d1, made)
    else
      var (d2, chmod) := Call(d1);
      if chmod != Fine then (d2, Err(chmod))
      else if !c.nestedWorkdir then (d2, made)
      else
        var (d3, nested) := Call(d2);
        if nested != Fine then (d3, Err(nested)) else (d3, made)
  }

  /** `create`. */
  function Create(d: Daemon, r: Runtime, c: Config): (Daemon, Runtime, Outcome) {
    if r.container.Some? || !c.imageAllowed then (d, r, Refused)
    else
      var (d1, workspace) := Prepare(d, c);
      if workspace.Err? then (d1, r, Escaped) else Boot(d1, r, workspace.value, None, c)
  }

  /** `destroy`. */
  function Destroy(d: Daemon, r: Runtime): (Daemon, Runtime, bool) {
    var (d1, cut) := TearDown(d, r, false);
    (d1, EMPTY, cut)
  }

  /** `fork`: the copy of the workspace, the committed image if the root is writable, and the boot of
    * the child. A child whose boot raises is never handed to anyone. */
  function Fork(d: Daemon, r: Runtime, c: Config): (Daemon, Option<Runtime>, Outcome) {
    if r.container.None? || r.workspace.None? then (d, None, Refused)
    else
      var (d1, copy) := Acquire(d);
      if copy.Err? then (d1, None, Escaped)
      else
        var (d2, copied) := Call(d1);
        if copied != Fine then (Release(d2, copy.value).0, None, CleanedUp)
        else
          var (d3, image) := if c.readOnlyRoot then (d2, Ok(None)) else Commit(d2);
          if image.Err? then (Release(d3, copy.value).0, None, CleanedUp)
          else
            var (d4, child, outcome) := Boot(d3, EMPTY, copy.value, image.value, c);
            (d4, if outcome == Running then Some(child) else None, outcome)
  }

  function Commit(d: Daemon): (Daemon, Result<Option<Id>, Fault>) {
    var (d1, image) := Acquire(d);
    (d1, if image.Ok? then Ok(Some(image.value)) else Err(image.error))
  }

  // ---------------------------------------------------------------- nothing is lost

  ghost predicate Counted(d: Daemon) {
    forall id :: id in d.live ==> id < d.next
  }

  /** Every removal to come works. */
  ghost predicate RemovalsWork(d: Daemon) {
    forall i :: 0 <= i < |d.removals| ==> d.removals[i] == Fine
  }

  ghost predicate Good(d: Daemon) {
    Counted(d) && RemovalsWork(d)
  }

  /** `d'` has everything that `d` has and the new resources `made`, and nothing else. */
  ghost predicate Grown(d: Daemon, d': Daemon, made: set<Id>) {
    && Good(d') && d.next <= d'.next && d'.live == d.live + made
    && made !! d.live && (forall id :: id in made ==> d.next <= id)
  }

  lemma ReleaseWorks(d: Daemon, id: Option<Id>)
    requires Good(d)
    ensures var (d', fault) := ReleaseIf(d, id);
      Good(d') && fault == Fine && d' == d.(live := d.live - One(id), removals := d'.removals)
  {
  }

  lemma SidecarDestroyWorks(d: Daemon, s: Sidecar)
    requires Good(d)
    ensures var (d', cut) := SidecarDestroy(d, s);
      Good(d') && !cut && d' == d.(live := d.live - SidecarHeld(Some(s)), removals := d'.removals)
  {
    ReleaseWorks(d, s.proxy);
    var d1 := ReleaseIf(d, s.proxy).0;
    if s.network.Some? {
      assert First(d1.removals) == Fine;
      ReleaseWorks(d1.(removals := Rest(d1.removals)), s.network);
    }
  }

  /** When the removals work, `destroy` and the clean-up remove exactly what the fields held. */
  lemma TearDownReleasesHeld(d: Daemon, r: Runtime, lenient: bool)
    requires Good(d)
    ensures var (d', cut) := TearDown(d, r, lenient);
      Good(d') && !cut && d' == d.(live := d.live - Held(r), removals := d'.removals)
  {
    hide Release, ReleaseIf, SidecarDestroy, Good;
    ReleaseWorks(d, r.container);
    var d1 := ReleaseIf(d, r.container).0;
    ReleaseWorks(d1, r.workspace);
    var d2 := ReleaseIf(d1, r.workspace).0;
    var d3 := if r.egress.Some? then SidecarDestroy(d2, r.egress.value).0 else d2;
    if r.egress.Some? {
      SidecarDestroyWorks(d2, r.egress.value);
    }
    ReleaseWorks(d3, r.ownsImage);
  }

  lemma AbortKeepsLedger(d0: Daemon, d: Daemon, s: Sidecar, fault: Fault)
    requires Grown(d0, d, SidecarHeld(Some(s))) && fault != Fine
    ensures var (d', s', raised) := Abort(d, s, fault);
      && Grown(d0, d', SidecarHeld(Some(s')))
      && raised.Some? && raised != Some(Unsupported) && (raised == Some(Unavailable) ==> s' == IDLE)
      && (s' == s || s' == IDLE)
  {
    hide SidecarDestroy;
    SidecarDestroyWorks(d, s);
  }

  /** The sidecar holds exactly what it made; after RuntimeNotAvailableError it holds nothing. */
  lemma StartKeepsLedger(d: Daemon)
    requires Good(d)
    ensures var (d', s, raised) := Start(d);
      && Grown(d, d', SidecarHeld(Some(s)))
      && (raised.None? ==> s.network.Some? && s.proxy.Some?)
      && (raised == Some(Unavailable) ==> s == IDLE) && raised != Some(Unsupported)
      && One(s.proxy) !! One(s.network)
  {
    hide Abort;
    var (d1, image) := Call(d);
    if image == Fine {
      var (d2, network) := Acquire(d1);
      if network.Err? {
        AbortKeepsLedger(d, d2, IDLE, network.error);
      } else {
        var s2 := IDLE.(network := Some(network.value));
        var (d3, proxy) := Acquire(d2);
        if proxy.Err? {
          AbortKeepsLedger(d, d3, s2, proxy.error);
        } else {
          var s3 := s2.(proxy := Some(proxy.value));
          var (d4, connected) := Call(d3);
          if connected != Fine {
            AbortKeepsLedger(d, d4, s3, connected);
          }
        }
      }
    }
  }

  // ---------------------------------------------------------------- booting

  lemma GrownTransitive(a: Daemon, b: Daemon, c: Daemon, held: set<Id>, held': set<Id>)
    requires Grown(a, b, held) && Grown(b, c, held')
    ensures Grown(a, c, held + held')
  {
  }

  lemma EgressKeepsLedger(d: Daemon, r: Runtime, c: Config)
    requires Good(d) && SidecarHeld(r.egress) == {}
    ensures var (d', r', raised) := WithEgress(d, r, c);
      && Grown(d, d', SidecarHeld(r'.egress)) && r' == r.(egress := r'.egress)
      && (raised.None? && c.allowlist ==>
            r'.egress.Some? && r'.egress.value.network.Some? && r'.egress.value.proxy.Some?)
      && (raised == Some(Unavailable) ==> SidecarHeld(r'.egress) == {} && c.allowlist)
      && One(Inner(r').proxy) !! One(Inner(r').network)
  {
    hide Start;
    StartKeepsLedger(d);
  }

  lemma ContainerKeepsLedger(d: Daemon, r: Runtime)
    requires Good(d) && r.container.None?
    ensures var (d', r', raised) := WithContainer(d, r);
      && Grown(d, d', One(r'.container)) && r' == r.(container := r'.container)
      && (raised.None? ==> r'.container.Some?) && raised != Some(Unavailable)
  {
  }

  /** What the guarded block adds to the fields, and that it adds it to nothing else. */
  lemma AttemptKeepsLedger(d: Daemon, r: Runtime, c: Config)
    requires Good(d) && r.container.None? && SidecarHeld(r.egress) == {}
    ensures var (d', r', raised) := Attempt(d, r, c);
      && Grown(d, d', One(r'.container) + SidecarHeld(r'.egress))
      && r' == r.(container := r'.container, egress := r'.egress)
      && (raised.None? ==> r'.container.Some?)
      && (raised.None? && c.allowlist ==>
            r'.egress.Some? && r'.egress.value.network.Some? && r'.egress.value.proxy.Some?)
      && (raised == Some(Unavailable) ==> r'.container.None? && SidecarHeld(r'.egress) == {} && c.allowlist)
      && One(Inner(r').proxy) !! One(Inner(r').network) && One(r'.container) !! SidecarHeld(r'.egress)
  {
    hide WithEgress, WithContainer, SidecarHeld, One;
    var (d1, ping) := Call(d);
    if ping == Fine && !c.rootlessRefused {
      var (d2, image) := Call(d1);
      if image == Fine {
        EgressKeepsLedger(d2, r, c);
        var (d3, r3, raised) := WithEgress(d2, r, c);
        ContainerKeepsLedger(d3, r3);
        NoContainer(r);
        if raised.None? {
          var (d4, r4, _) := WithContainer(d3, r3);
          GrownTransitive(d2, d3, d4, SidecarHeld(r3.egress), One(r4.container));
          assert One(r4.container) + SidecarHeld(r3.egress) == SidecarHeld(r3.egress) + One(r4.container);
        } else {
          assert One(r3.container) + SidecarHeld(r3.egress) == SidecarHeld(r3.egress);
        }
      } else {
        NoContainer(r);
      }
    } else {
      NoContainer(r);
    }
  }

  lemma NoContainer(r: Runtime)
    requires r.container.None? && SidecarHeld(r.egress) == {}
    ensures One(r.container) == {} && One(Inner(r).proxy) !! One(Inner(r).network)
  {
  }

  /** No container, network or proxy: a new runtime, and one whose boot raised. */
  ghost predicate Vacant(r: Runtime) {
    r.container.None? && SidecarHeld(r.egress) == {}
  }

  /** `_boot`, whatever goes wrong: what is live is what was live without the workspace and the image
    * it was given, and what the fields hold. After an error that its handlers catch the fields hold
    * nothing; after one that passes them they hold exactly the workspace and the image. */
  lemma BootKeepsLedger(d: Daemon, r: Runtime, workspace: Id, image: Option<Id>, c: Config)
    requires Good(d) && Vacant(r) && {workspace} + One(image) <= d.live
    ensures var (d', r', outcome) := Boot(d, r, workspace, image, c);
      var own := {workspace} + One(image);
      && Good(d') && d.next <= d'.next
      && d'.live == (d.live - own) + Held(r') && Held(r') !! (d.live - own) && outcome != Refused
      && (forall id :: id in Held(r') && id !in own ==> d.next <= id)
      && (outcome.Running? ==> r'.container.Some? && r'.workspace == Some(workspace) && r'.ownsImage == image)
      && (outcome.CleanedUp? ==> r' == EMPTY)
      && (outcome.Escaped? ==> Held(r') == own && c.allowlist) && (r'.container.None? ==> Vacant(r'))
  {
    hide Attempt, TearDown, RemovalsWork;
    var r1 := r.(workspace := Some(workspace), ownsImage := image);
    AttemptKeepsLedger(d, r1, c);
    var (d2, r2, raised) := Attempt(d, r1, c);
    var made := One(r2.container) + SidecarHeld(r2.egress);
    assert Held(r2) == made + {workspace} + One(image);
    assert (d.live + made) - Held(r2) == d.live - ({workspace} + One(image));
    TearDownReleasesHeld(d2, r2, true);
  }

  lemma BootSeparates(d: Daemon, r: Runtime, workspace: Id, image: Option<Id>, c: Config)
    requires Good(d) && Vacant(r) && {workspace} + One(image) <= d.live && workspace !in One(image)
    ensures Separate(Boot(d, r, workspace, image, c).1)
  {
    hide Attempt, TearDown, RemovalsWork;
    AttemptKeepsLedger(d, r.(workspace := Some(workspace), ownsImage := image), c);
  }

  // ---------------------------------------------------------------- which errors pass

  /** A fault that the handler of `EgressSidecar.start` turns into RuntimeNotAvailableError. */
  predicate Caught(fault: Fault) {
    fault == Api || fault == Docker
  }

  /** The first of network, proxy and connection to fail does so with a DockerException. */
  predicate StartFails(calls: seq<Fault>) {
    || Caught(First(calls))
    || (First(calls) == Fine && Caught(First(Rest(calls))))
    || (First(calls) == Fine && First(Rest(calls)) == Fine && Caught(First(Rest(Rest(calls)))))
  }

  /** `_boot` lets an error pass: the allowlist holds address ranges, or daemon, rootless check, image,
    * domains and proxy image are all right and then the sidecar does not start. */
  predicate BootEscapes(calls: seq<Fault>, c: Config) {
    c.allowlist
    && (|| c.cidrs
        || (&& First(calls) == Fine && !c.rootlessRefused && First(Rest(calls)) == Fine
            && c.domains && First(Rest(Rest(calls))) == Fine && StartFails(Rest(Rest(Rest(calls))))))
  }

  /** No removal to come raises OSError, which no clean-up catches. */
  ghost predicate NoHostErrors(d: Daemon) {
    forall i :: 0 <= i < |d.removals| ==> d.removals[i] != Os
  }

  lemma SidecarNotCut(d: Daemon, s: Sidecar)
    requires NoHostErrors(d)
    ensures var (d', cut) := SidecarDestroy(d, s);
      !cut && NoHostErrors(d') && d'.calls == d.calls
  {
  }

  lemma TearDownNotCut(d: Daemon, r: Runtime)
    requires NoHostErrors(d)
    ensures !TearDown(d, r, true).1
  {
    hide SidecarDestroy;
    var d2 := ReleaseIf(ReleaseIf(d, r.container).0, r.workspace).0;
    if r.egress.Some? {
      SidecarNotCut(d2, r.egress.value);
    }
  }

  lemma StartFailsExactly(d: Daemon)
    requires NoHostErrors(d)
    ensures Start(d).2 == Some(Unavailable) <==> First(d.calls) == Fine && StartFails(Rest(d.calls))
    ensures NoHostErrors(Start(d).0)
  {
    hide SidecarDestroy;
    var (d1, image) := Call(d);
    var (d2, network) := Acquire(d1);
    if network.Err? {
      SidecarNotCut(d2, IDLE);
    } else {
      var s2 := IDLE.(network := Some(network.value));
      var (d3, proxy) := Acquire(d2);
      if proxy.Err? {
        SidecarNotCut(d3, s2);
      } else {
        SidecarNotCut(Call(d3).0, s2.(proxy := Some(proxy.value)));
      }
    }
  }

  /** Which errors of its calls pass the handlers of `_boot`, for every configuration and every way the
    * calls end, when no removal of the clean-up raises OSError itself. */
  lemma BootEscapesExactly(d: Daemon, r: Runtime, workspace: Id, image: Option<Id>, c: Config)
    requires NoHostErrors(d)
    ensures Boot(d, r, workspace, image, c).2 == Escaped <==> BootEscapes(d.calls, c)
  {
    hide NoHostErrors, Attempt, TearDown, BootEscapes;
    var r1 := r.(workspace := Some(workspace), ownsImage := image);
    AttemptUnavailable(d, r1, c);
    var (d2, r2, raised) := Attempt(d, r1, c);
    TearDownNotCut(d2, r2);
  }

  lemma AttemptUnavailable(d: Daemon, r: Runtime, c: Config)
    requires NoHostErrors(d)
    ensures Attempt(d, r, c).2 == Some(Unavailable) || (c.allowlist && c.cidrs) <==> BootEscapes(d.calls, c)
    ensures NoHostErrors(Attempt(d, r, c).0)
  {
    hide Start, StartFails;
    StartFailsExactly(Call(Call(d).0).0);
  }

  // ---------------------------------------------------------------- the operations

  /** What `create` leaves behind that no field holds: the directory that could not be opened up, or
    * what the fields held when the new workspace took their place. */
  function CreateLoses(d: Daemon, r: Runtime, c: Config): set<Id> {
    if r.container.Some? || !c.imageAllowed then {}
    else if Prepare(d, c).1.Ok? then One(r.workspace) + One(r.ownsImage)
    else if First(d.calls) == Fine then {d.next}
    else {}
  }

  lemma PrepareKeepsLedger(d: Daemon, c: Config)
    requires Good(d)
    ensures var (d', workspace) := Prepare(d, c);
      && Grown(d, d', if First(d.calls) == Fine then {d.next} else {})
      && (workspace.Ok? ==> workspace.value == d.next && First(d.calls) == Fine)
  {
  }

  /** `create`: live is exactly what was live and not held by this runtime, what its fields hold now,
    * and what it lost. */
  lemma CreateLosesExactly(d: Daemon, r: Runtime, c: Config)
    requires Good(d) && Held(r) <= d.live && (r.container.None? ==> Vacant(r))
    ensures var (d', r', outcome) := Create(d, r, c);
      var others := d.live - Held(r);
      && Good(d') && d.next <= d'.next
      && d'.live == others + Held(r') + CreateLoses(d, r, c)
      && Held(r') !! others + CreateLoses(d, r, c) && CreateLoses(d, r, c) !! others
      && (r'.container.None? ==> Vacant(r')) && (Separate(r) ==> Separate(r'))
      && (outcome.Running? ==> r'.container.Some? && r'.workspace.Some?) && (outcome.CleanedUp? ==> r' == EMPTY)
  {
    hide Boot, Prepare, RemovalsWork, SidecarHeld;
    if r.container.None? && c.imageAllowed {
      PrepareKeepsLedger(d, c);
      var (d1, workspace) := Prepare(d, c);
      assert d.next !in d.live;
      if workspace.Ok? {
        assert Held(r) == One(r.workspace) + One(r.ownsImage);
        BootKeepsLedger(d1, r, workspace.value, None, c);
        BootSeparates(d1, r, workspace.value, None, c);
      }
    }
  }

  /** `fork` does not touch its parent. A child that starts holds all that was made; a handled failure
    * leaves nothing; an exception that passes the handlers leaves behind what the child held. */
  lemma ForkKeepsLedger(d: Daemon, r: Runtime, c: Config)
    requires Good(d)
    ensures var (d', child, outcome) := Fork(d, r, c);
      && Good(d') && d.next <= d'.next && d.live <= d'.live
      && (child.Some? <==> outcome.Running?)
      && (outcome.Running? ==> Grown(d, d', Held(child.value)) && child.value.container.Some? && Separate(child.value))
      && (outcome.Running? ==> (child.value.ownsImage.Some? <==> !c.readOnlyRoot))
      && (outcome.Refused? || outcome.CleanedUp? ==> d'.live == d.live)
      && (outcome.Escaped? ==> (d'.live == d.live <==> First(d.calls) != Fine))
  {
    hide Boot;
    if r.container.Some? && r.workspace.Some? {
      var (d1, copy) := Acquire(d);
      if copy.Ok? {
        var (d2, copied) := Call(d1);
        if copied == Fine {
          ForkBoots(d, d2, copy.value, c);
        }
      }
    }
  }

  lemma ForkBoots(d: Daemon, d2: Daemon, workspace: Id, c: Config)
    requires Good(d) && Grown(d, d2, {workspace})
    ensures var (d3, image) := if c.readOnlyRoot then (d2, Ok(None)) else Commit(d2);
      if image.Err? then Release(d3, workspace).0.live == d.live && Good(Release(d3, workspace).0) && d.next <= d3.next
      else
        && Grown(d, d3, {workspace} + One(image.value)) && (image.value.Some? <==> !c.readOnlyRoot)
        && workspace !in One(image.value)
        && ChildBooted(d, Boot(d3, EMPTY, workspace, image.value, c), image.value)
  {
    var (d3, image) := if c.readOnlyRoot then (d2, Ok(None)) else Commit(d2);
    hide Boot, SidecarHeld;
    if image.Err? {
      ReleaseWorks(d3, Some(workspace));
    } else {
      ChildBoots(d, d3, workspace, image.value, c);
    }
  }

  ghost predicate ChildBooted(d: Daemon, booted: (Daemon, Runtime, Outcome), image: Option<Id>) {
    var (d4, child, outcome) := booted;
    && Good(d4) && d.next <= d4.next && d.live <= d4.live && outcome != Refused
    && (outcome.Running? ==>
          Grown(d, d4, Held(child)) && child.container.Some? && child.ownsImage == image && Separate(child))
    && (outcome.CleanedUp? ==> d4.live == d.live) && (outcome.Escaped? ==> d4.live != d.live)
  }

  lemma ChildBoots(d: Daemon, d3: Daemon, workspace: Id, image: Option<Id>, c: Config)
    requires Good(d) && Grown(d, d3, {workspace} + One(image)) && workspace !in One(image)
    ensures ChildBooted(d, Boot(d3, EMPTY, workspace, image, c), image)
  {
    hide Boot, RemovalsWork;
    assert Vacant(EMPTY);
    BootKeepsLedger(d3, EMPTY, workspace, image, c);
    BootSeparates(d3, EMPTY, workspace, image, c);
    hide SidecarHeld, One, Held;
    var own := {workspace} + One(image);
    assert d3.live - own == d.live;
    assert workspace in own && workspace !in d.live;
  }

  /** `fork` leaves something behind: the parent is alive, the copy and the image are made, and then an
    * error passes the handlers of the child's boot. */
  predicate ForkLoses(calls: seq<Fault>, r: Runtime, c: Config) {
    && r.container.Some? && r.workspace.Some?
    && First(calls) == Fine && First(Rest(calls)) == Fine
    && (c.readOnlyRoot || First(Rest(Rest(calls))) == Fine)
    && BootEscapes(if c.readOnlyRoot then Rest(Rest(calls)) else Rest(Rest(Rest(calls))), c)
  }

  /** Which errors pass the handlers of `fork`: that of its first directory, and those of the boot. */
  lemma ForkEscapesExactly(d: Daemon, r: Runtime, c: Config)
    requires NoHostErrors(d)
    ensures Fork(d, r, c).2 == Escaped
       <==> r.container.Some? && r.workspace.Some? && (First(d.calls) != Fine || ForkLoses(d.calls, r, c))
  {
    hide Boot, BootEscapes;
    if r.container.Some? && r.workspace.Some? && First(d.calls) == Fine && First(Rest(d.calls)) == Fine {
      var copy := Acquire(d).1;
      var d2 := Call(Acquire(d).0).0;
      var (d3, image) := if c.readOnlyRoot then (d2, Ok(None)) else Commit(d2);
      if image.Ok? {
        BootEscapesExactly(d3, EMPTY, copy.value, image.value, c);
      }
    }
  }

  lemma ForkLosesExactly(d: Daemon, r: Runtime, c: Config)
    requires Good(d)
    ensures var (d', child, outcome) := Fork(d, r, c);
      ForkLoses(d.calls, r, c) <==> outcome == Escaped && d'.live != d.live
  {
    ForkKeepsLedger(d, r, c);
    ForkEscapesExactly(d, r, c);
    hide Fork, BootEscapes, RemovalsWork, Grown;
  }

  // ---------------------------------------------------------------- how often the fields hold a resource

  function Count(ids: seq<Id>, id: Id): nat {
    if ids == [] then 0 else (if ids[0] == id then 1 else 0) + Count(ids[1..], id)
  }

  lemma {:induction false} CountConcat(left: seq<Id>, right: seq<Id>, id: Id)
    ensures Count(left + right, id) == Count(left, id) + Count(right, id)
  {
    if left == [] {
      assert left + right == right;
    } else {
      CountConcat(left[1..], right, id);
      assert (left + right)[1..] == left[1..] + right;
    }
  }

  lemma OrderIsHeld(r: Runtime, id: Id)
    requires Separate(r)
    ensures Count(Order(r), id) == if id in Held(r) then 1 else 0
  {
    var sidecar := Inner(r);
    var two := Listed(r.container) + Listed(r.workspace);
    var three := two + Listed(sidecar.proxy);
    CountConcat(three + Listed(sidecar.network), Listed(r.ownsImage), id);
    CountConcat(three, Listed(sidecar.network), id);
    CountConcat(two, Listed(sidecar.proxy), id);
    CountConcat(Listed(r.container), Listed(r.workspace), id);
    CountListed(r.container, id);
    CountListed(r.workspace, id);
    CountListed(sidecar.proxy, id);
    CountListed(sidecar.network, id);
    CountListed(r.ownsImage, id);
    hide Count, Listed;
  }

  lemma CountListed(held: Option<Id>, id: Id)
    ensures Count(Listed(held), id) == if id in One(held) then 1 else 0
  {
    if held.Some? {
      assert [held.value][1..] == [];
    }
  }
}
