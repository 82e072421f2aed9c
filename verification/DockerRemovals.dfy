/** How the removals of `destroy` and of the clean-up go, one after the other: which of them work, whose
  * errors are swallowed, and which exception ends the call. */
module DockerRemovals {
  import opened Strings
  import opened DockerLedger

  /** What is removed, one after the other. */
  datatype Part = ContainerPart | WorkspacePart | ProxyPart | NetworkPart | ImagePart

  /** How one removal ends: it works, its error is swallowed, or an exception ends the call. */
  datatype Removal = Works | Swallowed | CutsShort

  function PartIf(held: Option<Id>, part: Part): seq<Part> {
    if held.Some? then [part] else []
  }

  function SidecarParts(s: Sidecar): seq<Part> {
    PartIf(s.proxy, ProxyPart) + PartIf(s.network, NetworkPart)
  }

  /** The kinds of what a teardown removes, in the order of `Order`. */
  function Parts(r: Runtime): seq<Part> {
    var sidecar, image := SidecarParts(Inner(r)), PartIf(r.ownsImage, ImagePart);
    PartIf(r.container, ContainerPart) + (PartIf(r.workspace, WorkspacePart) + (sidecar + image))
  }

  /** A removal whose handler lets only OSError pass. */
  function Handled(fault: Fault): Removal {
    if fault == Fine then Works else if fault == Os then CutsShort else Swallowed
  }

  /** How the removal of one part goes, and the removals after it. Of the container's, `destroy` lets
    * every DockerException but APIError pass; a directory's errors are ignored; a network is only
    * removed once it could be reloaded. */
  function Played(removals: seq<Fault>, part: Part, lenient: bool): (Removal, seq<Fault>) {
    var fault, rest := First(removals), Rest(removals);
    match part
    case ContainerPart => (if fault == Docker && !lenient then CutsShort else Handled(fault), rest)
    case WorkspacePart => (if fault == Fine then Works else Swallowed, rest)
    case NetworkPart => if fault == Fine then (Handled(First(rest)), Rest(rest)) else (Handled(fault), rest)
    case _ => (Handled(fault), rest)
  }

  /** The removals of a call, up to the exception that ends it. */
  function PlayedAll(removals: seq<Fault>, parts: seq<Part>, lenient: bool): (seq<Removal>, seq<Fault>)
    decreases parts
  {
    if parts == [] then ([], removals)
    else
      var (removal, rest) := Played(removals, parts[0], lenient);
      if removal == CutsShort then ([removal], rest)
      else
        var (others, last) := PlayedAll(rest, parts[1..], lenient);
        ([removal] + others, last)
  }

  predicate Cut(removals: seq<Removal>) {
    CutsShort in removals
  }

  lemma {:induction false} PlayedConcat(removals: seq<Fault>, left: seq<Part>, right: seq<Part>, lenient: bool)
    ensures var (first, rest) := PlayedAll(removals, left, lenient);
      var (second, last) := PlayedAll(rest, right, lenient);
      && |first| <= |left| && (!Cut(first) ==> |first| == |left|)
      && PlayedAll(removals, left + right, lenient) == if Cut(first) then (first, rest) else (first + second, last)
    decreases left
  {
    if left == [] {
      assert left + right == right;
      assert [] + PlayedAll(removals, right, lenient).0 == PlayedAll(removals, right, lenient).0;
    } else {
      assert (left + right)[0] == left[0] && (left + right)[1..] == left[1..] + right;
      var (removal, rest) := Played(removals, left[0], lenient);
      PlayedConcat(rest, left[1..], right, lenient);
      var (others, last) := PlayedAll(rest, left[1..], lenient);
      var second := PlayedAll(last, right, lenient).0;
      assert [removal] + (others + second) == ([removal] + others) + second;
    }
  }

  /** Those whose removal worked. */
  function Freed(ids: seq<Id>, removals: seq<Removal>): seq<Id>
    decreases ids
  {
    if ids == [] || removals == [] then []
    else (if removals[0] == Works then [ids[0]] else []) + Freed(ids[1..], removals[1..])
  }

  lemma {:induction false} FreedConcat(left: seq<Id>, right: seq<Id>, first: seq<Removal>, second: seq<Removal>)
    requires |first| <= |left| && (second != [] ==> |first| == |left|)
    ensures Freed(left + right, first + second) == Freed(left, first) + Freed(right, second)
    decreases left
  {
    if first == [] {
      assert first + second == second;
      assert left == [] ==> left + right == right;
    } else {
      FreedConcat(left[1..], right, first[1..], second);
      assert (left + right)[1..] == left[1..] + right && (first + second)[1..] == first[1..] + second;
    }
  }

  /** A stretch of a teardown: what it removes, and whether an exception ends it. */
  ghost predicate Clears(d: Daemon, d': Daemon, cut: bool, ids: seq<Id>, parts: seq<Part>, lenient: bool) {
    var (removals, rest) := PlayedAll(d.removals, parts, lenient);
    && |ids| == |parts| && (cut <==> Cut(removals))
    && d' == d.(live := d.live - (set id | id in Freed(ids, removals)), removals := rest)
  }

  lemma ClearsNothing(d: Daemon, lenient: bool)
    ensures Clears(d, d, false, [], [], lenient)
  {
  }

  lemma ClearsOne(d: Daemon, held: Option<Id>, part: Part, lenient: bool)
    requires part != NetworkPart
    ensures var (d', fault) := ReleaseIf(d, held);
      var cut := held.Some? && Played([fault], part, lenient).0 == CutsShort;
      Clears(d, d', cut, Listed(held), PartIf(held, part), lenient)
  {
    if held.Some? {
      assert [part][1..] == [] && [held.value][1..] == [];
    }
  }

  lemma ClearsThen(d: Daemon, d1: Daemon, d2: Daemon, cut: bool, ids: seq<Id>, parts: seq<Part>, more: seq<Id>,
                   others: seq<Part>, lenient: bool)
    requires Clears(d, d1, false, ids, parts, lenient) && Clears(d1, d2, cut, more, others, lenient)
    ensures Clears(d, d2, cut, ids + more, parts + others, lenient)
  {
    PlayedConcat(d.removals, parts, others, lenient);
    var (first, rest) := PlayedAll(d.removals, parts, lenient);
    var second := PlayedAll(rest, others, lenient).0;
    FreedConcat(ids, more, first, second);
    hide PlayedAll, Freed;
  }

  lemma ClearsNoMore(d: Daemon, d1: Daemon, ids: seq<Id>, parts: seq<Part>, more: seq<Id>, others: seq<Part>,
                     lenient: bool)
    requires Clears(d, d1, true, ids, parts, lenient) && |more| == |others|
    ensures Clears(d, d1, true, ids + more, parts + others, lenient)
  {
    PlayedConcat(d.removals, parts, others, lenient);
    var first := PlayedAll(d.removals, parts, lenient).0;
    FreedConcat(ids, more, first, []);
    assert first + [] == first && Freed(ids, first) + [] == Freed(ids, first) && Freed(more, []) == [];
  }

  function SidecarOrder(s: Sidecar): seq<Id> {
    Listed(s.proxy) + Listed(s.network)
  }

  lemma ClearsNetwork(d: Daemon, network: Id, lenient: bool)
    ensures var (d', cut) := SidecarDestroy(d, Sidecar(Some(network), None));
      Clears(d, d', cut, [network], [NetworkPart], lenient)
  {
    assert [NetworkPart][1..] == [] && [network][1..] == [];
  }

  lemma SidecarClears(d: Daemon, s: Sidecar, lenient: bool)
    ensures var (d', cut) := SidecarDestroy(d, s);
      Clears(d, d', cut, SidecarOrder(s), SidecarParts(s), lenient)
  {
    var (d1, fault) := ReleaseIf(d, s.proxy);
    ClearsOne(d, s.proxy, ProxyPart, lenient);
    var network := PartIf(s.network, NetworkPart);
    if fault == Os {
      ClearsNoMore(d, d1, Listed(s.proxy), PartIf(s.proxy, ProxyPart), Listed(s.network), network, lenient);
    } else {
      if s.network.Some? {
        ClearsNetwork(d1, s.network.value, lenient);
      } else {
        ClearsNothing(d1, lenient);
      }
      var (d2, cut) := SidecarDestroy(d1, Sidecar(s.network, None));
      ClearsThen(d, d1, d2, cut, Listed(s.proxy), PartIf(s.proxy, ProxyPart), Listed(s.network), network, lenient);
    }
    hide Clears;
  }

  function TailOrder(r: Runtime): seq<Id> {
    SidecarOrder(Inner(r)) + Listed(r.ownsImage)
  }

  function TailParts(r: Runtime): seq<Part> {
    SidecarParts(Inner(r)) + PartIf(r.ownsImage, ImagePart)
  }

  /** The sidecar and the image, which come last. */
  function TailDestroy(d: Daemon, r: Runtime): (Daemon, bool) {
    var (d1, escaped) := SidecarDestroy(d, Inner(r));
    var (d2, fault) := ReleaseIf(d1, r.ownsImage);
    (if escaped then d1 else d2, escaped || fault == Os)
  }

  lemma TailClears(d: Daemon, r: Runtime, lenient: bool)
    ensures var (d', cut) := TailDestroy(d, r); Clears(d, d', cut, TailOrder(r), TailParts(r), lenient)
  {
    var ids, parts := SidecarOrder(Inner(r)), SidecarParts(Inner(r));
    var image := PartIf(r.ownsImage, ImagePart);
    SidecarClears(d, Inner(r), lenient);
    var (d1, escaped) := SidecarDestroy(d, Inner(r));
    ClearsOne(d1, r.ownsImage, ImagePart, lenient);
    hide Clears, SidecarDestroy, SidecarOrder, SidecarParts;
    if escaped {
      ClearsNoMore(d, d1, ids, parts, Listed(r.ownsImage), image, lenient);
    } else {
      var (d2, fault) := ReleaseIf(d1, r.ownsImage);
      ClearsThen(d, d1, d2, fault == Os, ids, parts, Listed(r.ownsImage), image, lenient);
    }
  }

  /** The directory, whose removal never ends the call, and the rest. */
  lemma AfterContainerClears(d: Daemon, r: Runtime, lenient: bool)
    ensures var (d', cut) := TailDestroy(ReleaseIf(d, r.workspace).0, r);
      Clears(d, d', cut, Listed(r.workspace) + TailOrder(r), PartIf(r.workspace, WorkspacePart) + TailParts(r), lenient)
  {
    var ids, parts := Listed(r.workspace), PartIf(r.workspace, WorkspacePart);
    ClearsOne(d, r.workspace, WorkspacePart, lenient);
    var d1 := ReleaseIf(d, r.workspace).0;
    TailClears(d1, r, lenient);
    hide Clears, TailDestroy, TailOrder, TailParts, ReleaseIf, Listed, PartIf;
    var (d2, cut) := TailDestroy(d1, r);
    ClearsThen(d, d1, d2, cut, ids, parts, TailOrder(r), TailParts(r), lenient);
  }

  lemma TearDownInTwo(d: Daemon, r: Runtime, lenient: bool)
    ensures var (d1, fault) := ReleaseIf(d, r.container);
      TearDown(d, r, lenient) == if fault == Os || (fault == Docker && !lenient) then (d1, true)
        else TailDestroy(ReleaseIf(d1, r.workspace).0, r)
  {
    var d2 := ReleaseIf(ReleaseIf(d, r.container).0, r.workspace).0;
    assert SidecarDestroy(d2, IDLE) == (d2, false);
    hide SidecarDestroy, ReleaseIf;
  }

  lemma OrderInTwo(r: Runtime)
    ensures var more := Listed(r.workspace) + TailOrder(r);
      var others := PartIf(r.workspace, WorkspacePart) + TailParts(r);
      Order(r) == Listed(r.container) + more && Parts(r) == PartIf(r.container, ContainerPart) + others
      && |more| == |others|
  {
  }

  /** A teardown goes through what the fields held in their order, until an exception ends it; what is
    * gone afterwards is exactly what was removed when its turn came. */
  lemma TearDownClears(d: Daemon, r: Runtime, lenient: bool)
    ensures var (d', cut) := TearDown(d, r, lenient); Clears(d, d', cut, Order(r), Parts(r), lenient)
  {
    var ids, parts := Listed(r.container), PartIf(r.container, ContainerPart);
    var more, others := Listed(r.workspace) + TailOrder(r), PartIf(r.workspace, WorkspacePart) + TailParts(r);
    var (d1, fault) := ReleaseIf(d, r.container);
    var cut := fault == Os || (fault == Docker && !lenient);
    assert Clears(d, d1, cut, ids, parts, lenient) by { ClearsOne(d, r.container, ContainerPart, lenient); }
    hide *;
    OrderInTwo(r);
    TearDownInTwo(d, r, lenient);
    AfterContainerClears(d1, r, lenient);
    var (d2, later) := TailDestroy(ReleaseIf(d1, r.workspace).0, r);
    if cut {
      ClearsNoMore(d, d1, ids, parts, more, others, lenient);
    } else {
      ClearsThen(d, d1, d2, later, ids, parts, more, others, lenient);
    }
  }
}
