/** When `destroy` and the clean-up of a failed create leave something behind, for every way their
  * removals can fail. */
module DockerTeardown {
  import opened Strings
  import opened DockerLedger

  /** The first `n` of the removals to come work. */
  predicate AllFine(removals: seq<Fault>, n: nat) {
    n == 0 || (First(removals) == Fine && AllFine(Rest(removals), n - 1))
  }

  /** How many calls it takes to remove what the fields hold: two for the network, which is reloaded
    * first, and one for everything else. */
  function Removals(r: Runtime): nat {
    |Order(r)| + |Listed(Inner(r).network)|
  }

  function Later(removals: seq<Fault>, n: nat): seq<Fault> {
    if n == 0 then removals else Later(Rest(removals), n - 1)
  }

  lemma {:induction false} AllFineSplit(removals: seq<Fault>, m: nat, n: nat)
    ensures AllFine(removals, m + n) <==> AllFine(removals, m) && AllFine(Later(removals, m), n)
  {
    if m > 0 {
      AllFineSplit(Rest(removals), m - 1, n);
    }
  }

  /** One stage of the teardown: it removes some of its own ids and nothing else, and all of them
    * exactly if its removals work; then the next stage follows. */
  ghost predicate Stage(d: Daemon, d': Daemon, cut: bool, own: set<Id>, n: nat) {
    && d'.live <= d.live && d.live - own <= d'.live
    && (AllFine(d.removals, n) <==> d'.live !! own)
    && (AllFine(d.removals, n) ==> !cut && d'.removals == Later(d.removals, n))
  }

  lemma ReleaseStage(d: Daemon, id: Option<Id>)
    requires One(id) <= d.live
    ensures var (d', fault) := ReleaseIf(d, id);
      Stage(d, d', fault != Fine, One(id), |Listed(id)|)
  {
    assert AllFine(d.removals, 1) <==> First(d.removals) == Fine;
  }

  lemma SidecarStage(d: Daemon, s: Sidecar)
    requires One(s.proxy) + One(s.network) <= d.live && One(s.proxy) !! One(s.network)
    ensures var (d', cut) := SidecarDestroy(d, s);
      Stage(d, d', cut, One(s.proxy) + One(s.network), |Listed(s.proxy)| + 2 * |Listed(s.network)|)
  {
    ReleaseStage(d, s.proxy);
    var (d1, fault) := ReleaseIf(d, s.proxy);
    AllFineSplit(d.removals, |Listed(s.proxy)|, 2 * |Listed(s.network)|);
    if s.network.Some? {
      assert AllFine(d1.removals, 2) <==> First(d1.removals) == Fine && AllFine(Rest(d1.removals), 1);
      ReleaseStage(d1.(removals := Rest(d1.removals)), s.network);
    }
  }

  lemma StagesFollow(a: Daemon, b: Daemon, c: Daemon, cut1: bool, cut2: bool, own1: set<Id>, own2: set<Id>,
                     n1: nat, n2: nat)
    requires Stage(a, b, cut1, own1, n1) && Stage(b, c, cut2, own2, n2) && own1 !! own2 && own2 <= a.live
    ensures Stage(a, c, cut1 || cut2, own1 + own2, n1 + n2)
  {
    hide AllFine, Later;
    AllFineSplit(a.removals, n1, n2);
    LaterTwice(a.removals, n1, n2);
    assert c.live <= b.live <= a.live;
  }

  lemma StageCut(a: Daemon, b: Daemon, own1: set<Id>, own2: set<Id>, n1: nat, n2: nat)
    requires Stage(a, b, true, own1, n1) && own1 !! own2
    ensures Stage(a, b, true, own1 + own2, n1 + n2)
  {
    hide AllFine, Later;
    AllFineSplit(a.removals, n1, n2);
  }

  lemma {:induction false} LaterTwice(removals: seq<Fault>, m: nat, n: nat)
    ensures Later(Later(removals, m), n) == Later(removals, m + n)
  {
    if m > 0 {
      LaterTwice(Rest(removals), m - 1, n);
    }
  }

  /** The stages after the container. */
  lemma RestStages(d: Daemon, workspace: Option<Id>, egress: Option<Sidecar>, image: Option<Id>)
    requires Separate(Runtime(None, workspace, egress, image))
    requires Held(Runtime(None, workspace, egress, image)) <= d.live
    ensures var r := Runtime(None, workspace, egress, image);
      var (d', cut) := TearDown(d, r, true);
      Stage(d, d', cut, Held(r), Removals(r))
  {
    var s := if egress.Some? then egress.value else IDLE;
    var own2, own3 := One(s.proxy) + One(s.network), One(image);
    var n1, n2, n3 := |Listed(workspace)|, |Listed(s.proxy)| + 2 * |Listed(s.network)|, |Listed(image)|;
    ReleaseStage(d, workspace);
    var d1 := ReleaseIf(d, workspace).0;
    SidecarStage(d1, s);
    var (d2, cut2) := SidecarDestroy(d1, s);
    StagesFollow(d, d1, d2, false, cut2, One(workspace), own2, n1, n2);
    if cut2 {
      StageCut(d, d2, One(workspace) + own2, own3, n1 + n2, n3);
    } else {
      ReleaseStage(d2, image);
      var (d3, fault) := ReleaseIf(d2, image);
      StagesFollow(d, d2, d3, false, fault == Os, One(workspace) + own2, own3, n1 + n2, n3);
    }
    assert Held(Runtime(None, workspace, egress, image)) == One(workspace) + own2 + own3;
  }

  /** When `destroy`, or the clean-up of a failed create, leaves nothing of what the fields held: if
    * and only if every one of its removals works. A failure that is swallowed leaves something as
    * surely as one that cuts the teardown short. */
  lemma TearDownLeavesNothingExactly(d: Daemon, r: Runtime, lenient: bool)
    requires Separate(r) && Held(r) <= d.live
    ensures TearDown(d, r, lenient).0.live !! Held(r) <==> AllFine(d.removals, Removals(r))
  {
    hide Release, SidecarDestroy;
    var rest := r.(container := None);
    ReleaseStage(d, r.container);
    var (d1, fault) := ReleaseIf(d, r.container);
    var cut := fault == Os || (fault == Docker && !lenient);
    if cut {
      StageCut(d, d1, One(r.container), Held(rest), |Listed(r.container)|, Removals(rest));
    } else {
      RestStages(d1, r.workspace, r.egress, r.ownsImage);
      var (d2, cut2) := TearDown(d1, rest, true);
      StagesFollow(d, d1, d2, false, cut2, One(r.container), Held(rest), |Listed(r.container)|, Removals(rest));
    }
    assert Held(r) == One(r.container) + Held(rest);
  }

  lemma DestroyLeavesNothingExactly(d: Daemon, r: Runtime)
    requires Separate(r) && Held(r) <= d.live
    ensures Destroy(d, r).0.live !! Held(r) <==> AllFine(d.removals, Removals(r))
    ensures Destroy(d, r).1 == EMPTY
  {
    hide TearDown, AllFine;
    TearDownLeavesNothingExactly(d, r, false);
  }
}
