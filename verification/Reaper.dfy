/** `agentnest prune`: which managed resources one pass removes, and how early it can remove one. */
module Reaper {
  import opened Strings

  /** What Python's `float` makes of a text. */
  datatype Number = Finite(value: real) | Infinity | MinusInfinity | NotANumber

  const MANAGED := "agentnest.managed"
  const DEADLINE := "agentnest.deadline"

  /** `_expired`, for a reading of numbers: None stands for ValueError. */
  predicate Expired(read: string -> Option<Number>, labels: map<string, string>, now: real, grace: real) {
    DEADLINE in labels &&
    match read(labels[DEADLINE])
    case None => false
    case Some(Finite(value)) => now >= value + grace
    case Some(Infinity) => false
    case Some(MinusInfinity) => true
    case Some(NotANumber) => false
  }

  /** A container or network; `stuck` says that removing it raises DockerException. */
  datatype Resource = Resource(name: string, labels: map<string, string>, stuck: bool)

  /** The filter by which both loops list resources. */
  predicate Managed(r: Resource) {
    MANAGED in r.labels && r.labels[MANAGED] == "true"
  }

  /** The settings of one pass, at the moment it reads the clock. */
  datatype Pass = Pass(read: string -> Option<Number>, now: real, grace: real, forceAll: bool)

  predicate Due(r: Resource, pass: Pass) {
    Managed(r) && (pass.forceAll || Expired(pass.read, r.labels, pass.now, pass.grace))
  }

  predicate Goes(r: Resource, pass: Pass) {
    Due(r, pass) && !r.stuck
  }

  /** The names of those that go, in order. */
  function Reported(rs: seq<Resource>, pass: Pass): seq<string> {
    if rs == [] then []
    else (if Goes(rs[0], pass) then [rs[0].name] else []) + Reported(rs[1..], pass)
  }

  /** Those that stay, in order. */
  function Remaining(rs: seq<Resource>, pass: Pass): seq<Resource> {
    if rs == [] then []
    else (if Goes(rs[0], pass) then [] else [rs[0]]) + Remaining(rs[1..], pass)
  }

  lemma {:induction false} ReportedMore(rs: seq<Resource>, last: Resource, pass: Pass)
    ensures Reported(rs + [last], pass) == Reported(rs, pass) + if Goes(last, pass) then [last.name] else []
  {
    hide Goes;
    if rs == [] {
      assert [] + [last] == [last] && [last][1..] == [];
    } else {
      ReportedMore(rs[1..], last, pass);
      assert (rs + [last])[1..] == rs[1..] + [last];
    }
  }

  lemma {:induction false} RemainingMore(rs: seq<Resource>, last: Resource, pass: Pass)
    ensures Remaining(rs + [last], pass) == Remaining(rs, pass) + if Goes(last, pass) then [] else [last]
  {
    hide Goes;
    if rs == [] {
      assert [] + [last] == [last] && [last][1..] == [];
    } else {
      RemainingMore(rs[1..], last, pass);
      assert (rs + [last])[1..] == rs[1..] + [last];
    }
  }

  datatype Report = Report(containers: seq<string>, networks: seq<string>)

  class Docker {
    var containers: seq<Resource>
    var networks: seq<Resource>

    constructor (containers: seq<Resource>, networks: seq<Resource>)
      ensures this.containers == containers && this.networks == networks
    {
      this.containers, this.networks := containers, networks;
    }

    /** One of the two loops of `prune`, over the resources that the daemon listed. */
    static method Sweep(rs: seq<Resource>, pass: Pass)
      returns (names: seq<string>, left: seq<Resource>)
      ensures names == Reported(rs, pass)
      ensures left == Remaining(rs, pass)
    {
      hide Goes;
      names, left := [], [];
      for k := 0 to |rs|
        invariant names == Reported(rs[..k], pass)
        invariant left == Remaining(rs[..k], pass)
      {
        assert rs[..k + 1] == rs[..k] + [rs[k]];
        ReportedMore(rs[..k], rs[k], pass);
        RemainingMore(rs[..k], rs[k], pass);
        if Goes(rs[k], pass) {
          names := names + [rs[k].name];
        } else {
          left := left + [rs[k]];
        }
      }
      assert rs[..|rs|] == rs;
    }

    method Prune(pass: Pass) returns (report: Report)
      modifies this
      ensures report == Report(Reported(old(containers), pass), Reported(old(networks), pass))
      ensures containers == Remaining(old(containers), pass)
      ensures networks == Remaining(old(networks), pass)
    {
      var reapedContainers, leftContainers := Sweep(containers, pass);
      containers := leftContainers;
      var reapedNetworks, leftNetworks := Sweep(networks, pass);
      networks := leftNetworks;
      report := Report(reapedContainers, reapedNetworks);
    }
  }

  /** A pass removes and reports exactly the managed resources that are due and can be removed; every
    * other stays, in place. */
  lemma {:induction false} PruneExact(rs: seq<Resource>, pass: Pass)
    ensures forall r :: r in Remaining(rs, pass) <==> r in rs && !Goes(r, pass)
    ensures forall name :: (name in Reported(rs, pass) <==>
              exists k :: 0 <= k < |rs| && rs[k].name == name && Goes(rs[k], pass))
    ensures |Reported(rs, pass)| + |Remaining(rs, pass)| == |rs|
  {
    if rs != [] {
      PruneExact(rs[1..], pass);
      forall name ensures name in Reported(rs, pass)
        <==> exists k :: 0 <= k < |rs| && rs[k].name == name && Goes(rs[k], pass)
      {
        if name in Reported(rs[1..], pass) {
          var k :| 0 <= k < |rs[1..]| && rs[1..][k].name == name && Goes(rs[1..][k], pass);
          assert rs[k + 1].name == name;
        }
        if k :| 0 < k < |rs| && rs[k].name == name && Goes(rs[k], pass) {
          assert rs[1..][k - 1] == rs[k];
        }
      }
    }
  }

  /** What goes and what does not: an unmanaged resource and one that cannot be removed never; any other
    * always when forced, and otherwise only if its label reads as a number that was due the grace ago. */
  lemma GoesExactly(r: Resource, pass: Pass)
    ensures !Managed(r) || r.stuck ==> !Goes(r, pass)
    ensures Managed(r) && !r.stuck && pass.forceAll ==> Goes(r, pass)
    ensures !pass.forceAll && (DEADLINE !in r.labels || pass.read(r.labels[DEADLINE]) == None) ==> !Goes(r, pass)
    ensures Managed(r) && !r.stuck && !pass.forceAll && DEADLINE in r.labels ==>
      forall deadline :: pass.read(r.labels[DEADLINE]) == Some(Finite(deadline)) ==>
        (Goes(r, pass) <==> pass.now - pass.grace >= deadline)
    ensures !pass.forceAll && DEADLINE in r.labels ==>
      (pass.read(r.labels[DEADLINE]) == Some(Infinity) || pass.read(r.labels[DEADLINE]) == Some(NotANumber)) ==>
        !Goes(r, pass)
    ensures Managed(r) && !r.stuck && DEADLINE in r.labels && pass.read(r.labels[DEADLINE]) == Some(MinusInfinity) ==>
      Goes(r, pass)
  {
  }

  // ---------------------------------------------------------------- never too early

  /** Python's `f"{x:.0f}"` as a number: to the nearest integer, halves to the even one. */
  function Rounded(x: real): (n: int)
    ensures -0.5 <= n as real - x <= 0.5
  {
    var below := x.Floor;
    var rest := x - below as real;
    if rest < 0.5 || (rest == 0.5 && below % 2 == 0) then below else below + 1
  }

  /** What `float` does with the digits of a whole number. */
  ghost predicate ReadsWhole(read: string -> Option<Number>) {
    forall n: nat :: read(Decimal(n)) == Some(Finite(n as real))
  }

  /** The labels that `_boot` stamps at `stamped` for a lifetime, which configuration requires to be
    * positive; the epoch is past. */
  function Stamp(stamped: real, lifetime: real): map<string, string>
    requires 0.0 <= stamped && 0.0 < lifetime
  {
    map[MANAGED := "true", DEADLINE := Decimal(Rounded(stamped + lifetime))]
  }

  /** No pass at any time removes a sandbox before its deadline, which the sandbox counts from
    * `setup` seconds after the stamp. */
  ghost predicate NeverEarly(read: string -> Option<Number>, setup: real, grace: real) {
    forall stamped: real, lifetime: real, now: real ::
      0.0 <= stamped && 0.0 < lifetime && Expired(read, Stamp(stamped, lifetime), now, grace) ==>
            now >= (stamped + setup) + lifetime
  }

  /** When a sandbox is due: from the rounded end of its lifetime plus the grace on. */
  lemma DueFrom(read: string -> Option<Number>, stamped: real, lifetime: real, now: real, grace: real)
    requires ReadsWhole(read) && 0.0 <= stamped && 0.0 < lifetime
    ensures Expired(read, Stamp(stamped, lifetime), now, grace) <==> now >= Rounded(stamped + lifetime) as real + grace
  {
    var n: nat := Rounded(stamped + lifetime);
    assert read(Decimal(n)) == Some(Finite(n as real));
  }

  /** From stamp to removal: a stamped resource that can be removed goes exactly if the pass is forced or it
    * is due. */
  lemma StampedGoesFrom(name: string, stamped: real, lifetime: real, pass: Pass)
    requires ReadsWhole(pass.read) && 0.0 <= stamped && 0.0 < lifetime
    ensures Goes(Resource(name, Stamp(stamped, lifetime), false), pass)
       <==> pass.forceAll || pass.now >= Rounded(stamped + lifetime) as real + pass.grace
    ensures Stamp(stamped, lifetime).Keys == {"agentnest.managed", "agentnest.deadline"}
  {
    DueFrom(pass.read, stamped, lifetime, pass.now, pass.grace);
  }

  /** The stamp is the nearest whole second; of two equally near ones, the even one. */
  lemma RoundsToNearestEven(x: real, n: int)
    ensures -0.5 < n as real - x < 0.5 ==> Rounded(x) == n
    ensures x == n as real + 0.5 ==> Rounded(x) % 2 == 0
  {
    assert x == n as real + 0.5 ==> x.Floor == n;
  }

  /** A sandbox that is removed too early: stamped at a whole second for half a second more than a
    * whole number of seconds, so that the half is rounded away, and set up more slowly than the grace
    * less half a second. */
  lemma RemovedTooEarly(read: string -> Option<Number>, setup: real, grace: real)
    requires ReadsWhole(read) && setup > grace - 0.5
    ensures var stamped, lifetime, now := 1000000000.0, 300.5, 1000000300.0 + grace;
      Expired(read, Stamp(stamped, lifetime), now, grace) && now < (stamped + setup) + lifetime
  {
    hide Decimal;
    assert Rounded(1000000300.5) == 1000000300;
    hide Expired, Stamp, Rounded;
    DueFrom(read, 1000000000.0, 300.5, 1000000300.0 + grace, grace);
  }

  /** Exactly as long as setting the sandbox up took at most the grace less half a second, no pass is
    * early; the half second is what rounding the stamp can cost. */
  lemma NeverEarlyExactly(read: string -> Option<Number>, setup: real, grace: real)
    requires ReadsWhole(read)
    ensures NeverEarly(read, setup, grace) <==> setup <= grace - 0.5
  {
    forall stamped: real, lifetime: real, now: real |
      0.0 <= stamped && 0.0 < lifetime && Expired(read, Stamp(stamped, lifetime), now, grace)
      ensures setup <= grace - 0.5 ==> now >= (stamped + setup) + lifetime
    {
      DueFrom(read, stamped, lifetime, now, grace);
    }
    if setup > grace - 0.5 {
      RemovedTooEarly(read, setup, grace);
    }
  }
}
