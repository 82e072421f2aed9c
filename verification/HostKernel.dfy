/** The running host: each call is taken after whatever the sandbox did since the call before.
  * Quantifying over the plan of turns quantifies over every interleaving. */
module HostKernel {
  import opened Strings
  import opened Utf8
  import opened WorkspacePath
  import opened HostFiles

  function Head(plan: seq<Turn>): Turn {
    if plan == [] then QUIET else plan[0]
  }

  function Tail(plan: seq<Turn>): seq<Turn> {
    if plan == [] then [] else plan[1..]
  }

  /** The host, what the world will do between the calls to come, and what the file system held
    * after each call so far. */
  datatype World = World(host: Host, plan: seq<Turn>, history: seq<Nodes>)

  /** The host as the next call finds it. */
  function Now(w: World): Host {
    Settle(w.host, Head(w.plan))
  }

  function Commit(w: World, h: Host): World {
    World(h, Tail(w.plan), w.history + [h.fs.nodes])
  }

  function SysOpenRoot(w: World): (World, Result<Fd, Error>) {
    var (h, r) := DoOpenRoot(Now(w), Head(w.plan));
    (Commit(w, h), r)
  }

  function SysOpenAt(w: World, dir: Fd, name: string, flags: Flags): (World, Result<Fd, Error>)
    requires dir in w.host.fds
  {
    var (h, r) := DoOpen(Now(w), Head(w.plan), dir, name, flags);
    (Commit(w, h), r)
  }

  function SysMkdir(w: World, dir: Fd, name: string): (World, Result<(), Error>)
    requires dir in w.host.fds
  {
    var (h, r) := DoMkdir(Now(w), Head(w.plan), dir, name);
    (Commit(w, h), r)
  }

  function SysFchmod(w: World, fd: Fd, mode: nat): (World, Result<(), Error>)
    requires fd in w.host.fds
  {
    var (h, r) := DoFchmod(Now(w), Head(w.plan), fd, mode);
    (Commit(w, h), r)
  }

  function SysWrite(w: World, fd: Fd, data: seq<byte>): (World, Result<nat, Error>)
    requires fd in w.host.fds
  {
    var (h, r) := DoWrite(Now(w), Head(w.plan), fd, data);
    (Commit(w, h), r)
  }

  function SysFstat(w: World, fd: Fd): (World, Result<(bool, nat), Error>)
    requires fd in w.host.fds
  {
    var (h, r) := DoFstat(Now(w), Head(w.plan), fd);
    (Commit(w, h), r)
  }

  function SysRead(w: World, fd: Fd, offset: nat, wanted: nat): (World, Result<seq<byte>, Error>)
    requires fd in w.host.fds
  {
    var (h, r) := DoRead(Now(w), Head(w.plan), fd, offset, wanted);
    (Commit(w, h), r)
  }

  function SysReplace(w: World, dir: Fd, source: string, target: string): (World, Result<(), Error>)
    requires dir in w.host.fds
  {
    var (h, r) := DoReplace(Now(w), Head(w.plan), dir, source, target);
    (Commit(w, h), r)
  }

  function SysUnlink(w: World, dir: Fd, name: string): (World, Result<(), Error>)
    requires dir in w.host.fds
  {
    var (h, r) := DoUnlink(Now(w), Head(w.plan), dir, name);
    (Commit(w, h), r)
  }

  /** Closing needs no turn of its own: nothing of the file system is looked at. */
  function SysClose(w: World, fd: Fd): World
    requires fd in w.host.fds
  {
    w.(host := DoClose(w.host, fd))
  }

  /** What the world does between two calls is done, and each call is recorded. */
  ghost predicate OneTurn(w: World, w': World) {
    && (w.plan != [] ==> w'.plan == w.plan[1..]) && (w.plan == [] ==> w'.plan == [])
    && w'.history == w.history + [w'.host.fs.nodes]
  }

  /** Every call takes one turn of the plan: it finds the files as the sandbox's edits of that turn leave
    * them, and what it leaves is the next entry of the history. */
  lemma EveryCallTakesOneTurn(w: World, dir: Fd, fd: Fd, name: string, source: string, flags: Flags, mode: nat,
                              data: seq<byte>, offset: nat, wanted: nat)
    requires dir in w.host.fds && fd in w.host.fds
    ensures Now(w).fs == ApplyAll(w.host.fs, if w.plan == [] then [] else w.plan[0].edits)
    ensures Now(w) == w.host.(fs := Now(w).fs)
    ensures OneTurn(w, SysOpenRoot(w).0) && OneTurn(w, SysOpenAt(w, dir, name, flags).0)
    ensures OneTurn(w, SysMkdir(w, dir, name).0) && OneTurn(w, SysFchmod(w, fd, mode).0)
    ensures OneTurn(w, SysWrite(w, fd, data).0) && OneTurn(w, SysFstat(w, fd).0)
    ensures OneTurn(w, SysRead(w, fd, offset, wanted).0)
    ensures OneTurn(w, SysReplace(w, dir, source, name).0) && OneTurn(w, SysUnlink(w, dir, name).0)
    ensures SysClose(w, fd) == w.(host := SysClose(w, fd).host) && SysClose(w, fd).host.fs == w.host.fs
  {
    hide DoOpenRoot, DoOpen, DoMkdir, DoFchmod, DoWrite, DoFstat, DoRead, DoReplace, DoUnlink;
  }

  // ---------------------------------------------------------------- the running host

  class Kernel {
    var host: Host
    var plan: seq<Turn>
    ghost var history: seq<Nodes>

    ghost function Abs(): World
      reads this
    {
      World(host, plan, history)
    }

    constructor (host: Host, plan: seq<Turn>)
      ensures Abs() == World(host, plan, [])
    {
      this.host, this.plan, history := host, plan, [];
    }

    /** The sandbox's edits before the next call. */
    method Interfere() returns (t: Turn)
      modifies this`host, this`plan
      ensures t == Head(old(plan)) && plan == Tail(old(plan)) && host == Now(old(Abs()))
    {
      t := Head(plan);
      plan := Tail(plan);
      host := Settle(host, t);
    }

    method OpenRoot() returns (r: Result<Fd, Error>)
      modifies this
      ensures (Abs(), r) == SysOpenRoot(old(Abs()))
    {
      var t := Interfere();
      var (next, result) := DoOpenRoot(host, t);
      host, r, history := next, result, history + [next.fs.nodes];
    }

    method OpenAt(dir: Fd, name: string, flags: Flags) returns (r: Result<Fd, Error>)
      requires dir in host.fds
      modifies this
      ensures (Abs(), r) == SysOpenAt(old(Abs()), dir, name, flags)
    {
      var t := Interfere();
      var (next, result) := DoOpen(host, t, dir, name, flags);
      host, r, history := next, result, history + [next.fs.nodes];
    }

    method Mkdir(dir: Fd, name: string) returns (r: Result<(), Error>)
      requires dir in host.fds
      modifies this
      ensures (Abs(), r) == SysMkdir(old(Abs()), dir, name)
    {
      var t := Interfere();
      var (next, result) := DoMkdir(host, t, dir, name);
      host, r, history := next, result, history + [next.fs.nodes];
    }

    method Fchmod(fd: Fd, mode: nat) returns (r: Result<(), Error>)
      requires fd in host.fds
      modifies this
      ensures (Abs(), r) == SysFchmod(old(Abs()), fd, mode)
    {
      var t := Interfere();
      var (next, result) := DoFchmod(host, t, fd, mode);
      host, r, history := next, result, history + [next.fs.nodes];
    }

    method Write(fd: Fd, data: seq<byte>) returns (r: Result<nat, Error>)
      requires fd in host.fds
      modifies this
      ensures (Abs(), r) == SysWrite(old(Abs()), fd, data)
    {
      var t := Interfere();
      var (next, result) := DoWrite(host, t, fd, data);
      host, r, history := next, result, history + [next.fs.nodes];
    }

    method Fstat(fd: Fd) returns (r: Result<(bool, nat), Error>)
      requires fd in host.fds
      modifies this
      ensures (Abs(), r) == SysFstat(old(Abs()), fd)
    {
      var t := Interfere();
      var (next, result) := DoFstat(host, t, fd);
      host, r, history := next, result, history + [next.fs.nodes];
    }

    method Read(fd: Fd, offset: nat, wanted: nat) returns (r: Result<seq<byte>, Error>)
      requires fd in host.fds
      modifies this
      ensures (Abs(), r) == SysRead(old(Abs()), fd, offset, wanted)
    {
      var t := Interfere();
      var (next, result) := DoRead(host, t, fd, offset, wanted);
      host, r, history := next, result, history + [next.fs.nodes];
    }

    method Replace(dir: Fd, source: string, target: string) returns (r: Result<(), Error>)
      requires dir in host.fds
      modifies this
      ensures (Abs(), r) == SysReplace(old(Abs()), dir, source, target)
    {
      var t := Interfere();
      var (next, result) := DoReplace(host, t, dir, source, target);
      host, r, history := next, result, history + [next.fs.nodes];
    }

    method Unlink(dir: Fd, name: string) returns (r: Result<(), Error>)
      requires dir in host.fds
      modifies this
      ensures (Abs(), r) == SysUnlink(old(Abs()), dir, name)
    {
      var t := Interfere();
      var (next, result) := DoUnlink(host, t, dir, name);
      host, r, history := next, result, history + [next.fs.nodes];
    }

    method Close(fd: Fd)
      requires fd in host.fds
      modifies this`host
      ensures Abs() == SysClose(old(Abs()), fd)
    {
      host := DoClose(host, fd);
    }
  }

  // ---------------------------------------------------------------- each call stays inside

  lemma NowTame(w: World)
    requires Sound(w.host)
    ensures Tame(w.host, Now(w)) && Now(w).fds == w.host.fds && Now(w).nextFd == w.host.nextFd
  {
    SettleTame(w.host, Head(w.plan));
  }

  lemma OpenRootSafe(w: World)
    requires Sound(w.host)
    ensures var (w', r) := SysOpenRoot(w);
      && Tame(w.host, w'.host) && r != Err(Blocked)
      && (r.Err? ==> w'.host.fds == w.host.fds)
      && (r.Ok? ==> OpenedInside(w.host, w'.host, r.value) && IsDir(w'.host.fs, w'.host.fds[r.value]))
  {
    NowTame(w);
    TameTransitive(w.host, Now(w), SysOpenRoot(w).0.host);
  }

  lemma OpenAtSafe(w: World, dir: Fd, name: string, flags: Flags)
    requires Sound(w.host) && Held(w.host, dir) && Valid(name) && (flags.nofollow || flags.exclusive)
    ensures var (w', r) := SysOpenAt(w, dir, name, flags);
      && Tame(w.host, w'.host)
      && (r.Ok? ==> OpenedInside(w.host, w'.host, r.value))
      && (r.Ok? && flags.directory && !flags.exclusive ==> IsDir(w'.host.fs, w'.host.fds[r.value]))
      && (r.Ok? && flags.exclusive ==> w'.host.fs.nodes[w'.host.fds[r.value]].File?)
      && (flags.nonblock || flags.directory || flags.exclusive ==> r != Err(Blocked))
  {
    NowTame(w);
    OpenTame(Now(w), Head(w.plan), dir, name, flags);
    hide DoOpen, Settle;
    TameTransitive(w.host, Now(w), SysOpenAt(w, dir, name, flags).0.host);
  }

  lemma MkdirSafe(w: World, dir: Fd, name: string)
    requires Sound(w.host) && Held(w.host, dir) && Valid(name)
    ensures Tame(w.host, SysMkdir(w, dir, name).0.host) && SysMkdir(w, dir, name).1 != Err(Blocked)
  {
    NowTame(w);
    MkdirTame(Now(w), Head(w.plan), dir, name);
    TameTransitive(w.host, Now(w), SysMkdir(w, dir, name).0.host);
  }

  lemma FchmodSafe(w: World, fd: Fd, mode: nat)
    requires Sound(w.host) && Held(w.host, fd)
    ensures Tame(w.host, SysFchmod(w, fd, mode).0.host) && SysFchmod(w, fd, mode).1 != Err(Blocked)
  {
    NowTame(w);
    FchmodTame(Now(w), Head(w.plan), fd, mode);
    TameTransitive(w.host, Now(w), SysFchmod(w, fd, mode).0.host);
  }

  lemma WriteSafe(w: World, fd: Fd, data: seq<byte>)
    requires Sound(w.host) && Held(w.host, fd)
    ensures Tame(w.host, SysWrite(w, fd, data).0.host) && SysWrite(w, fd, data).1 != Err(Blocked)
  {
    NowTame(w);
    WriteTame(Now(w), Head(w.plan), fd, data);
    TameTransitive(w.host, Now(w), SysWrite(w, fd, data).0.host);
  }

  lemma ReadSafe(w: World, fd: Fd, offset: nat, wanted: nat)
    requires Sound(w.host) && Held(w.host, fd)
    ensures Tame(w.host, SysFstat(w, fd).0.host) && SysFstat(w, fd).1 != Err(Blocked)
    ensures Tame(w.host, SysRead(w, fd, offset, wanted).0.host) && SysRead(w, fd, offset, wanted).1 != Err(Blocked)
  {
    NowTame(w);
    ReadTame(Now(w), Head(w.plan), fd, offset, wanted);
    TameTransitive(w.host, Now(w), SysFstat(w, fd).0.host);
    TameTransitive(w.host, Now(w), SysRead(w, fd, offset, wanted).0.host);
  }

  lemma ReplaceSafe(w: World, dir: Fd, source: string, target: string)
    requires Sound(w.host) && Held(w.host, dir) && Valid(source) && Valid(target)
    ensures Tame(w.host, SysReplace(w, dir, source, target).0.host)
    ensures SysReplace(w, dir, source, target).1 != Err(Blocked)
  {
    NowTame(w);
    ReplaceTame(Now(w), Head(w.plan), dir, source, target);
    TameTransitive(w.host, Now(w), SysReplace(w, dir, source, target).0.host);
  }

  lemma UnlinkSafe(w: World, dir: Fd, name: string)
    requires Sound(w.host) && Held(w.host, dir) && Valid(name)
    ensures Tame(w.host, SysUnlink(w, dir, name).0.host) && SysUnlink(w, dir, name).1 != Err(Blocked)
  {
    NowTame(w);
    UnlinkTame(Now(w), Head(w.plan), dir, name);
    TameTransitive(w.host, Now(w), SysUnlink(w, dir, name).0.host);
  }

  lemma CloseSafe(w: World, fd: Fd)
    requires Sound(w.host) && fd in w.host.fds
    ensures Tame(w.host, SysClose(w, fd).host)
  {
  }

  // ---------------------------------------------------------------- when the sandbox only reads

  ghost predicate Calm(plan: seq<Turn>) {
    forall i :: 0 <= i < |plan| ==> plan[i].edits == []
  }

  /** No call fails for a reason of its own. */
  ghost predicate Faultless(plan: seq<Turn>) {
    forall i :: 0 <= i < |plan| ==> !plan[i].fault
  }

  lemma CalmNow(w: World)
    requires Calm(w.plan)
    ensures Now(w) == w.host && Calm(Tail(w.plan))
    ensures Faultless(w.plan) ==> !Head(w.plan).fault && Faultless(Tail(w.plan))
  {
  }
}
