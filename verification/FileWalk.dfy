/** The walk to the parent directory while the sandbox only reads: what every call of it shows a
  * reader of a path, and exactly when it arrives. */
module FileWalk {
  import opened Strings
  import opened Utf8
  import opened WorkspacePath
  import opened HostFiles
  import opened FileViews
  import opened HostKernel
  import opened FileIo
  import opened FileSafety

  ghost predicate NoNull(parts: seq<string>) {
    forall i :: 0 <= i < |parts| ==> '\0' !in parts[i]
  }

  function Shown(w: World, parts: seq<string>): Seen {
    Look(w.host.fs.nodes, w.host.fs.root, parts)
  }

  /** What comes after `w` in the course of `w'` goes on from where `w` was. */
  ghost predicate Follows(w: World, w': World) {
    && |w.history| <= |w'.history| && w'.history[..|w.history|] == w.history
    && w'.host.fs.root == w.host.fs.root && Calm(w'.plan) && (Faultless(w.plan) ==> Faultless(w'.plan))
  }

  /** From `w` to `w'` the path never showed anything but what it shows in `w`. */
  ghost predicate Quiet(w: World, w': World, parts: seq<string>) {
    && Follows(w, w') && Shown(w', parts) == Shown(w, parts)
    && (forall i :: |w.history| <= i < |w'.history| ==>
          Look(w'.history[i], w.host.fs.root, parts) == Shown(w, parts))
  }

  lemma QuietTransitive(a: World, b: World, c: World, parts: seq<string>)
    requires Quiet(a, b, parts) && Quiet(b, c, parts)
    ensures Quiet(a, c, parts)
  {
    hide Look, Calm, Faultless;
    assert c.history[..|a.history|] == c.history[..|b.history|][..|a.history|];
    forall i | |a.history| <= i < |c.history|
      ensures Look(c.history[i], a.host.fs.root, parts) == Shown(a, parts)
    {
      if i < |b.history| {
        assert c.history[i] == c.history[..|b.history|][i];
      }
    }
  }

  /** One call that leaves the path as it was. */
  lemma OneCall(w: World, h': Host, parts: seq<string>)
    requires Calm(w.plan) && h'.fs.root == w.host.fs.root
    requires Look(h'.fs.nodes, h'.fs.root, parts) == Shown(w, parts)
    ensures Quiet(w, Commit(w, h'), parts)
  {
    CalmNow(w);
    hide Look, Calm, Faultless;
  }

  lemma CloseQuiet(w: World, fd: Fd, parts: seq<string>)
    requires Calm(w.plan) && fd in w.host.fds
    ensures Quiet(w, SysClose(w, fd), parts)
  {
  }

  /** A descriptor of the walk: it denotes the directory that the first `k` components lead to. */
  ghost predicate At(w: World, fd: Fd, parts: seq<string>, k: nat) {
    && k <= |parts| && Sound(w.host) && Calm(w.plan) && Held(w.host, fd) && IsDir(w.host.fs, w.host.fds[fd])
    && Walk(w.host.fs.nodes, w.host.fs.root, parts[..k]) == Some(w.host.fds[fd])
  }

  lemma EntriesExist(fs: Fs, c: Inode, name: string)
    requires Closed(fs) && c in fs.workspace && IsDir(fs, c) && name in fs.nodes[c].entries
    ensures fs.nodes[c].entries[name] in fs.workspace && fs.nodes[c].entries[name] in fs.nodes
  {
  }

  // ---------------------------------------------------------------- the walk

  /** `os.mkdir` on the way: afterwards the name is there, unless the call failed. */
  ghost predicate Made(fs: Fs, fs': Fs, c: Inode, name: string, made: bool) {
    && DirAt(fs.nodes, c)
    && if made
       then name !in fs.nodes[c].entries && DirAt(fs'.nodes, c) && name in fs'.nodes[c].entries
            && DirAt(fs'.nodes, fs'.nodes[c].entries[name]) && fs'.nodes[fs'.nodes[c].entries[name]].entries == map[]
       else fs'.nodes == fs.nodes
  }

  lemma MkdirQuiet(w: World, fd: Fd, parts: seq<string>, k: nat)
    requires At(w, fd, parts, k) && k + 1 < |parts| && Plain(parts[k])
    ensures var (w', r) := SysMkdir(w, fd, parts[k]);
      && Quiet(w, w', parts) && At(w', fd, parts, k) && w'.host.fds == w.host.fds
      && Made(w.host.fs, w'.host.fs, w.host.fds[fd], parts[k], r.Ok?)
      && (r.Ok? ==> '\0' !in parts[k])
      && (Faultless(w.plan) ==>
            && (r.Ok? || r.error == Exists <==> '\0' !in parts[k])
            && (r == Err(Exists) ==> parts[k] in w.host.fs.nodes[w.host.fds[fd]].entries))
  {
    CalmNow(w);
    MkdirSafe(w, fd, parts[k]);
    var fs, c := w.host.fs, w.host.fds[fd];
    if parts[k] in fs.nodes[c].entries {
      EntriesExist(fs, c, parts[k]);
    } else {
      MadeDirectory(fs, c, parts[k]);
      MkdirShowsNothing(fs, parts, k, c);
    }
    var (w', r) := SysMkdir(w, fd, parts[k]);
    hide Closed, Confined, Look, Walk, Calm, Faultless;
    OneCall(w, w'.host, parts);
  }

  ghost predicate Passable(nodes: Nodes, c: Inode, name: string, create: bool) {
    && '\0' !in name && DirAt(nodes, c)
    && (if name in nodes[c].entries then DirAt(nodes, nodes[c].entries[name]) else create)
  }

  /** `os.open` of the next directory: it only moves on along the path. */
  lemma ChildQuiet(w: World, fd: Fd, parts: seq<string>, k: nat)
    requires At(w, fd, parts, k) && k + 1 < |parts| && Plain(parts[k])
    ensures var (w', r) := SysOpenAt(w, fd, parts[k], DIRECTORY);
      && w'.host.fs == w.host.fs && Quiet(w, w', parts) && Sound(w'.host)
      && (r.Err? ==> w'.host.fds == w.host.fds) && (r.Ok? ==> OpenedInside(w.host, w'.host, r.value))
      && (r.Ok? ==> Passable(w.host.fs.nodes, w.host.fds[fd], parts[k], false) && At(w', r.value, parts, k + 1))
      && (r.Ok? ==> w'.host.fds[r.value] == w.host.fs.nodes[w.host.fds[fd]].entries[parts[k]])
      && (Faultless(w.plan) && Passable(w.host.fs.nodes, w.host.fds[fd], parts[k], false) ==> r.Ok?)
  {
    CalmNow(w);
    OpenAtSafe(w, fd, parts[k], DIRECTORY);
    var fs, c := w.host.fs, w.host.fds[fd];
    if parts[k] in fs.nodes[c].entries {
      EntriesExist(fs, c, parts[k]);
      WalkStep(fs.nodes, fs.root, parts, k, c);
    }
    var (w', r) := SysOpenAt(w, fd, parts[k], DIRECTORY);
    hide Closed, Confined, Look, Walk, Calm, Faultless;
    OneCall(w, w'.host, parts);
  }

  lemma FchmodQuiet(w: World, fd: Fd, parts: seq<string>, k: nat)
    requires At(w, fd, parts, k)
    ensures var (w', r) := SysFchmod(w, fd, ALL_MODES);
      && w'.host.fs.nodes == w.host.fs.nodes && w'.host.fds == w.host.fds
      && Quiet(w, w', parts) && At(w', fd, parts, k) && (Faultless(w.plan) ==> r.Ok?)
  {
    CalmNow(w);
    FchmodSafe(w, fd, ALL_MODES);
    var w' := SysFchmod(w, fd, ALL_MODES).0;
    hide Closed, Look, Walk, Calm, Faultless;
    OneCall(w, w'.host, parts);
  }

  lemma CloseOther(w: World, fd: Fd, other: Fd, parts: seq<string>, k: nat)
    requires At(w, fd, parts, k) && other in w.host.fds && other != fd
    ensures At(SysClose(w, other), fd, parts, k) && Quiet(w, SysClose(w, other), parts)
  {
    CloseQuiet(w, other, parts);
    hide Closed, Walk, Quiet;
  }

  /** What one turn of the walk did: it moved on, or made an empty directory and moved into it. */
  ghost predicate Entered(w: World, c: Inode, name: string, w': World, c': Inode, create: bool) {
    && DirAt(w.host.fs.nodes, c)
    && if name in w.host.fs.nodes[c].entries
       then w'.host.fs.nodes == w.host.fs.nodes && c' == w.host.fs.nodes[c].entries[name]
       else create && DirAt(w'.host.fs.nodes, c') && w'.host.fs.nodes[c'].entries == map[]
  }

  lemma DescendQuiet(w: World, fd: Fd, parts: seq<string>, k: nat, create: bool)
    requires At(w, fd, parts, k) && k + 1 < |parts| && Plain(parts[k])
    ensures var (w', r) := Descend(w, fd, parts[k], create);
      && Quiet(w, w', parts) && (!create ==> w'.host.fs.nodes == w.host.fs.nodes)
      && (r.Ok? ==> At(w', r.value, parts, k + 1) && '\0' !in parts[k])
      && (r.Ok? ==> Entered(w, w.host.fds[fd], parts[k], w', w'.host.fds[r.value], create))
      && (Faultless(w.plan) ==> (r.Ok? <==> Passable(w.host.fs.nodes, w.host.fds[fd], parts[k], create)))
  {
    hide SysMkdir, SysOpenAt, SysFchmod, Sound, Confined, Tame, Walk, Look, Calm, Faultless;
    assert Quiet(w, w, parts) by { SelfQuiet(w, parts); }
    var w1 := if create then SysMkdir(w, fd, parts[k]).0 else w;
    if create {
      MkdirQuiet(w, fd, parts, k);
    }
    if create && SysMkdir(w, fd, parts[k]).1.Err? && SysMkdir(w, fd, parts[k]).1.error != Exists {
      CloseQuiet(w1, fd, parts);
      QuietTransitive(w, w1, SysClose(w1, fd), parts);
    } else {
      ChildQuiet(w1, fd, parts, k);
      var (w2, child) := SysOpenAt(w1, fd, parts[k], DIRECTORY);
      QuietTransitive(w, w1, w2, parts);
      CloseQuiet(w2, fd, parts);
      var w3 := SysClose(w2, fd);
      QuietTransitive(w, w2, w3, parts);
      if child.Ok? {
        CloseOther(w2, child.value, fd, parts, k + 1);
        if create {
          FchmodQuiet(w3, child.value, parts, k + 1);
          var w4 := SysFchmod(w3, child.value, ALL_MODES).0;
          QuietTransitive(w, w3, w4, parts);
          CloseQuiet(w4, child.value, parts);
          QuietTransitive(w, w4, SysClose(w4, child.value), parts);
        }
      }
    }
  }

  lemma SelfQuiet(w: World, parts: seq<string>)
    requires Calm(w.plan)
    ensures Quiet(w, w, parts)
  {
  }

  lemma {:induction false} DescentsQuiet(w: World, fd: Fd, parts: seq<string>, k: nat, create: bool)
    requires At(w, fd, parts, k) && k < |parts| && AllPlain(parts)
    ensures var (w', r) := Descents(w, fd, parts[k..|parts| - 1], create);
      && Quiet(w, w', parts) && (!create ==> w'.host.fs.nodes == w.host.fs.nodes)
      && (r.Ok? ==> At(w', r.value, parts, |parts| - 1) && NoNull(parts[k..|parts| - 1]))
    decreases |parts| - k
  {
    hide Descend, Closed, Walk, Quiet, Calm, Entered, Passable;
    SelfQuiet(w, parts);
    var rest := parts[k..|parts| - 1];
    if rest != [] {
      assert rest[0] == parts[k] && rest[1..] == parts[k + 1..|parts| - 1];
      DescendQuiet(w, fd, parts, k, create);
      var (w1, child) := Descend(w, fd, parts[k], create);
      if child.Ok? {
        DescentsQuiet(w1, child.value, parts, k + 1, create);
        QuietTransitive(w, w1, Descents(w1, child.value, rest[1..], create).0, parts);
      }
    }
  }

  /** When nothing fails on its own, the walk of a write arrives exactly if every directory on the
    * way exists or can be made. */
  lemma {:induction false} DescentsReady(w: World, fd: Fd, parts: seq<string>, k: nat, temporary: string)
    requires At(w, fd, parts, k) && k < |parts| && AllPlain(parts) && Faultless(w.plan)
    ensures var (w', r) := Descents(w, fd, parts[k..|parts| - 1], true);
      NoNull(parts[k..|parts| - 1]) && Ready(w.host.fs.nodes, w.host.fds[fd], parts[k..], temporary)
      <==> r.Ok? && Ready(w'.host.fs.nodes, w'.host.fds[r.value], [Leaf(parts)], temporary)
    decreases |parts| - k
  {
    hide Descend, Closed, Walk, Calm, Look;
    var rest := parts[k..|parts| - 1];
    if rest == [] {
      assert parts[k..] == [Leaf(parts)];
    } else {
      assert rest[0] == parts[k] && rest[1..] == parts[k + 1..|parts| - 1];
      assert parts[k..][0] == parts[k] && parts[k..][1..] == parts[k + 1..];
      DescendQuiet(w, fd, parts, k, true);
      var (w1, child) := Descend(w, fd, parts[k], true);
      if child.Ok? {
        DescentsReady(w1, child.value, parts, k + 1, temporary);
        assert NoNull(rest) <==> NoNull(rest[1..]) by { assert rest == [parts[k]] + rest[1..]; }
        assert Ready(w.host.fs.nodes, w.host.fds[fd], parts[k..], temporary)
            <==> Ready(w1.host.fs.nodes, w1.host.fds[child.value], parts[k + 1..], temporary);
      } else {
        assert NoNull(rest) ==> '\0' !in parts[k];
        assert !(NoNull(rest) && Ready(w.host.fs.nodes, w.host.fds[fd], parts[k..], temporary)) by {
          if NoNull(rest) && parts[k] in w.host.fs.nodes[w.host.fds[fd]].entries {
            ReadyIsDir(w.host.fs.nodes, w.host.fds[fd], parts[k..], temporary);
          }
        }
      }
    }
  }

  lemma ReadyIsDir(nodes: Nodes, d: Inode, parts: seq<string>, temporary: string)
    requires |parts| > 1 && DirAt(nodes, d) && parts[0] in nodes[d].entries
    ensures Ready(nodes, d, parts, temporary) ==> DirAt(nodes, nodes[d].entries[parts[0]])
  {
    if Ready(nodes, d, parts, temporary) {
      assert Ready(nodes, nodes[d].entries[parts[0]], parts[1..], temporary);
    }
  }

  /** The directories that the first `k` components lead to are open to everyone. */
  ghost predicate OpenedUp(fs: Fs, parts: seq<string>, k: nat) {
    forall j :: 0 < j <= k <= |parts| ==> WideOpen(fs, Walk(fs.nodes, fs.root, parts[..j]))
  }

  predicate WideOpen(fs: Fs, reached: Option<Inode>) {
    reached.Some? && IsDir(fs, reached.value) && reached.value in fs.modes && fs.modes[reached.value] == 0x1FF
  }

  lemma MkdirGentle(w: World, fd: Fd, name: string)
    requires Sound(w.host) && Calm(w.plan) && Held(w.host, fd) && IsDir(w.host.fs, w.host.fds[fd]) && Plain(name)
    ensures var fs := SysMkdir(w, fd, name).0.host.fs;
      Gentle(w.host.fs.nodes, fs.nodes) && fs.modes == w.host.fs.modes && fs.root == w.host.fs.root
  {
    CalmNow(w);
    var fs, c := w.host.fs, w.host.fds[fd];
    if name !in fs.nodes[c].entries {
      MadeDirectory(fs, c, name);
    }
  }

  /** One turn of a creating walk opens up the directory it enters, and no other. */
  lemma DescendOpensUp(w: World, fd: Fd, parts: seq<string>, k: nat)
    requires At(w, fd, parts, k) && k + 1 < |parts| && Plain(parts[k])
    ensures var (w', r) := Descend(w, fd, parts[k], true);
      r.Ok? ==>
        && Gentle(w.host.fs.nodes, w'.host.fs.nodes) && w'.host.fs.root == w.host.fs.root
        && w'.host.fs.modes == w.host.fs.modes[w'.host.fds[r.value] := 0x1FF]
  {
    hide SysMkdir, SysOpenAt, Sound, Confined, Tame, Walk, Look, Calm, Faultless, Gentle;
    MkdirQuiet(w, fd, parts, k);
    MkdirGentle(w, fd, parts[k]) by { assert Sound(w.host); }
    var (w1, made) := SysMkdir(w, fd, parts[k]);
    if made.Ok? || made.error == Exists {
      ChildQuiet(w1, fd, parts, k);
      var (w2, child) := SysOpenAt(w1, fd, parts[k], DIRECTORY);
      if child.Ok? {
        CloseOther(w2, child.value, fd, parts, k + 1);
        CalmNow(SysClose(w2, fd));
      }
    }
  }

  lemma {:induction false} DescentsOpenUp(w: World, fd: Fd, parts: seq<string>, k: nat)
    requires At(w, fd, parts, k) && k < |parts| && AllPlain(parts) && OpenedUp(w.host.fs, parts, k)
    ensures var (w', r) := Descents(w, fd, parts[k..|parts| - 1], true);
      r.Ok? ==> OpenedUp(w'.host.fs, parts, |parts| - 1)
    decreases |parts| - k
  {
    hide Descend, Closed, Walk, Quiet, Calm, Entered, Passable, OpenedUp;
    var rest := parts[k..|parts| - 1];
    if rest != [] {
      assert rest[0] == parts[k] && rest[1..] == parts[k + 1..|parts| - 1];
      DescendQuiet(w, fd, parts, k, true);
      DescendOpensUp(w, fd, parts, k);
      var (w1, child) := Descend(w, fd, parts[k], true);
      if child.Ok? {
        OneMoreOpen(w.host.fs, w1.host.fs, parts, k, w1.host.fds[child.value]);
        DescentsOpenUp(w1, child.value, parts, k + 1);
      }
    }
  }

  lemma OneMoreOpen(fs: Fs, fs': Fs, parts: seq<string>, k: nat, c: Inode)
    requires k < |parts| && OpenedUp(fs, parts, k) && Gentle(fs.nodes, fs'.nodes) && fs'.root == fs.root
    requires fs'.modes == fs.modes[c := 0x1FF]
    requires Walk(fs'.nodes, fs'.root, parts[..k + 1]) == Some(c) && IsDir(fs', c)
    ensures OpenedUp(fs', parts, k + 1)
  {
    hide Walk;
    forall j | 0 < j <= k ensures WideOpen(fs', Walk(fs'.nodes, fs'.root, parts[..j])) {
      assert WideOpen(fs, Walk(fs.nodes, fs.root, parts[..j]));
      var p := Walk(fs.nodes, fs.root, parts[..j]).value;
      WalkSurvives(fs.nodes, fs'.nodes, fs.root, parts[..j], p);
      WentThrough(fs'.nodes, fs'.root, parts, j, k + 1);
    }
  }

  /** What a walk leads through is a directory. */
  lemma WentThrough(nodes: Nodes, root: Inode, parts: seq<string>, j: nat, k: nat)
    requires j < k <= |parts| && Walk(nodes, root, parts[..k]).Some?
    ensures Walk(nodes, root, parts[..j]).Some? && DirAt(nodes, Walk(nodes, root, parts[..j]).value)
  {
    assert parts[..k] == parts[..j] + parts[j..k];
    WalkConcat(nodes, root, parts[..j], parts[j..k]);
  }

  /** The walk of a write that arrives leaves every directory on its way, made or found, open to everyone,
    * whatever the process's own mask is. */
  lemma OpenedParentOpensUp(w: World, parts: seq<string>)
    requires Sound(w.host) && Calm(w.plan) && parts != [] && AllPlain(parts)
    ensures var (w', r) := OpenedParent(w, parts, true);
      r.Ok? ==> OpenedUp(w'.host.fs, parts, |parts| - 1)
  {
    OpenRootQuiet(w, parts);
    var (w1, root) := SysOpenRoot(w);
    hide SysOpenRoot, Descents, Closed, Walk, Quiet, Calm;
    if root.Ok? {
      DescentsOpenUp(w1, root.value, parts, 0);
      assert parts[0..|parts| - 1] == parts[..|parts| - 1];
    }
  }

  ghost predicate Reaches(nodes: Nodes, d: Inode, parts: seq<string>) {
    Walk(nodes, d, parts).Some? && DirAt(nodes, Walk(nodes, d, parts).value)
  }

  /** When nothing fails on its own, the walk of a read arrives exactly if the directory is there. */
  lemma {:induction false} DescentsReach(w: World, fd: Fd, parts: seq<string>, k: nat)
    requires At(w, fd, parts, k) && k < |parts| && AllPlain(parts) && Faultless(w.plan)
    ensures var r := Descents(w, fd, parts[k..|parts| - 1], false).1;
      r.Ok? <==> NoNull(parts[k..|parts| - 1]) && Reaches(w.host.fs.nodes, w.host.fds[fd], parts[k..|parts| - 1])
    decreases |parts| - k
  {
    hide Descend, Closed, Calm, Look;
    var rest := parts[k..|parts| - 1];
    if rest != [] {
      assert rest[0] == parts[k] && rest[1..] == parts[k + 1..|parts| - 1];
      DescendQuiet(w, fd, parts, k, false);
      var (w1, child) := Descend(w, fd, parts[k], false);
      assert NoNull(rest) <==> '\0' !in parts[k] && NoNull(rest[1..]) by { assert rest == [parts[k]] + rest[1..]; }
      if child.Ok? {
        DescentsReach(w1, child.value, parts, k + 1);
      } else if '\0' !in parts[k] && parts[k] in w.host.fs.nodes[w.host.fds[fd]].entries {
        var next := w.host.fs.nodes[w.host.fds[fd]].entries[parts[k]];
        assert Walk(w.host.fs.nodes, w.host.fds[fd], rest) == Walk(w.host.fs.nodes, next, rest[1..]);
        assert !DirAt(w.host.fs.nodes, next);
      }
    }
  }

  // ---------------------------------------------------------------- `_open_parent`

  lemma OpenRootQuiet(w: World, parts: seq<string>)
    requires Sound(w.host) && Calm(w.plan)
    ensures var (w', r) := SysOpenRoot(w);
      && Quiet(w, w', parts) && w'.host.fs == w.host.fs
      && (r.Ok? ==> At(w', r.value, parts, 0) && w'.host.fds[r.value] == w.host.fs.root)
      && (Faultless(w.plan) ==> r.Ok?)
  {
    CalmNow(w);
    OpenRootSafe(w);
    assert parts[..0] == [];
    var w' := SysOpenRoot(w).0;
    hide Closed, Confined, Look, Calm, Faultless;
    OneCall(w, w'.host, parts);
  }

  /** While the sandbox only reads, the walk never changes what the path shows, and arrives at the
    * directory that the path leads to. */
  lemma OpenedParentQuiet(w: World, parts: seq<string>, create: bool)
    requires Sound(w.host) && Calm(w.plan) && parts != [] && AllPlain(parts)
    ensures var (w', r) := OpenedParent(w, parts, create);
      && Quiet(w, w', parts) && (!create ==> w'.host.fs.nodes == w.host.fs.nodes)
      && (r.Ok? ==> At(w', r.value, parts, |parts| - 1) && NoNull(Parent(parts)))
  {
    hide SysOpenRoot, Descents, Closed, Walk, Quiet, Calm;
    OpenRootQuiet(w, parts);
    var (w1, root) := SysOpenRoot(w);
    if root.Ok? {
      DescentsQuiet(w1, root.value, parts, 0, create);
      assert parts[0..|parts| - 1] == Parent(parts);
      QuietTransitive(w, w1, Descents(w1, root.value, Parent(parts), create).0, parts);
    }
  }

  lemma OpenedParentReady(w: World, parts: seq<string>, temporary: string)
    requires Sound(w.host) && Calm(w.plan) && Faultless(w.plan) && parts != [] && AllPlain(parts)
    ensures var (w', r) := OpenedParent(w, parts, true);
      NoNull(Parent(parts)) && Ready(w.host.fs.nodes, w.host.fs.root, parts, temporary)
      <==> r.Ok? && Ready(w'.host.fs.nodes, w'.host.fds[r.value], [Leaf(parts)], temporary)
  {
    hide SysOpenRoot, Descents, Closed, Walk, Calm, Ready;
    OpenRootQuiet(w, parts);
    var (w1, root) := SysOpenRoot(w);
    DescentsReady(w1, root.value, parts, 0, temporary);
    assert parts[0..|parts| - 1] == Parent(parts) && parts[0..] == parts;
  }

  lemma OpenedParentReach(w: World, parts: seq<string>)
    requires Sound(w.host) && Calm(w.plan) && Faultless(w.plan) && parts != [] && AllPlain(parts)
    ensures OpenedParent(w, parts, false).1.Ok?
       <==> NoNull(Parent(parts)) && Reaches(w.host.fs.nodes, w.host.fs.root, Parent(parts))
  {
    hide SysOpenRoot, Descents, Closed, Walk, Calm;
    OpenRootQuiet(w, parts);
    var (w1, root) := SysOpenRoot(w);
    DescentsReach(w1, root.value, parts, 0);
    assert parts[0..|parts| - 1] == Parent(parts);
  }

  /** The same walk, seen from another name in the same directory. */
  lemma OpenedSibling(w: World, parts: seq<string>, name: string, create: bool)
    requires Sound(w.host) && Calm(w.plan) && parts != [] && AllPlain(parts) && Plain(name)
    ensures Quiet(w, OpenedParent(w, parts, create).0, Parent(parts) + [name])
    ensures OpenedParent(w, parts, create) == OpenedParent(w, Parent(parts) + [name], create)
  {
    var sibling := Parent(parts) + [name];
    assert sibling[..|sibling| - 1] == parts[..|parts| - 1];
    OpenedParentQuiet(w, sibling, create);
  }
}
