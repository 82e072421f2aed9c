/** Containment: for every plan of the world, reading and writing workspace files touches and changes
  * workspace inodes only, and closes every descriptor of the walk exactly once. */
module FileSafety {
  import opened Strings
  import opened Utf8
  import opened WorkspacePath
  import opened HostFiles
  import opened HostKernel
  import opened FileIo

  type Fds = map<Fd, Inode>

  /** The descriptors of a walk at some moment: those before it, and one that denotes a workspace
    * inode if the walk succeeded. */
  ghost predicate Walked(base: Fds, h': Host, r: Result<Fd, Error>) {
    match r
    case Err(e) => h'.fds == base && e != Blocked
    case Ok(fd) => fd !in base && Held(h', fd) && IsDir(h'.fs, h'.fds[fd]) && h'.fds == base[fd := h'.fds[fd]]
  }

  lemma CloseAdded(base: Fds, fd: Fd, i: Inode)
    requires fd !in base
    ensures base[fd := i] - {fd} == base
  {
  }

  lemma DescendSafe(w: World, descriptor: Fd, component: string, create: bool)
    requires Sound(w.host) && Held(w.host, descriptor) && Plain(component)
    ensures var (w', r) := Descend(w, descriptor, component, create);
      Tame(w.host, w'.host) && Walked(w.host.fds - {descriptor}, w'.host, r)
  {
    hide SysMkdir, SysOpenAt, SysFchmod, Tame, Closed;
    var base := w.host.fds - {descriptor};
    var w1 := if create then SysMkdir(w, descriptor, component).0 else w;
    if create {
      MkdirStep(w, descriptor, component);
    } else {
      TameReflexive(w.host);
    }
    if create && SysMkdir(w, descriptor, component).1.Err? && SysMkdir(w, descriptor, component).1.error != Exists {
      CloseStep(w, w1, descriptor);
    } else {
      ChildStep(w, w1, descriptor, component);
      var (w2, child) := SysOpenAt(w1, descriptor, component, DIRECTORY);
      var w3 := SysClose(w2, descriptor);
      if child.Ok? && create {
        ModeStep(w, w3, child.value, base);
      }
    }
  }

  lemma TameReflexive(h: Host)
    requires Sound(h)
    ensures Tame(h, h)
  {
  }

  lemma MkdirStep(w: World, descriptor: Fd, component: string)
    requires Sound(w.host) && Held(w.host, descriptor) && Plain(component)
    ensures var (w1, made) := SysMkdir(w, descriptor, component);
      Tame(w.host, w1.host) && Sound(w1.host) && w1.host.fds == w.host.fds
      && Held(w1.host, descriptor) && made != Err(Blocked)
  {
    MkdirSafe(w, descriptor, component);
    assert Now(w).fds == w.host.fds;
  }

  lemma CloseStep(w: World, w1: World, fd: Fd)
    requires Tame(w.host, w1.host) && fd in w1.host.fds
    ensures Tame(w.host, SysClose(w1, fd).host) && Sound(SysClose(w1, fd).host)
  {
    CloseSafe(w1, fd);
    TameTransitive(w.host, w1.host, SysClose(w1, fd).host);
  }

  lemma ChildStep(w: World, w1: World, descriptor: Fd, component: string)
    requires Tame(w.host, w1.host) && Sound(w1.host) && w1.host.fds == w.host.fds
    requires Held(w1.host, descriptor) && Plain(component)
    ensures var (w2, child) := SysOpenAt(w1, descriptor, component, DIRECTORY);
      && descriptor in w2.host.fds
      && var w3 := SysClose(w2, descriptor);
      Tame(w.host, w3.host) && Sound(w3.host) && Walked(w.host.fds - {descriptor}, w3.host, child)
  {
    OpenAtSafe(w1, descriptor, component, DIRECTORY);
    var (w2, child) := SysOpenAt(w1, descriptor, component, DIRECTORY);
    TameTransitive(w.host, w1.host, w2.host);
    CloseStep(w, w2, descriptor);
    assert Now(w1).fds == w1.host.fds;
    if child.Ok? {
      assert w2.host.fds == w.host.fds[child.value := w2.host.fds[child.value]];
    }
  }

  lemma ModeStep(w: World, w3: World, child: Fd, base: Fds)
    requires Tame(w.host, w3.host) && Sound(w3.host) && Walked(base, w3.host, Ok(child))
    ensures var (w4, changed) := SysFchmod(w3, child, ALL_MODES);
      && Tame(w.host, w4.host) && changed != Err(Blocked)
      && (changed.Ok? ==> Walked(base, w4.host, Ok(child)))
      && (changed.Err? ==> Tame(w.host, SysClose(w4, child).host) && SysClose(w4, child).host.fds == base)
  {
    FchmodSafe(w3, child, ALL_MODES);
    var (w4, changed) := SysFchmod(w3, child, ALL_MODES);
    TameTransitive(w.host, w3.host, w4.host);
    assert Now(w3).fds == w3.host.fds;
    CloseStep(w, w4, child);
    CloseAdded(base, child, w3.host.fds[child]);
  }

  lemma {:induction false} DescentsSafe(w: World, descriptor: Fd, components: seq<string>, create: bool)
    requires Sound(w.host) && Held(w.host, descriptor)
    requires IsDir(w.host.fs, w.host.fds[descriptor]) && AllPlain(components)
    ensures var (w', r) := Descents(w, descriptor, components, create);
      Tame(w.host, w'.host) && Walked(w.host.fds - {descriptor}, w'.host, r)
    decreases components
  {
    hide Descend, Tame, Closed;
    if components == [] {
      TameReflexive(w.host);
      assert w.host.fds == (w.host.fds - {descriptor})[descriptor := w.host.fds[descriptor]];
    } else {
      DescendSafe(w, descriptor, components[0], create);
      var (w1, child) := Descend(w, descriptor, components[0], create);
      TameIsSound(w.host, w1.host);
      if child.Ok? {
        DescentsSafe(w1, child.value, components[1..], create);
        CloseAdded(w.host.fds - {descriptor}, child.value, w1.host.fds[child.value]);
        TameTransitive(w.host, w1.host, Descents(w1, child.value, components[1..], create).0.host);
      }
    }
  }

  lemma TameIsSound(h: Host, h': Host)
    requires Tame(h, h')
    ensures Sound(h')
  {
  }

  lemma OpenedParentSafe(w: World, parts: seq<string>, create: bool)
    requires Sound(w.host) && parts != [] && AllPlain(parts)
    ensures var (w', r) := OpenedParent(w, parts, create);
      Tame(w.host, w'.host) && Walked(w.host.fds, w'.host, r)
  {
    OpenRootSafe(w);
    hide SysOpenRoot, Descents, Tame, Closed;
    var (w1, root) := SysOpenRoot(w);
    if root.Ok? {
      TameIsSound(w.host, w1.host);
      DescentsSafe(w1, root.value, parts[..|parts| - 1], create);
      CloseAdded(w.host.fds, root.value, w1.host.fds[root.value]);
      TameTransitive(w.host, w1.host, Descents(w1, root.value, parts[..|parts| - 1], create).0.host);
    }
  }

  // ---------------------------------------------------------------- writing

  lemma {:induction false} WrittenSafe(w: World, fd: Fd, data: seq<byte>)
    requires Sound(w.host) && Held(w.host, fd)
    ensures var (w', r) := Written(w, fd, data); Tame(w.host, w'.host) && r != Err(Blocked)
    decreases |data|
  {
    if data == [] {
      TameReflexive(w.host);
    } else {
      WriteSafe(w, fd, data);
      var (w1, n) := SysWrite(w, fd, data);
      hide SysWrite, Closed;
      if n.Ok? {
        WrittenSafe(w1, fd, data[n.value..]);
        TameTransitive(w.host, w1.host, Written(w1, fd, data[n.value..]).0.host);
      }
    }
  }

  lemma WrittenEntrySafe(w: World, parent: Fd, name: string, temporary: string, content: seq<byte>)
    requires Sound(w.host) && Held(w.host, parent) && Plain(name) && Plain(temporary)
    ensures var (w', r) := WrittenEntry(w, parent, name, temporary, content);
      Tame(w.host, w'.host) && w'.host.fds == w.host.fds && r != Err(Blocked)
  {
    OpenAtSafe(w, parent, temporary, CREATE);
    hide SysOpenAt, Written, SysReplace, Closed, Confined;
    var (w1, file) := SysOpenAt(w, parent, temporary, CREATE);
    if file.Ok? {
      FilledSafe(w, w1, parent, file.value, name, temporary, content);
    } else {
      SameFds(w, parent, temporary);
    }
  }

  lemma SameFds(w: World, dir: Fd, name: string)
    requires dir in w.host.fds && SysOpenAt(w, dir, name, CREATE).1.Err?
    ensures SysOpenAt(w, dir, name, CREATE).0.host.fds == w.host.fds
  {
  }

  lemma FilledSafe(w: World, w1: World, parent: Fd, file: Fd, name: string, temporary: string, content: seq<byte>)
    requires Tame(w.host, w1.host) && OpenedInside(w.host, w1.host, file) && Held(w.host, parent)
    requires Plain(name) && Plain(temporary)
    ensures var (w2, filled) := Written(w1, file, content);
      var w3 := SysClose(w2, file);
      && Tame(w.host, w3.host) && w3.host.fds == w.host.fds && filled != Err(Blocked)
      && Tame(w.host, SysReplace(w3, parent, temporary, name).0.host)
      && SysReplace(w3, parent, temporary, name).0.host.fds == w.host.fds
      && SysReplace(w3, parent, temporary, name).1 != Err(Blocked)
  {
    hide Written, Closed, Confined, DoReplace;
    WrittenSafe(w1, file, content);
    var (w2, filled) := Written(w1, file, content);
    TameTransitive(w.host, w1.host, w2.host);
    CloseStep(w, w2, file);
    var w3 := SysClose(w2, file);
    CloseAdded(w.host.fds, file, w1.host.fds[file]);
    assert w3.host.fds == w.host.fds;
    HeldAfter(w.host, w3.host, parent);
    ReplaceSafe(w3, parent, temporary, name);
    TameTransitive(w.host, w3.host, SysReplace(w3, parent, temporary, name).0.host);
    assert Now(w3).fds == w3.host.fds;
  }

  lemma HeldAfter(h: Host, h': Host, fd: Fd)
    requires Tame(h, h') && Held(h, fd) && h'.fds == h.fds
    ensures Held(h', fd) && Sound(h')
  {
  }

  /** `atomic_write` under every interleaving: only the workspace is changed or touched, every
    * descriptor it opened is closed when it ends, and no call of it waits for ever. */
  lemma AtomicWriteContained(w: World, path: string, temporary: string, content: seq<byte>)
    requires Sound(w.host) && Plain(temporary)
    ensures var (w', outcome) := WrittenFile(w, path, temporary, content);
      Tame(w.host, w'.host) && w'.host.fds == w.host.fds && !outcome.Hangs?
  {
    hide OpenedParent, WrittenEntry, SysUnlink, Closed, Confined, RelativeParts;
    match RelativeParts(path)
    case None => TameReflexive(w.host);
    case Some(parts) =>
      PartsPlain(path);
      OpenedParentSafe(w, parts, true);
      var (w1, parent) := OpenedParent(w, parts, true);
      if parent.Ok? {
        WrittenEntrySafe(w1, parent.value, parts[|parts| - 1], temporary, content);
        var w2 := WrittenEntry(w1, parent.value, parts[|parts| - 1], temporary, content).0;
        TameTransitive(w.host, w1.host, w2.host);
        HeldAfter(w1.host, w2.host, parent.value);
        UnlinkStep(w, w2, parent.value, temporary);
        CloseStep(w, w2, parent.value);
        CloseAdded(w.host.fds, parent.value, w1.host.fds[parent.value]);
      }
  }

  lemma PartsPlain(path: string)
    requires RelativeParts(path).Some?
    ensures RelativeParts(path).value != [] && AllPlain(RelativeParts(path).value)
  {
  }

  lemma UnlinkStep(w: World, w2: World, parent: Fd, temporary: string)
    requires Tame(w.host, w2.host) && Held(w2.host, parent) && Plain(temporary)
    ensures var (w3, unlinked) := SysUnlink(w2, parent, temporary);
      && w3.host.fds == w2.host.fds && unlinked != Err(Blocked)
      && Tame(w.host, SysClose(w3, parent).host)
  {
    UnlinkSafe(w2, parent, temporary);
    var (w3, unlinked) := SysUnlink(w2, parent, temporary);
    assert Now(w2).fds == w2.host.fds;
    hide Closed, Confined, SysUnlink;
    TameTransitive(w.host, w2.host, w3.host);
    CloseStep(w, w3, parent);
  }

  // ---------------------------------------------------------------- reading

  lemma {:induction false} ReadUpToSafe(w: World, fd: Fd, got: seq<byte>, wanted: nat)
    requires Sound(w.host) && Held(w.host, fd) && |got| <= wanted
    ensures Tame(w.host, ReadUpTo(w, fd, got, wanted).0.host) && ReadUpTo(w, fd, got, wanted).1 != Err(Blocked)
    decreases wanted - |got|
  {
    if |got| == wanted {
      TameReflexive(w.host);
    } else {
      ReadSafe(w, fd, |got|, wanted - |got|);
      var (w1, chunk) := SysRead(w, fd, |got|, wanted - |got|);
      hide SysRead, Closed;
      if chunk.Ok? && chunk.value != [] {
        ReadUpToSafe(w1, fd, got + chunk.value, wanted);
        TameTransitive(w.host, w1.host, ReadUpTo(w1, fd, got + chunk.value, wanted).0.host);
      }
    }
  }

  lemma FstatStep(w: World, fd: Fd)
    requires Sound(w.host) && Held(w.host, fd)
    ensures var (w', stat) := SysFstat(w, fd);
      && Tame(w.host, w'.host) && w'.host.fds == w.host.fds && stat != Err(Blocked)
      && Sound(w'.host) && Held(w'.host, fd)
  {
    ReadSafe(w, fd, 0, 0);
    var w' := SysFstat(w, fd).0;
    assert w'.host.fds == w.host.fds;
    hide SysFstat, SysRead, Closed, Confined;
    HeldAfter(w.host, w'.host, fd);
  }

  lemma ReadRegularSafe(w: World, fd: Fd, maxBytes: nat)
    requires Sound(w.host) && Held(w.host, fd)
    ensures Tame(w.host, ReadRegular(w, fd, maxBytes).0.host) && !ReadRegular(w, fd, maxBytes).1.Hangs?
  {
    hide SysFstat, Closed, Confined, Tame, ReadUpTo;
    FstatStep(w, fd);
    var w1 := SysFstat(w, fd).0;
    ReadUpToSafe(w1, fd, [], maxBytes + 1);
    TameTransitive(w.host, w1.host, ReadUpTo(w1, fd, [], maxBytes + 1).0.host);
  }

  /** The descriptors after `bounded_read`: those before it, and one more, left open, exactly when
    * the name was opened as a directory; that one denotes a directory of the workspace. */
  ghost predicate LeaksDirectoryOnly(base: Fds, h': Host) {
    || h'.fds == base
    || exists fd :: fd !in base && Held(h', fd) && IsDir(h'.fs, h'.fds[fd]) && h'.fds == base[fd := h'.fds[fd]]
  }

  lemma ReadEntrySafe(w: World, parent: Fd, name: string, maxBytes: nat)
    requires Sound(w.host) && Held(w.host, parent) && Plain(name)
    ensures var (w', outcome) := ReadEntry(w, parent, name, maxBytes);
      var (w1, file) := SysOpenAt(w, parent, name, READ);
      && Tame(w.host, w'.host) && !outcome.Hangs?
      && (if file.Ok? && IsDir(w1.host.fs, w1.host.fds[file.value])
          then w' == w1 && outcome == FileAccessError && OpenedInside(w.host, w'.host, file.value)
          else w'.host.fds == w.host.fds)
  {
    OpenAtSafe(w, parent, name, READ);
    var (w1, file) := SysOpenAt(w, parent, name, READ);
    assert file.Err? ==> w1.host.fds == w.host.fds;
    hide SysOpenAt, ReadRegular, Closed, Confined;
    if file.Ok? && !IsDir(w1.host.fs, w1.host.fds[file.value]) {
      ReadRegularSafe(w1, file.value, maxBytes);
      var w2 := ReadRegular(w1, file.value, maxBytes).0;
      TameTransitive(w.host, w1.host, w2.host);
      CloseStep(w, w2, file.value);
      CloseAdded(w.host.fds, file.value, w1.host.fds[file.value]);
    }
  }

  /** `bounded_read` under every interleaving: only the workspace is touched, every descriptor of the
    * walk is closed, a planted FIFO cannot block it, and what it returns is within the bound. */
  lemma BoundedReadContained(w: World, path: string, maxBytes: nat)
    requires Sound(w.host)
    ensures var (w', outcome) := ReadFile(w, path, maxBytes);
      && Tame(w.host, w'.host) && LeaksDirectoryOnly(w.host.fds, w'.host)
      && (w'.host.fds != w.host.fds ==> outcome == FileAccessError)
      && !outcome.Hangs? && (outcome.Done? ==> |outcome.value| <= maxBytes)
  {
    hide OpenedParent, ReadEntry, Closed, Confined, RelativeParts;
    match RelativeParts(path)
    case None => TameReflexive(w.host);
    case Some(parts) =>
      PartsPlain(path);
      OpenedParentSafe(w, parts, false);
      var (w1, parent) := OpenedParent(w, parts, false);
      if parent.Ok? {
        ReadEntrySafe(w1, parent.value, parts[|parts| - 1], maxBytes);
        ReadEntryBound(w1, parent.value, parts[|parts| - 1], maxBytes);
        var w2 := ReadEntry(w1, parent.value, parts[|parts| - 1], maxBytes).0;
        TameTransitive(w.host, w1.host, w2.host);
        CloseStep(w, w2, parent.value);
        CloseAdded(w.host.fds, parent.value, w1.host.fds[parent.value]);
        LeakThrough(w.host.fds, w1.host, w2, parent.value);
      }
  }

  lemma ReadEntryBound(w: World, parent: Fd, name: string, maxBytes: nat)
    requires parent in w.host.fds && Counted(w.host)
    ensures var outcome := ReadEntry(w, parent, name, maxBytes).1;
      outcome.Done? ==> |outcome.value| <= maxBytes
  {
  }

  lemma LeakThrough(base: Fds, h1: Host, w2: World, parent: Fd)
    requires parent !in base && parent in h1.fds && h1.fds == base[parent := h1.fds[parent]] && parent in w2.host.fds
    requires w2.host.fds == h1.fds
      || exists fd :: OpenedInside(h1, w2.host, fd) && IsDir(w2.host.fs, w2.host.fds[fd])
    ensures LeaksDirectoryOnly(base, SysClose(w2, parent).host)
  {
    var closed := SysClose(w2, parent).host;
    if w2.host.fds == h1.fds {
      CloseAdded(base, parent, h1.fds[parent]);
    } else {
      var fd :| OpenedInside(h1, w2.host, fd) && IsDir(w2.host.fs, w2.host.fds[fd]);
      assert closed.fds == base[fd := closed.fds[fd]];
    }
  }

  /** A path that is absolute, climbs with `..` or names nothing ends in FileAccessError before any call is
    * made, for writing and for reading. */
  lemma RefusedPathTouchesNothing(w: World, path: string, temporary: string, content: seq<byte>, maxBytes: nat)
    requires Counted(w.host)
    requires var pieces := Split(path, '/');
      "/" <= path || ".." in pieces || forall i :: 0 <= i < |pieces| ==> pieces[i] == "" || pieces[i] == "."
    ensures WrittenFile(w, path, temporary, content) == (w, FileAccessError)
    ensures ReadFile(w, path, maxBytes) == (w, FileAccessError)
  {
    hide RelativeParts, OpenedParent, WrittenInto, ReadEntry;
    RefusedExactly(path);
  }
}
