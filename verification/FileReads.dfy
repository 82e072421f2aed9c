/** Reading while the sandbox only reads too: `bounded_read` returns exactly what the path shows, and
  * what was written comes back. */
module FileReads {
  import opened Strings
  import opened Utf8
  import opened WorkspacePath
  import opened HostFiles
  import opened FileViews
  import opened HostKernel
  import opened FileIo
  import opened FileSafety
  import opened FileWalk
  import opened FileAtomicity

  /** What a name must be for `os.open` to succeed on it without following a symlink. */
  ghost predicate Openable(nodes: Nodes, p: Inode, name: string) {
    && '\0' !in name && DirAt(nodes, p) && name in nodes[p].entries && nodes[p].entries[name] in nodes
    && !nodes[nodes[p].entries[name]].Symlink?
  }

  lemma OpenToRead(w: World, parent: Fd, parts: seq<string>)
    requires parts != [] && At(w, parent, parts, |parts| - 1) && Plain(Leaf(parts))
    ensures var (w', r) := SysOpenAt(w, parent, Leaf(parts), READ);
      var p := w.host.fds[parent];
      && w'.host.fs == w.host.fs && Follows(w, w')
      && (r.Ok? ==>
            Openable(w.host.fs.nodes, p, Leaf(parts)) && OpenedInside(w.host, w'.host, r.value) && Sound(w'.host))
      && (r.Ok? ==> w'.host.fds[r.value] == w.host.fs.nodes[p].entries[Leaf(parts)])
      && (Faultless(w.plan) ==> (r.Ok? <==> Openable(w.host.fs.nodes, p, Leaf(parts))))
  {
    CalmNow(w);
    OpenAtSafe(w, parent, Leaf(parts), READ);
    if Leaf(parts) in w.host.fs.nodes[w.host.fds[parent]].entries {
      EntriesExist(w.host.fs, w.host.fds[parent], Leaf(parts));
    }
    hide Confined, Closed, Calm, Faultless, Walk;
  }

  /** Reading a file in any number of pieces gives its first bytes. */
  lemma {:induction false} ReadUpToExact(w: World, fd: Fd, got: seq<byte>, wanted: nat, content: seq<byte>)
    requires Calm(w.plan) && fd in w.host.fds && w.host.fds[fd] in w.host.fs.nodes
    requires w.host.fs.nodes[w.host.fds[fd]] == File(content) && |got| <= wanted && got <= content
    ensures var (w', r) := ReadUpTo(w, fd, got, wanted);
      && w'.host.fs == w.host.fs && Follows(w, w')
      && (r.Ok? ==> r.value == content[..Min(wanted, |content|)])
      && (Faultless(w.plan) ==> r.Ok?)
    decreases wanted - |got|
  {
    hide Faultless, Calm;
    if |got| == wanted {
      SelfFollows(w);
    } else {
      CalmNow(w);
      var (w1, chunk) := SysRead(w, fd, |got|, wanted - |got|);
      assert Follows(w, w1);
      assert w1.host.fs == w.host.fs && w1.host.fds == w.host.fds;
      if chunk.Ok? {
        assert content == got + content[|got|..];
        assert got + chunk.value <= content;
        if chunk.value == [] {
          assert got == content;
        } else {
          ReadUpToExact(w1, fd, got + chunk.value, wanted, content);
          FollowsTransitive(w, w1, ReadUpTo(w1, fd, got + chunk.value, wanted).0);
        }
      }
    }
  }

  lemma SelfFollows(w: World)
    requires Calm(w.plan)
    ensures Follows(w, w)
  {
  }

  lemma FollowsTransitive(a: World, b: World, c: World)
    requires Follows(a, b) && Follows(b, c)
    ensures Follows(a, c)
  {
    hide Calm, Faultless;
    assert c.history[..|a.history|] == c.history[..|b.history|][..|a.history|];
  }

  lemma ReadRegularExact(w: World, fd: Fd, maxBytes: nat)
    requires Calm(w.plan) && fd in w.host.fds && w.host.fds[fd] in w.host.fs.nodes
    ensures var (w', outcome) := ReadRegular(w, fd, maxBytes);
      var seen := Show(w.host.fs.nodes, w.host.fds[fd]);
      && w'.host.fs == w.host.fs && Follows(w, w')
      && (outcome.Done? ==> seen == Content(outcome.value))
      && (Faultless(w.plan) ==> (outcome.Done? <==> seen.Content? && |seen.content| <= maxBytes))
  {
    CalmNow(w);
    var (w1, stat) := SysFstat(w, fd);
    hide Calm, Faultless, ReadUpTo;
    if stat.Ok? && stat.value.0 {
      var content := w.host.fs.nodes[w.host.fds[fd]].content;
      ReadUpToExact(w1, fd, [], maxBytes + 1, content);
      if |content| <= maxBytes {
        assert content[..|content|] == content;
      }
      FollowsTransitive(w, w1, ReadUpTo(w1, fd, [], maxBytes + 1).0);
    }
  }

  lemma ReadEntryExact(w: World, parent: Fd, parts: seq<string>, maxBytes: nat)
    requires parts != [] && At(w, parent, parts, |parts| - 1) && Plain(Leaf(parts))
    ensures var (w', outcome) := ReadEntry(w, parent, Leaf(parts), maxBytes);
      && w'.host.fs == w.host.fs && Follows(w, w')
      && (outcome.Done? ==>
            Shown(w, parts) == Content(outcome.value) && '\0' !in Leaf(parts) && |outcome.value| <= maxBytes)
      && (Faultless(w.plan) && Shown(w, parts).Content? && |Shown(w, parts).content| <= maxBytes && '\0' !in Leaf(parts)
          ==> outcome.Done?)
      && (w'.host.fds != w.host.fds ==>
            Reaches(w.host.fs.nodes, w.host.fds[parent], [Leaf(parts)]) && '\0' !in Leaf(parts))
      && (Faultless(w.plan) && Reaches(w.host.fs.nodes, w.host.fds[parent], [Leaf(parts)]) && '\0' !in Leaf(parts)
          ==> w'.host.fds != w.host.fds)
  {
    hide SysOpenAt, ReadRegular, Closed, Confined, Tame, Calm, Faultless;
    OpenToRead(w, parent, parts);
    ReadEntrySafe(w, parent, Leaf(parts), maxBytes);
    ReadEntryBound(w, parent, Leaf(parts), maxBytes);
    var (w1, file) := SysOpenAt(w, parent, Leaf(parts), READ);
    var nodes, p := w.host.fs.nodes, w.host.fds[parent];
    LookIsEntry(nodes, w.host.fs.root, parts, p);
    OneName(nodes, p, Leaf(parts));
    if file.Ok? {
      ReadRegularExact(w1, file.value, maxBytes);
      var w2 := ReadRegular(w1, file.value, maxBytes).0;
      FollowsTransitive(w, w1, w2);
    }
  }

  lemma OneName(nodes: Nodes, p: Inode, name: string)
    requires DirAt(nodes, p)
    ensures Reaches(nodes, p, [name]) <==> name in nodes[p].entries && DirAt(nodes, nodes[p].entries[name])
  {
    assert [name][1..] == [];
    assert name in nodes[p].entries ==> Walk(nodes, p, [name]) == Walk(nodes, nodes[p].entries[name], []);
  }

  /** A path that shows something leads through its parent directory. */
  lemma ThroughParent(nodes: Nodes, root: Inode, parts: seq<string>)
    requires parts != [] && Walk(nodes, root, parts).Some?
    ensures Reaches(nodes, root, Parent(parts))
    ensures Reaches(nodes, root, parts) <==> Reaches(nodes, Walk(nodes, root, Parent(parts)).value, [Leaf(parts)])
  {
    assert parts == Parent(parts) + [Leaf(parts)];
    WalkConcat(nodes, root, Parent(parts), [Leaf(parts)]);
    var p := Walk(nodes, root, Parent(parts)).value;
    assert DirAt(nodes, p) by {
      assert Walk(nodes, p, [Leaf(parts)]).Some?;
    }
    hide DirAt, Walk;
  }

  lemma NotThroughParent(nodes: Nodes, root: Inode, parts: seq<string>)
    requires parts != []
    ensures Look(nodes, root, parts).Content? || Reaches(nodes, root, parts) ==> Reaches(nodes, root, Parent(parts))
  {
    if Walk(nodes, root, parts).Some? {
      ThroughParent(nodes, root, parts);
    }
  }

  lemma AtReaches(w: World, parent: Fd, parts: seq<string>)
    requires parts != [] && At(w, parent, parts, |parts| - 1)
    ensures Reaches(w.host.fs.nodes, w.host.fs.root, parts)
      <==> Reaches(w.host.fs.nodes, w.host.fds[parent], [Leaf(parts)])
  {
    assert parts == Parent(parts) + [Leaf(parts)];
    WalkConcat(w.host.fs.nodes, w.host.fs.root, Parent(parts), [Leaf(parts)]);
  }

  /** While the sandbox only reads, `bounded_read` changes nothing and returns only what the path
    * shows. If nothing fails on its own, it returns exactly when the path shows a file within the
    * bound, and it leaves a descriptor open exactly when the path leads to a directory. */
  lemma BoundedReadExact(w: World, path: string, maxBytes: nat)
    requires Sound(w.host) && Calm(w.plan) && RelativeParts(path).Some?
    ensures var parts := RelativeParts(path).value;
      var (w', outcome) := ReadFile(w, path, maxBytes);
      var seen := Shown(w, parts);
      && w'.host.fs.nodes == w.host.fs.nodes && Follows(w, w')
      && (outcome.Done? ==> seen == Content(outcome.value) && |outcome.value| <= maxBytes)
      && (Faultless(w.plan) ==>
            && (outcome.Done? <==> NoNull(parts) && seen.Content? && |seen.content| <= maxBytes)
            && (w'.host.fds != w.host.fds <==> NoNull(parts) && Reaches(w.host.fs.nodes, w.host.fs.root, parts)))
  {
    hide OpenedParent, ReadEntry, Closed, Confined, Calm, Faultless, RelativeParts, Walk, Show;
    var parts := RelativeParts(path).value;
    PartsPlain(path);
    OpenedParentQuiet(w, parts, false);
    OpenedParentSafe(w, parts, false);
    NoNullParts(parts);
    NotThroughParent(w.host.fs.nodes, w.host.fs.root, parts);
    var (w1, parent) := OpenedParent(w, parts, false);
    if Faultless(w.plan) {
      OpenedParentReach(w, parts);
    }
    if parent.Ok? {
      AtReaches(w1, parent.value, parts);
      ReadEntryExact(w1, parent.value, parts, maxBytes);
      ReadEntrySafe(w1, parent.value, Leaf(parts), maxBytes);
      var w2 := ReadEntry(w1, parent.value, Leaf(parts), maxBytes).0;
      FollowsTransitive(w, w1, w2);
      ClosedAgain(w.host.fds, w1.host.fds, w2.host.fds, parent.value);
    }
  }

  lemma ClosedAgain(base: Fds, opened1: Fds, opened2: Fds, parent: Fd)
    requires parent !in base && parent in opened1 && opened1 == base[parent := opened1[parent]]
    requires opened2 == opened1 || exists fd :: fd !in opened1 && fd in opened2 && opened2 == opened1[fd := opened2[fd]]
    ensures opened2 - {parent} != base <==> opened2 != opened1
  {
    CloseAdded(base, parent, opened1[parent]);
    if opened2 != opened1 {
      var fd :| fd !in opened1 && fd in opened2 && opened2 == opened1[fd := opened2[fd]];
      assert fd in opened2 - {parent} && fd !in base;
    }
  }

  /** What was written comes back: after a write that returned, a read on which nothing fails returns
    * exactly the content if the bound allows it, and nothing else otherwise. */
  lemma WriteThenRead(w: World, path: string, temporary: string, content: seq<byte>, maxBytes: nat)
    requires Sound(w.host) && Calm(w.plan)
    requires RelativeParts(path).Some? && Token(temporary, RelativeParts(path).value)
    ensures var (w1, written) := WrittenFile(w, path, temporary, content);
      Counted(w1.host)
      && (written.Done? && Faultless(w1.plan) ==>
            var outcome := ReadFile(w1, path, maxBytes).1;
            if |content| <= maxBytes then outcome == Done(content) else !outcome.Done?)
  {
    hide WrittenFile, ReadFile, Confined, Closed, Look;
    AtomicWriteIsAtomic(w, path, temporary, content);
    AtomicWriteContained(w, path, temporary, content);
    var w1 := WrittenFile(w, path, temporary, content).0;
    BoundedReadExact(w1, path, maxBytes);
  }
}
