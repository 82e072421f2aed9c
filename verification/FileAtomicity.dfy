/** Atomicity: while the sandbox only reads, a write shows the old content or the whole new content
  * at every moment, leaves nothing behind, and succeeds exactly when it can; a read returns exactly
  * what the path shows. */
module FileAtomicity {
  import opened Strings
  import opened Utf8
  import opened WorkspacePath
  import opened HostFiles
  import opened FileViews
  import opened HostKernel
  import opened FileIo
  import opened FileSafety
  import opened FileWalk

  function Sibling(parts: seq<string>, temporary: string): seq<string>
    requires parts != []
  {
    Parent(parts) + [temporary]
  }

  /** At every moment from `w` to `w'` the path shows what it showed in `w`, or the new content. */
  ghost predicate Atomic(w: World, w': World, parts: seq<string>, content: seq<byte>) {
    && Follows(w, w')
    && (forall i :: |w.history| <= i < |w'.history| ==>
          Look(w'.history[i], w.host.fs.root, parts) in {Shown(w, parts), Content(content)})
  }

  lemma QuietThenAtomic(a: World, b: World, c: World, parts: seq<string>, content: seq<byte>)
    requires Quiet(a, b, parts) && Atomic(b, c, parts, content)
    ensures Atomic(a, c, parts, content)
  {
    hide Look, Calm, Faultless;
    assert c.history[..|a.history|] == c.history[..|b.history|][..|a.history|];
    forall i | |a.history| <= i < |c.history|
      ensures Look(c.history[i], a.host.fs.root, parts) in {Shown(a, parts), Content(content)}
    {
      if i < |b.history| {
        assert c.history[i] == c.history[..|b.history|][i];
      }
    }
  }

  // ---------------------------------------------------------------- the temporary file

  /** A file can be moved over the name. */
  ghost predicate NoDirectory(nodes: Nodes, p: Inode, name: string) {
    DirAt(nodes, p) && (name in nodes[p].entries ==> !DirAt(nodes, nodes[p].entries[name]))
  }

  /** The temporary file is open beside the target. */
  ghost predicate Filling(w: World, parent: Fd, file: Fd, parts: seq<string>, temporary: string) {
    && parts != [] && At(w, parent, parts, |parts| - 1) && Held(w.host, file) && file != parent
    && Staged(w.host.fs.nodes, w.host.fs.root, parts, w.host.fds[parent], temporary, w.host.fds[file])
  }

  lemma CreateQuiet(w: World, parent: Fd, parts: seq<string>, temporary: string)
    requires parts != [] && At(w, parent, parts, |parts| - 1)
    requires Plain(temporary) && '\0' !in temporary && temporary != Leaf(parts)
    ensures var (w', r) := SysOpenAt(w, parent, temporary, CREATE);
      var p := w.host.fds[parent];
      && Quiet(w, w', parts) && At(w', parent, parts, |parts| - 1) && w'.host.fds[parent] == p
      && (r.Err? ==> w'.host.fs.nodes == w.host.fs.nodes && r.error != BadName)
      && (r.Ok? ==> OpenedInside(w.host, w'.host, r.value) && temporary !in w.host.fs.nodes[p].entries)
      && (r.Ok? ==> Staged(w'.host.fs.nodes, w.host.fs.root, parts, p, temporary, w'.host.fds[r.value]))
      && (r.Ok? ==> w'.host.fs.nodes[w'.host.fds[r.value]] == File([]))
      && (r.Ok? ==> (NoDirectory(w'.host.fs.nodes, p, Leaf(parts)) <==> NoDirectory(w.host.fs.nodes, p, Leaf(parts))))
      && (Faultless(w.plan) && temporary !in w.host.fs.nodes[p].entries ==> r.Ok?)
  {
    CalmNow(w);
    OpenAtSafe(w, parent, temporary, CREATE);
    var fs, p := w.host.fs, w.host.fds[parent];
    if temporary in fs.nodes[p].entries {
      EntriesExist(fs, p, temporary);
    } else {
      StageCreated(fs, parts, p, temporary);
    }
    var (w', r) := SysOpenAt(w, parent, temporary, CREATE);
    hide Confined, Look, Calm, Faultless;
    OneCall(w, w'.host, parts);
  }

  lemma WriteQuiet(w: World, parent: Fd, file: Fd, parts: seq<string>, temporary: string, data: seq<byte>)
    requires Filling(w, parent, file, parts, temporary) && temporary != Leaf(parts)
    ensures var (w', r) := SysWrite(w, file, data);
      && Quiet(w, w', parts) && w'.host.fds == w.host.fds && Filling(w', parent, file, parts, temporary)
      && r != Err(BadName) && (r.Ok? ==> r.value <= |data| && (data != [] ==> r.value > 0))
      && (NoDirectory(w'.host.fs.nodes, w.host.fds[parent], Leaf(parts))
          <==> NoDirectory(w.host.fs.nodes, w.host.fds[parent], Leaf(parts)))
      && (r.Ok? ==>
            w'.host.fs.nodes[w.host.fds[file]].content == w.host.fs.nodes[w.host.fds[file]].content + data[..r.value])
      && (Faultless(w.plan) ==> r.Ok?)
  {
    CalmNow(w);
    WriteSafe(w, file, data);
    var (w', r) := SysWrite(w, file, data);
    var nodes, root, f := w.host.fs.nodes, w.host.fs.root, w.host.fds[file];
    if r.Ok? {
      StageWritten(nodes, root, parts, w.host.fds[parent], temporary, f, nodes[f].content + data[..r.value]);
    }
    hide Confined, Look, Calm, Faultless;
    OneCall(w, w'.host, parts);
  }

  lemma {:induction false} WrittenQuiet(w: World, parent: Fd, file: Fd, parts: seq<string>, temporary: string,
                                        data: seq<byte>)
    requires Filling(w, parent, file, parts, temporary) && temporary != Leaf(parts)
    ensures var (w', r) := Written(w, file, data);
      && Quiet(w, w', parts) && Filling(w', parent, file, parts, temporary) && r != Err(BadName)
      && (NoDirectory(w'.host.fs.nodes, w.host.fds[parent], Leaf(parts))
          <==> NoDirectory(w.host.fs.nodes, w.host.fds[parent], Leaf(parts)))
      && (r.Ok? ==> w'.host.fs.nodes[w.host.fds[file]].content == w.host.fs.nodes[w.host.fds[file]].content + data)
      && (Faultless(w.plan) ==> r.Ok?)
    decreases |data|
  {
    hide SysWrite, At, Look, Calm, Faultless, NoDirectory;
    if data == [] {
      SelfQuiet(w, parts) by { assert Calm(w.plan) by { FillingIsCalm(w, parent, file, parts, temporary); } }
    } else {
      WriteQuiet(w, parent, file, parts, temporary, data);
      var (w1, n) := SysWrite(w, file, data);
      if n.Ok? {
        WrittenQuiet(w1, parent, file, parts, temporary, data[n.value..]);
        assert data == data[..n.value] + data[n.value..];
        QuietTransitive(w, w1, Written(w1, file, data[n.value..]).0, parts);
      }
    }
  }

  lemma FillingIsCalm(w: World, parent: Fd, file: Fd, parts: seq<string>, temporary: string)
    requires Filling(w, parent, file, parts, temporary)
    ensures Calm(w.plan)
  {
  }

  /** Closing the temporary file keeps it in its place. */
  ghost predicate Filled(w: World, parent: Fd, parts: seq<string>, temporary: string, f: Inode) {
    && parts != [] && At(w, parent, parts, |parts| - 1)
    && Staged(w.host.fs.nodes, w.host.fs.root, parts, w.host.fds[parent], temporary, f)
  }

  lemma ReplaceAtomic(w: World, parent: Fd, parts: seq<string>, temporary: string, f: Inode)
    requires Filled(w, parent, parts, temporary, f)
    requires Plain(temporary) && '\0' !in temporary && temporary != Leaf(parts) && Plain(Leaf(parts))
    ensures var (w', r) := SysReplace(w, parent, temporary, Leaf(parts));
      && w'.host.fds == w.host.fds && Atomic(w, w', parts, w.host.fs.nodes[f].content)
      && (r.Ok? ==> Shown(w', parts) == Content(w.host.fs.nodes[f].content))
      && (r.Ok? ==> Shown(w', Sibling(parts, temporary)) == Nothing && '\0' !in Leaf(parts))
      && (r.Err? ==> w'.host.fs == w.host.fs && Quiet(w, w', parts) && Filled(w', parent, parts, temporary, f))
      && (Faultless(w.plan) ==>
            (r.Ok? <==> '\0' !in Leaf(parts) && NoDirectory(w.host.fs.nodes, w.host.fds[parent], Leaf(parts))))
      && (r == Err(BadName) ==> '\0' in Leaf(parts)) && (Faultless(w.plan) && '\0' in Leaf(parts) ==> r == Err(BadName))
  {
    CalmNow(w);
    ReplaceSafe(w, parent, temporary, Leaf(parts));
    var (w', r) := SysReplace(w, parent, temporary, Leaf(parts));
    var nodes, root, p := w.host.fs.nodes, w.host.fs.root, w.host.fds[parent];
    if r.Ok? {
      StageReplaced(nodes, root, parts, p, temporary, f);
      assert w'.host.fs.nodes == nodes[p := Dir(nodes[p].entries[Leaf(parts) := f] - {temporary})];
    } else {
      assert w'.host.fs == w.host.fs;
    }
    hide Confined, Closed, Look, Calm, Faultless, DoReplace, WithEntries;
    if r.Err? {
      OneCall(w, w'.host, parts);
    }
  }

  lemma CloseFilled(w: World, parent: Fd, file: Fd, parts: seq<string>, temporary: string)
    requires Filling(w, parent, file, parts, temporary)
    ensures var w' := SysClose(w, file);
      Quiet(w, w', parts) && Filled(w', parent, parts, temporary, w.host.fds[file])
      && w'.host.fds == w.host.fds - {file}
  {
    CloseOther(w, parent, file, parts, |parts| - 1);
  }

  lemma QuietIsAtomic(w: World, w': World, parts: seq<string>, content: seq<byte>)
    requires Quiet(w, w', parts)
    ensures Atomic(w, w', parts, content)
  {
    hide Look, Calm, Faultless;
  }

  /** What is true after a failed attempt to create, fill and move the temporary file: the target is
    * untouched, and the temporary entry is a file if it was free before. */
  ghost predicate Abandoned(w: World, w': World, parent: Fd, parts: seq<string>, temporary: string)
    requires parts != [] && parent in w.host.fds
  {
    && Quiet(w, w', parts) && At(w', parent, parts, |parts| - 1)
    && (temporary !in EntriesAt(w, w.host.fds[parent]) ==>
          NoDirectory(w'.host.fs.nodes, w'.host.fds[parent], temporary))
  }

  function EntriesAt(w: World, d: Inode): map<string, Inode> {
    if DirAt(w.host.fs.nodes, d) then w.host.fs.nodes[d].entries else map[]
  }

  lemma WrittenEntryAtomic(w: World, parent: Fd, parts: seq<string>, temporary: string, content: seq<byte>)
    requires parts != [] && At(w, parent, parts, |parts| - 1) && Plain(Leaf(parts))
    requires Plain(temporary) && '\0' !in temporary && temporary != Leaf(parts)
    ensures var (w', r) := WrittenEntry(w, parent, Leaf(parts), temporary, content);
      var p := w.host.fds[parent];
      && Atomic(w, w', parts, content)
      && (r.Ok? ==> Shown(w', parts) == Content(content) && '\0' !in Leaf(parts))
      && (r.Ok? ==> Shown(w', Sibling(parts, temporary)) == Nothing)
      && (r.Err? ==> Abandoned(w, w', parent, parts, temporary))
      && (r == Err(BadName) ==> '\0' in Leaf(parts) && Shown(w', Sibling(parts, temporary)) == Content(content))
      && (Faultless(w.plan) && temporary !in EntriesAt(w, p) ==>
            && (r == Err(BadName) <==> '\0' in Leaf(parts))
            && (r.Ok? <==> '\0' !in Leaf(parts) && NoDirectory(w.host.fs.nodes, p, Leaf(parts))))
      && (Faultless(w.plan) && r.Ok? ==> temporary !in EntriesAt(w, p))
  {
    hide SysOpenAt, Written, SysReplace, Closed, Confined, Tame, Walk, Look, Calm, Faultless;
    CreateQuiet(w, parent, parts, temporary);
    var (w1, file) := SysOpenAt(w, parent, temporary, CREATE);
    if file.Err? {
      QuietIsAtomic(w, w1, parts, content);
    } else {
      WrittenQuiet(w1, parent, file.value, parts, temporary, content);
      var (w2, filled) := Written(w1, file.value, content);
      CloseFilled(w2, parent, file.value, parts, temporary);
      var w3 := SysClose(w2, file.value);
      QuietTransitive(w, w1, w2, parts);
      QuietTransitive(w, w2, w3, parts);
      if filled.Err? {
        QuietIsAtomic(w, w3, parts, content);
      } else {
        MovedIntoPlace(w, w3, parent, parts, temporary, w1.host.fds[file.value], content);
      }
    }
  }

  lemma MovedIntoPlace(w: World, w3: World, parent: Fd, parts: seq<string>, temporary: string, f: Inode,
                       content: seq<byte>)
    requires Filled(w3, parent, parts, temporary, f) && Quiet(w, w3, parts)
    requires parent in w.host.fds && w3.host.fs.nodes[f].content == content
    requires Plain(temporary) && '\0' !in temporary && temporary != Leaf(parts) && Plain(Leaf(parts))
    ensures var (w', r) := SysReplace(w3, parent, temporary, Leaf(parts));
      && Atomic(w, w', parts, content)
      && (r.Ok? ==> Shown(w', parts) == Content(content) && '\0' !in Leaf(parts))
      && (r.Ok? ==> Shown(w', Sibling(parts, temporary)) == Nothing)
      && (r.Err? ==> Abandoned(w, w', parent, parts, temporary))
      && (r == Err(BadName) ==> '\0' in Leaf(parts) && Shown(w', Sibling(parts, temporary)) == Content(content))
      && (Faultless(w3.plan) ==>
            && (r == Err(BadName) <==> '\0' in Leaf(parts))
            && (r.Ok? <==> '\0' !in Leaf(parts) && NoDirectory(w3.host.fs.nodes, w3.host.fds[parent], Leaf(parts))))
  {
    ReplaceAtomic(w3, parent, parts, temporary, f);
    var (w', r) := SysReplace(w3, parent, temporary, Leaf(parts));
    if r.Err? {
      SiblingIsEntry(w'.host.fs.nodes, w'.host.fs.root, parts, w'.host.fds[parent], temporary);
    }
    hide SysReplace, Closed, Confined, Tame, Walk, Look, Calm, Faultless;
    QuietThenAtomic(w, w3, w', parts, content);
    if r.Err? {
      QuietTransitive(w, w3, w', parts);
    }
  }

  lemma UnlinkQuiet(w: World, parent: Fd, parts: seq<string>, temporary: string)
    requires parts != [] && At(w, parent, parts, |parts| - 1)
    requires Plain(temporary) && '\0' !in temporary && temporary != Leaf(parts)
    ensures var (w', r) := SysUnlink(w, parent, temporary);
      && Quiet(w, w', parts) && w'.host.fds == w.host.fds && r != Err(BadName) && r != Err(Blocked)
      && (r.Ok? || r.error == NotFound ==> Shown(w', Sibling(parts, temporary)) == Nothing)
      && (Faultless(w.plan) && NoDirectory(w.host.fs.nodes, w.host.fds[parent], temporary) ==>
            r.Ok? || r.error == NotFound)
  {
    CalmNow(w);
    UnlinkSafe(w, parent, temporary);
    var (w', r) := SysUnlink(w, parent, temporary);
    var nodes, root, p := w.host.fs.nodes, w.host.fs.root, w.host.fds[parent];
    if r.Ok? {
      SiblingRemoved(nodes, root, parts, p, temporary);
    } else {
      SiblingIsEntry(nodes, root, parts, p, temporary);
    }
    hide Closed, Confined, Look, Calm, Faultless;
    OneCall(w, w'.host, parts);
  }

  // ---------------------------------------------------------------- `atomic_write`

  /** Every promise about one write that starts from an open parent. */
  ghost predicate Settled(w: World, w': World, outcome: Outcome<()>, parts: seq<string>, temporary: string,
                          content: seq<byte>)
    requires parts != []
  {
    && Atomic(w, w', parts, content)
    && (outcome.Done? ==> Shown(w', parts) == Content(content) && '\0' !in Leaf(parts))
    && (!outcome.Done? ==> Quiet(w, w', parts))
    && (outcome.Done? || outcome.FileAccessError? ==> Shown(w', Sibling(parts, temporary)) == Nothing)
    && (outcome == Escapes(BadName) ==> '\0' in Leaf(parts) && Shown(w', Sibling(parts, temporary)) == Content(content))
    && !outcome.Hangs?
  }

  lemma SettledAfterClose(w: World, w1: World, fd: Fd, outcome: Outcome<()>, parts: seq<string>, temporary: string,
                          content: seq<byte>)
    requires parts != [] && Settled(w, w1, outcome, parts, temporary, content) && fd in w1.host.fds
    ensures Settled(w, SysClose(w1, fd), outcome, parts, temporary, content)
  {
  }

  lemma {:induction false} WrittenIntoSettled(w: World, parent: Fd, parts: seq<string>, temporary: string,
                                              content: seq<byte>)
    requires parts != [] && At(w, parent, parts, |parts| - 1) && Plain(Leaf(parts))
    requires Plain(temporary) && '\0' !in temporary && temporary != Leaf(parts)
    ensures var (w', outcome) := WrittenInto(w, parent, Leaf(parts), temporary, content);
      && Settled(w, w', outcome, parts, temporary, content)
      && (Faultless(w.plan) ==>
            var ready := Ready(w.host.fs.nodes, w.host.fds[parent], [Leaf(parts)], temporary);
            outcome.Done? <==> '\0' !in Leaf(parts) && ready)
      && (Faultless(w.plan) && temporary !in EntriesAt(w, w.host.fds[parent]) ==>
            && (outcome == Escapes(BadName) <==> '\0' in Leaf(parts))
            && (outcome.Escapes? ==> outcome == Escapes(BadName)))
  {
    hide WrittenEntry, SysUnlink, Closed, Confined, Tame, Walk, Look, Calm, Faultless, Atomic;
    WrittenEntryAtomic(w, parent, parts, temporary, content);
    WrittenEntrySafe(w, parent, Leaf(parts), temporary, content);
    var (w1, r) := WrittenEntry(w, parent, Leaf(parts), temporary, content);
    if r.Ok? || r.error == BadName {
      var outcome: Outcome<()> := if r.Ok? then Done(()) else Escapes(BadName);
      SettledAfterClose(w, w1, parent, outcome, parts, temporary, content);
    } else {
      UnlinkQuiet(w1, parent, parts, temporary);
      var (w2, unlinked) := SysUnlink(w1, parent, temporary);
      QuietTransitive(w, w1, w2, parts);
      QuietIsAtomic(w, w2, parts, content);
      SettledAfterClose(w, w2, parent, Cleaned(unlinked), parts, temporary, content);
    }
  }

  /** A random temporary name: an entry name of its own. */
  ghost predicate Token(temporary: string, parts: seq<string>)
    requires parts != []
  {
    Plain(temporary) && '\0' !in temporary && temporary != Leaf(parts)
  }

  /** While the sandbox only reads, and whatever fails: at every moment of `atomic_write` the target
    * shows its old content or the whole new one; it shows the new one exactly if the write returned;
    * after a return or FileAccessError there is no temporary entry. */
  lemma AtomicWriteIsAtomic(w: World, path: string, temporary: string, content: seq<byte>)
    requires Sound(w.host) && Calm(w.plan)
    requires RelativeParts(path).Some? && Token(temporary, RelativeParts(path).value)
    ensures var parts := RelativeParts(path).value;
      var (w', outcome) := WrittenFile(w, path, temporary, content);
      && Atomic(w, w', parts, content)
      && (outcome.Done? ==> Shown(w', parts) == Content(content) && NoNull(parts))
      && (!outcome.Done? ==> Quiet(w, w', parts))
      && (Shown(w, Sibling(parts, temporary)) == Nothing && (outcome.Done? || outcome.FileAccessError?) ==>
            Shown(w', Sibling(parts, temporary)) == Nothing)
  {
    hide OpenedParent, WrittenInto, Closed, Confined, Walk, Look, Calm, RelativeParts;
    var parts := RelativeParts(path).value;
    PartsPlain(path);
    OpenedParentQuiet(w, parts, true);
    OpenedSibling(w, parts, temporary, true);
    var (w1, parent) := OpenedParent(w, parts, true);
    if parent.Err? {
      QuietIsAtomic(w, w1, parts, content);
    } else {
      WrittenIntoSettled(w1, parent.value, parts, temporary, content);
      var (w', outcome) := WrittenInto(w1, parent.value, Leaf(parts), temporary, content);
      QuietThenAtomic(w, w1, w', parts, content);
      if outcome.Done? {
        NoNullParts(parts);
      } else {
        QuietTransitive(w, w1, w', parts);
      }
    }
  }

  lemma NoNullParts(parts: seq<string>)
    requires parts != []
    ensures NoNull(parts) <==> NoNull(Parent(parts)) && '\0' !in Leaf(parts)
  {
    assert parts == Parent(parts) + [Leaf(parts)];
  }

  /** When nothing fails on its own, `atomic_write` returns exactly if it can: no name holds a null,
    * every directory exists or can be made, the target is no directory, the temporary name is free. */
  lemma AtomicWriteSucceedsExactlyWhenReady(w: World, path: string, temporary: string, content: seq<byte>)
    requires Sound(w.host) && Calm(w.plan) && Faultless(w.plan)
    requires RelativeParts(path).Some? && Token(temporary, RelativeParts(path).value)
    ensures var parts := RelativeParts(path).value;
      WrittenFile(w, path, temporary, content).1.Done?
      <==> NoNull(parts) && Ready(w.host.fs.nodes, w.host.fs.root, parts, temporary)
  {
    hide OpenedParent, WrittenInto, Closed, Confined, Walk, Look, Calm, RelativeParts;
    var parts := RelativeParts(path).value;
    PartsPlain(path);
    OpenedParentQuiet(w, parts, true);
    OpenedParentReady(w, parts, temporary);
    NoNullParts(parts);
    var (w1, parent) := OpenedParent(w, parts, true);
    if parent.Ok? {
      WrittenIntoSettled(w1, parent.value, parts, temporary, content);
    }
  }

  /** Where the clean-up falls short: a null in the file's own name raises ValueError, which is not
    * the error the handler waits for, and the full temporary file stays. Exactly then. */
  lemma TemporaryStaysExactlyForNull(w: World, path: string, temporary: string, content: seq<byte>)
    requires Sound(w.host) && Calm(w.plan) && Faultless(w.plan)
    requires RelativeParts(path).Some? && Token(temporary, RelativeParts(path).value)
    ensures var parts := RelativeParts(path).value;
      var (w', outcome) := WrittenFile(w, path, temporary, content);
      Shown(w, Sibling(parts, temporary)) == Nothing ==>
      if '\0' in Leaf(parts) && NoNull(Parent(parts))
         && Ready(w.host.fs.nodes, w.host.fs.root, Sibling(parts, temporary), temporary)
      then outcome == Escapes(BadName) && Shown(w', Sibling(parts, temporary)) == Content(content)
      else Shown(w', Sibling(parts, temporary)) == Nothing
  {
    hide OpenedParent, WrittenInto, Closed, Confined, Walk, Look, Calm, RelativeParts;
    var parts := RelativeParts(path).value;
    var sibling := Sibling(parts, temporary);
    PartsPlain(path);
    OpenedParentQuiet(w, parts, true);
    OpenedSibling(w, parts, temporary, true);
    OpenedParentReady(w, sibling, temporary);
    assert Parent(sibling) == Parent(parts) && Leaf(sibling) == temporary;
    var (w1, parent) := OpenedParent(w, parts, true);
    if parent.Ok? && Shown(w, sibling) == Nothing {
      FreeInParent(w1, parent.value, parts, temporary);
      WrittenIntoSettled(w1, parent.value, parts, temporary, content);
    }
  }

  lemma FreeInParent(w: World, parent: Fd, parts: seq<string>, temporary: string)
    requires parts != [] && At(w, parent, parts, |parts| - 1) && Shown(w, Sibling(parts, temporary)) == Nothing
    ensures temporary !in EntriesAt(w, w.host.fds[parent])
  {
    SiblingIsEntry(w.host.fs.nodes, w.host.fs.root, parts, w.host.fds[parent], temporary);
  }
}
