/** One small workspace on which reads and writes show both what they promise and where they fall short. */
module FileExamples {
  import opened Strings
  import opened Utf8
  import opened WorkspacePath
  import opened HostFiles
  import opened HostKernel
  import opened FileViews
  import opened FileIo
  import opened FileSafety
  import opened FileWalk
  import opened FileAtomicity
  import opened FileReads

  /** A workspace that holds an empty directory `d`, on a host where nothing is open and nothing fails. */
  const NODES := map[0 := Dir(map["d" := 1]), 1 := Dir(map[])]
  const SMALL := World(Host(Fs(NODES, map[], {0, 1}, 0, 2), map[], 0, {}), [], [])

  lemma SmallIsOrdinary()
    ensures Sound(SMALL.host) && Calm(SMALL.plan) && Faultless(SMALL.plan)
  {
  }

  lemma OneComponent(name: string)
    requires Plain(name)
    ensures RelativeParts(name) == Some([name]) && Parent([name]) == [] && Leaf([name]) == name
  {
    JoinedPartsParse([name]);
  }

  /** Reading the directory fails and leaves a descriptor of it open. */
  lemma ReadingDirectoryLeaks()
    ensures var (w, outcome) := ReadFile(SMALL, "d", 10);
      !outcome.Done? && w.host.fds != SMALL.host.fds
  {
    SmallIsOrdinary();
    OneComponent("d");
    OneName(SMALL.host.fs.nodes, 0, "d");
    hide ReadFile, RelativeParts, Sound, Calm, Faultless;
    BoundedReadExact(SMALL, "d", 10);
  }

  /** A null in the name: ValueError escapes, and the temporary file stays with the content. */
  lemma NullLeavesTemporary()
    ensures var (w, outcome) := WrittenFile(SMALL, "a\0", "t", [1]);
      outcome == Escapes(BadName) && Shown(w, ["t"]) == Content([1])
  {
    SmallIsOrdinary();
    OneComponent("a\0");
    assert Parent(["a\0"]) + ["t"] == ["t"];
    hide WrittenFile, RelativeParts, Sound, Calm, Faultless;
    TemporaryStaysExactlyForNull(SMALL, "a\0", "t", [1]);
  }

  /** An ordinary write returns, and its content comes back. */
  lemma OrdinaryWriteComesBack()
    ensures var (w, written) := WrittenFile(SMALL, "a", "t", [1]);
      written.Done? && Counted(w.host) && ReadFile(w, "a", 10).1 == Done([1])
  {
    SmallIsOrdinary();
    OneComponent("a");
    hide WrittenFile, ReadFile, RelativeParts, Sound, Calm, Faultless;
    AtomicWriteSucceedsExactlyWhenReady(SMALL, "a", "t", [1]);
    AtomicWriteIsAtomic(SMALL, "a", "t", [1]);
    WriteThenRead(SMALL, "a", "t", [1], 10);
  }

  // ---------------------------------------------------------------- in every world

  /** Between two calls the sandbox puts a symbolic link in the place of a directory: the walk does not
    * follow it, whatever the link points to. */
  lemma SwappedLinkIsNotFollowed(w: World, dir: Fd, name: string, target: string, jump: Inode)
    requires Sound(w.host) && Held(w.host, dir) && IsDir(w.host.fs, w.host.fds[dir]) && Plain(name) && '\0' !in name
    requires w.plan != []
    requires var swap := [NewNode(Symlink(target)), SetEntry(w.host.fds[dir], name, w.host.fs.nextInode)];
      w.plan[0] == Turn(swap, false, 0, jump)
    ensures SysOpenAt(w, dir, name, DIRECTORY).1 == Err(Loop)
    ensures SysOpenAt(w, dir, name, READ).1 == Err(Loop)
  {
    var link := NewNode(Symlink(target));
    var relink := SetEntry(w.host.fds[dir], name, w.host.fs.nextInode);
    var swap := [link, relink];
    assert swap[1..] == [relink] && [relink][1..] == [];
    var fs1 := Apply(w.host.fs, link);
    assert ApplyAll(w.host.fs, swap) == ApplyAll(fs1, [relink]) == Apply(fs1, relink);
  }

  /** A file that is too large when it is looked at is not read at all, even if it shrinks meanwhile. */
  lemma TooLargeIsNotRead(w: World, fd: Fd, maxBytes: nat)
    requires fd in w.host.fds
    requires var stat := SysFstat(w, fd).1; stat.Ok? && (!stat.value.0 || stat.value.1 > maxBytes)
    ensures ReadRegular(w, fd, maxBytes) == (SysFstat(w, fd).0, FileAccessError)
  {
    hide SysFstat;
  }
}
