/** What the model of the host lets happen, so that results about every world say something: any call can
  * fail, transfers can be partial, every access is recorded, and careless calls do leave the workspace. */
module HostRules {
  import opened Strings
  import opened Utf8
  import opened WorkspacePath
  import opened HostFiles

  /** Any call can fail for a reason of its own, and then changes no file. */
  lemma EveryCallCanFail(h: Host, t: Turn, dir: Fd, fd: Fd, name: string, source: string, flags: Flags, mode: nat,
                         data: seq<byte>, offset: nat, wanted: nat)
    requires t.fault && dir in h.fds && fd in h.fds
    ensures DoOpenRoot(h, t) == (h, Err(Fault))
    ensures var (h', r) := DoOpen(h, t, dir, name, flags); h'.fs == h.fs && r == Err(Fault)
    ensures var (h', r) := DoMkdir(h, t, dir, name); h'.fs == h.fs && r == Err(Fault)
    ensures var (h', r) := DoFchmod(h, t, fd, mode); h'.fs == h.fs && r == Err(Fault)
    ensures var (h', r) := DoWrite(h, t, fd, data); h'.fs == h.fs && r == Err(Fault)
    ensures var (h', r) := DoFstat(h, t, fd); h'.fs == h.fs && r == Err(Fault)
    ensures var (h', r) := DoRead(h, t, fd, offset, wanted); h'.fs == h.fs && r == Err(Fault)
    ensures var (h', r) := DoReplace(h, t, dir, source, name); h'.fs == h.fs && r == Err(Fault)
    ensures var (h', r) := DoUnlink(h, t, dir, name); h'.fs == h.fs && r == Err(Fault)
  {
  }

  /** A write moves as many bytes as the world decides, at least one, and a read likewise, up to the end of
    * the file. */
  lemma TransfersCanBePartial(h: Host, t: Turn, fd: Fd, data: seq<byte>, offset: nat, wanted: nat)
    requires fd in h.fds && !t.fault && h.fds[fd] in h.fs.nodes && h.fs.nodes[h.fds[fd]].File?
    ensures 0 < t.amount <= |data| ==>
      var (h', r) := DoWrite(h, t, fd, data);
      r == Ok(t.amount)
      && h'.fs.nodes == h.fs.nodes[h.fds[fd] := File(h.fs.nodes[h.fds[fd]].content + data[..t.amount])]
    ensures var content := h.fs.nodes[h.fds[fd]].content;
      0 < t.amount <= wanted && offset + t.amount <= |content| ==>
        DoRead(h, t, fd, offset, wanted).1 == Ok(content[offset..offset + t.amount])
  {
    var content := h.fs.nodes[h.fds[fd]].content;
    if 0 < t.amount <= wanted && offset + t.amount <= |content| {
      assert content[offset..][..t.amount] == content[offset..offset + t.amount];
    }
  }

  /** Only files and FIFOs can be read, only files written; a FIFO is no regular file, nor is a directory. */
  lemma OnlyFilesHoldBytes(h: Host, t: Turn, fd: Fd, data: seq<byte>, offset: nat, wanted: nat)
    requires fd in h.fds && !t.fault && h.fds[fd] in h.fs.nodes
    ensures var node := h.fs.nodes[h.fds[fd]];
      && (DoRead(h, t, fd, offset, wanted).1.Ok? <==> node.File? || node.Fifo?)
      && (node.Fifo? ==> DoRead(h, t, fd, offset, wanted).1 == Ok([]))
      && (DoWrite(h, t, fd, data).1.Ok? <==> node.File?)
      && (DoFstat(h, t, fd).1 == Ok((true, if node.File? then |node.content| else 0)) <==> node.File?)
  {
  }

  /** Renaming: onto itself it does nothing, a directory and a file do not replace one another, a directory
    * replaces an empty one only, and otherwise the new name leads where the old one led. */
  lemma RenameRules(h: Host, t: Turn, dir: Fd, source: string, target: string)
    requires dir in h.fds && !t.fault && IsDir(h.fs, h.fds[dir])
    requires Plain(source) && '\0' !in source && Plain(target) && '\0' !in target
    requires var entries := h.fs.nodes[h.fds[dir]].entries; source in entries && target in entries
    ensures var entries := h.fs.nodes[h.fds[dir]].entries;
      var (moved, present) := (entries[source], entries[target]);
      var (h', r) := DoReplace(h, t, dir, source, target);
      if moved == present then r == Ok(()) && h'.fs == h.fs
      else if IsDir(h.fs, present) != IsDir(h.fs, moved) then r.Err? && h'.fs == h.fs
      else if IsDir(h.fs, present) && h.fs.nodes[present].entries != map[] then r == Err(NotEmpty) && h'.fs == h.fs
      else r == Ok(()) && h'.fs == WithEntries(h.fs, h.fds[dir], entries[target := moved] - {source})
  {
  }

  /** `after` remembers what was touched before, the directory the call was made in, and every inode that it
    * changed. */
  ghost predicate Recorded(h: Host, after: Host, d: Inode) {
    && h.touched <= after.touched && d in after.touched
    && forall i :: i in h.fs.nodes && (i !in after.fs.nodes || after.fs.nodes[i] != h.fs.nodes[i]) ==>
         i in after.touched
  }

  /** No call on a descriptor reaches an inode without a record of it. */
  lemma EveryTransferIsRecorded(h: Host, t: Turn, fd: Fd, mode: nat, data: seq<byte>, offset: nat, wanted: nat)
    requires fd in h.fds
    ensures Recorded(h, DoWrite(h, t, fd, data).0, h.fds[fd]) && Recorded(h, DoFchmod(h, t, fd, mode).0, h.fds[fd])
    ensures Recorded(h, DoFstat(h, t, fd).0, h.fds[fd]) && Recorded(h, DoRead(h, t, fd, offset, wanted).0, h.fds[fd])
  {
  }

  /** Nor does a call on a name. */
  lemma EveryLookupIsRecorded(h: Host, t: Turn, dir: Fd, name: string, flags: Flags)
    requires dir in h.fds && h.fs.nextInode !in h.fs.nodes
    ensures Recorded(h, DoMkdir(h, t, dir, name).0, h.fds[dir])
    ensures var (h', r) := DoOpen(h, t, dir, name, flags);
      Recorded(h, h', h.fds[dir]) && (r.Ok? ==> h'.fds[r.value] in h'.touched)
  {
  }

  lemma EveryChangeIsRecorded(h: Host, t: Turn, dir: Fd, source: string, name: string)
    requires dir in h.fds
    ensures Recorded(h, DoReplace(h, t, dir, source, name).0, h.fds[dir])
    ensures Recorded(h, DoUnlink(h, t, dir, name).0, h.fds[dir])
  {
    hide Plain;
  }

  // ---------------------------------------------------------------- why the calls are made as they are

  /** Without O_NOFOLLOW a link would be followed anywhere on the host, and so would a name that no
    * validation had looked at. */
  lemma CarelessOpenEscapes(h: Host, dir: Fd, name: string, outside: Inode)
    requires Sound(h) && Held(h, dir) && IsDir(h.fs, h.fds[dir]) && '\0' !in name && outside !in h.fs.workspace
    requires !Plain(name)
             || (name in h.fs.nodes[h.fds[dir]].entries && h.fs.nodes[h.fds[dir]].entries[name] in h.fs.nodes
                 && h.fs.nodes[h.fs.nodes[h.fds[dir]].entries[name]].Symlink?)
    ensures var (h', r) := DoOpen(h, Turn([], false, 0, outside), dir, name, Flags(false, false, false, true));
      if outside in h.fs.nodes then r.Ok? && h'.fds[r.value] == outside && outside in h'.touched else r == Err(NotFound)
  {
  }

  /** Making, renaming or removing something under such a name would change a directory outside, and what is
    * made there would not belong to the workspace. */
  lemma CarelessChangeEscapes(h: Host, dir: Fd, name: string, source: string, outside: Inode)
    requires Sound(h) && Held(h, dir) && IsDir(h.fs, h.fds[dir]) && !Plain(name) && '\0' !in name && '\0' !in source
    requires IsDir(h.fs, outside) && outside !in h.fs.workspace && outside < h.fs.nextInode
    ensures var t := Turn([], false, 0, outside);
      var made, moved, gone := DoMkdir(h, t, dir, name), DoReplace(h, t, dir, source, name), DoUnlink(h, t, dir, name);
      && made.1.Ok? && moved.1.Ok? && gone.1.Ok?
      && outside in made.0.touched && outside in moved.0.touched && outside in gone.0.touched
      && name in made.0.fs.nodes[outside].entries && made.0.fs.workspace == h.fs.workspace
      && name !in moved.0.fs.nodes[outside].entries && name !in gone.0.fs.nodes[outside].entries
      && outside in DoReplace(h, t, dir, name, source).0.touched
  {
  }

  /** Opening a FIFO waits for ever without O_NONBLOCK, and returns with it; a regular file never waits. */
  lemma FifoNeedsNonblock(h: Host, dir: Fd, name: string, nonblock: bool)
    requires Sound(h) && Held(h, dir) && IsDir(h.fs, h.fds[dir]) && Plain(name) && '\0' !in name
    requires name in h.fs.nodes[h.fds[dir]].entries && h.fs.nodes[h.fds[dir]].entries[name] in h.fs.nodes
    ensures var (h', r) := DoOpen(h, QUIET, dir, name, Flags(false, true, false, nonblock));
      var i := h.fs.nodes[h.fds[dir]].entries[name];
      && (h.fs.nodes[i].Fifo? ==> if nonblock then r.Ok? && h'.fds[r.value] == i else r == Err(Blocked))
      && (h.fs.nodes[i].File? ==> r.Ok? && h'.fds[r.value] == i)
  {
  }
}
