/** The host file system as the workspace functions see it: inodes, descriptors, one system call at
  * a time, and the edits that the sandboxed process makes to its workspace between two calls. */
module HostFiles {
  import opened Strings
  import opened WorkspacePath
  import opened Utf8

  type Inode = nat
  type Fd = nat

  datatype Node = Dir(entries: map<string, Inode>) | File(content: seq<byte>) | Symlink(target: string) | Fifo

  /** Inode numbers are never reused; `workspace` is every inode the sandbox can reach through its
    * mount, whether it is still linked or not. */
  datatype Fs = Fs(nodes: Nodes, modes: map<Inode, nat>, workspace: set<Inode>, root: Inode, nextInode: Inode)

  /** `touched` records every inode that a system call of ours searched, opened, read or changed. */
  datatype Host = Host(fs: Fs, fds: map<Fd, Inode>, nextFd: Fd, touched: set<Inode>)

  /** EEXIST, ENOENT and so on; `BadName` is Python's ValueError for an embedded null, and `Blocked`
    * a call that would never return. */
  datatype Error = NotFound | Exists | NotDirectory | IsDirectory | Loop | NotEmpty | Fault | BadName | Blocked

  /** The next descriptor number is not in use. */
  predicate Counted(h: Host) {
    forall fd :: fd in h.fds ==> fd < h.nextFd
  }

  // ---------------------------------------------------------------- the sandboxed process

  /** One edit by the sandbox. It reaches workspace inodes only; its symlinks may point anywhere. */
  datatype Edit =
    | SetEntry(dir: Inode, name: string, target: Inode)
    | DropEntry(dir: Inode, name: string)
    | NewNode(node: Node)
    | Overwrite(inode: Inode, content: seq<byte>)
    | Chmod(inode: Inode, mode: nat)

  type Nodes = map<Inode, Node>

  predicate DirAt(nodes: Nodes, i: Inode) {
    i in nodes && nodes[i].Dir?
  }

  predicate IsDir(fs: Fs, i: Inode) {
    DirAt(fs.nodes, i)
  }

  function Apply(fs: Fs, edit: Edit): Fs {
    match edit
    case SetEntry(dir, name, target) =>
      if dir in fs.workspace && IsDir(fs, dir) && target in fs.workspace && Plain(name)
      then fs.(nodes := fs.nodes[dir := Dir(fs.nodes[dir].entries[name := target])]) else fs
    case DropEntry(dir, name) =>
      if dir in fs.workspace && IsDir(fs, dir)
      then fs.(nodes := fs.nodes[dir := Dir(fs.nodes[dir].entries - {name})]) else fs
    case NewNode(node) =>
      if node.Dir? ==> node.entries == map[]
      then
        fs.(nodes := fs.nodes[fs.nextInode := node],
            workspace := fs.workspace + {fs.nextInode},
            nextInode := fs.nextInode + 1)
      else fs
    case Overwrite(inode, content) =>
      if inode in fs.workspace && inode in fs.nodes && fs.nodes[inode].File?
      then fs.(nodes := fs.nodes[inode := File(content)]) else fs
    case Chmod(inode, mode) =>
      if inode in fs.workspace then fs.(modes := fs.modes[inode := mode]) else fs
  }

  function ApplyAll(fs: Fs, edits: seq<Edit>): Fs
    decreases edits
  {
    if edits == [] then fs else ApplyAll(Apply(fs, edits[0]), edits[1..])
  }

  /** The sandbox can do to its workspace what a process can do to a directory that is mounted for it: link
    * any of its inodes under any name, remove any name, make anything, write any file, change any mode. */
  lemma EditsTakeEffect(fs: Fs, dir: Inode, name: string, inode: Inode, node: Node, content: seq<byte>, mode: nat)
    requires dir in fs.workspace && IsDir(fs, dir) && inode in fs.workspace && Plain(name)
    ensures Apply(fs, SetEntry(dir, name, inode)) == WithEntries(fs, dir, fs.nodes[dir].entries[name := inode])
    ensures Apply(fs, DropEntry(dir, name)) == WithEntries(fs, dir, fs.nodes[dir].entries - {name})
    ensures inode in fs.nodes && fs.nodes[inode].File? ==>
      Apply(fs, Overwrite(inode, content)).nodes == fs.nodes[inode := File(content)]
    ensures (node.Dir? ==> node.entries == map[]) ==>
      var fs' := Apply(fs, NewNode(node));
      && fs'.nodes == fs.nodes[fs.nextInode := node] && fs'.workspace == fs.workspace + {fs.nextInode}
      && fs'.nextInode > fs.nextInode
    ensures Apply(fs, Chmod(inode, mode)).modes == fs.modes[inode := mode]
  {
  }

  /** Of everything else on the host it can do none of that, nor can it link a name that is not plain. */
  lemma EditsStayInside(fs: Fs, dir: Inode, name: string, inode: Inode, content: seq<byte>, mode: nat)
    ensures dir !in fs.workspace ==> Apply(fs, SetEntry(dir, name, inode)) == fs == Apply(fs, DropEntry(dir, name))
    ensures inode !in fs.workspace || !Plain(name) ==> Apply(fs, SetEntry(dir, name, inode)) == fs
    ensures inode !in fs.workspace ==> Apply(fs, Overwrite(inode, content)) == fs == Apply(fs, Chmod(inode, mode))
  {
  }

  /** What the world contributes to one system call: the edits that come before it, whether it fails
    * for a reason of its own (no space, no descriptors, an input or output error), how many bytes a
    * partial read or write moves, and where a path leads that leaves the directory it starts in. */
  datatype Turn = Turn(edits: seq<Edit>, fault: bool, amount: nat, jump: Inode)

  const QUIET := Turn([], false, 0, 0)

  function Settle(h: Host, t: Turn): Host {
    h.(fs := ApplyAll(h.fs, t.edits))
  }

  // ---------------------------------------------------------------- system calls

  datatype Flags = Flags(directory: bool, nofollow: bool, exclusive: bool, nonblock: bool)

  /** Where a name leads from a directory. A followed symlink, and a name that is no plain entry name
    * (`..`, a path with slashes), may lead anywhere on the host. */
  datatype Target = Refused(error: Error) | Existing(inode: Inode) | Absent | Anywhere

  function Resolve(fs: Fs, d: Inode, name: string, flags: Flags): Target {
    if '\0' in name then Refused(BadName)
    else if !Plain(name) then Anywhere
    else if !IsDir(fs, d) then Refused(NotDirectory)
    else if name !in fs.nodes[d].entries then Absent
    else
      var i := fs.nodes[d].entries[name];
      if i !in fs.nodes then Refused(NotFound)
      else if flags.exclusive then Refused(Exists)
      else
        match fs.nodes[i]
        case Symlink(_) => if flags.nofollow then Refused(Loop) else Anywhere
        case Dir(_) => Existing(i)
        case File(_) => if flags.directory then Refused(NotDirectory) else Existing(i)
        case Fifo =>
          if flags.directory then Refused(NotDirectory)
          else if !flags.nonblock then Refused(Blocked)
          else Existing(i)
  }

  function Touch(h: Host, inodes: set<Inode>): Host {
    h.(touched := h.touched + inodes)
  }

  function NewFd(h: Host, i: Inode): Host {
    Touch(h, {i}).(fds := h.fds[h.nextFd := i], nextFd := h.nextFd + 1)
  }

  /** A new node under a name in a directory; it belongs to the workspace if the directory does. */
  function AddNode(fs: Fs, d: Inode, name: string, node: Node): Fs
    requires IsDir(fs, d)
  {
    fs.(nodes := fs.nodes[d := Dir(fs.nodes[d].entries[name := fs.nextInode])][fs.nextInode := node],
        workspace := if d in fs.workspace then fs.workspace + {fs.nextInode} else fs.workspace,
        nextInode := fs.nextInode + 1)
  }

  /** `os.open(root, ...)`: the path of the workspace itself is out of the sandbox's reach. */
  function DoOpenRoot(h: Host, t: Turn): (Host, Result<Fd, Error>) {
    if t.fault then (h, Err(Fault)) else (NewFd(h, h.fs.root), Ok(h.nextFd))
  }

  /** `os.open(name, flags, dir_fd=dir)`. */
  function DoOpen(h: Host, t: Turn, dir: Fd, name: string, flags: Flags): (r: (Host, Result<Fd, Error>))
    requires dir in h.fds
    ensures r.1.Err? ==> r.0.fds == h.fds && r.0.nextFd == h.nextFd
    ensures r.1.Ok? ==> r.1.value == h.nextFd && r.0.nextFd == h.nextFd + 1 && r.1.value in r.0.fds
    ensures r.1.Ok? ==> r.0.fds == h.fds[r.1.value := r.0.fds[r.1.value]]
  {
    var d := h.fds[dir];
    var h1 := Touch(h, {d});
    if t.fault then (h1, Err(Fault))
    else
      match Resolve(h.fs, d, name, flags)
      case Refused(e) => (h1, Err(e))
      case Existing(i) => (NewFd(h1, i), Ok(h.nextFd))
      case Absent =>
        if flags.exclusive
        then (NewFd(h1.(fs := AddNode(h.fs, d, name, File([]))), h.fs.nextInode), Ok(h.nextFd))
        else (h1, Err(NotFound))
      case Anywhere => if t.jump in h.fs.nodes then (NewFd(h1, t.jump), Ok(h.nextFd)) else (h1, Err(NotFound))
  }

  const ENTRY := Flags(false, true, false, true)

  /** `os.mkdir(name, dir_fd=dir)`. */
  function DoMkdir(h: Host, t: Turn, dir: Fd, name: string): (r: (Host, Result<(), Error>))
    requires dir in h.fds
    ensures r.0.fds == h.fds && r.0.nextFd == h.nextFd
  {
    var d := h.fds[dir];
    var h1 := Touch(h, {d});
    if t.fault then (h1, Err(Fault))
    else
      match Resolve(h.fs, d, name, ENTRY)
      case Refused(e) => (h1, Err(if e == Loop then Exists else e))
      case Existing(_) => (h1, Err(Exists))
      case Absent => (Touch(h1, {h.fs.nextInode}).(fs := AddNode(h.fs, d, name, Dir(map[]))), Ok(()))
      case Anywhere =>
        if IsDir(h.fs, t.jump)
        then (Touch(h1, {t.jump}).(fs := AddNode(h.fs, t.jump, name, Dir(map[]))), Ok(()))
        else (h1, Err(NotFound))
  }

  /** `os.fchmod`. */
  function DoFchmod(h: Host, t: Turn, fd: Fd, mode: nat): (r: (Host, Result<(), Error>))
    requires fd in h.fds
    ensures r.0.fds == h.fds && r.0.nextFd == h.nextFd
  {
    var i := h.fds[fd];
    if t.fault then (Touch(h, {i}), Err(Fault))
    else (Touch(h, {i}).(fs := h.fs.(modes := h.fs.modes[i := mode])), Ok(()))
  }

  /** `os.close`: closing a descriptor that is not open is a caller's error. */
  function DoClose(h: Host, fd: Fd): Host
    requires fd in h.fds
  {
    h.(fds := h.fds - {fd})
  }

  /** How much of a request one partial read or write moves. */
  function Moved(t: Turn, wanted: nat): nat {
    if t.amount == 0 || t.amount > wanted then wanted else t.amount
  }

  /** One write of the next bytes: the count that was written. */
  function DoWrite(h: Host, t: Turn, fd: Fd, data: seq<byte>): (r: (Host, Result<nat, Error>))
    requires fd in h.fds
    ensures r.0.fds == h.fds && r.0.nextFd == h.nextFd
    ensures r.1.Ok? ==> r.1.value <= |data| && (data != [] ==> r.1.value > 0)
  {
    var i := h.fds[fd];
    if t.fault || i !in h.fs.nodes || !h.fs.nodes[i].File? then (Touch(h, {i}), Err(Fault))
    else
      var n := Moved(t, |data|);
      var content := h.fs.nodes[i].content + data[..n];
      (Touch(h, {i}).(fs := h.fs.(nodes := h.fs.nodes[i := File(content)])), Ok(n))
  }

  /** `os.fstat`: whether the descriptor is a regular file, and its size. */
  function DoFstat(h: Host, t: Turn, fd: Fd): (r: (Host, Result<(bool, nat), Error>))
    requires fd in h.fds
    ensures r.0.fds == h.fds && r.0.nextFd == h.nextFd
  {
    var i := h.fds[fd];
    if t.fault || i !in h.fs.nodes then (Touch(h, {i}), Err(Fault))
    else if h.fs.nodes[i].File? then (Touch(h, {i}), Ok((true, |h.fs.nodes[i].content|)))
    else (Touch(h, {i}), Ok((false, 0)))
  }

  /** One read at an offset: some of the bytes that are there, none only at the end of the file. A FIFO that
    * was opened without waiting and that nobody writes to is at its end at once. */
  function DoRead(h: Host, t: Turn, fd: Fd, offset: nat, wanted: nat): (r: (Host, Result<seq<byte>, Error>))
    requires fd in h.fds
    ensures r.0.fds == h.fds && r.0.nextFd == h.nextFd
    ensures r.1.Ok? ==> |r.1.value| <= wanted
  {
    var i := h.fds[fd];
    if t.fault || i !in h.fs.nodes || h.fs.nodes[i].Dir? || h.fs.nodes[i].Symlink? then (Touch(h, {i}), Err(Fault))
    else
      var content := if h.fs.nodes[i].File? then h.fs.nodes[i].content else [];
      var there := if offset <= |content| then content[offset..] else [];
      (Touch(h, {i}), Ok(there[..Moved(t, Min(wanted, |there|))]))
  }

  function WithEntries(fs: Fs, d: Inode, entries: map<string, Inode>): Fs {
    fs.(nodes := fs.nodes[d := Dir(entries)])
  }

  predicate Empty(fs: Fs, i: Inode) {
    IsDir(fs, i) && fs.nodes[i].entries == map[]
  }

  /** `os.replace` within one directory. */
  function DoReplace(h: Host, t: Turn, dir: Fd, source: string, target: string): (r: (Host, Result<(), Error>))
    requires dir in h.fds
    ensures r.0.fds == h.fds && r.0.nextFd == h.nextFd
  {
    var d := h.fds[dir];
    var h1 := Touch(h, {d});
    if t.fault then (h1, Err(Fault))
    else if '\0' in source || '\0' in target then (h1, Err(BadName))
    else if !Plain(source) || !Plain(target) then Stray(h1, t, target)
    else if !IsDir(h.fs, d) then (h1, Err(NotDirectory))
    else
      var entries := h.fs.nodes[d].entries;
      if source !in entries then (h1, Err(NotFound))
      else
        var moved := entries[source];
        if target !in entries then (h1.(fs := WithEntries(h.fs, d, entries[target := moved] - {source})), Ok(()))
        else
          var present := entries[target];
          if present == moved then (h1, Ok(()))
          else if IsDir(h.fs, present) && !IsDir(h.fs, moved) then (h1, Err(IsDirectory))
          else if !IsDir(h.fs, present) && IsDir(h.fs, moved) then (h1, Err(NotDirectory))
          else if IsDir(h.fs, present) && !Empty(h.fs, present) then (h1, Err(NotEmpty))
          else (h1.(fs := WithEntries(h.fs, d, entries[target := moved] - {source})), Ok(()))
  }

  /** `os.unlink`. */
  function DoUnlink(h: Host, t: Turn, dir: Fd, name: string): (r: (Host, Result<(), Error>))
    requires dir in h.fds
    ensures r.0.fds == h.fds && r.0.nextFd == h.nextFd
  {
    var d := h.fds[dir];
    var h1 := Touch(h, {d});
    if t.fault then (h1, Err(Fault))
    else if '\0' in name then (h1, Err(BadName))
    else if !Plain(name) then Stray(h1, t, name)
    else if !IsDir(h.fs, d) then (h1, Err(NotDirectory))
    else if name !in h.fs.nodes[d].entries then (h1, Err(NotFound))
    else if IsDir(h.fs, h.fs.nodes[d].entries[name]) then (h1, Err(IsDirectory))
    else (h1.(fs := WithEntries(h.fs, d, h.fs.nodes[d].entries - {name})), Ok(()))
  }

  /** A change under a name that is no plain entry name lands in some directory of the host. */
  function Stray(h: Host, t: Turn, name: string): (Host, Result<(), Error>) {
    if IsDir(h.fs, t.jump)
    then (Touch(h, {t.jump}).(fs := WithEntries(h.fs, t.jump, h.fs.nodes[t.jump].entries - {name})), Ok(()))
    else (h, Err(NotFound))
  }

  // ---------------------------------------------------------------- staying inside

  /** The workspace is closed under entries: it holds no hard link to an outside inode. */
  ghost predicate Closed(fs: Fs) {
    && fs.root in fs.workspace && fs.workspace <= fs.nodes.Keys && fs.nodes[fs.root].Dir?
    && (forall i :: i in fs.nodes ==> i < fs.nextInode)
    && (forall d, name :: d in fs.workspace && fs.nodes[d].Dir? && name in fs.nodes[d].entries ==>
          fs.nodes[d].entries[name] in fs.workspace)
  }

  ghost predicate SameKind(a: Node, b: Node) {
    a.Dir? == b.Dir? && a.File? == b.File? && a.Symlink? == b.Symlink?
  }

  /** No outside inode changed, none joined the workspace, and no inode changed its kind. */
  ghost predicate Confined(fs: Fs, fs': Fs) {
    && fs'.root == fs.root && fs.workspace <= fs'.workspace
    && (forall i :: i in fs.nodes ==> i in fs'.nodes && SameKind(fs.nodes[i], fs'.nodes[i]))
    && (forall i :: i in fs.nodes && i !in fs.workspace ==>
          i !in fs'.workspace && fs'.nodes[i] == fs.nodes[i])
    && (forall i :: i in fs'.nodes && i !in fs.nodes ==> i in fs'.workspace)
    && (forall i :: i !in fs'.workspace ==>
          (i in fs'.modes <==> i in fs.modes) && (i in fs.modes ==> fs'.modes[i] == fs.modes[i]))
  }

  ghost predicate Sound(h: Host) {
    Closed(h.fs) && Counted(h)
  }

  /** What every step of ours and of the sandbox keeps: only the workspace was changed or touched. */
  ghost predicate Tame(h: Host, h': Host) {
    && Sound(h') && Confined(h.fs, h'.fs) && h.nextFd <= h'.nextFd
    && h.touched <= h'.touched <= h.touched + h'.fs.workspace
  }

  lemma ConfinedTransitive(a: Fs, b: Fs, c: Fs)
    requires Confined(a, b) && Confined(b, c)
    ensures Confined(a, c)
  {
  }

  lemma TameTransitive(a: Host, b: Host, c: Host)
    requires Tame(a, b) && Tame(b, c)
    ensures Tame(a, c)
  {
    ConfinedTransitive(a.fs, b.fs, c.fs);
  }

  lemma ApplyConfined(fs: Fs, edit: Edit)
    requires Closed(fs)
    ensures Closed(Apply(fs, edit)) && Confined(fs, Apply(fs, edit))
  {
  }

  lemma {:induction false} ApplyAllConfined(fs: Fs, edits: seq<Edit>)
    requires Closed(fs)
    ensures Closed(ApplyAll(fs, edits)) && Confined(fs, ApplyAll(fs, edits))
    decreases edits
  {
    if edits != [] {
      ApplyConfined(fs, edits[0]);
      ApplyAllConfined(Apply(fs, edits[0]), edits[1..]);
      ConfinedTransitive(fs, Apply(fs, edits[0]), ApplyAll(fs, edits));
    }
  }

  /** Whatever the sandbox does between two calls stays inside, and moves no descriptor. */
  lemma SettleTame(h: Host, t: Turn)
    requires Sound(h)
    ensures Tame(h, Settle(h, t)) && Settle(h, t).fds == h.fds && Settle(h, t).nextFd == h.nextFd
  {
    ApplyAllConfined(h.fs, t.edits);
  }

  lemma AddNodeConfined(fs: Fs, d: Inode, name: string, node: Node)
    requires Closed(fs) && d in fs.workspace && IsDir(fs, d) && (node.Dir? ==> node.entries == map[])
    ensures Closed(AddNode(fs, d, name, node)) && Confined(fs, AddNode(fs, d, name, node))
  {
  }

  /** New entries of a workspace directory that lead to workspace inodes. */
  lemma WithEntriesConfined(fs: Fs, d: Inode, entries: map<string, Inode>)
    requires Closed(fs) && d in fs.workspace && IsDir(fs, d)
    requires forall name :: name in entries ==> entries[name] in fs.workspace
    ensures Closed(WithEntries(fs, d, entries)) && Confined(fs, WithEntries(fs, d, entries))
  {
  }

  /** A name that validation lets through: a plain entry name, up to an embedded null. */
  ghost predicate Valid(name: string) {
    '\0' in name || Plain(name)
  }

  ghost predicate Held(h: Host, fd: Fd) {
    fd in h.fds && h.fds[fd] in h.fs.workspace
  }

  /** Exactly one descriptor more than before, and it denotes a workspace inode. */
  ghost predicate OpenedInside(h: Host, h': Host, fd: Fd) {
    && fd !in h.fds && Held(h', fd) && h'.fds == h.fds[fd := h'.fds[fd]]
  }

  lemma NothingChanged(h: Host, fs: Fs, d: Inode)
    requires Sound(h) && d in h.fs.workspace
    ensures Tame(h, Touch(h, {d}))
    ensures Closed(fs) && Confined(h.fs, fs) ==> Tame(h, Touch(h, {d}).(fs := fs))
  {
  }

  /** A plain name leads to a workspace inode, to nothing, or to an error; a symlink is never followed. */
  lemma ResolvedInside(fs: Fs, d: Inode, name: string, flags: Flags)
    requires Closed(fs) && d in fs.workspace && Valid(name) && (flags.nofollow || flags.exclusive)
    ensures match Resolve(fs, d, name, flags)
      case Refused(e) => flags.nonblock || flags.directory || flags.exclusive ==> e != Blocked
      case Existing(i) => i in fs.workspace && i in fs.nodes && !flags.exclusive && (flags.directory ==> IsDir(fs, i))
      case Absent => IsDir(fs, d)
      case Anywhere => false
  {
    hide Plain;
  }

  /** One inode more was touched, or opened. */
  lemma NodeTouched(h: Host, fs: Fs, d: Inode, i: Inode)
    requires Sound(h) && Closed(fs) && Confined(h.fs, fs) && d in h.fs.workspace && i in fs.workspace
    ensures Tame(h, Touch(Touch(h, {d}), {i}).(fs := fs))
    ensures var h' := NewFd(Touch(h, {d}).(fs := fs), i);
      Tame(h, h') && OpenedInside(h, h', h.nextFd) && h'.fds[h.nextFd] == i
  {
  }

  lemma SameConfined(fs: Fs)
    requires Closed(fs)
    ensures Confined(fs, fs)
  {
  }

  lemma OpenTame(h: Host, t: Turn, dir: Fd, name: string, flags: Flags)
    requires Sound(h) && Held(h, dir) && Valid(name) && (flags.nofollow || flags.exclusive)
    ensures var (h', r) := DoOpen(h, t, dir, name, flags);
      && Tame(h, h')
      && (r.Err? ==> h'.fds == h.fds)
      && (r.Ok? ==>
            OpenedInside(h, h', r.value) && (flags.directory && !flags.exclusive ==> IsDir(h'.fs, h'.fds[r.value])))
      && (r.Ok? && flags.exclusive ==> IsFile(h'.fs, h'.fds[r.value]))
      && (flags.nonblock || flags.directory || flags.exclusive ==> r != Err(Blocked))
  {
    var d := h.fds[dir];
    NothingChanged(h, h.fs, d);
    ResolvedInside(h.fs, d, name, flags);
    SameConfined(h.fs);
    match Resolve(h.fs, d, name, flags)
    case Existing(i) =>
      NodeTouched(h, h.fs, d, i);
      hide Closed, Confined, Tame, OpenedInside, Resolve, Sound, Valid, Counted;
    case Absent =>
      var fs := AddNode(h.fs, d, name, File([]));
      AddNodeConfined(h.fs, d, name, File([]));
      NodeTouched(h, fs, d, h.fs.nextInode);
      hide Closed, Confined, Tame, OpenedInside, Resolve, Sound, Valid, Counted;
    case _ =>
      hide Closed, Confined, Tame, OpenedInside, Resolve, Sound, Valid, Counted;
  }

  predicate IsFile(fs: Fs, i: Inode) {
    i in fs.nodes && fs.nodes[i].File?
  }

  lemma MkdirTame(h: Host, t: Turn, dir: Fd, name: string)
    requires Sound(h) && Held(h, dir) && Valid(name)
    ensures var (h', r) := DoMkdir(h, t, dir, name); Tame(h, h') && h'.fds == h.fds
  {
    var d := h.fds[dir];
    NothingChanged(h, h.fs, d);
    ResolvedInside(h.fs, d, name, ENTRY);
    if Resolve(h.fs, d, name, ENTRY).Absent? {
      var fs := AddNode(h.fs, d, name, Dir(map[]));
      AddNodeConfined(h.fs, d, name, Dir(map[]));
      NodeTouched(h, fs, d, h.fs.nextInode);
    }
    hide Closed, Confined, Tame, Resolve, Sound, Valid, Counted, AddNode;
  }

  lemma FchmodTame(h: Host, t: Turn, fd: Fd, mode: nat)
    requires Sound(h) && Held(h, fd)
    ensures var (h', r) := DoFchmod(h, t, fd, mode);
      Tame(h, h') && h'.fds == h.fds && h'.fs.nodes == h.fs.nodes && r != Err(Blocked)
  {
  }

  lemma WriteTame(h: Host, t: Turn, fd: Fd, data: seq<byte>)
    requires Sound(h) && Held(h, fd)
    ensures var (h', r) := DoWrite(h, t, fd, data); Tame(h, h') && h'.fds == h.fds
  {
  }

  lemma ReadTame(h: Host, t: Turn, fd: Fd, offset: nat, wanted: nat)
    requires Sound(h) && Held(h, fd)
    ensures var (h', r) := DoFstat(h, t, fd); Tame(h, h') && h'.fds == h.fds
    ensures var (h', r) := DoRead(h, t, fd, offset, wanted); Tame(h, h') && h'.fds == h.fds
  {
  }

  lemma ReplaceTame(h: Host, t: Turn, dir: Fd, source: string, target: string)
    requires Sound(h) && Held(h, dir) && Valid(source) && Valid(target)
    ensures var (h', r) := DoReplace(h, t, dir, source, target); Tame(h, h') && h'.fds == h.fds
  {
    var d := h.fds[dir];
    NothingChanged(h, h.fs, d);
    if IsDir(h.fs, d) && source in h.fs.nodes[d].entries {
      var entries := h.fs.nodes[d].entries[target := h.fs.nodes[d].entries[source]] - {source};
      WithEntriesConfined(h.fs, d, entries);
      NothingChanged(h, WithEntries(h.fs, d, entries), d);
    }
    hide Closed, Confined, Tame, Sound, WithEntries, Plain;
  }

  lemma UnlinkTame(h: Host, t: Turn, dir: Fd, name: string)
    requires Sound(h) && Held(h, dir) && Valid(name)
    ensures var (h', r) := DoUnlink(h, t, dir, name); Tame(h, h') && h'.fds == h.fds
  {
    var d := h.fds[dir];
    if IsDir(h.fs, d) {
      WithEntriesConfined(h.fs, d, h.fs.nodes[d].entries - {name});
    }
  }
}
