/** `_open_parent`, `atomic_write` and `bounded_read`, call by call: as functions of the world, and as
  * methods that make the calls on the running host. */
module FileIo {
  import opened Strings
  import opened Utf8
  import opened WorkspacePath
  import opened HostFiles
  import opened HostKernel

  /** How a function ends: with a value, with FileAccessError, with an exception that its handlers let
    * through (an error of the clean-up itself, or ValueError for an embedded null), or not at all,
    * because one of its calls waits for ever. */
  datatype Outcome<T> = Done(value: T) | FileAccessError | Escapes(error: Error) | Hangs

  /** What a failed call makes of the function around it: OSError becomes FileAccessError, ValueError
    * escapes, and no handler gets to see a call that does not return. */
  function Ended<T>(error: Error): Outcome<T> {
    match error
    case BadName => Escapes(BadName)
    case Blocked => Hangs
    case _ => FileAccessError
  }

  /** What remains of the clean-up's own result: a missing temporary file is fine, nothing else is. */
  function Cleaned(unlinked: Result<(), Error>): Outcome<()> {
    if unlinked.Ok? || unlinked.error == NotFound then FileAccessError
    else if unlinked.error == Blocked then Hangs
    else Escapes(unlinked.error)
  }

  const DIRECTORY := Flags(true, true, false, false)
  const CREATE := Flags(false, true, true, false)
  const READ := Flags(false, true, false, true)
  const ALL_MODES := 0x1FF

  // ---------------------------------------------------------------- the parent directory

  /** One turn of the loop of `_open_parent`: the next directory is opened and the one before closed;
    * an error closes what is open. */
  function Descend(w: World, descriptor: Fd, component: string, create: bool): (r: (World, Result<Fd, Error>))
    requires descriptor in w.host.fds && Counted(w.host)
    ensures Counted(r.0.host) && (r.1.Ok? ==> r.1.value in r.0.host.fds)
  {
    var (w1, made) := if create then SysMkdir(w, descriptor, component) else (w, Ok(()));
    if made.Err? && made.error != Exists then (SysClose(w1, descriptor), Err(made.error))
    else
      var (w2, child) := SysOpenAt(w1, descriptor, component, DIRECTORY);
      var w3 := SysClose(w2, descriptor);
      if child.Err? || !create then (w3, child)
      else
        var (w4, changed) := SysFchmod(w3, child.value, ALL_MODES);
        if changed.Err? then (SysClose(w4, child.value), Err(changed.error)) else (w4, child)
  }

  function Descents(w: World, descriptor: Fd, components: seq<string>, create: bool): (r: (World, Result<Fd, Error>))
    requires descriptor in w.host.fds && Counted(w.host)
    ensures Counted(r.0.host) && (r.1.Ok? ==> r.1.value in r.0.host.fds)
    decreases components
  {
    if components == [] then (w, Ok(descriptor))
    else
      var (w1, child) := Descend(w, descriptor, components[0], create);
      if child.Err? then (w1, child) else Descents(w1, child.value, components[1..], create)
  }

  function OpenedParent(w: World, parts: seq<string>, create: bool): (r: (World, Result<Fd, Error>))
    requires parts != [] && Counted(w.host)
    ensures Counted(r.0.host) && (r.1.Ok? ==> r.1.value in r.0.host.fds)
  {
    var (w1, root) := SysOpenRoot(w);
    if root.Err? then (w1, root) else Descents(w1, root.value, parts[..|parts| - 1], create)
  }

  // ---------------------------------------------------------------- writing

  /** `handle.write(content)`: as many partial writes as it takes. */
  function Written(w: World, fd: Fd, data: seq<byte>): (r: (World, Result<(), Error>))
    requires fd in w.host.fds
    ensures r.0.host.fds == w.host.fds && r.0.host.nextFd == w.host.nextFd
    decreases |data|
  {
    if data == [] then (w, Ok(()))
    else
      var (w1, n) := SysWrite(w, fd, data);
      if n.Err? then (w1, Err(n.error)) else Written(w1, fd, data[n.value..])
  }

  /** The guarded part of `atomic_write` after the parent is open: create, fill and close the
    * temporary file, then move it over the target. */
  function WrittenEntry(w: World, parent: Fd, name: string, temporary: string,
                        content: seq<byte>): (r: (World, Result<(), Error>))
    requires parent in w.host.fds && Counted(w.host)
    ensures Counted(r.0.host) && parent in r.0.host.fds
  {
    var (w1, file) := SysOpenAt(w, parent, temporary, CREATE);
    if file.Err? then (w1, Err(file.error))
    else
      var (w2, filled) := Written(w1, file.value, content);
      var w3 := SysClose(w2, file.value);
      if filled.Err? then (w3, filled) else SysReplace(w3, parent, temporary, name)
  }

  /** `atomic_write` once the parent is open, with its exception handler and `finally` clause. */
  function WrittenInto(w: World, parent: Fd, name: string, temporary: string, content: seq<byte>): (World, Outcome<()>)
    requires parent in w.host.fds && Counted(w.host)
  {
    var (w1, entry) := WrittenEntry(w, parent, name, temporary, content);
    if entry.Ok? then (SysClose(w1, parent), Done(()))
    else if !Ended<()>(entry.error).FileAccessError? then (SysClose(w1, parent), Ended(entry.error))
    else
      var (w2, unlinked) := SysUnlink(w1, parent, temporary);
      (SysClose(w2, parent), Cleaned(unlinked))
  }

  /** `atomic_write`, for a temporary name made from a random token. */
  function WrittenFile(w: World, path: string, temporary: string, content: seq<byte>): (World, Outcome<()>)
    requires Counted(w.host)
  {
    match RelativeParts(path)
    case None => (w, FileAccessError)
    case Some(parts) =>
      var (w1, parent) := OpenedParent(w, parts, true);
      if parent.Err? then (w1, Ended(parent.error))
      else WrittenInto(w1, parent.value, parts[|parts| - 1], temporary, content)
  }

  // ---------------------------------------------------------------- reading

  /** `handle.read(wanted)`: reads until there is enough or the file ends. */
  function ReadUpTo(w: World, fd: Fd, got: seq<byte>, wanted: nat): (r: (World, Result<seq<byte>, Error>))
    requires fd in w.host.fds && |got| <= wanted
    ensures r.0.host.fds == w.host.fds && r.0.host.nextFd == w.host.nextFd
    ensures r.1.Ok? ==> |r.1.value| <= wanted
    decreases wanted - |got|
  {
    if |got| == wanted then (w, Ok(got))
    else
      var (w1, chunk) := SysRead(w, fd, |got|, wanted - |got|);
      if chunk.Err? then (w1, chunk)
      else if chunk.value == [] then (w1, Ok(got))
      else ReadUpTo(w1, fd, got + chunk.value, wanted)
  }

  /** The body of the `with` block of `bounded_read`. */
  function ReadRegular(w: World, fd: Fd, maxBytes: nat): (r: (World, Outcome<seq<byte>>))
    requires fd in w.host.fds
    ensures r.0.host.fds == w.host.fds && r.0.host.nextFd == w.host.nextFd
    ensures r.1.Done? ==> |r.1.value| <= maxBytes
  {
    var (w1, stat) := SysFstat(w, fd);
    if stat.Err? then (w1, Ended(stat.error))
    else if !stat.value.0 || stat.value.1 > maxBytes then (w1, FileAccessError)
    else
      var (w2, payload) := ReadUpTo(w1, fd, [], maxBytes + 1);
      if payload.Err? then (w2, Ended(payload.error))
      else if |payload.value| > maxBytes then (w2, FileAccessError)
      else (w2, Done(payload.value))
  }

  /** `os.fdopen` on a read descriptor fails for a directory, and then leaves the descriptor open. */
  function ReadEntry(w: World, parent: Fd, name: string, maxBytes: nat): (r: (World, Outcome<seq<byte>>))
    requires parent in w.host.fds && Counted(w.host)
    ensures Counted(r.0.host) && parent in r.0.host.fds
  {
    var (w1, file) := SysOpenAt(w, parent, name, READ);
    if file.Err? then (w1, Ended(file.error))
    else if IsDir(w1.host.fs, w1.host.fds[file.value]) then (w1, FileAccessError)
    else
      var (w2, outcome) := ReadRegular(w1, file.value, maxBytes);
      (SysClose(w2, file.value), outcome)
  }

  /** `bounded_read`. */
  function ReadFile(w: World, path: string, maxBytes: nat): (World, Outcome<seq<byte>>)
    requires Counted(w.host)
  {
    match RelativeParts(path)
    case None => (w, FileAccessError)
    case Some(parts) =>
      var (w1, parent) := OpenedParent(w, parts, false);
      if parent.Err? then (w1, Ended(parent.error))
      else
        var (w2, outcome) := ReadEntry(w1, parent.value, parts[|parts| - 1], maxBytes);
        (SysClose(w2, parent.value), outcome)
  }

  // ---------------------------------------------------------------- on the running host

  method OpenParent(k: Kernel, parts: seq<string>, create: bool) returns (r: Result<(Fd, string), Error>)
    requires parts != [] && Counted(k.host)
    modifies k
    ensures var (w, parent) := OpenedParent(old(k.Abs()), parts, create);
      && k.Abs() == w
      && r == if parent.Err? then Err(parent.error) else Ok((parent.value, parts[|parts| - 1]))
  {
    ghost var goal := OpenedParent(k.Abs(), parts, create);
    var root := k.OpenRoot();
    if root.Err? {
      return Err(root.error);
    }
    var descriptor := root.value;
    var last := |parts| - 1;
    assert parts[..last][0..] == parts[..last];
    for i := 0 to last
      invariant descriptor in k.host.fds && Counted(k.host)
      invariant Descents(k.Abs(), descriptor, parts[..last][i..], create) == goal
    {
      assert parts[..last][i..][0] == parts[i] && parts[..last][i..][1..] == parts[..last][i + 1..];
      var child := DescendOnce(k, descriptor, parts[i], create);
      if child.Err? {
        return Err(child.error);
      }
      descriptor := child.value;
    }
    assert parts[..last][last..] == [];
    return Ok((descriptor, parts[last]));
  }

  /** The loop body of `_open_parent`, with the close of its exception handler on every error path. */
  method DescendOnce(k: Kernel, descriptor: Fd, component: string, create: bool) returns (r: Result<Fd, Error>)
    requires descriptor in k.host.fds && Counted(k.host)
    modifies k
    ensures (k.Abs(), r) == Descend(old(k.Abs()), descriptor, component, create)
  {
    if create {
      var made := k.Mkdir(descriptor, component);
      if made.Err? && made.error != Exists {
        k.Close(descriptor);
        return Err(made.error);
      }
    }
    var child := k.OpenAt(descriptor, component, DIRECTORY);
    k.Close(descriptor);
    if child.Ok? && create {
      var changed := k.Fchmod(child.value, ALL_MODES);
      if changed.Err? {
        k.Close(child.value);
        return Err(changed.error);
      }
    }
    return child;
  }

  method WriteAll(k: Kernel, fd: Fd, data: seq<byte>) returns (r: Result<(), Error>)
    requires fd in k.host.fds
    modifies k
    ensures (k.Abs(), r) == Written(old(k.Abs()), fd, data)
  {
    ghost var goal := Written(k.Abs(), fd, data);
    var done := 0;
    assert data[0..] == data;
    while done < |data|
      invariant 0 <= done <= |data| && fd in k.host.fds
      invariant Written(k.Abs(), fd, data[done..]) == goal
    {
      var n := k.Write(fd, data[done..]);
      if n.Err? {
        return Err(n.error);
      }
      assert data[done..][n.value..] == data[done + n.value..];
      done := done + n.value;
    }
    return Ok(());
  }

  method AtomicWrite(k: Kernel, path: string, temporary: string, content: seq<byte>) returns (outcome: Outcome<()>)
    requires Counted(k.host)
    modifies k
    ensures (k.Abs(), outcome) == WrittenFile(old(k.Abs()), path, temporary, content)
  {
    var parts := RelativeParts(path);
    if parts.None? {
      return FileAccessError;
    }
    var walked := OpenParent(k, parts.value, true);
    if walked.Err? {
      return Ended(walked.error);
    }
    var (parent, name) := walked.value;
    var entry := WriteEntry(k, parent, name, temporary, content);
    if entry.Ok? {
      outcome := Done(());
    } else {
      outcome := Ended(entry.error);
      if outcome.FileAccessError? {
        var unlinked := k.Unlink(parent, temporary);
        outcome := Cleaned(unlinked);
      }
    }
    k.Close(parent);
  }

  method WriteEntry(k: Kernel, parent: Fd, name: string, temporary: string, content: seq<byte>)
    returns (r: Result<(), Error>)
    requires parent in k.host.fds && Counted(k.host)
    modifies k
    ensures (k.Abs(), r) == WrittenEntry(old(k.Abs()), parent, name, temporary, content)
  {
    var file := k.OpenAt(parent, temporary, CREATE);
    if file.Err? {
      return Err(file.error);
    }
    r := WriteAll(k, file.value, content);
    k.Close(file.value);
    if r.Ok? {
      r := k.Replace(parent, temporary, name);
    }
  }

  method ReadWhole(k: Kernel, fd: Fd, wanted: nat) returns (r: Result<seq<byte>, Error>)
    requires fd in k.host.fds
    modifies k
    ensures (k.Abs(), r) == ReadUpTo(old(k.Abs()), fd, [], wanted)
  {
    ghost var goal := ReadUpTo(k.Abs(), fd, [], wanted);
    var got: seq<byte> := [];
    while |got| < wanted
      invariant |got| <= wanted && fd in k.host.fds
      invariant ReadUpTo(k.Abs(), fd, got, wanted) == goal
      decreases wanted - |got|
    {
      var chunk := k.Read(fd, |got|, wanted - |got|);
      if chunk.Err? {
        return chunk;
      }
      if chunk.value == [] {
        return Ok(got);
      }
      got := got + chunk.value;
    }
    return Ok(got);
  }

  method BoundedRead(k: Kernel, path: string, maxBytes: nat) returns (outcome: Outcome<seq<byte>>)
    requires Counted(k.host)
    modifies k
    ensures (k.Abs(), outcome) == ReadFile(old(k.Abs()), path, maxBytes)
  {
    var parts := RelativeParts(path);
    if parts.None? {
      return FileAccessError;
    }
    var walked := OpenParent(k, parts.value, false);
    if walked.Err? {
      return Ended(walked.error);
    }
    var (parent, name) := walked.value;
    var file := k.OpenAt(parent, name, READ);
    if file.Err? {
      outcome := Ended(file.error);
    } else if IsDir(k.host.fs, k.host.fds[file.value]) {
      outcome := FileAccessError;
    } else {
      outcome := ReadHandle(k, file.value, maxBytes);
      k.Close(file.value);
    }
    k.Close(parent);
  }

  method ReadHandle(k: Kernel, fd: Fd, maxBytes: nat) returns (outcome: Outcome<seq<byte>>)
    requires fd in k.host.fds
    modifies k
    ensures (k.Abs(), outcome) == ReadRegular(old(k.Abs()), fd, maxBytes)
  {
    var stat := k.Fstat(fd);
    if stat.Err? {
      return Ended(stat.error);
    }
    if !stat.value.0 || stat.value.1 > maxBytes {
      return FileAccessError;
    }
    var payload := ReadWhole(k, fd, maxBytes + 1);
    if payload.Err? {
      return Ended(payload.error);
    }
    if |payload.value| > maxBytes {
      return FileAccessError;
    }
    return Done(payload.value);
  }
}
