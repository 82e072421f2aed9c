# AgentNest, modelled and proved in Dafny

AgentNest runs untrusted code in short-lived sandboxes. This project models the parts of it whose
correctness is hard to see: file access in a directory that the sandboxed process changes at the same
time, a file-based request and response protocol between two processes, a pool shared by threads, the
ownership of Docker resources through every failure, the life of a sandbox under concurrent callers,
and the text and byte transformations between them. `dafny verify dfyconfig.toml` checks everything.

Code that updates fields or loops is modelled by classes and methods; each such method is proved equal
to a step or a function of a specification, and the promises are proved about that specification for
every input, every run or every interleaving.

| files | what they model |
|---|---|
| `Strings`, `WorkspacePath` | validation of workspace paths and working directories |
| `HostFiles`, `HostRules`, `HostKernel` | inodes, descriptors, one system call at a time, the sandbox's edits between two calls, and that calls can fail and careless ones escape |
| `FileIo` | `_open_parent`, `atomic_write`, `bounded_read`, call by call |
| `FileSafety` | containment under every interleaving |
| `FileViews`, `FileWalk`, `FileAtomicity`, `FileReads`, `FileExamples` | atomicity, success and round trip while the sandbox only reads |
| `SessionProtocol`, `PythonSession` | the Python session: transition system, then the two loops |
| `PoolProtocol`, `PoolClosing`, `SandboxPool` | the bounded pool: transition system, when closing is safe, then the object |
| `DockerLedger`, `DockerFleet`, `DockerRuntimes` | who owns which Docker resource |
| `DockerRemovals`, `DockerTeardown`, `DockerEscapes`, `DestroyRace` | removals that fail, errors that pass the handlers, concurrent `destroy` |
| `SandboxLifecycle`, `SandboxObject`, `Reaper` | destruction, approval, time limits, pruning |
| `Redaction`, `SandboxRedaction` | one redaction, and what results and logs redact after any commands |
| `ShellCommand`, `Utf8`, `OutputBudget`, `StreamedExec`, `Base64Read`, `Allowlist` | texts and bytes |

## What the proofs found

These are properties that one would expect and that fail; each has a lemma with a failing input or run,
and the exact condition under which the property holds.

- A request that follows a timed-out one can be answered with the result of the earlier snippet. A call
  gets its own answer if and only if the server had not yet read a request of the same index when the
  call was made (`SessionProtocol.OwnAnswerExactlyWhenUnread`, `SessionProtocol.RetryCanBeStale`). The
  client cannot see that, but it is so whenever it uses an index for the first time
  (`SessionProtocol.FirstUseGetsOwnAnswer`).
- A sandbox can outlive `SandboxPool.close`: a return samples the closed flag and acts on it later
  (`PoolProtocol.ReturnCanOutliveClose`). Closing destroys everything, whatever happens after it, if and
  only if no return that sampled the pool as open is under way at that moment
  (`PoolClosing.CloseIsSafeExactly`).
- `bounded_read` leaves a descriptor open exactly when the name leads to a directory
  (`FileReads.BoundedReadExact`), because `os.fdopen` fails on it before anything owns it
  (`FileExamples.ReadingDirectoryLeaks`).
- A null character in the file's own name makes `atomic_write` leave its temporary file behind, because
  `ValueError` is not the `OSError` that its handler waits for (`FileAtomicity.TemporaryStaysExactlyForNull`,
  `FileExamples.NullLeavesTemporary`).
- `docs/development.md` asks for clean-up on partial creation. While no removal raises `OSError`, `_boot`
  lets an error pass exactly when the allowlist holds address ranges, or when everything up to the proxy
  image is all right and then network, proxy or connection fails with a DockerException
  (`DockerLedger.BootEscapesExactly`). A removal that raises `OSError` makes others pass as well, for
  instance when the daemon vanishes between creating and starting a container
  (`DockerEscapes.VanishedDaemonPasses`); the condition for every way that calls and removals end is
  `DockerEscapes.BootLetsPassExactly`, and `DockerEscapes.ForkLetsPassExactly` for a fork.
- A second `create` on a runtime whose first one let an error pass overwrites the workspace that the first
  one left in its field (`DockerFleet.RetryLosesWorkspace`), a fork loses what its child held
  (`DockerFleet.ForkLosesCopy`), and `create` loses a directory that it cannot open up
  (`DockerFleet.CreateLosesDirectory`). The exact conditions on configuration, fields and calls are
  `DockerFleet.CreateIsCarefulExactly` and `DockerFleet.ForkIsCarefulExactly`.
- `destroy` of the Docker runtime, and its clean-up, leave something behind whenever one of their removals
  fails, and only then: the fields are cleared first, so nobody can try again
  (`DockerTeardown.DestroyLeavesNothingExactly`). An `OSError`, or a `DockerException` that is no
  `APIError`, from the container's removal makes `destroy` leave everything (`DockerFleet.DestroyCutShort`).
- A backend that destroys itself because a command did not end in time does not tell the sandbox: its flag
  stays down, and the next command is admitted and approved before the backend refuses it
  (`SandboxObject.SelfDestructionGoesUnnoticed`). When all callers are done the backend's resources were
  taken for removal, each once, if and only if the flag is up or this happened
  (`SandboxLifecycle.LifetimeTheorem`).
- The Kubernetes `read_file` returns a truncated file without an error when the output cap is a multiple
  of four and the base64 text does not fit (`Base64Read.ReadFileTheorem`, `Base64Read.SilentPrefix`).
- A secret that overlaps or contains `[REDACTED]`, or lies inside it, can survive redaction; exactly such
  secrets can (`Redaction.RemovedExactlyWhenClear`, with `Redaction.Survivor` for a text in which one does).
- The results of a command show a secret of the sandbox whose key the command uses for something else
  (`SandboxRedaction.ReusedKeyShows`); what they hide is characterised in
  `SandboxRedaction.ResultHidesExactly`. The logs can show a secret that a later one was remembered in the
  place of (`SandboxRedaction.OverwrittenSecretShows`); none is lost that way if and only if
  `SandboxRedaction.KeepsAll` holds (`SandboxRedaction.RemembersExactly`), and nothing is overwritten if and
  only if no variable that the sandbox began with has the name under which a secret is remembered
  (`SandboxRedaction.OverwritesNothingExactly`).
- `env` takes a command whose first word holds `=` for a variable, and one that begins with a dash, when
  there is no environment, for an option (`ShellCommand.EnvRunsTheCommand`, `ShellCommand.EnvMisreads`).
- `prune` can come before the deadline of a sandbox that took longer to set up than the grace period less
  half a second; exactly then (`Reaper.NeverEarlyExactly`, with `Reaper.RemovedTooEarly` for a sandbox
  that is removed too early).

## Assumptions

- Files: the sandboxed process edits workspace inodes only and cannot link outside inodes into the
  workspace; the path of the workspace root is out of its reach; inode numbers are not reused; closing a
  descriptor does not fail. The temporary name is a fresh entry name that differs from the target.
- Session: one session per sandbox, started on an empty session directory, and evaluated code that
  leaves that directory alone. The evaluator is any function from a snippet and a namespace to a
  response and a namespace. Reads and writes of the session's files are approved. Request files appear
  whole, as they do on a backend whose `write_file` renames a finished file into place; the Kubernetes
  runtime writes in place, and its requests could be read half-written.
- Pool: the factory returns new sandboxes and does not raise.
- Docker: each call to the daemon or the host works completely or fails without effect. The results on
  what is live after `create` and `fork`, and on fleets, assume that removals work; creation may fail
  anywhere. What `destroy` and the clean-up leave, and which errors pass, is stated for every way that
  removals end as well.
- Time: all parties read the same clock, and it never goes back.

## Model

| member | source | states |
|---|---|---|
| `WorkspacePath.RelativeParts` | agentnest/filesystem.py:17-24 | an accepted path has at least one component, and every component is a plain entry name: not empty, not `.` or `..`, without a slash |
| `WorkspacePath.RefusedExactly` | agentnest/filesystem.py:17-24 | a path is refused if and only if it is absolute, has a `..` among its pieces, or has no piece but empty ones and dots |
| `WorkspacePath.AcceptedKeepsOrder` | agentnest/filesystem.py:17-24 | an accepted path gives exactly its pieces that are neither empty nor a dot, in their order |
| `WorkspacePath.JoinedPartsParse` | agentnest/filesystem.py:27-30 | joining validated components gives a path that validates to the same components |
| `WorkspacePath.NormalizedPathIsStable` | agentnest/filesystem.py:27-30 | normalising an accepted path again changes nothing, so sandbox and backend agree on the components |
| `WorkspacePath.NormpathIdempotent` | agentnest/sandbox.py:420-425 | the normalisation behind working directories is idempotent on every path, absolute or relative |
| `WorkspacePath.WorkdirNormalForm` | agentnest/sandbox.py:420-425 | a working directory is accepted exactly if it has one leading slash and its first normalised component is `workspace`; the result is `/workspace` followed by plain components |
| `WorkspacePath.ClimbingCancels` | agentnest/sandbox.py:420-425 | in any path, going into a directory and back to its parent, and staying where one is, can be left out |
| `WorkspacePath.ClimbingOutIsSeen` | agentnest/sandbox.py:420-425 | a working directory that climbs out of the workspace is judged by where it then leads |
| `WorkspacePath.AcceptedWorkdirIsStable` | agentnest/runtime/docker.py:81-85 | an accepted working directory is a fixed point, and stripping `/workspace` leaves the same components, so the directory made on the host is the workspace or below it |
| `HostFiles.EditsTakeEffect` | agentnest/filesystem.py:33-38 | the sandboxed process of the model can link any workspace inode under any plain name, remove any name, make any node, write any file and change any mode of the workspace |
| `HostFiles.EditsStayInside` | agentnest/filesystem.py:33-38 | it can do none of that to anything else |
| `HostRules.EveryCallCanFail` | agentnest/filesystem.py:88-95 | any system call of the model can fail for a reason of its own, and then changes no file |
| `HostRules.TransfersCanBePartial` | agentnest/filesystem.py:80-117 | a write or a read moves as many bytes as the world decides |
| `HostRules.EveryTransferIsRecorded` | agentnest/filesystem.py:80-120 | a call on a descriptor is recorded with every inode it reaches or changes |
| `HostRules.EveryLookupIsRecorded` | agentnest/filesystem.py:48-63 | so is a call that makes or opens a name |
| `HostRules.EveryChangeIsRecorded` | agentnest/filesystem.py:87-92 | so is a call that renames or removes a name |
| `HostRules.CarelessOpenEscapes` | agentnest/filesystem.py:14-24 | without O_NOFOLLOW a link, and without validation a name such as `..`, is opened outside the workspace |
| `HostRules.CarelessChangeEscapes` | agentnest/filesystem.py:17-24 | under a name that was not validated, mkdir, rename and unlink would change a directory outside |
| `HostRules.FifoNeedsNonblock` | agentnest/filesystem.py:105-110 | opening a FIFO waits for ever without O_NONBLOCK and returns with it; a regular file never waits |
| `HostKernel.EveryCallTakesOneTurn` | agentnest/filesystem.py:48-127 | every system call finds the files as the sandbox's edits of its own turn leave them, and what it leaves is the next entry of the history on which atomicity is stated |
| `FileIo.OpenParent` | agentnest/filesystem.py:48-63 | the loop over the components makes exactly the calls of the recursive specification, in every world |
| `FileIo.DescendOnce` | agentnest/filesystem.py:51-62 | one turn: make the directory if asked, open it without following links, close the one before; every error path closes what is open |
| `FileIo.WriteAll` | agentnest/filesystem.py:80-81 | partial writes continue where the one before ended |
| `FileIo.WriteEntry` | agentnest/filesystem.py:74-87 | create, fill, close and move the temporary file, in this order, stopping at the first error |
| `FileIo.AtomicWrite` | agentnest/filesystem.py:66-95 | the method and the specification function make the same calls and end the same way, handlers and `finally` included |
| `FileIo.ReadWhole` | agentnest/filesystem.py:117-117 | partial reads continue until there is enough or the file ends |
| `FileIo.ReadHandle` | agentnest/filesystem.py:111-120 | only a regular file within the bound is read, and checked again after reading |
| `FileIo.BoundedRead` | agentnest/filesystem.py:98-127 | the method and the specification function make the same calls and end the same way |
| `FileSafety.DescendSafe` | agentnest/filesystem.py:51-62 | under any edits between the calls, one turn of the walk ends with one descriptor of a workspace directory in place of the one before, or with none |
| `FileSafety.OpenedParentSafe` | agentnest/filesystem.py:48-63 | under every interleaving the walk touches and changes workspace inodes only, and ends with one added descriptor of a workspace directory, or none |
| `FileSafety.AtomicWriteContained` | agentnest/filesystem.py:66-95 | under every interleaving a write touches and changes workspace inodes only, closes every descriptor it opened exactly once, and makes no call that waits for ever |
| `FileSafety.RefusedPathTouchesNothing` | agentnest/filesystem.py:17-24 | a write or a read of an absolute path, of one with `..` and of one that names nothing ends in FileAccessError before any call |
| `FileSafety.ReadEntrySafe` | agentnest/filesystem.py:108-120 | after the name was opened, the descriptors are those before, except that one more is left open exactly if it denotes a directory |
| `FileSafety.BoundedReadContained` | agentnest/filesystem.py:98-127 | under every interleaving a read touches workspace inodes only, closes every descriptor of the walk, makes no call that waits for ever, even if the name is a FIFO, and returns no more than the bound |
| `FileWalk.OpenedParentQuiet` | agentnest/filesystem.py:48-63 | while the sandbox only reads, no call of the walk changes what the path shows, and the descriptor it ends with is the path's parent directory |
| `FileWalk.OpenedParentReady` | agentnest/filesystem.py:48-63 | without failures the creating walk arrives, and leaves the write possible, exactly if every directory exists or can be made and no name holds a null |
| `FileWalk.OpenedParentReach` | agentnest/filesystem.py:48-63 | without failures the reading walk arrives exactly if the parent directory is there |
| `FileWalk.OpenedParentOpensUp` | agentnest/filesystem.py:48-63 | the walk of a write that arrives leaves every directory on its way, made or found, with mode 0o777 |
| `FileAtomicity.AtomicWriteIsAtomic` | agentnest/filesystem.py:66-95 | at every moment the target shows its old content or the whole new one, whatever fails; the new one exactly after a return; after a return or FileAccessError no temporary entry is there |
| `FileAtomicity.AtomicWriteSucceedsExactlyWhenReady` | agentnest/filesystem.py:66-95 | without failures the write returns if and only if no name holds a null, every directory exists or can be made, the target is no directory and the temporary name is free |
| `FileAtomicity.TemporaryStaysExactlyForNull` | agentnest/filesystem.py:88-92 | without failures the temporary file stays, with the full content, if and only if the file's own name holds a null and the walk arrives |
| `FileReads.BoundedReadExact` | agentnest/filesystem.py:98-127 | a read changes nothing and returns only what the path shows; without failures it returns exactly if the path shows a file within the bound, and leaks a descriptor exactly if it leads to a directory |
| `FileReads.WriteThenRead` | agentnest/filesystem.py:66-127 | after a write that returned, a read returns exactly the content if the bound allows it, and does not return otherwise |
| `FileExamples.ReadingDirectoryLeaks` | agentnest/filesystem.py:108-120 | on a small workspace, reading a directory fails and leaves a descriptor open |
| `FileExamples.NullLeavesTemporary` | agentnest/filesystem.py:88-92 | on the same workspace, a null in the name lets ValueError escape and leaves the full temporary file |
| `FileExamples.OrdinaryWriteComesBack` | agentnest/filesystem.py:66-127 | on the same workspace, an ordinary write returns and its content is read back |
| `FileExamples.SwappedLinkIsNotFollowed` | agentnest/filesystem.py:14-55 | in every world in which the sandbox puts a symbolic link in the place of a name just before the call, opening it for the walk or for reading fails |
| `FileExamples.TooLargeIsNotRead` | agentnest/filesystem.py:111-120 | a file that is no regular file or too large when it is looked at is refused without a read |
| `SessionProtocol.InvNext` | agentnest/_repl_server.py:71-86 | every step of client or server keeps the invariant over files, counters, namespace and history |
| `SessionProtocol.SessionSafety` | agentnest/session.py:72-96 | with any timeouts and retries: the counters differ by at most one, every index is executed at most once and in order, no response is read half-written, and the response at index n evaluates a snippet submitted under n after those read before it |
| `SessionProtocol.SessionLeavesNothing` | agentnest/_repl_server.py:80-86 | in every run a draft exists only while it is written, a served request stays only if a retry wrote it after it was read, and every submission was answered, given up on or is being polled for |
| `SessionProtocol.OwnAnswerExactlyWhenUnread` | agentnest/session.py:77-96 | a call that returns gets the evaluation of its own snippet if and only if the server had not read a request of that index before the call |
| `SessionProtocol.FirstUseGetsOwnAnswer` | agentnest/session.py:77-96 | if the client has submitted nothing under its index before, the server has not read it, and a call that returns gets its own answer |
| `SessionProtocol.RetryCanBeStale` | agentnest/session.py:77-96 | for every evaluator and two snippets with different responses there is a run with one timeout in which the second call gets the first response |
| `SessionProtocol.SessionRefinesSequentialEvaluation` | agentnest/session.py:72-96 | in every run without timeouts the i-th call returns what evaluating the snippets one after another gives for the i-th |
| `PythonSession.ServerStepAdvances` | agentnest/_repl_server.py:72-86 | while the client polls, every server step brings the response nearer, and seven suffice |
| `PythonSession.Session.WriteRequest` | agentnest/session.py:77-78 | submitting is the protocol's step and replaces an earlier request of the same index |
| `PythonSession.Session.PollOnce` | agentnest/session.py:82-90 | a poll finds the response file or changes nothing; finding it advances the index |
| `PythonSession.Session.GiveUp` | agentnest/session.py:96-96 | a timeout leaves the index where it is |
| `PythonSession.Session.ServeReading` | agentnest/_repl_server.py:73-79 | waiting, reading the request and evaluating it are the protocol's steps |
| `PythonSession.Session.ServeWriting` | agentnest/_repl_server.py:80-86 | drafting, publishing, removing and advancing are the protocol's steps, in this order |
| `PythonSession.Session.Serve` | agentnest/_repl_server.py:72-86 | the server always has exactly one enabled next step, and takes it |
| `PythonSession.Session.ServeFor` | agentnest/_repl_server.py:72-86 | any number of server steps leave the client alone and shorten the way to the response |
| `PythonSession.Session.Call` | agentnest/session.py:72-96 | the polling loop returns the evaluation of a snippet submitted under its index, its own exactly if that index was unread; it returns for certain once the server took seven steps; a timeout changes only the count of timeouts |
| `PoolProtocol.InvNext` | agentnest/pool.py:39-75 | every step of every thread keeps conservation, slots, use counts and the account of the drain |
| `PoolProtocol.PoolConservation` | agentnest/pool.py:33-61 | in every reachable state queued, borrowed and returning slots make up the size while open and never exceed it, a put always finds room, and every live sandbox is in exactly one place |
| `PoolProtocol.UseBound` | agentnest/pool.py:55-61 | no sandbox is ever lent more than `max_uses` times |
| `PoolProtocol.ReturnExactly` | agentnest/pool.py:52-61 | an uninterrupted return queues the same sandbox with one use more if and only if the pool is open, the sandbox alive and its uses not exhausted; otherwise it destroys it, and queues a new one exactly if the pool is open |
| `PoolProtocol.DestroyedIsReplaced` | agentnest/pool.py:52-61 | a sandbox that anyone destroys while it is borrowed is not lent again; an open pool queues a new one |
| `PoolProtocol.QueueIsFifo` | agentnest/pool.py:47-75 | every step takes the head of the queue, appends one item within its bound, or leaves it alone |
| `PoolProtocol.AfterTheDrain` | agentnest/pool.py:63-75 | after the drain every queued sandbox was put by a return that had sampled the pool as open, no more are queued than such returns still owed when the drain ended, and once all is returned exactly the queued ones live |
| `PoolProtocol.CloseDestroysEverything` | agentnest/pool.py:63-75 | once all is returned every sandbox ever created is destroyed if no return was owed at the end of the drain, and only if when nobody waited either |
| `PoolProtocol.CloseWithNothingOwed` | agentnest/pool.py:53-75 | if no return that sampled the pool as open is under way when the pool is closed, then, whatever happens after, every sandbox ever created is destroyed once the drain is over and all is returned |
| `PoolClosing.OwedCanOutliveClose` | agentnest/pool.py:53-75 | whenever the pool is closed while a return that sampled it as open is under way, there is a continuation after which the drain is over, all is returned and a sandbox lives |
| `PoolClosing.CloseIsSafeExactly` | agentnest/pool.py:53-75 | in every reachable pool that can be closed: every continuation destroys every sandbox ever created once the drain is over and all is returned, if and only if no return that sampled the pool as open is under way |
| `PoolProtocol.ReturnCanOutliveClose` | agentnest/pool.py:53-61 | a concrete run after which a sandbox lives in a closed and drained pool |
| `SandboxPool.Pool.Filled` | agentnest/pool.py:33-37 | filling the queue gives the initial state |
| `SandboxPool.Pool.Create` | agentnest/pool.py:21-37 | a pool exists exactly if size and use limit are positive |
| `SandboxPool.Pool.CheckOpen` | agentnest/pool.py:43-45 | the open check is the protocol's admission step |
| `SandboxPool.Pool.Take` | agentnest/pool.py:46-51 | taking the head of the queue, or giving up on an empty one |
| `SandboxPool.Pool.Sample` | agentnest/pool.py:53-55 | the flag is sampled and the use counted before anything is decided |
| `SandboxPool.Pool.Choose` | agentnest/pool.py:56-60 | a sandbox is replaced exactly if the sample, its own state or its use count says so |
| `SandboxPool.Pool.DestroyReturned` | agentnest/pool.py:57-58 | a doomed sandbox is destroyed, and replaced only if the sample was open |
| `SandboxPool.Pool.Replace` | agentnest/pool.py:59-59 | the replacement is a sandbox that did not exist before |
| `SandboxPool.Pool.PutBack` | agentnest/pool.py:59-61 | in a reachable pool there is always room for the put |
| `SandboxPool.Pool.SetClosed` | agentnest/pool.py:66-69 | only the first close goes on to drain |
| `SandboxPool.Pool.DrainOne` | agentnest/pool.py:70-75 | one round of the drain takes and destroys the head |
| `SandboxPool.Pool.FinishDrain` | agentnest/pool.py:73-74 | an empty queue ends the drain |
| `SandboxPool.Pool.CloseAlone` | agentnest/pool.py:63-75 | without interference closing is the protocol's run that empties the queue, and a second close does nothing |
| `DockerLedger.StartKeepsLedger` | agentnest/egress.py:78-126 | the sidecar's fields hold exactly the network and the proxy that its calls returned, whatever failed; after RuntimeNotAvailableError they hold nothing |
| `DockerLedger.StartFailsExactly` | agentnest/egress.py:83-126 | while no removal raises OSError, RuntimeNotAvailableError comes exactly when the image is there and the first of network, proxy and connection to fail does so with a DockerException |
| `DockerLedger.SidecarDestroyWorks` | agentnest/egress.py:128-146 | destroying the sidecar removes exactly its proxy and network |
| `DockerLedger.TearDownReleasesHeld` | agentnest/runtime/docker.py:453-518 | `destroy` and the clean-up remove exactly what the fields held |
| `DockerLedger.BootKeepsLedger` | agentnest/runtime/docker.py:88-192 | whatever fails, what is live is what was live before without the given workspace and image, and what the fields hold: all of it after success, nothing after a handled error, exactly workspace and image after an error that passes the handlers |
| `DockerLedger.BootEscapesExactly` | agentnest/runtime/docker.py:100-192 | for every runtime, configuration and way its calls end, while no removal raises OSError: an error passes the handlers if and only if the allowlist holds address ranges, or daemon, rootless check, image, domains and proxy image are all right and the sidecar then fails with a DockerException |
| `DockerLedger.CreateLosesExactly` | agentnest/runtime/docker.py:67-86 | after `create` live is what others own, what the fields hold and what it lost: a directory that could not be opened up, or what the fields held when they were overwritten |
| `DockerLedger.ForkKeepsLedger` | agentnest/runtime/docker.py:194-220 | a child that starts holds all that was made, and an image exactly if the root is writable; a handled failure leaves nothing; an unhandled one leaves something exactly if the first directory was made |
| `DockerLedger.ForkLosesExactly` | agentnest/runtime/docker.py:194-220 | a fork leaves something that nobody owns if and only if the parent is alive, copy and image are made, and the remaining calls let an error pass the child's boot |
| `DockerLedger.ForkEscapesExactly` | agentnest/runtime/docker.py:194-220 | while no removal raises OSError, an error passes `fork` if and only if the parent is alive and the first directory cannot be made, or copy and image are made and the remaining calls let one pass the child's boot |
| `DockerRemovals.TearDownClears` | agentnest/runtime/docker.py:453-518 | for every way that removals end: a teardown goes through what the fields held in order until an exception ends it, and exactly those are gone whose removal worked when its turn came |
| `DockerRemovals.SidecarClears` | agentnest/egress.py:128-146 | the same for the sidecar, whose network is removed only once it could be reloaded |
| `DockerEscapes.BootLetsPassExactly` | agentnest/runtime/docker.py:88-192 | for every way that calls and removals end, an error passes the handlers if and only if the allowlist holds address ranges, or the guarded block fails and an OSError comes through the clean-up of what it held then, or the sidecar aborts and destroys itself without one, or with one and another comes through the clean-up |
| `DockerEscapes.ForkLetsPassExactly` | agentnest/runtime/docker.py:194-220 | the same for `fork`, with its first directory, copy and image before it |
| `DockerEscapes.VanishedDaemonPasses` | agentnest/runtime/docker.py:161-192 | a concrete run without an allowlist: start and removal raise OSError, the error passes, and container and workspace stay live behind cleared fields |
| `DockerRuntimes.EgressSidecar.Start` | agentnest/egress.py:78-126 | afterwards live is what was live and what the fields hold, and RuntimeNotAvailableError comes in exactly the stated cases, with empty fields |
| `DockerRuntimes.EgressSidecar.Destroy` | agentnest/egress.py:128-146 | the fields are cleared, and when removals work exactly proxy and network are gone |
| `DockerRuntimes.DockerRuntime.Create` | agentnest/runtime/docker.py:67-73 | a valid runtime stays valid, success means a container and a workspace, a handled error means empty fields, and everything is accounted for in exactly the stated cases |
| `DockerRuntimes.DockerRuntime.PrepareWorkspace` | agentnest/runtime/docker.py:75-86 | exactly the directory is live afterwards if its first call works, even when a later one fails and nothing is returned |
| `DockerRuntimes.DockerRuntime.Boot` | agentnest/runtime/docker.py:88-192 | everything is accounted for; a handled error leaves nothing; an error passes in exactly the stated cases and leaves workspace and image in their fields |
| `DockerRuntimes.DockerRuntime.CleanupFailedCreate` | agentnest/runtime/docker.py:498-518 | the fields are empty; when removals work exactly what they held is gone; nothing of it is left if and only if every removal works |
| `DockerRuntimes.DockerRuntime.Destroy` | agentnest/runtime/docker.py:453-481 | the fields are empty; when removals work exactly what they held is gone; nothing of it is left if and only if every removal works |
| `DockerRuntimes.DockerRuntime.Fork` | agentnest/runtime/docker.py:194-220 | the parent is only read; a child is valid and holds exactly what was made; without a child nothing is left except in exactly the stated cases |
| `DockerFleet.RunBalanced` | agentnest/runtime/docker.py:67-220 | in every state reachable by any sequence of create, fork and destroy, live resources are exactly those that one runtime holds and those nobody owns, and no two runtimes hold the same |
| `DockerFleet.CarefulRunLeavesNothing` | agentnest/runtime/docker.py:67-220 | if every operation of the run is harmless by these conditions, live is what was nobody's at the start and what the fields hold, and nothing is left once every runtime is destroyed |
| `DockerFleet.CreateIsCarefulExactly` | agentnest/runtime/docker.py:67-86 | after `create` live is exactly what was live and not held and what the fields hold if and only if it refused, or got no directory, or opened the directory up and the runtime held nothing before |
| `DockerFleet.ForkIsCarefulExactly` | agentnest/runtime/docker.py:194-220 | in every reachable fleet a fork leaves nothing without an owner unless parent, configuration and calls are those that let an error pass the child's boot |
| `DockerFleet.HarmlessExactly` | agentnest/runtime/docker.py:67-220 | which operations lose something, for every operation and every reachable fleet, by conditions on its fields, configuration and calls |
| `DockerFleet.RetryLosesWorkspace` | agentnest/egress.py:124-126 | a concrete run: the proxy fails, the error passes `_boot`, and the next `create` loses the workspace |
| `DockerFleet.CreateLosesDirectory` | agentnest/runtime/docker.py:75-86 | a concrete run: the directory is made, cannot be opened up, and nobody owns it |
| `DockerFleet.ForkLosesCopy` | agentnest/runtime/docker.py:194-220 | a concrete run: the copy is made, the child's proxy fails, the error passes, and nobody owns the copy |
| `DockerFleet.DestroyCutShort` | agentnest/runtime/docker.py:466-481 | if the container's removal raises OSError or a DockerException that is no APIError, `destroy` clears the fields and removes nothing; the clean-up of a failed create goes on after the latter |
| `DockerTeardown.TearDownLeavesNothingExactly` | agentnest/runtime/docker.py:453-518 | `destroy` and the clean-up leave nothing of what the fields held if and only if each of their removals works: one for container, workspace, proxy and image, two for the network |
| `DockerTeardown.DestroyLeavesNothingExactly` | agentnest/runtime/docker.py:453-481 | the same for `destroy`, which always clears its fields |
| `DestroyRace.ReleasedExactlyOnce` | agentnest/runtime/docker.py:453-481 | for any number of concurrent `destroy` calls in any interleaving, with any failing removals, nothing is released twice; when all are done everything the fields held was released or missed, once in all, and released exactly once if no removal failed |
| `DestroyRace.ReachableReleasedExactlyOnce` | agentnest/runtime/docker.py:453-481 | in particular for every runtime of every reachable fleet, whose fields hold different resources |
| `DestroyRace.DestroyIsOneCall` | agentnest/runtime/docker.py:453-481 | one call that runs alone releases exactly what the sequential `destroy` removes, for every way that removals end, and is cut short when it is |
| `SandboxLifecycle.NextDestroysOnce` | agentnest/sandbox.py:372-381 | every step keeps: the backend's `destroy` is called by exactly one caller once the flag is up and by none before, and the event follows it |
| `SandboxLifecycle.NextLawful` | agentnest/sandbox.py:108-136 | every step keeps: what reaches the backend was approved, in time and well formed, once for each approval |
| `SandboxLifecycle.NextReleasesOnce` | agentnest/runtime/docker.py:453-464 | every step keeps: what the backend held at first is in its fields still, or was taken from them for removal, in order and once; the fields are clear exactly once it destroyed itself or the sandbox called its `destroy` |
| `SandboxLifecycle.NothingStartsLate` | agentnest/sandbox.py:403-406 | a call that begins after the sandbox was destroyed is neither put to the hook nor reaches the backend, whatever others do |
| `SandboxLifecycle.TimeRunsOut` | agentnest/sandbox.py:408-415 | time that passes between two steps counts: a command without a limit of its own gets exactly what is left then, and when nothing is left the sandbox is destroyed |
| `SandboxLifecycle.LifetimeTheorem` | agentnest/sandbox.py:372-415 | for any callers in any interleaving: one deadline, at most one `destroy` of the backend by the sandbox and at most one event; no resource of the backend is taken for removal twice; when all are done the sandbox called the backend's `destroy` exactly if the flag is up, and each resource was taken once if the flag is up or the backend destroyed itself, and never otherwise; every backend call approved by the hook's answer on its own action and path and, for commands, run in a directory of the workspace for as long as asked for or up to the deadline, whichever ends first |
| `SandboxObject.Sandbox.constructor` | agentnest/sandbox.py:96-105 | a new or adopted sandbox is alive with its deadline one lifetime away |
| `SandboxObject.Sandbox.Flip` | agentnest/sandbox.py:375-379 | the first caller under the lock raises the flag and goes on, every other returns |
| `SandboxObject.Sandbox.Destroy` | agentnest/sandbox.py:372-381 | flag, backend, event, in this order and once; the flag stays up even if the backend raises, and then there is no event |
| `SandboxObject.Sandbox.LimitTime` | agentnest/sandbox.py:408-415 | no time is left exactly from the deadline on, and then the sandbox is destroyed; a limit is positive, is the one asked for or ends exactly at the deadline, and is never longer than either |
| `SandboxObject.Sandbox.Admit` | agentnest/sandbox.py:118-119 | an operation goes on exactly if the sandbox is alive and the hook approves; the hook is asked only then, and its answer is recorded |
| `SandboxObject.Sandbox.DestroyBackend` | agentnest/sandbox.py:380-381 | the backend is empty afterwards, and the event follows exactly if its `destroy` returned |
| `SandboxObject.Sandbox.RunCommand` | agentnest/runtime/docker.py:293-341 | an empty backend refuses the command, and one whose command does not end in time is empty afterwards while the sandbox's flag stays as it was |
| `SandboxObject.Sandbox.CallInTime` | agentnest/sandbox.py:122-128 | the backend is called exactly if time is left and the requested limit is positive |
| `SandboxObject.Sandbox.CallBackend` | agentnest/sandbox.py:122-128 | the working directory is judged before the time limit |
| `SandboxObject.Sandbox.Exec` | agentnest/sandbox.py:108-136 | a command reaches the backend if and only if the sandbox is alive and in time, the hook approves, and directory and limit are valid |
| `SandboxObject.Sandbox.OperateAsked` | agentnest/sandbox.py:239-241 | the operation happens exactly if the hook says yes, on the path it was asked about |
| `SandboxObject.Sandbox.Operate` | agentnest/sandbox.py:234-254 | a file operation reaches the backend if and only if the sandbox is alive, the path valid and the hook approves; the hook is asked after the path was judged, about the normalised path |
| `SandboxObject.CallerDestroys` | agentnest/sandbox.py:372-381 | a caller without a request, left alone, raises the flag, takes everything the backend held and emits the event |
| `SandboxObject.SelfDestructionGoesUnnoticed` | agentnest/runtime/docker.py:329-341 | a run in which the backend destroys itself, the flag stays down, and the next command is admitted and approved before the backend refuses it |
| `Reaper.Docker.Sweep` | agentnest/reaper.py:71-75 | the loop removes and reports those that go, and keeps the rest in order |
| `Reaper.Docker.Prune` | agentnest/reaper.py:49-88 | both loops, over containers and networks |
| `Reaper.PruneExact` | agentnest/reaper.py:71-86 | a pass removes and reports exactly the managed resources that are due (or all, if forced) and can be removed; everything else stays |
| `Reaper.GoesExactly` | agentnest/reaper.py:39-86 | an unmanaged resource or one that cannot be removed never goes; any other always when forced, and otherwise exactly if its label reads as a number that is at least the grace ago |
| `Reaper.DueFrom` | agentnest/runtime/docker.py:103-106 | a stamped sandbox is due from the rounded end of its lifetime plus the grace on |
| `Reaper.StampedGoesFrom` | agentnest/reaper.py:39-86 | a stamped resource that can be removed goes exactly if the pass is forced or not before the rounded deadline plus grace |
| `Reaper.RoundsToNearestEven` | agentnest/runtime/docker.py:106-106 | the stamp is the nearest whole second, and of two equally near ones the even one |
| `Reaper.RemovedTooEarly` | agentnest/reaper.py:39-46 | for every set-up time above the grace less half a second, a sandbox that a pass removes before its deadline |
| `Reaper.NeverEarlyExactly` | agentnest/reaper.py:39-46 | for all stamps, positive lifetimes and times of a pass, none comes before the sandbox's deadline if and only if setting it up took at most the grace less half a second |
| `Redaction.Redact` | agentnest/secrets.py:31-42 | the loop over the sorted values computes the specified replacement |
| `Redaction.SecretNeverSurvives` | agentnest/secrets.py:31-42 | a secret that cannot touch the marker never occurs in the output, whatever else is secret |
| `Redaction.RedactionTheorem` | agentnest/secrets.py:31-42 | if no secret can touch the marker, none survives and redacting again changes nothing |
| `Redaction.BracketFreeIsClear` | agentnest/secrets.py:41-41 | a value without brackets that is no piece of `REDACTED` cannot touch the marker |
| `Redaction.LongestFirstIsStable` | agentnest/secrets.py:35-39 | secrets of the same length are replaced in the order of the mapping |
| `Redaction.WholeSecretBecomesMarker` | agentnest/secrets.py:35-39 | a text that is exactly a secret becomes exactly the marker, which needs the order by length |
| `Redaction.RemovedExactlyWhenClear` | agentnest/secrets.py:31-42 | a secret is removed from every text in every company of other secrets if and only if it cannot touch the marker |
| `Redaction.Survivor` | agentnest/secrets.py:40-41 | for every secret that can touch the marker, a text and an environment in which it survives |
| `SandboxRedaction.GivenAreTheSecrets` | agentnest/sandbox.py:447-450 | what a command gives to remember is exactly its variables that are secrets |
| `SandboxRedaction.Sandbox.RememberSecrets` | agentnest/sandbox.py:447-450 | the loop over a command's variables remembers its secrets, each under its key and the number of those there |
| `SandboxRedaction.Sandbox.RedactResult` | agentnest/sandbox.py:437-445 | both texts are redacted with the sandbox's variables, overridden by the command's |
| `SandboxRedaction.HidesExactlyWhatIsCovered` | agentnest/secrets.py:31-42 | while every secret is clear of the marker, a value is removed from every text if and only if some secret is a part of it |
| `SandboxRedaction.ResultHidesExactly` | agentnest/sandbox.py:437-445 | a result hides exactly the values that hold a secret of the command, or one of the sandbox whose key the command does not use; secrets of earlier commands are not among them |
| `SandboxRedaction.RemembersExactly` | agentnest/sandbox.py:447-450 | after any number of secrets the sandbox knows its own and all of those, as often as each was there, if and only if none took the place of another |
| `SandboxRedaction.OverwritesNothingExactly` | agentnest/sandbox.py:447-450 | remembering only appends if and only if no variable that was there at first has one of the names it uses, and then no secret is lost |
| `SandboxRedaction.LogsHideExactly` | agentnest/sandbox.py:367-370 | after any commands that lost none, with all secrets clear of the marker, the logs hide exactly the values that hold a secret of the sandbox or of any command |
| `SandboxRedaction.ReusedKeyShows` | agentnest/sandbox.py:440-440 | a concrete command whose result shows a secret of the sandbox |
| `SandboxRedaction.OverwrittenSecretShows` | agentnest/sandbox.py:450-450 | a concrete sandbox whose logs show its own secret after one command |
| `ShellCommand.FurtherMeaningsAreRefused` | agentnest/runtime/kubernetes.py:94-100 | the reading shell takes nothing as text that has a further meaning: no special character outside quotes, no expansion in double quotes, no quote without its end |
| `ShellCommand.ScanQuoted` | agentnest/runtime/kubernetes.py:307-308 | a shell reads a quoted value back as the value, at the start of a word or inside one |
| `ShellCommand.RenderedScriptReadsBack` | agentnest/runtime/kubernetes.py:94-100 | a shell reads the rendered script as `cd`, the directory, `&&`, `env`, the assignments and the arguments, whatever they hold |
| `ShellCommand.PodCommandReadsBack` | agentnest/runtime/kubernetes.py:94-100 | the pod gets the command itself, or a script that reads back as the intended words for every valid variable name |
| `ShellCommand.EnvRunsTheCommand` | agentnest/runtime/kubernetes.py:100-100 | `env` runs exactly the command with exactly the environment if and only if its first word holds no `=` and is not taken for an option |
| `ShellCommand.EnvMisreads` | agentnest/runtime/kubernetes.py:100-100 | a command that `env` takes for a variable, and one that it takes for an option |
| `Utf8.RoundTrip` | agentnest/runtime/kubernetes.py:149-161 | decoding encoded text gives the text |
| `Utf8.DecodesOnlyEncodings` | agentnest/runtime/kubernetes.py:158-161 | whatever the bytes are, a decoded character other than U+FFFD was encoded there; no overlong form is accepted |
| `Utf8.TruncatedDecode` | agentnest/runtime/kubernetes.py:154-160 | cutting encoded text anywhere and decoding gives the characters that fit whole, and one U+FFFD exactly if the cut falls inside a character |
| `Utf8.TruncatedSize` | agentnest/runtime/kubernetes.py:154-160 | encoded again, cut text is at most two bytes longer than the cut |
| `OutputBudget.BoundedOutputsTheorem` | agentnest/runtime/kubernetes.py:149-161 | each channel is a character prefix, both together hold at most one U+FFFD, the captured text is at most two bytes over the cap, and the notice appears exactly if something was dropped |
| `OutputBudget.Deliver` | agentnest/runtime/docker.py:347-352 | one payload is charged to the budget and delivered as far as it fits |
| `OutputBudget.DeliverMessage` | agentnest/runtime/docker.py:346-358 | stdout before stderr, under one budget |
| `OutputBudget.Consume` | agentnest/runtime/docker.py:325-358 | the loop delivers exactly the captured pieces, logs their text, and notes truncation exactly if the total exceeds the cap |
| `OutputBudget.StoppedExactly` | agentnest/runtime/docker.py:325-345 | a stream ends with the reader's failure after all messages before it, with the host deadline after all that came in time, and properly if and only if every message is output and the deadline does not fall among them |
| `OutputBudget.IterExec` | agentnest/runtime/docker.py:325-374 | chunks, log and ending of one command for every way it can end |
| `OutputBudget.CapturedIsPrefix` | agentnest/runtime/docker.py:384-393 | the captured bytes of both streams are exactly the first bytes of the interleaved stream, up to the cap |
| `OutputBudget.StreamingEqualsBatch` | agentnest/runtime/docker.py:347-362 | when all stdout payloads precede all stderr payloads and end on character boundaries, the joined chunks are what the batch runtime returns, suffix included |
| `StreamedExec.Gather` | agentnest/runtime/docker.py:235-254 | the loop joins the texts of each stream and takes the exit code of the status |
| `StreamedExec.Exec` | agentnest/runtime/docker.py:222-254 | for every list of messages and every ending, the result of `exec` is the captured text of each stream with the notice, or the exception that ended the stream; a result is returned if and only if every message is output, the deadline does not fall among them, and the process was not killed for its time |
| `StreamedExec.MessagesEqualBatch` | agentnest/runtime/docker.py:235-254 | when nothing is written to stdout after something was written to stderr and messages end on character boundaries, `exec` returns the texts of the batch runtime, suffix included |
| `Base64Read.Base64RoundTrip` | agentnest/runtime/kubernetes.py:178-185 | decoding with validation inverts encoding |
| `Base64Read.DecodesExactly` | agentnest/runtime/kubernetes.py:185-185 | a text decodes if and only if it is whole groups of the alphabet, of which the last may end in one or two `=`, each of which is one byte less |
| `Base64Read.WhiteSpaceIsIgnored` | agentnest/runtime/kubernetes.py:185-185 | ASCII white space around the printed text changes nothing |
| `Base64Read.ReadFileTheorem` | agentnest/runtime/kubernetes.py:176-185 | for every file and every cap: the whole file, a decoding error, or, for a cap divisible by four, silently a prefix |
| `Base64Read.SilentPrefix` | agentnest/runtime/kubernetes.py:176-185 | four bytes under a cap of four characters come back as three, without an error |
| `Base64Read.ReadIsFaithfulExactlyWhenItFits` | agentnest/runtime/kubernetes.py:176-185 | the read returns the file if and only if its base64 text fits under the cap |
| `Allowlist.NormalizePatterns` | agentnest/_egress_proxy.py:31-39 | the loop keeps exactly the non-empty normalised items, in order |
| `Allowlist.MatchIsLabelSuffix` | agentnest/_egress_proxy.py:54-59 | matching by text is matching by labels: never part of a label, always any subdomain |
| `Allowlist.HostAllowedIsLabelMatch` | agentnest/_egress_proxy.py:42-59 | for all patterns, a host is allowed exactly if the labels of some entry that is not empty end the labels of the normalised host |
| `Allowlist.AllowlistEndToEnd` | agentnest/egress.py:102-102 | canonical domains joined with commas reach the proxy unchanged, and decide by labels |
| `Allowlist.SpellingIsIgnored` | agentnest/_egress_proxy.py:31-59 | with white space around them, in any case and with dots at their end, entries and host are decided by the labels of the names they stand for |
| `Allowlist.CaseIsIgnored` | agentnest/_egress_proxy.py:48-51 | hosts with the same lower-cased text are decided alike, whatever the patterns are |

## Left out

- Docker, Kubernetes and HTTP client calls beyond success or failure; container options, pod manifests, image pulls.
- The proxy's sockets, the HTTP and MCP servers, the command line, framework integrations and profiles.
- Snapshots, artifacts, upload and download, event contents, model and policy validators, the registry.
- Redaction of streamed chunks one by one, and decoding of payloads that split a character: neither equals the whole-text result.
- Environment variables that are options or malformed names for `env`; expansions of the shell, because the rendered script holds none outside quotes.
- The polling loop of the Kubernetes `exec` around its output, and `start` of a Python session.
- Lone surrogates in texts: a character is a Unicode scalar value.
- Inode kinds other than directory, regular file, symbolic link and FIFO; a FIFO that somebody writes to while it is read; permission checks.
- `FileSafety.AtomicWriteContained`: names with slashes or `..` reach a system call only through validation, so the model lets them lead anywhere on the host and proves that none is used.
- `FileAtomicity.AtomicWriteIsAtomic`: atomicity is stated while the sandbox only reads, because a sandbox that writes can replace the target at any time.
- `DockerLedger.StartKeepsLedger`: running the proxy is one call that makes a container or none; the client library makes it and then starts it, so a proxy that does not start would be left without an owner. The disconnection of leftover containers before a network's removal is not modelled.
- `DockerLedger.BootKeepsLedger`: the daemon client is always there once a container or image is; the daemon's answer on rootless mode is part of the configuration; the probe for `timeout` swallows its failures and is not a step.
- `DockerRuntimes.DockerRuntime.Create`: the lock is not a step; one runtime's `create` runs under it from start to end.
- `SandboxLifecycle.LifetimeTheorem`: the limit is counted from when the clock was read; the backend may start the command later. Cancelling the timer is not modelled, since a late timer finds the flag up. A file operation on an empty backend raises there like a command and is not told apart from one that works. `exec` with an empty command and streaming on a backend without it raise before the backend is reached and are not steps.
- `SandboxRedaction.Sandbox.RememberSecrets`: commands remember one after another, although the loop runs without a lock.
- `DockerLedger.ForkLosesExactly`: stated while removals work, like every result on what stays live after `create` and `fork`; which errors pass is stated without that.
- `Reaper.Docker.Prune`: a removal that raises DockerException is a property of the resource; an OSError ends a pass and is not modelled. `float` is a parameter that reads whole numbers back.
- `Allowlist.AllowlistEndToEnd`: white space and lower-casing are parameters, so no property of Unicode is used.
- `OutputBudget.IterExec`: the host deadline falls before a given message, or never.
- `PythonSession.Session.Call`: time is the number of polls, with any number of server steps before each.
