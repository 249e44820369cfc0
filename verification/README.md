# nerdctl in Dafny

A model of the parts of nerdctl (and of the two services shipped beside it) that hold algorithms and
state machines of their own, with proofs of what they are relied on for. Files and modules go
together one to one.

- **Paths in containers** (`Strings`, `Paths`, `MountOverlay`, `PathWalk`, `PathResolver`,
  `ContainerPath`): `nerdctl cp` finds a container path on the host. `PathWalk.Walk` defines pathname
  resolution over lists of components, following the resolution rules of section 4.13 of the Base
  Definitions of POSIX.1-2017; the string loop of `resolvePath` is proved to refine it over every
  filesystem and mount table. The filesystem is a map from host paths to nodes, cycles included.
- **Names and lifecycle** (`Identifiers`, `FileStore`, `NameStore`, `OciHook`): a locked hierarchical
  store, exclusive names on top of it, and the two hooks that drive both.
- **Ports** (`PortAllocator`, `PortFlag`): first fit over a strided grid, and the `-p` flag.
- **Commit service** (`TaskPool`, `Callback`): the bounded queue with its workers, and callback
  delivery with retries.
- **Readers, printers and mergers** (`CriLog`, `ImageUrl`, `ResolvConf`, `EnvMerge`, `Health`,
  `MountFlags`).

Loops and objects of the source are methods and classes here, each proved against a function or a
predicate; what the source promises is then proved about those. Where a promise does not hold in
general, the exact condition is proved instead, for all inputs.

Where the code differs from what its comments, its documentation or its names suggest, the model follows
the code:

- `cp`: for a missing path that is itself a mount point directly below the root, the parent is the
  empty string, which resolves to `.`, and the mount is looked up with a relative path. The path is
  then placed in the root filesystem instead of the mount (`ContainerPath.OverlookedMount`).
- `filestore`: a key below a file is a system failure for `Get`, `Exists` and `Delete`, not "not found".
- `ocihook`: the comment on double release holds for containers without CNI only; with CNI a second
  `postStop` always fails on the missing hosts entry. A creation that fails before it reaches the network leaves
  an earlier allocation in place, and the `postStop` after it does not remove it.
- `portAllocate`: only a block's first port is kept below 60999; its last one can exceed even 65535.
- Commit service: `CANCELLED` is final only for a job that the full queue had dropped. The pool's map of cancel functions is never filled, so a
  waiting job that is cancelled runs all the same. A job that finds the queue full is reported as
  submitted and never runs. `RetryCallback` dereferences a callback status that may not exist.
- Image URLs: a tag of one to five digits is taken for a port and lost.
- Environment: a bare key does not remove what an earlier override of the same list added, nor an earlier
  duplicate among the defaults.
- `--mount`: `type=volume` after `type=bind` has no effect; a bind source that is a valid volume name is
  taken for the volume and refused; an anonymous volume with any option is refused.
- Truncated outputs carry the mark `... [truncated]`, so they are longer than the limit they were cut to.

## Model

| member | source | states |
|---|---|---|
| `PathResolver.ResolvePath` | pkg/containerutil/cp_resolve_linux.go:309-444 | for every absolute path and every filesystem, cyclic links included, the loop over the string ends and returns exactly what resolving the list of components defines, errors and the 255-link limit included |
| `PathResolver.ResolvedIsFinal` | pkg/containerutil/cp_resolve_linux.go:307-444 | a resolved path is clean and absolute, has no `.`, `..` or link in it, all its proper prefixes are directories, and resolving it again returns it |
| `PathResolver.TrailingSeparator` | pkg/containerutil/cp_resolve_linux.go:320-443 | a trailing separator asks for a directory: a directory resolves, a file is refused |
| `PathResolver.MissingAndBelowFile` | pkg/containerutil/cp_resolve_linux.go:370-408 | which error a missing name and a name below a file give; a file itself resolves |
| `PathResolver.ViewOfShows` | pkg/containerutil/cp_resolve_linux.go:252-273 | every filesystem and mount table has a view such as the other results ask for |
| `PathWalk.WalkSettles` | pkg/containerutil/cp_resolve_linux.go:335-441 | whatever a walk reaches exists, is free of links and dots, and lies below directories only |
| `PathWalk.WalkAgain` | pkg/containerutil/cp_resolve_linux.go:335-443 | walking a fully resolved path follows no link and ends on that path |
| `PathWalk.BoundIsExact` | pkg/containerutil/cp_resolve_linux.go:393-396 | the limit refuses exactly the walks that follow more links than it allows and does not change the others |
| `PathResolver.AtMost255Links` | pkg/containerutil/cp_resolve_linux.go:307-396 | a resolution that would end with more links is answered exactly when it follows at most 255, and otherwise refused |
| `PathWalk.SelfLink` | pkg/containerutil/cp_resolve_linux.go:393-396 | a link to itself, in any directory and with anything after it, uses up any limit and is refused |
| `PathWalk.WalkComposes` | pkg/containerutil/cp_resolve_linux.go:320-441 | walking two lists of components one after the other is walking their concatenation: errors in the first are final, a file in between is not a directory |
| `PathResolver.BackedUpIsParent` | pkg/containerutil/cp_resolve_linux.go:342-367 | backing up over `..`, keeping those that cannot be discarded, comes to the parent directory, with the parent of the root being the root |
| `PathResolver.FollowLink` | pkg/containerutil/cp_resolve_linux.go:409-441 | the path, the position and the prefix that substituting a link leaves, for an absolute and for a relative target |
| `PathResolver.KeepsAbsolute` | pkg/containerutil/cp_resolve_linux.go:409-425 | after an absolute link the loop's strings still stand for the walk, with one link used |
| `PathResolver.KeepsRelative` | pkg/containerutil/cp_resolve_linux.go:409-441 | the same after a relative link |
| `PathResolver.EnterComponent` | pkg/containerutil/cp_resolve_linux.go:370-441 | an ordinary component is a directory to enter, a file, a link to follow, or an error, as the walk has it, and uses exactly one link or none |
| `MountOverlay.PathOnHost` | pkg/containerutil/cp_resolve_linux.go:252-273 | the scan by string length finds the location that the deepest covering mount gives, on every absolute path |
| `MountOverlay.GetMount` | pkg/containerutil/cp_resolve_linux.go:275-305 | on a clean absolute path the scan returns the same mount, its read-only option and the path below it; on a relative path the root filesystem |
| `MountOverlay.LocateIsDeepest` | pkg/containerutil/cp_resolve_linux.go:262-270 | no mount that covers a path by whole components is deeper than the one chosen |
| `MountOverlay.LocateIsHeld` | pkg/containerutil/cp_resolve_linux.go:284-302 | source and read-only option are those of one covering mount, the first of its destination; without one they are the root filesystem's |
| `MountOverlay.LocateParts` | pkg/containerutil/cp_resolve_linux.go:263-302 | mount point and relative part recompose the path |
| `MountOverlay.HostPathBelowSource` | pkg/containerutil/cp_resolve_linux.go:272-272 | a host location is the chosen source's components followed by ordinary ones, so nothing climbs out of the mount |
| `MountOverlay.ScanStep` | pkg/containerutil/cp_resolve_linux.go:262-270 | comparing string lengths keeps the best mount so far equal to the deepest by components |
| `ContainerPath.GetPathSpecFromContainer` | pkg/containerutil/cp_resolve_linux.go:136-219 | an existing path is described where resolution finds it, with whether it is a directory, its mount's read-only option and its place on the host; a missing one where it would be created; the original text, its trailing separator and dot; and which error gives which refusal. The one exception is a missing top-level mount point, described in the root filesystem |
| `ContainerPath.StripTail` | pkg/containerutil/cp_resolve_linux.go:173-178 | the stripping loop ends and leaves the path's components without its trailing dots |
| `ContainerPath.BaseSplits` | pkg/containerutil/cp_resolve_linux.go:180-181 | parent and base recompose the stripped path and its components |
| `ContainerPath.BaseIsDot` | pkg/containerutil/cp_resolve_linux.go:145-147 | a path counts as ending in a dot exactly when its last component is one, or it is empty |
| `ContainerPath.MissingHasBase` | pkg/containerutil/cp_resolve_linux.go:171-196 | when a missing path's parent resolves its base is a real name, not `..`, so joining it to the parent is right |
| `ContainerPath.TopLevelBelongsToMount` | pkg/containerutil/cp_resolve_linux.go:180-205 | for a missing top-level mount point the right answer is the mount's source and option, which the code does not give |
| `ContainerPath.ExceptionAgreesExactlyWhen` | pkg/containerutil/cp_resolve_linux.go:180-205 | the code's answer in that case is the right one exactly when the mount is as read-only as the root filesystem and its source is the very place in the root filesystem |
| `ContainerPath.OverlookedMount` | pkg/containerutil/cp_resolve_linux.go:180-205 | an instance: a read-only mount `/d` is answered with a writable place in the root filesystem |
| `FileStore.Store.Get` | pkg/store/filestore.go:117-147 | returns the bytes exactly of the files there are, and which error in each other case |
| `FileStore.Store.Exists` | pkg/store/filestore.go:149-166 | whether a key is there, and the two errors |
| `FileStore.Store.Set` | pkg/store/filestore.go:168-201 | written exactly when the disk takes it, no file stands above the key and no group at it; each error, the whole new tree; a failure changes no file and leaves at most empty groups |
| `FileStore.Store.List` | pkg/store/filestore.go:203-241 | the immediate children, each once, or which error |
| `FileStore.Store.Delete` | pkg/store/filestore.go:243-268 | removes the subtree and nothing else, or fails changing nothing |
| `FileStore.Store.GroupEnsure` | pkg/store/filestore.go:278-294 | makes the group and those above it exactly when no file stands at the key or above it |
| `FileStore.Store.GroupSize` | pkg/store/filestore.go:296-337 | the total of the files in the subtree, in whatever order they are visited |
| `FileStore.Store.Release` | pkg/store/filestore.go:87-103 | unlocks; unlocking twice is the caller's fault and reported |
| `FileStore.WriteAffectsOneKey` | pkg/store/filestore.go:168-201 | a write changes that key's file and no other, adds only the groups above it, and keeps the tree well formed |
| `FileStore.BlockedIff` | pkg/store/filestore.go:168-201 | a write or a new group is refused by the tree exactly when a file stands at the key or above it: groups that are not there yet are made |
| `FileStore.StatMeans` | pkg/store/filestore.go:117-166 | a key is there, or below a file, or missing, exactly as the stored files and groups have it |
| `FileStore.PrefixIsGroup` | pkg/store/filestore.go:168-201 | in a well-formed tree every proper prefix of a stored key is a group, so no file's key is a prefix of another's |
| `FileStore.DeleteAffectsSubtree` | pkg/store/filestore.go:243-268 | a deletion removes exactly the keys that extend the given one |
| `FileStore.SizeIsSumOfChildren` | pkg/store/filestore.go:296-337 | a group is as large as its immediate children together |
| `FileStore.SizeAfterWrite` | pkg/store/filestore.go:296-337 | a write changes the size of every group above it by the growth of the file |
| `FileStore.SizeAfterDelete` | pkg/store/filestore.go:296-337 | a deletion takes exactly the subtree's size off every group above it |
| `FileStore.ValidateAll` | pkg/store/filestore.go:340-352 | a key is accepted exactly when it is not empty and each component is |
| `NameStore.Names.Acquire` | pkg/namestore/namestore.go:74-108 | succeeds exactly when the name is storable and free, owned by an empty ID or by the caller; otherwise changes nothing |
| `NameStore.Names.Release` | pkg/namestore/namestore.go:110-135 | succeeds exactly for the owner and then frees the name; otherwise changes nothing |
| `NameStore.Names.Rename` | pkg/namestore/namestore.go:137-180 | succeeds exactly for the owner of the old name and a new name that does not exist; killed between its two writes it leaves both names with their owner |
| `NameStore.OwnerKeeps` | pkg/namestore/namestore.go:74-180 | over every run by any containers a non-empty owner keeps its name until it gives it up itself |
| `NameStore.Exclusive` | pkg/namestore/namestore.go:74-180 | between two containers coming by one name the first has given it up |
| `NameStore.RenameTradesOne` | pkg/namestore/namestore.go:137-180 | a rename trades one name for one other and changes nobody else's |
| `NameStore.CutRenameIsSafe` | pkg/namestore/namestore.go:137-180 | after a cut rename nobody else can take either name, and releasing the old one completes it |
| `Identifiers.WhatNamesAre` | pkg/identifiers/validate.go:27-46 | which texts are names and which are not |
| `OciHook.Hooks.OnCreateRuntime` | pkg/ocihook/ocihook.go:527-560 | names, hosts entries, allocations and the recorded error after the hook, whatever fails in it |
| `OciHook.Hooks.OnPostStop` | pkg/ocihook/ocihook.go:562-663 | the same for the other hook, with its early exits |
| `OciHook.Hooks.ApplyNetworkSettings` | pkg/ocihook/ocihook.go:423-525 | the allocation after bringing the network up, including the removals before and after |
| `OciHook.ErrorIsLastCreateFailed` | pkg/ocihook/ocihook.go:527-560 | over every run the recorded error says that the container's last event was a failed creation |
| `OciHook.StopAfterFailureKeepsAll` | pkg/ocihook/ocihook.go:562-580 | a `postStop` right after a failed creation changes nothing but that record |
| `OciHook.StopOtherwiseFrees` | pkg/ocihook/ocihook.go:580-663 | any other `postStop` succeeds exactly under the stated conditions and then frees name, hosts entry and allocation |
| `OciHook.CreatesExactlyWhen` | pkg/ocihook/ocihook.go:423-560 | a creation succeeds exactly when the container has no CNI or each step towards its network works; it then leaves its hosts entry and its allocation |
| `OciHook.HostsAfterCreateOk` | pkg/ocihook/ocihook.go:503-525 | over every run, after a successful creation as its last event a container with CNI has its hosts entry |
| `OciHook.StopAfterCreateOk` | pkg/ocihook/ocihook.go:562-663 | over every run from a system without allocations, a `postStop` whose foreign calls work succeeds after a successful creation and frees name, hosts entry and allocation, when the name is storable and not another's |
| `OciHook.CreatedThenStopped` | pkg/ocihook/ocihook.go:527-663 | the life of a container: created with success, then anything other containers do, then stopped with success, everything free again |
| `OciHook.AllocationIsLastCreateOk` | pkg/ocihook/ocihook.go:423-525 | with working removals and preparations an allocation is held exactly while the last event is a successful creation |
| `OciHook.AllocationIsLastReaching` | pkg/ocihook/ocihook.go:423-663 | in general the allocation follows the last event that got as far as the network |
| `OciHook.FailedCreateLeaves` | pkg/ocihook/ocihook.go:470-525 | what a creation that fails on the network leaves allocated unless it is cleaned up |
| `OciHook.UnpreparedKeepsAllocation` | pkg/ocihook/ocihook.go:423-580 | a creation failing before the network, and the `postStop` it disarms, leave an earlier allocation behind |
| `OciHook.NamesAreSafe` | pkg/ocihook/ocihook.go:527-663 | no event of other containers and no creation takes a name from its owner |
| `OciHook.FailedCreateKeepsName` | pkg/ocihook/ocihook.go:527-580 | a name that is the container's, or becomes it in the hook, survives a failed creation and the `postStop` after it |
| `OciHook.SecondStop` | pkg/ocihook/ocihook.go:600-663 | a second `postStop`, any time after one that freed the container and with no other event of its own between, always fails for a container with CNI and otherwise succeeds unless somebody else has the name by now |
| `PortAllocator.Allocator.PortAllocate` | pkg/portutil/port_allocate_linux.go:47-72 | returns the block the first-fit search defines and moves the cursor past it; on failure the cursor stays |
| `PortAllocator.FirstFitIsFirst` | pkg/portutil/port_allocate_linux.go:57-71 | the block found is the first free one on the grid below the end; nothing is found only if all are taken |
| `PortAllocator.TooManyMeans` | pkg/portutil/port_allocate_linux.go:53-56 | at most the ports left from the cursor to 60999 can be asked for at once |
| `PortAllocator.FirstBlock` | pkg/portutil/port_allocate_linux.go:30-72 | a fresh process gives out the block at 49153 when nothing there is in use, and never more than 11847 ports at once |
| `PortAllocator.BlocksIncrease` | pkg/portutil/port_allocate_linux.go:47-72 | the blocks of one process never overlap and only go up |
| `PortAllocator.LastPortBound` | pkg/portutil/port_allocate_linux.go:57-66 | only a block's start is below the end; its last port is at most the end plus its size minus two |
| `PortAllocator.BlocksFitExactlyWhen` | pkg/portutil/port_allocate_linux.go:53-66 | every block ends within the range, whatever is in use, exactly when the size divides the gap or the gap plus one |
| `PortAllocator.BlocksWithinExactlyWhen` | pkg/portutil/port_allocate_linux.go:53-66 | every block ends within any given limit, whatever is in use, exactly when the block at the last grid point does or no call can succeed |
| `PortAllocator.PortsExistExactlyWhen` | pkg/portutil/port_allocate_linux.go:53-66 | the same for 65535: when a call can and when it cannot be answered with ports that do not exist |
| `PortAllocator.PortsBeyondTheLast` | pkg/portutil/port_allocate_linux.go:53-66 | an instance of a request that is answered with ports above 65535 |
| `PortAllocator.GetUsedPorts` | pkg/portutil/port_allocate_linux.go:74-133 | a port is in use exactly when a matching connection that does not linger or a NAT rule has it |
| `PortFlag.ParseFlagP` | pkg/portutil/portutil.go:54-141 | an error, or the whole container range in order on consecutive host ports; and which block, if any, the allocator has given away, also when the address turns out invalid |
| `PortFlag.DecidedPortsAreFree` | pkg/portutil/portutil.go:84-117 | none of the host ports mapped is in use and the protocol and address are valid |
| `PortFlag.ReadsBack` | pkg/portutil/portutil.go:36-141 | parsing undoes printing `ip:host:container/proto`, with brackets around an IPv6 address |
| `PortFlag.DefaultIsTcp` | pkg/portutil/portutil.go:54-68 | a text without a protocol is decided as the same text with `/tcp` |
| `PortFlag.BareReadsBack` | pkg/portutil/portutil.go:54-141 | a mapping printed without a protocol is read back as one for TCP |
| `PortFlag.NamedHostPorts` | pkg/portutil/portutil.go:100-120 | named host ports: unreadable, in use, ranges of different length, or the first of them |
| `PortFlag.UnnamedHostPorts` | pkg/portutil/portutil.go:89-99 | no host ports: an allocated block, refused without root privileges |
| `PortFlag.ReservedParts` | pkg/portutil/portutil.go:89-99 | with host ports named no block is taken; without them it is the one allocated, whatever the address |
| `PortFlag.AskedParts` | pkg/portutil/portutil.go:54-88 | what a text without a protocol asks for, part by part, and when it is refused |
| `PortFlag.MappingIsOneToOne` | pkg/portutil/portutil.go:122-141 | order is kept, ports on both sides are distinct and equally far apart, from the first to the last, with one protocol and address |
| `PortFlag.SplitPartsPrinted` | pkg/portutil/portutil.go:36-50 | address, host and container parts are separated again, for IPv4, IPv6 and no address |
| `PortFlag.SplitHostPortExactly` | pkg/portutil/portutil.go:44-47 | an address with a port is split exactly when it is plain or in brackets |
| `PortFlag.SplitPartsOtherwise` | pkg/portutil/portutil.go:36-50 | anything else is host ports without an address, or container ports alone |
| `PortFlag.RefusedProtocols` | pkg/portutil/portutil.go:54-70 | more than one slash and an unknown protocol are refused |
| `PortFlag.FirstUsedIsLeast` | pkg/portutil/portutil.go:100-105 | the port reported as allocated is the least one in use in the range |
| `TaskPool.StepInv` | internal/service/nydusify_service.go:586-691 | every atomic step keeps the invariant of bounds, places and statuses |
| `TaskPool.ExactlyOnePlace` | internal/service/nydusify_service.go:586-691 | in every reachable state each stored task is queued, dropped, in a worker's hands or finished, and in one of these only |
| `TaskPool.BoundedInOrderOnce` | internal/service/nydusify_service.go:565-593 | at most a hundred tasks wait and five are in hand; each is taken at most once and in the order accepted; a pool exists once a task does |
| `TaskPool.OutcomeIsFinal` | internal/service/nydusify_service.go:148-691 | no step changes success or failure |
| `TaskPool.DroppedForEver` | internal/service/nydusify_service.go:586-593 | a task dropped on a full queue is never executed |
| `TaskPool.SucceedsIffRoom` | internal/service/nydusify_service.go:586-593 | a stored job has a continuation in which it succeeds exactly when fewer than a hundred were waiting |
| `TaskPool.CancelledUnlessEnded` | internal/service/nydusify_service.go:148-188 | cancelling works exactly for a stored job that has not ended, queued, dropped or in a worker's hands, and touches no other |
| `TaskPool.CancelledUntilWritten` | internal/service/nydusify_service.go:653-677 | a step takes a cancellation back exactly when the worker that has the job in hand starts or ends it |
| `TaskPool.CancelledForEverIffDropped` | internal/service/nydusify_service.go:148-188 | in a state of the service a cancelled job stays cancelled in every continuation exactly when the full queue had dropped it |
| `TaskPool.CancelledCanRun` | internal/service/nydusify_service.go:653-691 | an instance: cancelled while it waits, run, ended in success or failure |
| `TaskPool.Service.SubmitCommitTask` | internal/service/nydusify_service.go:44-97 | stores the task as pending and queues it behind fewer than a hundred others or drops it, unless the request is refused |
| `TaskPool.Service.CancelTask` | internal/service/nydusify_service.go:148-188 | cancels pending and running tasks only, and says why not otherwise |
| `TaskPool.Service.BeginTask` | internal/service/nydusify_service.go:653-656 | the running status is written whatever it was |
| `TaskPool.Service.FinishTask` | internal/service/nydusify_service.go:666-677 | the outcome is written whatever the status was |
| `Callback.LastIsFirstSuccess` | internal/service/nydusify_service.go:318-388 | a chain below the maximum ends with its first success, or exactly at the maximum |
| `Callback.ChainBounds` | internal/service/nydusify_service.go:318-388 | at most the attempts that are left, and a total wait bounded in closed form by the squares in between, or by the configured delay each |
| `Callback.DefaultPolicy` | internal/service/nydusify_service.go:311-376 | without a configured policy at most three sends and five seconds of waiting, one and then four, and all three exactly when the first two fail |
| `Callback.WaitsSum` | internal/service/nydusify_service.go:371-376 | the waits of a chain are exactly the squares, or the configured delay each |
| `Callback.SquaresClosed` | internal/service/nydusify_service.go:374-376 | the closed form of the sum of squares |
| `Callback.SendsWithinBudget` | internal/service/nydusify_service.go:303-389 | however several chains interleave, requests under way included, and whenever clients ask for more or force a retry, they send no more than their budget and what those requests grant |
| `Callback.ForcedStartsOver` | internal/service/nydusify_service.go:191-224 | after a forced retry as many sends as the maximum are possible, and no more, whatever was sent before |
| `Callback.LaunchedCanFinish` | internal/service/nydusify_service.go:318-388 | a call launched alone can use up the attempts that are left |
| `Callback.ChainsEnd` | internal/service/nydusify_service.go:303-389 | without further requests every interleaving ends, after at most a stated number of steps, and while a call is open another step can follow |
| `Callback.EndsDeliveredOrExhausted` | internal/service/nydusify_service.go:303-389 | once all calls have ended the last result is a success or the attempts are used up; attempts count sends unless a retry is forced |
| `Callback.PassesExactlyWhen` | internal/service/nydusify_service.go:318-388 | without further requests the attempts can pass the maximum exactly when two calls are open below it, or one waits at it beside a success or a request under way |
| `Callback.OverlapOvershoots` | internal/service/nydusify_service.go:324-331 | an instance of two overlapping calls that pass the maximum |
| `Callback.Task.Open` | internal/service/nydusify_service.go:303-331 | whether a call sends, and the attempts counted for it |
| `Callback.Task.Close` | internal/service/nydusify_service.go:352-388 | the result recorded, and the delay of the retry if there is one |
| `Callback.Task.Chain` | internal/service/nydusify_service.go:303-389 | an undisturbed chain: attempts, result, sends and total wait, also when it starts at the maximum |
| `Callback.RetryCallback` | internal/service/nydusify_service.go:191-224 | which reply for an unknown, an unended and a finished job, what a retry resets, and the crash on a status never set |
| `CriLog.Reassembles` | pkg/logging/cri_logger.go:127-219 | any cutting of a stream's lines into fragments is put together again, byte for byte and with one timestamp per line, exactly when no partial fragment is empty or timestamps are off |
| `CriLog.LogShown` | pkg/logging/cri_logger.go:127-219 | what is printed in general, with the extra timestamps after empty fragments |
| `CriLog.ParseEncoded` | pkg/logging/cri_logger.go:319-360 | parsing undoes the runtime's writing of a fragment |
| `CriLog.WrittenLinesParse` | pkg/logging/cri_logger.go:319-360 | a line with tag `F` keeps its newline, one with tag `P` loses it, alone or before a colon, on either stream |
| `CriLog.FourFieldsParse` | pkg/logging/cri_logger.go:319-360 | what any four fields with single spaces between them are read as |
| `CriLog.FewerFieldsRefused` | pkg/logging/cri_logger.go:321-343 | fewer fields are no log line |
| `CriLog.UnparsedSkipped` | pkg/logging/cri_logger.go:196-201 | a line that does not parse, an empty one included, is passed over wherever it stands |
| `CriLog.TaggedReassembles` | pkg/logging/cri_logger.go:127-219 | reassembly for the tags as written: fragments with `P` up to one with `F` |
| `CriLog.StreamsKeepApart` | pkg/logging/cri_logger.go:199-215 | for any interleaving of two streams, each is printed with line states of its own exactly when timestamps are off or the one shared state is at every entry that of the entry's stream |
| `CriLog.OwnIsAlone` | pkg/logging/cri_logger.go:199-215 | with states of its own each stream's text is what a log of that stream alone would show |
| `CriLog.StreamsShareLines` | pkg/logging/cri_logger.go:199-215 | an instance of a line that loses its timestamp to the other stream |
| `CriLog.FitsWhole` | pkg/logging/cri_logger.go:277-298 | up to the byte limit nothing is cut |
| `CriLog.FitSize` | pkg/logging/cri_logger.go:277-298 | exactly as many bytes are written as there are, up to the limit |
| `CriLog.FitIsPrefix` | pkg/logging/cri_logger.go:277-298 | and on each stream they are the beginning of what there is for it |
| `CriLog.ParseCRILog` | pkg/logging/cri_logger.go:319-360 | the message of a line of four fields, or a refusal |
| `CriLog.LogWriter.Write` | pkg/logging/cri_logger.go:260-299 | what reaches which stream, cut to the bytes that remain, and when the limit is reached |
| `CriLog.ReadLogs` | pkg/logging/cri_logger.go:127-219 | both outputs of the whole loop, with the limits on lines and bytes |
| `ImageUrl.PrintThenRead` | clacky-ai-paas-dsagent/internal/auth/image_url_parser.go:27-171 | for every value of the five fields, printing and reading give the same reference back exactly when the stated condition on the fields holds |
| `ImageUrl.PlainReferencesReadBack` | clacky-ai-paas-dsagent/internal/auth/image_url_parser.go:27-171 | references with plain components read back, ports in the registry included |
| `ImageUrl.TagReadsBackIff` | clacky-ai-paas-dsagent/internal/auth/image_url_parser.go:45-57 | the tag is cut off in the right place exactly under the stated condition |
| `ImageUrl.PathReadsBackIff` | clacky-ai-paas-dsagent/internal/auth/image_url_parser.go:68-126 | registry, namespace and repository are told apart exactly under the stated condition |
| `ImageUrl.NumericTagIsLost` | clacky-ai-paas-dsagent/internal/auth/image_url_parser.go:190-207 | a tag of up to five digits never reads back |
| `ImageUrl.ShortName` | clacky-ai-paas-dsagent/internal/auth/image_url_parser.go:27-126 | a plain name is the latest version of an image in Docker's own library |
| `ImageUrl.OwnedName` | clacky-ai-paas-dsagent/internal/auth/image_url_parser.go:27-126 | owner, name and tag on Docker Hub |
| `ImageUrl.RegistryName` | clacky-ai-paas-dsagent/internal/auth/image_url_parser.go:27-126 | registry, owner, name and tag on another registry, told by its dot |
| `ImageUrl.DigestRead` | clacky-ai-paas-dsagent/internal/auth/image_url_parser.go:38-44 | a digest is read off at the end and changes nothing else |
| `ImageUrl.PrintedText` | clacky-ai-paas-dsagent/internal/auth/image_url_parser.go:137-171 | the printed text itself: the registry unless it is Docker's, the name, the tag unless it is the latest, the digest |
| `ImageUrl.Parse` | clacky-ai-paas-dsagent/internal/auth/image_url_parser.go:27-65 | the reading of any text, or the refusal of an empty path |
| `ImageUrl.GetFullImageName` | clacky-ai-paas-dsagent/internal/auth/image_url_parser.go:162-171 | the printed form |
| `ImageUrl.GetImageName` | clacky-ai-paas-dsagent/internal/auth/image_url_parser.go:137-159 | the printed form without the registry |
| `ImageUrl.IsPortNumber` | clacky-ai-paas-dsagent/internal/auth/image_url_parser.go:190-207 | exactly the texts of one to five digits |
| `ResolvConf.BuildThenRead` | pkg/resolvconf/resolvconf.go:211-315 | for every three lists, the readers give back what was built exactly when servers are addresses, domains and options are words, and the search list is not a single dot |
| `ResolvConf.NameserversReadBack` | pkg/resolvconf/resolvconf.go:226-242 | reading by kind gives the servers of that kind in order |
| `ResolvConf.SearchReadsBack` | pkg/resolvconf/resolvconf.go:265-275 | the search list comes back, or nothing for the single dot |
| `ResolvConf.OptionsReadBack` | pkg/resolvconf/resolvconf.go:280-290 | the options come back |
| `ResolvConf.KindsOfAddresses` | pkg/resolvconf/resolvconf.go:49-112 | an IPv4 address has dots and no colon, an IPv6 address has colons, and either is an address |
| `ResolvConf.DottedNumbers` | pkg/resolvconf/resolvconf.go:92-93 | texts joined by dots are an IPv4 address exactly when they are four numbers |
| `ResolvConf.NumBlockExactly` | pkg/resolvconf/resolvconf.go:92-92 | a number has one to three digits and is at most 255 |
| `ResolvConf.ColonGroups` | pkg/resolvconf/resolvconf.go:100-100 | texts joined by colons are taken for an IPv6 address exactly when they are three to eight groups |
| `ResolvConf.Zones` | pkg/resolvconf/resolvconf.go:100-100 | a zone after it is at least one letter, digit or underscore |
| `ResolvConf.BlankOptionsLeftOut` | pkg/resolvconf/resolvconf.go:306-313 | no options line is written exactly when the options are nothing but spaces |
| `ResolvConf.BuiltText` | pkg/resolvconf/resolvconf.go:295-315 | the text itself that is written for a domain, a server and an option |
| `ResolvConf.FieldsJoin` | pkg/resolvconf/resolvconf.go:265-290 | splitting at spaces undoes joining with them, for words |
| `ResolvConf.LinesOfUnlines` | pkg/resolvconf/resolvconf.go:211-223 | the lines read are those written |
| `ResolvConf.Build` | pkg/resolvconf/resolvconf.go:295-315 | the content written |
| `ResolvConf.GetLines` | pkg/resolvconf/resolvconf.go:211-223 | the lines without their comments |
| `ResolvConf.GetNameservers` | pkg/resolvconf/resolvconf.go:226-242 | the addresses of all nameserver lines of a kind |
| `ResolvConf.GetWords` | pkg/resolvconf/resolvconf.go:265-290 | the words of the last line with the keyword |
| `EnvMerge.MergeKeepsPromise` | pkg/flagutil/flagutil.go:30-70 | for valid defaults, any overrides and every key, the merged list gives the key what the documentation says exactly when the stated condition holds |
| `EnvMerge.DistinctDefaultsKeepPromise` | pkg/flagutil/flagutil.go:30-70 | in particular for distinct defaults when no override removes what an override added |
| `EnvMerge.EntryKey` | pkg/flagutil/flagutil.go:37-61 | `k=v` is an entry for `k` and sets it, a bare `k` removes it |
| `EnvMerge.MergedTexts` | pkg/flagutil/flagutil.go:30-70 | one default and one override: the new value in place, the removal, a further entry, or nothing |
| `EnvMerge.SlotsAt` | pkg/flagutil/flagutil.go:37-61 | each default stays in place, overridden if it is the last of its key |
| `EnvMerge.Compact` | pkg/flagutil/flagutil.go:63-69 | the deleting loop ends and is a stable filter |
| `EnvMerge.Override` | pkg/flagutil/flagutil.go:44-61 | one override changes one place or adds one entry |
| `EnvMerge.ReplaceOrAppendEnvValues` | pkg/flagutil/flagutil.go:34-70 | the whole merge: places of the defaults, then additions in order, without the removed |
| `Health.StatusAsPromised` | pkg/healthcheck/executor.go:143-152 | over every history of probes the streak is the number of failures outside the start period since the last pass, and unhealthy means that it reached the retries |
| `Health.PassHeals` | pkg/healthcheck/executor.go:143-146 | an exit code of zero makes the container healthy, whatever came before |
| `Health.EarlyFailuresIgnored` | pkg/healthcheck/executor.go:138-147 | failures in the start period change nothing, whatever came before |
| `Health.FailuresAfterPass` | pkg/healthcheck/executor.go:143-152 | after a pass, failures outside the start period are counted and make the container unhealthy exactly when there are as many as the retries, and at least one |
| `Health.Container.UpdateHealthStatus` | pkg/healthcheck/executor.go:121-164 | one probe brings label and log to the state promised for the longer history; what zero, an early failure and a later one do to status and streak |
| `Health.LogReadsBack` | pkg/healthcheck/log.go:39-110 | reading the log gives back every result written and ignores a line still being written |
| `Health.Container.Inspect` | pkg/healthcheck/log.go:70-140 | the last five results newest first, long outputs cut to 4096 and marked |
| `Health.ShownOutput` | pkg/healthcheck/log.go:105-131 | at most five results, each with its code and start, its output whole up to 4096 and else cut there and marked |
| `Health.ReadForInspect` | pkg/healthcheck/log.go:70-140 | the same for any log text |
| `Health.InspectedIsUnique` | pkg/healthcheck/log.go:112-131 | what is promised of the results shown leaves no choice |
| `Health.ReadLog` | pkg/healthcheck/log.go:82-110 | the results of the complete lines that decode |
| `Health.ReverseLogs` | pkg/healthcheck/log.go:117-120 | the in-place reversal |
| `Health.OverflowIsLoss` | pkg/healthcheck/log.go:212-239 | short of empty writes the buffer reports truncation exactly when something was lost |
| `Health.OverflowExactly` | pkg/healthcheck/log.go:212-239 | in general it reports one exactly when something was lost or a write came while it was full |
| `Health.ResizableBuffer.Write` | pkg/healthcheck/log.go:212-228 | over any writes the buffer holds the beginning of all the text, up to its size |
| `Health.ResizableBuffer.String` | pkg/healthcheck/log.go:230-239 | that beginning, marked if truncated |
| `MountFlags.EditsJoin` | pkg/mountutil/mountutil_linux.go:193-222 | however many edits and in whatever order, the root's propagation is raised to the strongest asked for |
| `MountFlags.SameEditsSameRoot` | pkg/mountutil/mountutil_linux.go:193-222 | order and repetition of edits do not matter |
| `MountFlags.DoublingIsHarmless` | pkg/mountutil/mountutil.go:218-229 | handing each volume's edits over twice has no effect |
| `MountFlags.OrderIrrelevant` | pkg/mountutil/mountutil_linux.go:109-247 | the order of a volume's options does not matter, for success, failure and outcome |
| `MountFlags.VolumeOptionTexts` | pkg/mountutil/mountutil_linux.go:109-247 | what each option, as it is written, does to a volume: only the write mode is taken |
| `MountFlags.BindOptionTexts` | pkg/mountutil/mountutil_linux.go:109-247 | and to a bind mount, recursively private as a rule |
| `MountFlags.SharedTexts` | pkg/mountutil/mountutil_linux.go:174-202 | shared needs the source to be in a shared mount, and brings its edit of the root |
| `MountFlags.SlaveTexts` | pkg/mountutil/mountutil_linux.go:203-224 | a slave needs it to be in a mount that is shared or a slave |
| `MountFlags.MarkedFields` | pkg/mountutil/mountutil_linux.go:254-267 | any one of a mount's optional fields marks it |
| `MountFlags.MarkTexts` | pkg/mountutil/mountutil_linux.go:254-267 | what marks a mount as shared and as a slave |
| `MountFlags.TwoOfAKind` | pkg/mountutil/mountutil_linux.go:134-165 | two options of a kind are refused, whichever they are |
| `MountFlags.MountTextReadsBack` | pkg/mountutil/mountutil_linux.go:294-437 | for the text of every accepted bind `--mount`: its last source is mounted at its last destination by the `-v` parser, with exactly the options composed, exactly under the conditions below |
| `MountFlags.BindReadsBack` | pkg/mountutil/mountutil_linux.go:392-433 | for path sources, relative ones included, and absolute destinations, both without a colon: exactly the mount asked for, or which error |
| `MountFlags.PiecesReadBack` | pkg/mountutil/mountutil_unix.go:29-33 | fields joined with colons are split into the same fields exactly when none has a colon and the first is not empty |
| `MountFlags.BindExactly` | pkg/mountutil/mountutil_linux.go:392-433 | for every bind flag: its fields are read back and its own mount is made exactly when source and destination are colon-free, the source is a path and no volume name, the destination is absolute, the source can be found and used, and the propagation is allowed |
| `MountFlags.NamedSourceFails` | pkg/mountutil/mountutil_linux.go:392-433 | a bind mount whose source could name a volume is refused |
| `MountFlags.AnonymousWithOptionsFails` | pkg/mountutil/mountutil_linux.go:392-433 | an anonymous volume with any option is refused |
| `MountFlags.AnonymousExactly` | pkg/mountutil/mountutil_linux.go:392-433 | a volume flag without a source becomes its own anonymous volume exactly when it has no options, no colon inside its destination, and a volume can be made |
| `MountFlags.NamedVolume` | pkg/mountutil/mountutil.go:62-163 | a flag of a volume name and a destination, without options, is that volume there |
| `MountFlags.LastFieldsCount` | pkg/mountutil/mountutil_linux.go:322-390 | the last source, destination and propagation count; `type=volume` does not undo another type |
| `MountFlags.RefusedExactly` | pkg/mountutil/mountutil_linux.go:322-390 | a flag is refused exactly when one of its fields has no value where one is needed, a value that cannot be read, or an unknown key |
| `MountFlags.LastModeCounts` | pkg/mountutil/mountutil_linux.go:322-363 | the last write mode counts that its value does not switch off |
| `MountFlags.LastNumbersCount` | pkg/mountutil/mountutil_linux.go:375-386 | the last size and the last file mode of a temporary filesystem count |
| `MountFlags.LastRecursionCounts` | pkg/mountutil/mountutil_linux.go:332-373 | the last word on recursion counts, with a value or without one |
| `MountFlags.UnnamedKeepDefaults` | pkg/mountutil/mountutil_linux.go:294-321 | what no field names: no size, file mode 01777, recursive |
| `MountFlags.KeyNames` | pkg/mountutil/mountutil_linux.go:322-363 | the names of type, source, target and the write modes |
| `MountFlags.KindKeyNames` | pkg/mountutil/mountutil_linux.go:367-386 | the names of the other keys |
| `MountFlags.FieldText` | pkg/mountutil/mountutil_linux.go:322-341 | a field with a value and one without, capitals in the key not mattering |
| `MountFlags.BindText` | pkg/mountutil/mountutil_linux.go:322-357 | the flag that four texts for type, source, target and mode stand for |
| `MountFlags.RecursionComposed` | pkg/mountutil/mountutil_linux.go:392-433 | whether a bind mount is recursive is always among the options composed |
| `MountFlags.ParseVolumeOptions` | pkg/mountutil/mountutil_linux.go:109-247 | options and edits of any raw text, or which error |
| `MountFlags.EnsureMountOptionalValue` | pkg/mountutil/mountutil_linux.go:254-267 | whether a field has one of the prefixes |
| `MountFlags.ProcessFlagV` | pkg/mountutil/mountutil.go:62-163 | the mount or the error for any text |
| `MountFlags.HandleVolumeToMount` | pkg/mountutil/mountutil_unix.go:35-45 | a source is taken for a volume exactly when it is a valid volume name, an absolute path is a bind source kept as it is, and each of the two errors has its own cause |
| `MountFlags.ReadFields` | pkg/mountutil/mountutil_linux.go:322-390 | the flag that the fields stand for, or the first error |
| `MountFlags.ProcessFlagMount` | pkg/mountutil/mountutil_linux.go:294-437 | the fields read, and for volumes and bind mounts the outcome of the composed `-v` flag |
| `MountFlags.GetTmpfsSize` | pkg/mountutil/mountutil_linux.go:440-469 | the size is expressed exactly, in the largest unit that divides it |
| `MountFlags.Spec.ApplyAll` | pkg/mountutil/mountutil_linux.go:193-222 | all closures one after the other raise the propagation to the strongest |

## Left out

- Strings are sequences of characters, not bytes. The separators are all ASCII, so the operations agree; limits count characters.
- Case folding and the blanks that `FileStore` trims are ASCII only.
- Faults of the operating system, of the disk and of CNI, RootlessKit and bypass4netns are parameters that say whether a step succeeds.
- `nat.ParsePortRange`, `net.ParseIP`, `strconv.ParseBool`, `units.RAMInBytes`, `time.Parse` and the JSON codec are parameters; what is needed of them is a precondition (`Sane`, `Faithful`, `Sound`).
- `getPathSpecFromHost`: it uses Go's own `EvalSymlinks`, which is not part of this model; its stripping of the path is the one modelled for containers.
- Windows volume names and path separators, and the platforms other than Linux.
- ContainerPath.GetPathSpecFromContainer: mount destinations are absolute, as the OCI runtime specification demands.
- MountOverlay.PathOnHost: says nothing for relative paths, which `resolvePath` never passes.
- MountOverlay.GetMount: says nothing for paths that are absolute but not clean; `resolvePath` cleans its results.
- FileStore.Store.Lock: blocking and the failure to take the lock; it is taken when it is free. Locking between processes is the file lock's.
- FileStore.Store.List: does not model the sorted order in which a directory is read.
- FileStore.Store.Set: a write is atomic, as renaming a temporary file is assumed to be.
- FileStore.ValidateAll: the file names reserved on other platforms.
- OciHook.Hooks.OnCreateRuntime: opening the stores and the record of the error always works, and so does writing that record; AppArmor, rootless namespaces and the contents of the hosts file.
- OciHook.AllocationIsLastCreateOk: needs removals that work; without them the allocation is whatever CNI left.
- PortAllocator.GetUsedPorts: reading `/proc/net` and iptables.
- PortAllocator.Allocator.PortAllocate: a range has at least one port, as `nat.ParsePortRange` ensures; the cursor does not pass 2 to the 64.
- PortFlag.ReadsBack: the printed host ports are given, not left for allocation.
- TaskPool.StepInv: submissions are one at a time with fresh IDs (two at once could each start a pool), and cancelling is one step; the channel's receive and the write of the running status are separate steps. Timestamps, priorities and results are not modelled.
- TaskPool.Service.CancelTask: cancelling the context of a running command, which shows as its failure.
- Callback.WaitsSum: the product of squares and nanoseconds does not overflow 64 bits; that takes some hundred thousand attempts.
- Callback.Task.Open: a configured callback has a retry policy; without one the source crashes.
- Callback.RetryCallback: it reads the status before the call it launches does.
- Follow mode, file rotation, `tail` and the stop channel of the log viewer; CriLog.ReadLogs starts where the tail search has set the file to.
- CriLog.Reassembles: is about the log of one stream; CriLog.StreamsKeepApart says when two streams in one log come to the same.
- CriLog.LogWriter.Write: failing and short writes.
- `FilterResolvDNS` and the rest of the resolver configuration's rewriting; hashing and writing the file.
- ResolvConf.GetWords: `GetSearchDomains` and `GetOptions` are one method with the keyword as parameter.
- EnvMerge.MergeKeepsPromise: defaults are `k=v` strings, as the source demands; EnvMerge.ReplaceOrAppendEnvValues is about any defaults.
- Health.Container.UpdateHealthStatus: reading and writing labels and files always works; the probe's execution and its timeout.
- MountFlags.ProcessFlagMount: temporary filesystems end at the fields read, because merging their options is a library's; GetTmpfsSize is modelled, the printing of its number is not.
- MountFlags.BindExactly: the mode is one of the three words, as reading the fields ensures. A source that begins with colons loses them, so that another flag's mount could be made; the first equivalence rules that out by demanding that the fields are read back, the second by the source's first character.
- MountFlags.AnonymousExactly: a destination of nothing but colons.
- MountFlags.ProcessFlagV: the locked mount flags added in a user namespace; option texts stand as words, unknown ones being dropped with a warning in the source as well.
- ImageUrl.Parse: `FullURL`, which keeps the text as given; the two predicates on registries.
- Subnet selection, networks, hosts and network stores, the command line, formatting, stats and version output, and everything that calls containerd, registries, IPFS or other programs.
