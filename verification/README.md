# Verified models of the hostd core

A Dafny project that models the parts of this repository where a small mistake loses data, leaks a
device or stops the wrong process, and proves what they promise. `dafny verify dfyconfig.toml`
checks everything.

| component | files | source |
|---|---|---|
| chunk-backed volume and its open-file cache | `fd_cache`, `fd_cache_runs`, `chunk_files`, `volume`, `volume_runs`, `flush_race` | `hostd/src/storage/volume.rs` |
| Postgres startup rewriting at the proxy | `options`, `option_words`, `option_loops`, `startup` | `hostd/src/proxy/tcp.rs` |
| VM lifecycle, auto-suspend and wake | `lifecycle`, `lifecycle_runs`, `lifecycle_wakes`, `lifecycle_drops`, `activity` | `hostd/src/vmm`, `hostd/src/proxy` |
| address allocation | `cidr`, `net_state`, `net_laws`, `host_net`, `net_claims`, `net_manager`, `net_runs`, `net_restarts` | `hostd/src/net` |
| block-worker supervision | `block_worker` | `hostd/src/storage/manager.rs` |
| workload records on both sides | `workload`, `workload_sync`, `workload_stops`, `connection` | `hostd/src/vmm`, `guestd/src` |
| branch forest and cascading delete | `forest`, `forest_runs`, `forest_orphans`, `forest_races`, `forest_witness` | `webapp/server/src` |
| cron windows; quoting for the shell | `schedule`, `shell_quote` | `hostd/src/vmm/firecracker/schedule.rs`, `webapp/server/src/tikoenv.ts` |

Code that changes objects in place is a class or a method with a loop, proved against a function or
a relation; what the source promises is then proved of that function or relation. Protocols between
tasks are step systems: one step is one lock scope, one await or one outside event, chosen in any
order, and the theorems are about every run.

## What the proofs found

Where the code and its own words differ, the model follows the code.

- `expect("just inserted")` (`hostd/src/storage/volume.rs:212`) does fail: exactly on a miss with at
  least `cap` dirty chunks and fewer than `2 * cap` queue entries. The comment above the loop says
  that the cache simply grows then (`FdCache.Insert`, `Volume.ChunkFd`, `PanicWitness`).
- The cache may end a miss above its capacity even with nothing dirty, because stale queue entries
  use up the bounded pops; `SweepWithinCap` says exactly when, `AboveCapWitness` is one case.
- A write between a flush thread's `sync_data` and its clearing of the mark can lose the mark
  (`OneWriteIsLost`), and the next flush then succeeds over bytes that are not durable. `SafeIff` says
  exactly which runs lose no mark, and `FlushCovers` what a flush promises then.
- Both token forms are said to be stripped from what is forwarded. `-c -c tikovm_token=A
  tikovm_token=B` leaves a setting behind; `StripAgain` and `RewriteAllTwice` give the exact condition.
- A failed operation is said to return the VM to its previous stable state
  (`hostd/src/vmm/vm.rs:81-83`). A failed snapshot of a paused VM ends in `Started`
  (`RollbackRestores`, `FailedSnapshotOfPaused`).
- The suspend gate is said to keep a VM from being snapshotted in the middle of a request
  (`hostd/src/vmm/activity.rs:5-6`). A snapshot overlaps a forwarded request if and only if one is
  being forwarded at the `Suspending` transition (`OverlapIff`); such a request was tracked after the
  gate's reading (`OverlapIsInTheWindow`), and at no point after the reading is an arriving request
  safe from it (`WindowIsOpen`).
- A handler dropped at an await, as when its client goes away, can leave the VM in a transitional
  state that nothing but destroying it ends (`DropLeaves`, `OrphanedForEver`).
- A failed write of `network_state.json` makes `allocate` return an error and keep the allocation
  (`NetworkManager.Allocate`); a TAP device made just before such a write, or a crash, is not
  deleted at the next start (`ReconcileLeaves`), nor at any later one until its VM id is used again
  (`UnclaimedTaps`).
- A state file written under another supernet or prefix is loaded as it is; for its larger indices the
  subnet's address does not fit 32 bits (`LoadedIndexFitsIff`).
- A stop request that overtakes its start on another connection makes guestd report an error, and the
  record is failed for good while the process runs (`StopOvertakesStart`). A finished record shows
  guestd's result if and only if no such error reached it while it was active (`ShowsResultIff`,
  `ErrorIffStopMissed`).
- A stop request that cannot be queued takes back an earlier one that was, and the workload is then shown
  as exited (`FlagIffStopStands`, `StoppedIff`).
- Between a worker's exit and its successor's entry, and for ever after the last one, `detach` signals
  a process id that is no longer the worker's (`DetachTakesReapedIff`).
- Deleting a project while one of its branches is being deleted elsewhere leaves that branch, or one
  above it that is being deleted too, registered without its source (`DeleteKeepsRootedIff`).
- The cascade is said never to remove a namespace while one of its dependents is alive
  (`webapp/server/src/state.ts:190-196`). A delete that nothing interrupts keeps this
  (`CleansFreeOnly`, `LiveKeepTheirSources`). But `deleteProject` marks a project only after awaiting
  the deletes of its branches, so a branch registered meanwhile loses its source, whose namespace is
  cleaned under it (`BranchLosesItsSource`). A new branch can lose its source to the deletes going on if
  and only if one of them is deleting that source (`BranchIsLostIff`). The end of a provisioning can
  also overwrite the mark and open a project being deleted to branches (`RevivalReopens`). Nothing else
  breaks the promise (`OrphansAreExceptions`, `CleanedUnder`, `QuietRunsAreSafe`).
- A clock set back across a cron occurrence makes it due again (`WindowsTileTimeIff`,
  `SetBackFiresTwice`).

## Model

| member | source | states |
|---|---|---|
| FdCaches.SweepKeeps | hostd/src/storage/volume.rs:185-209 | the eviction loop closes no dirty file, changes no generation and keeps one live queue entry per cached chunk, generations distinct |
| FdCaches.SweepSurvival | hostd/src/storage/volume.rs:192-209 | a clean cached chunk is closed if and only if the pops reach its entry and the victims in front of it do not suffice |
| FdCaches.SweepWithinCap | hostd/src/storage/volume.rs:192-209 | the loop ends within the capacity if and only if the entries it can reach hold enough victims |
| FdCaches.SweepClosesOldest | hostd/src/storage/volume.rs:192-209 | every closed chunk was used before every clean chunk that stays |
| FdCaches.OneLiveEntry | hostd/src/storage/volume.rs:69-77 | a cached chunk has exactly one queue entry with its current generation |
| FdCaches.InsertFacts | hostd/src/storage/volume.rs:180-212 | a miss loses the chunk just added if and only if at least `cap` chunks are dirty and the queue is shorter than `2 * cap`; with fewer dirty and at most `2 * cap` entries it ends within the capacity |
| FdCaches.FdCache.Touch | hostd/src/storage/volume.rs:153-160 | a hit makes the chunk the latest used, by the history of all uses |
| FdCaches.FdCache.CloseWhileOver | hostd/src/storage/volume.rs:192-209 | the loop in place computes the recursive `Sweep` |
| FdCaches.FdCache.Insert | hostd/src/storage/volume.rs:180-213 | a miss: when the panic strikes, what is closed, what stays, and in which order of last use |
| FdCacheRuns.PanicWitness | hostd/src/storage/volume.rs:185-212 | with room for one file, opening chunk 0, writing it and opening chunk 1 closes the file just opened: a state the cache can be in, and the panic |
| FdCacheRuns.AboveCapWitness | hostd/src/storage/volume.rs:193-203 | with room for one file, three uses of chunk 0 and then chunk 1, nothing dirty, leave both files open |
| ChunkFiles.WriteIsSplice | hostd/src/storage/volume.rs:233-242 | writing a chunk file at its inner offset splices the flat device at the outer one |
| Volumes.Volume.ChunkFd | hostd/src/storage/volume.rs:148-213 | opening a chunk changes no byte, creates no file for a read, fails exactly after an earlier panic or when a host call fails, and panics exactly when a miss meets `cap` dirty chunks and a short queue |
| Volumes.Volume.DoIo | hostd/src/storage/volume.rs:218-257 | a read returns the flat device's bytes and changes nothing; a write splices a prefix of the data, all of it on success; a request fails if and only if it is misaligned or out of range, a host call failed during it, or the volume has panicked before; it panics only when the dirty chunks and those it touches are at least `cap` |
| Volumes.Volume.WriteAll | hostd/src/storage/volume.rs:231-256 | the write loop makes one splice of the prefix it got through, marks exactly the chunks it touched, and fails only for one of these causes |
| Volumes.Volume.ReadAll | hostd/src/storage/volume.rs:227-256 | the read loop fills the buffer from the flat device, with zeros for missing chunks and short files, and fails only for one of these causes |
| Volumes.Volume.Flush | hostd/src/storage/volume.rs:261-292 | whatever the order of the threads and the failures, visible bytes stay, exactly the chunks leaving the dirty set became durable, success means all of them, and it fails exactly when a host call did or, with dirty chunks, after a panic |
| Volumes.Volume.FlushChunk | hostd/src/storage/volume.rs:295-312 | one chunk of a flush thread: durable and unmarked together, or neither, which takes a failed call or an earlier panic |
| Volumes.Deal | hostd/src/storage/volume.rs:273-280 | the round-robin groups hold every dirty chunk exactly once |
| VolumeRuns.RunCovered | hostd/src/storage/volume.rs:239-314 | in every reachable state the chunks whose bytes are not durable are marked dirty |
| VolumeRuns.RunRefinesFlat | hostd/src/storage/volume.rs:218-292 | every run of writes, reads and flushes refines one flat byte array |
| VolumeRuns.FreshRunRefinesFlat | hostd/src/storage/volume.rs:92-131 | a new volume is such an array of zeros |
| VolumeRuns.FlushedBytesSurviveCrash | hostd/src/storage/volume.rs:259-292 | after a successful flush, a crash at any later time keeps every byte whose chunk was not written since |
| FlushRaces.SafeIff | hostd/src/storage/volume.rs:242-314 | with any number of chunks, writers, flush threads and overlapping flushes, a run loses no dirty mark if and only if at every unmark no write to the chunk landed since its latest sync by any thread, or some writer has still to mark it |
| FlushRaces.AheadIffWritten | hostd/src/storage/volume.rs:307-311 | once a chunk was synced, its file is ahead of what is durable exactly after a write since the latest sync |
| FlushRaces.QuietRunIsSafe | hostd/src/storage/volume.rs:307-311 | with no write to a chunk between a thread's sync of it and its unmark, no run loses a mark |
| FlushRaces.FlushCovers | hostd/src/storage/volume.rs:259-292 | whatever runs beside it, a flush that succeeds has made durable what was written to a chunk before it, if the writers had returned and the chunk had lost no mark |
| FlushRaces.OneWriteIsLost | hostd/src/storage/volume.rs:261-311 | one write there is enough to lose one, and the next flush then succeeds at once with bytes that are not durable |
| Options.SplitOfJoin | hostd/src/proxy/tcp.rs:235-276 | any words kept in order and joined by single spaces split again into the same words, open quotes and a trailing backslash included |
| Options.StripAgain | hostd/src/proxy/tcp.rs:282-322 | what is kept still holds a token setting if and only if a bare `-c` lost the settings that separated it from a `tikovm_token=` word |
| Options.NoDashCPairsNoLeak | hostd/src/proxy/tcp.rs:287-310 | without a bare `-c` directly before a word starting with `-c` that never happens |
| Options.ExtractTwice | hostd/src/proxy/tcp.rs:278-322 | extraction on its own result finds nothing and changes nothing exactly then |
| Options.LeakExample | hostd/src/proxy/tcp.rs:287-310 | the concrete text that leaks |
| Options.JoinIsShorter | hostd/src/proxy/tcp.rs:314-321 | dropping a word makes the text strictly shorter and adds no NUL |
| OptionWords.SpreadSplits | hostd/src/proxy/tcp.rs:231-276 | words written with bare bytes, backslashes and quotes, between gaps of the five white-space bytes, are split into exactly those words, each with what it means |
| OptionWords.FirstSettingWins | hostd/src/proxy/tcp.rs:278-322 | among such words the first setting, in either form, is the token whatever follows it; without a further one the other words are kept as written, with single spaces between them |
| OptionWords.NoSetting | hostd/src/proxy/tcp.rs:311-313 | without a setting nothing is found, and the text stays as it is |
| OptionWords.BareValue | hostd/src/proxy/tcp.rs:235-322 | in literal bytes: a value without white space, quotes and backslashes is the token, behind `-c`, any one of the five white-space bytes and `tikovm_token=`, or glued to `-c`, and nothing is left |
| OptionWords.SingleQuotedValue | hostd/src/proxy/tcp.rs:260-264 | so is any value without a single quote, between single quotes |
| OptionWords.DoubleQuotedValue | hostd/src/proxy/tcp.rs:255-269 | and any value between double quotes, its quotes and backslashes escaped and any other byte escaped or not |
| OptionWords.BackslashedValue | hostd/src/proxy/tcp.rs:255-259 | and any value at all with a backslash before each byte |
| OptionLoops.SplitOpts | hostd/src/proxy/tcp.rs:235-276 | the index loops give the words of the recursive splitter, as spans into the text |
| OptionLoops.ExtractFromOptions | hostd/src/proxy/tcp.rs:282-322 | the walk over the words returns the first token and the kept words rejoined |
| Startup.ParseEncoded | hostd/src/proxy/tcp.rs:193-212 | parsing an encoded parameter list gives it back, whatever follows the terminator |
| Startup.ParsedIsEncoded | hostd/src/proxy/tcp.rs:193-212 | the parser accepts nothing but such encodings |
| Startup.BuildThenParse | hostd/src/proxy/tcp.rs:193-229 | building and parsing a message are inverse |
| Startup.SniffedIff | hostd/src/proxy/tcp.rs:50-67 | in literal bytes, which first eight bytes are taken for Postgres |
| Startup.FrameEnds | hostd/src/proxy/tcp.rs:217-229 | the protocol bytes of a frame, and the NUL that ends it |
| Startup.FrameMore | hostd/src/proxy/tcp.rs:217-229 | one parameter more puts its key, a NUL, its value and a NUL behind the others |
| Startup.ParseStartup | hostd/src/proxy/tcp.rs:193-212 | the loop over the frame computes the recursive parser |
| Startup.BuildStartup | hostd/src/proxy/tcp.rs:217-229 | the loop writes the code, the parameters in order, the terminator and the length |
| Startup.ExtractToken | hostd/src/proxy/tcp.rs:143-168 | parameters that are neither a token nor `options` are forwarded in order and unchanged, and no token is; without a token all is as it was; the last token carried counts, and a single one leaves everything around it as it was, an `options` value keeping its other settings |
| Startup.RewriteAllFacts | hostd/src/proxy/tcp.rs:143-168 | what is forwarded can be encoded, and is strictly shorter once a token is found |
| Startup.RewriteAllTwice | hostd/src/proxy/tcp.rs:137-168 | a token is still forwarded if and only if some `options` value leaks; otherwise rewriting again changes nothing |
| Startup.RewrittenFrame | hostd/src/proxy/tcp.rs:53-66 | the forwarded frame is strictly shorter, carries its own length, is recognised again and parses to the rewritten parameters |
| Lifecycle.StableOrTransitional | hostd/src/vmm/vm.rs:81-104 | every allowed transition goes from a stable state to a transitional one or back |
| Lifecycle.RollbackAllowedIff | hostd/src/vmm/vm.rs:84-104 | the table lets an operation complete, roll back, and return where it came from, except a snapshot of a paused VM |
| Lifecycle.OpKeepsOwner | hostd/src/vmm/firecracker/vmm.rs:291-486 | every step of an operation keeps the transitional state owned by the one operation in flight |
| Lifecycle.DoKeepsInv | hostd/src/vmm/firecracker/vmm.rs:291-758 | every step of every task keeps ownership, the activity count, the order of guards and gates, and the wake lock |
| Lifecycle.OneOperationInFlight | hostd/src/vmm/vm.rs:107-117 | in every run in which no handler is dropped at an await, at most one operation is in flight, the state names it, a settled state means none, and no completion or rollback is refused |
| Lifecycle.NoChildIffSuspended | hostd/src/vmm/firecracker/vmm.rs:391-486 | in a settled state the Firecracker child is gone exactly when the VM is suspended, and then a snapshot is recorded |
| Lifecycle.OneWaker | hostd/src/vmm/firecracker/vmm.rs:712-758 | wakers take turns |
| Lifecycle.OperationEnds | hostd/src/vmm/firecracker/vmm.rs:291-486 | each step of the operation in flight brings it nearer its end, and its end settles the VM |
| LifecycleRuns.EnteredAt | hostd/src/vmm/vm.rs:107-117 | an operation in flight left the stable state it remembers, and the VM has been in the transitional state ever since |
| LifecycleRuns.OverlapIsInTheWindow | hostd/src/vmm/firecracker/auto_suspend.rs:142-189 | a request forwarded while an auto-suspend is in flight was tracked after the gate read no live guard and before the `Suspending` transition |
| LifecycleRuns.OverlapIff | hostd/src/vmm/firecracker/auto_suspend.rs:142-189 | an auto-suspend overlaps a forwarded request if and only if one is being forwarded at its `Suspending` transition |
| LifecycleRuns.WindowIsOpen | hostd/src/vmm/firecracker/auto_suspend.rs:178-188 | from every state with an auto-suspend between its reading and its transition, a request arriving at a started VM can be forwarded and overlap the snapshot |
| LifecycleRuns.ForwardingNeedsStarted | hostd/src/proxy/target.rs:43-105 | forwarding begins only in `Started`, with no operation in flight |
| LifecycleWakes.WakesAndForwards | hostd/src/vmm/firecracker/vmm.rs:426-486 | at any point of any run, a request for a suspended VM that has the wake lock restores the VM and is forwarded if it steps alone and its calls succeed |
| LifecycleWakes.ArrivalIsForwarded | hostd/src/proxy/target.rs:43-105 | from every state of every run with a free wake lock, a new request for a suspended or started VM, stepping alone with its calls succeeding, gets the VM running and is forwarded, and changes nothing else |
| LifecycleWakes.RequestIsForwarded | hostd/src/vmm/firecracker/vmm.rs:712-758 | so does one that is already on its way, at any of its steps |
| LifecycleWakes.WaiterIsForwarded | hostd/src/vmm/firecracker/vmm.rs:723-758 | over every run, one that had to wait, for a snapshot or restore in progress or behind another waker, without running out of time, is still on its way and is forwarded once the lock is free and the VM suspended or started |
| LifecycleWakes.ExecWakes | hostd/src/vmm/firecracker/vmm.rs:712-758 | an exec call on a suspended VM restores it too |
| LifecycleWakes.CallSucceeds | hostd/src/vmm/firecracker/vmm.rs:291-486 | the state each management call reaches when it succeeds, from each state it is for: a resume ends in `Started` |
| LifecycleWakes.CallFails | hostd/src/vmm/firecracker/vmm.rs:291-486 | and when its request to Firecracker fails |
| LifecycleWakes.IdleSuspends | hostd/src/vmm/firecracker/auto_suspend.rs:142-189 | an idle signal suspends a started VM without live requests, if the gate's other checks allow it |
| LifecycleWakes.IdleRefused | hostd/src/vmm/firecracker/auto_suspend.rs:164-182 | with a live request, or in another state, it does nothing |
| LifecycleWakes.DestroyedForEver | hostd/src/vmm/firecracker/vmm.rs:672-685 | a destroyed VM never comes back, and Firecracker is never started for it again |
| LifecycleRuns.RollbackRestores | hostd/src/vmm/firecracker/vmm.rs:409-421 | a rollback is accepted and restores the stable state the operation left, if and only if it was not a snapshot of a paused VM |
| LifecycleRuns.FailedSnapshotOfPaused | hostd/src/vmm/firecracker/vmm.rs:414-421 | a run that reaches the exception |
| LifecycleRuns.ForwardedDuringSnapshot | hostd/src/vmm/firecracker/auto_suspend.rs:142-189 | a run with a request forwarded during the snapshot |
| LifecycleDrops.DropLeaves | hostd/src/proxy/http.rs:76-89 | a handler dropped at an await gives back its guard and the wake lock; with an operation in flight it leaves the VM in that transitional state with no operation in flight, and otherwise changes nothing |
| LifecycleDrops.OrphanWitness | hostd/src/vmm/vm.rs:84-117 | a run with a pause in flight, whose dropped handler leaves the VM orphaned in `Pausing` |
| LifecycleDrops.OrphanedForEver | hostd/src/vmm/vm.rs:84-117 | from there no run leaves the state or begins an operation |
| Activities.ActivityTracker.Track | hostd/src/vmm/activity.rs:32-43 | one more live guard, counted and timed |
| Activities.ActivityTracker.DropGuard | hostd/src/vmm/activity.rs:75-86 | one guard fewer; the count equals the live guards unless the VM was ever forgotten, and never exceeds them |
| Activities.ActivityTracker.Clear | hostd/src/vmm/activity.rs:64-66 | forgets one VM and no other |
| Cidr.Masked | hostd/src/net/cidr.rs:31-34 | masking gives the network of that prefix that contains the address |
| Cidr.Subnet | hostd/src/net/cidr.rs:47-53 | a subnet is an aligned block inside the network, and no shift, product or sum overflows 32 bits |
| Cidr.SubnetsDisjoint | hostd/src/net/cidr.rs:47-58 | subnets with different indices are disjoint |
| Cidr.SubnetsCover | hostd/src/net/cidr.rs:47-58 | together they are the whole network |
| Cidr.LoadedIndexFitsIff | hostd/src/net/cidr.rs:47-53 | exactly which loaded indices have a subnet address that fits 32 bits |
| Cidr.MacInjective | hostd/src/net/types.rs:138-143 | different addresses have different MACs |
| Cidr.MacOctets | hostd/src/net/types.rs:138-143 | the MAC holds the four octets in order, each in two upper-case hexadecimal digits |
| Cidr.MacExample | hostd/src/net/types.rs:138-143 | the one of 172.16.0.2 |
| NetStates.FullIff | hostd/src/net/state.rs:190-194 | the addresses in use fill their range if and only if they are as many |
| NetStates.NetState.Alloc | hostd/src/net/state.rs:76-142 | the answer, the lowest free subnet and address, and the whole new state; each refusal with its exact condition |
| NetStates.LowestFreeIp | hostd/src/net/state.rs:190-194 | the lowest host address not in use, none only when all are |
| NetStates.NetState.RollbackAlloc | hostd/src/net/state.rs:145-152 | the VM leaves its project, and an empty project the state |
| NetStates.NetState.Release | hostd/src/net/state.rs:156-186 | the one owner loses the VM; its devices are to be torn down exactly with the last VM |
| NetLaws.AllocKeepsOk | hostd/src/net/state.rs:76-142 | allocation keeps addresses usable and singly owned, subnets distinct and gateways and bridges derived |
| NetLaws.RollbackKeepsOk | hostd/src/net/state.rs:145-186 | so do rollback and release |
| NetLaws.AddressesExclusive | hostd/src/net/types.rs:138-143 | no two VMs share an address or MAC, and none has a network, gateway or broadcast address of any project |
| NetLaws.ProjectSubnetsDisjoint | hostd/src/net/state.rs:103-106 | project subnets are disjoint ranges of the supernet |
| NetLaws.AllocFailsIff | hostd/src/net/state.rs:84-114 | an allocation fails if and only if the VM is there already, its project holds `size - 3` VMs, every subnet is held, or the bridge name is too long; a failure changes nothing |
| NetLaws.BridgeNameTooLongIff | hostd/src/net/state.rs:108-113 | the name is too long exactly for project ids of more than eleven digits |
| NetLaws.RollbackUndoesAlloc | hostd/src/net/state.rs:144-152 | allocate then roll back restores the exact state |
| NetLaws.ReleaseUndoesAlloc | hostd/src/net/state.rs:154-186 | allocate then release does too, and tears down exactly what was set up |
| NetLaws.AllocDetermined | hostd/src/net/state.rs:76-142 | the answer depends on the state alone, so a freed address or subnet is handed out again |
| HostNets.HostNet.EnsureBridge | hostd/src/net/host.rs:51-93 | a command that may fail late, logged with its outcome |
| HostNets.HostNet.EnsureTap | hostd/src/net/host.rs:192-199 | likewise, needing its bridge |
| HostNets.HostNet.Delete | hostd/src/net/host.rs:95-207 | deletion of a device if it is there, logged with its outcome |
| HostNets.ReplayLast | hostd/src/net/host.rs:1-3 | a device is on the host as its latest command left it |
| NetManagers.NetworkManager.Allocate | hostd/src/net/manager.rs:57-85 | exactly which commands are issued and what the state becomes, on success, refusal, host failure and failed write, the last if and only if a write did fail |
| NetManagers.NetworkManager.Release | hostd/src/net/manager.rs:92-109 | the VM leaves the state, its TAP is deleted, and with the project's last VM its bridge; no other command is issued, and it fails exactly when the write does |
| NetManagers.NetworkManager.ReconcileOnStartup | hostd/src/net/manager.rs:115-149 | on any loaded state, every device it claims and every bridge on the host is deleted, nothing else is touched, and the state is empty |
| NetClaims.RemoveClaims | hostd/src/net/manager.rs:97-104 | a VM taken away unclaims its own TAP and no other, and the bridge exactly when the project goes |
| NetRuns.StepSettles | hostd/src/net/manager.rs:57-109 | each operation sets up exactly the devices it claims and deletes exactly those it gives up or fails to set up |
| NetRuns.RunAccounted | hostd/src/net/manager.rs:57-109 | in every run the devices on the host are those claimed, those whose latest deletion failed, and those found at the start and never named |
| NetRuns.DevicesAreClaimed | hostd/src/net/manager.rs:57-109 | if every deletion succeeded, they are exactly those claimed |
| NetRuns.LeftoversAreStuck | hostd/src/net/manager.rs:100-107 | otherwise what is left over is exactly what failed deletions left |
| NetRuns.ReconcileLeaves | hostd/src/net/manager.rs:111-149 | after a restart a bridge or a claimed TAP is left only by a failed deletion, and an unclaimed TAP stays |
| NetRestarts.UnclaimedTaps | hostd/src/net/manager.rs:33-149 | over any number of lives, each cut off anywhere, also in the middle of an operation or of a start, an unclaimed TAP is on the host if and only if its latest deletion failed, or it was found at first and never named, or some start met it with a state file that did not claim it and no command named it since |
| NetRestarts.UnwrittenIsForgotten | hostd/src/net/manager.rs:69-84 | an allocation whose write fails or never comes leaves a TAP that the next start forgets |
| NetRestarts.ForgottenWitness | hostd/src/net/manager.rs:57-149 | a run that does so on every supernet hostd accepts: start, allocate, failed write, start |
| BlockWorkers.DoKeepsInv | hostd/src/storage/manager.rs:193-288 | every step of attach, monitor, detach and the processes keeps the map entry and the live worker in step |
| BlockWorkers.OneLiveWorker | hostd/src/storage/manager.rs:12-22 | a VM never has two live workers |
| BlockWorkers.NoneLeft | hostd/src/storage/manager.rs:219-286 | when the monitor has ended, no worker is left |
| BlockWorkers.DetachFindsWorker | hostd/src/storage/manager.rs:121-128 | the signal of a detach never misses a worker the monitor waits on |
| BlockWorkers.DetachKills | hostd/src/storage/manager.rs:121-128 | a detach and its signal leave no entry and no live worker |
| BlockWorkers.DetachTakesReapedIff | hostd/src/storage/manager.rs:121-128 | the entry names a process already collected exactly when the monitor does not wait on a worker of its own |
| BlockWorkers.ReapedWitness | hostd/src/storage/manager.rs:121-128 | a run in which a worker dies, is collected, and a detach takes its id |
| BlockWorkers.BoundedAttempts | hostd/src/storage/manager.rs:211-281 | at most `MAX_RESPAWNS` spawns are attempted, failed ones counted |
| BlockWorkers.GivesUpAtLimit | hostd/src/storage/manager.rs:211-218 | while the VM is attached the monitor gives up only after exactly that many |
| BlockWorkers.RespawnReplaces | hostd/src/storage/manager.rs:196-281 | below the limit, a worker that dies is replaced by a live one that the entry names, if the spawn succeeds |
| BlockWorkers.MonitorTerminates | hostd/src/storage/manager.rs:196-286 | a measure that falls with every step of the monitor and rises with no step |
| BlockWorkers.DetachedMonitorEnds | hostd/src/storage/manager.rs:205-261 | after a detach the monitor ends in three steps, its respawned worker with it |
| Workloads.Workload.MarkRunning | hostd/src/vmm/workload.rs:122-130 | the record in place follows the specification function |
| Workloads.Workload.MarkFinished | hostd/src/vmm/workload.rs:133-145 | likewise, a finished record staying as it is |
| Workloads.Workload.MarkFailed | hostd/src/vmm/workload.rs:148-153 | likewise |
| Workloads.GuestView.HandleGuestEvent | hostd/src/vmm/firecracker/guest.rs:192-271 | one event changes the whole table of records as specified, a `list` answer line by line |
| WorkloadSync.EventKeeps | hostd/src/vmm/firecracker/guest.rs:192-271 | an event that tells guestd's truth keeps every record true, moves it only forward and has the effect it reports; an exit lands in stopped exactly when a stop was requested |
| WorkloadSync.RecordsAgree | guestd/src/agent.rs:213-269 | under any loss, repetition and reordering a shown exit code or signal is guestd's, and a finished record equals guestd's entry |
| WorkloadSync.RecordsMoveForward | hostd/src/vmm/workload.rs:117-153 | records move only forward, and a finished one keeps its result |
| WorkloadSync.ListResyncs | hostd/src/vmm/firecracker/guest.rs:247-261 | a `list` answer written after the process was reaped settles the record at guestd's result, unless it had been marked failed |
| WorkloadSync.FailedIffErrorHit | hostd/src/vmm/firecracker/guest.rs:236-246 | in every run a record is failed if and only if an error guestd wrote about it reached it while it was active |
| WorkloadSync.ErrorIffStopMissed | guestd/src/agent.rs:115-200 | of a spawned workload guestd wrote an error if and only if it handled a stop before the start |
| WorkloadSync.ShowsResultIff | hostd/src/vmm/workload.rs:133-153 | a finished record shows guestd's result if and only if no error reached it while it was active |
| WorkloadSync.StopOvertakesStart | guestd/src/agent.rs:188-200 | a run with a record failed for good while the process runs |
| WorkloadStops.FlagIffStopStands | hostd/src/vmm/firecracker/vmm.rs:548-585 | in every run a record is marked for a stop if and only if a stop request met it active and no stop request about it failed to be queued since |
| WorkloadStops.StoppedIff | hostd/src/vmm/workload.rs:133-145 | a finished record that did not fail is shown as stopped if and only if that held when its end was applied |
| WorkloadStops.NeverAskedNeverStopped | hostd/src/vmm/workload.rs:133-145 | a workload that nobody asked to stop is never shown as stopped |
| WorkloadStops.ExitIsShown | hostd/src/vmm/firecracker/guest.rs:226-235 | an exit that guestd reports ends an active record with exactly its result |
| WorkloadStops.StartIsShown | hostd/src/vmm/firecracker/guest.rs:200-205 | a start it reports shows the record running with its process id |
| WorkloadStops.StoppedWitness | hostd/src/vmm/firecracker/vmm.rs:548-585 | a run from the request to a record shown as stopped by signal 15 |
| Connections.SlotIsNewestOpen | hostd/src/vmm/firecracker/guest.rs:164-172 | the stored handle is the newest connection's, exactly while that one is open |
| Connections.ConnectionSlot.Clear | guestd/src/agent.rs:75-80 | a closing connection clears the slot only if it is its own |
| Forest.VisitMembers | webapp/server/src/state.ts:197-209 | `descendants` lists exactly the transitive branches |
| Forest.VisitOrder | webapp/server/src/state.ts:190-209 | each once, and before every project it hangs under |
| Forest.Registry.NewProject | webapp/server/src/state.ts:126-149 | both ids are new, and no database id is a project id or another's |
| Forest.Registry.Descendants | webapp/server/src/state.ts:197-209 | the nested loops push the specified list, and end |
| Forest.Registry.Delete | webapp/server/src/provision.ts:331-355 | when nothing interrupts it: the project and its branches not being deleted elsewhere are cleaned, children first, and removed; each namespace is cleaned with exactly the earlier ones gone, so that only projects being deleted depend on it |
| Forest.CascadeStep | webapp/server/src/provision.ts:341-343 | each turn of the cascade removes one project nothing else depends on |
| Forest.CleansFreeOnly | webapp/server/src/provision.ts:341-354 | no namespace in the list that an uninterrupted delete cleans has a dependent that is not itself being deleted |
| Forest.LiveKeepTheirSources | webapp/server/src/provision.ts:321-355 | an uninterrupted delete never takes the source of a live project |
| Forest.DeleteKeepsRootedIff | webapp/server/src/provision.ts:321-355 | after an uninterrupted delete every registered branch's source is registered, of those being deleted too, if and only if no branch was being deleted elsewhere |
| ForestRuns.DoKeepsInv | webapp/server/src/provision.ts:331-355 | whatever turns the deletes, branch requests and ends of provisionings take: every branch of a project being deleted is on its list, being deleted, or was registered too late or lost its mark |
| ForestRuns.Requests | webapp/server/src/routes.ts:357-379 | a branch is registered exactly of a project that is ready, and a failed provisioning leaves one that is not |
| ForestOrphans.OrphansAreExceptions | webapp/server/src/routes.ts:357-379 | in every run, a live project whose source is gone was registered while a delete of the source went on, or had its mark overwritten |
| ForestOrphans.CleanedUnder | webapp/server/src/state.ts:190-209 | in every run, a live project that depended on a namespace when it was cleaned did so through such a project |
| ForestOrphans.QuietRunsAreSafe | webapp/server/src/state.ts:190-209 | a run without such projects keeps every live project's source and cleans no namespace with a live dependent |
| ForestRaces.AloneIsSerial | webapp/server/src/provision.ts:331-355 | from any state of any run, a delete whose own turns run alone ends, with the effect of the uninterrupted one and no other |
| ForestRaces.BranchIsLostIff | webapp/server/src/routes.ts:369-379 | after any run, the deletes going on can take the source of a branch registered now if and only if one of them is deleting that source |
| ForestRaces.RevivalReopens | webapp/server/src/provision.ts:271-277 | a provisioning that ends well while its project is being deleted opens it to branches that lose it |
| ForestWitness.BranchLosesItsSource | webapp/server/src/provision.ts:341-344 | a run in which a live branch is left without its source, whose namespace was cleaned under it |
| Schedules.Crossings | hostd/src/vmm/firecracker/schedule.rs:85-97 | windows seen minus setbacks of the clock across a time depend on the first and last readings only |
| Schedules.WindowsTileTimeIff | hostd/src/vmm/firecracker/schedule.rs:85-97 | a time since the start lies in exactly one window if and only if the clock was never set back across it |
| Schedules.SteadyWindowsTile | hostd/src/vmm/firecracker/schedule.rs:85-97 | with a clock that never goes back every time since the start lies in exactly one window, and no other time in any |
| Schedules.SetBackFiresTwice | hostd/src/vmm/firecracker/schedule.rs:103-129 | readings 0, 5, 2 and 6: the only occurrence, at 4, lies in two windows, and is due at the first and the third tick |
| Schedules.NextIsDue | hostd/src/vmm/firecracker/schedule.rs:124-129 | the first occurrence is not in the future if and only if the window holds one |
| Schedules.Scheduler.Tick | hostd/src/vmm/firecracker/schedule.rs:103-157 | the VMs due are those with an occurrence in the window, each launched unless its run is still going |
| Schedules.RunsApart | hostd/src/vmm/firecracker/schedule.rs:135-157 | over every run of ticks and ended runs, a VM is launched again only after its last run has ended |
| ShellQuotes.LexEscaped | webapp/server/src/tikoenv.ts:74-76 | a quoted string reads back as itself, whatever follows |
| ShellQuotes.PrintedSplit | webapp/server/src/tikoenv.ts:84-89 | printing the lines, each with a newline, gives the text and one newline |
| ShellQuotes.ScriptWords | webapp/server/src/tikoenv.ts:84-96 | the shell hands `printf` its format and exactly the lines, and its output to the file |
| ShellQuotes.WrittenContent | webapp/server/src/tikoenv.ts:84-96 | what is written is the content trimmed at its end plus a newline; the content itself if and only if it ends that way |

## Left out

General:

- UTF-8 decoding, JWTs, sockets, logging, HTTP routing and serialization formats are left out; text is bytes or characters as the component needs. Poisoned locks are modelled only where a modelled panic causes them.
- Commands, system calls, library answers and the clock are arbitrary outcomes or parameters.

Volume:

- Volumes.Volume.DoIo: a failed host write changes nothing and a read returns all bytes up to the end of the file, because partial results of one call are the file system's; the 64-bit overflow of `off + len` is not modelled.
- Volumes.Volume.Flush: writers and other flushes do not run beside it; those interleavings are in `FlushRaces`, which keeps versions of a chunk instead of its bytes.
- Volumes.Volume.Open: any positive chunk size is allowed, where `create` accepts only powers of two from 4096 on; the theorems need no more.
- An open file is named by its chunk index, as chunk files are never deleted or renamed; `meta.json` and the path of a chunk file are left out.

Startup rewriting:

- Startup.RewriteAllTwice: the negotiation loop, the token's verification and the byte splice are not part of this model.

Lifecycle:

- Lifecycle.Do: `create_vm` is only its last step, destroying a VM is one step that unregisters it and forgets its activity, and the configuration, workload and cooldown checks of the gate are an arbitrary answer; the HTTP idle timer only triggers the gate, so it is left out.
- Lifecycle.OneOperationInFlight: its runs have no handler dropped at an await; what such a drop leaves is in `LifecycleDrops`.
- LifecycleDrops.Drop: `create_vm` and `destroy_vm` are not among the handlers dropped. A `destroy_vm` dropped while it waits for the process has unregistered the VM, and then never releases its address or detaches its worker; a `create_vm` dropped during its set-up keeps what it had allocated.
- Lifecycle.OneWaker: a wake lock made anew after the VM was destroyed is not modelled; its holder finds the VM gone.
- It is a step system and not a class, because its point is what concurrent tasks do between lock scopes.
- Activities.ActivityTracker.DropGuard: for a VM forgotten and tracked again, an old guard's drop lowers the new count; the contract then promises an upper bound only.

Address allocation:

- NetStates.NetState.Alloc: the caller supplies VM ids not used in another project; hostd's ids are random and name their project.
- HostNets.HostNet.Delete: a deletion that reports success has removed the device. The source also reports success when its look-up cannot be issued; that a look-up can fail to see a device is not modelled.
- NetManagers.NetworkManager.Allocate: NAT rules and bridge addresses are part of the bridge; only hostd touches devices with its prefixes.
- NetManagers.NetworkManager.ReconcileOnStartup: the subnet of a loaded project only fills in rules to be removed; that computing it can overflow, and then stops a build with overflow checks, is not part of the method.
- Parsing of dotted addresses is left out; exposed ports are a checked list.

Block workers:

- BlockWorkers.NoneLeft: process ids never recur. The map entry really keeps an id already collected, through the back-off and for ever after the respawn limit, and what a signal to it then reaches is the system's choice (`DetachTakesReapedIff` says when). A failed spawn leaves no process; formatting the volume and deleting the device are left out.

Workloads:

- WorkloadSync.RecordsAgree: one id is started at most once, as ids are random; output events and idle events change no record.
- The record of a start whose request could not be queued is removed by hostd; that path is left out.

Forest:

- Forest.Registry.Delete: no other request takes a turn during it, other deletes showing only as projects already marked; the interleavings are in `ForestRuns`.
- ForestRuns.Do: its steps are finer than the code between two awaits, which only adds runs; a branch request is registration alone, each namespace is cleaned at the moment its project is marked, and VMs, slugs and expiry times are left out.

Schedules and quoting:

- Schedules.Scheduler.Tick: the cron grammar is the library's; what a run does between launch and end is left out.
- ShellQuotes.Lex: unquoted expansion, comments and operators other than the redirection end the modelled grammar, and the file's ownership change is left out. Content with NUL bytes cannot be an argument.
