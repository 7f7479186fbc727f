# SafeLink: a verified model

This project models the parts of the SafeLink client and server whose correctness depends on
interleavings, partial I/O or agreement between several functions, and proves what they promise.
Sockets, processes, timers, the file system and the JSON/YAML layers are nondeterministic outcomes:
every theorem about a run quantifies over all of them.

| file | models |
|---|---|
| `BatchDeadline.dfy` | the batch latency test's deadline, as list scheduling over a pool of workers |
| `BatchResults.dfy` | the batch latency test from the application call down to the worker pools: one final result and one callback per node |
| `Framing.dfy` | the VPN packet framing: padding arithmetic, the codec, both pipe loops over reused buffers |
| `TerminalInput.dfy` | SSH terminal input: browser queue, batch call, session lock, partial writes |
| `MobileRuns.dfy` | run records of the mobile core under start, stop and asynchronous run exit |
| `CoreRunner.dfy` | the sing-box runner: start, stop, exit watcher and degraded retry |
| `DesktopManager.dfy` | the desktop tunnel manager with serialised callers and runs that exit at any moment |
| `DesktopInterleavings.dfy` | the same manager with any number of callers at once, section by section and with the mutex between sections |
| `Supervisor.dfy` | the reconnect loop: its trace language and its backoff |
| `Sources.dfy` | subscription sources and the single-enabled-source rule |
| `NodeStore.dfy`, `RefreshOrder.dfy`, `ActiveNodes.dfy`, `ProxyStore.dfy` | stored proxy nodes: indexed upsert, refresh and its order, the active list, and whole runs of the store |
| `RenamedSources.dfy` | which stored nodes stay listed when a source is renamed and its fetch fails |
| `ProxyRules.dfy`, `ProxyRoute.dfy`, `DegradedRoute.dfy`, `RawRules.dfy` | rule normalisation and validation, the compiler from rules to a route, when the route without rule sets decides alike, and that routes decide as the rules were written |
| `TrafficRuntime.dfy` | live VPN clients and 64-bit traffic counters |
| `Gateway.dfy` | gateway derivation on the client and the server's own address |
| `HostPort.dfy`, `ClashCodec.dfy` | host:port splitting and the Clash subscription encoding |
| `Wrappers.dfy`, `Finite.dfy`, `Text.dfy`, `Decimal.dfy`, `StableSort.dfy`, `ByteChunks.dfy` | shared helpers |

Concurrency is modelled by step functions over explicit states; a run is a list of events, and an
event that is not enabled changes nothing, so a theorem about all event lists is a theorem about all
interleavings. Code that updates fields, slices or buffers is a class or a method over arrays, proved
against the same step functions.

Findings, each with its exact condition:

- A list of packets comes back whole if and only if every packet is within 65532 bytes with padding,
  65535 without (`Framing.ListRoundTripIff`); a frame read with the other padding setting leaves the
  loop aligned only when it needs no padding (`Framing.PaddingMismatchDesynchronises`).
- The name index and a linear search agree if and only if no name is stored twice
  (`NodeStore.IndexAgreesIff`).
- A refresh takes over a node of another source whose name it produces; the other sources are
  untouched if and only if no name clashes (`NodeStore.OthersUntouchedIff`, `NodeStore.NoClashIff`),
  and clashes can be received (`NodeStore.ClashHappens`).
- The single-enabled rule holds throughout a run if and only if no update enables a second source of
  its kind (`Sources.RuleInEveryStateIff`); a refresh that finds the other kind can do that
  (`Sources.KindChangeBreaksRule`).
- Two mobile runs of one name never overlap if and only if every accepted start waits for a stopped
  run to end (`MobileRuns.NoOverlapIff`).
- With concurrent callers a desktop tunnel never has two live runs if and only if no start goes through
  while a stopped run is still live, for bare sections and under the mutex alike
  (`DesktopInterleavings.OneRunEachIff`, `DesktopInterleavings.LockedOneRunEachIff`); otherwise a run can be
  orphaned for good (`DesktopInterleavings.ConcurrentStartIsOrphaned`, `DesktopInterleavings.OrphanStays`).
- The runner's degraded retry is refused if and only if some process is live
  (`CoreRunner.RetryRefusedIff`), which needs a concurrent caller (`CoreRunner.ConcurrentRetryRefused`).
- After a rename whose fetch fails, a stored node drops out of the active list if and only if what the
  new prefix leaves of the old one holds a keyword of informational entries
  (`RenamedSources.HiddenIff`, `RenamedSources.StaysListedIff`); a source whose name has no plain
  character loses all its nodes that way (`RenamedSources.RenameHidesAll`).
- The route without rule sets decides like the full one in every engine if and only if from the first
  enabled rule set on every reachable rule goes to the proxy (`DegradedRoute.DegradedAlwaysAgreesIff`).
- The gateway leaves the subnet for prefixes with fewer than two host bits, except for the lower
  address of a pair (`Gateway.GatewayInSubnetIff`).
- The reconnect loop never waits if and only if the initial backoff is zero, as in the mobile core
  (`Supervisor.ZeroDefaultsNeverWait`).

## Model

| member | source | states |
|---|---|---|
| BatchDeadline.ProbeWithinTimeout | client/internal/proxycore/core.go:1227-1249 | the budgets of a probe's two races sum to exactly the timeout, so a probe whose races keep their budgets keeps the timeout |
| BatchDeadline.ScheduleBound | client/internal/proxycore/core.go:1043-1073 | in every schedule of n probes on min(32, n) work-conserving workers, at most ceil(n / W) timeouts have passed while a probe is unfinished |
| BatchDeadline.BoundAttained | client/internal/proxycore/core.go:1043-1073 | the bound is exact: some schedule keeps a probe running until that moment |
| BatchDeadline.DeadlineSufficesIff | client/internal/proxycore/core.go:966-968 | the batch context outlives every schedule if and only if core start-up took at most the 5 s allowance |
| BatchResults.Progress.OnResult | client/app.go:735-742 | each callback appends one event carrying its result, the next count and the total |
| BatchResults.FinishPending | client/internal/proxycore/core.go:1082-1094 | pending results get the error and are delivered, final ones are untouched, and a nil error changes nothing |
| BatchResults.TestTcpNodes | client/internal/proxycore/core.go:882-914 | for every order of dispatches and completions, exactly the given indexes are filled, each delivered once: ok exactly when the node's own probe answered, then with its latency and no error, otherwise with its error |
| BatchResults.CollectCoreProbes | client/internal/proxycore/core.go:1043-1079 | the same for the core pool with its report channel and single collector |
| BatchResults.BuildOutbounds | client/internal/proxycore/core.go:940-962 | nodes without an outbound fail at once with their reason, exactly the others stay pending |
| BatchResults.TestNodesWithCore | client/internal/proxycore/core.go:916-1080 | on every exit path result i shows, under node i's name, the first of preflight error, bad address, unsupported protocol, launch error, or its own probe's latency or error; it is delivered exactly once |
| BatchResults.Partition | client/internal/proxycore/core.go:855-868 | invalid nodes fail at once; TCP and core nodes are listed by index, core nodes with their rank |
| BatchResults.Scatter | client/internal/proxycore/core.go:873-877 | sub-batch results land at their selected indexes and nothing else changes |
| BatchResults.TestNodes | client/internal/proxycore/core.go:834-879 | result i, under node i's name: the address error, what its own TCP probe said, or the shared-core outcome for its rank among the core nodes; ok exactly when the probe answered, with its latency; delivered exactly once |
| BatchResults.RunnerTestNodes | client/internal/proxycore/core.go:411-431 | the same behind the test slots; without a slot every node fails with the context's error |
| BatchResults.NodeResultTells | client/internal/proxycore/core.go:834-1080 | what a node's result shows in terms of its slot, address, protocol, core run and probe, the rank of a core node being the number of core nodes before it |
| BatchResults.MergeExactlyOnce | client/internal/proxycore/core.go:873-877 | exactly-once composes: delegating what is pending to a sub-batch that keeps the rule keeps it |
| BatchResults.ExactlyOnceIsPermutation | client/internal/proxycore/core.go:1082-1094 | the callback's results are the returned results in some order, as multisets |
| BatchResults.FoundAt | client/app.go:746-757 | the node found for a name sits, in the list sent to the runner, at the count of names found before it |
| BatchResults.NameResultTells | client/app.go:708-767 | what a name's result shows: not found exactly when no active node bears it, otherwise the batch outcome of the first one that does |
| BatchResults.ResolveNames | client/app.go:744-757 | unknown names fail as not found and are delivered; the others are paired with their active node, in order |
| BatchResults.TestProxyNodes | client/app.go:708-767 | under each trimmed name, at its position: not found, or the outcome of the first active node of that name, ok exactly when its probe answered, with its latency; events count 1, 2, ..., total and carry each result once |
| BatchResults.ProxyTestBatchFailure | client/app.go:777-784 | on an early failure every name gets the error, with events 1 to total |
| Framing.PaddedFrameIsLeast | pkg/protocol/frame.go:15-21 | the padded frame is the least multiple of 128 that holds header and payload |
| Framing.PaddedFrameSize | pkg/protocol/frame.go:15-21 | the total is a multiple of the block size, at least n + 4 and below n + 4 + 128 |
| Framing.PaddingLen | pkg/protocol/frame.go:24-26 | padding is below one block |
| Framing.ReceiveBufferBound | server/internal/vpnserver/server.go:216-233 | payload and padding fit the 65536-byte buffer exactly up to 65532 bytes with padding, and for every admitted length without |
| Framing.HeaderRoundTrip | server/internal/vpnserver/server.go:196-197 | the big-endian length header decodes to what was encoded |
| Framing.FrameIs | pkg/protocol/frame.go:15-26 | the frame is the length with its highest byte first, the packet, and with padding zeros up to the next multiple of 128 |
| Framing.ReceiveFrame | client/internal/tunnel/vpn.go:290-314 | a whole frame is decoded and leaves the loop aligned on the next |
| Framing.ReceivePartialFrame | client/internal/tunnel/vpn.go:290-314 | a frame cut anywhere yields nothing |
| Framing.WholeFramesIsLargest | client/internal/tunnel/vpn.go:290-314 | the number of packets delivered from a prefix is the largest k whose k frames fit into it |
| Framing.RoundTripUnderTruncation | client/internal/tunnel/vpn.go:261-314 | from any prefix of the wire the receiver gets exactly the packets whose whole frame lies in it, unchanged and in order |
| Framing.SinglePacketRoundTripIff | server/internal/vpnserver/server.go:186-241 | a packet comes back from the wire if and only if it is within the size bound |
| Framing.ListRoundTripIff | client/internal/tunnel/vpn.go:261-314 | a list of packets comes back whole if and only if every packet is within the bound |
| Framing.PaddingMismatchDesynchronises | pkg/protocol/frame.go:15-26 | for every packet the reader's own setting accepts, and all settings, the loop is aligned on whatever follows if and only if both ends use the same setting or the frame needs no padding |
| Framing.ReadFull | server/internal/vpnserver/server.go:219-232 | reads exactly n bytes whatever the chunking, or fails and drains the stream |
| Framing.VpnPipe.NextPacket | client/internal/tunnel/vpn.go:293-306 | one turn of the loop consumes exactly one frame, or stops where the codec stops |
| Framing.VpnPipe.PipeQuicToTun | client/internal/tunnel/vpn.go:290-314 | the TUN gets exactly the decoded packets up to its first failing write; the counter is the sum of their lengths plus the failed one |
| Framing.VpnPipe.WriteFrame | server/internal/vpnserver/server.go:196-212 | header, payload and padding reach the stream as one frame, cut only where the stream breaks |
| Framing.VpnPipe.PipeTunToQuic | server/internal/vpnserver/server.go:186-214 | what reaches the stream is the wire image of the packets read, cut where it breaks; the counter covers every packet read |
| Framing.EndToEnd | client/internal/tunnel/vpn.go:261-314 | both loops over a stream cut anywhere and delivered in any chunks: the far TUN gets exactly the whole packets, counted exactly |
| TerminalInput.InputClosure.FlushInputQueue | client/frontend/src/App.tsx:2757-2781 | starts a flush of the whole queue unless one is active or the terminal is disposed |
| TerminalInput.InputClosure.QueueTerminalInput | client/frontend/src/App.tsx:2782-2788 | appends the payload and triggers a flush |
| TerminalInput.InputClosure.OnReply | client/frontend/src/App.tsx:2762-2774 | after a successful batch the loop takes the next one, after a failed one the queue is dropped |
| TerminalInput.InputClosure.OnFinally | client/frontend/src/App.tsx:2775-2780 | the flag is cleared and a non-empty queue re-fires the flush |
| TerminalInput.InputClosure.OnDispose | client/frontend/src/App.tsx:2901-2903 | disposal drops the queue and stops later flushes |
| TerminalInput.WriteAll | client/internal/sshsession/manager.go:370-382 | success means everything was written, an error means a prefix was |
| TerminalInput.WriteChunks | client/internal/sshsession/manager.go:126-139 | the chunks are written in order under one lock; on an error a prefix of their concatenation |
| TerminalInput.SingleFlightNoLostWakeup | client/frontend/src/App.tsx:2757-2788 | in every interleaving at most one batch is in flight, and a non-empty queue has a flush at work |
| TerminalInput.InputAccepted | client/frontend/src/App.tsx:2782-2788 | every keystroke before a close is accepted, only a close closes the terminal, and only a failing call counts as a failure |
| TerminalInput.FifoDelivery | client/app.go:332-353 | delivered ++ in flight ++ queued is what was typed while no write failed and the terminal is open, and a subsequence of it always |
| TerminalInput.FailureDropsQueue | client/frontend/src/App.tsx:2764-2773 | when the browser learns that a batch failed, nothing is queued or in flight any more and what was delivered stays |
| TerminalInput.AfterFailureOnlyNewInput | client/frontend/src/App.tsx:2764-2773 | whatever happens later, what is delivered is what had been delivered plus input typed after that answer, in order: all of it unless another call fails or the terminal is closed |
| TerminalInput.ClosedForGood | client/frontend/src/App.tsx:2901-2903 | after a close nothing is accepted or queued, and only what was in flight can still be delivered |
| TerminalInput.OtherCallsKept | client/internal/sshsession/manager.go:126-139 | until one of their writes fails, the other callers' calls are waiting, being written or written in full, each once |
| TerminalInput.CallsDoNotInterleave | client/internal/sshsession/manager.go:126-139 | the PTY holds whole calls in lock order, then at most the holder's written part |
| TerminalInput.InternalStepsDecrease | client/internal/sshsession/manager.go:370-382 | every internal step that changes anything uses up work |
| TerminalInput.ComesToRest | client/frontend/src/App.tsx:2757-2788 | from every reachable state some internal, failure-free events, no more than the work left, reach rest with the same input and no new failure; everything typed is then delivered unless a write had failed or the terminal was closed |
| TerminalInput.RestMeansDelivered | client/frontend/src/App.tsx:2757-2788 | at rest nothing is queued, waiting or locked, and without a failure everything typed has been delivered |
| MobileRuns.SingleLiveRun | client/mobilecore/mobilecore.go:454-527 | in every interleaving at most one record per name holds a cancel function, and it is the one in the map |
| MobileRuns.ClaimedOnce | client/mobilecore/mobilecore.go:508-527 | a record without a cancel function was claimed by exactly one stopper or its run ended |
| MobileRuns.FinishedIsPermanent | client/mobilecore/mobilecore.go:498-504 | a finished run's record is (nil, stopped) for ever, whatever happens later |
| MobileRuns.NoOverlapIff | client/mobilecore/mobilecore.go:454-527 | no moment of a run has two unfinished runs of one name if and only if every accepted start finds no record, one still holding its cancel function, or one whose run has ended |
| MobileRuns.OverlapOnlyAfterStop | client/mobilecore/mobilecore.go:454-527 | of two unfinished runs of one name a stopper has claimed one |
| MobileRuns.OverlapHappens | client/mobilecore/mobilecore.go:454-527 | such an overlap is reachable: start, stop, start |
| MobileRuns.Core.StartTunnel | client/mobilecore/mobilecore.go:454-506 | an uncancelled run is kept and otherwise a new record takes its place; the reply is that record, whose state is read after the lock is released |
| MobileRuns.StartedShowsAny | client/mobilecore/mobilecore.go:486-505 | by the time the reply reads it, the new run's record can show any state |
| MobileRuns.StartLeaves | client/mobilecore/mobilecore.go:466-487 | an accepted start without an uncancelled run under its name enters a fresh connecting record; any other start changes nothing |
| MobileRuns.StopLeaves | client/mobilecore/mobilecore.go:508-527 | a stop takes the cancel function of the named record only and shows it as stopped |
| MobileRuns.ReportLeaves | client/mobilecore/mobilecore.go:488-497 | a report changes its own record only; an error is kept until the next error or running report |
| MobileRuns.ExitLeaves | client/mobilecore/mobilecore.go:498-504 | the end of a run shows its own record only as stopped, without a cancel function |
| MobileRuns.Core.StopTunnel | client/mobilecore/mobilecore.go:508-527 | the cancel function is taken and the record marked stopped; unknown names are reported |
| MobileRuns.Core.OnStateChange | client/mobilecore/mobilecore.go:488-497 | a report updates state and last error of its own record only |
| MobileRuns.Core.RunExit | client/mobilecore/mobilecore.go:498-504 | the exit section clears cancel and state of its own record only |
| CoreRunner.Runner.StartLocked | client/internal/proxycore/core.go:200-267 | refused while a process is recorded; otherwise all fields are set together |
| CoreRunner.Runner.WatcherLocked | client/internal/proxycore/core.go:269-287 | only the current process clears the fields; it shows error exactly for a failing exit nobody asked for, stopped otherwise |
| CoreRunner.Runner.FailLocked | client/internal/proxycore/core.go:289-311 | a failed start shows as error under its node and touches nothing else |
| CoreRunner.Runner.StopLocked | client/internal/proxycore/core.go:314-327 | stop captures the recorded cancel function and done channel together |
| CoreRunner.AtMostOneProcess | client/internal/proxycore/core.go:177-327 | in every interleaving at most one process is live and it is the recorded one, with cmd, cancel and done set together |
| CoreRunner.RunningMeansRecorded | client/internal/proxycore/core.go:200-287 | running is shown only while a live process is recorded; nothing recorded means nothing live |
| CoreRunner.DoneClosedOnce | client/internal/proxycore/core.go:269-287 | one watcher per process closes its done channel at most once, after the process is dead, and it stays closed |
| CoreRunner.ReapShows | client/internal/proxycore/core.go:269-287 | in every interleaving a process reaped is the recorded one, and the state becomes error exactly if it failed and had not been cancelled, and stopped otherwise |
| CoreRunner.AskedForMeansStopped | client/internal/proxycore/core.go:269-327 | a process that ends while a stop or a start that gave up waits for it shows as stopped, whatever it reports |
| CoreRunner.StartShows | client/internal/proxycore/core.go:200-267 | a start that finds no process and spawns one shows running under its node; any other leaves fields and processes alone, and only a failed first start may retry |
| CoreRunner.FailureShows | client/internal/proxycore/core.go:289-311 | a start that waited in vain shows error under its node, and retries exactly if it ran with rule sets and they were what failed |
| CoreRunner.OnlyTheseShow | client/internal/proxycore/core.go:177-327 | no other step changes what is shown |
| CoreRunner.StopRunsThrough | client/internal/proxycore/core.go:314-327 | a stop that finds a process can run through from every reachable state, and ends with nothing recorded and stopped shown |
| CoreRunner.StopFindsNothing | client/internal/proxycore/core.go:314-327 | a stop that finds no process is over at once |
| CoreRunner.GiveUpRunsThrough | client/internal/proxycore/core.go:289-311 | a start that gives up can run through to its report from every reachable state |
| CoreRunner.StopWaitsForItsProcess | client/internal/proxycore/core.go:314-327 | stop returns only after the process it captured has been reaped |
| CoreRunner.RetryNeverRefused | client/internal/proxycore/core.go:177-197 | with serialised callers the degraded retry finds no process recorded and spawns the next |
| CoreRunner.SerialStopLeavesNothing | client/internal/proxycore/core.go:314-327 | with serialised callers nothing is live and running is not shown when stop returns |
| CoreRunner.SerialStopShows | client/internal/proxycore/core.go:269-327 | with serialised callers the state in which stop returns is error exactly if its process had failed before anybody cancelled it, and stopped otherwise |
| CoreRunner.RetryRefusedIff | client/internal/proxycore/core.go:177-197 | in every interleaving a due retry is refused if and only if some process is live |
| CoreRunner.ConcurrentRetryRefused | client/internal/proxycore/core.go:177-197 | such a retry is reachable with a second caller |
| DesktopManager.Manager.StartTunnel | client/internal/manager/manager.go:367-422 | starts exactly when the tunnel exists, has no cancel function and its client builds; the lock is released on every path |
| DesktopManager.Manager.TakeCancel | client/internal/manager/manager.go:462-487 | a stop cancels the run it finds and releases the lock before waiting |
| DesktopManager.Manager.RunExit | client/internal/manager/manager.go:424-456 | the exit section clears the tunnel's cancel function, whoever's it is |
| DesktopManager.OneLiveRun | client/internal/manager/manager.go:168-252 | never two live runs of one tunnel |
| DesktopManager.CancelMeansLive | client/internal/manager/manager.go:367-487 | between calls a tunnel's cancel function is set exactly when it has a live run, and is that run's |
| DesktopManager.StopReturnsDrained | client/internal/manager/manager.go:217-244 | when stop or delete returns the tunnel has no live run |
| DesktopManager.RestartStartsOnce | client/internal/manager/manager.go:247-252 | restart, or update after a save, starts exactly once: at once, or when its wait is over |
| DesktopManager.WaitEndsInOneStart | client/internal/manager/manager.go:192-214 | a wait that is to end in a start makes exactly one, live and never skipped |
| DesktopManager.NoStartWhileWaiting | client/internal/manager/manager.go:462-487 | nothing is started while a caller waits |
| DesktopManager.WaitCanEnd | client/internal/manager/manager.go:462-487 | the two remaining steps of the run a caller waits for are enabled, and they end the wait |
| DesktopManager.AddLeaves | client/internal/manager/manager.go:168-189 | a valid tunnel under a new name is kept with its configuration if it can be saved, and started if it can be; otherwise no name and no run is added |
| DesktopManager.UpdateLeaves | client/internal/manager/manager.go:192-214 | a known tunnel gets the new configuration exactly if it is valid and can be saved; otherwise nothing changes |
| DesktopManager.DeleteLeaves | client/internal/manager/manager.go:217-231 | a delete removes its name and no other |
| DesktopManager.StartLeaves | client/internal/manager/manager.go:367-422 | a start starts exactly a known tunnel without a live run, if it can be started |
| DesktopManager.StopLeaves | client/internal/manager/manager.go:234-252 | stop, delete, restart and update cancel exactly the live run of their tunnel and wait for it |
| DesktopManager.OthersKeepTheirConfig | client/internal/manager/manager.go:168-252 | no step changes the configuration of any tunnel but the one updated |
| DesktopInterleavings.OneRunEachIff | client/internal/manager/manager.go:168-487 | with any number of callers, no tunnel ever has two live runs if and only if no start goes through while a run of it already taken by a stopper is live |
| DesktopInterleavings.SafeRunsHaveNoOrphan | client/internal/manager/manager.go:168-487 | under that condition every live run is its tunnel's or is being stopped |
| DesktopInterleavings.OrphanStays | client/internal/manager/manager.go:424-487 | a live run no tunnel points to stays out of reach whatever callers do, until it ends of itself |
| DesktopInterleavings.ConcurrentStartIsOrphaned | client/internal/manager/manager.go:367-487 | from the empty manager, an explicit interleaving of two callers orphans a live run |
| DesktopInterleavings.MutexSerialises | client/internal/manager/manager.go:367-487 | the table of every interleaving under the mutex is one that a list of bare sections reaches |
| DesktopInterleavings.LockedOneRunEachIff | client/internal/manager/manager.go:367-487 | at every moment of an interleaving under the mutex each tunnel has one live run at most, if and only if no start section is left beside a live run already taken by a stopper |
| DesktopInterleavings.WaiterBlocksNobody | client/internal/manager/manager.go:462-487 | in every interleaving a waiting caller does not hold the mutex, and the run it waits for can enter its exit section, close its channel and let it wake |
| Supervisor.EmittedInLanguage | client/internal/sshclient/client.go:67-96 | every trace is (connecting running? reconnecting)* (connecting running)? stopped, with stopped once and last |
| Supervisor.LanguageIsEmitted | client/internal/sshclient/client.go:67-96 | every word of that language is emitted in some environment |
| Supervisor.BackoffDoubles | client/internal/sshclient/client.go:162-173 | doubling with a cap is the capped power initial * 2^k |
| Supervisor.BackoffInRange | client/internal/sshclient/client.go:162-173 | with initial at most max the wait is min(initial * 2^k, max), within [initial, max] |
| Supervisor.BackoffReachesMax | client/internal/sshclient/client.go:162-173 | the backoff reaches its cap |
| Supervisor.ZeroDefaultsNeverWait | client/internal/sshclient/client.go:67-96 | every wait of every run is zero if and only if the initial backoff is zero, as in the mobile core |
| Supervisor.WaitCountIs | client/internal/sshclient/client.go:67-96 | the loop waits after exactly the attempts that neither were preceded by the end of the context nor ended by cancellation |
| Supervisor.WaitsArePaced | client/internal/sshclient/client.go:79-94 | the first wait is the initial backoff; each later one starts over after a session of more than a minute and otherwise is the double of the one before, capped |
| Supervisor.EmittedIsTold | client/internal/sshclient/client.go:67-96 | attempt by attempt: connecting, running exactly if the dial got through, reconnecting; stopped at the end |
| Supervisor.Session.SleepBackoff | client/internal/sshclient/client.go:162-173 | a completed sleep doubles the backoff up to max, an interrupted one leaves it |
| Supervisor.Session.Run | client/internal/sshclient/client.go:67-96 | trace and waits equal the specified ones for every script: attempt by attempt the states emitted, when the loop waits, and how each wait follows from the one before |
| Sources.NormalizeEnabledSubscriptions | client/internal/store/store.go:491-514 | the loop keeps exactly the first enabled source of each kind, and reports a change exactly when there is one |
| Sources.NormalizeEstablishes | client/internal/store/store.go:491-514 | from any stored list the rule holds afterwards, every kind that had an enabled source keeps one, and lists that keep the rule are unchanged |
| Sources.AddSubscription | client/internal/store/store.go:412-433 | a new source is appended with ID and kind filled in, disabled exactly when its kind already has an enabled one |
| Sources.UpdateSubscription | client/internal/store/store.go:436-454 | the first source with the ID is replaced; without ID or match it fails |
| Sources.SetSubscriptionEnabled | client/internal/store/store.go:459-487 | the target gets the flag, and enabling disables the rest of its kind |
| Sources.DeleteSubscription | client/internal/store/store.go:526-552 | every source with the ID goes and the others stay in their order; the nodes go too exactly when the last of them is a proxy source |
| Sources.AddKeeps | client/internal/store/store.go:412-433 | adding keeps at most one enabled source per kind |
| Sources.ToggleKeeps | client/internal/store/store.go:459-487 | toggling keeps the rule |
| Sources.EnableIsExclusive | client/internal/store/store.go:459-487 | enabling leaves the only enabled source of its kind, whatever was stored, and no other kind changes |
| Sources.DeleteKeeps | client/internal/store/store.go:526-552 | deleting keeps the rule |
| Sources.UpdateKeepsIff | client/internal/store/store.go:436-454 | an update keeps the rule if and only if it does not enable a second source of its kind |
| Sources.KindChangeBreaksRule | client/internal/subscriptionclient/importer.go:251-260 | a refresh that changes the kind can leave two enabled sources of one kind |
| Sources.RuleInEveryState | client/internal/store/store.go:412-552 | after start-up normalisation the rule holds in every state reached by updates that keep kind and enabled flag |
| Sources.RuleInEveryStateIff | client/internal/store/store.go:412-552 | it holds at every moment of a run if and only if no update in the run enables a second source of its kind |
| NodeStore.UpsertIsLinear | client/internal/store/store.go:370-407 | when no name is stored twice the indexed upsert equals a linear-search upsert, and that stays so |
| NodeStore.DuplicateNamesSplitThem | client/internal/store/store.go:370-407 | for every list that stores a name twice some incoming node tells the two apart |
| NodeStore.IndexAgreesIff | client/internal/store/store.go:370-407 | index and linear search agree on whatever comes in if and only if no name is stored twice |
| NodeStore.IndexReplace | client/internal/store/store.go:385-392 | replacing in place keeps the name index exact |
| NodeStore.IndexAppend | client/internal/store/store.go:393-398 | appending with a new entry keeps the name index exact |
| NodeStore.KeptMembers | client/internal/subscriptionclient/importer.go:240-249 | a refresh keeps exactly the non-informational nodes, prefixed, owned by the source, with their name's stored ID |
| NodeStore.UpsertAppendsMerged | client/internal/store/store.go:370-407 | upserting names that do not occur leaves the list alone and appends one merged node per name |
| NodeStore.RefreshExact | client/internal/subscriptionclient/importer.go:225-250 | without a name clash the others' nodes are untouched, followed by one node per kept name in first-seen order with its last payload |
| NodeStore.RefreshNames | client/internal/subscriptionclient/importer.go:225-250 | the source then has exactly the prefixed names of the incoming non-informational nodes |
| NodeStore.RefreshKeepsIds | client/internal/subscriptionclient/importer.go:230-248 | a surviving name keeps its old ID |
| NodeStore.RefreshUnique | client/internal/subscriptionclient/importer.go:225-250 | names stay unique over any refresh, which equals one with a linear search |
| NodeStore.OthersUntouchedIff | client/internal/subscriptionclient/importer.go:225-250 | the other sources' nodes survive unchanged if and only if no kept name clashes with theirs |
| NodeStore.NoClashIff | client/internal/subscriptionclient/importer.go:240-249 | a clash is a stored node of another source bearing the prefixed name of a fetched non-informational node |
| NodeStore.ClashHappens | client/internal/subscriptionclient/importer.go:346-361 | sources named "a" and "a-b" can produce one |
| NodeStore.PrefixIs | client/internal/subscriptionclient/importer.go:346-361 | the prefix is the source name with other characters as dashes, without dashes at its ends, and a dash behind; "subscription-" if nothing is left |
| RefreshOrder.OthersInOrder | client/internal/store/store.go:555-568 | by position: the nodes of other subscriptions stay, in their order |
| RefreshOrder.RefreshKeepsOthersInFront | client/internal/subscriptionclient/importer.go:225-250 | whatever is fetched, the other subscriptions' nodes stay in front at their old places among each other, each the same node unless a fetched node takes its name |
| RefreshOrder.RefreshInOrder | client/internal/subscriptionclient/importer.go:225-250 | by position: the others' nodes in their order, then one node for every fetched name in the order of its first appearance, with the fields of its last, and the stored ID or a fresh one |
| ActiveNodes.BeforeIsRank | client/internal/store/store.go:612-645 | the two-level comparison is the order of a single rank |
| ActiveNodes.RankIs | client/internal/store/store.go:612-645 | which protocols and transports come in which place of the default order |
| ActiveNodes.OfSourceInOrder | client/internal/store/store.go:231-239 | a source contributes exactly its nodes that are no informational entries, in stored order |
| ActiveNodes.ActiveIsStableSort | client/internal/store/store.go:213-248 | under the single-source rule the active list is the one stable rank-order permutation of the enabled source's nodes |
| ActiveNodes.ActiveFromOneSource | client/internal/store/store.go:213-248 | all active nodes share one subscription ID |
| ActiveNodes.NoFeedNoNodes | client/internal/store/store.go:219-228 | without an enabled proxy source nothing is active |
| RenamedSources.HiddenIff | client/internal/store/store.go:232-239 | a fetched name stored under one source name and listed under another counts as informational exactly when the residue of the old prefix does, unless the new prefix is longer and reaches into the name |
| RenamedSources.RenameHidesNothingIff | client/internal/subscriptionclient/importer.go:112-119 | a rename hides no node, whatever was fetched, if and only if the residue of the old prefix has no keyword |
| RenamedSources.StaysListedIff | client/internal/store/store.go:213-248 | in every reachable state, exactly which stored nodes of the enabled source are listed, from the name they were stored under and the current one |
| RenamedSources.RenameHidesAll | client/internal/subscriptionclient/importer.go:183-189 | a rename whose fetch fails hides all nodes of a source whose name has no plain character, though they stay stored |
| ActiveNodes.RefreshedAreListed | client/internal/store/store.go:232-239 | right after a refresh every node of the enabled source is listed: both prefixes agree |
| StableSort.StableSortUnique | client/internal/store/store.go:240-246 | two stable sorts by one rank give the same list |
| StableSort.SortIsStable | client/internal/store/store.go:240-246 | the sort used is in rank order and keeps the order within each rank |
| ProxyStore.FilterInPlace | client/internal/subscriptionclient/importer.go:240-249 | the filter that overwrites the slice it reads yields exactly the kept nodes |
| ProxyStore.Store.UpsertProxyNodes | client/internal/store/store.go:370-407 | the loop over the name index equals upserting one by one, and the counts add up |
| ProxyStore.Store.DeleteProxyNodesBySubscriptionID | client/internal/store/store.go:555-568 | by position: exactly the nodes of other subscriptions stay, in their order |
| ProxyStore.Store.RefreshProxyNodes | client/internal/subscriptionclient/importer.go:225-265 | the whole refresh is the specified node list and record update; the other subscriptions' nodes stay in front, in their order, unchanged unless a fetched name is theirs |
| ProxyStore.Store.Delete | client/internal/store/store.go:526-552 | a deleted proxy source takes its nodes along; the others stay in their order |
| ProxyStore.Store.LoadActiveProxyNodes | client/internal/store/store.go:213-248 | the loops and the sort yield the active list |
| ProxyStore.EveryState | client/internal/store/store.go:213-552 | in every reachable state the single-source rule holds, names are unique, and all active nodes share one subscription ID |
| ProxyRules.NormalizeProxyRules | pkg/config/proxy_rule.go:80-97 | every rule still says what was written: block, selected or proxy, anything else direct; its type with the aliases, unknown ones as domain suffix; trimmed, a rule-set value folded |
| ProxyRules.NormalizeIdempotent | pkg/config/proxy_rule.go:80-134 | normalising twice is normalising once |
| Text.TrimIs | pkg/config/proxy_rule.go:86-91 | trimming takes white space off both ends and nothing else |
| ProxyRules.ValidateProxyRules | pkg/config/proxy_rule.go:137-158 | reports the first faulty enabled rule as written, counted from one: empty, blank inside, bad prefix or unknown rule set, in this order; no error exactly when there is none |
| ProxyRules.ValidAfterNormalizing | pkg/config/proxy_rule.go:137-158 | normalising does not change whether a list validates |
| ProxyRules.KnownIffEmbedded | client/internal/proxycore/ruleset.go:26-30 | validation and the table of bundled files know the same tags |
| ProxyRules.FaultAsWritten | pkg/config/proxy_rule.go:137-158 | the fault found after normalising is the one the written rule has |
| RawRules.NormalizedMeans | pkg/config/proxy_rule.go:80-134 | normalising keeps which connections a written rule matches and where it sends them |
| RawRules.AcceptableIsValid | pkg/config/proxy_rule.go:137-158 | a list validates exactly when no written rule has a fault |
| ProxyRoute.EnsureLocalRuleSetFiles | client/internal/proxycore/ruleset.go:42-74 | the paths are exactly those of the known tags, or the tag whose file failed is reported |
| ProxyRoute.BuildLocalRuleSetDefinitions | client/internal/proxycore/core.go:1664-1693 | one definition per folded known tag, in order of first mention |
| ProxyRoute.ReferencesInOrder | client/internal/proxycore/core.go:1611-1631 | the route refers to exactly the enabled rule-set rules, in order |
| ProxyRoute.TagsInOrder | client/internal/proxycore/core.go:1664-1693 | one tag for each first mention of a known rule set, in order |
| ProxyRoute.BuildRoute | client/internal/proxycore/core.go:1600-1644 | yields the specified route; fails as invalid exactly when a rule is faulty, naming the first one |
| ProxyRoute.RoutePreservesMeaning | client/internal/proxycore/core.go:1600-1659 | for every valid list and connection the route decides as first match over the enabled normalised rules with default selected; degraded, as the list without rule sets |
| RawRules.RouteDecidesAsWritten | client/internal/proxycore/core.go:1600-1659 | every built route decides each connection by the first written rule that matches - without rule sets, the first that is none - at its written outbound, and to the proxy if there is none |
| RawRules.DefaultsDecide | pkg/config/proxy_rule.go:34-53 | without rules of one's own local networks go direct, then foreign sites through the proxy, domestic sites and addresses direct, and the rest through the proxy |
| ProxyRoute.DegradedDecision | client/internal/proxycore/core.go:1614-1622 | the degraded decision is the first match unless that is a rule set, and then the first later match |
| ProxyRoute.DegradedAgrees | client/internal/proxycore/core.go:1614-1622 | degraded and full route agree on a connection if and only if its first match is not a rule set or the later rules come to the same outbound |
| DegradedRoute.DegradedAlwaysAgreesIff | client/internal/proxycore/core.go:1614-1622 | both routes agree in every engine if and only if from the first enabled rule set on every enabled rule not shadowed by an earlier one with its criterion goes to the proxy |
| ProxyRoute.DegradedDiffers | client/internal/proxycore/core.go:1614-1622 | where a rule set decides they can differ |
| ProxyRoute.RuleSetClosure | client/internal/proxycore/core.go:1611-1693 | each rule set referenced is defined exactly once with a bundled file, none without a reference; degraded routes have neither |
| ProxyRoute.OutboundsExist | client/internal/proxycore/core.go:1623-1631 | a compiled rule names only the outbounds selected, direct and block |
| ProxyRoute.BuiltAfterNormalizing | client/internal/proxycore/core.go:1908-1916 | the callers' own normalisation changes no route |
| TrafficRuntime.Runtime.RegisterClient | server/internal/vpnserver/runtime.go:84-102 | counts the client and enters a zeroed record under a numbered ID |
| TrafficRuntime.Runtime.UnregisterClient | server/internal/vpnserver/runtime.go:105-109 | removes that record and nothing else |
| TrafficRuntime.Runtime.AddClientTraffic | server/internal/vpnserver/runtime.go:139-149 | adds to the totals always and to an active client's record, with 64-bit wrap |
| TrafficRuntime.Runtime.TakeSnapshot | server/internal/vpnserver/runtime.go:152-188 | whatever the map order, the list holds every active record exactly, sorted by time, with the same count and byte sums |
| TrafficRuntime.CountersWrapTheLedger | server/internal/vpnserver/runtime.go:84-149 | in every run each stored counter is the unbounded ledger's modulo 2^64 |
| TrafficRuntime.LedgerConserves | server/internal/vpnserver/runtime.go:84-149 | totals are all traffic reported, and the sum over active clients, departed clients and unknown IDs |
| TrafficRuntime.StoredConserves | server/internal/vpnserver/runtime.go:84-149 | the same for the stored counters, modulo 2^64, in every run |
| TrafficRuntime.ExactBelowWrap | server/internal/vpnserver/runtime.go:139-149 | the stored total is exact if and only if less than 2^64 bytes were reported, and then conservation is exact |
| TrafficRuntime.RecordIsAccount | server/internal/vpnserver/runtime.go:139-149 | a client's record counts exactly the traffic credited to its ID since it was given out |
| TrafficRuntime.ClientsCounted | server/internal/vpnserver/runtime.go:84-102 | totalClients equals nextClient equals the registrations |
| TrafficRuntime.IdReusedIff | server/internal/vpnserver/runtime.go:84-102 | an ID is given out again if and only if a multiple of 2^64 registrations lies between |
| Gateway.ParseGateway | client/internal/tunnel/route.go:19-32 | the in-place edit of the copied network address yields the specified gateway |
| Gateway.ServerIPFromSubnet | server/internal/vpnserver/server.go:298-312 | a network address becomes its first address, any other is kept |
| Gateway.GatewayIsNotClient | client/internal/tunnel/route.go:19-32 | for every prefix the gateway is not the client's address |
| Gateway.GatewayIs | client/internal/tunnel/route.go:19-32 | the gateway is the client's network address with its last byte made odd, or one more within that byte if that is the client |
| Gateway.ServerAddressIs | server/internal/vpnserver/server.go:298-312 | the server takes that first address exactly if it was given the network address |
| Gateway.PrefixBits | client/internal/tunnel/route.go:19-32 | network and broadcast address bit by bit: the bits of the prefix, then zeros or ones |
| Gateway.GatewayInSubnetIff | client/internal/tunnel/route.go:19-32 | it lies in the subnet if and only if two host bits are left, or one and the client is the lower address |
| Gateway.GatewayIsHostIff | client/internal/tunnel/route.go:19-32 | it is a host address of the subnet - in it, not client, network or broadcast - if and only if two host bits are left (IPv4: prefixes up to 30) |
| Gateway.AgreementIff | server/internal/vpnserver/server.go:298-312 | client and server agree on the gateway exactly in the stated cases; with the network address configured, exactly when the client is not the first address |
| HostPort.SplitIff | pkg/subscription/subscription.go:194-204 | a string splits into host and port if and only if both are free of brackets, the port of colons, and it is host:port without further colons or [host]:port |
| HostPort.SplitErrors | pkg/subscription/subscription.go:194-204 | a missing colon, a missing bracket and too many colons are reported as such |
| HostPort.SplitJoinIff | pkg/subscription/subscription.go:194-204 | joining and splitting gives host and port back if and only if the host has no brackets |
| HostPort.AddressRoundTripIff | pkg/subscription/subscription.go:194-204 | with a numeric port: if and only if also 1 <= port <= 65535 |
| HostPort.SplitIsStable | pkg/subscription/subscription.go:194-204 | whatever splits, its parts join to an address that splits the same way |
| Decimal.PrintThenValue | pkg/subscription/subscription.go:194-204 | parsing a printed number gives it back |
| Decimal.ValueThenPrint | pkg/subscription/subscription.go:194-204 | printing a parsed canonical numeral gives it back |
| ClashCodec.NormalizeTunnels | pkg/subscription/subscription.go:150-168 | by position: every VPN tunnel in order with the mode filled in, or the name of the first that lacks name, address, user or password, or nothing left |
| ClashCodec.EncodeClash | pkg/subscription/subscription.go:73-96 | by position and field: one proxy per VPN tunnel in order with its address split, or the first address that does not split |
| ClashCodec.ParseClash | pkg/subscription/subscription.go:109-148 | by position and field: other types are skipped; one tunnel per supported proxy in order, or the first that lacks name, server or port, then the first without credentials, or none at all |
| ClashCodec.ParseAll | pkg/subscription/subscription.go:109-168 | a document of supported proxies parses if and only if it is not empty and all are complete with credentials |
| ClashCodec.RoundTripIff | pkg/subscription/subscription.go:73-204 | parsing the encoding returns the list in order if and only if it is non-empty and all tunnels are canonical |
| ClashCodec.EncodeParseEncode | pkg/subscription/subscription.go:73-204 | encoding what was parsed from an encoding gives the same document, and that parse succeeds if and only if there is a VPN tunnel and every one has name, host and credentials |
| ClashCodec.DocumentRoundTripIff | pkg/subscription/subscription.go:73-148 | encoding a parsed document of supported proxies gives it back if and only if servers have no brackets and ports are real |
| ClashCodec.JsonRoundTripIff | pkg/subscription/subscription.go:69-71 | the JSON form returns the VPN tunnels if and only if there are any and all are valid |

## Left out

- Framing.VpnPipe.PipeQuicToTun: byte counters are unbounded; the atomic 64-bit wrap is not modelled.
- BatchDeadline.DeadlineSufficesIff: overflow of the 64-bit duration and a probe ending exactly at the deadline are not distinguished.
- BatchResults.TestProxyNodes: the panic-recovery path, log lines and the test timestamp are not modelled; events are recorded even when no batch ID or window is set.
- Supervisor.Session.Run: jitter on the wait and 64-bit overflow of the doubled backoff are not modelled.
- TerminalInput.WriteChunks: payloads are modelled decoded; base64 and its decode error appear only as a failed call.
- DesktopInterleavings.OneRunEachIff: which done channel a run closes is fixed at its start, so two runs closing one channel when a start overtakes the goroutine's first statement is not modelled.
- DesktopManager.Manager.StartTunnel: timed stops, bulk upsert, the VPN route switch and the copy of the run state shown in the UI are not modelled; tunnel records are values in a table.
- ProxyStore.Store.RefreshProxyNodes: usage counters and timestamps are one carried field; every store operation is one atomic step, so races between load and save of concurrent callers are outside the model.
- NodeStore.RefreshKeepsIds: a stored node with an empty ID gets a fresh one, as in the code; random IDs are a parameter.
- ProxyRules.NormalizeProxyRules: case folding covers ASCII letters only; the address library's prefix parser is a parameter.
- ProxyRoute.RoutePreservesMeaning: the engine's matching is an abstract predicate per kind of criterion; DNS, inbound and experimental sections of the configuration are not modelled.
- TrafficRuntime.Runtime.TakeSnapshot: client records are values in the map; user name, TUN name, last error and uptime fields are not modelled.
- Gateway.ParseGateway: parsing and printing of addresses is the network library's; an address is its bytes.
- ClashCodec.ParseClash: the YAML layer is the identity, with an absent list and an empty list not distinguished.
- Tunnel import (`importProxyNodes`, `importVPNTunnels`) appears only as an upsert plus an add in the store's runs.
- `client/mobilecore/vpn_android.go` holds a third copy of the framing loops, covered by the same codec.
- The VPN client's own reconnect loop, QUIC, TLS and SSH handshakes, SOCKS5, HTTP fetches, process spawning, TUN drivers, routing commands and the registry are external.
- Authentication, certificate pinning, the web panel, charts, installer and tray are not modelled.
