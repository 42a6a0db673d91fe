# Verified model of the embedded-debug MCP server

This project models the parts of the server whose correctness is an argument rather than a look-up, and
proves what they promise.

* **The shared USB hub.** Several MCP servers send power and data-line switches to one daemon. `HubLocks`
  is its token lock, `HubGuard` the confirmation policy, `HubManager` the owner of the hub and its ledgers,
  `HubProtocol` the daemon as a transition system with every interleaving of its threads. `HubAudit`,
  `HubFaults` and `HubProgress` say what holds in all runs, which assumptions the debt theorem needs and
  that nothing gets stuck, and `HubShutdown` what a stop leaves running; `HubRefinement` ties the
  protocol's small steps to the manager's calls, and `HubDaemon` has the tables as the handlers update
  them. `HubTopology` is discovery by toggling.
* **The solvers.** `ClockSolver` (PLL search, prescalers, wait states), `PllChoice` (what that search
  chooses, in closed form) and `TimerSolver` (PSC and ARR).
* **Plan, code, checks.** `FrameworkSolver` and `InitCode` take a plan to the generated init code,
  `SourceMap` scans that code back, `AcceptanceSynth`, `AcceptanceDerive` and `AcceptanceIds` derive checks
  from the same plan, `AcceptanceEval` judges them, `Pipeline` joins both views, and `LoopControl` is the
  bounded loop that consumes the verdicts. `Bits` and `Arithmetic` carry the arithmetic.
* **Stateful pieces.** `Sexpr` (the KiCad reader), `WriteWindow` and `SymbolCache` (the GDB client).

Code that works by changing things is a class or a method with loops, proved equal to a specification
function; what is promised is proved about that function, over every input, every run or every reachable
state. `dafny verify dfyconfig.toml` checks everything.

## How the hub is modelled

A hub is the set of lines that are dark together with the ledger of lines this process switched off. A
command is acknowledged, refused before it is sent, or lost, and a lost one may or may not have taken
effect. The fault model of the debt theorem is the predicate `HubProtocol.Benign`: no command is lost, the
second half of a power cycle and a release's commands are not refused either, releases restore both kinds,
one write at a time per lease, and no lease is dropped under a running write. `HubFaults` shows that each
part is needed by a complete run that departs from it in one event and leaves a port dark that nobody owes.
It also has, as an equivalence, when each kind of step loses a debt: a command, a call that ends
unaccounted, a release of one kind, a restoring command, and the accounting of a line that is dark again,
which is where the two lease faults do their harm. Mutual exclusion, and that commands are only sent with
their channel held, need the lease part only; the guard's theorem needs none of it.

Where the code and its own documentation differ, the model follows the code:

* `clock_solver.py:131-134` says that M is required to divide f_in; the code only skips an M whose VCO
  input is out of range, and so does the model. `PllChoice` has the M it settles on in closed form, with it
  exactly when that M divides f_in, and a built-in device and request for which it does not.
* `timer_solver.py:100-102` promises the closest achievable pair; the code tries one prescaler and rounds
  the divider, not the frequency. The model has exactly when the pair is the closest, in either sense, and
  for each an input within the register widths for which it is not.
* `hub_daemon.py:266` says that stopping puts back everything still owed; handler threads outlive the
  closing of the hub. The model has exactly when one of them can still darken a line.
* `gdb_client.py:900-911` caches the empty name of a failed lookup, which the text does not mention.
* `hub_daemon.py:621-628` says that a debt is kept; the code drops the part of a kind it was told not to
  restore.

## Model

| member | source | states |
|---|---|---|
| `HubLocks.EveryReachableStateIsSafe` | src/mcp_server/hub_locks.py:37-66 | Over every sequence of requests, wake-ups and releases: held tokens never overlap, and a waiter asleep with no wake-up pending is blocked by a holder or an earlier overlapping waiter (no lost wake-up). |
| `HubLocks.AllIsAlone` | src/mcp_server/hub_locks.py:27-28 | A rack-wide token is the only one held, in every reachable state. |
| `HubLocks.IdleRackServesTheHead` | src/mcp_server/hub_locks.py:42-59 | With nothing held, the head of the queue has a wake-up pending and is granted by it: the queue cannot be stuck. |
| `HubLocks.BlockedIffSomeoneAhead` | src/mcp_server/hub_locks.py:45-48 | A pass is blocked exactly when the set of overlapping holders and overlapping earlier waiters is not empty. |
| `HubLocks.GrantedIffNobodyAhead` | src/mcp_server/hub_locks.py:43-55 | A queued ticket's check grants exactly when nobody it overlaps is ahead, and otherwise sleeps or, out of time, leaves. |
| `HubLocks.GrantedOnEntryIffNothingOverlaps` | src/mcp_server/hub_locks.py:42-51 | A request is granted at its first check exactly when it overlaps no holder and no queued request. |
| `HubLocks.GrantedOnEntryIffChannelsAreFree` | src/mcp_server/hub_locks.py:27-28 | In channels: a rack-wide request is granted at once exactly when nothing is held or queued, any other exactly when nothing held or queued is rack-wide or shares a channel with it. |
| `HubLocks.StepOnlyRemoves` | src/mcp_server/hub_locks.py:42-66 | One step changes who a waiter waits for only by departures. |
| `HubLocks.NobodyOvertakes` | src/mcp_server/hub_locks.py:42-66 | Over whole runs: while a ticket is queued, the set it waits for is what it was at the start less whoever has left; no later request ever gets in front. |
| `HubLocks.GrantedOnceThoseAheadLeft` | src/mcp_server/hub_locks.py:42-66 | A queued ticket's next check grants it exactly when everybody ahead of it at any earlier moment has left, whatever came in since (no starvation among conflicts). |
| `HubLocks.WhoeverWaitsCameLater` | src/mcp_server/hub_locks.py:37-59 | While a token over every channel is held, everyone in the queue arrived after it: all who came before have had their turn or given up. |
| `HubLocks.ChannelLocks.Blocked` | src/mcp_server/hub_locks.py:45-48 | The two scans of one pass decide whether a holder or an earlier waiter overlaps. |
| `HubLocks.ChannelLocks.Check` | src/mcp_server/hub_locks.py:44-59 | One pass with its `finally`: grant, time out or sleep, leaving the queue with everyone notified when it leaves. |
| `HubLocks.ChannelLocks.Acquire` | src/mcp_server/hub_locks.py:37-59 | Entering the queue and checking once is the lock step proved safe above; it is granted exactly when its channels are free, and otherwise sleeps or, out of time, gives up. |
| `HubLocks.ChannelLocks.Resume` | src/mcp_server/hub_locks.py:43-59 | A thread back from `cond.wait` re-checks at its own place in the queue. |
| `HubLocks.ChannelLocks.Free` | src/mcp_server/hub_locks.py:61-66 | Releasing a token frees it and notifies everyone; releasing no token does nothing. |
| `HubGuard.Evaluate` | src/mcp_server/hub.py:184-230 | The decision is "apply" exactly when not in dry run and either confirmed or in `allow` mode with no live session. |
| `HubGuard.OtherThreadsDoNotInterfere` | src/mcp_server/hub.py:149-172 | Whatever other threads do and however they interleave, a thread's contexts and audited decisions are those of a run in which it is alone. |
| `HubGuard.BracketsRestoreTheContext` | src/mcp_server/hub.py:150-166 | Properly bracketed `acting_as` blocks leave the thread's context as they found it. |
| `HubGuard.DecidesUnderTheCallersMode` | src/mcp_server/hub.py:150-172 | Inside `acting_as(mode)` the decision is that mode's, whatever the shared mode and other threads' modes are. |
| `HubGuard.HubPowerGuard.EnterAs` | src/mcp_server/hub.py:150-163 | Entering `acting_as` pushes this thread's context only. |
| `HubGuard.HubPowerGuard.LeaveAs` | src/mcp_server/hub.py:164-166 | Leaving restores the previous context. |
| `HubGuard.HubPowerGuard.SetMode` | src/mcp_server/hub.py:174-179 | Setting the policy changes the shared mode and nobody's context. |
| `HubGuard.HubPowerGuard.EvaluateAndAudit` | src/mcp_server/hub.py:171-245 | A decision is made and audited under the calling thread's context. |
| `HubManager.AcknowledgedSwitchKeepsTheLedgerExact` | src/mcp_server/hub.py:1034-1051 | After a switch the ledger is exactly what is dark unless an unacknowledged command's effect contradicts it; the exact condition. |
| `HubManager.IsolationInOnePiece` | src/mcp_server/hub.py:809-833 | An isolation darkens exactly the neighbours the guard let through whose command took effect, and records exactly those also acknowledged. |
| `HubManager.ExclusiveIffAllCut` | src/mcp_server/hub.py:785-847 | `exclusive` is reported exactly when the target was switched and every other channel was cut with acknowledgement. |
| `HubManager.ExclusiveMeansIsolated` | src/mcp_server/hub.py:785-847 | A reported isolation leaves the target's data line up and every other one down and owed. |
| `HubManager.IsolationTouchesOnlyWhatItLists` | src/mcp_server/hub.py:809-847 | Whatever is reported, the channels listed as cut are dark and owed, the target is not among them, and no power line moved. |
| `HubManager.OnlyIsolationsTouchOthers` | src/mcp_server/hub.py:785-847 | A data call that is not an isolation, or whose target was not switched, leaves every other line alone, lists nothing, and reports `exclusive` only for a dry run. |
| `HubManager.LiveNeighbourNeedsConfirmation` | src/mcp_server/hub.py:816-821 | A neighbour with a live session is never cut without confirmation, even in `allow` mode. |
| `HubManager.CloseRestoresIff` | src/mcp_server/hub.py:477-514 | Closing brings back every ledger line exactly when the needed kinds are restored and every command takes effect. |
| `HubManager.HubManager.Switch` | src/mcp_server/hub.py:1009-1056 | One switch: the new hardware state, both ledgers and the outcome; it is denied exactly when it would reach the hub unconfirmed, outside dry run, in `confirm` mode, with a live session named, or cutting a channel the registry has. |
| `HubManager.HubManager.CutOthers` | src/mcp_server/hub.py:809-833 | The loop over the neighbours isolates them and splits them into those cut and those not. |
| `HubManager.HubManager.SetDataLine` | src/mcp_server/hub.py:785-847 | The whole `data` call, exclusive or not. |
| `HubManager.HubManager.PowerCycle` | src/mcp_server/hub.py:849-890 | Off under the caller's terms, then on under confirmation, an exception in the first half ending the call; and what that leaves of the port and the ledger, for every pair of replies. |
| `HubManager.HubManager.RestoreLines` | src/mcp_server/hub.py:493-508 | The restore loop turns on what takes effect and reports what was acknowledged, line by line. |
| `HubManager.HubManager.Close` | src/mcp_server/hub.py:477-514 | Both restore loops: which lines come on, which are reported, and that both ledgers are empty after. |
| `HubProtocol.OneHolderPerChannel` | src/mcp_server/hub_daemon.py:490-523 | At most one operation holds a channel, by token or under a lease, so two writes on one channel are never both between first command and accounting. |
| `HubProtocol.EveryRunIsExclusive` | src/mcp_server/hub_daemon.py:490-523 | Over every run that respects leases, whatever the hub answers and whatever is released, no two operations hold one channel. |
| `HubProtocol.WritesElsewhereDoNotWait` | src/mcp_server/hub_daemon.py:426-442 | A plain switch or a cycle without a lease goes straight to its first command exactly when nobody holds or has queued for its own channel or for all. |
| `HubProtocol.IsolationsWaitForTheRack` | src/mcp_server/hub_daemon.py:431-436 | An exclusive isolation goes ahead exactly when nothing is held or queued at all. |
| `HubProtocol.OnlyTheHolderSkipsTheQueue` | src/mcp_server/hub_daemon.py:503-509 | A write goes ahead without a token of its own exactly when it names a lease that is out, to its own client and not expired. |
| `HubProtocol.SwitchingOnIgnoresTheRegistry` | src/mcp_server/hub.py:1019-1022 | A command that switches a line on does the same whatever the registry of live sessions holds. |
| `HubProtocol.RestoringIgnoresTheRegistry` | src/mcp_server/hub.py:1019-1022 | So does a release's command. |
| `HubProtocol.AHeartbeatGuardsItsChannels` | src/mcp_server/hub_daemon.py:400-418 | After a heartbeat an unconfirmed cut of a channel with a session in it changes nothing on the hub, in any mode. |
| `HubProtocol.AReleaseTakesTheKindsAsked` | src/mcp_server/hub_daemon.py:621-638 | A release takes the whole debt out of the table at once and sets out to bring back exactly its lines of the kinds asked for. |
| `HubProtocol.ALeaseIsAlone` | src/mcp_server/hub_daemon.py:444-464 | While a lease is out its token is the only one held, and only its own write acts. |
| `HubProtocol.StepKeepsInv` | src/mcp_server/hub_daemon.py:490-666 | Every step of every client that respects the fault model keeps token ownership, separation and debt coverage. |
| `HubProtocol.EveryCutIsOwedOrInFlight` | src/mcp_server/hub_daemon.py:598-666 | In every interleaving under the fault model the ledger equals what is dark, and every dark line is owed by a client or in an operation in flight. |
| `HubProtocol.NothingOwedNothingDark` | src/mcp_server/hub_daemon.py:621-666 | Once nobody owes anything and nothing is in flight, every line is on. |
| `HubRefinement.SwitchIsTheManagersCall` | src/mcp_server/hub_daemon.py:426-436 | A plain write's command leaves the hub as the manager's call does and is accounted exactly when that call reports it applied. |
| `HubRefinement.CycleIsTheManagersCall` | src/mcp_server/hub_daemon.py:438-442 | A power cycle's two commands amount to the manager's call, and the call is never accounted. |
| `HubRefinement.IsolationIsTheManagersCall` | src/mcp_server/hub_daemon.py:431-436 | An isolation's commands, one per channel, amount to the manager's call; what is accounted is the target and exactly the channels that call lists. |
| `HubFaults.CommandKeepsCoverageIff` | src/mcp_server/hub.py:1034-1051 | A command keeps debt coverage exactly when it is not an unacknowledged one whose effect the ledger got wrong. |
| `HubFaults.UnaccountedCallKeepsCoverageIff` | src/mcp_server/hub_daemon.py:598-600 | A call that ends unaccounted loses a debt exactly when a ledger line it cut has nobody else answering for it. |
| `HubFaults.EmptyReleaseKeepsCoverageIff` | src/mcp_server/hub_daemon.py:632-638 | A release with nothing of its kinds owed still drops the whole debt; exactly when that loses one. |
| `HubFaults.PartialReleaseKeepsCoverageIff` | src/mcp_server/hub_daemon.py:632-666 | A release of one kind answers for that kind only; exactly when that loses a debt. |
| `HubFaults.ReportKeepsCoverageIff` | src/mcp_server/hub_daemon.py:598-619 | Accounting loses a debt exactly when it settles a line that is dark again and that neither this call nor another operation in flight has cut. |
| `HubFaults.RestoreKeepsCoverageIff` | src/mcp_server/hub_daemon.py:649-661 | One command of a release keeps coverage exactly when the line was lit, the command took effect, or it was refused and somebody else answers for the line. |
| `HubFaults.UnacknowledgedOnLeavesAPortDark` | src/mcp_server/hub.py:1041-1042 | A complete run in which one unacknowledged "on" leaves a port dark with nobody owing it. |
| `HubFaults.PartialReleaseLeavesAPortDark` | src/mcp_server/hub_daemon.py:632-638 | The same through a release that restores data lines only. |
| `HubFaults.FailedCycleLeavesAPortDark` | src/mcp_server/hub_daemon.py:598-600 | The same through a cycle whose second half cannot be sent. |
| `HubFaults.RefusedRestoreLeavesAPortDark` | src/mcp_server/hub_daemon.py:656-661 | The same through a release whose restoring command is refused: the exception is swallowed and the debt is gone. |
| `HubFaults.TwoWritesUnderOneLeaseLeaveAPortDark` | src/mcp_server/hub_daemon.py:505-523 | The same through two writes interleaved under one lease. |
| `HubFaults.DroppedLeaseLeavesAPortDark` | src/mcp_server/hub_daemon.py:550-554 | The same through a lease dropped under a running write. |
| `HubAudit.EveryCutWasPermitted` | src/mcp_server/hub_daemon.py:499-516 | In every run, faulty ones included, each applied cut was confirmed, or decided in the `allow` mode its own call came with and with no live session on that channel. |
| `HubAudit.TermsAreTheCallers` | src/mcp_server/hub_daemon.py:499-514 | The terms a call came with are never changed by any later step of any client. |
| `HubAudit.CommandsStayOnTheirChannels` | src/mcp_server/hub_daemon.py:426-442 | In every run, faulty ones included, every command a write has yet to send is on a channel it asked for. |
| `HubAudit.CommandsAreSentHoldingTheChannel` | src/mcp_server/hub_daemon.py:503-516 | Whatever the hub answers and whatever is released, as long as leases are respected, a command is only sent by a call that holds its channel, alone: the look-up follows the lock. |
| `HubAudit.CutsAreRecorded` | src/mcp_server/hub.py:1017-1052 | Every command that darkened a line is in the audit with the terms it was decided under. |
| `HubAudit.OnlySentCutsAreRecorded` | src/mcp_server/hub.py:1019-1040 | A command leaves a record exactly when it is a cut that was not refused and that the call's own terms and the registry let through. |
| `HubProgress.NoTokenLeaks` | src/mcp_server/hub_locks.py:37-66 | In every run each held token is an operation's or a lease's, and each queue entry a sleeping operation's. |
| `HubProgress.IdleMeansFree` | src/mcp_server/hub_locks.py:61-66 | With nothing in flight and no lease out, no token is held and nobody waits. |
| `HubProgress.NextAdvances` | src/mcp_server/hub_daemon.py:490-666 | An operation that is not asleep has a next step, and it leaves less to do. |
| `HubProgress.HeadAdvances` | src/mcp_server/hub_locks.py:43-59 | When all operations sleep and no lease is out, the head of the queue has its wake-up pending and is granted (no deadlock). |
| `HubProgress.EveryRunCanBeWoundUp` | src/mcp_server/hub_daemon.py:621-666 | From every state a run under the fault model reaches, the operations can finish and the clients release without a timeout, after which the locks are free, nobody owes anything and every line is on. |
| `HubDaemon.RestoreOrderIsIrrelevant` | src/mcp_server/hub_daemon.py:649-661 | A release's effect on the hub does not depend on the order in which it walks its lines. |
| `HubDaemon.ReleasePaysIff` | src/mcp_server/hub_daemon.py:649-661 | A release brings back every line it owes exactly when each dark one gets a command that takes effect; no other line is touched. |
| `HubDaemon.ReleaseIsTheProtocols` | src/mcp_server/hub_daemon.py:648-661 | The release loops are the protocol's restore steps, one per line in any order: the same hub, and nothing left of the debt to restore. |
| `HubDaemon.StopLightsEverything` | src/mcp_server/hub_daemon.py:272-273 | At the moment `stop` closes the hub, in a run under the fault model and with an acknowledging hub, everything is lit; what comes after is HubShutdown's. |
| `HubDaemon.ExitsOnlyLit` | src/mcp_server/hub_daemon.py:295-299 | At the moment `maintain` decides that the idle daemon should exit, no line is dark. |
| `HubDaemon.ExitsOnceIdle` | src/mcp_server/hub_daemon.py:295-299 | An exit is decided exactly when a nonzero limit is configured, nothing is off and the daemon has been idle for longer. |
| `HubDaemon.HubDaemon.Settle` | src/mcp_server/hub_daemon.py:613-617 | The loop over all clients discards the settled line from each. |
| `HubDaemon.HubDaemon.AccountLocked` | src/mcp_server/hub_daemon.py:604-619 | The in-place accounting is the protocol's: the settled line is paid for everybody and the caller alone is charged for its cuts. |
| `HubDaemon.HubDaemon.PopDebt` | src/mcp_server/hub_daemon.py:632-638 | A release takes the whole debt out and wants only the enabled kinds. |
| `HubDaemon.HubDaemon.KeepDebt` | src/mcp_server/hub_daemon.py:643-646 | A deferred release puts the whole debt back on top of what came in meanwhile. |
| `HubDaemon.HubDaemon.RestoreLine` | src/mcp_server/hub_daemon.py:652-661 | One turn: skipped when the line is on, otherwise switched on under the daemon's own confirmation. |
| `HubDaemon.HubDaemon.RestoreDebt` | src/mcp_server/hub_daemon.py:648-661 | The release loops: the new hub; restored are the owed lines that were acknowledged, now lit, and failed the others that were off. |
| `HubDaemon.HubDaemon.HoldsLease` | src/mcp_server/hub_daemon.py:543-548 | A lease is held by the client that took it until it expires. |
| `HubDaemon.HubDaemon.DropLease` | src/mcp_server/hub_daemon.py:550-554 | A lease is popped and its token released once. |
| `HubDaemon.HubDaemon.DropLeasesOf` | src/mcp_server/hub_daemon.py:556-560 | All of a client's leases and tokens go, and no one else's. |
| `HubDaemon.HubDaemon.DropExpired` | src/mcp_server/hub_daemon.py:279-283 | Exactly the expired leases go, with their tokens. |
| `HubShutdown.ClosedMeansLit` | src/mcp_server/hub_daemon.py:265-275 | Whatever is in flight, and whether or not the rack-wide lock was obtained, everything is lit and nothing is in the ledger at the moment of closing, if the closing commands take effect. |
| `HubShutdown.NothingLeftNothingGoesDark` | src/mcp_server/hub_daemon.py:265-275 | Once closed, and if no write left behind has an "off" to come that the guard may let through, nothing goes dark in any continuation, whatever the hub answers. |
| `HubShutdown.StopIsFinalIff` | src/mcp_server/hub_dashboard.py:147-163 | After a stop a line can go dark again exactly when some write, running, queued or still on its way to its thread, has an "off" to come that the guard may let through: handler threads are not joined. |
| `HubShutdown.LockedStopIsFinal` | src/mcp_server/hub_daemon.py:268-275 | If nothing was on its way when the daemon stopped serving and it got its rack-wide lock, no write is left and nothing goes dark after closing. |
| `HubShutdown.StopBesideARunningCutLeavesAPortDark` | src/mcp_server/hub_daemon.py:268-275 | A complete run within the fault model: the ten seconds pass beside a running cut, the hub is closed, and then the cut's command leaves a port dark that nobody owes. |
| `HubShutdown.LockedStopMissesALateCut` | src/mcp_server/hub_daemon.py:268-275 | The same with the lock obtained, through a call that was still on its way to its thread. |
| `ClockSolver.BestQ` | src/mcp_server/clock_solver.py:100-112 | Q is found exactly when the device allows the one divider that gives 48 MHz. |
| `ClockSolver.SearchPll` | src/mcp_server/clock_solver.py:115-155 | None exactly when no (M, N, D) in range gives target*D*M = f_in*N within both VCO limits; otherwise a score-minimal such triple with its exact data. |
| `ClockSolver.ScoresAreDistinct` | src/mcp_server/clock_solver.py:145-149 | Distinct fitting triples have distinct scores. |
| `ClockSolver.AnswerIsUnique` | src/mcp_server/clock_solver.py:126-154 | The best triple is unique and does not depend on the order or repetition of the SYSCLK dividers. |
| `ClockSolver.UsbIsPreferred` | src/mcp_server/clock_solver.py:144-146 | If 48 MHz is asked for and any fitting triple allows it, the answer gives exactly 48 MHz. |
| `PllChoice.FitsIff` | src/mcp_server/clock_solver.py:124-143 | The (M, N) that fit with a divider are the multiples k of (f_in/g, vco_out/g), g = gcd(f_in, vco_out), for k between two bounds that the register and VCO-input limits give. |
| `PllChoice.ReachableIff` | src/mcp_server/clock_solver.py:124-155 | The search finds something exactly when one of the dividers has bounds that leave a k. |
| `PllChoice.SearchChoosesTheWinner` | src/mcp_server/clock_solver.py:124-154 | The M the search settles on, in closed form for every device: the best of one nominee per divider, the 48 MHz dividers alone when that was asked for and one of them fits. |
| `PllChoice.HighIdealChoosesTheLeast` | src/mcp_server/clock_solver.py:21-22 | Where the ideal VCO input is at or above the fastest allowed, as on all built-in devices, a divider's nominee is the least M of its bounds and the chosen one is the least of all that fit and stand. |
| `PllChoice.TruncatedTowardsZero` | src/mcp_server/clock_solver.py:151-151 | The VCO input reported is the quotient cut towards zero. |
| `PllChoice.ChosenMDividesIff` | src/mcp_server/clock_solver.py:131-150 | The chosen M divides f_in, and so the reported VCO input is exact, precisely when the M of the closed form does, which is when its multiplier divides g. |
| `PllChoice.ChosenMNeedNotDivide` | src/mcp_server/clock_solver.py:131-150 | An STM32F411 at 25 MHz asked for 100 MHz gets M = 13, which leaves a remainder of 12, and a truncated VCO input, although M = 25 fits and divides. |
| `ClockSolver.BusPrescaler` | src/mcp_server/clock_solver.py:83-90 | None exactly when no divider works; otherwise the first, which for an ascending table is the least. |
| `ClockSolver.FlashLatency` | src/mcp_server/clock_solver.py:93-97 | The first covering row's wait states, or the last row's. |
| `ClockSolver.LatencyIsLeastAdequate` | src/mcp_server/clock_solver.py:93-97 | For a sorted table whose last row covers HCLK the wait states are adequate and the least that are. |
| `ClockSolver.PastTheTableNothingCovers` | src/mcp_server/clock_solver.py:93-97 | The wait states are adequate exactly when the last row covers HCLK. |
| `ClockSolver.SolveBuses` | src/mcp_server/clock_solver.py:208-218 | AHB and APB prescalers are least and their quotients exact, or the refusal is right. |
| `ClockSolver.SolveClockTree` | src/mcp_server/clock_solver.py:158-253 | The answer is an exact tree (SYSCLK, HCLK, PCLK1, PCLK2, clk48, wait states) under which no refusal applies, or the one refusal that does; a missing or zero target is always refused; the source is the request's own crystal or the profile's oscillator, and SYSCLK is to the hertz what the PLL makes of it; and a request with a tree by any prescalers is solved, or refused for want of an APB divider, which cannot happen when the HCLK limit is at most 16 times each PCLK limit. |
| `ClockSolver.FeasibleAnswerIsUnique` | src/mcp_server/clock_solver.py:158-253 | The promise determines the answer. |
| `ClockSolver.RefusalMeansNoAnswer` | src/mcp_server/clock_solver.py:174-218 | After a refusal no exact answer with the least prescalers exists. |
| `ClockSolver.GreedyIsCompleteWithinSixteen` | src/mcp_server/clock_solver.py:208-218 | Where the HCLK limit is at most 16 times each PCLK limit, choosing AHB first never loses a tree, whatever other prescalers would have done. |
| `ClockSolver.GreedyLosesATreeIff` | src/mcp_server/clock_solver.py:208-218 | Past that bound, exactly when it does: the greedy HCLK is a multiple of 16 and above 16 times a PCLK limit, while some power of two up to 2^13 brings SYSCLK down to both limits. |
| `ClockSolver.NothingIsLostBelowZero` | src/mcp_server/clock_solver.py:83-90 | A SYSCLK of zero or less loses nothing. |
| `ClockSolver.GreedyAhbLosesATree` | src/mcp_server/clock_solver.py:208-218 | The bound is needed: a device with PCLK limits of 1/32 of its HCLK limit, and a request with a tree that is refused. |
| `ClockSolver.BuiltInsAreCovered` | src/mcp_server/device_packs.py:32-91 | The four built-in profiles keep the premises used above: the bound of 16, sorted flash tables that cover their HCLK limit, positive limits and an ideal VCO input at the fastest allowed. |
| `TimerSolver.Factor` | src/mcp_server/timer_solver.py:124-132 | A factor pair within the registers is found whenever there is one, with the least prescaler. |
| `TimerSolver.SolveTimerDividers` | src/mcp_server/timer_solver.py:97-141 | Each refusal exactly under its own condition, and what is reported as achieved is what the registers make of the clock; for an integer target `exact` holds exactly when some in-range pair gives it, then with no error and the least PSC; otherwise the pair is in range with the error bounds below, and with PSC at 0 it is the closest of all under the condition below. |
| `TimerSolver.FallbackFrequencyIsNearestIff` | src/mcp_server/timer_solver.py:136-138 | With the prescaler it chose, the fallback's period is the nearest in frequency exactly unless its quotient lies between the harmonic and the arithmetic mean of two neighbouring periods in range; then the next period is nearer. |
| `TimerSolver.FallbackPeriodIsNearest` | src/mcp_server/timer_solver.py:137 | With that prescaler no other period is nearer to the wanted divider. |
| `TimerSolver.UnscaledFallbackIsClosestIff` | src/mcp_server/timer_solver.py:100-138 | PSC is 0 exactly when the counter alone spans the wanted divider, and then the pair is the closest of all: always in the divider, and in frequency exactly unless it was rounded down too far. |
| `TimerSolver.ScaledFallbackIsClosestIff` | src/mcp_server/timer_solver.py:100-138 | In general the pair is the closest divider exactly when no whole divider nearer than its own factors within the registers; all of those lie within half the prescaler of the wanted one. |
| `TimerSolver.ScaledFrequencyIsClosestIff` | src/mcp_server/timer_solver.py:100-138 | The same for the frequency. |
| `TimerSolver.ScaledFallbackMissesTheClosest` | src/mcp_server/timer_solver.py:100-138 | On a 16-bit timer at 262149 Hz a 2 Hz target gets (3, 43692), where (25, 5243) is nearer in divider and frequency. |
| `TimerSolver.UnscaledFallbackMissesTheClosest` | src/mcp_server/timer_solver.py:100-138 | At 245 Hz a 100 Hz target is divided by 2, where 3 is nearer in frequency. |
| `TimerSolver.FallbackError` | src/mcp_server/timer_solver.py:136-138 | Relative frequency error at most 1/(2(ARR+1)), and at most 1/(ARR_max+1) once PSC > 0. |
| `Sexpr.ScanString` | src/mcp_server/netlist_parser.py:29-39 | A quoted string is read to its closing quote or the end, undoing its escapes. |
| `Sexpr.ScanSymbol` | src/mcp_server/netlist_parser.py:43-47 | A symbol is read to the next space, parenthesis or quote. |
| `Sexpr.Tokenize` | src/mcp_server/netlist_parser.py:19-48 | The index-advancing tokeniser terminates on every text and computes its tokens. |
| `Sexpr.Reader.ParseList` | src/mcp_server/netlist_parser.py:55-69 | The recursive reader with its shared position computes the nested list and stops after its closing parenthesis. |
| `Sexpr.Reader.Parse` | src/mcp_server/netlist_parser.py:71-78 | The top-level loop computes the forest of any tokens, balanced or not. |
| `Sexpr.RoundTripIff` | src/mcp_server/netlist_parser.py:19-78 | Printing a forest and reading it back gives that forest exactly when it is a forest of lists whose symbols are symbols; strings may hold anything. |
| `Sexpr.CanonicalFormReadsTheSame` | src/mcp_server/netlist_parser.py:19-78 | Every text has a canonical form that reads as the same forest. |
| `Sexpr.SpacesSeparate` | src/mcp_server/netlist_parser.py:40-41 | Outside strings each of the 29 code points that count as spaces separates what is before it from what is after. |
| `Sexpr.OtherCharactersAreOneSymbol` | src/mcp_server/netlist_parser.py:42-47 | And nothing else does: a run of any other characters but parentheses and the quote is one symbol. |
| `Sexpr.ClosingAtTheEndIsImplied` | src/mcp_server/netlist_parser.py:58-78 | One more closing parenthesis at the end never changes what is read. |
| `WriteWindow.StartedIsGuarded` | src/mcp_server/gdb_client.py:150-167 | Starting a session leaves it locked, or there is none. |
| `WriteWindow.BodyRunsLifted` | src/mcp_server/gdb_client.py:295-315 | A body runs only under a lift that took effect: an outermost window has memory writes on, and register writes if it asked for them. |
| `WriteWindow.EveryProgramIsGuarded` | src/mcp_server/gdb_client.py:279-328 | For any nesting of windows, exceptions, restarts and failed commands the guard holds afterwards and every window is closed. |
| `WriteWindow.LockedOutsideWindows` | src/mcp_server/gdb_client.py:279-328 | Whenever no window is open the session is dead or permits nothing. |
| `WriteWindow.VerifyFindsNothing` | src/mcp_server/gdb_client.py:255-268 | The lockdown check never finds a permission left on; it complains only when a "show" fails. |
| `WriteWindow.WindowOpensIff` | src/mcp_server/gdb_client.py:294-313 | Exactly which replies let a window open: an outermost one needs its lifts and their checks, an inner one at most the first lift of registers. |
| `WriteWindow.LockdownCheckIff` | src/mcp_server/gdb_client.py:255-270 | The lockdown check passes inside a window, and outside exactly when all three questions are answered and nothing is permitted. |
| `WriteWindow.LiftCheckIff` | src/mcp_server/gdb_client.py:294-313 | The check of a lift goes through exactly when GDB answers that the permission is on. |
| `WriteWindow.FailedLiftMayHaveTaken` | src/mcp_server/gdb_client.py:294-328 | A window whose first command fails runs no body and leaves memory writes on exactly when that command took effect, which is what its `finally` is for. |
| `WriteWindow.StartsIff` | src/mcp_server/gdb_client.py:150-253 | A session starts exactly when GDB is spawned, takes the three locks and answers the three checks; a lock that fails leaves none. |
| `WriteWindow.LiftAddsOnlyWhatWasAsked` | src/mcp_server/gdb_client.py:294-313 | A window adds memory writes, and register writes only if it asked; an inner one that did not changes nothing. |
| `WriteWindow.MomentsMissNothing` | src/mcp_server/gdb_client.py:280-331 | The points of a program that the next two are about: the start of every body, what comes after a first part, and those inside. |
| `WriteWindow.RegistersOnlyWhenAsked` | src/mcp_server/gdb_client.py:280-331 | At every point of every program, register writes are permitted only if some window since the outermost opened asked for them. |
| `WriteWindow.NeverAskedNeverPermitted` | src/mcp_server/gdb_client.py:280-331 | A program none of whose windows asks for registers, begun outside every window, never has register writes permitted. |
| `WriteWindow.RegistersOutliveTheirWindow` | src/mcp_server/gdb_client.py:314-325 | After an inner window that asked, register writes stay permitted until the outermost closes. |
| `WriteWindow.FailedRestoreKillsTheSession` | src/mcp_server/gdb_client.py:316-328 | A failed restore ends the session and never replaces what the body raised. |
| `WriteWindow.GdbClientManager.SetAllOff` | src/mcp_server/gdb_client.py:241-244 | The loop stops at the first permission that cannot be switched off. |
| `WriteWindow.GdbClientManager.AssertLockdown` | src/mcp_server/gdb_client.py:255-268 | Every locked permission is read back and the wrong ones refused. |
| `WriteWindow.GdbClientManager.StartGdb` | src/mcp_server/gdb_client.py:150-167 | A session is spawned permitting everything, locked, and verified, or torn down. |
| `WriteWindow.GdbClientManager.OpenWindow` | src/mcp_server/gdb_client.py:294-314 | The window up to its `yield`, with its counters and checks. |
| `WriteWindow.GdbClientManager.CloseWindow` | src/mcp_server/gdb_client.py:316-328 | Its `finally`. |
| `SymbolCache.KeyIsTheLowWord` | src/mcp_server/gdb_client.py:902 | The key is `pc & 0xFFFFFFFF`, and a 32-bit address is its own. |
| `SymbolCache.HoldsTheMostRecent` | src/mcp_server/gdb_client.py:900-911 | The cache holds exactly the last 4096 distinct keys used since the table last changed, in order of last use. |
| `SymbolCache.AnswersAreCurrentIff` | src/mcp_server/gdb_client.py:900-918 | An answer is the current table's exactly when the key's cached name was not fetched by a lookup that failed. |
| `SymbolCache.CacheRefinesTheLookup` | src/mcp_server/gdb_client.py:900-918 | With no failed lookup every answer equals the uncached one, over any run of lookups and table changes. |
| `SymbolCache.FailureIsRemembered` | src/mcp_server/gdb_client.py:913-918 | One failed lookup is answered with no name from then on. |
| `SymbolCache.SymbolCache.SymbolizePc` | src/mcp_server/gdb_client.py:900-911 | Hit, miss and eviction on the ordered dictionary. |
| `HubTopology.VanishedIsOnChannelIff` | src/mcp_server/hub_topology.py:96-113 | A channel's verdict is about that channel exactly when no other line with a baseline probe is down. |
| `HubTopology.EveryLineEndsOn` | src/mcp_server/hub_topology.py:96-106 | No line is left down, even when detection raises half-way. |
| `HubTopology.DiscoveryIsExact` | src/mcp_server/hub_topology.py:67-137 | A channel maps to the only baseline probe on it, is ambiguous exactly when there are several, and is otherwise not reported. |
| `HubTopology.OneProbePerChannel` | src/mcp_server/hub_topology.py:67-137 | In terms of where the probes are: a channel is given a probe exactly when its line was up and was taken down, and that probe is the only one plugged in there. |
| `HubTopology.UnmappedAreTheRest` | src/mcp_server/hub_topology.py:109-134 | The unmapped probes are the baseline probes not alone on a toggled channel. |
| `HubTopology.TroubleIsReported` | src/mcp_server/hub_topology.py:88-106 | For all replies, and when detection ends the loop early: a channel is reported as not disconnected, or not reconnected, exactly when that happened to it. |
| `HubTopology.UnacknowledgedOffMisattributes` | src/mcp_server/hub_topology.py:90-94 | An "off" that works without acknowledgement gives the next channel a probe that is not on it. |
| `HubTopology.Rack.Toggle` | src/mcp_server/hub_topology.py:90-129 | One turn of the loop, for every combination of replies. |
| `HubTopology.Rack.DiscoverByToggle` | src/mcp_server/hub_topology.py:67-137 | The whole loop. |
| `LoopControl.LoopIsBounded` | src/mcp_server/tools/acceptance_tools.py:201-213 | An unforced loop records at most max_iterations entries (one if that is less than one) and after that many calls has ended. |
| `LoopControl.StallsAtTheFirstWindow` | src/mcp_server/loop_control.py:90-113 | An unforced loop is stalled exactly when its last entry closes a window of equal non-empty failures with iterations to spare; no earlier entry closed one, converged or ran out. |
| `LoopControl.StalledIff` | src/mcp_server/loop_control.py:90-103 | A window stalls exactly when one non-empty list is what each of the last entries failed with, so build and flash errors never do. |
| `LoopControl.ConvergedIffNothingUnsatisfied` | src/mcp_server/loop_orchestrator.py:19-38 | Over the evaluator's verdicts a pass converges exactly when it built, reached its point and left no check unsatisfied. |
| `LoopControl.DifferencesAddUp` | src/mcp_server/loop_control.py:46-87 | Adding up the recorded differences gives back the last entry's failures, in every run. |
| `LoopControl.DifferencesAreMinimal` | src/mcp_server/loop_control.py:68-83 | An entry's failures are (previous - newly satisfied) + newly broken, with the least such differences. |
| `LoopControl.LoopState.Stalling` | src/mcp_server/loop_control.py:90-100 | The two scans of the window. |
| `LoopControl.LoopState.RecordIteration` | src/mcp_server/loop_control.py:46-87 | An entry is appended and the status recomputed. |
| `LoopControl.LoopState.RunIteration` | src/mcp_server/loop_orchestrator.py:19-38 | Build, flash and evaluation are called in order, each only if those before it succeeded. |
| `LoopControl.LoopState.RunAcceptanceIteration` | src/mcp_server/tools/acceptance_tools.py:190-213 | A loop that has ended is left alone unless forced. |
| `AcceptanceEval.Diagnose` | src/mcp_server/fault_analysis.py:51-82 | Which fault classes are active, bit by bit; none exactly when no known CFSR bit and no HFSR bit is set. |
| `AcceptanceEval.EvaluateAcceptance` | src/mcp_server/acceptance_eval.py:127-164 | Every check is judged in order under its id: a value that was read passes exactly when, bit by bit under its mask, it stands to the wanted one as the operator says; ok exactly when all were read and passed; the counters count. |
| `AcceptanceEval.CountIs` | src/mcp_server/acceptance_eval.py:150-164 | The counts of a verdict count the results with that mark. |
| `AcceptanceEval.MarksAreJudgements` | src/mcp_server/acceptance_eval.py:31-115 | What each mark says, per kind of check: orders and differences, bits set and clear, masked bits, fault flags by their numbers, the symbol at pc, and an error exactly when the target could not be read. |
| `AcceptanceEval.JudgedLoopConvergesIff` | src/mcp_server/acceptance_eval.py:127-164 | A loop fed by the judge converges exactly when the pass ran through and every check passed. |
| `AcceptanceEval.Validate` | src/mcp_server/acceptance_model.py:34-89 | A spec validates exactly when it has checks and no two share an id; otherwise the first repeated id is named. |
| `AcceptanceSynth.ClockRuleMeans` | src/mcp_server/acceptance_synth.py:342-353 | A clock check passes exactly when the word is readable and its bit set, whatever else it holds; beyond bit 31 nothing is left of it. |
| `AcceptanceSynth.NvicRuleMeans` | src/mcp_server/acceptance_synth.py:373-385 | An interrupt check passes exactly when its ISER bit is set. |
| `AcceptanceSynth.GpioRuleMeans` | src/mcp_server/acceptance_synth.py:411-426 | A pin check passes exactly when its two MODER bits are its role's. |
| `AcceptanceSynth.PinTargetsAre` | src/mcp_server/acceptance_synth.py:278-290 | The pins to check are those of alternate-function (mode 2) and analog (mode 3) roles, named as the plan writes them or by port and number. |
| `AcceptanceSynth.IserPlacesAreDistinct` | src/mcp_server/acceptance_synth.py:52-56 | Two interrupt numbers share an (address, bit) place exactly when they agree modulo 2^35. |
| `AcceptanceDerive.DeriveClocks` | src/mcp_server/acceptance_synth.py:331-353 | The clock loop: one check per placed clock, one report per other, an exception at a negative bit. |
| `AcceptanceDerive.DeriveNvic` | src/mcp_server/acceptance_synth.py:359-385 | The interrupt loop. |
| `AcceptanceDerive.DeriveGpio` | src/mcp_server/acceptance_synth.py:399-426 | The pin loop. |
| `AcceptanceDerive.DeriveAcceptanceSpec` | src/mcp_server/acceptance_synth.py:299-449 | The whole derivation, F1 exclusion included. |
| `AcceptanceDerive.VerdictIsThePlan` | src/mcp_server/acceptance_synth.py:331-426 | The derived spec is passed exactly when every placed clock and interrupt is on, every placed pin in its mode and no fault active, whatever the other bits hold. |
| `AcceptanceDerive.NothingIsDroppedInSilence` | src/mcp_server/acceptance_synth.py:331-431 | What is reported is exactly what was asked for, has its resolver and no place; where every kind is asked for, checks and reports are as many as the targets. |
| `AcceptanceDerive.RaisedIff` | src/mcp_server/acceptance_synth.py:342-347 | The derivation raises exactly for a placed clock with a negative bit, or a placed pin it checks with a negative number. |
| `AcceptanceIds.DerivedSpecValidatesIff` | src/mcp_server/acceptance_synth.py:313-426 | A derived spec validates exactly when it has a check and no two placed clocks share a name and no two placed pins a port-pin. |
| `AcceptanceIds.PortPinsAreNames` | src/mcp_server/acceptance_synth.py:413-414 | For one-letter ports, different (port, pin) pairs never collide. |
| `AcceptanceIds.DigitsAreInjective` | src/mcp_server/acceptance_synth.py:413-414 | Decimal pin numbers are injective. |
| `Bits.AndIsBitwise` | src/mcp_server/acceptance_eval.py:45-48 | `x & y` has exactly the bits both have, for integers of either sign. |
| `Bits.MaskedComparisons` | src/mcp_server/acceptance_eval.py:45-48 | `x & y == y` and `x & y == 0` as statements about single bits. |
| `Bits.MaskOfOneBit` | src/mcp_server/acceptance_eval.py:45-48 | `x & (1 << b)` singles out bit b, for every integer. |
| `Bits.MaskOfTwoBits` | src/mcp_server/acceptance_eval.py:60-66 | `x & (3 << s)` singles out two bits. |
| `InitCode.RoutinesAreThoseAdded` | src/mcp_server/framework_render.py:142-172 | One routine per vector, calling exactly what was added under it. |
| `InitCode.EveryEnabledInterruptIsServed` | src/mcp_server/framework_render.py:134-172 | Every enabled vector has exactly one routine, shared vectors included, and it calls the handler on that block's or stream's handle. |
| `InitCode.BlockEnables` | src/mcp_server/framework_render.py:233-341 | A block's init function enables exactly its vectors and its live streams' vectors, and nothing without a HAL init call. |
| `InitCode.EveryEmittedEnableIsServed` | src/mcp_server/framework_render.py:134-172 | Every emitted HAL_NVIC_EnableIRQ has its routine. |
| `InitCode.DmaClocksComeFirst` | src/mcp_server/framework_render.py:271-299 | The clock of every stream that is initialised is switched on before any stream's code, and no clock twice. |
| `InitCode.IsrTable.Add` | src/mcp_server/framework_render.py:145-150 | A call is added once, under its vector, in order of first use. |
| `InitCode.RenderIsrs` | src/mcp_server/framework_render.py:134-172 | The loops over blocks, vectors and streams build that table. |
| `FrameworkSolver.MarkConflicts` | src/mcp_server/framework_solver.py:464-481 | The first stream on an instance keeps it and every later one is marked. |
| `FrameworkSolver.OneInitPerInstance` | src/mcp_server/framework_solver.py:464-481 | From the flags the marking leaves: over the blocks with a HAL init call no two rendered streams share a DMA instance, and an instance is initialised exactly when the first block that asks for it has one. |
| `FrameworkSolver.PortPinsReadBack` | src/mcp_server/framework_solver.py:105-118 | "P", a port letter and a number, in either case, read back as that port and number, for A to K and 0 to 15. |
| `FrameworkSolver.StripIs` | src/mcp_server/framework_solver.py:112-112 | What is read is the text without the spaces at its two ends, and nothing else is taken off. |
| `FrameworkSolver.ReadPortPinsAreNames` | src/mcp_server/framework_solver.py:105-118 | Nothing else is read, but for case, surrounding spaces and one leading zero. |
| `FrameworkSolver.HeaderOfParsed` | src/mcp_server/framework_solver.py:105-118 | A port-pin the plan can read is captured from its comment as what the plan has read, and as it stands exactly when it is written without spaces and in capitals. |
| `FrameworkSolver.SingleVectors` | src/mcp_server/interrupt_solver.py:31-79 | A UART or SPI peripheral has the one vector called after it, with its routine and that driver's handler. |
| `FrameworkSolver.DualVectors` | src/mcp_server/interrupt_solver.py:31-84 | An I2C peripheral has an event and an error vector with a routine and handler each where the family has them apart, and otherwise none. |
| `FrameworkSolver.TableVectors` | src/mcp_server/interrupt_solver.py:31-90 | A timer, ADC or DAC has the vectors of the family table, in order, under that driver's handler. |
| `FrameworkSolver.GivenVectors` | src/mcp_server/interrupt_solver.py:61-74 | Names given by hand replace these, less the empty ones. |
| `FrameworkSolver.VectorsHaveHandlersIff` | src/mcp_server/interrupt_solver.py:31-90 | Every resolved vector has a HAL handler exactly when the peripheral's kind has one. |
| `SourceMap.HeaderKeysAreCanonical` | src/mcp_server/provenance.py:38-39 | A port-pin is captured as itself exactly when it is canonical. |
| `SourceMap.CapturedIff` | src/mcp_server/provenance.py:38-39 | What a header captures is the canonical name it begins with, after any spaces, unless a word character follows. |
| `SourceMap.UnreadLinesAreIgnored` | src/mcp_server/provenance.py:60-94 | A line whose name no pattern takes is a line like any other, wherever it stands in a file. |
| `SourceMap.BuildSourceMap` | src/mcp_server/provenance.py:51-94 | The line loop computes the scan. |
| `SourceMap.Index` | src/mcp_server/provenance.py:97-113 | The index keeps the first construct of each key. |
| `SourceMap.CallLocatedIff` | src/mcp_server/provenance.py:116-142 | A clock or interrupt key is located exactly when the file enables it, at a line that does so and in the function that line is in. |
| `SourceMap.EveryClockCheckIsLocated` | src/mcp_server/framework_render.py:199-236 | Every clock of the plan is located in the rendered file. |
| `SourceMap.InterruptCheckIsLocatedIff` | src/mcp_server/framework_render.py:233-341 | An interrupt is located exactly when a block with a HAL init call enables it. |
| `SourceMap.PinCheckIsLocatedIff` | src/mcp_server/framework_render.py:215-230 | A pin is located exactly when its port-pin is canonical, at the call of the first pin with that header, in MX_GPIO_Init. |
| `SourceMap.PinCheckIsItsOwnIff` | src/mcp_server/provenance.py:84-113 | The located line is the pin's own exactly when no pin before it has the same header. |
| `SourceMap.LocatedPinLine` | src/mcp_server/provenance.py:84-92 | That line is the mode-setting call with the pin's own header before it. |
| `Pipeline.ClockChecksPointAtTheirEnable` | src/mcp_server/acceptance_synth.py:235-245 | Every derived clock check points at the line that enables its clock. |
| `Pipeline.InterruptChecksPointAtTheirEnable` | src/mcp_server/acceptance_synth.py:248-275 | A derived interrupt check points at the line that enables it exactly when some device that asks for it has a HAL init call. |
| `Pipeline.AllInterruptChecksAreLocated` | src/mcp_server/acceptance_synth.py:248-275 | When every device that asks for an interrupt has one, every interrupt check is located. |
| `Pipeline.PinChecksAreTheWires` | src/mcp_server/acceptance_synth.py:278-290 | The derived pin checks are those of the wires whose role has mode bits, each under the wire's own port, number and name. |
| `Pipeline.PinChecksPointAtTheirCall` | src/mcp_server/acceptance_synth.py:411-426 | A derived pin check points at a HAL_GPIO_Init call exactly when the netlist writes the pin without spaces and in capitals; the call is always one for that port and number, and the check's own wire's unless an earlier wire carries the same name. |

## Left out

- Vendor hub calls, RPC transport, JSON, state files, process spawning and signals: the hub is a set of dark lines, RPC methods are entry points, and replies, expiry and timeouts are choices of the environment.
- Wall-clock values: only "expired" and "timed out" remain, as booleans; the queue positions, holders and timings reported to a user are not modelled.
- `acquire`'s blocking loop is cut at each `cond.wait`: what a thread does between two waits is one step, and a wake-up may come at any time.
- Looking up live sessions, deciding, and sending the command are one step, as they are under the manager's lock.
- Power and data ledgers are one set of lines in the protocol and two sets in the manager's class; sorted iteration orders are any order, which is proved not to matter for releases.
- Audit entries keep the thread, the client, the decision and the terms, not their texts.
- A guard mode outside the known ones, and a malformed request, end a call before anything modelled here happens.
- An exception of the vendor library on a neighbour's setter, which is neither a guard nor an availability error: it aborts an isolation with the neighbours before it cut and unaccounted; `Reply` has no such case.
- The hub's idle disconnect, measurements and map editing, and `configure` with its own rack-wide lock; a reconnection that fails is a refused command.
- The pid probe and the client table of `maintain`; its lease and release parts are modelled.
- Float rounding: quotients of the solvers are exact rationals, so a target whose quotient is not representable may round differently in the original.
- Device tables: pin maps, vector tables and DMA maps are parameters, and so are clock profiles, of which only the built-in ones are written out.
- The notes, summaries and HAL text of a clock solution, and the injection of PSC and ARR into a plan's field list.
- Recursion depth: Python refuses very deep nesting in the KiCad reader, the model does not.
- The KiCad, Altium, OrCAD and CSV readers above the S-expression level.
- Text of the generated code: a line is what the scanner can tell apart, every rendered value stays on its own line, and word characters and digits are ASCII.
- Addresses given as text: an address is its value, and hexadecimal text is identified with the number it denotes.
- Checks written by hand: validation covers missing checks and repeated ids, not missing fields or unknown kinds.
- Target family text: whether a device is an F1, and whether an I2C vector's name denotes its error vector, are inputs.
- A "show" that GDB answers without a value counts as a command that failed.
- An exception raised while GDB is being stopped, and GDB dying on its own.
- Symbol tables changed by commands other than loading symbols or a core.
- The table methods of the daemon class are proved against the protocol's functions one section at a time; the class does not interleave them, the protocol does.
- ClockSolver.SolveClockTree: past the ratio of 16 it does not promise a tree whenever one exists, because the code chooses AHB before APB; GreedyLosesATreeIff says when it misses one.
- PllChoice.SearchChoosesTheWinner: is about a positive source frequency and VCO range; the search itself is modelled for any nonzero source.
- TimerSolver.SolveTimerDividers: does not promise the closest pair for every target, because the code tries one prescaler and rounds the divider; UnscaledFallbackIsClosestIff, ScaledFallbackIsClosestIff and ScaledFrequencyIsClosestIff say for which targets it is.
- HubShutdown.StopIsFinalIff: says when a line can go dark after a stop, not when it will; the process may end before a call left behind gets to its command.
- HubProtocol.EveryCutIsOwedOrInFlight: promises coverage of debts, not that a client owes only its own cuts, because a power cycle leaves an older debt of another client recorded.
