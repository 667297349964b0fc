# Verification of the dual egress gateway's core

A Dafny model of the gateway's concurrent core and proofs about it. The gateway lets client
connections share a pool of upstream proxy nodes: a selector hands out round-robin starts, a
registry admits connections to nodes and drains nodes that disappear, probes decide which nodes are
healthy, and subscriptions decide which nodes exist.

| files | what they model |
|---|---|
| `SelectorModel`, `SelectorRuns`, `AttemptModel`, `Fairness`, `Selector` | the ticketed selector and its attempts: state machine, runs, fairness, and the objects with their loops |
| `EngineModel`, `RegistryModel`, `LeaseAccounting`, `NodeEffects`, `ApplyTransaction`, `RegistryRuns`, `Registry` | engine bookkeeping, nodes, leases, probe gates, removal with draining and `Apply`: state machine, invariant, runs, and the objects with their loops |
| `Dialing`, `Session` | one connection's dial with failover |
| `Gateway`, `GatewayInvariant`, `GatewayRuns` | everything at once: any number of sessions and listeners, probe rounds, refreshes and shutdown, interleaved at the program's critical sections |
| `StepEffects`, `DialRuns`, `LateDials` | in the same interleavings: what each step does to the fields of nodes, attempts and selectors, what one dial does, and what dials that start after their session's release leave behind |
| `Merge`, `Manager`, `LastKnownGood` | the subscription manager: merging, refreshing, seeding, and whole runs of it over the registry |
| `Episodes`, `Monitor` | the alert monitor |
| `Structure`, `VlessFrontEnds` | the bounded walk over a decoded subscription, and the two front ends for VLESS nodes |
| `Ordering`, `Options` | string order, sorted enumerations, counting |

How the pieces fit: each mutex-protected method of the program is one atomic step, written as a
function on an abstract state (`SelectorModel.Finish`, `RegistryModel.Apply`, ...). The objects of the
program are classes whose methods keep the program's loops and branches and are proved to compute
exactly these functions; the properties are lemmas about all runs of the functions. What a function
or step does is also stated on its own, field by field and without naming another function of the
model (`NodeEffects`, `StepEffects`, the turns in `Dialing`, the per-source lemmas in `Manager`, the
`...Means` lemmas of `VlessFrontEnds`). Map iteration
order is arbitrary everywhere: methods take keys with `:|`, and `RegistryModel.Apply` takes the order
of its builds as an argument over which the lemmas quantify. Whether the outbound library accepts a
node, whether a dial or probe succeeds, what a fetch returns and whether a notification is delivered
are parameters, so every statement holds for every behaviour of the network. Nothing here was run.

What the proofs assume, and where it shows:

- A selector counter does not wrap around. Counters are unbounded naturals.
- One registry per engine, and the library's create and remove calls succeed or fail as a whole.

Where the program falls short of what it is for:

- *A dial that starts after its session's release leaks its lease.* `dial` never asks whether
  `release` has run (`internal/httpproxy/server.go:123-135`), and the HTTP transport dials from
  goroutines of its own (`internal/httpproxy/forward.go:143-145`), one of which may wait for the
  session's mutex behind `release`. If it then connects it pins a lease that no release will close:
  the node stays leased for good, and its gate taken if it was acquired half-open
  (`LateDials.LeaksAreForGood`).
  The model has these dials. `LateDials.LateDialHappens` is a legal run that ends this way: one node
  is applied, a session connects and is released, and then its dial takes its snapshot, draws its
  ticket, acquires the node, connects and commits. `LateDials.LeftBehindIff` is the exact condition:
  once everything has finished, the pool is clean if and only if no session committed a dial after
  its release; `LateDials.NoLateDialNothingLeft` adds that runs in which no dial starts after its
  session's release are clean.
- `README.md:170` promises one reminder per expiry date in the life of the process. The monitor
  compares only with the date it delivered last, so a subscription that reports one date, another,
  and the first again is reminded of the first twice (`Monitoring.ReminderCanRepeat`).
  `Monitoring.RemindedOncePerExpiryIff` says exactly when the promise holds.
- A VLESS node written as a Clash entry and as a URI is one node only under a condition, which
  `VlessFrontEnds.FrontEndsAgreeIff` states exactly. The case a user can meet is a Reality node with
  an empty short ID: both front ends accept it, and its two spellings get different canonical maps
  (`VlessFrontEnds.EmptyShortIdSplitsTheNode`).

## Model

| member | source | states |
|---|---|---|
| SelectorObjects.Selector.Begin | internal/pool/selector.go:26-45 | an attempt over candidates gets the next ticket and the next reserved start; an attempt over none gets neither and leaves the selector alone |
| SelectorObjects.Selector.Finish | internal/pool/selector.go:101-119 | the retirement loop computes the transition whose reachable states the next rows describe |
| SelectorObjects.Attempt.Next | internal/pool/selector.go:59-78 | the loop offers the first eligible candidate at or after the current offset, in cyclic order from the start, and remembers its offset |
| SelectorObjects.Attempt.Commit | internal/pool/selector.go:80-91 | reports the offered node's position plus one under the attempt's ticket, once; does nothing for a node not offered or a finished or unreserved attempt |
| SelectorObjects.Attempt.Abort | internal/pool/selector.go:93-99 | reports an abort under the attempt's ticket, once |
| SelectorRuns.RetirementIsInTicketOrder | internal/pool/selector.go:80-119 | in every reachable state `retireTicket` is the least unreported ticket or `nextTicket`, and `results` holds exactly the reported tickets from there on |
| SelectorRuns.CursorIsGreatestRetired | internal/pool/selector.go:80-119 | in every reachable state `cursor` is the greatest target committed by a retired ticket, 0 if none, and with nothing outstanding the reservations continue from it |
| SelectorRuns.OrderOfResultsIsIrrelevant | internal/pool/selector.go:101-119 | any two orders in which the same outstanding attempts report the same outcomes end in the same selector state |
| SelectorRuns.CursorNeverDecreases | internal/pool/selector.go:105-115 | the cursor never decreases along any run |
| SelectorRuns.OutstandingStartsAreSpread | internal/pool/selector.go:31-40 | outstanding tickets t1 < t2 have starts exactly t2 - t1 apart, hence start on different ones of n candidates when t2 - t1 < n |
| SelectorRuns.AbortedPeriodRestores | internal/pool/selector.go:93-118 | a busy period in which every attempt aborts ends with the reservation counter it began with and the cursor unmoved |
| AttemptModel.OffersAreTheEligible | internal/pool/selector.go:59-78 | an attempt offers exactly the eligible candidates, each once, in cyclic order from its start |
| AttemptModel.AtIsAbsolute | internal/pool/selector.go:67-70 | the candidate offered at offset k stands at (start + k) modulo the number of candidates |
| AttemptModel.NextEndsIff | internal/pool/selector.go:59-78 | Next answers that there is no node exactly when no eligible candidate is left from the offset on |
| AttemptModel.NextOffersFirstLeft | internal/pool/selector.go:59-78 | otherwise it passes and offers the first eligible one that is left, and remembers its offset |
| Fairness.StartsAreTickets | internal/pool/selector.go:31-44 | if every report commits its attempt's first offer, then in every interleaving each start equals its ticket number |
| Fairness.ConcurrentAttemptsAreFair | internal/pool/selector.go:31-44 | then the first k tickets serve each of n all-eligible nodes floor(k/n) or ceil(k/n) times |
| Fairness.FirstOfferIsTheStart | internal/pool/selector.go:40-75 | with all candidates eligible the first offer is the candidate at the start modulo n |
| Fairness.ServiceFollowsTheCycle | internal/pool/selector.go:59-118 | one attempt at a time, each committing its first offer, commits the successive eligible positions from the cursor on |
| Fairness.EachEligibleNodeOncePerRound | internal/pool/selector.go:59-118 | any e consecutive commits hit each of the e eligible nodes exactly once |
| Fairness.LaterServices | internal/pool/selector.go:59-118 | the services after the first i are the services from the cursor then reached, so the previous row covers every stretch of a run |
| RegistryObjects.Outbounds.Build | internal/proxycore/engine.go:109-151 | refuses when closed, unusable, already built or not creatable, in this order; otherwise records the tag and returns a dialer never returned before |
| RegistryObjects.Outbounds.CloseDialer | internal/proxycore/engine.go:192-203 | only the first close of a dialer frees its tag, and not after the engine is closed |
| RegistryObjects.Outbounds.Close | internal/proxycore/engine.go:165-174 | forgets all tags once |
| RegistryObjects.Registry.MarkFailure | internal/pool/registry.go:143-157 | marks the node unhealthy with a next probe time and reports whether that is a transition; touches nothing else, whether or not the node is being removed |
| RegistryObjects.Registry.MarkSuccess | internal/pool/registry.go:159-172 | marks a node not being removed healthy and reports whether that is a transition |
| RegistryObjects.Registry.RoutingSnapshot | internal/pool/registry.go:184-209 | both loops compute the candidate list that SnapshotMatchesAdmission describes |
| RegistryObjects.Registry.Acquire | internal/pool/registry.go:211-230 | admits a healthy node, or half-open an unhealthy one whose gate is free, with a fresh lease; refuses otherwise without a change |
| RegistryObjects.Registry.ProbeDue | internal/pool/registry.go:232-246 | the loop takes the gate and one lease of each due node in order |
| RegistryObjects.Registry.Release | internal/pool/registry.go:314-331 | gives one lease and, if gated, the gate back; drops a removed node with its last lease and closes its dialer |
| RegistryObjects.Registry.Apply | internal/pool/registry.go:71-141 | all five loops, in any map order, compute the transition that ApplyIsATransaction describes, and keep order and ownership |
| RegistryObjects.NodeLease.Close | internal/pool/registry.go:307-312 | releases the lease the first time and does nothing afterwards |
| NodeEffects.Acquiring | internal/pool/registry.go:211-230 | admits exactly a stored live node that is healthy or may be tried half-open with its gate free; takes one lease and, if it is unhealthy, its gate, and changes nothing else |
| NodeEffects.Failing | internal/pool/registry.go:143-157 | a stored node, draining or not, becomes unhealthy and failed until its next probe time; nothing else changes |
| NodeEffects.Succeeding | internal/pool/registry.go:159-172 | a live node becomes healthy and loses its failure; a draining node keeps all fields; nothing else changes |
| NodeEffects.Releasing | internal/pool/registry.go:314-331 | gives back one lease and the gate it held; the last lease of a draining node drops the node and closes its dialer for the first time |
| NodeEffects.Building | internal/proxycore/engine.go:109-151 | the four refusals in order, without a change, or the tag taken and a new dialer |
| NodeEffects.ClosingOne | internal/proxycore/engine.go:192-203 | one more close; the tag is freed by the first, unless the engine is shut |
| NodeEffects.Shutting | internal/proxycore/engine.go:165-174 | the first shutdown forgets all tags and keeps the dialers; a second changes nothing |
| NodeEffects.ShutIsForGood | internal/proxycore/engine.go:109-174 | over any run after a shutdown no tag is remembered and no dialer is built |
| LeaseAccounting.ReleaseGuardsHold | internal/pool/registry.go:314-331 | releasing an open lease always finds its node stored, with a positive lease count and, if gated, its gate taken, and the dialer open: the guards of release are never needed |
| RegistryRuns.LeasesAndGatesAreAccounted | internal/pool/registry.go:211-331 | over all runs `active` is the number of open leases of the stored node, at most one is gated and `probing` says whether one is, removed nodes still stored have leases, and the order is the strictly sorted list of live nodes |
| RegistryRuns.DialersLiveAndDieOnce | internal/proxycore/engine.go:131-203 | over all runs every dialer ever built is open with exactly one owning node, or closed exactly once with none; open leases hold open dialers; until the engine is closed it knows exactly the tags of the stored nodes |
| RegistryRuns.TagsNeverClash | internal/proxycore/engine.go:131-134 | over all runs the "already exists" refusal is unreachable |
| RegistryRuns.ProbeDueTakesExactlyTheDue | internal/pool/registry.go:232-246 | a stored node gets its gated lease, its gate taken and its count raised exactly if it is not removed, not gated and its probe time is not in the future; otherwise it is unchanged |
| RegistryRuns.DueLeases | internal/pool/registry.go:232-246 | the leases handed out are the gated leases of exactly those nodes, no two for one node |
| RegistryRuns.SnapshotMatchesAdmission | internal/pool/registry.go:184-230 | the snapshot lists each live node once, sorted; offers it half-open exactly if no live node is healthy and its gate is free; and calls it eligible exactly if it is healthy or so offered, which is when Acquire with that flag would succeed in that state |
| ApplyTransaction.ApplyIsATransaction | internal/pool/registry.go:71-141 | Apply fails exactly for an empty ID, a closed engine with something to build, or a node the library refuses; then the pool is untouched and all dialers built in the call are closed. Otherwise the live IDs are the wanted ones, in order; kept and revived nodes change only their spec and removal mark, new ones start quarantined, the others stay, marked, exactly while they have leases; and the counts are those of the added, removed and kept IDs |
| ApplyTransaction.ApplySettlesDialers | internal/pool/registry.go:83-133 | after a successful Apply every stored node has an open dialer under its own tag, kept nodes their old one, and the dialers of nodes that went are closed |
| ApplyTransaction.BuildEachExtends | internal/pool/registry.go:83-105 | building nodes the registry does not store only adds open dialers of their own with new tags |
| ApplyTransaction.WantedIsLastListed | internal/pool/registry.go:75-81 | the wanted map holds exactly the listed IDs, each with the last spec listed under it |
| Dialing.TriesAreTheAdmissible | internal/httpproxy/server.go:137-153 | undisturbed, a dial tries exactly the live nodes that are healthy or, if none is, ungated, each once, in cyclic order from the start |
| Dialing.NetLeases | internal/httpproxy/server.go:143-174 | undisturbed, a dial tries up to the first node that connects, leases and pins it, marks it healthy and gates it if it was not, marks the failed ones and leaves them neither lease nor gate, and leaves all other nodes and fields as they were |
| Dialing.TurnGivesUpIff | internal/httpproxy/server.go:143-149 | in any state a turn of the loop gives up exactly when no eligible candidate is left, aborting its ticket |
| Dialing.TurnTriesFirstLeft | internal/httpproxy/server.go:143-173 | in any state a turn passes the first eligible candidate left; a node that is gone, removed, or unhealthy and gated or not offered half-open is skipped without a change; one that connects is leased, marked, pinned and its position committed; one that fails is marked and keeps neither lease nor gate |
| Dialing.CursorAfterDial | internal/httpproxy/server.go:142-174 | with no other attempt running, the cursor ends just past the chosen position, or where it was if all failed; the ticket is finished either way |
| SessionObjects.ConnectionSession.Dial | internal/httpproxy/server.go:123-175 | a pinned session dials only its node and marks it on failure; an unpinned one runs the failover loop, pins the first node that connects, and leaves registry and selector as the three rows above describe |
| SessionObjects.ConnectionSession.TryNext | internal/httpproxy/server.go:143-173 | whatever the state, one turn of the loop commits and pins the node that connects, marks a failed one and gives its lease back, skips one that is no longer admitted, and aborts when none is left |
| SessionObjects.Server.Admit | internal/httpproxy/server.go:45-50 | a connection gets a session of its own, unpinned and not released, and is counted |
| SessionObjects.ConnectionSession.Release | internal/httpproxy/server.go:177-190 | the first release closes the pinned lease, unpins the session and lowers the connection count by one; later ones change nothing |
| GatewayInvariant.StepKeepsInv | internal/httpproxy/server.go:123-190 | every step of sessions, probes, refreshes and shutdown keeps the whole-system invariant |
| StepEffects.ProbeMarks | internal/app/app.go:325-333 | a successful probe makes a live node healthy, clears its failure and sets its probe time, a failed one makes it unhealthy and failed; a success on a draining node, and everything else, leaves the gateway as it was |
| StepEffects.DialWorksMarks | internal/httpproxy/server.go:168-170 | the same for a dial that connected |
| StepEffects.DialFailsMarks | internal/httpproxy/server.go:161-165 | and for one that failed |
| StepEffects.PinnedDialFailsMarks | internal/httpproxy/server.go:127-134 | and for a failed dial over a pinned node |
| StepEffects.SnapshotTaken | internal/httpproxy/server.go:137 | a dial's candidates are the live nodes in order, each with the eligibility and half-open flag that its health, its gate and the others' health give it |
| StepEffects.TicketDrawn | internal/httpproxy/server.go:142 | a dial gets its selector's next ticket and next reserved start, or neither if it has no candidate |
| StepEffects.GivesUpOnlyWhenNoneIsLeft | internal/httpproxy/server.go:143-149 | in the gateway too, a dial gives up exactly when no eligible candidate is left |
| StepEffects.GivingUpAborts | internal/httpproxy/server.go:145-149 | and then aborts its ticket and changes nothing else |
| StepEffects.FirstLeftIsTried | internal/httpproxy/server.go:144-153 | otherwise it passes the first eligible candidate left, and leases and dials it if the registry still admits it, or skips it without a change |
| StepEffects.CommitPins | internal/httpproxy/server.go:171-173 | a dial that connected pins its lease and reports one past its node's offset from its start |
| DialRuns.DialHoldsItsOffer | internal/httpproxy/server.go:142-172 | in every interleaving the node a dial holds is the candidate it was offered last, at that offset from the start its ticket was given |
| GatewayRuns.HeldNodesAreStored | internal/pool/registry.go:211-331 | in every interleaving the node of each lease that a dial, a pinned session or a probe holds is stored with a lease |
| GatewayRuns.ActiveIsConserved | internal/httpproxy/server.go:41-60 | in every interleaving, dials after release included, each node's `active` is the number of sessions pinned to it plus dials in flight on it plus probe leases on it, and each listener counts its sessions that have not counted down |
| GatewayRuns.NothingIsLeftBehind | internal/httpproxy/server.go:123-190 | in every interleaving, whenever no dial runs, no session is pinned and no probe holds a lease: every `active` is 0, no gate is set, no removed node is stored, and every selector has retired all tickets and rolled its reservations back to its cursor |
| LateDials.LeftBehindIff | internal/httpproxy/server.go:123-190 | in every interleaving, once all sessions are released and no dial or probe is under way: every `active` is 0 (and no gate set, no removed node stored) if and only if no session committed a dial after its release; the selectors are clean in any case |
| LateDials.NoLateDialNothingLeft | internal/httpproxy/server.go:123-190 | if no dial starts after its session's release, then nothing is left behind: no lease, no gate, no removed node, no counted connection |
| LateDials.LeaksAreForGood | internal/httpproxy/server.go:177-190 | a lease pinned after release keeps its node stored and leased, and a gate taken with it taken, through every later run |
| LateDials.LateDialLeaks | internal/httpproxy/server.go:123-175 | whenever a released session is idle and some node is admissible, one more dial on it can leak |
| LateDials.LateDialHappens | internal/httpproxy/server.go:123-190 | a legal run from a new gateway in which everything finishes and one node is leased for good |
| DialRuns.OneDial | internal/httpproxy/server.go:137-174 | in every interleaving a dial over n candidates takes at most 3n + 2 steps of its own, has ended by then, and acquires only nodes live at its snapshot, each at most once |
| DialRuns.DialsNeverStick | internal/httpproxy/server.go:137-174 | in every interleaving a dial can always take its next step |
| DialRuns.TicketIsReportedAtTheEnd | internal/httpproxy/server.go:142-172 | in every interleaving a dial's ticket is reported exactly when the dial has ended |
| GatewayRuns.ProbeRoundsAreBounded | internal/app/app.go:305-338 | at most max(1, concurrency) probes of a round run at once; a round that can end has marked each node and closed each lease once; outside a round and when it ends, so whenever Apply may be called, no probe lease is open |
| GatewayRuns.ApplyMeetsNoProbe | internal/app/app.go:151-166 | in every interleaving Apply and a new round are possible only while no round runs, when every open lease is a session's |
| GatewayRuns.RoundStartsWithTheDue | internal/app/app.go:305-320 | in every interleaving a round starts exactly one probe for each live, ungated, due node, holding its gate, with max(1, concurrency) slots |
| GatewayRuns.RoundsNeverStick | internal/app/app.go:314-337 | in every interleaving, until a round can end some probe of it can take its next step, and one that holds a slot always can |
| GatewayRuns.HeldLeasesAreOpen | internal/httpproxy/server.go:161-187 | in every interleaving, every close that a failed dial, a commit, a release still to come or a probe owes is possible, on an open lease |
| Merge.MergeSources | internal/subscription/manager.go:107-130 | whatever the map orders, the result is a merge of the sources, as the next two rows describe |
| Merge.MergeListsTheUnion | internal/subscription/manager.go:107-130 | a merge is strictly sorted by ID and has an ID exactly if some source lists it |
| Merge.MergedNode | internal/subscription/manager.go:107-130 | each merged node is some source's node but for its source IDs, which are the sorted sources that list its ID |
| Ordering.LessIsLexicographic | internal/subscription/manager.go:129 | the order is Go's on strings: a proper prefix comes first, otherwise the first difference decides |
| Merge.IdsOfMerge | internal/subscription/manager.go:124-129 | the IDs of a merge are the sorted enumeration of all listed IDs |
| Merge.MergeIsOrderIndependent | internal/subscription/manager.go:107-130 | two merges of the same sources agree in length, IDs and source lists |
| Manager.SubscriptionManager.Refresh | internal/subscription/manager.go:36-99 | replaces the nodes of exactly the sources whose body was fetched, parsed and non-empty, the expiry of those fetched, and reports the others as failed, sorted |
| Manager.RefreshedSource | internal/subscription/manager.go:43-91 | per source: a fetched, parsed and non-empty body replaces its nodes, tagged with it, and clears its error; anything else leaves its nodes and reports the fetch error, the parse error or an empty body; a successful fetch replaces its expiry either way |
| Manager.RefreshedOthers | internal/subscription/manager.go:76-91 | whatever is stored under other IDs stays, and has no error |
| Manager.SubscriptionManager.LoadSeed | internal/subscription/seed.go:40-78 | takes all entries exactly if there is at least one and no more than sources, each names a configured source, no two the same, and each has nodes; otherwise changes nothing |
| Manager.SeedIsTakenIff | internal/subscription/seed.go:40-68 | a seed is taken exactly if it has entries, no more than sources, each with nodes and the digest of a source's URL, and no two for the same source |
| Manager.SeedIsStored | internal/subscription/seed.go:43-76 | then the last source whose URL has an entry's digest gets that entry's nodes, tagged with its ID, and its expiry |
| Manager.SeedLeavesOthers | internal/subscription/seed.go:72-76 | and every other source stays as it was, with no error left |
| Manager.NodesInBatch | internal/subscription/manager.go:58-79 | over any results, a source has the nodes of its last result that was fetched, parsed and not empty, and none exactly if there is none |
| Manager.ExpiriesInBatch | internal/subscription/manager.go:55-57 | the same for expiries and successful fetches |
| Manager.ErrorsInBatch | internal/subscription/manager.go:58-70 | the same for errors and results that replace nothing |
| LastKnownGood.LastKnownGoodIsKept | internal/subscription/manager.go:63-88 | after any run of seeds, refreshes and traffic each source has the nodes of its latest usable result and the expiry of its latest fetched one, and the pool's live IDs are those of the merge at the latest refresh whose Apply succeeded |
| LastKnownGood.RefreshFillsTheManager | internal/subscription/manager.go:76-88 | a refresh takes the whole batch in, whatever becomes of the pool |
| LastKnownGood.RefreshAppliesTheMerge | internal/app/app.go:155-159 | a merge with nodes is applied to the pool, an empty one is not |
| LastKnownGood.AppliedNodesAreLive | internal/pool/registry.go:71-141 | applying nodes succeeds exactly if all have IDs and the library accepts the new ones; then the live nodes are exactly these, otherwise the pool stays |
| LastKnownGood.PoolNeverEmpties | internal/app/app.go:151-166 | a pool with a live node never becomes empty again |
| LastKnownGood.TrafficKeepsLive | internal/pool/registry.go:143-331 | no registry method but Apply changes which nodes are live |
| Monitoring.Monitor.constructor | internal/alert/monitor.go:30-45 | a threshold below 1 becomes 30 |
| Monitoring.Monitor.Evaluate | internal/alert/monitor.go:63-112 | tries exactly the failing sources without an alert, in sorted order, and the low-node alert exactly when too few are healthy and none is set; remembers what was delivered, forgets what recovered, and counts the failed deliveries |
| Monitoring.Monitor.EvaluateExpiry | internal/alert/monitor.go:114-135 | tries exactly the known expiries within a week or past that differ from the one last delivered, and remembers those delivered |
| Monitoring.ReminderIsDueIff | internal/alert/monitor.go:118-132 | a reminder is tried exactly for a known expiry at most 604800 seconds ahead or past that is not the one last delivered, and is remembered exactly if delivered |
| Monitoring.AlertsOncePerEpisode | internal/alert/monitor.go:67-110 | over any run an evaluation tries an alert exactly when its condition holds and no earlier evaluation of the same unbroken stretch would have delivered |
| Monitoring.ExactlyOneAlertPerFailure | internal/alert/monitor.go:67-96 | an unbroken stretch of failures gets exactly one delivered alert if any delivery in it would succeed |
| Monitoring.ExactlyOneAlertPerShortage | internal/alert/monitor.go:98-111 | so does an unbroken stretch of too few healthy nodes |
| Monitoring.ConsecutiveRemindersDiffer | internal/alert/monitor.go:118-132 | two reminders in a row for a source never carry the same expiry |
| Monitoring.RemindedOncePerExpiryIff | internal/alert/monitor.go:118-132 | each expiry is delivered at most once if and only if no deliverable expiry comes back after a different one |
| Monitoring.ReminderCanRepeat | internal/alert/monitor.go:118-132 | expiries a, b, a are delivered as a, b, a |
| Structure.Walker.Walk | internal/subscription/parse.go:199-222 | accepts a subtree exactly if it fits under the depth and value limits, in whatever order objects are visited |
| Structure.ValidateStructure | internal/subscription/parse.go:196-224 | accepts exactly the trees of height at most 32 with at most 100000 values, and never counts past 100001 |
| VlessFrontEnds.FrontEndsAgreeIff | internal/subscription/parse.go:309-579 | a node in any Clash spelling and any URI spelling that describes it is accepted by both front ends and normalizes to maps equal but for the tag, if and only if the stated condition on its fields holds |
| VlessFrontEnds.ClashMeans | internal/subscription/parse.go:309-358 | when a Clash entry is accepted, and its normal form key by key |
| VlessFrontEnds.ClashTlsMeans | internal/subscription/parse.go:360-383 | the normal form of its security settings key by key |
| VlessFrontEnds.UriMeans | internal/subscription/parse.go:505-555 | when a URI is accepted, and its normal form key by key |
| VlessFrontEnds.UriTlsMeans | internal/subscription/parse.go:530-549 | the normal form of its security settings key by key |
| VlessFrontEnds.TransportsMean | internal/subscription/parse.go:385-579 | the normal forms of both sides' transports |
| VlessFrontEnds.CanonicalReads | internal/subscription/parse.go:411-421 | the canonical form is the map without tag and name, with the port under one name |
| VlessFrontEnds.WordInAnyCase | internal/subscription/parse.go:310 | keywords are recognized in any letter case |
| VlessFrontEnds.TrimStrips | internal/subscription/parse.go:581-584 | trimming cuts white space off both ends and nothing else |
| VlessFrontEnds.UsualSpellings | internal/subscription/parse.go:309-579 | every node has a spelling in both formats |
| VlessFrontEnds.CleanNodesShareTheirId | internal/subscription/parse.go:411-421 | under that condition any two spellings have the same stable ID, whatever the digest |
| VlessFrontEnds.EmptyShortIdSplitsTheNode | internal/subscription/parse.go:546-548 | an otherwise clean Reality node with an empty short ID is accepted in both formats with different canonical maps |
| VlessFrontEnds.CrossFormatDuplicatesMerge | internal/subscription/manager.go:109-122 | two sources listing one clean node in different formats give one merged node that names both |

## Left out

- HTTP serving, hijacking, tunnelling, header copying and authentication: socket input and output; only the calls to `dial` and `release` matter here.
- The outbound library, TLS probing and platform stubs: their answers are parameters.
- Decoding of JSON, YAML, URLs, base64 and SHA-256: the model starts from decoded trees, field records and parse results; the stable-ID digest is an arbitrary function.
- Configuration, admin endpoints, the inspect command, the notification client, redaction and fetching: plumbing with single-branch checks.
- `Registry.Stats`, `Registry.StatsBySource` and `Registry.SourceIDs`: read-only counts.
- The other node types of the Clash and URI front ends, the sing-box JSON path and its uTLS default, and the validation functions that reject whole subscriptions.
- Message texts, latency values and the classification of errors; of `lastFailure` only whether it is empty.
- Node states are values in the `nodes` map rather than objects: the program never lets a pointer to one leave the registry's methods, so updates in place and map updates are the same thing there.
- Dialers are indices into the list of everything the engine returned: pointer identity is all that matters of them.
- Slices and maps are values: what `cloneSnapshot` adds, protection against aliasing, does not show, nor that `mergeSources` appends to and sorts only lists it has allocated itself (`manager.go:114`).
- A factory that returns neither a dialer nor an error: the engine never does.
- SessionObjects.ConnectionSession.Dial: states the outcome of a whole dial only when nobody interferes; `TryNext` states each turn in any state, and `DialRuns` what holds of a dial in every interleaving, which does not determine which node it ends on.
- The goroutines of `probeDue`, `backgroundLoop` and `App.Refresh` are steps of `Gateway` and actions of `LastKnownGood` rather than methods: what matters of them is the order of their effects.
- The sequence of critical sections inside `Apply`: the registry's mutex is held throughout and no one else builds on the engine, so Apply is one step of the gateway.
- VlessFrontEnds.FrontEndsAgreeIff: a Clash entry whose WebSocket headers are anything but one `Host` has no URI spelling, so the lemma says nothing about it.
- Monitoring.Monitor.EvaluateExpiry: time counts in whole seconds.
