# orb8 agent: a verified model

orb8 watches the network traffic of Kubernetes pods. A probe in the kernel turns packets into
events, an agent drains them from a ring buffer, names the pod each one belongs to, and keeps a
bounded table of flows that can be queried. This project models that path and proves what it
keeps.

- `Probe.dfy`, `EventCodec.dfy`, `Bytes.dfy`: the packet parser, the 32-byte record in the ring.
- `Pipeline.dfy`, `PipelineRuns.dfy`: the event loop, and whole runs of packets, polls and sweeps.
- `FlowTable.dfy`, `FlowAggregators.dfy`, `FlowRuns.dfy`: the flow table as a relation on values,
  the class that updates it in place and is proved to follow that relation, and what every run keeps.
- `Interleaving.dfy`, `ReplayInterleaving.dfy`, `SerialCalls.dfy`: the table shared by event loop and
  sweeper, one small step at a time, its replay, and the proof that a call nobody interrupts is one
  step of `FlowTable.dfy`.
- `FlagInterleaving.dfy`, `Schedules.dfy`: the capacity flag under interleaving, and runs built to
  show what can go wrong.
- `QueryFlows.dfy`, `AgentStatus.dfy`, `Health.dfy`: the query, the health verdict, the shared flags.
- `PodTable.dfy`, `PodCaches.dfy`: the bounded pod cache and its unbounded reference.
- `Watcher.dfy`, `PodWatchers.dfy`, `WatcherRuns.dfy`, `Backoff.dfy`, `CacheWrites.dfy`: pod events,
  resynchronisation, whole runs of the watcher, reconnect delays, and what a list of inserts amounts to.
- `Cgroup.dfy`, `CgroupRoundTrip.dfy`: resolving a container to a path and scanning paths back.
- `Ipv4.dfy`, `Attribution.dfy`, `Text.dfy`: addresses as numbers and as text, from wire to pod name.
- `Sorting.dfy`, `MapSums.dfy`, `Common.dfy`: what the standard library promises about sorting, sums
  over maps, shared types.

Eviction breaks ties and maps list their entries in an unspecified order, so steps of the flow table
are relations; the pod cache is deterministic, so its operations are functions. Each class method is
proved against the relation or function, and the lemmas about runs speak of those. The time of
`Instant::now()` is an input of each operation. A sweep is only possible when the clock has reached
the flow timeout, since the source's subtraction would panic before that.

Some findings about the code, each with its lemma:

- An empty table reports itself at capacity exactly when it is configured for at most one flow and
  has processed an event; such a table never recovers (`EmptyTableIsNotFull`,
  `TinyTableNeverRecovers`).
- Two `len` reads of a sweep can straddle an insert, so the count it reports can be wrong, and its
  unsigned subtraction can underflow (`SweepReportUnderInterleaving`, `SweepReportCanUnderflow`).
- Event loop and sweeper each read the length and store the capacity flag in two steps. With both
  threads back at rest the flag can be up over an empty table, and down over a table at its high
  mark, which is then reported healthy; either can happen exactly when the limit is at least two
  (`FlagCanBeStale`). Which stores are at fault, and when each of them is, is stated exactly for
  every run (`FlagUnderInterleaving`, `RaiseLandsLow`, `ClearLandsHigh`).
- A poll loses a record exactly when more records of the probe wait than its batch limit, because
  it has consumed one more when it notices the limit (`PollsDeliverInOrder`; `PollLosesIff` for
  rings that also hold malformed records; `FullBatchLosesRecord` is such a run for every limit).
- The address parser is documented to read dotted notation but skips parts it cannot read, so
  "10.0.x.0.5" is taken for 10.0.0.5 (`MalformedTextIsAccepted`, `MalformedExample`). A text is
  parsed and printed back unchanged exactly when it is a dotted quad (`FormatUndoesParse`).
- A resync never removes a pod whose deletion was missed: the pod goes on being named exactly at
  those of its addresses and cgroups that no listed pod takes over (`StalePodSurvivesResync`).
- An apply and a delete that arrive in the other order differ in one case: the delete frees the slot
  the apply needs (`ApplyAndDeleteCommute`).

## Model

| member | source | states |
|---|---|---|
| `FlowAggregators.FlowAggregator.ProcessEvent` | orb8-agent/src/aggregator.rs:75-106 | one call is one event step: the record is found or created under the full key, at most one oldest batch makes room, counters and flag move accordingly and nothing else in the health record changes |
| `FlowAggregators.FlowAggregator.TouchFlow` | orb8-agent/src/aggregator.rs:89-94 | a key that is found has its record updated and the flag raised if the table is at its high mark |
| `FlowAggregators.FlowAggregator.AdmitFlow` | orb8-agent/src/aggregator.rs:96-105 | a key that is not found makes room first when the table is full, then gets a record |
| `FlowAggregators.FlowAggregator.EvictOldestFlows` | orb8-agent/src/aggregator.rs:108-132 | removes exactly min(1% of the limit but at least one, size) flows, none seen after a kept one, in whatever order the map lists them; kept records are untouched; the counter grows by the number removed |
| `FlowAggregators.FlowAggregator.RemoveAll` | orb8-agent/src/aggregator.rs:118-122 | counts exactly the removals that found something |
| `FlowAggregators.FlowAggregator.CollectCandidates` | orb8-agent/src/aggregator.rs:111-115 | lists every flow once with its last-seen time |
| `FlowAggregators.HeadIsOldest` | orb8-agent/src/aggregator.rs:116-121 | the head of the sorted candidates is a valid oldest batch for every iteration order |
| `FlowAggregators.EventStepExists` | orb8-agent/src/aggregator.rs:75-106 | every event can be processed in every table: there is always a batch to evict |
| `FlowAggregators.FlowAggregator.UpdateCapacityFlag` | orb8-agent/src/aggregator.rs:134-140 | the flag is raised at the high mark and otherwise left alone |
| `FlowAggregators.FlowAggregator.GetFlows` | orb8-agent/src/aggregator.rs:142-148 | lists each flow of the chosen namespaces once, all flows when none is chosen |
| `FlowAggregators.FlowAggregator.ExpireOldFlows` | orb8-agent/src/aggregator.rs:158-171 | one call is one sweep step and returns the number of flows it dropped |
| `FlowRuns.TableReplaysHistory` | orb8-agent/src/aggregator.rs:75-172 | replay refinement: in every run every flow's bytes, packets, first and last times are those of exactly its events since it was last thrown out, and a flow without such events is not in the table |
| `FlowRuns.ReplaySince` | orb8-agent/src/aggregator.rs:75-172 | the same from any moment at which the flow was absent |
| `FlowRuns.EventsOfAreTheEvents` | orb8-agent/src/aggregator.rs:78-87 | the events a record stands for are exactly those whose pod, 5-tuple and direction make its key |
| `FlowRuns.KeptKey` | orb8-agent/src/aggregator.rs:31-48 | a flow that is not thrown out is updated by its own events and by nothing else |
| `FlowRuns.RunLedger` | orb8-agent/src/aggregator.rs:75-172 | bytes and packets are conserved: what was credited is held by live flows or left with evicted and expired ones |
| `FlowRuns.ChainLedger` | orb8-agent/src/aggregator.rs:75-172 | the same conservation from any starting table |
| `FlowRuns.EventsAreCounted` | orb8-agent/src/aggregator.rs:76 | the processed-events counter is the number of packets ever credited |
| `FlowRuns.FlowsAreConserved` | orb8-agent/src/aggregator.rs:96-132 | records ever created = live flows + the eviction counter + the sum of the values the sweeps returned |
| `FlowRuns.FlagFollowsPercentages` | orb8-agent/src/aggregator.rs:134-168 | in plain percentages: an event raises the flag exactly at 95 percent of the limit rounded down, a sweep keeps it exactly at 80 percent or more |
| `FlowRuns.EvictionTakesOnePercent` | orb8-agent/src/aggregator.rs:96-121 | a new key that meets a full table costs exactly one percent of the limit rounded down, or one flow; anything else costs none |
| `FlowRuns.EvictionStaysAboveHighMark` | orb8-agent/src/aggregator.rs:108-140 | evicting 1% of a full table and inserting leaves it at or above the 95% mark, so the flag is set |
| `FlowRuns.CapacityFlagIsHysteresis` | orb8-agent/src/aggregator.rs:134-168 | in every reachable state the size is within its bound, the flag implies the 80% mark, and the 95% mark implies the flag exactly when the limit is at least two or an event was processed |
| `FlowRuns.EmptyTableIsNotFull` | orb8-agent/src/aggregator.rs:134-168 | in every run an empty table is not reported at capacity exactly when the limit is at least two or no event was processed |
| `FlowRuns.TinyTableNeverRecovers` | orb8-agent/src/aggregator.rs:134-168 | with a limit of at most one flow the flag stays up from the first event on |
| `FlowRuns.WhyGone` | orb8-agent/src/aggregator.rs:96-132 | a flow leaves only because a sweep found it idle for the whole timeout, or because a new key met a full table and no kept flow was older |
| `FlowRuns.SweepDropsExactlyIdleFlows` | orb8-agent/src/aggregator.rs:158-172 | in terms of the event history: a sweep drops a flow exactly when all its live events are at least the timeout old |
| `FlowRuns.EvictionIsLeastRecent` | orb8-agent/src/aggregator.rs:108-122 | in terms of the event history: a kept flow has an event at least as recent as every event of an evicted one |
| `AgentStatus.HealthReflectsTable` | orb8-agent/src/health.rs:34-37 | in atomic runs, the health verdict excludes a table at its high mark and is never caused by a table below its low mark; for interleaved runs see `FlagUnderInterleaving` |
| `Health.HealthState.constructor` | orb8-agent/src/health.rs:20-32 | all flags down, all counters zero |
| `Health.HealthState.SetK8sWatcherConnected` | orb8-agent/src/health.rs:86-90 | sets that flag and no other field |
| `Health.HealthState.SetFlowTableAtCapacity` | orb8-agent/src/health.rs:92-96 | sets that flag and no other field |
| `Health.HealthState.SetPodCacheAtCapacity` | orb8-agent/src/health.rs:98-102 | sets that flag and no other field |
| `Health.HealthState.IncFlowEvictions` | orb8-agent/src/health.rs:108-112 | adds the count to that counter and changes no other field |
| `Health.HealthState.IncPodCacheEvictions` | orb8-agent/src/health.rs:114-118 | adds one to that counter and changes no other field |
| `Interleaving.BoundUnderInterleaving` | orb8-agent/src/aggregator.rs:89-132 | with one event loop and one sweeper interleaved step by step the table never holds more than max(limit, 1) flows |
| `Interleaving.CountersUnderInterleaving` | orb8-agent/src/aggregator.rs:118-125 | in every interleaving the eviction counter is exactly what evictions removed, and flows and packets are conserved |
| `Interleaving.LruUnderInterleaving` | orb8-agent/src/aggregator.rs:108-122 | in every interleaving an eviction removes no flow seen after one it keeps |
| `Interleaving.SweepReportUnderInterleaving` | orb8-agent/src/aggregator.rs:158-162 | the number a sweep reports is expirations plus evictions minus inserts between its two length reads; it is exact, and its subtraction representable, under exactly stated conditions |
| `Schedules.SweepReportCanUnderflow` | orb8-agent/src/aggregator.rs:160-162 | an interleaving in which the subtraction is 0 - 1 |
| `FlagInterleaving.FlagUnderInterleaving` | orb8-agent/src/aggregator.rs:134-168 | in every interleaving, outside a sweep about to clear it, the flag is up over a table below the low mark exactly when it was raised over one, or an eviction made it one, since it was last cleared; outside a call about to raise it, it is down over a table at its high mark exactly when it was cleared over one since it was last raised |
| `FlagInterleaving.RaiseLandsLow` | orb8-agent/src/aggregator.rs:134-140 | a raise lands on a table below the low mark exactly when the length read was at the high mark and more flows were swept since the read than it lay above the low mark |
| `FlagInterleaving.ClearLandsHigh` | orb8-agent/src/aggregator.rs:164-168 | a clear lands on a table at its high mark exactly when the length read was below the low mark and inserts minus evictions since the read make up the difference to the high mark |
| `FlagInterleaving.FlagCanBeStale` | orb8-agent/src/aggregator.rs:134-168 | some interleaving ends with both threads at rest and the flag wrong, in either direction, exactly when the limit is at least two |
| `FlagInterleaving.RaiseOverEmptyTable` | orb8-agent/src/aggregator.rs:134-140 | for every such limit, a run that ends at rest with the flag up over an empty table |
| `FlagInterleaving.ClearOverFilledTable` | orb8-agent/src/aggregator.rs:164-168 | for every such limit, a run that ends at rest with the flag down over a table at its high mark |
| `ReplayInterleaving.ReplayUnderInterleaving` | orb8-agent/src/aggregator.rs:75-172 | after every step of every interleaving each record is the summary of exactly the events written to its key since that key was last removed, and there is none without such events |
| `ReplayInterleaving.WritesFollowReceipts` | orb8-agent/src/aggregator.rs:89-103 | in every interleaving the events written are the events received, in order, once each, up to the one in hand |
| `SerialCalls.SortingDecidesQueue` | orb8-agent/src/aggregator.rs:111-121 | sorting what was scanned, in whatever order, and taking its head gives a batch the step-by-step model allows |
| `SerialCalls.UninterruptedCallIsOneStep` | orb8-agent/src/aggregator.rs:75-140 | the step-by-step call, when not interrupted, is the atomic event step |
| `SerialCalls.UninterruptedSweepIsOneStep` | orb8-agent/src/aggregator.rs:158-171 | the step-by-step sweep, when not interrupted, is the atomic sweep step and counts what it expired |
| `QueryFlows.AgentService.QueryFlows` | orb8-agent/src/grpc_server.rs:63-99 | the answer is a top selection of the flows asked for, bytes descending, each flow once, none omitted that is larger than one returned; never more than the maximum, exactly as many as the limit or the maximum allow, and over all flows when no filter is given |
| `QueryFlows.MatchingAreAskedFor` | orb8-agent/src/grpc_server.rs:74-78 | a flow is asked for exactly when its namespace and pod name each stand in the list given for them, an empty list standing for all |
| `QueryFlows.AgentService.SelectRows` | orb8-agent/src/grpc_server.rs:74-78 | exactly the flows passing both filters are listed, each once |
| `QueryFlows.AgentService.ToAnswer` | orb8-agent/src/grpc_server.rs:79-92 | each row shows its key and statistics, in order |
| `QueryFlows.TopRowsAreTop` | orb8-agent/src/grpc_server.rs:95-96 | sorting and truncating any listing of the matching flows gives a top selection |
| `Ipv4.ParseUndoesFormat` | orb8-agent/src/net.rs:8-48 | parsing the printed text gives the address back, for every 32-bit address |
| `Ipv4.FormatIsInjective` | orb8-agent/src/net.rs:8-16 | different addresses print differently |
| `Ipv4.FormatUndoesParse` | orb8-agent/src/net.rs:8-48 | printing the parsed text gives it back exactly when it is four dotted numerals below 256 without signs or leading zeros |
| `Ipv4.PartParsesIff` | orb8-agent/src/net.rs:41-42 | a part is read as a number below 256 exactly when it is decimal digits for it, with or without a plus sign |
| `Ipv4.FormatShowsBytes` | orb8-agent/src/net.rs:8-16 | the text is the four bytes of the number in decimal, lowest first |
| `Text.DecimalInGlyphs` | orb8-agent/src/net.rs:8-16 | numbers print in base ten with the usual glyphs, highest digit first |
| `Ipv4.MalformedPartsAreSkipped` | orb8-agent/src/net.rs:41-48 | parts that are no number below 256 are skipped wherever they stand, instead of making the text invalid |
| `Ipv4.MalformedTextIsAccepted` | orb8-agent/src/net.rs:41-48 | a text that is no address, made of one and an unreadable part anywhere, is read as that address |
| `Ipv4.MalformedExample` | orb8-agent/src/net.rs:41-48 | "10.0.x.0.5" is no dotted quad and is read as 10.0.0.5 |
| `Probe.Maps.TryNetworkProbe` | orb8-probes/src/network_probe.rs:74-155 | a reportable packet adds one record to the ring or one to the drop counter; any other packet changes nothing |
| `Probe.ReportedIffReportable` | orb8-probes/src/network_probe.rs:62-133 | an event is attempted exactly when length, ethertype, header length and port range allow it; every read is inside the data |
| `Probe.ReportedFields` | orb8-probes/src/network_probe.rs:111-147 | the event's fields are the bytes at the header positions, ports in network order, addresses first octet lowest |
| `Probe.DecodeUndoesLayout` | orb8-probes/src/network_probe.rs:74-147 | for every header length, options, payload, addresses, protocol and ports, the probe reads back what was laid out, with the length mod 65536 |
| `Probe.LayoutUndoesDecode` | orb8-probes/src/network_probe.rs:81-133 | conversely every reportable packet with a visible IP header is the layout of a well-formed frame |
| `EventCodec.ReadUndoesEncode` | orb8-common/src/lib.rs:45-57 | the 32-byte record carries every field of the event unchanged |
| `EventCodec.RecordFields` | orb8-common/src/lib.rs:45-57 | each field stands little-endian at its place in declaration order |
| `Pipeline.EventLoop.constructor` | orb8-agent/src/main.rs:157-159 | the loop works on the given ring, cache, aggregator and settings |
| `Pipeline.EventLoop.PollEvents` | orb8-agent/src/probe_loader.rs:194-220 | events are the well-sized records of a prefix of the ring; a poll that meets one more record after filling its batch throws that one away, otherwise the ring is drained |
| `Pipeline.PollLosesIff` | orb8-agent/src/probe_loader.rs:200-204 | on any ring, a record is lost exactly when the records before the last one already fill the batch |
| `Pipeline.EventsAreWellSized` | orb8-agent/src/probe_loader.rs:206-217 | wherever it stands, a 32-byte record is one event and any other record is none |
| `Pipeline.EventLoop.HandOver` | orb8-agent/src/main.rs:182-202 | own traffic is skipped and every other event is booked to its pod in order, the table going through one event step for each |
| `Pipeline.HandOffIsExact` | orb8-agent/src/main.rs:182-202 | every event without an own endpoint is handed over exactly once, in order, under the namespace and name of its pod and with its own clock reading; no other event is |
| `Pipeline.EventLoop.PollOnce` | orb8-agent/src/main.rs:176-202 | one tick: the kernel's drop counter is copied if it can be read, then polling and handing over together |
| `PipelineRuns.PacketsAreAccountedFor` | orb8-agent/src/main.rs:176-202 | in every run accepted packets = drops + ring + records cut off by batch limits + own traffic + packets of live flows + packets of flows thrown out; the probe's records are never malformed |
| `PipelineRuns.PollsDeliverInOrder` | orb8-agent/src/probe_loader.rs:194-220 | a poll yields exactly the events the probe reported next, in order, all that wait or as many as the limit allows, and loses one more exactly when more wait than the limit |
| `PipelineRuns.FullBatchLosesRecord` | orb8-agent/src/probe_loader.rs:200-204 | for every limit, configuration and reportable packet, a run in which a poll loses a record |
| `PipelineRuns.PollIsPossible` | orb8-agent/src/main.rs:176-202 | in every state of every run the loop can poll and process what it gets |
| `PipelineRuns.OwnTrafficIsNoFlow` | orb8-agent/src/main.rs:183-185 | in every run no flow of the table has the agent's port at either end, at a local address where those are known |
| `PipelineRuns.FlowsAreBooked` | orb8-agent/src/main.rs:182-202 | in every run each flow of the table was booked by some poll: it shows an event the probe reported, not the agent's own, under the names that event's pod had in the poll's index |
| `PipelineRuns.ProbeIsPacketStep` | orb8-probes/src/network_probe.rs:135-152 | what the probe guarantees of one packet is a packet step of these runs |
| `PipelineRuns.TickIsPollable` | orb8-agent/src/main.rs:176-202 | what a tick of the loop guarantees is a step of these runs |
| `Attribution.AppliedPodGetsItsPackets` | orb8-agent/src/main.rs:187-202 | once a pod with the dotted text of the packet's local octets is applied, the packet is booked to that pod, through all later operations that neither remove the pod nor claim the address under another name |
| `Attribution.FlowsAreBookedToOwners` | orb8-agent/src/main.rs:187-200 | after every cache history the booked names are those of the owner of the local address, else of the other address, else the placeholder |
| `Attribution.WireAndTextAgree` | orb8-probes/src/network_probe.rs:115-119 | wire octets read as a native number are what their dotted text parses to |
| `Attribution.RowShowsTheWire` | orb8-agent/src/grpc_server.rs:79-92 | a flow row shows the octets, ports, protocol and direction that were on the wire |
| `Attribution.ReversalKeepsVerdicts` | orb8-agent/src/main.rs:183-200 | swapping the ends and the direction changes neither the booking nor the own-traffic verdict |
| `PodCaches.PodCache.constructor` | orb8-agent/src/pod_cache.rs:24-31 | both indexes empty |
| `PodCaches.PodCache.Insert` | orb8-agent/src/pod_cache.rs:33-38 | claims the address if there is one and writes the cgroup |
| `PodCaches.PodCache.InsertByIp` | orb8-agent/src/pod_cache.rs:40-44 | claims the address if there is one |
| `PodCaches.PodCache.InsertIp` | orb8-agent/src/pod_cache.rs:46-65 | an address that is present is always updated; a new one is refused with flag and counter when the index is full |
| `PodCaches.PodCache.Remove` | orb8-agent/src/pod_cache.rs:75-77 | drops one cgroup and returns what was there |
| `PodCaches.PodCache.RemovePod` | orb8-agent/src/pod_cache.rs:79-86 | drops the pod from both indexes and clears the flag if there is room |
| `PodTable.CacheIsValid` | orb8-agent/src/pod_cache.rs:33-86 | in every reachable state the index is within its bound, every entry sits at its own address, and the flag means exactly full |
| `PodTable.LookupsAreSound` | orb8-agent/src/pod_cache.rs:46-86 | a lookup that succeeds names the owner in an unbounded world; with no refusal every owner is found; never more owned addresses missing than refusals counted |
| `PodTable.OwnersAreOwners` | orb8-agent/src/pod_cache.rs:33-86 | the running reference is the declarative one: the last claim, not followed by that pod's removal |
| `PodTable.FlagMeansRefused` | orb8-agent/src/pod_cache.rs:52-86 | in every history the at-capacity flag is up exactly when a claim was refused and no pod removal has left room since |
| `PodTable.RefusalsAreCounted` | orb8-agent/src/pod_cache.rs:52-65 | the refusal counter is the number of claims of a new address that met a full index |
| `PodTable.CgroupsFollowHistory` | orb8-agent/src/pod_cache.rs:33-86 | the cgroup index holds exactly what was last inserted for a cgroup and not removed since, by cgroup or by pod |
| `PodTable.RemovedPodIsForgotten` | orb8-agent/src/pod_cache.rs:79-81 | after a removal neither index mentions the pod until it is inserted again |
| `PodWatchers.PodWatcher.HandlePodApply` | orb8-agent/src/k8s_watcher.rs:147-219 | exactly the inserts of the pod's address and of its resolvable containers, in order; nothing for a pod without uid or status |
| `PodWatchers.PodWatcher.HandleContainers` | orb8-agent/src/k8s_watcher.rs:187-218 | one insert per container whose cgroup resolves |
| `PodWatchers.PodWatcher.HandlePodDelete` | orb8-agent/src/k8s_watcher.rs:221-230 | removes the pod unless its uid is empty |
| `PodWatchers.PodWatcher.ResyncAll` | orb8-agent/src/k8s_watcher.rs:129-145 | applies every listed pod and reports the watcher connected; a failed listing changes nothing |
| `PodWatchers.PodWatcher.HandleEvent` | orb8-agent/src/k8s_watcher.rs:106-123 | each event does its operations; the end of the initial list reports the watcher connected |
| `PodWatchers.PodWatcher.WatchPods` | orb8-agent/src/k8s_watcher.rs:101-127 | the stream's events are applied in order |
| `PodWatchers.PodWatcher.RunAttempt` | orb8-agent/src/k8s_watcher.rs:63-97 | one round: the cache operations, the delay taken, the next backoff, and whether the watcher is connected afterwards |
| `PodWatchers.PodWatcher.Run` | orb8-agent/src/k8s_watcher.rs:50-99 | a whole run applies exactly its attempts' operations, sleeps exactly its attempts' delays, and leaves the connected flag as its attempts make it |
| `PodWatchers.ConnectedIff` | orb8-agent/src/k8s_watcher.rs:63-97 | the watcher counts as connected after a run exactly when some attempt connected it, or it was before, and no stream has failed without a successful listing since |
| `WatcherRuns.DeletedPodIsForgotten` | orb8-agent/src/k8s_watcher.rs:101-231 | in every run, once a pod's deletion is reported neither index mentions it, through all later events, reconnects and resyncs, until it is applied or listed again |
| `WatcherRuns.AppliedPodStaysNamed` | orb8-agent/src/k8s_watcher.rs:101-231 | in every run, once a pod is applied at an accepted address, that address names it until it is deleted or another pod is applied or listed there |
| `WatcherRuns.ListedPodIsNamed` | orb8-agent/src/k8s_watcher.rs:50-145 | a run that ends with a listing has the listed pods at the addresses they claim |
| `WatcherRuns.FailuresAreInARow` | orb8-agent/src/k8s_watcher.rs:65-87 | the failures counted are exactly those since the last clean end |
| `PodWatchers.DelaysFollowFailures` | orb8-agent/src/k8s_watcher.rs:55-87 | the delay after k failures since the last clean end lies between min(minimum * 2^k, maximum) and five quarters of it; a clean end takes none |
| `Backoff.BaseIsCapped` | orb8-agent/src/k8s_watcher.rs:55-84 | the closed form holds for every k exactly when the minimum is not above the maximum |
| `WatcherRuns.DelaysDouble` | orb8-agent/src/k8s_watcher.rs:55-87 | told forwards: the first delay is based on the minimum, a clean end goes back to it, a failure doubles it up to the maximum, and each delay lies within a quarter above its base |
| `Backoff.BaseDoubles` | orb8-agent/src/k8s_watcher.rs:87 | each failure doubles the delay up to the maximum |
| `Backoff.WaitWithinQuarter` | orb8-agent/src/k8s_watcher.rs:233-244 | jitter never shortens a delay and adds at most a quarter |
| `Backoff.JitterCoversQuarter` | orb8-agent/src/k8s_watcher.rs:233-244 | jitter is the clock's nanoseconds modulo a quarter of the delay in milliseconds; every whole millisecond below the quarter occurs; a delay below four milliseconds has none |
| `Watcher.ResyncIsIdempotent` | orb8-agent/src/k8s_watcher.rs:129-145 | the same pod list applied twice leaves both indexes as applied once, from any state, with repeated addresses and an index that fills up midway |
| `Watcher.StalePodSurvivesResync` | orb8-agent/src/k8s_watcher.rs:129-145 | a pod absent from the list is still mentioned after a resync exactly when one of its addresses or cgroups is taken by no listed pod |
| `Watcher.StaleAddressSurvives` | orb8-agent/src/k8s_watcher.rs:129-145 | a resync drops no address; one that names an unlisted pod goes on naming it, with the same entry, exactly when no listed pod claims it |
| `Watcher.StaleCgroupSurvives` | orb8-agent/src/k8s_watcher.rs:129-145 | a resync drops no cgroup; one that names an unlisted pod goes on naming it, with the same entry, exactly when no container of a listed pod lives there |
| `Watcher.AppliedContainersAreMapped` | orb8-agent/src/k8s_watcher.rs:187-218 | each cgroup a container of the pod lives in maps to the last container living there, with the pod's namespace, name, uid and address and the container's name and id; other cgroups are untouched |
| `Watcher.AppliedPodIsNamed` | orb8-agent/src/k8s_watcher.rs:147-219 | an applied pod's address, unless new to a full index, is about that pod and its last container found, if any; all other addresses are untouched |
| `Watcher.IgnoredPods` | orb8-agent/src/k8s_watcher.rs:150-161 | a pod without a uid or a status changes nothing |
| `Watcher.LastListedIsNamed` | orb8-agent/src/k8s_watcher.rs:129-145 | after a resync an address several listed pods claim is about the last of them |
| `Watcher.ApplyAndDeleteCommute` | orb8-agent/src/k8s_watcher.rs:147-231 | applying one pod and deleting another commute on the cgroup index always, and on the IP index exactly when the apply does not need the slot the delete frees |
| `Cgroup.CgroupResolver.ScanAll` | orb8-agent/src/cgroup.rs:118-131 | scans the kubepods directory; nothing if it is missing, an error if it is no directory |
| `Cgroup.ScanDirectory` | orb8-agent/src/cgroup.rs:134-169 | appends exactly the subtree's reports in traversal order |
| `Cgroup.ScanIsExact` | orb8-agent/src/cgroup.rs:134-200 | a report is made if and only if some directory of the tree is named cri-containerd-, container id, .scope, the nearest pod slice around it is the pod's, and its inode is reported |
| `Cgroup.UidFromNameIff` | orb8-agent/src/cgroup.rs:179-200 | a name is a slice of a pod exactly when it is some text, its first "-pod", the uid with underscores for dashes, and ".slice" |
| `CgroupRoundTrip.ScanAllIsExact` | orb8-agent/src/cgroup.rs:118-131 | the whole scan fails exactly when kubepods is no directory, is empty when it is missing, and otherwise reports exactly the scopes below it |
| `CgroupRoundTrip.ResolveTriesThreePaths` | orb8-agent/src/cgroup.rs:48-97 | resolving gives the inode at the first existing of three paths spelled out: guaranteed, burstable, best-effort |
| `CgroupRoundTrip.ScanFindsResolved` | orb8-agent/src/cgroup.rs:48-97 | whatever resolve finds at a directory, in any of the three layouts, the scan reports with the same inode and container |
| `CgroupRoundTrip.UidSurvivesIff` | orb8-agent/src/cgroup.rs:50 | the reported uid is the very one that was resolved exactly when it has no underscore |
| `CgroupRoundTrip.LeafUid` | orb8-agent/src/cgroup.rs:179-200 | the scanner recovers the uid from the slice name of every layout |
| `CgroupRoundTrip.CleanIdStripsSchemes` | orb8-agent/src/cgroup.rs:53 | the cleaned id is a suffix of the id without any scheme left |
| `CgroupRoundTrip.CleanIdIff` | orb8-agent/src/cgroup.rs:53 | the cleaned id is the part after the last "://", or all of an id without one, and nothing else |
| `CgroupRoundTrip.RuntimeIsDropped` | orb8-agent/src/cgroup.rs:53 | runtime, "://" and container id are cut to the container id |

## Left out

- FlowStats: a value inside the map rather than an object updated through a guard, because only the map refers to it; aliasing of a record is not modelled.
- Pipeline.EventLoop.PollOnce: looks pods up in the cache as it is during the tick; the watcher changing the cache between two events of one batch is not modelled.
- PipelineRuns.PacketsAreAccountedFor: polls and sweeps are atomic here; packet conservation with the event loop and the sweeper interleaved is CountersUnderInterleaving and ReplayUnderInterleaving.
- AgentStatus.HealthReflectsTable: speaks of atomic runs; what interleaving adds is FlagUnderInterleaving and FlagCanBeStale.
- Interleaving: reading the length of the concurrent map is one step, although the library adds up its shards one after the other.
- Interleaving.LruUnderInterleaving: speaks of the flows still queued and still present; which flow is oldest is judged by the times the scan recorded.
- CgroupRoundTrip.ScanFindsResolved: pod uids and container ids with a slash, symbolic links and unreadable directories.
- Probe.LayoutUndoesDecode: packets of other protocols whose IP options are cut off before the end of the data, which the probe reports without looking at the options.
- Probe.Maps.TryNetworkProbe: whether the ring buffer has room is an input; its byte capacity is not computed.
- Fragments, the IP version field, IPv6 and checksums, which the probe does not look at.
- Overflow of 64-bit counters, of the limit times 95, and of a doubled delay.
- The event broadcast to streaming clients, its drop counter, and `stream_events`.
- `resolve_local_ips`: parsing of the kernel's address table; the set of local addresses is an input.
- The text of health messages, the remaining health flags and counters, the HTTP health server.
- eBPF loading, interface discovery, map pinning, preflight checks, configuration from the environment.
- The Kubernetes client, the async runtime, cancellation in the middle of an attempt, signals and shutdown.
- The command-line client and the server crate.
- The bound of the cgroup index: the code has none.
