/** The flow table shared by its two threads. The event loop runs `process_event`, the
    sweeper runs `expire_old_flows`; every read of the length, every entry visited and every
    single removal is a step of its own, and the threads' steps interleave in any order. */
module Interleaving {
  import opened Common
  import opened FlowTable
  import opened FlowRuns
  import opened MapSums
  import opened Sorting

  /** Where the event loop is inside `process_event`. */
  datatype Processor =
    | Waiting
    | Looking(op: Op)
    | Sizing(op: Op)
    | Scanning(op: Op, seen: map<FlowKey, nat>)
    | Evicting(op: Op, queue: seq<FlowKey>, evicted: nat)
    | Inserting(op: Op)
    | ReadingLength
    | Flagging(len: nat, since: Tally)

  /** Running totals of what the table has gone through. */
  datatype Tally = Tally(inserted: nat, evicted: nat, swept: nat)

  /** Where the sweeper is inside `expire_old_flows`. `since` is the tally at a read of the
      length, `until` the tally at the next one; `owed` are the flows present without a break
      since the retain began and not visited yet. */
  datatype Sweeper =
    | Sleeping
    | Starting(now: nat)
    | Retaining(now: nat, before: nat, since: Tally, owed: set<FlowKey>, visited: set<FlowKey>)
    | Counting(before: nat, after: nat, since: Tally, until: Tally)
    | Unflagging(len: nat, since: Tally)

  /** What happened to the table, in order. */
  datatype Change = Wrote(op: EventOp) | Removed(key: FlowKey)

  /** The shared table and counters, the two threads, and what the proofs remember: running
      totals, the changes so far, and two remarks about the capacity flag. `staleUp`: since it
      was last cleared it was raised over a table below its low mark, or an eviction took the
      table below that mark while it was up. `staleDown`: since it was last raised it was
      cleared over a table at its high mark. */
  datatype State = State(
    flows: Flows,
    processor: Processor,
    sweeper: Sweeper,
    atCapacity: bool,
    evictions: nat,
    eventsProcessed: nat,
    tally: Tally,
    applied: nat,
    lost: nat,
    log: seq<Change>,
    staleUp: bool,
    staleDown: bool)

  const START: State := State(map[], Waiting, Sleeping, false, 0, 0, Tally(0, 0, 0), 0, 0, [], false, false)

  datatype Action =
    | Receive(op: Op)
    | Lookup
    | CheckLength
    | Scan(key: FlowKey)
    | EndScan(queue: seq<FlowKey>)
    | RemoveNext
    | EndEviction
    | Insert
    | ReadLength
    | SetFlag
    | BeginSweep(now: nat)
    | ReadBefore
    | Visit(key: FlowKey)
    | EndRetain
    | ReadForMark
    | ClearFlag

  /** The batch the event loop decides to evict after sorting what it scanned. */
  ghost predicate OldestScanned(cfg: Config, seen: map<FlowKey, nat>, queue: seq<FlowKey>) {
    && |queue| == Min(cfg.EvictCount(), |seen|) && Distinct(queue)
    && (forall q | q in queue :: q in seen)
    && (forall q, k | q in queue && k in seen && k !in queue :: seen[q] <= seen[k])
  }

  function Without(s: State, k: FlowKey): State
    requires k in s.flows
  {
    s.(flows := s.flows - {k}, lost := s.lost + s.flows[k].packets, log := s.log + [Removed(k)])
  }

  function Written(s: State, op: Op): State
    requires op.Event?
  {
    s.(flows := Upsert(s.flows, KeyOf(op), op.event, op.now), applied := s.applied + 1, log := s.log + [Wrote(op)])
  }

  /** The sweeper no longer has to meet `k`, which the event loop removed. */
  function Excused(w: Sweeper, k: FlowKey): Sweeper {
    if w.Retaining? then w.(owed := w.owed - {k}) else w
  }

  function AfterEviction(cfg: Config, s: State, k: FlowKey): State
    requires k in s.flows
  {
    Without(s, k).(sweeper := Excused(s.sweeper, k),
                   tally := s.tally.(evicted := s.tally.evicted + 1),
                   staleUp := s.staleUp || (s.atCapacity && |s.flows - {k}| < cfg.LowMark()))
  }

  function AfterExpiry(s: State, k: FlowKey): State
    requires k in s.flows
  {
    Without(s, k).(tally := s.tally.(swept := s.tally.swept + 1))
  }

  function AfterRaise(cfg: Config, s: State): State {
    s.(atCapacity := true, staleUp := s.staleUp || |s.flows| < cfg.LowMark(), staleDown := false)
  }

  function AfterClear(cfg: Config, s: State): State {
    s.(atCapacity := false, staleUp := false, staleDown := s.staleDown || |s.flows| >= cfg.HighMark())
  }

  /** The event loop's steps; None when the action is not its next one. */
  ghost function ProcessorStep(cfg: Config, s: State, a: Action): Option<State> {
    match (s.processor, a)
    case (Waiting, Receive(op)) =>
      if op.Event? then Some(s.(processor := Looking(op), eventsProcessed := s.eventsProcessed + 1)) else None
    case (Looking(op), Lookup) =>
      if op.Event? && KeyOf(op) in s.flows then Some(Written(s, op).(processor := ReadingLength))
      else Some(s.(processor := Sizing(op)))
    case (Sizing(op), CheckLength) =>
      Some(s.(processor := if |s.flows| >= cfg.maxFlows then Scanning(op, map[]) else Inserting(op)))
    case (Scanning(op, seen), Scan(k)) =>
      if k in s.flows && k !in seen then Some(s.(processor := Scanning(op, seen[k := s.flows[k].lastSeen]))) else None
    case (Scanning(op, seen), EndScan(queue)) =>
      if s.flows.Keys <= seen.Keys && OldestScanned(cfg, seen, queue)
      then Some(s.(processor := Evicting(op, queue, 0))) else None
    case (Evicting(op, queue, evicted), RemoveNext) =>
      if queue == [] then None
      else if queue[0] in s.flows then
        Some(AfterEviction(cfg, s, queue[0]).(processor := Evicting(op, queue[1..], evicted + 1)))
      else Some(s.(processor := Evicting(op, queue[1..], evicted)))
    case (Evicting(op, queue, evicted), EndEviction) =>
      if queue != [] then None
      else Some(s.(processor := Inserting(op), evictions := s.evictions + evicted))
    case (Inserting(op), Insert) =>
      if !op.Event? then None
      else Some(Written(s, op).(
                processor := ReadingLength,
                tally := s.tally.(inserted := s.tally.inserted + if KeyOf(op) in s.flows then 0 else 1)))
    case (ReadingLength, ReadLength) => Some(s.(processor := Flagging(|s.flows|, s.tally)))
    case (Flagging(len, _), SetFlag) =>
      Some((if len >= cfg.HighMark() then AfterRaise(cfg, s) else s).(processor := Waiting))
    case _ => None
  }

  /** The sweeper's steps; None when the action is not its next one. */
  ghost function SweeperStep(cfg: Config, s: State, a: Action): Option<State> {
    match (s.sweeper, a)
    case (Sleeping, BeginSweep(now)) =>
      if now >= cfg.flowTimeout then Some(s.(sweeper := Starting(now))) else None
    case (Starting(now), ReadBefore) =>
      Some(s.(sweeper := Retaining(now, |s.flows|, s.tally, s.flows.Keys, {})))
    case (Retaining(now, before, since, owed, visited), Visit(k)) =>
      if k !in s.flows || k in visited then None
      else
        Some((if s.flows[k].lastSeen > now - cfg.flowTimeout then s else AfterExpiry(s, k)).(
             sweeper := Retaining(now, before, since, owed - {k}, visited + {k})))
    case (Retaining(now, before, since, owed, visited), EndRetain) =>
      if owed == {} then Some(s.(sweeper := Counting(before, |s.flows|, since, s.tally))) else None
    case (Counting(_, _, _, _), ReadForMark) => Some(s.(sweeper := Unflagging(|s.flows|, s.tally)))
    case (Unflagging(len, _), ClearFlag) =>
      Some((if len < cfg.LowMark() then AfterClear(cfg, s) else s).(sweeper := Sleeping))
    case _ => None
  }

  ghost function Next(cfg: Config, s: State, a: Action): Option<State> {
    if ProcessorStep(cfg, s, a).Some? then ProcessorStep(cfg, s, a) else SweeperStep(cfg, s, a)
  }

  /** Where an interleaving leads; None when some action in it is not possible. */
  ghost function Exec(cfg: Config, actions: seq<Action>): Option<State> {
    if actions == [] then Some(START) else
      match Exec(cfg, actions[..|actions| - 1])
      case None => None
      case Some(s) => Next(cfg, s, actions[|actions| - 1])
  }

  // ---------- The invariant ----------

  /** What is queued for eviction was seen no later than what is not. */
  ghost predicate QueueIsOldest(flows: Flows, queue: seq<FlowKey>) {
    forall q, k | q in queue && q in flows && k in flows && k !in queue :: flows[q].lastSeen <= flows[k].lastSeen
  }

  /** What the event loop may rely on at each point, whatever the sweeper does. */
  ghost predicate ProcessorInv(cfg: Config, s: State) {
    match s.processor
    case Looking(op) => op.Event?
    case Sizing(op) => op.Event? && KeyOf(op) !in s.flows
    case Scanning(op, seen) =>
      && op.Event? && KeyOf(op) !in s.flows
      && (forall k | k in seen && k in s.flows :: seen[k] == s.flows[k].lastSeen)
      && (|s.flows| == cfg.Bound() ==> seen.Keys <= s.flows.Keys)
    case Evicting(op, queue, _) =>
      && op.Event? && KeyOf(op) !in s.flows
      && (|s.flows| == cfg.Bound() ==> queue != [] && queue[0] in s.flows)
      && QueueIsOldest(s.flows, queue)
    case Inserting(op) => op.Event? && KeyOf(op) !in s.flows && |s.flows| < cfg.Bound()
    case Flagging(len, since) =>
      && since.inserted == len + since.evicted + since.swept
      && since.inserted == s.tally.inserted && since.evicted == s.tally.evicted && since.swept <= s.tally.swept
    case _ => true
  }

  /** Evictions already carried out but not yet added to the health counter. */
  function Unreported(p: Processor): nat {
    if p.Evicting? then p.evicted else 0
  }

  ghost predicate CountsInv(cfg: Config, s: State) {
    && |s.flows| <= cfg.Bound()
    && s.tally.inserted == |s.flows| + s.tally.evicted + s.tally.swept
    && s.evictions + Unreported(s.processor) == s.tally.evicted
    && s.applied == Total(Weights(Packets, s.flows)) + s.lost
  }

  /** The sweeper's length reads, explained by what happened between them. */
  ghost predicate SweeperInv(s: State) {
    match s.sweeper
    case Retaining(_, before, since, _, _) => since.inserted == before + since.evicted + since.swept
    case Counting(before, after, since, until) =>
      && since.inserted == before + since.evicted + since.swept
      && until.inserted == after + until.evicted + until.swept
    case Unflagging(len, since) =>
      && since.inserted == len + since.evicted + since.swept
      && since.swept == s.tally.swept
    case _ => true
  }

  ghost predicate Inv(cfg: Config, s: State) {
    ProcessorInv(cfg, s) && CountsInv(cfg, s) && SweeperInv(s)
  }

  lemma RemovalCounts(s: State, k: FlowKey)
    requires k in s.flows
    ensures |Without(s, k).flows| == |s.flows| - 1
    ensures Total(Weights(Packets, s.flows)) == Total(Weights(Packets, Without(s, k).flows)) + s.flows[k].packets
  {
    CardinalityMinus(s.flows, {k});
    TotalRemove(Weights(Packets, s.flows), k);
    assert Weights(Packets, s.flows) - {k} == Weights(Packets, s.flows - {k});
  }

  lemma WriteCounts(s: State, op: Op)
    requires op.Event?
    ensures |Written(s, op).flows| == |s.flows| + if KeyOf(op) in s.flows then 0 else 1
    ensures Total(Weights(Packets, Written(s, op).flows)) == Total(Weights(Packets, s.flows)) + 1
  {
    CardinalityUpdate(s.flows, KeyOf(op), Written(s, op).flows[KeyOf(op)]);
    UpsertCredits(Packets, s.flows, op);
  }

  /** A scan that ends on a full table has something to evict that is still there. */
  lemma FullScanFindsVictim(cfg: Config, s: State, queue: seq<FlowKey>)
    requires Inv(cfg, s) && s.processor.Scanning? && |s.flows| == cfg.Bound()
    requires s.flows.Keys <= s.processor.seen.Keys && OldestScanned(cfg, s.processor.seen, queue)
    ensures queue != [] && queue[0] in s.flows
  {
    var seen := s.processor.seen;
    assert seen.Keys == s.flows.Keys;
    assert |seen| == |seen.Keys| == |s.flows.Keys| == |s.flows|;
  }

  lemma LookupKeepsInv(cfg: Config, s: State)
    requires Inv(cfg, s) && ProcessorStep(cfg, s, Lookup).Some?
    ensures Inv(cfg, ProcessorStep(cfg, s, Lookup).value)
  {
    WriteCounts(s, s.processor.op);
  }

  lemma InsertKeepsInv(cfg: Config, s: State)
    requires Inv(cfg, s) && ProcessorStep(cfg, s, Insert).Some?
    ensures Inv(cfg, ProcessorStep(cfg, s, Insert).value)
  {
    WriteCounts(s, s.processor.op);
  }

  lemma ScanKeepsInv(cfg: Config, s: State, a: Action)
    requires a.Scan? || a.EndScan?
    requires Inv(cfg, s) && ProcessorStep(cfg, s, a).Some?
    ensures Inv(cfg, ProcessorStep(cfg, s, a).value)
  {
    if a.EndScan? && |s.flows| == cfg.Bound() {
      FullScanFindsVictim(cfg, s, a.queue);
    }
  }

  lemma QueueTailIsOldest(flows: Flows, queue: seq<FlowKey>)
    requires queue != [] && QueueIsOldest(flows, queue)
    ensures QueueIsOldest(flows - {queue[0]}, queue[1..])
  {
    assert queue == [queue[0]] + queue[1..];
  }

  lemma RemovePresentKeepsInv(cfg: Config, s: State)
    requires s.processor.Evicting? && s.processor.queue != [] && s.processor.queue[0] in s.flows
    requires Inv(cfg, s)
    ensures Inv(cfg, ProcessorStep(cfg, s, RemoveNext).value)
  {
    QueueTailIsOldest(s.flows, s.processor.queue);
    RemovalCounts(s, s.processor.queue[0]);
  }

  lemma RemoveAbsentKeepsInv(cfg: Config, s: State)
    requires s.processor.Evicting? && s.processor.queue != [] && s.processor.queue[0] !in s.flows
    requires Inv(cfg, s)
    ensures Inv(cfg, ProcessorStep(cfg, s, RemoveNext).value)
  {
    QueueTailIsOldest(s.flows, s.processor.queue);
    assert s.flows - {s.processor.queue[0]} == s.flows;
  }

  lemma ProcessorKeepsInv(cfg: Config, s: State, a: Action)
    requires Inv(cfg, s) && ProcessorStep(cfg, s, a).Some?
    ensures Inv(cfg, ProcessorStep(cfg, s, a).value)
  {
    if a.Lookup? {
      LookupKeepsInv(cfg, s);
    } else if a.Insert? {
      InsertKeepsInv(cfg, s);
    } else if a.Scan? || a.EndScan? {
      ScanKeepsInv(cfg, s, a);
    } else if a.RemoveNext? {
      if s.processor.queue[0] in s.flows {
        RemovePresentKeepsInv(cfg, s);
      } else {
        RemoveAbsentKeepsInv(cfg, s);
      }
    }
  }

  lemma VisitKeepsInv(cfg: Config, s: State, a: Action)
    requires a.Visit?
    requires Inv(cfg, s) && SweeperStep(cfg, s, a).Some?
    ensures Inv(cfg, SweeperStep(cfg, s, a).value)
  {
    RemovalCounts(s, a.key);
    var s' := SweeperStep(cfg, s, a).value;
    assert s'.flows == s.flows || s'.flows == s.flows - {a.key};
    assert ProcessorInv(cfg, s');
  }

  lemma LengthReadKeepsInv(cfg: Config, s: State, a: Action)
    requires Inv(cfg, s) && SweeperStep(cfg, s, a).Some? && !a.Visit?
    ensures var s' := SweeperStep(cfg, s, a).value;
            && s'.flows == s.flows && s'.processor == s.processor && s'.tally == s.tally && s'.evictions == s.evictions
            && s'.applied == s.applied && s'.lost == s.lost
            && SweeperInv(s')
  {
  }

  lemma SweeperKeepsInv(cfg: Config, s: State, a: Action)
    requires Inv(cfg, s) && SweeperStep(cfg, s, a).Some?
    ensures Inv(cfg, SweeperStep(cfg, s, a).value)
  {
    if a.Visit? {
      VisitKeepsInv(cfg, s, a);
    } else {
      LengthReadKeepsInv(cfg, s, a);
    }
  }

  lemma {:induction false} InvAlways(cfg: Config, actions: seq<Action>)
    requires Exec(cfg, actions).Some?
    ensures Inv(cfg, Exec(cfg, actions).value)
  {
    if actions == [] {
      assert Weights(Packets, START.flows) == map[];
    } else {
      var prefix, a := actions[..|actions| - 1], actions[|actions| - 1];
      InvAlways(cfg, prefix);
      var s := Exec(cfg, prefix).value;
      if ProcessorStep(cfg, s, a).Some? {
        ProcessorKeepsInv(cfg, s, a);
      } else {
        SweeperKeepsInv(cfg, s, a);
      }
    }
  }

  // ---------- What holds in every interleaving ----------

  /** The table never outgrows its bound, not even between two steps of one call. */
  lemma BoundUnderInterleaving(cfg: Config, actions: seq<Action>)
    requires Exec(cfg, actions).Some?
    ensures |Exec(cfg, actions).value.flows| <= Max(cfg.maxFlows, 1)
  {
    InvAlways(cfg, actions);
  }

  /** Outside an eviction the health counter is exactly the number of flows the evictions
      themselves removed, and no flow and no packet is lost track of. */
  lemma CountersUnderInterleaving(cfg: Config, actions: seq<Action>)
    requires Exec(cfg, actions).Some?
    ensures var s := Exec(cfg, actions).value;
            && (!s.processor.Evicting? ==> s.evictions == s.tally.evicted)
            && s.tally.inserted == |s.flows| + s.tally.evicted + s.tally.swept
            && s.applied == Total(Weights(Packets, s.flows)) + s.lost
  {
    InvAlways(cfg, actions);
  }

  /** Eviction stays least-recently-seen: a flow it removes was seen no later than any flow
      it is going to leave in the table. */
  lemma LruUnderInterleaving(cfg: Config, actions: seq<Action>, k: FlowKey)
    requires Exec(cfg, actions).Some? && Exec(cfg, actions).value.processor.Evicting?
    requires var s := Exec(cfg, actions).value;
             s.processor.queue != [] && s.processor.queue[0] in s.flows && k in s.flows && k !in s.processor.queue
    ensures var s := Exec(cfg, actions).value;
            s.flows[s.processor.queue[0]].lastSeen <= s.flows[k].lastSeen
  {
    InvAlways(cfg, actions);
    assert Exec(cfg, actions).value.processor.queue[0] in Exec(cfg, actions).value.processor.queue;
  }

  /** The number a sweep reports is off by the inserts and evictions that fell between its
      two reads of the length. It is the number of flows it expired exactly when those two
      balance, and the unsigned subtraction underflows exactly when more flows were inserted
      than were expired and evicted together. */
  lemma SweepReportUnderInterleaving(cfg: Config, actions: seq<Action>)
    requires Exec(cfg, actions).Some? && Exec(cfg, actions).value.sweeper.Counting?
    ensures var w := Exec(cfg, actions).value.sweeper;
            var inserted, evicted, expired := w.until.inserted - w.since.inserted,
                w.until.evicted - w.since.evicted, w.until.swept - w.since.swept;
            && w.before - w.after == expired + evicted - inserted
            && (w.before - w.after == expired <==> inserted == evicted)
            && (w.before < w.after <==> inserted > expired + evicted)
  {
    InvAlways(cfg, actions);
  }
}
