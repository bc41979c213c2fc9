/** What every run of the flow table keeps: the table replays its event history, nothing it
    counts is lost, its size stays bounded, its capacity flag is a hysteresis, and a flow
    disappears only for one of two reasons. */
module FlowRuns {
  import opened Common
  import opened FlowTable
  import opened MapSums

  // ---------- Replay: the table against its event history ----------

  type EventOp = op: Op | op.Event? witness Op.Event(NetworkFlowEvent(0, 0, 0, 0, 0, 0, 0, 0, 0), "", "", 0)

  /** The events of `ops` that belong to flow `k`, in order. */
  function EventsOf(k: FlowKey, ops: seq<Op>): seq<EventOp> {
    if ops == [] then [] else EventsOf(k, ops[..|ops| - 1]) + Own(k, ops[|ops| - 1])
  }

  function Own(k: FlowKey, op: Op): seq<EventOp> {
    if op.Event? && KeyOf(op) == k then [op] else []
  }

  /** Exactly the events of `k` among `ops` are listed. */
  lemma {:induction false} EventsOfAreTheEvents(k: FlowKey, ops: seq<Op>, e: EventOp)
    ensures e in EventsOf(k, ops) <==> e in ops && KeyOf(e) == k
  {
    if ops != [] {
      EventsOfAreTheEvents(k, ops[..|ops| - 1], e);
      assert ops == ops[..|ops| - 1] + [ops[|ops| - 1]];
    }
  }

  lemma EventsOfNext(k: FlowKey, ops: seq<Op>, j: nat, i: nat, n: nat)
    requires j <= i < |ops| && n == i + 1
    ensures EventsOf(k, ops[j..n]) == EventsOf(k, ops[j..i]) + Own(k, ops[i])
  {
    assert ops[j..n][..i - j] == ops[j..i];
  }

  function BytesOf(events: seq<EventOp>): nat {
    if events == [] then 0 else BytesOf(events[..|events| - 1]) + events[|events| - 1].event.packetLen
  }

  /** The record a flow must have after exactly these events; none after no events. */
  function Summary(events: seq<EventOp>): Option<FlowStats> {
    if events == [] then None else
      var first, last := events[0], events[|events| - 1];
      Some(FlowStats(BytesOf(events), |events|, first.now, last.now, first.event.timestampNs, last.event.timestampNs))
  }

  function RecordOf(t: Table, k: FlowKey): Option<FlowStats> {
    if k in t.flows then Some(t.flows[k]) else None
  }

  function Recorded(record: Option<FlowStats>, op: EventOp): FlowStats {
    match record
    case None => FlowStats.New(op.event.timestampNs, op.event.packetLen, op.now)
    case Some(stats) => stats.Update(op.event.timestampNs, op.event.packetLen, op.now)
  }

  /** How one step treats a key it does not throw out. */
  lemma KeptKey(cfg: Config, t: Table, op: Op, t': Table, k: FlowKey)
    requires Step(cfg, t, op, t') && k !in Gone(t, t')
    ensures RecordOf(t', k) == if op.Event? && KeyOf(op) == k then Some(Recorded(RecordOf(t, k), op)) else RecordOf(t, k)
  {
  }

  lemma SummaryGrows(events: seq<EventOp>, k: FlowKey, op: Op)
    ensures Summary(events + Own(k, op)) ==
            if op.Event? && KeyOf(op) == k then Some(Recorded(Summary(events), op)) else Summary(events)
  {
    if op.Event? && KeyOf(op) == k {
      assert (events + [op])[..|events|] == events;
      assert BytesOf(events + [op]) == BytesOf(events) + op.event.packetLen;
    } else {
      assert events + Own(k, op) == events;
    }
  }

  lemma ReplayStep(cfg: Config, ops: seq<Op>, states: seq<Table>, j: nat, i: nat, n: nat, k: FlowKey)
    requires Chain(cfg, ops, states) && j <= i < |ops| && n == i + 1 && !Leaves(states, i, k)
    requires RecordOf(states[i], k) == Summary(EventsOf(k, ops[j..i]))
    ensures RecordOf(states[n], k) == Summary(EventsOf(k, ops[j..n]))
  {
    var events := EventsOf(k, ops[j..i]);
    assert StepAt(cfg, ops, states, i);
    KeptKey(cfg, states[i], ops[i], states[n], k);
    SummaryGrows(events, k, ops[i]);
    EventsOfNext(k, ops, j, i, n);
  }

  lemma NoEventsYet(ops: seq<Op>, j: nat, k: FlowKey)
    requires j <= |ops|
    ensures Summary(EventsOf(k, ops[j..j])) == None
  {
    assert ops[j..j] == [];
  }

  /** From a moment when `k` was absent, as long as it is not thrown out, its record is the
      summary of exactly its events since then; without events it has no record. */
  lemma {:induction false} ReplaySince(cfg: Config, ops: seq<Op>, states: seq<Table>, j: nat, n: nat, k: FlowKey)
    requires Chain(cfg, ops, states) && j <= n <= |ops|
    requires k !in states[j].flows
    requires forall i: nat | j <= i < n :: !Leaves(states, i, k)
    ensures RecordOf(states[n], k) == Summary(EventsOf(k, ops[j..n]))
    decreases n
  {
    if j == n {
      NoEventsYet(ops, j, k);
    } else {
      ReplaySince(cfg, ops, states, j, n - 1, k);
      ReplayStep(cfg, ops, states, j, n - 1, n, k);
    }
  }

  /** The last moment up to `n` at which `k` was thrown out, or the start of the run. */
  function LastGone(states: seq<Table>, n: nat, k: FlowKey): (j: nat)
    requires n < |states|
    ensures j <= n
    ensures j == 0 || Leaves(states, j - 1, k)
    ensures forall i: nat | j <= i < n :: !Leaves(states, i, k)
  {
    if n == 0 then 0
    else if Leaves(states, n - 1, k) then n
    else LastGone(states, n - 1, k)
  }

  /** The events a live record stands for: those of its key since the key was last evicted
      or expired. */
  function LiveEvents(ops: seq<Op>, states: seq<Table>, n: nat, k: FlowKey): seq<EventOp>
    requires |states| == |ops| + 1 && n <= |ops|
  {
    EventsOf(k, ops[LastGone(states, n, k)..n])
  }

  /** Replay refinement: at every moment of every run, every flow's record is the summary of
      its live events, and there is none without live events. */
  lemma TableReplaysHistory(cfg: Config, ops: seq<Op>, states: seq<Table>, n: nat, k: FlowKey)
    requires Run(cfg, ops, states) && n <= |ops|
    ensures RecordOf(states[n], k) == Summary(LiveEvents(ops, states, n, k))
  {
    ReplaySince(cfg, ops, states, LastGone(states, n, k), n, k);
  }

  // ---------- Ledger: packets, bytes and flows are conserved ----------

  datatype Metric = Bytes | Packets

  function Measure(m: Metric, stats: FlowStats): nat {
    match m
    case Bytes => stats.bytes
    case Packets => stats.packets
  }

  /** What an operation adds to the table. */
  function Credit(m: Metric, op: Op): nat {
    match op
    case Event(event, _, _, _) => (match m case Bytes => event.packetLen case Packets => 1)
    case Sweep(_) => 0
  }

  function Credits(m: Metric, ops: seq<Op>): nat {
    if ops == [] then 0 else Credits(m, ops[..|ops| - 1]) + Credit(m, ops[|ops| - 1])
  }

  function Weights(m: Metric, flows: Flows): map<FlowKey, nat> {
    map k | k in flows :: Measure(m, flows[k])
  }

  ghost function Held(m: Metric, t: Table): nat { Total(Weights(m, t.flows)) }

  /** What leaves the table with the flows thrown out in one step. */
  ghost function LostIn(m: Metric, t: Table, t': Table): nat {
    Total(Weights(m, Restrict(t.flows, Gone(t, t'))))
  }

  ghost function Lost(m: Metric, states: seq<Table>, n: nat): nat
    requires n < |states|
  {
    if n == 0 then 0 else Lost(m, states, n - 1) + LostIn(m, states[n - 1], states[n])
  }

  lemma WeightsSplit(m: Metric, flows: Flows, gone: set<FlowKey>)
    requires gone <= flows.Keys
    ensures Total(Weights(m, flows)) == Total(Weights(m, flows - gone)) + Total(Weights(m, Restrict(flows, gone)))
  {
    TotalSplit(Weights(m, flows), gone);
    assert Weights(m, flows) - gone == Weights(m, flows - gone);
    assert Restrict(Weights(m, flows), gone) == Weights(m, Restrict(flows, gone));
  }

  lemma UpsertCredits(m: Metric, flows: Flows, op: Op)
    requires op.Event?
    ensures Total(Weights(m, Upsert(flows, KeyOf(op), op.event, op.now))) == Total(Weights(m, flows)) + Credit(m, op)
  {
    var key := KeyOf(op);
    var flows' := Upsert(flows, key, op.event, op.now);
    assert Weights(m, flows') == Weights(m, flows)[key := Measure(m, flows'[key])];
    TotalUpdate(Weights(m, flows), key, Measure(m, flows'[key]));
  }

  lemma EventLedger(m: Metric, cfg: Config, t: Table, op: Op, t': Table)
    requires op.Event? && EventStep(cfg, t, op, t')
    ensures Held(m, t') + LostIn(m, t, t') == Held(m, t) + Credit(m, op)
  {
    WeightsSplit(m, t.flows, Gone(t, t'));
    UpsertCredits(m, t.flows - Gone(t, t'), op);
  }

  lemma SweepLedger(m: Metric, cfg: Config, t: Table, op: Op, t': Table)
    requires op.Sweep? && SweepStep(cfg, t, op, t')
    ensures Held(m, t') + LostIn(m, t, t') == Held(m, t) + Credit(m, op)
  {
    assert Gone(t, t') == Expired(cfg, t.flows, op.now);
    WeightsSplit(m, t.flows, Gone(t, t'));
  }

  lemma StepLedger(m: Metric, cfg: Config, t: Table, op: Op, t': Table)
    requires Step(cfg, t, op, t')
    ensures Held(m, t') + LostIn(m, t, t') == Held(m, t) + Credit(m, op)
  {
    if op.Event? {
      EventLedger(m, cfg, t, op, t');
    } else {
      SweepLedger(m, cfg, t, op, t');
    }
  }

  /** Everything credited since the start of a chain is still held or left with a flow. */
  lemma {:induction false} ChainLedger(m: Metric, cfg: Config, ops: seq<Op>, states: seq<Table>, n: nat)
    requires Chain(cfg, ops, states) && n <= |ops|
    ensures Held(m, states[n]) + Lost(m, states, n) == Held(m, states[0]) + Credits(m, ops[..n])
  {
    if n > 0 {
      ChainLedger(m, cfg, ops, states, n - 1);
      assert StepAt(cfg, ops, states, n - 1);
      StepLedger(m, cfg, states[n - 1], ops[n - 1], states[n]);
      assert ops[..n][..n - 1] == ops[..n - 1];
    }
  }

  lemma RunLedger(m: Metric, cfg: Config, ops: seq<Op>, states: seq<Table>, n: nat)
    requires Run(cfg, ops, states) && n <= |ops|
    ensures Held(m, states[n]) + Lost(m, states, n) == Credits(m, ops[..n])
  {
    ChainLedger(m, cfg, ops, states, n);
    assert Weights(m, EMPTY.flows) == map[];
  }

  /** The processed-events counter is the number of packets credited. */
  lemma {:induction false} EventsAreCounted(cfg: Config, ops: seq<Op>, states: seq<Table>, n: nat)
    requires Run(cfg, ops, states) && n <= |ops|
    ensures states[n].eventsProcessed == Credits(Packets, ops[..n])
  {
    if n > 0 {
      EventsAreCounted(cfg, ops, states, n - 1);
      assert StepAt(cfg, ops, states, n - 1);
      assert ops[..n][..n - 1] == ops[..n - 1];
    }
  }

  /** How many records the operations up to `n` created. */
  function Inserts(ops: seq<Op>, states: seq<Table>, n: nat): nat
    requires |states| == |ops| + 1 && n <= |ops|
  {
    if n == 0 then 0 else
      Inserts(ops, states, n - 1)
      + if ops[n - 1].Event? && KeyOf(ops[n - 1]) !in states[n - 1].flows then 1 else 0
  }

  /** The sum of the values the sweeps up to `n` returned. */
  function Swept(cfg: Config, ops: seq<Op>, states: seq<Table>, n: nat): nat
    requires |states| == |ops| + 1 && n <= |ops|
  {
    if n == 0 then 0 else
      Swept(cfg, ops, states, n - 1)
      + if ops[n - 1].Sweep? then |Expired(cfg, states[n - 1].flows, ops[n - 1].now)| else 0
  }

  lemma StepSize(cfg: Config, t: Table, op: Op, t': Table)
    requires Step(cfg, t, op, t')
    ensures op.Event? ==> |t'.flows| == |t.flows| - |Gone(t, t')| + if KeyOf(op) in t.flows then 0 else 1
    ensures op.Sweep? ==> Gone(t, t') == Expired(cfg, t.flows, op.now) && |t'.flows| == |t.flows| - |Gone(t, t')|
  {
    CardinalityMinus(t.flows, Gone(t, t'));
    if op.Event? {
      var kept := t.flows - Gone(t, t');
      CardinalityUpdate(kept, KeyOf(op), t'.flows[KeyOf(op)]);
      assert KeyOf(op) in kept <==> KeyOf(op) in t.flows;
    } else {
      assert Gone(t, t') == Expired(cfg, t.flows, op.now);
    }
  }

  /** Every record ever created is live, was counted as evicted, or was counted by a sweep. */
  lemma {:induction false} FlowsAreConserved(cfg: Config, ops: seq<Op>, states: seq<Table>, n: nat)
    requires Run(cfg, ops, states) && n <= |ops|
    ensures Inserts(ops, states, n) == |states[n].flows| + states[n].evictions + Swept(cfg, ops, states, n)
  {
    if n > 0 {
      FlowsAreConserved(cfg, ops, states, n - 1);
      assert StepAt(cfg, ops, states, n - 1);
      StepSize(cfg, states[n - 1], ops[n - 1], states[n]);
    }
  }

  // ---------- Size bound and watermarks ----------

  /** The capacity flag in plain percentages: an event raises it at 95 percent of the limit,
      rounded down, and a sweep clears it below 80 percent, rounded down. */
  lemma FlagFollowsPercentages(cfg: Config, t: Table, op: Op, t': Table)
    requires Step(cfg, t, op, t')
    ensures op.Event? ==> (t'.atCapacity <==> t.atCapacity || 100 * (|t'.flows| + 1) > 95 * cfg.maxFlows)
    ensures op.Sweep? ==> (t'.atCapacity <==> t.atCapacity && 100 * (|t'.flows| + 1) > 80 * cfg.maxFlows)
  {
  }

  /** The size of an eviction in plain percentages: a new key that meets a full table costs one
      percent of the limit, rounded down, one flow where that is less, and no more flows than
      there are; anything else costs none. */
  lemma EvictionTakesOnePercent(cfg: Config, t: Table, op: Op, t': Table)
    requires op.Event? && EventStep(cfg, t, op, t')
    ensures var gone := |Gone(t, t')|;
            if KeyOf(op) in t.flows || |t.flows| < cfg.maxFlows || t.flows == map[] then gone == 0
            else if cfg.maxFlows < 100 then gone == 1
            else 100 * gone <= cfg.maxFlows < 100 * (gone + 1)
  {
    assert t.flows == map[] ==> t.flows.Keys == {};
  }

  /** Making room and inserting leaves a table of at least two flows above its high mark,
      and never more than one eviction batch below its bound. */
  lemma EvictionStaysAboveHighMark(cfg: Config, t: Table, op: Op, t': Table)
    requires Step(cfg, t, op, t') && op.Event? && KeyOf(op) !in t.flows
    requires cfg.maxFlows >= 2 && |t.flows| == cfg.maxFlows
    ensures |t'.flows| == cfg.maxFlows - cfg.EvictCount() + 1
    ensures 100 * (|t'.flows| + 1) > 95 * cfg.maxFlows && t'.atCapacity
  {
    StepSize(cfg, t, op, t');
  }

  /** The size bound and the two halves of the hysteresis. */
  ghost predicate Watermarks(cfg: Config, t: Table) {
    && |t.flows| <= cfg.Bound()
    && (t.eventsProcessed == 0 ==> !t.atCapacity && t.flows == map[])
    && (t.atCapacity ==> |t.flows| >= cfg.LowMark())
    && (cfg.maxFlows >= 2 || t.eventsProcessed > 0 ==> |t.flows| >= cfg.HighMark() ==> t.atCapacity)
  }

  lemma StepKeepsWatermarks(cfg: Config, t: Table, op: Op, t': Table)
    requires Step(cfg, t, op, t') && Watermarks(cfg, t)
    ensures Watermarks(cfg, t')
  {
    StepSize(cfg, t, op, t');
    if op.Event? && KeyOf(op) in t.flows {
      assert Gone(t, t') == {};
    }
    if t.flows == map[] && op.Sweep? {
      assert Expired(cfg, t.flows, op.now) == {};
    }
  }

  lemma WatermarksAt(cfg: Config, ops: seq<Op>, states: seq<Table>, i: nat)
    requires Chain(cfg, ops, states) && i < |ops| && Watermarks(cfg, states[i])
    ensures Watermarks(cfg, states[i + 1])
  {
    assert StepAt(cfg, ops, states, i);
    StepKeepsWatermarks(cfg, states[i], ops[i], states[i + 1]);
  }

  lemma {:induction false} WatermarksAlways(cfg: Config, ops: seq<Op>, states: seq<Table>, n: nat)
    requires Run(cfg, ops, states) && n <= |ops|
    ensures Watermarks(cfg, states[n])
  {
    if n > 0 {
      WatermarksAlways(cfg, ops, states, n - 1);
      WatermarksAt(cfg, ops, states, n - 1);
    }
  }

  /** In every reachable state the table is bounded and its capacity flag is a hysteresis
      between the two marks, 80 and 95 percent of the limit rounded down. The upper half holds
      exactly when the table is configured for two flows or more or has processed an event. */
  lemma CapacityFlagIsHysteresis(cfg: Config, ops: seq<Op>, states: seq<Table>, n: nat)
    requires Run(cfg, ops, states) && n <= |ops|
    ensures |states[n].flows| <= Max(cfg.maxFlows, 1)
    ensures states[n].atCapacity ==> 100 * (|states[n].flows| + 1) > 80 * cfg.maxFlows
    ensures (100 * (|states[n].flows| + 1) > 95 * cfg.maxFlows ==> states[n].atCapacity)
            <==> (cfg.maxFlows >= 2 || states[n].eventsProcessed > 0)
  {
    WatermarksAlways(cfg, ops, states, n);
  }

  /** An empty table does not report itself at capacity exactly when it is configured for at
      least two flows or has processed nothing yet. */
  lemma EmptyTableIsNotFull(cfg: Config, ops: seq<Op>, states: seq<Table>, n: nat)
    requires Run(cfg, ops, states) && n <= |ops|
    requires states[n].flows == map[]
    ensures !states[n].atCapacity <==> cfg.maxFlows >= 2 || states[n].eventsProcessed == 0
  {
    WatermarksAlways(cfg, ops, states, n);
  }

  /** A table configured for at most one flow reports itself at capacity from its first
      event on, whatever is swept. */
  lemma TinyTableNeverRecovers(cfg: Config, ops: seq<Op>, states: seq<Table>, n: nat)
    requires Run(cfg, ops, states) && n <= |ops|
    requires cfg.maxFlows <= 1 && states[n].eventsProcessed > 0
    ensures states[n].atCapacity
  {
    CapacityFlagIsHysteresis(cfg, ops, states, n);
  }

  // ---------- Why a flow disappears ----------

  /** A key leaves only when a sweep finds it idle for the whole timeout, or when a new key
      meets a full table and no kept flow was seen before it. */
  lemma WhyGone(cfg: Config, ops: seq<Op>, states: seq<Table>, i: nat, k: FlowKey)
    requires Run(cfg, ops, states) && i < |ops|
    requires Leaves(states, i, k)
    ensures match ops[i]
            case Sweep(now) => states[i].flows[k].lastSeen + cfg.flowTimeout <= now
            case Event(_, _, _, _) =>
              && KeyOf(ops[i]) !in states[i].flows
              && |states[i].flows| >= cfg.maxFlows
              && |Gone(states[i], states[i + 1])| == Min(cfg.EvictCount(), |states[i].flows|)
              && forall s | s in states[i].flows && s in states[i + 1].flows ::
                   states[i].flows[k].lastSeen <= states[i].flows[s].lastSeen
  {
    assert StepAt(cfg, ops, states, i);
  }

  ghost predicate ClockAdvances(ops: seq<Op>) {
    forall i, j | 0 <= i < j < |ops| :: ops[i].now <= ops[j].now
  }

  lemma {:induction false} LastEventIsLatest(k: FlowKey, ops: seq<Op>)
    requires ClockAdvances(ops)
    ensures forall e | e in EventsOf(k, ops) :: e.now <= EventsOf(k, ops)[|EventsOf(k, ops)| - 1].now
  {
    if ops != [] {
      var prefix := ops[..|ops| - 1];
      LastEventIsLatest(k, prefix);
      forall e | e in EventsOf(k, ops) ensures e.now <= EventsOf(k, ops)[|EventsOf(k, ops)| - 1].now {
        if e in EventsOf(k, prefix) {
          EventsOfAreTheEvents(k, prefix, e);
          var i :| 0 <= i < |prefix| && prefix[i] == e;
          assert ops[i] == e;
        }
      }
    }
  }

  /** In terms of history alone: a sweep drops a live flow exactly when every event the
      record stands for is at least the timeout old. */
  lemma SweepDropsExactlyIdleFlows(cfg: Config, ops: seq<Op>, states: seq<Table>, i: nat, k: FlowKey)
    requires Run(cfg, ops, states) && ClockAdvances(ops) && i < |ops|
    requires ops[i].Sweep? && k in states[i].flows
    ensures Leaves(states, i, k) <==>
            forall e | e in LiveEvents(ops, states, i, k) :: e.now + cfg.flowTimeout <= ops[i].now
  {
    var events := LiveEvents(ops, states, i, k);
    TableReplaysHistory(cfg, ops, states, i, k);
    LastEventIsLatest(k, ops[LastGone(states, i, k)..i]);
    assert StepAt(cfg, ops, states, i);
    assert events[|events| - 1] in events;
  }

  /** In terms of history alone: an eviction throws out least recently seen flows. */
  lemma EvictionIsLeastRecent(cfg: Config, ops: seq<Op>, states: seq<Table>, i: nat, g: FlowKey, s: FlowKey)
    requires Run(cfg, ops, states) && ClockAdvances(ops) && i < |ops|
    requires ops[i].Event? && Leaves(states, i, g)
    requires s in states[i].flows && s in states[i + 1].flows
    ensures LiveEvents(ops, states, i, s) != []
    ensures var latest := LiveEvents(ops, states, i, s)[|LiveEvents(ops, states, i, s)| - 1];
            forall e | e in LiveEvents(ops, states, i, g) :: e.now <= latest.now
  {
    TableReplaysHistory(cfg, ops, states, i, g);
    TableReplaysHistory(cfg, ops, states, i, s);
    LastEventIsLatest(g, ops[LastGone(states, i, g)..i]);
    WhyGone(cfg, ops, states, i, g);
  }
}
