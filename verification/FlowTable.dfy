/** The flow table as a state machine on values: what one event and one sweep may do to it.
    Eviction ties and map iteration order are left open, so a step is a relation. */
module FlowTable {
  import opened Common

  datatype FlowKey = FlowKey(
    namespace: string,
    podName: string,
    srcIp: u32,
    dstIp: u32,
    srcPort: u16,
    dstPort: u16,
    protocol: u8,
    direction: u8)

  /** `firstSeen` and `lastSeen` are agent clock readings; the `Ns` fields are the kernel
      timestamps carried by the events. */
  datatype FlowStats = FlowStats(
    bytes: nat,
    packets: nat,
    firstSeen: nat,
    lastSeen: nat,
    firstSeenNs: u64,
    lastSeenNs: u64)
  {
    static function New(timestampNs: u64, bytes: u16, now: nat): FlowStats {
      FlowStats(bytes, 1, now, now, timestampNs, timestampNs)
    }

    function Update(timestampNs: u64, bytes: u16, now: nat): FlowStats {
      this.(bytes := this.bytes + bytes, packets := packets + 1, lastSeen := now, lastSeenNs := timestampNs)
    }
  }

  type Flows = map<FlowKey, FlowStats>

  datatype Config = Config(maxFlows: nat, flowTimeout: nat) {
    /** The size at which the table reports itself at capacity: 95 percent. */
    function HighMark(): (mark: nat)
      ensures 100 * mark <= 95 * maxFlows < 100 * (mark + 1)
    {
      maxFlows * 95 / 100
    }
    /** The size below which a sweep withdraws that report: 80 percent. */
    function LowMark(): (mark: nat)
      ensures 100 * mark <= 80 * maxFlows < 100 * (mark + 1)
    {
      maxFlows * 80 / 100
    }
    /** One percent of the table goes at each eviction, and at least one flow. */
    function EvictCount(): (count: nat)
      ensures if maxFlows < 100 then count == 1 else 100 * count <= maxFlows < 100 * (count + 1)
    {
      Max(maxFlows * 1 / 100, 1)
    }
    /** The largest size the table may reach: a table configured for no flows still holds one. */
    function Bound(): nat { Max(maxFlows, 1) }
  }

  datatype Table = Table(flows: Flows, eventsProcessed: nat, atCapacity: bool, evictions: nat)

  const EMPTY: Table := Table(map[], 0, false, 0)

  /** An operation together with the agent clock reading it takes. */
  datatype Op =
    | Event(event: NetworkFlowEvent, namespace: string, podName: string, now: nat)
    | Sweep(now: nat)

  function EventKey(event: NetworkFlowEvent, namespace: string, podName: string): FlowKey {
    FlowKey(namespace, podName, event.srcIp, event.dstIp, event.srcPort, event.dstPort,
            event.protocol, event.direction)
  }

  function KeyOf(op: Op): FlowKey
    requires op.Event?
  {
    EventKey(op.event, op.namespace, op.podName)
  }

  /** The entry API: update the stored record, or start a new one. */
  function Upsert(flows: Flows, key: FlowKey, event: NetworkFlowEvent, now: nat): Flows {
    flows[key := if key in flows then flows[key].Update(event.timestampNs, event.packetLen, now)
                 else FlowStats.New(event.timestampNs, event.packetLen, now)]
  }

  /** `gone` is as large a batch as the eviction takes, and nothing kept was seen before
      anything in it. */
  ghost predicate EvictedBatch(cfg: Config, flows: Flows, gone: set<FlowKey>) {
    && gone <= flows.Keys
    && |gone| == Min(cfg.EvictCount(), |flows|)
    && forall g, s | g in gone && s in flows && s !in gone :: flows[g].lastSeen <= flows[s].lastSeen
  }

  function Expired(cfg: Config, flows: Flows, now: nat): set<FlowKey> {
    set k | k in flows && flows[k].lastSeen + cfg.flowTimeout <= now
  }

  /** The keys that left the table in a step. */
  function Gone(t: Table, t': Table): set<FlowKey> { t.flows.Keys - t'.flows.Keys }

  ghost predicate EventStep(cfg: Config, t: Table, op: Op, t': Table)
    requires op.Event?
  {
    var gone := Gone(t, t');
    && (if KeyOf(op) !in t.flows && |t.flows| >= cfg.maxFlows then EvictedBatch(cfg, t.flows, gone) else gone == {})
    && t'.flows == Upsert(t.flows - gone, KeyOf(op), op.event, op.now)
    && t'.eventsProcessed == t.eventsProcessed + 1
    && t'.evictions == t.evictions + |gone|
    && t'.atCapacity == (t.atCapacity || |t'.flows| >= cfg.HighMark())
  }

  /** A way to show an event step: name the flows that were evicted. */
  lemma EventStepEvicting(cfg: Config, t: Table, op: Op, t': Table, gone: set<FlowKey>)
    requires op.Event?
    requires if KeyOf(op) !in t.flows && |t.flows| >= cfg.maxFlows then EvictedBatch(cfg, t.flows, gone) else gone == {}
    requires t' == Table(Upsert(t.flows - gone, KeyOf(op), op.event, op.now), t.eventsProcessed + 1,
                         t.atCapacity || |t'.flows| >= cfg.HighMark(), t.evictions + |gone|)
    ensures EventStep(cfg, t, op, t')
  {
    assert t'.flows.Keys == t.flows.Keys - gone + {KeyOf(op)};
    assert KeyOf(op) !in gone;
    assert Gone(t, t') == gone;
  }

  ghost predicate SweepStep(cfg: Config, t: Table, op: Op, t': Table)
    requires op.Sweep?
  {
    && op.now >= cfg.flowTimeout
    && t'.flows == t.flows - Expired(cfg, t.flows, op.now)
    && t'.eventsProcessed == t.eventsProcessed
    && t'.evictions == t.evictions
    && t'.atCapacity == (t.atCapacity && |t'.flows| >= cfg.LowMark())
  }

  ghost predicate Step(cfg: Config, t: Table, op: Op, t': Table) {
    match op
    case Event(_, _, _, _) => EventStep(cfg, t, op, t')
    case Sweep(_) => SweepStep(cfg, t, op, t')
  }

  ghost predicate StepAt(cfg: Config, ops: seq<Op>, states: seq<Table>, i: nat)
    requires |states| == |ops| + 1 && i < |ops|
  {
    Step(cfg, states[i], ops[i], states[i + 1])
  }

  /** Flow `k` is thrown out at step `i`. */
  predicate Leaves(states: seq<Table>, i: nat, k: FlowKey)
    requires i + 1 < |states|
  {
    k in Gone(states[i], states[i + 1])
  }

  /** `states` is a run of `ops` from `states[0]`. */
  ghost predicate Chain(cfg: Config, ops: seq<Op>, states: seq<Table>) {
    && |states| == |ops| + 1
    && forall i: nat | i < |ops| :: StepAt(cfg, ops, states, i)
  }

  ghost predicate Run(cfg: Config, ops: seq<Op>, states: seq<Table>) {
    Chain(cfg, ops, states) && states[0] == EMPTY
  }
}
