/** Whole runs of the agent: packets arriving at the probe, polls of the event loop and sweeps
    in any order. Every packet the probe accepts is accounted for at every moment. */
module PipelineRuns {
  import opened Common
  import opened EventCodec
  import opened FlowRuns
  import opened FlowTable
  import opened Ipv4
  import opened Pipeline
  import opened PodTable
  import opened Probe

  datatype Settings = Settings(cfg: Config, grpcPort: u16, localIps: set<u32>, maxBatch: nat)

  /** `reported` are the events the probe put into the ring, `consumed` how many of them have
      left it; `retired` counts the packets of flows that were evicted or expired. */
  datatype System = System(
    ring: seq<Record>,
    dropped: nat,
    table: Table,
    reported: seq<NetworkFlowEvent>,
    consumed: nat,
    accepted: nat,
    malformed: nat,
    cut: nat,
    skipped: nat,
    retired: nat)

  const START: System := System([], 0, FlowTable.EMPTY, [], 0, 0, 0, 0, 0, 0)

  /** A poll carries the pod index it looks up in and the states the flow table goes through. */
  datatype Action =
    | Packet(ctx: Context, dir: u8, timestampNs: u64, room: bool)
    | Poll(index: IpIndex, clock: nat -> nat, taken: nat, cut: nat, trace: seq<Table>)
    | SweepNow(now: nat, after: Table)

  function OpsOf(env: Settings, s: System, a: Action): seq<Op>
    requires a.Poll? && a.taken <= |s.ring|
  {
    HandOff(a.index, env.grpcPort, env.localIps, Events(s.ring[..a.taken]), a.clock)
  }

  ghost predicate Pollable(env: Settings, s: System, a: Action)
    requires a.Poll?
  {
    && Polled(s.ring, env.maxBatch, a.taken, a.cut)
    && Chain(env.cfg, OpsOf(env, s, a), a.trace)
    && a.trace[0] == s.table
    && |Events(s.ring[..a.taken])| <= a.taken
    && |OpsOf(env, s, a)| <= |Events(s.ring[..a.taken])|
  }

  ghost function AfterPoll(env: Settings, s: System, a: Action): System
    requires a.Poll? && Pollable(env, s, a)
  {
    var events, ops := Events(s.ring[..a.taken]), OpsOf(env, s, a);
    s.(ring := s.ring[a.taken + a.cut..],
       consumed := s.consumed + a.taken + a.cut,
       malformed := s.malformed + (a.taken - |events|),
       cut := s.cut + a.cut,
       skipped := s.skipped + (|events| - |ops|),
       table := a.trace[|ops|],
       retired := s.retired + Lost(Packets, a.trace, |ops|))
  }

  function AfterPacket(s: System, e: NetworkFlowEvent, room: bool): System {
    if room then s.(ring := s.ring + [Encode(e)], reported := s.reported + [e], accepted := s.accepted + 1)
    else s.(dropped := s.dropped + 1, accepted := s.accepted + 1)
  }

  ghost function Next(env: Settings, s: System, a: Action): Option<System> {
    match a
    case Packet(ctx, dir, timestampNs, room) =>
      (match Decode(ctx, dir, timestampNs)
       case None => Some(s)
       case Some(e) => Some(AfterPacket(s, e, room)))
    case Poll(_, _, _, _, _) => if Pollable(env, s, a) then Some(AfterPoll(env, s, a)) else None
    case SweepNow(now, after) =>
      if SweepStep(env.cfg, s.table, Sweep(now), after)
      then Some(s.(table := after, retired := s.retired + LostIn(Packets, s.table, after)))
      else None
  }

  ghost function Exec(env: Settings, actions: seq<Action>): Option<System> {
    if actions == [] then Some(START) else
      match Exec(env, actions[..|actions| - 1])
      case None => None
      case Some(s) => Next(env, s, actions[|actions| - 1])
  }

  // ---------- Counting what a poll does ----------

  lemma {:induction false} EventsFewer(records: seq<Record>)
    ensures |Events(records)| <= |records|
  {
    if records != [] {
      EventsFewer(records[..|records| - 1]);
    }
  }

  lemma {:induction false} HandOffCounts(index: IpIndex, port: u16, localIps: set<u32>, events: seq<NetworkFlowEvent>,
                                         clock: nat -> nat)
    ensures var ops := HandOff(index, port, localIps, events, clock);
            |ops| <= |events| && Credits(Packets, ops) == |ops|
  {
    if events != [] {
      var n := |events| - 1;
      var before, last := HandOff(index, port, localIps, events[..n], clock),
          Handed(index, port, localIps, events[n], clock(n));
      HandOffCounts(index, port, localIps, events[..n], clock);
      if last == [] {
        assert before + last == before;
      } else {
        assert (before + last)[..|before|] == before;
      }
    }
  }

  /** What the event loop guarantees of one tick makes it a possible poll here. */
  lemma TickIsPollable(env: Settings, s: System, a: Action)
    requires a.Poll? && Polled(s.ring, env.maxBatch, a.taken, a.cut)
    requires Chain(env.cfg, OpsOf(env, s, a), a.trace) && a.trace[0] == s.table
    ensures Pollable(env, s, a)
  {
    EventsFewer(s.ring[..a.taken]);
    HandOffCounts(a.index, env.grpcPort, env.localIps, Events(s.ring[..a.taken]), a.clock);
  }

  // ---------- The ledger ----------

  ghost predicate Balanced(s: System) {
    s.accepted == s.dropped + |s.ring| + s.malformed + s.cut + s.skipped + Held(Packets, s.table) + s.retired
  }

  lemma PollLedger(env: Settings, s: System, a: Action)
    requires a.Poll? && Pollable(env, s, a)
    ensures var n := |OpsOf(env, s, a)|;
            Held(Packets, a.trace[n]) + Lost(Packets, a.trace, n) == Held(Packets, s.table) + n
  {
    var ops := OpsOf(env, s, a);
    HandOffCounts(a.index, env.grpcPort, env.localIps, Events(s.ring[..a.taken]), a.clock);
    ChainLedger(Packets, env.cfg, ops, a.trace, |ops|);
    assert ops[..|ops|] == ops;
  }

  lemma PollBalances(env: Settings, s: System, a: Action)
    requires a.Poll? && Pollable(env, s, a) && Balanced(s)
    ensures Balanced(AfterPoll(env, s, a))
  {
    PollLedger(env, s, a);
  }

  lemma NextBalances(env: Settings, s: System, a: Action)
    requires Balanced(s) && Next(env, s, a).Some?
    ensures Balanced(Next(env, s, a).value)
  {
    match a
    case Packet(_, _, _, _) =>
    case Poll(_, _, _, _, _) => PollBalances(env, s, a);
    case SweepNow(now, after) => StepLedger(Packets, env.cfg, s.table, Sweep(now), after);
  }

  lemma {:induction false} BalancedAlways(env: Settings, actions: seq<Action>)
    requires Exec(env, actions).Some?
    ensures Balanced(Exec(env, actions).value)
  {
    if actions == [] {
      assert Weights(Packets, FlowTable.EMPTY.flows) == map[];
    } else {
      var prefix := actions[..|actions| - 1];
      BalancedAlways(env, prefix);
      NextBalances(env, Exec(env, prefix).value, actions[|actions| - 1]);
    }
  }

  // ---------- The ring delivers what was reported, in order ----------

  function Encoded(events: seq<NetworkFlowEvent>): seq<Record> {
    seq(|events|, i requires 0 <= i < |events| => Encode(events[i]))
  }

  lemma {:induction false} EventsUndoEncoded(events: seq<NetworkFlowEvent>)
    ensures Events(Encoded(events)) == events
  {
    if events != [] {
      var n := |events| - 1;
      EventsUndoEncoded(events[..n]);
      var records := Encoded(events);
      assert records[..n] == Encoded(events[..n]) && records[n] == Encode(events[n]);
      ReadUndoesEncode(events[n]);
      assert events == events[..n] + [events[n]];
    }
  }

  ghost predicate InOrder(s: System) {
    s.consumed <= |s.reported| && s.ring == Encoded(s.reported[s.consumed..]) && s.malformed == 0
  }

  /** The records a poll takes are the next events the probe reported. */
  lemma TakenAreReported(s: System, taken: nat)
    requires InOrder(s) && taken <= |s.ring|
    ensures s.consumed + taken <= |s.reported|
    ensures Events(s.ring[..taken]) == s.reported[s.consumed..s.consumed + taken]
  {
    var next := s.reported[s.consumed..s.consumed + taken];
    assert s.ring[..taken] == Encoded(next);
    EventsUndoEncoded(next);
  }

  lemma PacketInOrder(s: System, e: NetworkFlowEvent, room: bool)
    requires InOrder(s)
    ensures InOrder(AfterPacket(s, e, room))
  {
    var waiting := s.reported[s.consumed..];
    assert (s.reported + [e])[s.consumed..] == waiting + [e];
    assert Encoded(waiting + [e]) == Encoded(waiting) + [Encode(e)];
  }

  lemma RemovalInOrder(s: System, s': System, taken: nat, cut: nat)
    requires InOrder(s) && taken + cut <= |s.ring|
    requires s'.reported == s.reported && s'.consumed == s.consumed + taken + cut && s'.ring == s.ring[taken + cut..]
    requires s'.malformed == taken - |Events(s.ring[..taken])|
    ensures InOrder(s')
  {
    TakenAreReported(s, taken);
    EncodedSuffix(s.reported, s.consumed, taken + cut);
  }

  lemma PollInOrder(env: Settings, s: System, a: Action)
    requires a.Poll? && InOrder(s) && Pollable(env, s, a)
    ensures InOrder(AfterPoll(env, s, a))
  {
    RemovalInOrder(s, AfterPoll(env, s, a), a.taken, a.cut);
  }

  lemma EncodedSuffix(events: seq<NetworkFlowEvent>, from: nat, n: nat)
    requires from + n <= |events|
    ensures Encoded(events[from..])[n..] == Encoded(events[from + n..])
  {
    assert events[from..][n..] == events[from + n..];
  }

  lemma NextInOrder(env: Settings, s: System, a: Action)
    requires InOrder(s) && Next(env, s, a).Some?
    ensures InOrder(Next(env, s, a).value)
  {
    match a
    case Packet(ctx, dir, timestampNs, room) =>
      var e := Decode(ctx, dir, timestampNs);
      if e.Some? {
        PacketInOrder(s, e.value, room);
      }
    case Poll(_, _, _, _, _) => PollInOrder(env, s, a);
    case SweepNow(_, _) =>
  }

  lemma {:induction false} InOrderAlways(env: Settings, actions: seq<Action>)
    requires Exec(env, actions).Some?
    ensures InOrder(Exec(env, actions).value)
  {
    if actions != [] {
      var prefix := actions[..|actions| - 1];
      InOrderAlways(env, prefix);
      NextInOrder(env, Exec(env, prefix).value, actions[|actions| - 1]);
    }
  }

  // ---------- Main results ----------

  /** The whole-pipeline ledger: every packet the probe accepted was counted as dropped, is
      still in the ring, was thrown away by a poll at its batch limit, was the agent's own,
      is in a live flow, or left with an evicted or expired one. No record of the probe is
      ever malformed. */
  lemma PacketsAreAccountedFor(env: Settings, actions: seq<Action>)
    requires Exec(env, actions).Some?
    ensures var s := Exec(env, actions).value;
            && s.accepted == s.dropped + |s.ring| + s.cut + s.skipped + Held(Packets, s.table) + s.retired
            && s.malformed == 0
  {
    BalancedAlways(env, actions);
    InOrderAlways(env, actions);
  }

  /** On records of the probe a poll takes all that wait, or as many as the limit allows, and
      loses one more exactly when more wait. */
  lemma PollTakes(s: System, maxBatch: nat, taken: nat, cut: nat)
    requires InOrder(s)
    ensures Polled(s.ring, maxBatch, taken, cut) <==>
            taken == Min(|s.ring|, maxBatch) && cut == if |s.ring| > maxBatch then 1 else 0
  {
    if taken <= |s.ring| {
      TakenAreReported(s, taken);
      if taken > 0 {
        TakenAreReported(s, taken - 1);
      }
    }
  }

  lemma ExecLast(env: Settings, actions: seq<Action>, a: Action)
    ensures Exec(env, actions + [a]) ==
            match Exec(env, actions)
            case None => None
            case Some(s) => Next(env, s, a)
  {
    assert (actions + [a])[..|actions|] == actions;
  }

  lemma PollDelivers(s: System, maxBatch: nat, taken: nat, cut: nat)
    requires InOrder(s) && Polled(s.ring, maxBatch, taken, cut)
    ensures s.consumed + taken <= |s.reported| && taken <= |s.ring|
    ensures Events(s.ring[..taken]) == s.reported[s.consumed..s.consumed + taken]
    ensures taken == Min(|s.ring|, maxBatch) && cut == if |s.ring| > maxBatch then 1 else 0
  {
    PollTakes(s, maxBatch, taken, cut);
    TakenAreReported(s, taken);
  }

  lemma NextPolls(env: Settings, s: System, a: Action)
    requires a.Poll? && Next(env, s, a).Some?
    ensures Polled(s.ring, env.maxBatch, a.taken, a.cut)
    ensures Next(env, s, a).value.consumed == s.consumed + a.taken + a.cut
  {
  }

  /** A poll hands the flow table exactly the events the probe reported next, in the order of
      the packets: all that wait, or as many as the batch limit allows. It loses the one
      record after them exactly when more records wait than the limit. */
  lemma PollsDeliverInOrder(env: Settings, actions: seq<Action>, a: Action)
    requires a.Poll? && Exec(env, actions + [a]).Some?
    ensures Exec(env, actions).Some?
    ensures var s, s' := Exec(env, actions).value, Exec(env, actions + [a]).value;
            && s.consumed + a.taken <= |s.reported| && a.taken <= |s.ring|
            && Events(s.ring[..a.taken]) == s.reported[s.consumed..s.consumed + a.taken]
            && s'.consumed == s.consumed + a.taken + a.cut && a.cut <= 1
            && a.taken == Min(|s.ring|, env.maxBatch)
            && (a.cut == 1 <==> |s.ring| > env.maxBatch)
  {
    ExecLast(env, actions, a);
    InOrderAlways(env, actions);
    NextPolls(env, Exec(env, actions).value, a);
    PollDelivers(Exec(env, actions).value, env.maxBatch, a.taken, a.cut);
  }

  // ---------- Polls are always possible, and some lose a record ----------

  /** Each operation handed over is an event of the batch that is not the agent's own, under
      the names its pod has in the index. */
  lemma HandOffNames(index: IpIndex, port: u16, localIps: set<u32>, events: seq<NetworkFlowEvent>, clock: nat -> nat)
    ensures forall op | op in HandOff(index, port, localIps, events, clock) ::
              && op.Event? && op.event in events && !HasOwnEndpoint(op.event, port, localIps)
              && (op.namespace, op.podName) == Attribute(index, op.event)
  {
    var picked := HandOffIsExact(index, port, localIps, events, clock);
    var ops := HandOff(index, port, localIps, events, clock);
    forall op | op in ops
      ensures && op.Event? && op.event in events && !HasOwnEndpoint(op.event, port, localIps)
              && (op.namespace, op.podName) == Attribute(index, op.event)
    {
      var j :| 0 <= j < |ops| && ops[j] == op;
      assert HandsOver(index, events, clock, picked[j], ops[j]);
      assert picked[j] in picked;
    }
  }

  lemma CanPoll(env: Settings, s: System, index: IpIndex, clock: nat -> nat) returns (a: Action)
    requires InOrder(s)
    ensures a.Poll? && Pollable(env, s, a)
  {
    var taken, cut := Min(|s.ring|, env.maxBatch), if |s.ring| > env.maxBatch then 1 else 0;
    PollTakes(s, env.maxBatch, taken, cut);
    var ops := HandOff(index, env.grpcPort, env.localIps, Events(s.ring[..taken]), clock);
    HandOffNames(index, env.grpcPort, env.localIps, Events(s.ring[..taken]), clock);
    var trace := ChainExists(env.cfg, s.table, ops);
    a := Poll(index, clock, taken, cut, trace);
    TickIsPollable(env, s, a);
  }

  /** In every state of every run the event loop can poll. */
  lemma PollIsPossible(env: Settings, actions: seq<Action>, index: IpIndex, clock: nat -> nat) returns (a: Action)
    requires Exec(env, actions).Some?
    ensures a.Poll? && Exec(env, actions + [a]).Some?
  {
    InOrderAlways(env, actions);
    a := CanPoll(env, Exec(env, actions).value, index, clock);
    ExecLast(env, actions, a);
  }

  /** The same packet arrives `n` times and is reported each time. */
  lemma {:induction false} Arrivals(env: Settings, ctx: Context, dir: u8, timestampNs: u64, n: nat) returns (actions: seq<Action>)
    requires Decode(ctx, dir, timestampNs).Some?
    ensures Exec(env, actions).Some? && |Exec(env, actions).value.ring| == n
  {
    actions := [];
    if n > 0 {
      actions := Arrivals(env, ctx, dir, timestampNs, n - 1);
      var a := Packet(ctx, dir, timestampNs, true);
      ExecLast(env, actions, a);
      actions := actions + [a];
    }
  }

  /** Whatever the limit, one packet more than it between two polls costs a reported record. */
  lemma FullBatchLosesRecord(env: Settings, ctx: Context, dir: u8, timestampNs: u64) returns (actions: seq<Action>, a: Action)
    requires Decode(ctx, dir, timestampNs).Some?
    ensures a.Poll? && Exec(env, actions + [a]).Some?
    ensures a.taken == env.maxBatch && a.cut == 1 && Exec(env, actions + [a]).value.cut >= 1
  {
    actions := Arrivals(env, ctx, dir, timestampNs, env.maxBatch + 1);
    a := PollIsPossible(env, actions, map[], n => n);
    PollsDeliverInOrder(env, actions, a);
    ExecLast(env, actions, a);
  }

  // ---------- Where flows come from ----------

  /** Flow `k` is an event that is not the agent's own, under the names its pod has in `index`. */
  ghost predicate BookedFrom(env: Settings, index: IpIndex, e: NetworkFlowEvent, k: FlowKey) {
    && !HasOwnEndpoint(e, env.grpcPort, env.localIps)
    && (k.namespace, k.podName) == Attribute(index, e)
    && k.srcIp == e.srcIp && k.dstIp == e.dstIp && k.srcPort == e.srcPort && k.dstPort == e.dstPort
    && k.protocol == e.protocol && k.direction == e.direction
  }

  lemma StepAddsEventKey(cfg: Config, t: Table, op: Op, t': Table, k: FlowKey)
    requires Step(cfg, t, op, t') && k in t'.flows && k !in t.flows
    ensures op.Event? && KeyOf(op) == k
  {
  }

  /** A key that a chain of steps adds is the key of one of its events. */
  lemma {:induction false} ChainAddsEventKeys(cfg: Config, ops: seq<Op>, trace: seq<Table>, n: nat, k: FlowKey) returns (i: nat)
    requires Chain(cfg, ops, trace) && n <= |ops| && k in trace[n].flows && k !in trace[0].flows
    ensures i < |ops| && ops[i].Event? && KeyOf(ops[i]) == k
  {
    assert StepAt(cfg, ops, trace, n - 1);
    i := n - 1;
    if k in trace[n - 1].flows {
      i := ChainAddsEventKeys(cfg, ops, trace, n - 1, k);
    } else {
      StepAddsEventKey(cfg, trace[n - 1], ops[n - 1], trace[n], k);
    }
  }

  /** Flow `k` comes from an event that a poll at position `i` of the run was the one to book. */
  ghost predicate BookedBy(env: Settings, actions: seq<Action>, reported: seq<NetworkFlowEvent>, i: nat, k: FlowKey) {
    && i < |actions| && actions[i].Poll?
    && exists e | e in reported :: BookedFrom(env, actions[i].index, e, k)
  }

  lemma PollBooks(env: Settings, s: System, a: Action, k: FlowKey) returns (e: NetworkFlowEvent)
    requires a.Poll? && InOrder(s) && Pollable(env, s, a)
    requires k in AfterPoll(env, s, a).table.flows && k !in s.table.flows
    ensures e in s.reported && BookedFrom(env, a.index, e, k)
  {
    var ops := OpsOf(env, s, a);
    var i := ChainAddsEventKeys(env.cfg, ops, a.trace, |ops|, k);
    e := ops[i].event;
    HandOffNames(a.index, env.grpcPort, env.localIps, Events(s.ring[..a.taken]), a.clock);
    TakenAreReported(s, a.taken);
    assert ops[i] in ops;
  }

  lemma NextKeepsReports(env: Settings, s: System, a: Action)
    requires Next(env, s, a).Some?
    ensures s.reported <= Next(env, s, a).value.reported
    ensures !a.Poll? ==> Next(env, s, a).value.table.flows.Keys <= s.table.flows.Keys
  {
  }

  lemma StillBooked(env: Settings, actions: seq<Action>, a: Action, before: seq<NetworkFlowEvent>,
                    reported: seq<NetworkFlowEvent>, i: nat, k: FlowKey)
    requires BookedBy(env, actions, before, i, k) && before <= reported
    ensures BookedBy(env, actions + [a], reported, i, k)
  {
    var e :| e in before && BookedFrom(env, actions[i].index, e, k);
    assert (actions + [a])[i] == actions[i];
    assert e in reported;
  }

  /** In every run every flow of the table was booked by one of the polls: its addresses,
      ports, protocol and direction are those of an event the probe reported, that event was
      not the agent's own, and its names are those of that event's pod in the poll's index. */
  lemma {:induction false} FlowsAreBooked(env: Settings, actions: seq<Action>, k: FlowKey)
    requires Exec(env, actions).Some? && k in Exec(env, actions).value.table.flows
    ensures exists i: nat :: BookedBy(env, actions, Exec(env, actions).value.reported, i, k)
  {
    if actions != [] {
      var n := |actions| - 1;
      var prefix, a := actions[..n], actions[n];
      var s, s' := Exec(env, prefix).value, Exec(env, actions).value;
      assert actions == prefix + [a];
      NextKeepsReports(env, s, a);
      if k in s.table.flows {
        FlowsAreBooked(env, prefix, k);
        var i: nat :| BookedBy(env, prefix, s.reported, i, k);
        StillBooked(env, prefix, a, s.reported, s'.reported, i, k);
      } else {
        InOrderAlways(env, prefix);
        var e := PollBooks(env, s, a, k);
        assert BookedBy(env, actions, s'.reported, n, k);
      }
    }
  }

  // ---------- The agent's own traffic never becomes a flow ----------

  predicate IsOwnFlow(env: Settings, k: FlowKey) {
    || IsOwnEndpoint(k.srcIp, k.srcPort, env.grpcPort, env.localIps)
    || IsOwnEndpoint(k.dstIp, k.dstPort, env.grpcPort, env.localIps)
  }

  /** In every run, no flow of the table has the agent's own endpoint at either side. */
  lemma OwnTrafficIsNoFlow(env: Settings, actions: seq<Action>)
    requires Exec(env, actions).Some?
    ensures forall k | k in Exec(env, actions).value.table.flows :: !IsOwnFlow(env, k)
  {
    forall k | k in Exec(env, actions).value.table.flows ensures !IsOwnFlow(env, k) {
      FlowsAreBooked(env, actions, k);
    }
  }

  // ---------- What the probe does is a packet step ----------

  /** What the probe guarantees of one packet, on its two maps, is a step of these runs. */
  lemma ProbeIsPacketStep(env: Settings, s: System, ctx: Context, dir: u8, timestampNs: u64, room: bool,
                          events: seq<Record>, dropped: nat)
    requires var e := Decode(ctx, dir, timestampNs);
             && events == s.ring + (if e.Some? && room then [Encode(e.value)] else [])
             && dropped == s.dropped + if e.Some? && !room then 1 else 0
    ensures var r := Next(env, s, Packet(ctx, dir, timestampNs, room));
            && r.Some? && r.value.ring == events && r.value.dropped == dropped
            && r.value.table == s.table && r.value.consumed == s.consumed
            && r.value.accepted == s.accepted + if Decode(ctx, dir, timestampNs).Some? then 1 else 0
  {
    assert s.ring + [] == s.ring;
  }
}
