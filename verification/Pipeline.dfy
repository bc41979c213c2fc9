/** The event loop: draining the ring buffer, dropping the agent's own traffic, naming the
    pod an event belongs to, and handing it to the flow table. */
module Pipeline {
  import opened Common
  import opened EventCodec
  import opened FlowAggregators
  import opened FlowTable
  import opened Ipv4
  import opened PodCaches
  import opened PodTable
  import opened Probe

  type Record = seq<u8>

  /** The events of the records that have the right size, in order. */
  function Events(records: seq<Record>): seq<NetworkFlowEvent> {
    if records == [] then [] else
      var last := records[|records| - 1];
      Events(records[..|records| - 1]) + if |last| == RECORD_SIZE then [ReadRecord(last)] else []
  }

  /** A poll of `ring` with this batch limit turned `taken` records into events or skipped them,
      and threw away `cut` more: none if it drained the ring, one if it hit its limit, which it
      notices at the first record after the one that filled the batch. */
  ghost predicate Polled(ring: seq<Record>, maxBatch: nat, taken: nat, cut: nat) {
    && taken + cut <= |ring|
    && |Events(ring[..taken])| <= maxBatch
    && (taken > 0 ==> |Events(ring[..taken - 1])| < maxBatch)
    && (if taken < |ring| then cut == 1 && |Events(ring[..taken])| == maxBatch else cut == 0)
  }

  lemma {:induction false} EventsAppend(a: seq<Record>, b: seq<Record>)
    ensures Events(a + b) == Events(a) + Events(b)
  {
    if b == [] {
      assert a + b == a;
    } else {
      var n := |b| - 1;
      EventsAppend(a, b[..n]);
      assert (a + b)[..|a + b| - 1] == a + b[..n];
      ConcatAssociates(Events(a), Events(b[..n]), if |b[n]| == RECORD_SIZE then [ReadRecord(b[n])] else []);
    }
  }

  /** A record of the right size is one event, any other record is none, and the events of a
      ring are those of its records in order. */
  lemma EventsAreWellSized(a: seq<Record>, record: Record, b: seq<Record>)
    ensures Events(a + [record] + b) == Events(a) + (if |record| == 32 then [ReadRecord(record)] else []) + Events(b)
  {
    EventsAppend(a + [record], b);
    assert (a + [record])[..|a|] == a;
  }

  lemma {:induction false} EventsGrow(ring: seq<Record>, i: nat, j: nat)
    requires i <= j <= |ring|
    ensures |Events(ring[..i])| <= |Events(ring[..j])|
  {
    if i < j {
      EventsGrow(ring, i, j - 1);
      assert ring[..j][..j - 1] == ring[..j - 1];
    }
  }

  /** A poll throws a record away exactly when the records before the last one in the ring
      already fill the batch. */
  lemma PollLosesIff(ring: seq<Record>, maxBatch: nat, taken: nat, cut: nat)
    requires Polled(ring, maxBatch, taken, cut)
    ensures cut <= 1
    ensures cut == 1 <==> ring != [] && |Events(ring[..|ring| - 1])| >= maxBatch
  {
    if cut == 1 {
      EventsGrow(ring, taken, |ring| - 1);
    }
  }

  /** The pod an event is booked to: the local side's if it is known, else the other side's. */
  function Attribute(index: IpIndex, e: NetworkFlowEvent): (string, string) {
    var src, dst := PodTable.Lookup(index, e.srcIp), PodTable.Lookup(index, e.dstIp);
    var first, second := if e.direction == INGRESS then dst else src, if e.direction == INGRESS then src else dst;
    if first.Some? then (first.value.namespace, first.value.podName)
    else if second.Some? then (second.value.namespace, second.value.podName)
    else ("external", "unknown")
  }

  /** What one event contributes to the flow table, `now` being the clock when it gets there. */
  function Handed(index: IpIndex, port: u16, localIps: set<u32>, e: NetworkFlowEvent, now: nat): seq<Op> {
    if IsSelfTraffic(e, port, localIps) then []
    else [Event(e, Attribute(index, e).0, Attribute(index, e).1, now)]
  }

  function HandOff(index: IpIndex, port: u16, localIps: set<u32>, events: seq<NetworkFlowEvent>, clock: nat -> nat): seq<Op>
  {
    if events == [] then [] else
      var n := |events| - 1;
      HandOff(index, port, localIps, events[..n], clock) + Handed(index, port, localIps, events[n], clock(n))
  }

  /** `op` is event `i` as it was read, under the names of the pod it is booked to, at its own
      clock reading. */
  ghost predicate HandsOver(index: IpIndex, events: seq<NetworkFlowEvent>, clock: nat -> nat, i: nat, op: Op) {
    && i < |events| && op.Event? && op.event == events[i] && op.now == clock(i)
    && (op.namespace, op.podName) == Attribute(index, events[i])
  }

  /** The positions of the events that are not the agent's own, in order. */
  ghost predicate Others(port: u16, localIps: set<u32>, events: seq<NetworkFlowEvent>, picked: seq<nat>) {
    && (forall j, k | 0 <= j < k < |picked| :: picked[j] < picked[k])
    && (forall i | i in picked :: i < |events|)
    && (forall i: nat | i < |events| :: i in picked <==> !HasOwnEndpoint(events[i], port, localIps))
  }

  /** The hand-off, event by event: every event without an own endpoint is handed over exactly
      once, in order, under its pod's names and with its own clock reading; no other is. */
  lemma {:induction false} HandOffIsExact(index: IpIndex, port: u16, localIps: set<u32>, events: seq<NetworkFlowEvent>,
                                          clock: nat -> nat) returns (picked: seq<nat>)
    ensures Others(port, localIps, events, picked)
    ensures var ops := HandOff(index, port, localIps, events, clock);
            |ops| == |picked| && forall j | 0 <= j < |ops| :: HandsOver(index, events, clock, picked[j], ops[j])
  {
    picked := [];
    if events != [] {
      var n := |events| - 1;
      var before := HandOffIsExact(index, port, localIps, events[..n], clock);
      picked := if HasOwnEndpoint(events[n], port, localIps) then before else before + [n];
      PickedGrow(port, localIps, events, before, picked);
      HandOffNext(index, port, localIps, events, clock);
      HandedAlike(index, events, clock, before, HandOff(index, port, localIps, events[..n], clock));
    }
  }

  lemma HandOffNext(index: IpIndex, port: u16, localIps: set<u32>, events: seq<NetworkFlowEvent>, clock: nat -> nat)
    requires events != []
    ensures var n := |events| - 1;
            var before := HandOff(index, port, localIps, events[..n], clock);
            if HasOwnEndpoint(events[n], port, localIps) then HandOff(index, port, localIps, events, clock) == before
            else exists op :: HandsOver(index, events, clock, n, op)
                              && HandOff(index, port, localIps, events, clock) == before + [op]
  {
    var n := |events| - 1;
    var before := HandOff(index, port, localIps, events[..n], clock);
    if HasOwnEndpoint(events[n], port, localIps) {
      assert before + [] == before;
    } else {
      var op := Event(events[n], Attribute(index, events[n]).0, Attribute(index, events[n]).1, clock(n));
      assert HandsOver(index, events, clock, n, op);
      assert Handed(index, port, localIps, events[n], clock(n)) == [op];
    }
  }

  lemma HandedAlike(index: IpIndex, events: seq<NetworkFlowEvent>, clock: nat -> nat, picked: seq<nat>, ops: seq<Op>)
    requires events != [] && |ops| == |picked|
    requires forall j | 0 <= j < |ops| :: HandsOver(index, events[..|events| - 1], clock, picked[j], ops[j])
    ensures forall j | 0 <= j < |ops| :: HandsOver(index, events, clock, picked[j], ops[j])
  {
  }

  lemma PickedGrow(port: u16, localIps: set<u32>, events: seq<NetworkFlowEvent>, before: seq<nat>, picked: seq<nat>)
    requires events != [] && Others(port, localIps, events[..|events| - 1], before)
    requires picked == if HasOwnEndpoint(events[|events| - 1], port, localIps) then before else before + [|events| - 1]
    ensures Others(port, localIps, events, picked)
  {
    var n := |events| - 1;
    forall i: nat | i < |events| ensures i in picked <==> !HasOwnEndpoint(events[i], port, localIps) {
      if i < n {
        assert events[..n][i] == events[i];
        assert i in picked <==> i in before;
      } else if !HasOwnEndpoint(events[n], port, localIps) {
        assert picked[|before|] == n;
      }
    }
    forall j, k | 0 <= j < k < |picked| ensures picked[j] < picked[k] {
      assert k == |before| ==> picked[j] in before;
    }
  }

  lemma StepIsAt(cfg: Config, ops: seq<Op>, states: seq<Table>, i: nat, t: Table, op: Op, t': Table)
    requires |states| == |ops| + 1 && i < |ops|
    requires states[i] == t && ops[i] == op && states[i + 1] == t' && Step(cfg, t, op, t')
    ensures StepAt(cfg, ops, states, i)
  {
  }

  lemma ChainMore(cfg: Config, ops: seq<Op>, states: seq<Table>, op: Op, t: Table)
    requires Chain(cfg, ops, states) && Step(cfg, states[|ops|], op, t)
    ensures Chain(cfg, ops + [op], states + [t])
  {
    var ops', states' := ops + [op], states + [t];
    StepIsAt(cfg, ops', states', |ops|, states[|ops|], op, t);
    forall i: nat | i < |ops| ensures StepAt(cfg, ops', states', i) {
      assert StepAt(cfg, ops, states, i);
      StepIsAt(cfg, ops', states', i, states[i], ops[i], states[i + 1]);
    }
  }

  /** Any batch of events can be processed. */
  lemma {:induction false} ChainExists(cfg: Config, t: Table, ops: seq<Op>) returns (trace: seq<Table>)
    requires forall op | op in ops :: op.Event?
    ensures Chain(cfg, ops, trace) && trace[0] == t
  {
    if ops == [] {
      trace := [t];
    } else {
      var n := |ops| - 1;
      trace := ChainExists(cfg, t, ops[..n]);
      var next := EventStepExists(cfg, trace[n], ops[n]);
      ChainMore(cfg, ops[..n], trace, ops[n], next);
      trace := trace + [next];
      assert ops == ops[..n] + [ops[n]];
    }
  }

  class EventLoop {
    const kernel: Maps
    const cache: PodCache
    const aggregator: FlowAggregator
    const grpcPort: u16
    const localIps: set<u32>
    const maxBatch: nat
    const readsDrops: bool
    var eventsDropped: nat

    /** `readsDrops` says whether the kernel's drop counter could be opened. */
    constructor (kernel: Maps, cache: PodCache, aggregator: FlowAggregator, grpcPort: u16, localIps: set<u32>,
                 maxBatch: nat, readsDrops: bool)
      ensures this.kernel == kernel && this.cache == cache && this.aggregator == aggregator
      ensures this.grpcPort == grpcPort && this.localIps == localIps && this.maxBatch == maxBatch
      ensures this.readsDrops == readsDrops && eventsDropped == 0
    {
      this.kernel, this.cache, this.aggregator := kernel, cache, aggregator;
      this.grpcPort, this.localIps, this.maxBatch := grpcPort, localIps, maxBatch;
      this.readsDrops, eventsDropped := readsDrops, 0;
    }

    method PollEvents() returns (events: seq<NetworkFlowEvent>, ghost taken: nat, ghost cut: nat)
      modifies kernel`events
      ensures Polled(old(kernel.events), maxBatch, taken, cut)
      ensures events == Events(old(kernel.events)[..taken])
      ensures kernel.events == old(kernel.events)[taken + cut..]
    {
      ghost var ring := kernel.events;
      events, taken, cut := [], 0, 0;
      while kernel.events != []
        invariant taken <= |ring| && kernel.events == ring[taken..]
        invariant events == Events(ring[..taken]) && |events| <= maxBatch
        invariant taken > 0 ==> |Events(ring[..taken - 1])| < maxBatch
        decreases |kernel.events|
      {
        var item := kernel.events[0];
        kernel.events := kernel.events[1..];
        if |events| >= maxBatch {
          cut := 1;
          break;
        }
        assert ring[..taken + 1][..taken] == ring[..taken];
        if |item| == RECORD_SIZE {
          events := events + [ReadRecord(item)];
        }
        taken := taken + 1;
      }
    }

    /** One tick of the loop. `clock(i)` is the time at which event `i` reaches the table;
        `trace` are the states the table goes through. */
    method PollOnce(clock: nat -> nat) returns (ghost taken: nat, ghost cut: nat, ghost trace: seq<Table>)
      modifies this`eventsDropped, kernel`events, aggregator`flows, aggregator`eventsProcessed
      modifies aggregator.health`flowTableAtCapacity, aggregator.health`flowEvictions
      ensures Polled(old(kernel.events), maxBatch, taken, cut)
      ensures kernel.events == old(kernel.events)[taken + cut..]
      ensures eventsDropped == if readsDrops then kernel.eventsDropped else old(eventsDropped)
      ensures var ops := HandOff(old(cache.byIp), grpcPort, localIps, Events(old(kernel.events)[..taken]), clock);
              && Chain(aggregator.cfg, ops, trace)
              && trace[0] == old(aggregator.Contents()) && trace[|ops|] == aggregator.Contents()
    {
      if readsDrops {
        eventsDropped := kernel.eventsDropped;
      }
      var events;
      events, taken, cut := PollEvents();
      trace := HandOver(events, clock);
    }

    method HandOver(events: seq<NetworkFlowEvent>, clock: nat -> nat) returns (ghost trace: seq<Table>)
      modifies aggregator`flows, aggregator`eventsProcessed
      modifies aggregator.health`flowTableAtCapacity, aggregator.health`flowEvictions
      ensures var ops := HandOff(old(cache.byIp), grpcPort, localIps, events, clock);
              && Chain(aggregator.cfg, ops, trace)
              && trace[0] == old(aggregator.Contents()) && trace[|ops|] == aggregator.Contents()
    {
      ghost var ops: seq<Op> := [];
      trace := [aggregator.Contents()];
      for i := 0 to |events|
        invariant ops == HandOff(old(cache.byIp), grpcPort, localIps, events[..i], clock)
        invariant Chain(aggregator.cfg, ops, trace)
        invariant trace[0] == old(aggregator.Contents()) && trace[|ops|] == aggregator.Contents()
      {
        assert events[..i + 1][..i] == events[..i];
        var event := events[i];
        if IsSelfTraffic(event, grpcPort, localIps) {
          continue;
        }
        var srcPod, dstPod := cache.GetByIp(event.srcIp), cache.GetByIp(event.dstIp);
        var name: (string, string);
        if event.direction == INGRESS {
          name := if dstPod.Some? then (dstPod.value.namespace, dstPod.value.podName)
                  else if srcPod.Some? then (srcPod.value.namespace, srcPod.value.podName)
                  else ("external", "unknown");
        } else {
          name := if srcPod.Some? then (srcPod.value.namespace, srcPod.value.podName)
                  else if dstPod.Some? then (dstPod.value.namespace, dstPod.value.podName)
                  else ("external", "unknown");
        }
        ProcessOne(event, name.0, name.1, clock(i));
        ghost var op := Event(event, name.0, name.1, clock(i));
        ChainMore(aggregator.cfg, ops, trace, op, aggregator.Contents());
        ops, trace := ops + [op], trace + [aggregator.Contents()];
      }
      assert events[..|events|] == events;
    }

    method ProcessOne(event: NetworkFlowEvent, namespace: string, podName: string, now: nat)
      modifies aggregator`flows, aggregator`eventsProcessed
      modifies aggregator.health`flowTableAtCapacity, aggregator.health`flowEvictions
      ensures Step(aggregator.cfg, old(aggregator.Contents()), Event(event, namespace, podName, now), aggregator.Contents())
    {
      aggregator.ProcessEvent(event, namespace, podName, now);
    }
  }
}
