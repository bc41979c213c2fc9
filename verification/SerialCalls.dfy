/** The step-by-step model against the atomic one: a call that no step of the other thread
    interrupts does exactly what FlowTable says in one step. */
module SerialCalls {
  import opened Common
  import opened FlowAggregators
  import opened FlowTable
  import opened Interleaving
  import opened MapSums
  import opened Sorting

  function TableOf(s: State): Table { Table(s.flows, s.eventsProcessed, s.atCapacity, s.evictions) }

  // ---------- The event loop ----------

  ghost function ExecProcessor(cfg: Config, s: State, actions: seq<Action>): Option<State> {
    if actions == [] then Some(s) else
      match ExecProcessor(cfg, s, actions[..|actions| - 1])
      case None => None
      case Some(mid) => ProcessorStep(cfg, mid, actions[|actions| - 1])
  }

  function SetOf(keys: seq<FlowKey>): set<FlowKey> { set k | k in keys }

  /** Which flows are gone once the record is about to be written. */
  ghost predicate MadeRoom(cfg: Config, t: Table, op: Op, gone: set<FlowKey>)
    requires op.Event?
  {
    if KeyOf(op) !in t.flows && |t.flows| >= cfg.maxFlows then EvictedBatch(cfg, t.flows, gone) else gone == {}
  }

  ghost predicate Made(cfg: Config, t: Table, op: Op, s: State, gone: set<FlowKey>)
    requires op.Event?
  {
    MadeRoom(cfg, t, op, gone) && s.flows == t.flows - gone && s.evictions == t.evictions + |gone|
  }

  ghost predicate Wrote(cfg: Config, t: Table, op: Op, s: State, gone: set<FlowKey>)
    requires op.Event?
  {
    && MadeRoom(cfg, t, op, gone)
    && s.flows == Upsert(t.flows - gone, KeyOf(op), op.event, op.now)
    && s.evictions == t.evictions + |gone|
  }

  /** Part of the batch `gone` is removed, the rest is queued. */
  ghost predicate Halfway(cfg: Config, t: Table, s: State, gone: set<FlowKey>, queue: seq<FlowKey>, evicted: nat) {
    && EvictedBatch(cfg, t.flows, gone)
    && Distinct(queue) && SetOf(queue) <= gone
    && s.flows == t.flows - (gone - SetOf(queue))
    && evicted + |queue| == |gone|
    && s.evictions == t.evictions
  }

  /** Inside an uninterrupted call for `op` that began at table `t`. `gone` is the batch the
      call evicts. */
  ghost predicate During(cfg: Config, t: Table, op: Op, s: State, gone: set<FlowKey>) {
    && op.Event?
    && s.eventsProcessed == t.eventsProcessed + 1 && s.atCapacity == t.atCapacity
    && match s.processor
       case Waiting => false
       case Looking(o) => o == op && s.flows == t.flows && s.evictions == t.evictions
       case Sizing(o) => o == op && s.flows == t.flows && s.evictions == t.evictions && KeyOf(op) !in t.flows
       case Scanning(o, seen) =>
         && o == op && s.flows == t.flows && s.evictions == t.evictions
         && KeyOf(op) !in t.flows && |t.flows| >= cfg.maxFlows
         && seen.Keys <= t.flows.Keys && forall k | k in seen :: seen[k] == t.flows[k].lastSeen
       case Evicting(o, queue, evicted) =>
         && o == op && KeyOf(op) !in t.flows && |t.flows| >= cfg.maxFlows
         && Halfway(cfg, t, s, gone, queue, evicted)
       case Inserting(o) => o == op && Made(cfg, t, op, s, gone)
       case ReadingLength => Wrote(cfg, t, op, s, gone)
       case Flagging(len, _) => Wrote(cfg, t, op, s, gone) && len == |s.flows|
  }

  lemma {:induction false} SetOfSize(keys: seq<FlowKey>)
    requires Distinct(keys)
    ensures |SetOf(keys)| == |keys|
  {
    if keys != [] {
      SetOfSize(keys[1..]);
      assert keys == [keys[0]] + keys[1..];
      assert SetOf(keys) == SetOf(keys[1..]) + {keys[0]};
    }
  }

  /** A finished scan decides on a batch that satisfies the atomic specification. */
  lemma ScanDecidesBatch(cfg: Config, flows: Flows, seen: map<FlowKey, nat>, queue: seq<FlowKey>)
    requires seen.Keys == flows.Keys && forall k | k in seen :: seen[k] == flows[k].lastSeen
    requires OldestScanned(cfg, seen, queue)
    ensures EvictedBatch(cfg, flows, SetOf(queue))
    ensures |SetOf(queue)| == |queue|
  {
    SetOfSize(queue);
    assert |seen| == |seen.Keys| == |flows.Keys| == |flows|;
  }

  /** A listing of what the scan saw, in the order the map gave it. */
  ghost predicate ListsSeen(seen: map<FlowKey, nat>, candidates: seq<Candidate>) {
    && Distinct(candidates)
    && (forall c | c in candidates :: c.key in seen && c.lastSeen == seen[c.key])
    && (forall k | k in seen :: Candidate(k, seen[k]) in candidates)
  }

  function KeySeq(s: seq<Candidate>): seq<FlowKey> { seq(|s|, i requires 0 <= i < |s| => s[i].key) }

  lemma KeySeqHead(flows: Flows, s: seq<Candidate>, n: nat)
    requires Snapshot(flows, s) && n <= |s|
    ensures Distinct(KeySeq(s[..n])) && SetOf(KeySeq(s[..n])) == KeysOf(s[..n])
  {
    var queue := KeySeq(s[..n]);
    forall i, j | 0 <= i < j < n ensures queue[i] != queue[j] {
      assert s[i] != s[j] && s[i] in s && s[j] in s;
    }
    forall k ensures k in queue <==> k in KeysOf(s[..n]) {
      KeysOfMembers(s[..n], k);
      if i :| 0 <= i < n && s[..n][i].key == k {
        assert queue[i] == k;
      }
    }
  }

  /** Sorting what the scan saw by its times and taking the head of it decides on a batch the
      step-by-step model allows, whatever order the map was scanned in and whatever the table
      holds by then. */
  lemma SortingDecidesQueue(cfg: Config, seen: map<FlowKey, nat>, candidates: seq<Candidate>)
    requires ListsSeen(seen, candidates)
    ensures var sorted := SortBy(candidates, LastSeenOf);
            OldestScanned(cfg, seen, KeySeq(sorted[..Min(cfg.EvictCount(), |sorted|)]))
  {
    var flows: Flows := map k | k in seen :: FlowStats(0, 0, 0, seen[k], 0, 0);
    var sorted := SortBy(candidates, LastSeenOf);
    SortedSnapshot(flows, candidates);
    HeadIsOldest(cfg, flows, sorted);
    KeySeqHead(flows, sorted, Min(cfg.EvictCount(), |sorted|));
    assert flows.Keys == seen.Keys;
    assert |flows| == |flows.Keys| == |seen.Keys| == |seen|;
    forall q | q in KeySeq(sorted[..Min(cfg.EvictCount(), |sorted|)])
      ensures q in KeysOf(sorted[..Min(cfg.EvictCount(), |sorted|)])
    {
      assert q in SetOf(KeySeq(sorted[..Min(cfg.EvictCount(), |sorted|)]));
    }
    forall k | k in seen && k !in KeySeq(sorted[..Min(cfg.EvictCount(), |sorted|)])
      ensures k !in KeysOf(sorted[..Min(cfg.EvictCount(), |sorted|)])
    {
      assert k !in SetOf(KeySeq(sorted[..Min(cfg.EvictCount(), |sorted|)]));
    }
  }

  lemma OneMoreGone(flows: Flows, gone: set<FlowKey>, rest: set<FlowKey>, k: FlowKey)
    requires k in gone && k !in rest
    ensures flows - (gone - (rest + {k})) - {k} == flows - (gone - rest)
  {
    assert gone - (rest + {k}) + {k} == gone - rest;
  }

  lemma QueueHead(cfg: Config, t: Table, s: State, gone: set<FlowKey>, queue: seq<FlowKey>, evicted: nat)
    requires queue != [] && Halfway(cfg, t, s, gone, queue, evicted)
    ensures queue[0] in s.flows
    ensures Halfway(cfg, t, Without(s, queue[0]), gone, queue[1..], evicted + 1)
  {
    assert queue == [queue[0]] + queue[1..];
    assert SetOf(queue) == SetOf(queue[1..]) + {queue[0]};
    assert queue[0] !in SetOf(queue[1..]);
    OneMoreGone(t.flows, gone, SetOf(queue[1..]), queue[0]);
  }

  lemma QueueEmpty(cfg: Config, t: Table, s: State, gone: set<FlowKey>, evicted: nat)
    requires Halfway(cfg, t, s, gone, [], evicted)
    ensures s.flows == t.flows - gone && evicted == |gone|
  {
    assert gone - SetOf([]) == gone;
  }

  /** One step of an uninterrupted call; `next` is the batch once it is known. */
  lemma EarlyStep(cfg: Config, t: Table, op: Op, s: State, gone: set<FlowKey>, a: Action)
    requires During(cfg, t, op, s, gone) && ProcessorStep(cfg, s, a).Some?
    requires s.processor.Looking? || s.processor.Sizing?
    ensures During(cfg, t, op, ProcessorStep(cfg, s, a).value, {})
  {
    assert t.flows - {} == t.flows;
  }

  lemma ScanStep(cfg: Config, t: Table, op: Op, s: State, gone: set<FlowKey>, a: Action) returns (next: set<FlowKey>)
    requires During(cfg, t, op, s, gone) && ProcessorStep(cfg, s, a).Some?
    requires s.processor.Scanning?
    ensures During(cfg, t, op, ProcessorStep(cfg, s, a).value, next)
  {
    next := gone;
    if a.EndScan? {
      next := SetOf(a.queue);
      ScanDecidesBatch(cfg, t.flows, s.processor.seen, a.queue);
      assert t.flows - (next - SetOf(a.queue)) == t.flows;
    }
  }

  lemma EvictStep(cfg: Config, t: Table, op: Op, s: State, gone: set<FlowKey>, a: Action)
    requires During(cfg, t, op, s, gone) && ProcessorStep(cfg, s, a).Some?
    requires s.processor.Evicting?
    ensures During(cfg, t, op, ProcessorStep(cfg, s, a).value, gone)
  {
    if s.processor.queue != [] {
      QueueHead(cfg, t, s, gone, s.processor.queue, s.processor.evicted);
    } else {
      QueueEmpty(cfg, t, s, gone, s.processor.evicted);
    }
  }

  lemma LateStep(cfg: Config, t: Table, op: Op, s: State, gone: set<FlowKey>, a: Action)
    requires During(cfg, t, op, s, gone) && ProcessorStep(cfg, s, a).Some?
    requires s.processor.Inserting? || s.processor.ReadingLength?
    ensures During(cfg, t, op, ProcessorStep(cfg, s, a).value, gone)
  {
  }

  lemma FinishIsStep(cfg: Config, t: Table, op: Op, s: State, gone: set<FlowKey>)
    requires During(cfg, t, op, s, gone) && s.processor.Flagging?
    ensures EventStep(cfg, t, op, TableOf(ProcessorStep(cfg, s, SetFlag).value))
  {
    var t' := TableOf(ProcessorStep(cfg, s, SetFlag).value);
    assert t' == Table(Upsert(t.flows - gone, KeyOf(op), op.event, op.now), t.eventsProcessed + 1,
                       t.atCapacity || |t'.flows| >= cfg.HighMark(), t.evictions + |gone|);
    EventStepEvicting(cfg, t, op, t', gone);
  }

  /** Where an uninterrupted call is after some of its steps. */
  ghost predicate OnTheWay(cfg: Config, t: Table, op: Op, s: State, gone: set<FlowKey>) {
    if s.processor == Waiting then op.Event? && EventStep(cfg, t, op, TableOf(s)) else During(cfg, t, op, s, gone)
  }

  lemma CallStep(cfg: Config, t: Table, op: Op, s: State, gone: set<FlowKey>, a: Action) returns (next: set<FlowKey>)
    requires OnTheWay(cfg, t, op, s, gone) && ProcessorStep(cfg, s, a).Some? && !a.Receive?
    ensures OnTheWay(cfg, t, op, ProcessorStep(cfg, s, a).value, next)
  {
    next := gone;
    if s.processor.Looking? || s.processor.Sizing? {
      next := {};
      EarlyStep(cfg, t, op, s, gone, a);
    } else if s.processor.Scanning? {
      next := ScanStep(cfg, t, op, s, gone, a);
    } else if s.processor.Evicting? {
      EvictStep(cfg, t, op, s, gone, a);
    } else if s.processor.Flagging? {
      FinishIsStep(cfg, t, op, s, gone);
    } else {
      LateStep(cfg, t, op, s, gone, a);
    }
  }

  lemma CallBegins(cfg: Config, s: State, op: Op)
    requires s.processor == Waiting && op.Event?
    ensures ProcessorStep(cfg, s, Receive(op)).Some?
    ensures OnTheWay(cfg, TableOf(s), op, ProcessorStep(cfg, s, Receive(op)).value, {})
  {
  }

  lemma {:induction false} CallProgress(cfg: Config, s: State, op: Op, actions: seq<Action>) returns (gone: set<FlowKey>)
    requires s.processor == Waiting && op.Event?
    requires forall a | a in actions :: !a.Receive?
    requires ExecProcessor(cfg, s, [Receive(op)] + actions).Some?
    ensures OnTheWay(cfg, TableOf(s), op, ExecProcessor(cfg, s, [Receive(op)] + actions).value, gone)
    decreases |actions|
  {
    var all := [Receive(op)] + actions;
    if actions == [] {
      gone := {};
      assert all[..0] == [];
      CallBegins(cfg, s, op);
    } else {
      var n := |actions| - 1;
      assert all[..|all| - 1] == [Receive(op)] + actions[..n];
      assert actions[n] in actions;
      gone := CallProgress(cfg, s, op, actions[..n]);
      var mid := ExecProcessor(cfg, s, [Receive(op)] + actions[..n]).value;
      gone := CallStep(cfg, TableOf(s), op, mid, gone, actions[n]);
    }
  }

  /** An uninterrupted `process_event` is one event step of the flow table. */
  lemma UninterruptedCallIsOneStep(cfg: Config, s: State, op: Op, actions: seq<Action>)
    requires s.processor == Waiting && op.Event?
    requires forall a | a in actions :: !a.Receive?
    requires var r := ExecProcessor(cfg, s, [Receive(op)] + actions); r.Some? && r.value.processor == Waiting
    ensures EventStep(cfg, TableOf(s), op, TableOf(ExecProcessor(cfg, s, [Receive(op)] + actions).value))
  {
    var gone := CallProgress(cfg, s, op, actions);
  }

  // ---------- The sweeper ----------

  ghost function ExecSweeper(cfg: Config, s: State, actions: seq<Action>): Option<State> {
    if actions == [] then Some(s) else
      match ExecSweeper(cfg, s, actions[..|actions| - 1])
      case None => None
      case Some(mid) => SweeperStep(cfg, mid, actions[|actions| - 1])
  }

  /** Inside an uninterrupted sweep that took its clock reading `now` at table `t`. */
  ghost predicate Sweeping(cfg: Config, t: Table, now: nat, s: State) {
    && s.eventsProcessed == t.eventsProcessed && s.atCapacity == t.atCapacity && s.evictions == t.evictions
    && now >= cfg.flowTimeout
    && match s.sweeper
       case Sleeping => false
       case Starting(n) => n == now && s.flows == t.flows
       case Retaining(n, before, _, owed, visited) =>
         && n == now && before == |t.flows| && visited <= t.flows.Keys && owed == t.flows.Keys - visited
         && s.flows == t.flows - visited * Expired(cfg, t.flows, now)
       case Counting(before, after, _, _) =>
         && s.flows == t.flows - Expired(cfg, t.flows, now)
         && before - after == |Expired(cfg, t.flows, now)|
       case Unflagging(len, _) => s.flows == t.flows - Expired(cfg, t.flows, now) && len == |s.flows|
  }

  lemma VisitStep(cfg: Config, t: Table, now: nat, s: State, k: FlowKey)
    requires Sweeping(cfg, t, now, s) && s.sweeper.Retaining? && SweeperStep(cfg, s, Visit(k)).Some?
    ensures Sweeping(cfg, t, now, SweeperStep(cfg, s, Visit(k)).value)
  {
    var visited, expired := s.sweeper.visited, Expired(cfg, t.flows, now);
    if k in expired {
      assert t.flows - visited * expired - {k} == t.flows - (visited + {k}) * expired;
    } else {
      assert visited * expired == (visited + {k}) * expired;
    }
  }

  lemma RetainEnds(cfg: Config, t: Table, now: nat, s: State)
    requires Sweeping(cfg, t, now, s) && s.sweeper.Retaining? && SweeperStep(cfg, s, EndRetain).Some?
    ensures Sweeping(cfg, t, now, SweeperStep(cfg, s, EndRetain).value)
  {
    var visited, expired := s.sweeper.visited, Expired(cfg, t.flows, now);
    assert visited * expired == expired;
    CardinalityMinus(t.flows, expired);
  }

  /** Where an uninterrupted sweep is after some of its steps. */
  ghost predicate SweepOnTheWay(cfg: Config, t: Table, now: nat, s: State) {
    if s.sweeper == Sleeping then SweepStep(cfg, t, Sweep(now), TableOf(s)) else Sweeping(cfg, t, now, s)
  }

  lemma SweepBegins(cfg: Config, t: Table, now: nat, s: State, a: Action)
    requires Sweeping(cfg, t, now, s) && s.sweeper.Starting? && SweeperStep(cfg, s, a).Some?
    ensures Sweeping(cfg, t, now, SweeperStep(cfg, s, a).value)
  {
    assert {} * Expired(cfg, t.flows, now) == {};
    assert t.flows - {} == t.flows;
  }

  lemma SweepEnds(cfg: Config, t: Table, now: nat, s: State, a: Action)
    requires Sweeping(cfg, t, now, s) && (s.sweeper.Counting? || s.sweeper.Unflagging?) && SweeperStep(cfg, s, a).Some?
    ensures SweepOnTheWay(cfg, t, now, SweeperStep(cfg, s, a).value)
  {
  }

  lemma SweepCallStep(cfg: Config, t: Table, now: nat, s: State, a: Action)
    requires SweepOnTheWay(cfg, t, now, s) && SweeperStep(cfg, s, a).Some? && !a.BeginSweep?
    ensures SweepOnTheWay(cfg, t, now, SweeperStep(cfg, s, a).value)
  {
    if s.sweeper.Starting? {
      SweepBegins(cfg, t, now, s, a);
    } else if a.Visit? {
      VisitStep(cfg, t, now, s, a.key);
    } else if s.sweeper.Retaining? {
      RetainEnds(cfg, t, now, s);
    } else {
      SweepEnds(cfg, t, now, s, a);
    }
  }

  /** An uninterrupted `expire_old_flows` is one sweep step of the flow table, and the number
      it computes is the number of flows it expired. */
  lemma {:induction false} UninterruptedSweepIsOneStep(cfg: Config, s: State, now: nat, actions: seq<Action>)
    requires s.sweeper == Sleeping && now >= cfg.flowTimeout
    requires forall a | a in actions :: !a.BeginSweep?
    requires ExecSweeper(cfg, s, [BeginSweep(now)] + actions).Some?
    ensures var s' := ExecSweeper(cfg, s, [BeginSweep(now)] + actions).value;
            && (s'.sweeper == Sleeping ==> SweepStep(cfg, TableOf(s), Sweep(now), TableOf(s')))
            && (s'.sweeper.Counting? ==> s'.sweeper.before - s'.sweeper.after == |Expired(cfg, s.flows, now)|)
            && SweepOnTheWay(cfg, TableOf(s), now, s')
    decreases |actions|
  {
    var all := [BeginSweep(now)] + actions;
    if actions == [] {
      assert all[..0] == [];
    } else {
      var n := |actions| - 1;
      assert all[..|all| - 1] == [BeginSweep(now)] + actions[..n];
      assert actions[n] in actions;
      UninterruptedSweepIsOneStep(cfg, s, now, actions[..n]);
      SweepCallStep(cfg, TableOf(s), now, ExecSweeper(cfg, s, [BeginSweep(now)] + actions[..n]).value, actions[n]);
    }
  }
}
