/** Replay when event loop and sweeper interleave: every event received is written once, in
    order, and every live record is the summary of what was written to it since its key was
    last removed, whichever thread removed it. */
module ReplayInterleaving {
  import opened Common
  import opened FlowTable
  import opened FlowRuns
  import opened Interleaving

  function OwnWrite(k: FlowKey, c: Change): seq<EventOp> {
    match c
    case Wrote(op) => if KeyOf(op) == k then [op] else []
    case Removed(_) => []
  }

  /** The events written to `k` among `changes`, in order. */
  function WritesTo(k: FlowKey, changes: seq<Change>): seq<EventOp> {
    if changes == [] then [] else WritesTo(k, changes[..|changes| - 1]) + OwnWrite(k, changes[|changes| - 1])
  }

  /** How much of `log` there was when `k` was last removed, or nothing of it. */
  function LastRemoval(log: seq<Change>, k: FlowKey): (j: nat)
    ensures j <= |log|
    ensures j == 0 || log[j - 1] == Removed(k)
    ensures forall i | j <= i < |log| :: log[i] != Removed(k)
  {
    if log == [] then 0
    else if log[|log| - 1] == Removed(k) then |log|
    else LastRemoval(log[..|log| - 1], k)
  }

  /** The events a live record stands for: those written since its key was last removed. */
  function LiveWrites(log: seq<Change>, k: FlowKey): seq<EventOp> {
    WritesTo(k, log[LastRemoval(log, k)..])
  }

  function Record(flows: Flows, k: FlowKey): Option<FlowStats> {
    if k in flows then Some(flows[k]) else None
  }

  lemma LiveWritesNext(log: seq<Change>, k: FlowKey, c: Change)
    ensures LiveWrites(log + [c], k) == if c == Removed(k) then [] else LiveWrites(log, k) + OwnWrite(k, c)
  {
    var j := LastRemoval(log, k);
    assert (log + [c])[..|log|] == log;
    if c != Removed(k) {
      assert (log + [c])[j..] == log[j..] + [c];
      assert (log[j..] + [c])[..|log[j..]|] == log[j..];
    }
  }

  /** The record of `k` is the summary of its live writes; without live writes it has none. */
  ghost predicate Replays(flows: Flows, log: seq<Change>, k: FlowKey) {
    Record(flows, k) == Summary(LiveWrites(log, k))
  }

  /** One change of the table. */
  function Changed(flows: Flows, c: Change): Flows {
    match c
    case Wrote(op) => Upsert(flows, KeyOf(op), op.event, op.now)
    case Removed(k) => flows - {k}
  }

  function ChangedKey(c: Change): FlowKey {
    match c
    case Wrote(op) => KeyOf(op)
    case Removed(k) => k
  }

  lemma OtherKeyReplays(flows: Flows, log: seq<Change>, c: Change, k: FlowKey)
    requires Replays(flows, log, k) && ChangedKey(c) != k
    ensures Replays(Changed(flows, c), log + [c], k)
  {
    LiveWritesNext(log, k, c);
    assert LiveWrites(log, k) + [] == LiveWrites(log, k);
  }

  lemma WriteReplays(flows: Flows, log: seq<Change>, op: EventOp, k: FlowKey)
    requires Replays(flows, log, k) && KeyOf(op) == k
    ensures Replays(Changed(flows, Wrote(op)), log + [Wrote(op)], k)
  {
    var events := LiveWrites(log, k);
    LiveWritesNext(log, k, Wrote(op));
    SummaryGrows(events, k, op);
    assert Summary(events + [op]) == Some(Recorded(Record(flows, k), op));
  }

  lemma ChangeReplays(flows: Flows, log: seq<Change>, c: Change, k: FlowKey)
    requires Replays(flows, log, k)
    ensures Replays(Changed(flows, c), log + [c], k)
  {
    if ChangedKey(c) != k {
      OtherKeyReplays(flows, log, c, k);
    } else if c.Wrote? {
      WriteReplays(flows, log, c.op, k);
    } else {
      LiveWritesNext(log, k, c);
    }
  }

  /** What a step changes in the table is what it logs. */
  ghost predicate Logs(s: State, s': State, changes: seq<Change>) {
    && s'.log == s.log + changes
    && match |changes|
       case 0 => s'.flows == s.flows
       case 1 => s'.flows == Changed(s.flows, changes[0])
       case _ => false
  }

  /** The change a step makes, if any. */
  function ChangeOf(cfg: Config, s: State, a: Action): seq<Change> {
    match (s.processor, a)
    case (Looking(op), Lookup) => if op.Event? && KeyOf(op) in s.flows then [Wrote(op)] else []
    case (Inserting(op), Insert) => if op.Event? then [Wrote(op)] else []
    case (Evicting(_, queue, _), RemoveNext) => if queue != [] && queue[0] in s.flows then [Removed(queue[0])] else []
    case (_, Visit(k)) =>
      if s.sweeper.Retaining? && k in s.flows && s.flows[k].lastSeen <= s.sweeper.now - cfg.flowTimeout then [Removed(k)]
      else []
    case _ => []
  }

  /** The actions that can change the table. */
  predicate MayChange(a: Action) { a.Lookup? || a.Insert? || a.RemoveNext? || a.Visit? }

  lemma ReadLogs(cfg: Config, s: State, a: Action)
    requires ProcessorStep(cfg, s, a).Some? && !MayChange(a)
    ensures var s' := ProcessorStep(cfg, s, a).value; s'.flows == s.flows && s'.log == s.log
  {
  }

  lemma WriteLogs(cfg: Config, s: State, a: Action)
    requires ProcessorStep(cfg, s, a).Some? && (a.Lookup? || a.Insert?)
    ensures Logs(s, ProcessorStep(cfg, s, a).value, ChangeOf(cfg, s, a))
  {
  }

  lemma EvictionLogs(cfg: Config, s: State, a: Action)
    requires ProcessorStep(cfg, s, a).Some? && a.RemoveNext?
    ensures Logs(s, ProcessorStep(cfg, s, a).value, ChangeOf(cfg, s, a))
  {
  }

  lemma ProcessorLogs(cfg: Config, s: State, a: Action)
    requires ProcessorStep(cfg, s, a).Some?
    ensures Logs(s, ProcessorStep(cfg, s, a).value, ChangeOf(cfg, s, a))
  {
    if a.Lookup? || a.Insert? {
      WriteLogs(cfg, s, a);
    } else if a.RemoveNext? {
      EvictionLogs(cfg, s, a);
    } else {
      ReadLogs(cfg, s, a);
    }
  }

  lemma VisitLogs(cfg: Config, s: State, a: Action)
    requires SweeperStep(cfg, s, a).Some? && a.Visit?
    ensures Logs(s, SweeperStep(cfg, s, a).value, ChangeOf(cfg, s, a))
    ensures SweeperStep(cfg, s, a).value.processor == s.processor
  {
  }

  lemma LengthReadLogs(cfg: Config, s: State, a: Action)
    requires SweeperStep(cfg, s, a).Some? && !a.Visit?
    ensures var s' := SweeperStep(cfg, s, a).value; s'.flows == s.flows && s'.log == s.log && s'.processor == s.processor
  {
  }

  lemma SweeperLogs(cfg: Config, s: State, a: Action)
    requires SweeperStep(cfg, s, a).Some?
    ensures Logs(s, SweeperStep(cfg, s, a).value, ChangeOf(cfg, s, a))
    ensures SweeperStep(cfg, s, a).value.processor == s.processor
  {
    if a.Visit? {
      VisitLogs(cfg, s, a);
    } else {
      LengthReadLogs(cfg, s, a);
    }
  }

  lemma NextLogs(cfg: Config, s: State, a: Action)
    requires Next(cfg, s, a).Some?
    ensures Logs(s, Next(cfg, s, a).value, ChangeOf(cfg, s, a))
  {
    if ProcessorStep(cfg, s, a).Some? {
      ProcessorLogs(cfg, s, a);
    } else {
      SweeperLogs(cfg, s, a);
    }
  }

  lemma LoggedReplays(s: State, s': State, changes: seq<Change>, k: FlowKey)
    requires Logs(s, s', changes) && Replays(s.flows, s.log, k)
    ensures Replays(s'.flows, s'.log, k)
  {
    if changes == [] {
      assert s.log + changes == s.log;
    } else {
      assert changes == [changes[0]];
      ChangeReplays(s.flows, s.log, changes[0], k);
    }
  }

  /** In every interleaving, after every step, each flow's bytes, packets, first and last times
      are those of exactly the events written to it since it was last evicted or expired, and
      a flow without such events is not in the table. */
  lemma {:induction false} ReplayUnderInterleaving(cfg: Config, actions: seq<Action>, k: FlowKey)
    requires Exec(cfg, actions).Some?
    ensures Replays(Exec(cfg, actions).value.flows, Exec(cfg, actions).value.log, k)
  {
    if actions != [] {
      var prefix := actions[..|actions| - 1];
      var s, a := Exec(cfg, prefix).value, actions[|actions| - 1];
      ReplayUnderInterleaving(cfg, prefix, k);
      NextLogs(cfg, s, a);
      LoggedReplays(s, Next(cfg, s, a).value, ChangeOf(cfg, s, a), k);
    }
  }

  // ---------- Every event is written once, in order ----------

  function ReceivedBy(a: Action): seq<Op> { if a.Receive? then [a.op] else [] }

  function ReceivedOps(actions: seq<Action>): seq<Op> {
    if actions == [] then [] else ReceivedOps(actions[..|actions| - 1]) + ReceivedBy(actions[|actions| - 1])
  }

  function WrittenBy(c: Change): seq<Op> { if c.Wrote? then [c.op] else [] }

  function WrittenOps(log: seq<Change>): seq<Op> {
    if log == [] then [] else WrittenOps(log[..|log| - 1]) + WrittenBy(log[|log| - 1])
  }

  /** The event the loop has received and not yet written. */
  function InHand(p: Processor): seq<Op> {
    match p
    case Looking(op) => [op]
    case Sizing(op) => [op]
    case Scanning(op, _) => [op]
    case Evicting(op, _, _) => [op]
    case Inserting(op) => [op]
    case _ => []
  }

  lemma WrittenOpsNext(log: seq<Change>, c: Change)
    ensures WrittenOps(log + [c]) == WrittenOps(log) + WrittenBy(c)
  {
    assert (log + [c])[..|log|] == log;
  }

  function WrittenIn(changes: seq<Change>): seq<Op> { if changes == [] then [] else WrittenBy(changes[0]) }

  lemma ReadDelivers(cfg: Config, s: State, a: Action)
    requires ProcessorStep(cfg, s, a).Some? && !MayChange(a)
    ensures InHand(ProcessorStep(cfg, s, a).value.processor) == InHand(s.processor) + ReceivedBy(a)
    ensures ChangeOf(cfg, s, a) == []
  {
  }

  lemma ProcessorDelivers(cfg: Config, s: State, a: Action)
    requires ProcessorInv(cfg, s) && ProcessorStep(cfg, s, a).Some?
    ensures WrittenIn(ChangeOf(cfg, s, a)) + InHand(ProcessorStep(cfg, s, a).value.processor)
            == InHand(s.processor) + ReceivedBy(a)
  {
    if !MayChange(a) {
      ReadDelivers(cfg, s, a);
    }
  }

  lemma SweeperDelivers(cfg: Config, s: State, a: Action)
    requires SweeperStep(cfg, s, a).Some?
    ensures WrittenIn(ChangeOf(cfg, s, a)) == [] == ReceivedBy(a)
  {
  }

  lemma NextDelivers(cfg: Config, s: State, a: Action)
    requires Inv(cfg, s) && Next(cfg, s, a).Some?
    ensures WrittenIn(ChangeOf(cfg, s, a)) + InHand(Next(cfg, s, a).value.processor) == InHand(s.processor) + ReceivedBy(a)
  {
    if ProcessorStep(cfg, s, a).Some? {
      ProcessorDelivers(cfg, s, a);
    } else {
      SweeperDelivers(cfg, s, a);
      SweeperLogs(cfg, s, a);
    }
  }

  lemma OneMoreInOrder(s: State, s': State, changes: seq<Change>, received: seq<Op>)
    requires Logs(s, s', changes)
    requires WrittenIn(changes) + InHand(s'.processor) == InHand(s.processor) + received
    ensures WrittenOps(s'.log) + InHand(s'.processor) == WrittenOps(s.log) + InHand(s.processor) + received
  {
    if changes == [] {
      assert s.log + changes == s.log;
    } else {
      assert changes == [changes[0]];
      WrittenOpsNext(s.log, changes[0]);
    }
    ConcatAssociates(WrittenOps(s.log), WrittenIn(changes), InHand(s'.processor));
    ConcatAssociates(WrittenOps(s.log), InHand(s.processor), received);
  }

  /** In every interleaving what was written is what was received, in order and without loss
      or repetition, up to the one event in hand. */
  lemma {:induction false} WritesFollowReceipts(cfg: Config, actions: seq<Action>)
    requires Exec(cfg, actions).Some?
    ensures var s := Exec(cfg, actions).value; WrittenOps(s.log) + InHand(s.processor) == ReceivedOps(actions)
  {
    if actions != [] {
      var prefix := actions[..|actions| - 1];
      var s, a := Exec(cfg, prefix).value, actions[|actions| - 1];
      InvAlways(cfg, prefix);
      WritesFollowReceipts(cfg, prefix);
      NextLogs(cfg, s, a);
      NextDelivers(cfg, s, a);
      OneMoreInOrder(s, Next(cfg, s, a).value, ChangeOf(cfg, s, a), ReceivedBy(a));
    }
  }
}
