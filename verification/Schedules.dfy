/** Building schedules of the two threads: whole calls, whole sweeps, and runs in which they
    overlap. */
module Schedules {
  import opened Common
  import opened FlowTable
  import opened Interleaving
  import opened MapSums

  lemma ExecMore(cfg: Config, actions: seq<Action>, s: State, a: Action, s': State)
    requires Exec(cfg, actions) == Some(s) && Next(cfg, s, a) == Some(s')
    ensures Exec(cfg, actions + [a]) == Some(s')
  {
    assert (actions + [a])[..|actions|] == actions;
  }

  // ---------- The event loop, wherever the sweeper is ----------

  function Received(s: State, op: Op): State {
    s.(processor := Looking(op), eventsProcessed := s.eventsProcessed + 1)
  }

  lemma ReceiveNext(cfg: Config, s: State, op: Op)
    requires op.Event? && s.processor == Waiting
    ensures Next(cfg, s, Receive(op)) == Some(Received(s, op))
  {
  }

  lemma LookupMisses(cfg: Config, s: State, op: Op)
    requires op.Event? && s.processor == Looking(op) && KeyOf(op) !in s.flows
    ensures Next(cfg, s, Lookup) == Some(s.(processor := Sizing(op)))
  {
  }

  lemma LengthLeavesRoom(cfg: Config, s: State, op: Op)
    requires s.processor == Sizing(op) && |s.flows| < cfg.maxFlows
    ensures Next(cfg, s, CheckLength) == Some(s.(processor := Inserting(op)))
  {
  }

  /** The event loop takes an event with a new key up to the write. */
  lemma ReceiveNew(cfg: Config, actions: seq<Action>, s: State, op: Op) returns (more: seq<Action>)
    requires op.Event? && KeyOf(op) !in s.flows && |s.flows| < cfg.maxFlows
    requires Exec(cfg, actions) == Some(s) && s.processor == Waiting
    ensures Exec(cfg, more) == Some(Received(s, op).(processor := Inserting(op)))
  {
    var s1 := Received(s, op);
    ReceiveNext(cfg, s, op);
    ExecMore(cfg, actions, s, Receive(op), s1);
    LookupMisses(cfg, s1, op);
    ExecMore(cfg, actions + [Receive(op)], s1, Lookup, s1.(processor := Sizing(op)));
    LengthLeavesRoom(cfg, s1.(processor := Sizing(op)), op);
    more := actions + [Receive(op)] + [Lookup];
    ExecMore(cfg, more, s1.(processor := Sizing(op)), CheckLength, s1.(processor := Inserting(op)));
    more := more + [CheckLength];
  }

  function Inserted(s: State, op: Op): State
    requires op.Event?
  {
    Written(s, op).(processor := ReadingLength,
                    eventsProcessed := s.eventsProcessed + 1,
                    tally := s.tally.(inserted := s.tally.inserted + 1))
  }

  lemma InsertNext(cfg: Config, s: State, op: Op)
    requires op.Event? && KeyOf(op) !in s.flows
    ensures Next(cfg, Received(s, op).(processor := Inserting(op)), Insert) == Some(Inserted(s, op))
  {
  }

  lemma ReadLengthNext(cfg: Config, s: State)
    requires s.processor == ReadingLength
    ensures Next(cfg, s, ReadLength) == Some(s.(processor := Flagging(|s.flows|, s.tally)))
  {
  }

  lemma InsertNew(cfg: Config, actions: seq<Action>, s: State, op: Op) returns (more: seq<Action>)
    requires op.Event? && KeyOf(op) !in s.flows && |s.flows| < cfg.maxFlows
    requires Exec(cfg, actions) == Some(s) && s.processor == Waiting
    ensures Exec(cfg, more) == Some(Inserted(s, op))
  {
    more := ReceiveNew(cfg, actions, s, op);
    InsertNext(cfg, s, op);
    ExecMore(cfg, more, Received(s, op).(processor := Inserting(op)), Insert, Inserted(s, op));
    more := more + [Insert];
  }

  /** The event loop has written an event with a new key and read the length, but not yet
      acted on it. */
  lemma InsertAndRead(cfg: Config, actions: seq<Action>, s: State, op: Op) returns (more: seq<Action>, s': State)
    requires op.Event? && KeyOf(op) !in s.flows && |s.flows| < cfg.maxFlows
    requires Exec(cfg, actions) == Some(s) && s.processor == Waiting
    ensures Exec(cfg, more) == Some(s')
    ensures s'.flows == Upsert(s.flows, KeyOf(op), op.event, op.now) && |s'.flows| == |s.flows| + 1
    ensures s'.processor.Flagging? && s'.processor.len == |s'.flows|
    ensures s'.sweeper == s.sweeper && s'.applied > 0
  {
    more := InsertNew(cfg, actions, s, op);
    WriteCounts(s, op);
    var s1 := Inserted(s, op);
    s' := s1.(processor := Flagging(|s1.flows|, s1.tally));
    ReadLengthNext(cfg, s1);
    ExecMore(cfg, more, s1, ReadLength, s');
    more := more + [ReadLength];
  }

  lemma SetFlagNext(cfg: Config, actions: seq<Action>, s: State) returns (s': State)
    requires Exec(cfg, actions) == Some(s) && s.processor.Flagging?
    ensures Exec(cfg, actions + [SetFlag]) == Some(s')
    ensures s'.flows == s.flows && s'.processor == Waiting && s'.sweeper == s.sweeper && s'.applied == s.applied
    ensures s'.atCapacity == (s.atCapacity || s.processor.len >= cfg.HighMark())
  {
    s' := Next(cfg, s, SetFlag).value;
    ExecMore(cfg, actions, s, SetFlag, s');
  }

  /** A table filled with flows of different pods, all last seen at time zero. */
  ghost predicate Filled(flows: Flows) {
    forall k | k in flows :: |k.podName| < |flows| && flows[k].lastSeen == 0
  }

  /** A pod name of the given length. */
  function Name(n: nat): string { seq(n, i => 'p') }

  function Filler(n: nat): Op { Op.Event(NetworkFlowEvent(0, 0, 0, 0, 0, 0, 0, 0, 0), "", Name(n), 0) }

  /** Complete calls add `n` flows, wherever the sweeper is. */
  lemma {:induction false} Fill(cfg: Config, actions: seq<Action>, s: State, n: nat) returns (more: seq<Action>, s': State)
    requires Exec(cfg, actions) == Some(s) && s.processor == Waiting
    requires Filled(s.flows) && |s.flows| + n <= cfg.maxFlows
    ensures Exec(cfg, more) == Some(s') && s'.processor == Waiting && s'.sweeper == s.sweeper
    ensures Filled(s'.flows) && |s'.flows| == |s.flows| + n
    ensures n > 0 ==> s'.applied > 0 && (|s'.flows| >= cfg.HighMark() ==> s'.atCapacity)
  {
    if n == 0 {
      more, s' := actions, s;
    } else {
      more, s' := Fill(cfg, actions, s, n - 1);
      var op := Filler(|s'.flows|);
      assert |KeyOf(op).podName| == |s'.flows|;
      more, s' := InsertAndRead(cfg, more, s', op);
      var s1 := s';
      s' := SetFlagNext(cfg, more, s1);
      more := more + [SetFlag];
    }
  }

  // ---------- The sweeper, while the event loop rests or is about to set the flag ----------

  ghost predicate Paused(p: Processor) { p.Waiting? || p.Flagging? }

  /** The sweeper, asleep, reads the clock and then the length. */
  lemma StartSweep(cfg: Config, actions: seq<Action>, s: State) returns (more: seq<Action>)
    requires Exec(cfg, actions) == Some(s) && s.sweeper == Sleeping && Paused(s.processor)
    ensures Exec(cfg, more) == Some(s.(sweeper := Retaining(cfg.flowTimeout, |s.flows|, s.tally, s.flows.Keys, {})))
  {
    var now := cfg.flowTimeout;
    ExecMore(cfg, actions, s, BeginSweep(now), s.(sweeper := Starting(now)));
    more := actions + [BeginSweep(now)];
    ExecMore(cfg, more, s.(sweeper := Starting(now)), ReadBefore,
             s.(sweeper := Retaining(now, |s.flows|, s.tally, s.flows.Keys, {})));
    more := more + [ReadBefore];
  }

  lemma VisitExpires(cfg: Config, s: State, k: FlowKey)
    requires s.sweeper.Retaining? && k !in s.sweeper.visited && Paused(s.processor)
    requires k in s.flows && s.flows[k].lastSeen <= s.sweeper.now - cfg.flowTimeout
    ensures Next(cfg, s, Visit(k)) == Some(AfterExpiry(s, k).(sweeper := s.sweeper.(owed := s.sweeper.owed - {k},
                                                                             visited := s.sweeper.visited + {k})))
  {
  }

  /** Midway through a retain that will find every flow expired. */
  ghost predicate Expiring(cfg: Config, s: State) {
    && s.sweeper.Retaining? && s.sweeper.now == cfg.flowTimeout
    && s.sweeper.owed == s.flows.Keys && s.sweeper.visited !! s.flows.Keys
    && forall k | k in s.flows :: s.flows[k].lastSeen == 0
  }

  /** The sweeper expires every flow. */
  lemma {:induction false} SweepAll(cfg: Config, actions: seq<Action>, s: State) returns (more: seq<Action>, s': State)
    requires Exec(cfg, actions) == Some(s) && Paused(s.processor) && Expiring(cfg, s)
    ensures Exec(cfg, more) == Some(s') && s'.flows == map[] && s'.processor == s.processor && s'.applied == s.applied
    ensures s'.sweeper.Retaining? && s'.sweeper.owed == {}
    decreases |s.flows|
  {
    if s.flows == map[] {
      more, s' := actions, s;
    } else {
      var k :| k in s.flows;
      VisitExpires(cfg, s, k);
      var s1 := Next(cfg, s, Visit(k)).value;
      ExecMore(cfg, actions, s, Visit(k), s1);
      CardinalityMinus(s.flows, {k});
      more, s' := SweepAll(cfg, actions + [Visit(k)], s1);
    }
  }

  /** A retain that owes nothing ends, and the sweeper reads the length twice. */
  lemma EndSweep(cfg: Config, actions: seq<Action>, s: State) returns (more: seq<Action>, s': State)
    requires Exec(cfg, actions) == Some(s) && Paused(s.processor)
    requires s.sweeper.Retaining? && s.sweeper.owed == {}
    ensures Exec(cfg, more) == Some(s') && s' == s.(sweeper := s'.sweeper)
    ensures s'.sweeper.Unflagging? && s'.sweeper.len == |s.flows|
  {
    var s1 := s.(sweeper := Counting(s.sweeper.before, |s.flows|, s.sweeper.since, s.tally));
    ExecMore(cfg, actions, s, EndRetain, s1);
    s' := s1.(sweeper := Unflagging(|s.flows|, s.tally));
    ExecMore(cfg, actions + [EndRetain], s1, ReadForMark, s');
    more := actions + [EndRetain] + [ReadForMark];
  }

  lemma ClearFlagNext(cfg: Config, actions: seq<Action>, s: State) returns (s': State)
    requires Exec(cfg, actions) == Some(s) && s.sweeper.Unflagging? && Paused(s.processor)
    ensures Exec(cfg, actions + [ClearFlag]) == Some(s')
    ensures s'.flows == s.flows && s'.processor == s.processor && s'.sweeper == Sleeping && s'.applied == s.applied
    ensures s'.atCapacity == (s.atCapacity && s.sweeper.len >= cfg.LowMark())
  {
    s' := Next(cfg, s, ClearFlag).value;
    ExecMore(cfg, actions, s, ClearFlag, s');
  }

  // ---------- The sweep's report ----------

  lemma NothingOwed(cfg: Config, s: State)
    requires s.sweeper.Retaining? && s.sweeper.owed == {} && s.processor == ReadingLength
    ensures Next(cfg, s, EndRetain) == Some(s.(sweeper := Counting(s.sweeper.before, |s.flows|, s.sweeper.since, s.tally)))
  {
  }

  /** A sweep can read the length before and after the first insert: its subtraction 0 - 1
      is not a `usize`. */
  lemma SweepReportCanUnderflow(cfg: Config, op: Op) returns (actions: seq<Action>)
    requires cfg.maxFlows >= 1 && op.Event?
    ensures Exec(cfg, actions).Some? && Exec(cfg, actions).value.sweeper.Counting?
    ensures var w := Exec(cfg, actions).value.sweeper; w.before == 0 && w.after == 1
  {
    actions := StartSweep(cfg, [], START);
    var s1 := START.(sweeper := Retaining(cfg.flowTimeout, 0, START.tally, {}, {}));
    actions := InsertNew(cfg, actions, s1, op);
    var s2 := Inserted(s1, op);
    WriteCounts(s1, op);
    NothingOwed(cfg, s2);
    ExecMore(cfg, actions, s2, EndRetain, Next(cfg, s2, EndRetain).value);
    actions := actions + [EndRetain];
  }
}
