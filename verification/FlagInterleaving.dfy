/** The capacity flag when event loop and sweeper interleave: each reads the length and stores
    the flag in separate steps, so a store can land on a table it does not fit. */
module FlagInterleaving {
  import opened FlowTable
  import opened Interleaving
  import opened Schedules

  // ---------- When a store does not fit the table it lands on ----------

  /** The event loop raises the flag over a table below its low mark exactly when it read a
      length at the high mark and, since that read, the sweeper expired more flows than the
      length read lay above the low mark. */
  lemma RaiseLandsLow(cfg: Config, actions: seq<Action>)
    requires Exec(cfg, actions).Some?
    ensures var s := Exec(cfg, actions).value;
            s.processor.Flagging? ==>
              var len, swept := s.processor.len, s.tally.swept - s.processor.since.swept;
              && Exec(cfg, actions + [SetFlag]).Some?
              && var s' := Exec(cfg, actions + [SetFlag]).value;
              && |s'.flows| == len - swept
              && (s'.atCapacity <==> s.atCapacity || len >= cfg.HighMark())
              && (len >= cfg.HighMark() && |s'.flows| < cfg.LowMark()
                  <==> len >= cfg.HighMark() && swept > len - cfg.LowMark())
  {
    InvAlways(cfg, actions);
    var s := Exec(cfg, actions).value;
    if s.processor.Flagging? {
      ExecMore(cfg, actions, s, SetFlag, Next(cfg, s, SetFlag).value);
    }
  }

  /** The sweeper clears the flag over a table at its high mark exactly when it read a length
      below the low mark and, since that read, inserts exceeded evictions by what the length
      read lacked of the high mark. */
  lemma ClearLandsHigh(cfg: Config, actions: seq<Action>)
    requires Exec(cfg, actions).Some?
    ensures var s := Exec(cfg, actions).value;
            s.sweeper.Unflagging? ==>
              var len, since := s.sweeper.len, s.sweeper.since;
              var grown := (s.tally.inserted - since.inserted) - (s.tally.evicted - since.evicted);
              && Exec(cfg, actions + [ClearFlag]).Some?
              && var s' := Exec(cfg, actions + [ClearFlag]).value;
              && |s'.flows| == len + grown
              && (s'.atCapacity <==> s.atCapacity && len >= cfg.LowMark())
              && (len < cfg.LowMark() && |s'.flows| >= cfg.HighMark()
                  <==> len < cfg.LowMark() && grown >= cfg.HighMark() - len)
  {
    InvAlways(cfg, actions);
    var s := Exec(cfg, actions).value;
    if s.sweeper.Unflagging? {
      ExecMore(cfg, actions, s, ClearFlag, Next(cfg, s, ClearFlag).value);
    }
  }

  // ---------- When the flag is wrong, in every run ----------

  /** No sweep is under way that may still clear the flag for what it saw. */
  ghost predicate NotClearing(cfg: Config, w: Sweeper) {
    w.Sleeping? || w.Starting? || (w.Unflagging? && w.len >= cfg.LowMark())
  }

  /** No call is under way that has written but not yet stored the flag. */
  ghost predicate NotRaising(p: Processor) { !p.ReadingLength? && !p.Flagging? }

  ghost predicate FlagInv(cfg: Config, s: State) {
    && (s.staleUp ==> s.atCapacity)
    && (s.staleDown ==> !s.atCapacity && cfg.LowMark() > 0)
    && (NotClearing(cfg, s.sweeper) && s.atCapacity && |s.flows| < cfg.LowMark() ==> s.staleUp)
    && (NotRaising(s.processor) && (cfg.maxFlows >= 2 || s.applied > 0) && |s.flows| >= cfg.HighMark()
        ==> s.atCapacity || s.staleDown)
  }

  lemma WriteKeepsFlagInv(cfg: Config, s: State, a: Action)
    requires a.Lookup? || a.Insert?
    requires ProcessorInv(cfg, s) && FlagInv(cfg, s) && ProcessorStep(cfg, s, a).Some?
    ensures FlagInv(cfg, ProcessorStep(cfg, s, a).value)
  {
    WriteCounts(s, s.processor.op);
  }

  lemma RemovalKeepsFlagInv(cfg: Config, s: State)
    requires FlagInv(cfg, s) && ProcessorStep(cfg, s, RemoveNext).Some?
    ensures FlagInv(cfg, ProcessorStep(cfg, s, RemoveNext).value)
  {
    if s.processor.queue[0] in s.flows {
      RemovalCounts(s, s.processor.queue[0]);
    }
  }

  lemma StoreKeepsFlagInv(cfg: Config, s: State)
    requires Inv(cfg, s) && FlagInv(cfg, s) && s.processor.Flagging?
    ensures FlagInv(cfg, ProcessorStep(cfg, s, SetFlag).value)
  {
    assert |s.flows| <= s.processor.len;
  }

  lemma ProcessorKeepsFlagInv(cfg: Config, s: State, a: Action)
    requires Inv(cfg, s) && FlagInv(cfg, s) && ProcessorStep(cfg, s, a).Some?
    ensures FlagInv(cfg, ProcessorStep(cfg, s, a).value)
  {
    if a.Lookup? || a.Insert? {
      WriteKeepsFlagInv(cfg, s, a);
    } else if a.RemoveNext? {
      RemovalKeepsFlagInv(cfg, s);
    } else if a.SetFlag? {
      StoreKeepsFlagInv(cfg, s);
    }
  }

  lemma VisitKeepsFlagInv(cfg: Config, s: State, a: Action)
    requires a.Visit? && FlagInv(cfg, s) && SweeperStep(cfg, s, a).Some?
    ensures FlagInv(cfg, SweeperStep(cfg, s, a).value)
  {
    RemovalCounts(s, a.key);
  }

  lemma SweeperKeepsFlagInv(cfg: Config, s: State, a: Action)
    requires FlagInv(cfg, s) && SweeperStep(cfg, s, a).Some?
    ensures FlagInv(cfg, SweeperStep(cfg, s, a).value)
  {
    if a.Visit? {
      VisitKeepsFlagInv(cfg, s, a);
    }
  }

  lemma {:induction false} FlagInvAlways(cfg: Config, actions: seq<Action>)
    requires Exec(cfg, actions).Some?
    ensures FlagInv(cfg, Exec(cfg, actions).value)
  {
    if actions != [] {
      var prefix, a := actions[..|actions| - 1], actions[|actions| - 1];
      InvAlways(cfg, prefix);
      FlagInvAlways(cfg, prefix);
      var s := Exec(cfg, prefix).value;
      if ProcessorStep(cfg, s, a).Some? {
        ProcessorKeepsFlagInv(cfg, s, a);
      } else {
        SweeperKeepsFlagInv(cfg, s, a);
      }
    }
  }

  /** The hysteresis of the atomic runs, with its exact exceptions. Unless a sweep is about to
      clear it, the flag is up over a table below the low mark exactly when, since it was last
      cleared, it was raised over such a table or an eviction made the table such. Unless a
      call is about to raise it, the flag is down over a table at its high mark exactly when,
      since it was last raised, it was cleared over such a table. */
  lemma FlagUnderInterleaving(cfg: Config, actions: seq<Action>)
    requires Exec(cfg, actions).Some?
    ensures var s := Exec(cfg, actions).value;
            && (NotClearing(cfg, s.sweeper) && |s.flows| < cfg.LowMark() ==> (s.atCapacity <==> s.staleUp))
            && (NotRaising(s.processor) && (cfg.maxFlows >= 2 || s.applied > 0) && |s.flows| >= cfg.HighMark() ==>
                  (!s.atCapacity <==> s.staleDown))
  {
    FlagInvAlways(cfg, actions);
  }

  // ---------- Which configurations can leave the flag wrong with both threads at rest ----------

  ghost predicate AtRest(s: State) { s.processor == Waiting && s.sweeper == Sleeping }

  /** `actions` end with both threads at rest and the flag up over a table below its low mark. */
  ghost predicate EndsStaleUp(cfg: Config, actions: seq<Action>) {
    var r := Exec(cfg, actions);
    r.Some? && AtRest(r.value) && r.value.atCapacity && |r.value.flows| < cfg.LowMark()
  }

  /** `actions` process an event and end with both threads at rest and the flag down over a
      table at its high mark. */
  ghost predicate EndsStaleDown(cfg: Config, actions: seq<Action>) {
    var r := Exec(cfg, actions);
    r.Some? && AtRest(r.value) && !r.value.atCapacity && |r.value.flows| >= cfg.HighMark() && r.value.applied > 0
  }

  /** The event loop reads a length at the high mark, a whole sweep then empties the table and
      clears the flag, and the event loop raises it. */
  lemma RaiseOverEmptyTable(cfg: Config) returns (actions: seq<Action>)
    requires cfg.maxFlows >= 2
    ensures EndsStaleUp(cfg, actions) && Exec(cfg, actions).value.flows == map[]
  {
    var s;
    actions, s := Fill(cfg, [], START, cfg.HighMark() - 1);
    assert |KeyOf(Filler(|s.flows|)).podName| == |s.flows|;
    actions, s := InsertAndRead(cfg, actions, s, Filler(|s.flows|));
    actions := StartSweep(cfg, actions, s);
    s := s.(sweeper := Retaining(cfg.flowTimeout, |s.flows|, s.tally, s.flows.Keys, {}));
    actions, s := SweepAll(cfg, actions, s);
    actions, s := EndSweep(cfg, actions, s);
    var s1 := s;
    s := ClearFlagNext(cfg, actions, s1);
    actions := actions + [ClearFlag];
    s1 := s;
    s := SetFlagNext(cfg, actions, s1);
    actions := actions + [SetFlag];
  }

  /** The sweeper reads the length of an empty table, whole calls then fill the table and raise
      the flag, and the sweeper clears it. */
  lemma ClearOverFilledTable(cfg: Config) returns (actions: seq<Action>)
    requires cfg.maxFlows >= 2
    ensures EndsStaleDown(cfg, actions)
  {
    var s := START;
    actions := StartSweep(cfg, [], s);
    s := s.(sweeper := Retaining(cfg.flowTimeout, 0, s.tally, {}, {}));
    actions, s := EndSweep(cfg, actions, s);
    actions, s := Fill(cfg, actions, s, cfg.HighMark());
    var s1 := s;
    s := ClearFlagNext(cfg, actions, s1);
    actions := actions + [ClearFlag];
  }

  /** Interleaving can leave the flag wrong, either way, with both threads at rest, exactly
      when the table is configured for at least two flows. */
  lemma FlagCanBeStale(cfg: Config)
    ensures (exists actions :: EndsStaleUp(cfg, actions)) <==> cfg.maxFlows >= 2
    ensures (exists actions :: EndsStaleDown(cfg, actions)) <==> cfg.maxFlows >= 2
  {
    if cfg.maxFlows >= 2 {
      var up := RaiseOverEmptyTable(cfg);
      var down := ClearOverFilledTable(cfg);
    } else if actions :| EndsStaleDown(cfg, actions) {
      FlagInvAlways(cfg, actions);
    }
  }
}
