/** The flow aggregator, updated in place, proved to take exactly the steps of FlowTable. */
module FlowAggregators {
  import opened Common
  import opened FlowTable
  import opened Health
  import opened MapSums
  import opened Sorting

  /** A flow as the eviction sees it: its key and when it was last seen. */
  datatype Candidate = Candidate(key: FlowKey, lastSeen: nat)

  function LastSeenOf(c: Candidate): int { c.lastSeen }

  ghost function KeysOf(s: seq<Candidate>): set<FlowKey> {
    if s == [] then {} else KeysOf(s[..|s| - 1]) + {s[|s| - 1].key}
  }

  lemma {:induction false} KeysOfMembers(s: seq<Candidate>, k: FlowKey)
    ensures k in KeysOf(s) <==> exists i :: 0 <= i < |s| && s[i].key == k
  {
    if s != [] {
      KeysOfMembers(s[..|s| - 1], k);
      if k in KeysOf(s[..|s| - 1]) {
        var i :| 0 <= i < |s| - 1 && s[..|s| - 1][i].key == k;
        assert s[i].key == k;
      }
      if i :| 0 <= i < |s| && s[i].key == k && i < |s| - 1 {
        assert s[..|s| - 1][i].key == k;
      }
    }
  }

  /** `s` lists every flow of `flows` once, in any order. */
  ghost predicate Snapshot(flows: Flows, s: seq<Candidate>) {
    && Distinct(s)
    && (forall c | c in s :: c.key in flows && c.lastSeen == flows[c.key].lastSeen)
    && (forall k | k in flows :: Candidate(k, flows[k].lastSeen) in s)
  }

  lemma {:induction false} SnapshotSize(flows: Flows, s: seq<Candidate>)
    requires Snapshot(flows, s)
    ensures |s| == |flows|
    decreases |s|
  {
    if s == [] {
      assert flows.Keys == {};
    } else {
      var k := s[0].key;
      forall c | c in s[1..] ensures c.key != k {
        assert c != s[0];
      }
      forall q | q in flows - {k} ensures Candidate(q, flows[q].lastSeen) in s[1..] {
        assert Candidate(q, flows[q].lastSeen) in s;
      }
      SnapshotSize(flows - {k}, s[1..]);
      CardinalityMinus(flows, {k});
    }
  }

  lemma KeysOfNext(flows: Flows, s: seq<Candidate>, i: nat)
    requires i < |s|
    ensures flows - KeysOf(s[..i + 1]) == flows - KeysOf(s[..i]) - {s[i].key}
  {
    assert s[..i + 1][..i] == s[..i];
  }

  lemma SortedSnapshot(flows: Flows, s: seq<Candidate>)
    requires Snapshot(flows, s)
    ensures Snapshot(flows, SortBy(s, LastSeenOf)) && SortedBy(SortBy(s, LastSeenOf), LastSeenOf)
  {
    SortDistinct(s, LastSeenOf);
  }

  lemma {:induction false} KeysOfSize(flows: Flows, s: seq<Candidate>, n: nat)
    requires Snapshot(flows, s) && n <= |s|
    ensures |KeysOf(s[..n])| == n && KeysOf(s[..n]) <= flows.Keys
  {
    if n > 0 {
      KeysOfSize(flows, s, n - 1);
      assert s[..n][..n - 1] == s[..n - 1];
      KeysOfMembers(s[..n - 1], s[n - 1].key);
      forall i | 0 <= i < n - 1 ensures s[i].key != s[n - 1].key {
        assert s[i] != s[n - 1];
        assert s[i] in s && s[n - 1] in s;
      }
      assert s[n - 1] in s;
    }
  }

  /** The head of a sorted snapshot is an oldest batch, whatever order the snapshot was in. */
  lemma HeadIsOldest(cfg: Config, flows: Flows, s: seq<Candidate>)
    requires Snapshot(flows, s) && SortedBy(s, LastSeenOf)
    ensures Min(cfg.EvictCount(), |s|) <= |s| == |flows|
    ensures EvictedBatch(cfg, flows, KeysOf(s[..Min(cfg.EvictCount(), |s|)]))
  {
    var n := Min(cfg.EvictCount(), |s|);
    SnapshotSize(flows, s);
    KeysOfSize(flows, s, n);
    forall g, k | g in KeysOf(s[..n]) && k in flows && k !in KeysOf(s[..n])
      ensures flows[g].lastSeen <= flows[k].lastSeen
    {
      HeadBeforeRest(flows, s, n, g, k);
    }
  }

  lemma HeadBeforeRest(flows: Flows, s: seq<Candidate>, n: nat, g: FlowKey, k: FlowKey)
    requires Snapshot(flows, s) && SortedBy(s, LastSeenOf) && n <= |s|
    requires g in KeysOf(s[..n]) && k in flows && k !in KeysOf(s[..n])
    ensures g in flows && flows[g].lastSeen <= flows[k].lastSeen
  {
    KeysOfMembers(s[..n], g);
    KeysOfMembers(s[..n], k);
    forall i | 0 <= i < n ensures s[i].key != k {
      assert s[..n][i] == s[i];
    }
    var i :| 0 <= i < n && s[..n][i].key == g;
    assert s[i] in s;
    assert Candidate(k, flows[k].lastSeen) in s;
    var j :| 0 <= j < |s| && s[j].key == k && s[j].lastSeen == flows[k].lastSeen;
    assert LastSeenOf(s[i]) <= LastSeenOf(s[j]);
  }

  // ---------- Every event can be processed ----------

  lemma {:induction false} SnapshotExists(flows: Flows) returns (s: seq<Candidate>)
    ensures Snapshot(flows, s)
    decreases |flows|
  {
    if flows == map[] {
      s := [];
    } else {
      var k :| k in flows;
      CardinalityMinus(flows, {k});
      var rest := SnapshotExists(flows - {k});
      s := [Candidate(k, flows[k].lastSeen)] + rest;
      forall q | q in flows ensures Candidate(q, flows[q].lastSeen) in s {
        assert q == k || q in flows - {k};
      }
    }
  }

  /** Sorting always finds a batch to evict, so no event is ever stuck. */
  lemma EventStepExists(cfg: Config, t: Table, op: Op) returns (t': Table)
    requires op.Event?
    ensures EventStep(cfg, t, op, t')
  {
    var gone := {};
    if KeyOf(op) !in t.flows && |t.flows| >= cfg.maxFlows {
      var s := SnapshotExists(t.flows);
      SortedSnapshot(t.flows, s);
      s := SortBy(s, LastSeenOf);
      HeadIsOldest(cfg, t.flows, s);
      gone := KeysOf(s[..Min(cfg.EvictCount(), |s|)]);
    }
    var flows := Upsert(t.flows - gone, KeyOf(op), op.event, op.now);
    t' := Table(flows, t.eventsProcessed + 1, t.atCapacity || |flows| >= cfg.HighMark(), t.evictions + |gone|);
    EventStepEvicting(cfg, t, op, t', gone);
  }

  // ---------- Listing flows ----------

  /** A filter of a query: no names means every name. */
  predicate Selected(names: seq<string>, name: string) { names == [] || name in names }

  function SelectedKeys(flows: Flows, namespaces: seq<string>): (keys: set<FlowKey>)
    ensures namespaces == [] ==> keys == flows.Keys
    ensures namespaces != [] ==>
              forall k :: k in keys <==> k in flows && exists i :: 0 <= i < |namespaces| && namespaces[i] == k.namespace
  {
    set k | k in flows && Selected(namespaces, k.namespace)
  }

  datatype Row = Row(key: FlowKey, stats: FlowStats)

  /** `rows` lists the flows with keys in `wanted` once each, in any order. */
  ghost predicate Lists(flows: Flows, wanted: set<FlowKey>, rows: seq<Row>) {
    && Distinct(rows)
    && (forall r | r in rows :: r.key in wanted && r.key in flows && r.stats == flows[r.key])
    && (forall k | k in wanted && k in flows :: Row(k, flows[k]) in rows)
  }

  // ---------- The table ----------

  class FlowAggregator {
    var flows: Flows
    var eventsProcessed: nat
    const cfg: Config
    const health: HealthState

    ghost function Contents(): Table
      reads this, health
    {
      Table(flows, eventsProcessed, health.flowTableAtCapacity, health.flowEvictions)
    }

    constructor (cfg: Config, health: HealthState)
      ensures this.cfg == cfg && this.health == health
      ensures flows == map[] && eventsProcessed == 0
    {
      this.cfg, this.health := cfg, health;
      flows, eventsProcessed := map[], 0;
    }

    method ProcessEvent(event: NetworkFlowEvent, namespace: string, podName: string, now: nat)
      modifies this`flows, this`eventsProcessed, health`flowTableAtCapacity, health`flowEvictions
      ensures EventStep(cfg, old(Contents()), Event(event, namespace, podName, now), Contents())
    {
      ghost var t := Contents();
      eventsProcessed := eventsProcessed + 1;
      var key := EventKey(event, namespace, podName);
      ghost var op := Event(event, namespace, podName, now);
      assert KeyOf(op) == key;
      ghost var gone := {};
      if key in flows {
        TouchFlow(key, event, now);
      } else {
        gone := AdmitFlow(key, event, now);
      }
      assert Contents() == Table(Upsert(t.flows - gone, key, event, now), t.eventsProcessed + 1,
                                 t.atCapacity || |flows| >= cfg.HighMark(), t.evictions + |gone|);
      EventStepEvicting(cfg, t, op, Contents(), gone);
    }

    /** The path of a key that was found: update its record. */
    method TouchFlow(key: FlowKey, event: NetworkFlowEvent, now: nat)
      requires key in flows
      modifies this`flows, health`flowTableAtCapacity
      ensures flows == Upsert(old(flows) - {}, key, event, now)
      ensures health.flowTableAtCapacity == (old(health.flowTableAtCapacity) || |flows| >= cfg.HighMark())
    {
      assert flows - {} == flows;
      flows := flows[key := flows[key].Update(event.timestampNs, event.packetLen, now)];
      UpdateCapacityFlag();
    }

    /** The path of a key that was not found: make room if the table is full, then write. */
    method AdmitFlow(key: FlowKey, event: NetworkFlowEvent, now: nat) returns (ghost gone: set<FlowKey>)
      modifies this`flows, health`flowTableAtCapacity, health`flowEvictions
      ensures if |old(flows)| >= cfg.maxFlows then EvictedBatch(cfg, old(flows), gone) else gone == {}
      ensures flows == Upsert(old(flows) - gone, key, event, now)
      ensures health.flowTableAtCapacity == (old(health.flowTableAtCapacity) || |flows| >= cfg.HighMark())
      ensures health.flowEvictions == old(health.flowEvictions) + |gone|
    {
      if |flows| >= cfg.maxFlows {
        EvictOldestFlows();
      }
      gone := old(flows).Keys - flows.Keys;
      assert flows == old(flows) - gone;
      flows := Upsert(flows, key, event, now);
      UpdateCapacityFlag();
    }

    method EvictOldestFlows()
      modifies this`flows, health`flowEvictions
      ensures var gone := old(flows).Keys - flows.Keys;
              && EvictedBatch(cfg, old(flows), gone)
              && flows == old(flows) - gone
              && health.flowEvictions == old(health.flowEvictions) + |gone|
    {
      var candidates := CollectCandidates();
      SortedSnapshot(flows, candidates);
      candidates := SortBy(candidates, LastSeenOf);
      HeadIsOldest(cfg, flows, candidates);
      var n := Min(cfg.EvictCount(), |candidates|);
      ghost var gone := KeysOf(candidates[..n]);
      var evicted := RemoveAll(candidates[..n]);
      CardinalityMinus(old(flows), gone);
      assert old(flows).Keys - flows.Keys == gone;

      if evicted > 0 {
        health.IncFlowEvictions(evicted);
      }
    }

    /** Remove the flows of `victims`, counting those that were still there. */
    method RemoveAll(victims: seq<Candidate>) returns (evicted: nat)
      modifies this`flows
      ensures flows == old(flows) - KeysOf(victims)
      ensures evicted == |old(flows)| - |flows|
    {
      evicted := 0;
      for i := 0 to |victims|
        invariant evicted == |old(flows)| - |flows|
        invariant flows == old(flows) - KeysOf(victims[..i])
      {
        var key := victims[i].key;
        KeysOfNext(old(flows), victims, i);
        if key in flows {
          CardinalityMinus(flows, {key});
          flows := flows - {key};
          evicted := evicted + 1;
        } else {
          assert flows - {key} == flows;
        }
      }
      assert victims[..|victims|] == victims;
    }

    method CollectCandidates() returns (candidates: seq<Candidate>)
      ensures Snapshot(flows, candidates)
    {
      candidates := [];
      var rest := flows.Keys;
      while rest != {}
        invariant rest <= flows.Keys
        invariant Snapshot(flows - rest, candidates)
      {
        var k :| k in rest;
        ghost var prefix := candidates;
        candidates := candidates + [Candidate(k, flows[k].lastSeen)];
        forall q | q in flows - (rest - {k}) ensures Candidate(q, flows[q].lastSeen) in candidates {
          if q == k {
            assert candidates[|prefix|] == Candidate(k, flows[k].lastSeen);
          } else {
            assert q in flows - rest;
          }
        }
        rest := rest - {k};
      }
      assert flows - {} == flows;
    }

    method UpdateCapacityFlag()
      modifies health`flowTableAtCapacity
      ensures health.flowTableAtCapacity == (old(health.flowTableAtCapacity) || 100 * (|flows| + 1) > 95 * cfg.maxFlows)
      ensures health.flowTableAtCapacity == (old(health.flowTableAtCapacity) || |flows| >= cfg.HighMark())
    {
      if |flows| >= cfg.HighMark() {
        health.SetFlowTableAtCapacity(true);
      }
    }

    /** The flows of the chosen namespaces, in the order the table happens to list them. */
    method GetFlows(namespaces: seq<string>) returns (rows: seq<Row>)
      ensures Lists(flows, SelectedKeys(flows, namespaces), rows)
    {
      rows := [];
      var rest := flows.Keys;
      while rest != {}
        invariant rest <= flows.Keys
        invariant Lists(flows, SelectedKeys(flows, namespaces) - rest, rows)
      {
        var k :| k in rest;
        ghost var before := rows;
        if Selected(namespaces, k.namespace) {
          rows := rows + [Row(k, flows[k])];
          assert rows[|before|] == Row(k, flows[k]);
          assert forall r | r in before :: r in rows;
        }
        rest := rest - {k};
      }
    }

    method ExpireOldFlows(now: nat) returns (expired: nat)
      requires now >= cfg.flowTimeout
      modifies this`flows, health`flowTableAtCapacity
      ensures SweepStep(cfg, old(Contents()), Sweep(now), Contents())
      ensures expired == |Expired(cfg, old(flows), now)|
      ensures health.flowTableAtCapacity == (old(health.flowTableAtCapacity) && 100 * (|flows| + 1) > 80 * cfg.maxFlows)
    {
      var cutoff := now - cfg.flowTimeout;
      var before := |flows|;
      flows := map k | k in flows && flows[k].lastSeen > cutoff :: flows[k];
      assert flows == old(flows) - Expired(cfg, old(flows), now);
      CardinalityMinus(old(flows), Expired(cfg, old(flows), now));
      expired := before - |flows|;

      if |flows| < cfg.LowMark() {
        health.SetFlowTableAtCapacity(false);
      }
    }
  }
}
