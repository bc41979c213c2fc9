/** The flow query: filter by namespace and pod, largest first, cut to the limit. */
module QueryFlows {
  import opened Common
  import opened FlowAggregators
  import opened FlowTable
  import opened Ipv4
  import opened Sorting

  datatype Request = Request(namespaces: seq<string>, podNames: seq<string>, limit: u32)

  datatype NetworkFlow = NetworkFlow(
    namespace: string,
    podName: string,
    srcIp: string,
    dstIp: string,
    srcPort: u32,
    dstPort: u32,
    protocol: string,
    direction: string,
    bytes: nat,
    packets: nat,
    firstSeenNs: int,
    lastSeenNs: int)

  function FormatProtocol(protocol: u8): string {
    if protocol == 1 then "ICMP" else if protocol == 6 then "TCP" else if protocol == 17 then "UDP" else "OTHER"
  }

  function FormatDirection(direction: u8): string {
    if direction == 0 then "ingress" else if direction == 1 then "egress" else "unknown"
  }

  /** A 64-bit unsigned number reinterpreted as signed. */
  function AsI64(x: u64): int { if x < 0x8000_0000_0000_0000 then x else x - 0x1_0000_0000_0000_0000 }

  function ToNetworkFlow(key: FlowKey, stats: FlowStats): NetworkFlow {
    NetworkFlow(key.namespace, key.podName, FormatIpv4(key.srcIp), FormatIpv4(key.dstIp), key.srcPort, key.dstPort,
                FormatProtocol(key.protocol), FormatDirection(key.direction), stats.bytes, stats.packets,
                AsI64(stats.firstSeenNs), AsI64(stats.lastSeenNs))
  }

  predicate Matches(req: Request, key: FlowKey) {
    Selected(req.namespaces, key.namespace) && Selected(req.podNames, key.podName)
  }

  function Matching(req: Request, flows: Flows): set<FlowKey> {
    set k | k in flows && Matches(req, k)
  }

  /** A flow is asked for exactly when its namespace and its pod are each in the list given for
      them, an empty list standing for all. */
  lemma MatchingAreAskedFor(req: Request, flows: Flows, k: FlowKey)
    ensures k in Matching(req, flows) <==>
            && k in flows
            && (req.namespaces != [] ==> exists i :: 0 <= i < |req.namespaces| && req.namespaces[i] == k.namespace)
            && (req.podNames != [] ==> exists i :: 0 <= i < |req.podNames| && req.podNames[i] == k.podName)
  {
  }

  /** `keys` are `n` of the matching flows, largest first, and no other is larger. */
  ghost predicate TopFlows(req: Request, flows: Flows, keys: seq<FlowKey>, n: nat) {
    && |keys| == Min(n, |Matching(req, flows)|)
    && Distinct(keys)
    && (forall k | k in keys :: k in flows && Matches(req, k))
    && (forall i, j | 0 <= i < j < |keys| :: flows[keys[i]].bytes >= flows[keys[j]].bytes)
    && (forall k, o | k in keys && o in flows && Matches(req, o) && o !in keys :: flows[k].bytes >= flows[o].bytes)
  }

  function Descending(row: Row): int { 0 - row.stats.bytes as int }

  function Keys(rows: seq<Row>): seq<FlowKey> { seq(|rows|, i requires 0 <= i < |rows| => rows[i].key) }

  lemma RowAt(flows: Flows, wanted: set<FlowKey>, rows: seq<Row>, i: nat)
    requires Lists(flows, wanted, rows) && i < |rows|
    ensures rows[i].key in wanted && rows[i].key in flows && rows[i].stats == flows[rows[i].key]
    ensures Keys(rows)[i] == rows[i].key
  {
    assert rows[i] in rows;
  }

  lemma DistinctKeys(flows: Flows, wanted: set<FlowKey>, rows: seq<Row>)
    requires Lists(flows, wanted, rows)
    ensures Distinct(Keys(rows))
  {
    forall i, j | 0 <= i < j < |rows| ensures rows[i].key != rows[j].key {
      RowAt(flows, wanted, rows, i);
      RowAt(flows, wanted, rows, j);
      assert rows[i] != rows[j];
    }
  }

  lemma RowOf(flows: Flows, wanted: set<FlowKey>, rows: seq<Row>, k: FlowKey) returns (i: nat)
    requires Lists(flows, wanted, rows) && k in wanted && k in flows
    ensures i < |rows| && rows[i] == Row(k, flows[k])
  {
    assert Row(k, flows[k]) in rows;
    i :| i < |rows| && rows[i] == Row(k, flows[k]);
  }

  lemma {:induction false} DistinctSize(keys: seq<FlowKey>, s: set<FlowKey>)
    requires Distinct(keys) && (forall k :: k in keys <==> k in s)
    ensures |keys| == |s|
    decreases |keys|
  {
    if keys == [] {
      assert s == {};
    } else {
      assert keys == [keys[0]] + keys[1..];
      assert keys[0] !in keys[1..];
      DistinctSize(keys[1..], s - {keys[0]});
    }
  }

  lemma ListsSize(flows: Flows, wanted: set<FlowKey>, rows: seq<Row>)
    requires Lists(flows, wanted, rows) && wanted <= flows.Keys
    ensures |rows| == |wanted|
  {
    DistinctKeys(flows, wanted, rows);
    forall k ensures k in Keys(rows) <==> k in wanted {
      if k in wanted {
        var i := RowOf(flows, wanted, rows, k);
        assert Keys(rows)[i] == k;
      }
      if i :| 0 <= i < |rows| && Keys(rows)[i] == k {
        RowAt(flows, wanted, rows, i);
      }
    }
    DistinctSize(Keys(rows), wanted);
  }

  lemma OmittedIsNotLarger(flows: Flows, wanted: set<FlowKey>, rows: seq<Row>, m: nat, i: nat, o: FlowKey)
    requires Lists(flows, wanted, rows) && SortedBy(rows, Descending) && i < m <= |rows|
    requires o in wanted && o in flows && o !in Keys(rows[..m])
    ensures rows[i].stats.bytes >= flows[o].bytes
  {
    var j := RowOf(flows, wanted, rows, o);
    forall x | 0 <= x < m ensures rows[x].key in Keys(rows[..m]) {
      assert Keys(rows[..m])[x] == rows[x].key;
    }
    assert Descending(rows[i]) <= Descending(rows[j]);
  }

  /** A sorted listing of the matching flows, cut to `n`, is a top selection. */
  lemma CutIsTop(req: Request, flows: Flows, rows: seq<Row>, n: nat)
    requires Lists(flows, Matching(req, flows), rows) && SortedBy(rows, Descending)
    ensures TopFlows(req, flows, Keys(rows[..Min(n, |rows|)]), n)
  {
    var wanted, m := Matching(req, flows), Min(n, |rows|);
    var keys := Keys(rows[..m]);
    ListsSize(flows, wanted, rows);
    DistinctKeys(flows, wanted, rows);
    assert keys == Keys(rows)[..m];
    forall i | 0 <= i < m ensures keys[i] == rows[i].key && keys[i] in wanted && rows[i].stats == flows[keys[i]] {
      RowAt(flows, wanted, rows, i);
    }
    forall i, j | 0 <= i < j < m ensures flows[keys[i]].bytes >= flows[keys[j]].bytes {
      assert Descending(rows[i]) <= Descending(rows[j]);
    }
    forall k, o | k in keys && o in flows && Matches(req, o) && o !in keys ensures flows[k].bytes >= flows[o].bytes {
      var i :| 0 <= i < m && keys[i] == k;
      OmittedIsNotLarger(flows, wanted, rows, m, i, o);
    }
  }

  /** The rows of the answer: the listing sorted and cut. */
  function TopRows(rows: seq<Row>, n: nat): seq<Row> {
    var sorted := SortBy(rows, Descending);
    sorted[..Min(n, |sorted|)]
  }

  lemma TopRowsAreTop(req: Request, flows: Flows, rows: seq<Row>, n: nat)
    requires Lists(flows, Matching(req, flows), rows)
    ensures TopFlows(req, flows, Keys(TopRows(rows, n)), n)
    ensures forall r | r in TopRows(rows, n) :: r.key in flows && r.stats == flows[r.key]
  {
    var sorted := SortBy(rows, Descending);
    SortDistinct(rows, Descending);
    CutIsTop(req, flows, sorted, n);
    forall r | r in TopRows(rows, n) ensures r in sorted {
    }
  }

  class AgentService {
    const aggregator: FlowAggregator
    const maxQueryLimit: nat

    constructor (aggregator: FlowAggregator, maxQueryLimit: nat)
      ensures this.aggregator == aggregator && this.maxQueryLimit == maxQueryLimit
    {
      this.aggregator, this.maxQueryLimit := aggregator, maxQueryLimit;
    }

    function EffectiveLimit(limit: u32): nat {
      if limit == 0 || limit > maxQueryLimit then maxQueryLimit else limit
    }

    /** The answer is the effective limit's worth of matching flows, largest first, none left
        out larger than one returned; `picked` names the flows the rows stand for. */
    method QueryFlows(req: Request) returns (answer: seq<NetworkFlow>, ghost picked: seq<FlowKey>)
      ensures TopFlows(req, aggregator.flows, picked, EffectiveLimit(req.limit))
      ensures |answer| == |picked| <= maxQueryLimit
      ensures |answer| == if 0 < req.limit <= maxQueryLimit then Min(req.limit, |Matching(req, aggregator.flows)|)
                          else Min(maxQueryLimit, |Matching(req, aggregator.flows)|)
      ensures req.namespaces == [] && req.podNames == [] ==> |answer| == Min(EffectiveLimit(req.limit), |aggregator.flows|)
      ensures forall i | 0 <= i < |answer| :: answer[i] == ToNetworkFlow(picked[i], aggregator.flows[picked[i]])
    {
      var rows := SelectRows(req);
      TopRowsAreTop(req, aggregator.flows, rows, EffectiveLimit(req.limit));
      rows := TopRows(rows, EffectiveLimit(req.limit));
      picked := Keys(rows);
      if req.namespaces == [] && req.podNames == [] {
        assert Matching(req, aggregator.flows) == aggregator.flows.Keys;
      }
      answer := ToAnswer(rows);
      assert forall i | 0 <= i < |rows| :: rows[i] in rows;
    }

    method ToAnswer(rows: seq<Row>) returns (answer: seq<NetworkFlow>)
      ensures |answer| == |rows|
      ensures forall i | 0 <= i < |rows| :: answer[i] == ToNetworkFlow(rows[i].key, rows[i].stats)
    {
      answer := [];
      for i := 0 to |rows|
        invariant |answer| == i
        invariant forall j | 0 <= j < i :: answer[j] == ToNetworkFlow(rows[j].key, rows[j].stats)
      {
        answer := answer + [ToNetworkFlow(rows[i].key, rows[i].stats)];
      }
    }

    method SelectRows(req: Request) returns (rows: seq<Row>)
      ensures Lists(aggregator.flows, Matching(req, aggregator.flows), rows)
    {
      var listed := aggregator.GetFlows(req.namespaces);
      rows := [];
      for i := 0 to |listed|
        invariant Distinct(rows)
        invariant forall r :: r in rows <==> r in listed[..i] && Selected(req.podNames, r.key.podName)
      {
        assert listed[..i + 1] == listed[..i] + [listed[i]];
        assert listed[i] !in listed[..i];
        if Selected(req.podNames, listed[i].key.podName) {
          rows := rows + [listed[i]];
        }
      }
      assert listed[..|listed|] == listed;
    }
  }
}
