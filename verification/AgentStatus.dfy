/** What the status endpoint's health verdict says about the flow table. */
module AgentStatus {
  import opened FlowAggregators
  import opened FlowRuns
  import opened FlowTable

  /** For an aggregator whose table is at the end of an atomic run: reported healthy, it is below its
      high mark, unless it is too small to have one or nothing has happened yet; and a table
      below its low mark is never the reason for an unhealthy report. */
  lemma HealthReflectsTable(agg: FlowAggregator, ops: seq<Op>, states: seq<Table>)
    requires Run(agg.cfg, ops, states) && states[|ops|] == agg.Contents()
    ensures agg.health.IsHealthy() && (agg.cfg.maxFlows >= 2 || agg.eventsProcessed > 0) ==>
              100 * (|agg.flows| + 1) <= 95 * agg.cfg.maxFlows
    ensures 100 * (|agg.flows| + 1) <= 80 * agg.cfg.maxFlows ==> (agg.health.IsHealthy() <==> agg.health.probesAttached)
  {
    CapacityFlagIsHysteresis(agg.cfg, ops, states, |ops|);
  }
}
