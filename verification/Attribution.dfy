/** From the wire to a pod's name: the address text the watcher parses, the address bytes the
    probe reads and the key the flow table uses all mean the same pod. */
module Attribution {
  import opened Bytes
  import opened CacheWrites
  import opened Common
  import opened FlowTable
  import opened Ipv4
  import opened Pipeline
  import opened PodTable
  import opened Probe
  import opened QueryFlows
  import opened Text
  import opened Watcher

  /** The address of the packet's local side: where it goes on ingress, which is direction 0,
      where it comes from otherwise. */
  function LocalIp(e: NetworkFlowEvent): u32 { if e.direction == 0 then e.dstIp else e.srcIp }

  /** The local side's octets on the wire. */
  function LocalOctets(f: Frame, dir: u8): seq<u8> { if dir == 0 then f.destination else f.source }

  /** The dotted text of the four octets in wire order. */
  function Dotted(b: seq<u8>): string
    requires |b| == 4
  {
    Join([Decimal(b[0]), Decimal(b[1]), Decimal(b[2]), Decimal(b[3])], '.')
  }

  /** Wire octets read as a native little-endian number are the number their text parses to. */
  lemma WireAndTextAgree(b: seq<u8>)
    requires |b| == 4
    ensures ParseIpv4(Dotted(b)) == Some(ToU32(b)) && FormatIpv4(ToU32(b)) == Dotted(b)
  {
    BytesOfValue(b);
    assert Octets(ToU32(b)) == b;
    ParseUndoesFormat(ToU32(b));
  }

  /** Once a pod is applied and the IP index has room for it, every packet whose local side
      carries the pod's address is booked to that pod, until an operation removes the pod or
      claims the address under another name. */
  lemma AppliedPodGetsItsPackets(max: nat, c: Cache, host: Host, pod: Pod, later: seq<CacheOp>, f: Frame, visible: nat,
                                 len: u32, dir: u8, timestampNs: u64)
    requires f.WellFormed() && f.Needed() <= visible <= |f.Layout()| && len >= 34
    requires PodUid(pod) != "" && pod.status.Some?
    requires pod.status.value.podIp == Some(Dotted(LocalOctets(f, dir)))
    requires Accepts(max, c, ToU32(LocalOctets(f, dir)))
    requires var ip := ToU32(LocalOctets(f, dir));
             forall op | op in later ::
               !Takes(op, ip, OrElse(pod.namespace, "default"), OrElse(pod.name, "unknown"), PodUid(pod))
    ensures var index := ApplyAll(max, c, ApplyOps(host, pod) + later).byIp;
            var e := Decode(Context(f.Layout()[..visible], len), dir, timestampNs);
            && e.Some?
            && Attribute(index, e.value) == (OrElse(pod.namespace, "default"), OrElse(pod.name, "unknown"))
  {
    WireAndTextAgree(LocalOctets(f, dir));
    DecodeUndoesLayout(f, visible, len, dir, timestampNs);
    ApplyByIp(max, c, host, pod);
    ApplyWrites(host, pod);
    var e := Decode(Context(f.Layout()[..visible], len), dir, timestampNs).value;
    assert LocalIp(e) in IpWrites(ApplyOps(host, pod));
    ApplyAllAppend(max, c, ApplyOps(host, pod), later);
    NamesUntilTaken(max, ApplyAll(max, c, ApplyOps(host, pod)), LocalIp(e), OrElse(pod.namespace, "default"),
                    OrElse(pod.name, "unknown"), PodUid(pod), later);
  }

  /** The names in a flow key come from the pod that owns the local address in the history of
      the cache, whenever that lookup succeeds; from the owner of the other address when only
      that one does; and are the fixed placeholder when neither does. */
  lemma FlowsAreBookedToOwners(max: nat, ops: seq<CacheOp>, e: NetworkFlowEvent)
    ensures var index := ApplyAll(max, PodTable.EMPTY, ops).byIp;
            var remote := if e.direction == 0 then e.srcIp else e.dstIp;
            var name := Attribute(index, e);
            || (exists md :: Owns(ops, LocalIp(e), md) && name == (md.namespace, md.podName))
            || (LocalIp(e) !in index && exists md :: Owns(ops, remote, md) && name == (md.namespace, md.podName))
            || (LocalIp(e) !in index && remote !in index && name == ("external", "unknown"))
  {
    var index := ApplyAll(max, PodTable.EMPTY, ops).byIp;
    var remote := if e.direction == 0 then e.srcIp else e.dstIp;
    if LocalIp(e) in index {
      LookupsAreSound(max, ops, LocalIp(e), index[LocalIp(e)]);
    } else if remote in index {
      LookupsAreSound(max, ops, remote, index[remote]);
    }
  }

  /** The signed number with the same 64 bits. */
  predicate SameBits(signed: int, x: u64) {
    -0x8000_0000_0000_0000 <= signed < 0x8000_0000_0000_0000 && (signed - x) % 0x1_0000_0000_0000_0000 == 0
  }

  lemma LabelsAndTimes(key: FlowKey, stats: FlowStats)
    ensures var row := ToNetworkFlow(key, stats);
            && row.protocol == (match key.protocol case 1 => "ICMP" case 6 => "TCP" case 17 => "UDP" case _ => "OTHER")
            && row.direction == (match key.direction case 0 => "ingress" case 1 => "egress" case _ => "unknown")
            && SameBits(row.firstSeenNs, stats.firstSeenNs) && SameBits(row.lastSeenNs, stats.lastSeenNs)
  {
  }

  /** A flow row shows the packet it came from: the addresses as they were on the wire, the
      ports, the protocol and the direction by name, and the pod it was booked to; and the
      flow's totals and kernel times. */
  lemma RowShowsTheWire(index: IpIndex, f: Frame, visible: nat, len: u32, dir: u8, timestampNs: u64, stats: FlowStats)
    requires f.WellFormed() && f.Needed() <= visible <= |f.Layout()| && len >= 34
    ensures var e := Decode(Context(f.Layout()[..visible], len), dir, timestampNs);
            && e.Some?
            && var name := Attribute(index, e.value);
               var row := ToNetworkFlow(EventKey(e.value, name.0, name.1), stats);
            && row.namespace == name.0 && row.podName == name.1
            && row.srcIp == Dotted(f.source) && row.dstIp == Dotted(f.destination)
            && row.srcPort == f.SrcPort() && row.dstPort == f.DstPort()
            && row.protocol == (match f.protocol case 1 => "ICMP" case 6 => "TCP" case 17 => "UDP" case _ => "OTHER")
            && row.direction == (match dir case 0 => "ingress" case 1 => "egress" case _ => "unknown")
            && row.bytes == stats.bytes && row.packets == stats.packets
            && SameBits(row.firstSeenNs, stats.firstSeenNs) && SameBits(row.lastSeenNs, stats.lastSeenNs)
  {
    DecodeUndoesLayout(f, visible, len, dir, timestampNs);
    WireAndTextAgree(f.source);
    WireAndTextAgree(f.destination);
    var e := Decode(Context(f.Layout()[..visible], len), dir, timestampNs).value;
    var name := Attribute(index, e);
    LabelsAndTimes(EventKey(e, name.0, name.1), stats);
  }

  /** The same packet seen from its other end. */
  function Reversed(e: NetworkFlowEvent): NetworkFlowEvent {
    e.(srcIp := e.dstIp, dstIp := e.srcIp, srcPort := e.dstPort, dstPort := e.srcPort,
       direction := if e.direction == 0 then 1 else 0)
  }

  /** Swapping the ends and the direction changes neither the pod a packet is booked to nor
      whether it counts as the agent's own. */
  lemma ReversalKeepsVerdicts(index: IpIndex, port: u16, localIps: set<u32>, e: NetworkFlowEvent)
    ensures Attribute(index, Reversed(e)) == Attribute(index, e)
    ensures IsSelfTraffic(Reversed(e), port, localIps) <==> IsSelfTraffic(e, port, localIps)
  {
  }
}
