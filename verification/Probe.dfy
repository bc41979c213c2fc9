/** The kernel probe: from the bytes of a packet to a flow event in the ring buffer. */
module Probe {
  import opened Bytes
  import opened Common
  import opened EventCodec

  const ETH_HLEN: nat := 14
  const IP_HLEN_MIN: nat := 20

  /** A packet as the classifier sees it: the bytes between `data` and `data_end`, which may
      be only the front of the packet, and the length of the whole. */
  datatype Context = Context(data: seq<u8>, len: u32)

  /** The `n` bytes at `offset`, if they end inside the data. */
  function PtrAt(ctx: Context, offset: nat, n: nat): (r: Option<seq<u8>>)
    ensures r.Some? ==> |r.value| == n
  {
    if offset + n > |ctx.data| then None else Some(ctx.data[offset..offset + n])
  }

  predicate HasPorts(protocol: u8) { protocol == TCP || protocol == UDP }

  function ReadPorts(ctx: Context, protocol: u8, offset: nat): Option<(u16, u16)> {
    if HasPorts(protocol) then
      var sport :- PtrAt(ctx, offset, 2);
      var dport :- PtrAt(ctx, offset + 2, 2);
      Some((BigEndian16(sport[0], sport[1]), BigEndian16(dport[0], dport[1])))
    else Some((0, 0))
  }

  /** The event the probe tries to report, or None when it lets the packet pass unreported. */
  function Decode(ctx: Context, dir: u8, timestampNs: u64): Option<NetworkFlowEvent> {
    if ctx.len < ETH_HLEN + IP_HLEN_MIN then None else
      var ethertype :- PtrAt(ctx, 12, 2);
      if BigEndian16(ethertype[0], ethertype[1]) != 0x0800 then None else
        var versionIhl :- PtrAt(ctx, ETH_HLEN, 1);
        var ipHeaderLen: nat := versionIhl[0] % 0x10 * 4;
        if ipHeaderLen < IP_HLEN_MIN then None else
          var proto :- PtrAt(ctx, ETH_HLEN + 9, 1);
          var src :- PtrAt(ctx, ETH_HLEN + 12, 4);
          var dst :- PtrAt(ctx, ETH_HLEN + 16, 4);
          var ports :- ReadPorts(ctx, proto[0], ETH_HLEN + ipHeaderLen);
          Some(NetworkFlowEvent(timestampNs, 0, ToU32(src), ToU32(dst), ports.0, ports.1, proto[0], dir,
                                ctx.len % 0x1_0000))
  }

  /** The probe's two maps. */
  class Maps {
    var events: seq<seq<u8>>
    var eventsDropped: nat

    constructor ()
      ensures events == [] && eventsDropped == 0
    {
      events, eventsDropped := [], 0;
    }

    /** `room` says whether the ring buffer can reserve one more record. */
    method TryNetworkProbe(ctx: Context, dir: u8, timestampNs: u64, room: bool)
      modifies this
      ensures var e := Decode(ctx, dir, timestampNs);
              && events == old(events) + (if e.Some? && room then [Encode(e.value)] else [])
              && eventsDropped == old(eventsDropped) + if e.Some? && !room then 1 else 0
    {
      var e := Decode(ctx, dir, timestampNs);
      if e.Some? {
        if room {
          events := events + [Encode(e.value)];
        } else {
          eventsDropped := eventsDropped + 1;
        }
      }
    }
  }

  // ---------- When an event is attempted ----------

  /** The packet states its own length, is IPv4 with a legal header length, and the fields
      the probe reads are inside the data. */
  predicate Reportable(ctx: Context) {
    && ctx.len >= 34 && |ctx.data| >= 34
    && ctx.data[12] == 0x08 && ctx.data[13] == 0x00
    && ctx.data[14] % 0x10 >= 5
    && (ctx.data[23] == 6 || ctx.data[23] == 17 ==> |ctx.data| >= 14 + 4 * (ctx.data[14] % 0x10) + 4)
  }

  lemma ReportedIffReportable(ctx: Context, dir: u8, timestampNs: u64)
    ensures Decode(ctx, dir, timestampNs).Some? <==> Reportable(ctx)
  {
    assert |ctx.data| >= 14 ==> (BigEndian16(ctx.data[12], ctx.data[13]) == 0x0800
                                 <==> ctx.data[12] == 0x08 && ctx.data[13] == 0x00);
  }

  /** The ports of a reportable packet by position, zero for other protocols. */
  function PortsAt(ctx: Context): (u16, u16)
    requires Reportable(ctx)
  {
    var at := 14 + 4 * (ctx.data[14] % 0x10);
    if ctx.data[23] == 6 || ctx.data[23] == 17 then
      (0x100 * (ctx.data[at] as nat) + ctx.data[at + 1], 0x100 * (ctx.data[at + 2] as nat) + ctx.data[at + 3])
    else (0, 0)
  }

  lemma ReportedFields(ctx: Context, dir: u8, timestampNs: u64)
    requires Reportable(ctx)
    ensures Decode(ctx, dir, timestampNs)
            == Some(NetworkFlowEvent(timestampNs, 0, ToU32(ctx.data[26..30]), ToU32(ctx.data[30..34]),
                                     PortsAt(ctx).0, PortsAt(ctx).1, ctx.data[23], dir, ctx.len % 0x1_0000))
  {
    assert PtrAt(ctx, 12, 2) == Some(ctx.data[12..14]) && PtrAt(ctx, 14, 1) == Some(ctx.data[14..15]);
    assert PtrAt(ctx, 23, 1) == Some(ctx.data[23..24]);
    assert PtrAt(ctx, 26, 4) == Some(ctx.data[26..30]) && PtrAt(ctx, 30, 4) == Some(ctx.data[30..34]);
    PortsRead(ctx);
  }

  lemma PortsRead(ctx: Context)
    requires Reportable(ctx)
    ensures ReadPorts(ctx, ctx.data[23], 14 + 4 * (ctx.data[14] % 0x10)) == Some(PortsAt(ctx))
  {
    var at := 14 + 4 * (ctx.data[14] % 0x10);
    if HasPorts(ctx.data[23]) {
      assert PtrAt(ctx, at, 2) == Some(ctx.data[at..at + 2]);
      assert PtrAt(ctx, at + 2, 2) == Some(ctx.data[at + 2..at + 4]);
    }
  }

  // ---------- Packets laid out byte by byte ----------

  /** What follows the IP header: ports and the rest of a TCP or UDP segment, or any bytes. */
  datatype Transport = Segment(srcPort: u16, dstPort: u16, rest: seq<u8>) | Payload(bytes: seq<u8>)

  function TailOf(transport: Transport): seq<u8> {
    match transport
    case Segment(s, d, rest) => [s / 0x100, s % 0x100, d / 0x100, d % 0x100] + rest
    case Payload(bytes) => bytes
  }

  /** An Ethernet frame holding an IPv4 packet (section 3.1 of RFC 791). `before` is what lies
      between the first header byte and the protocol, `after` the checksum. */
  datatype Frame = Frame(
    macs: seq<u8>,
    version: nat,
    before: seq<u8>,
    protocol: u8,
    checksum: seq<u8>,
    source: seq<u8>,
    destination: seq<u8>,
    options: seq<u8>,
    transport: Transport)
  {
    function Words(): nat { 5 + |options| / 4 }

    predicate WellFormed() {
      && |macs| == 12 && version < 0x10 && |before| == 8 && |checksum| == 2
      && |source| == 4 && |destination| == 4
      && |options| % 4 == 0 && |options| <= 40
      && (transport.Segment? <==> protocol == 6 || protocol == 17)
    }

    /** The fixed 34 bytes up to the options. */
    function Head(): seq<u8>
      requires WellFormed()
    {
      macs + [0x08, 0x00] + [0x10 * version + Words()] + before + [protocol] + checksum + source + destination
    }

    function Tail(): seq<u8> { TailOf(transport) }

    function Layout(): seq<u8>
      requires WellFormed()
    {
      Head() + options + Tail()
    }

    /** How much of the frame the probe needs to see. */
    function Needed(): nat { if transport.Segment? then 14 + 4 * Words() + 4 else 34 }

    function SrcPort(): u16 { if transport.Segment? then transport.srcPort else 0 }

    function DstPort(): u16 { if transport.Segment? then transport.dstPort else 0 }
  }

  lemma HeadFields(f: Frame)
    requires f.WellFormed()
    ensures var h := f.Head();
            && |h| == 34 && h[12] == 0x08 && h[13] == 0x00 && h[14] == 0x10 * f.version + f.Words()
            && h[23] == f.protocol && h[26..30] == f.source && h[30..34] == f.destination
  {
  }

  lemma TailFields(f: Frame)
    requires f.WellFormed() && f.transport.Segment?
    ensures var t, at := f.Layout(), 14 + 4 * f.Words();
            && |t| >= at + 4
            && BigEndian16(t[at], t[at + 1]) == f.transport.srcPort
            && BigEndian16(t[at + 2], t[at + 3]) == f.transport.dstPort
  {
    HeadFields(f);
    var at := 14 + 4 * f.Words();
    assert |f.Head() + f.options| == at;
    forall i | 0 <= i < 4 ensures f.Layout()[at + i] == f.Tail()[i] {
    }
  }

  lemma FrameIsReportable(f: Frame, visible: nat, ctx: Context)
    requires f.WellFormed() && f.Needed() <= visible <= |f.Layout()| && ctx.len >= 34
    requires ctx.data == f.Layout()[..visible]
    ensures Reportable(ctx) && PortsAt(ctx) == (f.SrcPort(), f.DstPort()) && ctx.data[23] == f.protocol
    ensures ctx.data[26..30] == f.source && ctx.data[30..34] == f.destination
  {
    HeadFields(f);
    assert ctx.data[..34] == f.Head();
    assert ctx.data[26..30] == f.Head()[26..30] && ctx.data[30..34] == f.Head()[30..34];
    assert ctx.data[14] % 0x10 == f.Words();
    if f.transport.Segment? {
      TailFields(f);
    }
  }

  /** The probe reads back exactly what was laid out, for every header length, however much
      of the frame beyond the ports is visible. */
  lemma DecodeUndoesLayout(f: Frame, visible: nat, len: u32, dir: u8, timestampNs: u64)
    requires f.WellFormed() && f.Needed() <= visible <= |f.Layout()| && len >= 34
    ensures Decode(Context(f.Layout()[..visible], len), dir, timestampNs)
            == Some(NetworkFlowEvent(timestampNs, 0, ToU32(f.source), ToU32(f.destination),
                                     f.SrcPort(), f.DstPort(), f.protocol, dir, len % 0x1_0000))
  {
    var ctx := Context(f.Layout()[..visible], len);
    FrameIsReportable(f, visible, ctx);
    ReportedFields(ctx, dir, timestampNs);
  }

  /** The frame a reportable packet is the layout of. */
  function FrameOf(ctx: Context): Frame
    requires Reportable(ctx) && |ctx.data| >= 14 + 4 * (ctx.data[14] % 0x10)
  {
    var d := ctx.data;
    var at := 14 + 4 * (d[14] % 0x10);
    Frame(d[..12], d[14] / 0x10, d[15..23], d[23], d[24..26], d[26..30], d[30..34], d[34..at],
          if HasPorts(d[23]) then Segment(BigEndian16(d[at], d[at + 1]), BigEndian16(d[at + 2], d[at + 3]), d[at + 4..])
          else Payload(d[at..]))
  }

  lemma HeadRebuilt(d: seq<u8>, f: Frame)
    requires |d| >= 34 && d[12] == 0x08 && d[13] == 0x00 && f.WellFormed()
    requires f.macs == d[..12] && 0x10 * f.version + f.Words() == d[14] && f.before == d[15..23]
    requires f.protocol == d[23] && f.checksum == d[24..26] && f.source == d[26..30] && f.destination == d[30..34]
    ensures f.Head() == d[..34]
  {
  }

  lemma TailRebuilt(d: seq<u8>, at: nat)
    requires at + 4 <= |d|
    ensures TailOf(Segment(BigEndian16(d[at], d[at + 1]), BigEndian16(d[at + 2], d[at + 3]), d[at + 4..])) == d[at..]
  {
  }

  /** Conversely, every packet the probe reports whose IP header is wholly visible is the
      layout of a well-formed frame. */
  lemma LayoutUndoesDecode(ctx: Context)
    requires Reportable(ctx) && |ctx.data| >= 14 + 4 * (ctx.data[14] % 0x10)
    ensures FrameOf(ctx).WellFormed() && FrameOf(ctx).Layout() == ctx.data
  {
    var d, f := ctx.data, FrameOf(ctx);
    var at := 14 + 4 * (d[14] % 0x10);
    assert |f.options| == at - 34 && f.Words() == d[14] % 0x10;
    HeadRebuilt(d, f);
    if HasPorts(d[23]) {
      TailRebuilt(d, at);
    }
    assert d == d[..34] + d[34..at] + d[at..];
  }
}
