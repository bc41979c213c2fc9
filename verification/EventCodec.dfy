/** The 32-byte record that carries an event through the ring buffer: fields in declaration
    order, little-endian, without padding. */
module EventCodec {
  import opened Bytes
  import opened Common

  const RECORD_SIZE: nat := 32

  function Encode(e: NetworkFlowEvent): (b: seq<u8>)
    ensures |b| == RECORD_SIZE
  {
    LeBytes(e.timestampNs, 8) + LeBytes(e.cgroupId, 8) + LeBytes(e.srcIp, 4) + LeBytes(e.dstIp, 4)
    + LeBytes(e.srcPort, 2) + LeBytes(e.dstPort, 2) + [e.protocol, e.direction] + LeBytes(e.packetLen, 2)
  }

  function ReadRecord(b: seq<u8>): NetworkFlowEvent
    requires |b| == RECORD_SIZE
  {
    NetworkFlowEvent(ToU64(b[0..8]), ToU64(b[8..16]), ToU32(b[16..20]), ToU32(b[20..24]),
                     ToU16(b[24..26]), ToU16(b[26..28]), b[28], b[29], ToU16(b[30..32]))
  }

  lemma RecordFields(e: NetworkFlowEvent)
    ensures var b := Encode(e);
            && b[0..8] == LeBytes(e.timestampNs, 8) && b[8..16] == LeBytes(e.cgroupId, 8)
            && b[16..20] == LeBytes(e.srcIp, 4) && b[20..24] == LeBytes(e.dstIp, 4)
            && b[24..26] == LeBytes(e.srcPort, 2) && b[26..28] == LeBytes(e.dstPort, 2)
            && b[28] == e.protocol && b[29] == e.direction && b[30..32] == LeBytes(e.packetLen, 2)
  {
  }

  /** What the probe writes is what the agent reads. */
  lemma ReadUndoesEncode(e: NetworkFlowEvent)
    ensures ReadRecord(Encode(e)) == e
  {
    RecordFields(e);
    Widths();
    ValueOfBytes(e.timestampNs, 8);
    ValueOfBytes(e.cgroupId, 8);
    ValueOfBytes(e.srcIp, 4);
    ValueOfBytes(e.dstIp, 4);
    ValueOfBytes(e.srcPort, 2);
    ValueOfBytes(e.dstPort, 2);
    ValueOfBytes(e.packetLen, 2);
  }
}
