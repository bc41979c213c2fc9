/** Value types shared by every component: machine integers, the event record that
    travels from the kernel probe to the agent, and an Option type. */
module Common {

  type u8 = x: int | 0 <= x < 0x100
  type u16 = x: int | 0 <= x < 0x1_0000
  type u32 = x: int | 0 <= x < 0x1_0000_0000
  type u64 = x: int | 0 <= x < 0x1_0000_0000_0000_0000

  datatype Option<+T> = None | Some(value: T) {
    predicate IsFailure() { None? }

    function PropagateFailure<U>(): Option<U>
      requires None?
    {
      None
    }

    function Extract(): T
      requires Some?
    {
      value
    }
  }

  // Traffic direction and IP protocol numbers.
  const INGRESS: u8 := 0
  const EGRESS: u8 := 1
  const TCP: u8 := 6
  const UDP: u8 := 17

  datatype NetworkFlowEvent = NetworkFlowEvent(
    timestampNs: u64,
    cgroupId: u64,
    srcIp: u32,
    dstIp: u32,
    srcPort: u16,
    dstPort: u16,
    protocol: u8,
    direction: u8,
    packetLen: u16)

  function Min(a: int, b: int): int { if a <= b then a else b }

  function Max(a: int, b: int): int { if a >= b then a else b }

  lemma ConcatAssociates<T>(a: seq<T>, b: seq<T>, c: seq<T>)
    ensures (a + b) + c == a + (b + c)
  {
  }
}
