/** Little-endian and big-endian numbers as byte sequences. */
module Bytes {
  import opened Common

  function Pow256(n: nat): (p: nat)
    ensures p >= 1
  {
    if n == 0 then 1 else 0x100 * Pow256(n - 1)
  }

  /** The `n` bytes of `x`, lowest first. */
  function LeBytes(x: nat, n: nat): (b: seq<u8>)
    ensures |b| == n
  {
    if n == 0 then [] else [x % 0x100] + LeBytes(x / 0x100, n - 1)
  }

  function LeValue(b: seq<u8>): nat {
    if b == [] then 0 else b[0] as nat + 0x100 * LeValue(b[1..])
  }

  lemma {:induction false} LeValueBound(b: seq<u8>)
    ensures LeValue(b) < Pow256(|b|)
  {
    if b != [] {
      LeValueBound(b[1..]);
    }
  }

  lemma {:induction false} BytesOfValue(b: seq<u8>)
    ensures LeBytes(LeValue(b), |b|) == b
  {
    if b != [] {
      BytesOfValue(b[1..]);
      assert LeValue(b) % 0x100 == b[0] && LeValue(b) / 0x100 == LeValue(b[1..]);
      assert b == [b[0]] + b[1..];
    }
  }

  lemma {:induction false} ValueOfBytes(x: nat, n: nat)
    requires x < Pow256(n)
    ensures LeValue(LeBytes(x, n)) == x
  {
    if n > 0 {
      ValueOfBytes(x / 0x100, n - 1);
    }
  }

  lemma Widths()
    ensures Pow256(1) == 0x100 && Pow256(2) == 0x1_0000 && Pow256(4) == 0x1_0000_0000
    ensures Pow256(8) == 0x1_0000_0000_0000_0000
  {
    assert Pow256(3) == 0x100_0000 && Pow256(4) == 0x1_0000_0000;
    assert Pow256(5) == 0x100_0000_0000 && Pow256(6) == 0x1_0000_0000_0000;
    assert Pow256(7) == 0x100_0000_0000_0000;
  }

  function ToU16(b: seq<u8>): u16
    requires |b| == 2
  {
    LeValueBound(b);
    Widths();
    LeValue(b)
  }

  function ToU32(b: seq<u8>): u32
    requires |b| == 4
  {
    LeValueBound(b);
    Widths();
    LeValue(b)
  }

  function ToU64(b: seq<u8>): u64
    requires |b| == 8
  {
    LeValueBound(b);
    Widths();
    LeValue(b)
  }

  /** Network order: the first byte is the high one. */
  function BigEndian16(hi: u8, lo: u8): u16 {
    0x100 * (hi as nat) + lo
  }
}
