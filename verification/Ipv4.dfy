/** IPv4 addresses as 32-bit numbers with the first octet in the lowest byte, and their
    dotted text. */
module Ipv4 {
  import opened Common
  import opened Bytes
  import opened Text

  /** The four octets in the order they are written and travel. */
  function Octets(ip: u32): (b: seq<u8>)
    ensures |b| == 4
  {
    LeBytes(ip, 4)
  }

  lemma OctetsDetermineAddress(ip: u32)
    ensures ToU32(Octets(ip)) == ip
  {
    Widths();
    ValueOfBytes(ip, 4);
  }

  /** Rust's `str::parse::<u8>`: an optional plus sign, then digits, within range. */
  function ParseU8(s: string): Option<u8> {
    var t := if s != "" && s[0] == '+' then s[1..] else s;
    if t != "" && AllDigits(t) && Value(t) < 0x100 then Some(Value(t)) else None
  }

  /** A part parses to a number below 256 exactly when it is decimal digits for it, with or
      without a plus sign; leading zeros do no harm. */
  lemma PartParsesIff(s: string, v: u8)
    ensures ParseU8(s) == Some(v) <==> exists digits ::
              (s == digits || s == "+" + digits) && digits != "" && AllDigits(digits) && Value(digits) == v
  {
    if ParseU8(s) == Some(v) {
      var digits := if s[0] == '+' then s[1..] else s;
      assert s == digits || s == "+" + digits;
    }
    if digits :| (s == digits || s == "+" + digits) && digits != "" && AllDigits(digits) && Value(digits) == v {
      assert IsDigit(digits[0]);
      assert ("+" + digits)[1..] == digits;
    }
  }

  lemma OctetsByArithmetic(ip: u32)
    ensures Octets(ip) == [ip % 0x100, ip / 0x100 % 0x100, ip / 0x1_0000 % 0x100, ip / 0x100_0000]
  {
    assert Octets(ip) == [ip % 0x100] + LeBytes(ip / 0x100, 3);
    assert LeBytes(ip / 0x100, 3) == [ip / 0x100 % 0x100] + LeBytes(ip / 0x1_0000, 2);
    assert LeBytes(ip / 0x1_0000, 2) == [ip / 0x1_0000 % 0x100] + LeBytes(ip / 0x100_0000, 1);
    assert LeBytes(ip / 0x100_0000, 1) == [ip / 0x100_0000] + LeBytes(0, 0);
  }

  lemma JoinFour(a: string, b: string, c: string, d: string)
    ensures Join([a, b, c, d], '.') == a + "." + b + "." + c + "." + d
  {
    assert [a, b, c, d][1..] == [b, c, d] && [b, c, d][1..] == [c, d] && [c, d][1..] == [d];
    assert Join([c, d], '.') == c + "." + d;
    assert Join([b, c, d], '.') == b + "." + (c + "." + d);
    assert a + "." + (b + "." + (c + "." + d)) == a + "." + b + "." + c + "." + d;
  }

  /** The printed text is the four bytes of the address in decimal, lowest first. */
  lemma FormatShowsBytes(ip: u32)
    ensures FormatIpv4(ip) == Decimal(ip % 0x100) + "." + Decimal(ip / 0x100 % 0x100) + "."
                              + Decimal(ip / 0x1_0000 % 0x100) + "." + Decimal(ip / 0x100_0000)
  {
    var b := Octets(ip);
    OctetsByArithmetic(ip);
    JoinFour(Decimal(b[0]), Decimal(b[1]), Decimal(b[2]), Decimal(b[3]));
  }

  function Parsed(part: string): seq<u8> {
    match ParseU8(part)
    case Some(v) => [v]
    case None => []
  }

  /** The values of the parts that parse; the others are dropped. */
  function ParsedParts(parts: seq<string>): seq<u8> {
    if parts == [] then [] else Parsed(parts[0]) + ParsedParts(parts[1..])
  }

  function ParseIpv4(s: string): Option<u32> {
    var parts := ParsedParts(Split(s, '.'));
    if |parts| == 4 then Some(ToU32(parts)) else None
  }

  function FormatIpv4(ip: u32): string {
    Join(OctetTexts(ip), '.')
  }

  function OctetTexts(ip: u32): (t: seq<string>)
    ensures |t| == 4
  {
    var b := Octets(ip);
    [Decimal(b[0]), Decimal(b[1]), Decimal(b[2]), Decimal(b[3])]
  }

  predicate AreOctets(parts: seq<string>) {
    forall i | 0 <= i < |parts| :: IsNumeral(parts[i]) && Value(parts[i]) < 0x100
  }

  /** Exactly four dotted numerals, none above 255, without signs or leading zeros. */
  predicate IsDottedQuad(s: string) {
    var parts := Split(s, '.');
    |parts| == 4 && AreOctets(parts)
  }

  lemma ParseNumeral(s: string)
    requires IsNumeral(s) && Value(s) < 0x100
    ensures ParseU8(s) == Some(Value(s))
  {
    assert IsDigit(s[0]);
  }

  lemma ParseFour(parts: seq<string>)
    requires |parts| == 4 && AreOctets(parts)
    ensures |ParsedParts(parts)| == 4 && forall i | 0 <= i < 4 :: ParsedParts(parts)[i] == Value(parts[i])
  {
    var p0, p1, p2, p3 := parts[0], parts[1], parts[2], parts[3];
    ParseNumeral(p0);
    ParseNumeral(p1);
    ParseNumeral(p2);
    ParseNumeral(p3);
    assert parts == [p0] + [p1] + [p2] + [p3];
    ParsedPartsAppend([p0] + [p1] + [p2], [p3]);
    ParsedPartsAppend([p0] + [p1], [p2]);
    ParsedPartsAppend([p0], [p1]);
  }

  lemma SplitFormat(ip: u32)
    ensures Split(FormatIpv4(ip), '.') == OctetTexts(ip)
    ensures IsDottedQuad(FormatIpv4(ip))
    ensures forall i | 0 <= i < 4 :: Value(OctetTexts(ip)[i]) == Octets(ip)[i]
  {
    forall i | 0 <= i < 4 ensures IsNumeral(OctetTexts(ip)[i]) && Value(OctetTexts(ip)[i]) == Octets(ip)[i] {
      ValueOfDecimal(Octets(ip)[i]);
    }
    SplitJoin(OctetTexts(ip), '.');
  }

  /** Printing then parsing gives the address back, for every 32-bit address. */
  lemma ParseUndoesFormat(ip: u32)
    ensures ParseIpv4(FormatIpv4(ip)) == Some(ip)
  {
    SplitFormat(ip);
    ParseFour(OctetTexts(ip));
    OctetsDetermineAddress(ip);
    assert ParsedParts(OctetTexts(ip)) == Octets(ip);
  }

  lemma FormatIsInjective(a: u32, b: u32)
    requires FormatIpv4(a) == FormatIpv4(b)
    ensures a == b
  {
    ParseUndoesFormat(a);
    ParseUndoesFormat(b);
  }

  /** Parsing then printing gives the text back exactly when it is a dotted quad. */
  lemma FormatUndoesParse(s: string)
    ensures IsDottedQuad(s) <==> ParseIpv4(s).Some? && FormatIpv4(ParseIpv4(s).value) == s
  {
    var parts := Split(s, '.');
    if IsDottedQuad(s) {
      ParseFour(parts);
      var b := ParsedParts(parts);
      BytesOfValue(b);
      forall i | 0 <= i < 4 ensures Decimal(b[i]) == parts[i] {
        DecimalOfValue(parts[i]);
      }
      assert OctetTexts(ToU32(b)) == parts;
      JoinSplit(s, '.');
    } else if ParseIpv4(s).Some? {
      SplitFormat(ParseIpv4(s).value);
    }
  }

  lemma {:induction false} ParsedPartsAppend(a: seq<string>, b: seq<string>)
    ensures ParsedParts(a + b) == ParsedParts(a) + ParsedParts(b)
  {
    if a == [] {
      assert a + b == b;
    } else {
      ParsedPartsAppend(a[1..], b);
      assert (a + b)[1..] == a[1..] + b;
      ConcatAssociates(Parsed(a[0]), ParsedParts(a[1..]), ParsedParts(b));
    }
  }

  /** What the parser does with text that is not an address: a part that is no number below
      256 is skipped as if it were not there, so "10.0.x.0.5" is read as 10.0.0.5. */
  lemma MalformedPartsAreSkipped(a: seq<string>, bad: string, b: seq<string>)
    requires |a + b| >= 1 && ParseU8(bad) == None
    requires forall p | p in a + [bad] + b :: '.' !in p
    ensures ParseIpv4(Join(a + [bad] + b, '.')) == ParseIpv4(Join(a + b, '.'))
  {
    SplitJoin(a + [bad] + b, '.');
    assert forall p | p in a + b :: p in a + [bad] + b;
    SplitJoin(a + b, '.');
    SkipMalformed(a, bad, b);
  }

  /** A text that is no address, made of one that is and a part that is no number, is taken for
      that address wherever the part stands. */
  lemma MalformedTextIsAccepted(a: seq<string>, bad: string, b: seq<string>)
    requires |a + b| >= 1 && IsDottedQuad(Join(a + b, '.')) && ParseU8(bad) == None
    requires forall p | p in a + [bad] + b :: '.' !in p
    ensures !IsDottedQuad(Join(a + [bad] + b, '.'))
    ensures ParseIpv4(Join(a + [bad] + b, '.')).Some?
    ensures FormatIpv4(ParseIpv4(Join(a + [bad] + b, '.')).value) == Join(a + b, '.')
  {
    MalformedPartsAreSkipped(a, bad, b);
    FormatUndoesParse(Join(a + b, '.'));
    SplitJoin(a + [bad] + b, '.');
    assert forall p | p in a + b :: p in a + [bad] + b;
    SplitJoin(a + b, '.');
  }

  lemma ExampleTexts()
    ensures Join(["10", "0", "0", "5"], '.') == "10.0.0.5"
    ensures Join(["10", "0", "x", "0", "5"], '.') == "10.0.x.0.5"
  {
    assert Join(["0", "5"], '.') == "0.5";
    assert Join(["0", "0", "5"], '.') == "0.0.5";
    assert Join(["x", "0", "5"], '.') == "x.0.5";
    assert Join(["0", "x", "0", "5"], '.') == "0.x.0.5";
  }

  lemma ExampleParts(parts: seq<string>)
    requires parts == ["10", "0", "0", "5"]
    ensures AreOctets(parts) && ParsedParts(parts) == [10, 0, 0, 5]
  {
    assert Value("1") == 1 && Value("10") == 10 && Value("0") == 0 && Value("5") == 5;
    ParseFour(parts);
  }

  lemma MalformedExample()
    ensures !IsDottedQuad("10.0.x.0.5") && ParseIpv4("10.0.x.0.5") == Some(ToU32([10, 0, 0, 5])) == ParseIpv4("10.0.0.5")
  {
    var a, b, parts := ["10", "0"], ["0", "5"], ["10", "0", "0", "5"];
    ExampleTexts();
    ExampleParts(parts);
    assert a + b == parts && a + ["x"] + b == ["10", "0", "x", "0", "5"];
    SplitJoin(parts, '.');
    assert ParseU8("x") == None;
    MalformedTextIsAccepted(a, "x", b);
    MalformedPartsAreSkipped(a, "x", b);
  }

  lemma SkipMalformed(a: seq<string>, bad: string, b: seq<string>)
    requires ParseU8(bad) == None
    ensures ParsedParts(a + [bad] + b) == ParsedParts(a + b)
  {
    ParsedPartsAppend(a + [bad], b);
    ParsedPartsAppend(a, [bad]);
    ParsedPartsAppend(a, b);
    assert ParsedParts([bad]) == Parsed(bad) + ParsedParts([]) == [];
    assert ParsedParts(a) + [] == ParsedParts(a);
  }

  // ---------- Self-traffic ----------

  predicate IsSelfTraffic(e: NetworkFlowEvent, grpcPort: u16, localIps: set<u32>) {
    if localIps == {} then e.srcPort == grpcPort || e.dstPort == grpcPort
    else (e.srcPort == grpcPort && e.srcIp in localIps) || (e.dstPort == grpcPort && e.dstIp in localIps)
  }

  /** An endpoint of the agent itself: its port, at a local address where those are known. */
  predicate IsOwnEndpoint(ip: u32, port: u16, grpcPort: u16, localIps: set<u32>) {
    port == grpcPort && (localIps == {} || ip in localIps)
  }

  /** The agent itself is at one end of the event. */
  predicate HasOwnEndpoint(e: NetworkFlowEvent, grpcPort: u16, localIps: set<u32>) {
    IsOwnEndpoint(e.srcIp, e.srcPort, grpcPort, localIps) || IsOwnEndpoint(e.dstIp, e.dstPort, grpcPort, localIps)
  }
}
