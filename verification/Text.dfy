/** The string operations the agent takes from its standard library: splitting on a
    character, searching, prefixes and suffixes, decimal numerals. */
module Text {
  import opened Common

  // ---------- Splitting and joining ----------

  /** The pieces of `s` between occurrences of `c`; always at least one. */
  function Split(s: string, c: char): (parts: seq<string>)
    ensures |parts| >= 1
  {
    if s == "" then [""]
    else
      var rest := Split(s[1..], c);
      if s[0] == c then [""] + rest else [[s[0]] + rest[0]] + rest[1..]
  }

  function Join(parts: seq<string>, c: char): string
    requires |parts| >= 1
  {
    if |parts| == 1 then parts[0] else parts[0] + [c] + Join(parts[1..], c)
  }

  lemma {:induction false} SplitHasNoSeparator(s: string, c: char)
    ensures forall p | p in Split(s, c) :: c !in p
  {
    if s != "" {
      SplitHasNoSeparator(s[1..], c);
      var rest := Split(s[1..], c);
      forall p | p in Split(s, c) ensures c !in p {
        assert rest[0] in rest;
        assert p in rest || p == "" || (s[0] != c && p == [s[0]] + rest[0]);
      }
    }
  }

  lemma JoinLonger(first: char, parts: seq<string>, c: char)
    requires parts != []
    ensures Join([[first] + parts[0]] + parts[1..], c) == [first] + Join(parts, c)
  {
    var longer := [[first] + parts[0]] + parts[1..];
    assert longer[1..] == parts[1..];
    if |parts| > 1 {
      assert Join(longer, c) == [first] + (parts[0] + [c] + Join(parts[1..], c));
    }
  }

  lemma {:induction false} JoinSplit(s: string, c: char)
    ensures Join(Split(s, c), c) == s
  {
    if s != "" {
      var rest := Split(s[1..], c);
      JoinSplit(s[1..], c);
      if s[0] == c {
        assert ([""] + rest)[1..] == rest;
        assert s == [c] + s[1..];
      } else {
        JoinLonger(s[0], rest, c);
        assert s == [s[0]] + s[1..];
      }
    }
  }

  /** A separator-free head is split off whole. */
  lemma {:induction false} SplitHead(head: string, tail: string, c: char)
    requires c !in head
    ensures Split(head + [c] + tail, c) == [head] + Split(tail, c)
  {
    if head == "" {
      assert head + [c] + tail == [c] + tail;
    } else {
      var s := head + [c] + tail;
      assert s[1..] == head[1..] + [c] + tail;
      SplitHead(head[1..], tail, c);
      assert [s[0]] + head[1..] == head;
    }
  }

  lemma {:induction false} SplitNone(s: string, c: char)
    requires c !in s
    ensures Split(s, c) == [s]
  {
    if s != "" {
      SplitNone(s[1..], c);
      assert [s[0]] + s[1..] == s;
    }
  }

  lemma {:induction false} SplitJoin(parts: seq<string>, c: char)
    requires |parts| >= 1 && forall p | p in parts :: c !in p
    ensures Split(Join(parts, c), c) == parts
  {
    if |parts| == 1 {
      SplitNone(parts[0], c);
    } else {
      SplitJoin(parts[1..], c);
      SplitHead(parts[0], Join(parts[1..], c), c);
    }
  }

  // ---------- Decimal numerals ----------

  predicate IsDigit(c: char) { '0' <= c <= '9' }

  predicate AllDigits(s: string) { forall c | c in s :: IsDigit(c) }

  function DigitChar(d: nat): (c: char)
    requires d < 10
    ensures IsDigit(c)
  {
    (d + '0' as int) as char
  }

  /** The decimal numeral of `n`, without leading zeros. */
  function Decimal(n: nat): (s: string)
    ensures s != "" && AllDigits(s)
  {
    if n < 10 then [DigitChar(n)] else Decimal(n / 10) + [DigitChar(n % 10)]
  }

  function DigitValue(c: char): (d: nat)
    requires IsDigit(c)
    ensures d < 10 && DigitChar(d) == c
  {
    c as int - '0' as int
  }

  function Value(s: string): nat
    requires AllDigits(s)
  {
    if s == "" then 0 else Value(s[..|s| - 1]) * 10 + DigitValue(s[|s| - 1])
  }

  /** A numeral as `Decimal` prints it. */
  predicate IsNumeral(s: string) {
    s != "" && AllDigits(s) && (|s| == 1 || s[0] != '0')
  }

  lemma {:induction false} ValueOfDecimal(n: nat)
    ensures IsNumeral(Decimal(n)) && Value(Decimal(n)) == n
    ensures n > 0 ==> Decimal(n)[0] != '0'
  {
    if n < 10 {
      assert Value("") == 0;
      assert Decimal(n)[..0] == "";
    } else {
      ValueOfDecimal(n / 10);
      assert Decimal(n)[..|Decimal(n)| - 1] == Decimal(n / 10);
      assert DigitValue(DigitChar(n % 10)) == n % 10;
    }
  }

  lemma {:induction false} DecimalOfValue(s: string)
    requires IsNumeral(s)
    ensures Decimal(Value(s)) == s
    ensures s[0] != '0' ==> Value(s) > 0
  {
    if |s| == 1 {
      assert s[..0] == "";
    } else {
      var t := s[..|s| - 1];
      assert t[0] == s[0];
      DecimalOfValue(t);
      var d := DigitValue(s[|s| - 1]);
      assert Value(s) / 10 == Value(t) && Value(s) % 10 == d;
      assert s == t + [s[|s| - 1]];
    }
  }

  const DIGITS: string := "0123456789"

  lemma DigitsInOrder(d: nat)
    requires d < 10
    ensures DigitChar(d) == DIGITS[d] && DigitValue(DIGITS[d]) == d
  {
  }

  /** A number prints as its digits, highest first, in base ten with the usual ten glyphs. */
  lemma DecimalInGlyphs(n: nat)
    ensures n < 10 ==> Decimal(n) == [DIGITS[n]]
    ensures n >= 10 ==> Decimal(n) == Decimal(n / 10) + [DIGITS[n % 10]]
  {
  }

  /** One more digit: ten times the value so far, plus what the glyph stands for. */
  lemma ValueInGlyphs(s: string, d: nat)
    requires AllDigits(s) && d < 10
    ensures AllDigits(s + [DIGITS[d]]) && Value(s + [DIGITS[d]]) == 10 * Value(s) + d
  {
    assert (s + [DIGITS[d]])[..|s|] == s;
  }

  // ---------- Searching and replacing ----------

  predicate StartsWith(s: string, p: string) { p <= s }

  predicate EndsWith(s: string, p: string) { |p| <= |s| && s[|s| - |p|..] == p }

  function StripPrefix(s: string, p: string): Option<string> {
    if StartsWith(s, p) then Some(s[|p|..]) else None
  }

  function StripSuffix(s: string, p: string): Option<string> {
    if EndsWith(s, p) then Some(s[..|s| - |p|]) else None
  }

  /** The first position at which `p` occurs in `s`. */
  function Find(s: string, p: string): (r: Option<nat>)
    ensures r.Some? ==> r.value + |p| <= |s| && p <= s[r.value..]
  {
    if StartsWith(s, p) then Some(0)
    else if s == "" then None
    else match Find(s[1..], p)
         case None => None
         case Some(i) => Some(i + 1)
  }

  lemma {:induction false} FindFirst(s: string, p: string, k: nat)
    requires k <= |s| && p <= s[k..]
    requires forall i | 0 <= i < k :: !(p <= s[i..])
    ensures Find(s, p) == Some(k)
  {
    if k > 0 {
      assert s[0..] == s;
      assert s[1..][k - 1..] == s[k..];
      forall i | 0 <= i < k - 1 ensures !(p <= s[1..][i..]) {
        assert s[1..][i..] == s[i + 1..];
      }
      FindFirst(s[1..], p, k - 1);
    }
  }

  lemma {:induction false} FoundIsFirst(s: string, p: string)
    requires Find(s, p).Some?
    ensures forall i | 0 <= i < Find(s, p).value :: !(p <= s[i..])
  {
    if !StartsWith(s, p) {
      FoundIsFirst(s[1..], p);
      forall i | 0 <= i < Find(s, p).value ensures !(p <= s[i..]) {
        assert i == 0 ==> s[i..] == s;
        assert i > 0 ==> s[i..] == s[1..][i - 1..];
      }
    }
  }

  lemma {:induction false} NotFoundIsAbsent(s: string, p: string)
    requires Find(s, p).None?
    ensures forall i | 0 <= i <= |s| :: !(p <= s[i..])
  {
    if s != "" {
      NotFoundIsAbsent(s[1..], p);
      forall i | 0 <= i <= |s| ensures !(p <= s[i..]) {
        assert i == 0 ==> s[i..] == s;
        assert i > 0 ==> s[i..] == s[1..][i - 1..];
      }
    } else {
      assert s[0..] == s;
    }
  }

  function ReplaceChar(s: string, a: char, b: char): (r: string)
    ensures |r| == |s|
  {
    seq(|s|, i requires 0 <= i < |s| => if s[i] == a then b else s[i])
  }

  function TrimEnd(s: string, c: char): string {
    if s != "" && s[|s| - 1] == c then TrimEnd(s[..|s| - 1], c) else s
  }

  lemma AffixesStrip(p: string, s: string, q: string)
    ensures StartsWith(p + s + q, p) && EndsWith(p + s + q, q)
    ensures StripPrefix(p + s + q, p) == Some(s + q)
    ensures StripSuffix(s + q, q) == Some(s)
  {
    assert (p + s + q)[|p|..] == s + q;
    assert (s + q)[|s|..] == q;
    assert (s + q)[..|s|] == s;
    assert (p + s + q)[|p + s|..] == q;
  }
}
