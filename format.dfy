/** Decimal rendering and the two identifier formats of the structure
    builder: `block_id` (`f"block_{i}"`) and `chunk_id`
    (`f"page_{page}_section_{section_id}_{index:03d}"`). */
module Format {
  import opened PyStr

  function DigitChar(d: nat): (c: char)
    requires d < 10
    ensures IsDigit(c)
  {
    ('0' as int + d) as char
  }

  function DigitValue(c: char): (d: nat)
    requires IsDigit(c)
    ensures d < 10
  {
    c as int - '0' as int
  }

  /** `str(n)` for a natural number. */
  function NatToString(n: nat): (r: string)
    ensures r != [] && AllDigits(r)
    decreases n
  {
    if n < 10 then [DigitChar(n)] else NatToString(n / 10) + [DigitChar(n % 10)]
  }

  /** `str(i)` for any integer: a minus sign before the digits of a negative one. */
  function IntToString(i: int): (r: string)
    ensures '_' !in r
  {
    if i < 0 then "-" + NatToString(-i) else NatToString(i)
  }

  function Zeros(k: nat): (r: string)
    ensures |r| == k && AllDigits(r)
  {
    seq(k, _ => '0')
  }

  /** `f"{n:03d}"` for n >= 0: the decimal digits, left-padded with zeros to
      at least three. */
  function Pad3(n: nat): (r: string)
    ensures |r| >= 3 && AllDigits(r)
  {
    var s := NatToString(n);
    if |s| >= 3 then s else Zeros(3 - |s|) + s
  }

  /** The number a string of decimal digits denotes (leading zeros allowed). */
  function DecimalValue(s: string): nat
    requires AllDigits(s)
  {
    if s == [] then 0 else 10 * DecimalValue(s[..|s| - 1]) + DigitValue(s[|s| - 1])
  }

  lemma {:induction false} DecimalRoundTrip(n: nat)
    ensures DecimalValue(NatToString(n)) == n
    decreases n
  {
    if n >= 10 {
      var s := NatToString(n);
      assert s[..|s| - 1] == NatToString(n / 10);
      DecimalRoundTrip(n / 10);
    }
  }

  /** Leading zeros do not change the value of a digit string. */
  lemma {:induction false} LeadingZeros(k: nat, s: string)
    requires AllDigits(s)
    ensures DecimalValue(Zeros(k) + s) == DecimalValue(s)
    decreases |s|
  {
    if s == [] {
      ZerosValue(k);
      assert Zeros(k) + s == Zeros(k);
    } else {
      var t := Zeros(k) + s;
      assert t[..|t| - 1] == Zeros(k) + s[..|s| - 1];
      LeadingZeros(k, s[..|s| - 1]);
    }
  }

  lemma {:induction false} ZerosValue(k: nat)
    ensures DecimalValue(Zeros(k)) == 0
  {
    if k > 0 {
      assert Zeros(k)[..k - 1] == Zeros(k - 1);
      ZerosValue(k - 1);
    }
  }

  /** The padded counter still reads back as the counter. */
  lemma PadRoundTrip(n: nat)
    ensures DecimalValue(Pad3(n)) == n
  {
    var s := NatToString(n);
    DecimalRoundTrip(n);
    if |s| < 3 {
      LeadingZeros(3 - |s|, s);
    }
  }

  lemma IntToStringInjective(a: int, b: int)
    requires IntToString(a) == IntToString(b)
    ensures a == b
  {
    if a < 0 && b < 0 {
      assert NatToString(-a) == IntToString(a)[1..];
      assert NatToString(-b) == IntToString(b)[1..];
      DecimalRoundTrip(-a);
      DecimalRoundTrip(-b);
    } else if a >= 0 && b >= 0 {
      DecimalRoundTrip(a);
      DecimalRoundTrip(b);
    } else {
      SignIsFirst(a);
      SignIsFirst(b);
      assert false;
    }
  }

  lemma SignIsFirst(i: int)
    ensures IntToString(i) != [] && (IntToString(i)[0] == '-' <==> i < 0)
  {
  }

  /** `f"block_{k}"` */
  function BlockId(k: nat): string {
    "block_" + NatToString(k)
  }

  /** Distinct positions get distinct block ids. */
  lemma BlockIdInjective(j: nat, k: nat)
    requires BlockId(j) == BlockId(k)
    ensures j == k
  {
    assert NatToString(j) == BlockId(j)[6..];
    assert NatToString(k) == BlockId(k)[6..];
    DecimalRoundTrip(j);
    DecimalRoundTrip(k);
  }

  /** `f"page_{page}_section_{section_id}_{index:03d}"` */
  function ChunkId(page: int, sectionId: string, index: nat): string {
    ChunkPrefix(page, sectionId) + "_" + Pad3(index)
  }

  /** The part of a chunk id before the counter. */
  function ChunkPrefix(page: int, sectionId: string): string {
    "page_" + (IntToString(page) + "_section_" + sectionId)
  }

  lemma MiddleOfConcat(a: string, c: char, x: string)
    ensures (a + [c] + x)[|a|] == c
  {
  }

  /** Two strings cut at the LAST occurrence of `c` agree on both parts. */
  lemma SplitAtLast(a1: string, x1: string, a2: string, x2: string, c: char)
    requires c !in x1 && c !in x2
    requires a1 + [c] + x1 == a2 + [c] + x2
    ensures a1 == a2 && x1 == x2
  {
    var s := a1 + [c] + x1;
    if |x1| < |x2| {
      MiddleOfConcat(a1, c, x1);
      assert false;
    }
    if |x2| < |x1| {
      MiddleOfConcat(a2, c, x2);
      assert false;
    }
    assert a1 == s[..|a1|];
    assert x1 == s[|a1| + 1..];
  }

  /** Two strings cut at the FIRST occurrence of `c` agree on both parts. */
  lemma SplitAtFirst(p1: string, r1: string, p2: string, r2: string, c: char)
    requires c !in p1 && c !in p2
    requires p1 + [c] + r1 == p2 + [c] + r2
    ensures p1 == p2 && r1 == r2
  {
    var s := p1 + [c] + r1;
    if |p1| < |p2| {
      MiddleOfConcat(p1, c, r1);
      assert false;
    }
    if |p2| < |p1| {
      MiddleOfConcat(p2, c, r2);
      assert false;
    }
    assert p1 == s[..|p1|];
    assert r1 == s[|p1| + 1..];
  }

  lemma NoUnderscoreInDigits(s: string)
    requires AllDigits(s)
    ensures '_' !in s
  {
    forall k | 0 <= k < |s| ensures s[k] != '_' {
      assert IsDigit(s[k]);
    }
  }

  /** A common prefix can be cancelled. */
  lemma DropCommonPrefix(p: string, x: string, y: string)
    requires p + x == p + y
    ensures x == y
  {
    assert x == (p + x)[|p|..];
    assert y == (p + y)[|p|..];
  }

  lemma Regroup(a: string, c: char, t: string, s: string)
    ensures a + ([c] + t) + s == a + [c] + (t + s)
  {
  }

  /** The page and the section id can be read back off a chunk-id prefix. */
  lemma ChunkPrefixInjective(p1: int, s1: string, p2: int, s2: string)
    requires ChunkPrefix(p1, s1) == ChunkPrefix(p2, s2)
    ensures p1 == p2 && s1 == s2
  {
    var u := "section_";
    var i1 := IntToString(p1);
    var i2 := IntToString(p2);
    assert "_section_" == ['_'] + u;
    DropCommonPrefix("page_", i1 + "_section_" + s1, i2 + "_section_" + s2);
    Regroup(i1, '_', u, s1);
    Regroup(i2, '_', u, s2);
    SplitAtFirst(i1, u + s1, i2, u + s2, '_');
    IntToStringInjective(p1, p2);
    DropCommonPrefix(u, s1, s2);
  }

  /** A chunk id determines its page, its section id and its counter, whatever
      characters the section id contains. */
  lemma ChunkIdInjective(p1: int, s1: string, n1: nat, p2: int, s2: string, n2: nat)
    requires ChunkId(p1, s1, n1) == ChunkId(p2, s2, n2)
    ensures p1 == p2 && s1 == s2 && n1 == n2
  {
    NoUnderscoreInDigits(Pad3(n1));
    NoUnderscoreInDigits(Pad3(n2));
    SplitAtLast(ChunkPrefix(p1, s1), Pad3(n1), ChunkPrefix(p2, s2), Pad3(n2), '_');
    PadRoundTrip(n1);
    PadRoundTrip(n2);
    ChunkPrefixInjective(p1, s1, p2, s2);
  }
}
