/** The Python `str` operations the pipeline relies on, over Dafny strings.
    A Dafny `string` is a sequence of Unicode scalar values, which is what a
    Python `str` is, so `|s|` is Python's `len(s)`. */
module PyStr {

  /** `c.isspace()`: the characters Python treats as whitespace in
      `str.split()`, `str.strip()` and the regex class `\s`. */
  predicate IsSpace(c: char) {
    || c == ' '
    || ('\t' <= c <= '\r')
    || ('\U{1C}' <= c <= '\U{1F}')
    || c == '\U{85}' || c == '\U{A0}' || c == '\U{1680}'
    || ('\U{2000}' <= c <= '\U{200A}')
    || c == '\U{2028}' || c == '\U{2029}' || c == '\U{202F}' || c == '\U{205F}' || c == '\U{3000}'
  }

  predicate NoSpace(s: string) {
    forall k :: 0 <= k < |s| ==> !IsSpace(s[k])
  }

  /** Neither end of `s` is whitespace (vacuously true of ""). */
  predicate Trimmed(s: string) {
    s == [] || (!IsSpace(s[0]) && !IsSpace(s[|s| - 1]))
  }

  /** `s.lstrip()` */
  function TrimLeft(s: string): (r: string)
    ensures |r| <= |s| && r == s[|s| - |r|..]
    ensures r == [] || !IsSpace(r[0])
    ensures forall k :: 0 <= k < |s| - |r| ==> IsSpace(s[k])
    decreases |s|
  {
    if s != [] && IsSpace(s[0]) then TrimLeft(s[1..]) else s
  }

  /** `s.rstrip()` */
  function TrimRight(s: string): (r: string)
    ensures |r| <= |s| && r == s[..|r|]
    ensures r == [] || !IsSpace(r[|r| - 1])
    ensures forall k :: |r| <= k < |s| ==> IsSpace(s[k])
    decreases |s|
  {
    if s != [] && IsSpace(s[|s| - 1]) then TrimRight(s[..|s| - 1]) else s
  }

  /** `s.strip()`: whitespace peeled off either end until neither end is
      whitespace. StripFacts relates it to `lstrip` and `rstrip`. */
  function Strip(s: string): string
    decreases |s|
  {
    if s != [] && IsSpace(s[0]) then Strip(s[1..])
    else if s != [] && IsSpace(s[|s| - 1]) then Strip(s[..|s| - 1])
    else s
  }

  /** The result of `strip()` is `s.lstrip().rstrip()`: only leading and
      trailing whitespace is removed. So it is a slice of `s` with no
      whitespace at either end; it is empty exactly when `s` is all
      whitespace, and it is `s` itself when `s` has no whitespace at either
      end. */
  lemma StripFacts(s: string)
    ensures Strip(s) == TrimRight(TrimLeft(s))
    ensures Trimmed(Strip(s))
    ensures exists a :: OccursAt(s, Strip(s), a)
    ensures Strip(s) == [] <==> forall k :: 0 <= k < |s| ==> IsSpace(s[k])
    ensures Trimmed(s) ==> Strip(s) == s
  {
    StripLeftFirst(s);
    StripNoLeft(TrimLeft(s));
    StripSlice(s);
    StripBlank(s);
  }

  /** Text with no whitespace at either end strips to itself. */
  lemma StripTrimmed(s: string)
    requires Trimmed(s)
    ensures Strip(s) == s
  {
  }

  /** Stripping may take the leading whitespace first. */
  lemma {:induction false} StripLeftFirst(s: string)
    ensures Strip(s) == Strip(TrimLeft(s))
    decreases |s|
  {
    if s != [] && IsSpace(s[0]) {
      StripLeftFirst(s[1..]);
    }
  }

  /** On text with no leading whitespace, stripping is `rstrip()`. */
  lemma {:induction false} StripNoLeft(t: string)
    requires t == [] || !IsSpace(t[0])
    ensures Strip(t) == TrimRight(t)
    decreases |t|
  {
    if t != [] && IsSpace(t[|t| - 1]) {
      var u := t[..|t| - 1];
      assert u != [] && u[0] == t[0];
      StripNoLeft(u);
    }
  }

  /** `strip()` leaves a slice of `s` with no whitespace at either end. */
  lemma {:induction false} StripSlice(s: string)
    ensures Trimmed(Strip(s))
    ensures exists a :: OccursAt(s, Strip(s), a)
    decreases |s|
  {
    if s != [] && IsSpace(s[0]) {
      var t := s[1..];
      StripSlice(t);
      var r := Strip(t);
      var a: nat :| OccursAt(t, r, a);
      assert OccursAt(s, r, a + 1) by {
        assert a + |r| <= |t| && t[a..a + |r|] == r;
        assert forall k :: a <= k < a + |r| ==> s[k + 1] == t[k];
        assert s[a + 1..a + 1 + |r|] == t[a..a + |r|];
      }
    } else if s != [] && IsSpace(s[|s| - 1]) {
      var t := s[..|s| - 1];
      StripSlice(t);
      var r := Strip(t);
      var a: nat :| OccursAt(t, r, a);
      assert OccursAt(s, r, a) by {
        assert a + |r| <= |t| && t[a..a + |r|] == r;
        assert forall k :: a <= k < a + |r| ==> s[k] == t[k];
        assert s[a..a + |r|] == t[a..a + |r|];
      }
    } else {
      assert OccursAt(s, s, 0);
    }
  }

  /** `strip()` gives "" exactly when `s` is all whitespace. */
  lemma {:induction false} StripBlank(s: string)
    ensures Strip(s) == [] <==> forall k :: 0 <= k < |s| ==> IsSpace(s[k])
    decreases |s|
  {
    if s != [] && IsSpace(s[0]) {
      var t := s[1..];
      StripBlank(t);
      if Strip(t) == [] {
        forall k | 0 <= k < |s| ensures IsSpace(s[k]) {
          if k > 0 { assert s[k] == t[k - 1]; }
        }
      } else {
        var k :| 0 <= k < |t| && !IsSpace(t[k]);
        assert s[k + 1] == t[k];
      }
    } else if s != [] && IsSpace(s[|s| - 1]) {
      var t := s[..|s| - 1];
      // s[0] is not whitespace, so it is kept in t
      assert t != [] && t[0] == s[0];
      StripBlank(t);
    }
  }

  /** One whitespace character on either side of trimmed text is stripped. */
  lemma StripPadded(c: char, u: string, d: char)
    requires IsSpace(c) && IsSpace(d) && u != [] && Trimmed(u)
    ensures Strip([c] + u + [d]) == u
  {
    var t := [c] + u + [d];
    var v := u + [d];
    assert t[1..] == v;
    assert v[0] == u[0] && v[..|v| - 1] == u;
    assert Strip(u) == u;
    assert Strip(v) == Strip(u);
    assert Strip(t) == Strip(v);
  }

  /** Length of the leading run of non-whitespace characters of `s`. */
  function WordLength(s: string): (n: nat)
    ensures n <= |s|
    ensures forall k :: 0 <= k < n ==> !IsSpace(s[k])
    ensures n == |s| || IsSpace(s[n])
  {
    if s == [] || IsSpace(s[0]) then 0 else 1 + WordLength(s[1..])
  }

  /** `s.split()` with no separator: the maximal runs of non-whitespace
      characters of `s`, in order. */
  function Split(s: string): seq<string>
    decreases |s|
  {
    var t := TrimLeft(s);
    if t == [] then []
    else
      var n := WordLength(t);
      [t[..n]] + Split(t[n..])
  }

  /** Every word `split()` yields is non-empty and holds no whitespace. */
  lemma {:induction false} SplitWords(s: string)
    ensures forall i :: 0 <= i < |Split(s)| ==> Split(s)[i] != [] && NoSpace(Split(s)[i])
    decreases |s|
  {
    var t := TrimLeft(s);
    if t != [] {
      var n := WordLength(t);
      SplitWords(t[n..]);
      var ws := Split(s);
      assert ws == [t[..n]] + Split(t[n..]);
      forall i | 0 <= i < |ws| ensures ws[i] != [] && NoSpace(ws[i]) {
        if i > 0 { assert ws[i] == Split(t[n..])[i - 1]; }
      }
    }
  }

  /** `sep.join(parts)` */
  function Join(parts: seq<string>, sep: string): string
  {
    if parts == [] then []
    else if |parts| == 1 then parts[0]
    else parts[0] + sep + Join(parts[1..], sep)
  }

  /** Simple (one character to one character) lowercase mapping, the one the
      regex engine uses for case-insensitive matching: ASCII A-Z, the Latin-1
      capitals, and the Turkish capitals Ğ, Ş and İ. */
  function SimpleLower(c: char): char {
    if 'A' <= c <= 'Z' || ('\U{C0}' <= c <= '\U{DE}' && c != '\U{D7}') then (c as int + 32) as char
    else if c == 'Ğ' || c == 'Ş' then (c as int + 1) as char
    else if c == 'İ' then 'i'
    else c
  }

  /** `c.lower()`: as SimpleLower, except that İ becomes "i" followed by the
      combining dot above (U+0307), as Python's full case mapping does. */
  function FullLower(c: char): string {
    if c == 'İ' then ['i', '\U{307}'] else [SimpleLower(c)]
  }

  /** `s.lower()` */
  function Lower(s: string): (r: string)
    ensures |r| >= |s|
  {
    if s == [] then [] else FullLower(s[0]) + Lower(s[1..])
  }

  /** Only the dotted capital İ lowercases to more than one character. */
  lemma {:induction false} LowerKeepsLength(s: string)
    requires 'İ' !in s
    ensures |Lower(s)| == |s|
  {
    if s != [] {
      assert s[0] != 'İ';
      assert 'İ' !in s[1..];
      LowerKeepsLength(s[1..]);
    }
  }

  /** Lowercasing distributes over concatenation. */
  lemma {:induction false} LowerAppend(x: string, y: string)
    ensures Lower(x + y) == Lower(x) + Lower(y)
  {
    if x == [] {
      assert x + y == y;
    } else {
      assert (x + y)[1..] == x[1..] + y;
      LowerAppend(x[1..], y);
    }
  }

  /** A character that is no ASCII, Latin-1 or Turkish capital and not İ:
      one that lowercases to itself. */
  predicate LowerFixed(c: char) {
    !('A' <= c <= 'Z') && !('\U{C0}' <= c <= '\U{DE}') && c != 'Ğ' && c != 'Ş' && c != 'İ'
  }

  /** A string of such characters is already lowercase. */
  lemma {:induction false} LowerFixedString(s: string)
    requires forall k :: 0 <= k < |s| ==> LowerFixed(s[k])
    ensures Lower(s) == s
  {
    if s != [] {
      LowerFixedString(s[1..]);
      assert s == [s[0]] + s[1..];
    }
  }

  predicate IsDigit(c: char) {
    '0' <= c <= '9'
  }

  predicate AllDigits(s: string) {
    forall k :: 0 <= k < |s| ==> IsDigit(s[k])
  }

  /** `s.isdigit()`: non-empty and made of digits only. */
  predicate IsDigitString(s: string) {
    s != [] && AllDigits(s)
  }

  /** `sub` occurs in `s` starting at position `i`. */
  predicate OccursAt(s: string, sub: string, i: nat) {
    i + |sub| <= |s| && s[i..i + |sub|] == sub
  }

  /** `sub in s` */
  predicate Contains(s: string, sub: string) {
    exists i | 0 <= i <= |s| - |sub| :: OccursAt(s, sub, i)
  }
}
