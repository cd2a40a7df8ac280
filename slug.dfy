/** `_slug`: the section identifier derived from a heading. The heading is
    trimmed, its Turkish letters and spaces are transliterated, it is
    lowercased, every run of characters outside `[a-z0-9_]` becomes one
    underscore, runs of underscores collapse, and underscores are trimmed
    from both ends; an empty outcome falls back to "basliksiz". */
module Slug {
  import opened PyStr

  /** The placeholder id of untitled text, also the section id before the
      first title. */
  const Untitled: string := "basliksiz"

  /** The characters a slug may contain: `[a-z0-9_]`. */
  predicate Allowed(c: char) {
    ('a' <= c <= 'z') || ('0' <= c <= '9') || c == '_'
  }

  predicate AllAllowed(s: string) {
    forall k :: 0 <= k < |s| ==> Allowed(s[k])
  }

  /** No two underscores stand next to each other. */
  predicate NoDoubleUnderscore(s: string) {
    forall k :: 0 <= k < |s| - 1 ==> !(s[k] == '_' && s[k + 1] == '_')
  }

  /** The shape every section id has. */
  predicate SlugShaped(s: string) {
    && s != []
    && AllAllowed(s)
    && s[0] != '_' && s[|s| - 1] != '_'
    && NoDoubleUnderscore(s)
  }

  /** The two sides of the translation table `str.maketrans`: the j-th
      character of TableFrom becomes the j-th character of TableTo. */
  const TableFrom: string := "ıİğĞüÜşŞöÖçÇ "
  const TableTo: string := "iIgGuUsSoOcC_"

  /** One character through the table: `ıİğĞüÜşŞöÖçÇ` and the space map onto
      `iIgGuUsSoOcC_`; every other character is kept. */
  function Transliterate(c: char): char {
    match c
    case 'ı' => 'i'
    case 'İ' => 'I'
    case 'ğ' => 'g'
    case 'Ğ' => 'G'
    case 'ü' => 'u'
    case 'Ü' => 'U'
    case 'ş' => 's'
    case 'Ş' => 'S'
    case 'ö' => 'o'
    case 'Ö' => 'O'
    case 'ç' => 'c'
    case 'Ç' => 'C'
    case ' ' => '_'
    case _ => c
  }

  /** `s.translate(tr_map)`: each character goes through the table on its
      own; afterwards no space and no Turkish letter of the table is left,
      and the slug characters `[a-z0-9_]` are where they were. */
  function Translate(s: string): (r: string)
    ensures |r| == |s|
    ensures forall k :: 0 <= k < |s| ==> r[k] == Transliterate(s[k])
    ensures forall k :: 0 <= k < |r| ==> r[k] !in TableFrom
    ensures forall k :: 0 <= k < |s| && Allowed(s[k]) ==> r[k] == s[k]
  {
    var r := seq(|s|, k requires 0 <= k < |s| => Transliterate(s[k]));
    forall k | 0 <= k < |s| ensures TableEntry(s[k], r[k]) {
      TransliterateTable(s[k]);
    }
    assert TableFrom == ['ı', 'İ', 'ğ', 'Ğ', 'ü', 'Ü', 'ş', 'Ş', 'ö', 'Ö', 'ç', 'Ç', ' '];
    r
  }

  /** `d` is what the table makes of `c`: the partner of `c` when `c` is on
      the left side, `c` itself otherwise; and never a left-side character. */
  predicate TableEntry(c: char, d: char) {
    && (forall j :: 0 <= j < |TableFrom| && c == TableFrom[j] ==> d == TableTo[j])
    && (c !in TableFrom ==> d == c)
    && d !in TableFrom
  }

  /** Transliterate is the table, and its image avoids the table's left side. */
  lemma TransliterateTable(c: char)
    ensures TableEntry(c, Transliterate(c))
  {
    assert TableFrom == ['ı', 'İ', 'ğ', 'Ğ', 'ü', 'Ü', 'ş', 'Ş', 'ö', 'Ö', 'ç', 'Ç', ' '];
    assert TableTo == ['i', 'I', 'g', 'G', 'u', 'U', 's', 'S', 'o', 'O', 'c', 'C', '_'];
    forall j | 0 <= j < |TableFrom| && c == TableFrom[j] ensures Transliterate(c) == TableTo[j] {
      if j < 4 {
      } else if j < 8 {
      } else {
      }
    }
  }

  /** The table leaves slug characters alone. */
  lemma TranslateAllowed(s: string)
    requires AllAllowed(s)
    ensures Translate(s) == s
  {
  }

  /** Lowercasing leaves slug characters alone. */
  lemma LowerAllowed(s: string)
    requires AllAllowed(s)
    ensures Lower(s) == s
  {
    LowerFixedString(s);
  }

  /** `s` with its leading characters outside `[a-z0-9_]` removed. */
  function SkipDisallowed(s: string): (r: string)
    ensures |r| <= |s|
    ensures r == [] || Allowed(r[0])
    ensures s == [] || Allowed(s[0]) ==> r == s
    decreases |s|
  {
    if s != [] && !Allowed(s[0]) then SkipDisallowed(s[1..]) else s
  }

  /** `re.sub(r"[^a-z0-9_]+", "_", s)`: each maximal run of characters outside
      `[a-z0-9_]` is replaced by a single underscore. */
  function ReplaceRuns(s: string): string
    decreases |s|
  {
    if s == [] then []
    else if Allowed(s[0]) then [s[0]] + ReplaceRuns(s[1..])
    else ['_'] + ReplaceRuns(SkipDisallowed(s[1..]))
  }

  /** The replacement read position by position: every slug character is
      kept; a character outside `[a-z0-9_]` is dropped when the next one is
      also outside, and otherwise, as the last of its run, becomes `_`. */
  function MarkRuns(s: string): string
    decreases |s|
  {
    if s == [] then []
    else if Allowed(s[0]) then [s[0]] + MarkRuns(s[1..])
    else if |s| > 1 && !Allowed(s[1]) then MarkRuns(s[1..])
    else ['_'] + MarkRuns(s[1..])
  }

  /** A run of disallowed characters marks as one underscore. */
  lemma {:induction false} MarkRunsRun(s: string)
    requires s != [] && !Allowed(s[0])
    ensures MarkRuns(s) == ['_'] + MarkRuns(SkipDisallowed(s[1..]))
    decreases |s|
  {
    if |s| > 1 && !Allowed(s[1]) {
      MarkRunsRun(s[1..]);
      assert s[1..][1..] == s[2..];
    }
  }

  /** The replacement keeps the slug characters in order and turns each
      maximal run of other characters into one underscore; so only slug
      characters remain, and a string of slug characters is unchanged. */
  lemma {:induction false} ReplaceRunsFacts(s: string)
    ensures ReplaceRuns(s) == MarkRuns(s)
    ensures AllAllowed(ReplaceRuns(s))
    ensures AllAllowed(s) ==> ReplaceRuns(s) == s
    decreases |s|
  {
    if s == [] {
    } else if Allowed(s[0]) {
      ReplaceRunsFacts(s[1..]);
      assert AllAllowed(s) ==> AllAllowed(s[1..]);
      assert s == [s[0]] + s[1..];
    } else {
      ReplaceRunsFacts(SkipDisallowed(s[1..]));
      MarkRunsRun(s);
    }
  }

  /** `s` with its leading underscores removed. */
  function SkipUnderscores(s: string): (r: string)
    ensures |r| <= |s|
    ensures r == [] || r[0] != '_'
    ensures s == [] || s[0] != '_' ==> r == s
    decreases |s|
  {
    if s != [] && s[0] == '_' then SkipUnderscores(s[1..]) else s
  }

  /** What is left after the leading underscores is a suffix. */
  lemma {:induction false} SkipUnderscoresSuffix(s: string)
    ensures SkipUnderscores(s) == s[|s| - |SkipUnderscores(s)|..]
    decreases |s|
  {
    if s != [] && s[0] == '_' {
      SkipUnderscoresSuffix(s[1..]);
    }
  }

  /** `re.sub(r"_+", "_", s)`: each run of underscores becomes one. */
  function Collapse(s: string): string
    decreases |s|
  {
    if s == [] then []
    else if s[0] == '_' then ['_'] + Collapse(SkipUnderscores(s[1..]))
    else [s[0]] + Collapse(s[1..])
  }

  /** The collapse read position by position: an underscore is dropped when
      the next character is also one, and every other character is kept. */
  function Squeeze(s: string): string
    decreases |s|
  {
    if |s| <= 1 then s
    else if s[0] == '_' && s[1] == '_' then Squeeze(s[1..])
    else [s[0]] + Squeeze(s[1..])
  }

  /** A run of underscores squeezes to one. */
  lemma {:induction false} SqueezeRun(s: string)
    requires s != [] && s[0] == '_'
    ensures Squeeze(s) == ['_'] + Squeeze(SkipUnderscores(s[1..]))
    decreases |s|
  {
    if |s| > 1 && s[1] == '_' {
      SqueezeRun(s[1..]);
      assert s[1..][1..] == s[2..];
    }
  }

  /** The collapse keeps every character but the underscores directly
      followed by another, so each run of underscores becomes one and the
      other characters stay in order. The result has no double underscore,
      is empty exactly when `s` is, and starts with an underscore exactly
      when `s` does. */
  lemma {:induction false} CollapseShape(s: string)
    ensures Collapse(s) == Squeeze(s)
    ensures NoDoubleUnderscore(Collapse(s))
    ensures Collapse(s) == [] <==> s == []
    ensures Collapse(s) != [] ==> (Collapse(s)[0] == '_' <==> s[0] == '_')
    decreases |s|
  {
    if s == [] {
    } else if s[0] == '_' {
      CollapseShape(SkipUnderscores(s[1..]));
      SqueezeRun(s);
    } else {
      CollapseShape(s[1..]);
      if |s| == 1 {
        assert [s[0]] == s;
      }
    }
  }

  /** Collapsing keeps a `[a-z0-9_]`-only string so. */
  lemma {:induction false} CollapseAllowed(s: string)
    requires AllAllowed(s)
    ensures AllAllowed(Collapse(s))
    decreases |s|
  {
    if s == [] {
    } else if s[0] == '_' {
      var t := SkipUnderscores(s[1..]);
      SkipUnderscoresSuffix(s[1..]);
      forall k | 0 <= k < |t| ensures Allowed(t[k]) {
        assert t[k] == s[1..][|s[1..]| - |t| + k];
      }
      CollapseAllowed(t);
    } else {
      CollapseAllowed(s[1..]);
    }
  }

  /** A string with no double underscore collapses to itself. */
  lemma {:induction false} CollapseTidy(s: string)
    requires NoDoubleUnderscore(s)
    ensures Collapse(s) == s
    decreases |s|
  {
    if s == [] {
    } else if s[0] == '_' {
      assert s[1..] != [] ==> s[1] != '_';
      CollapseTidy(s[1..]);
      assert s == [s[0]] + s[1..];
    } else {
      assert NoDoubleUnderscore(s[1..]);
      CollapseTidy(s[1..]);
      assert s == [s[0]] + s[1..];
    }
  }

  /** `s.lstrip("_")` */
  function DropLeading(s: string): (r: string)
    ensures |r| <= |s| && r == s[|s| - |r|..]
    ensures r == [] || r[0] != '_'
    ensures s == [] || s[0] != '_' ==> r == s
    ensures forall k :: 0 <= k < |s| - |r| ==> s[k] == '_'
    ensures r == [] ==> forall k :: 0 <= k < |s| ==> s[k] == '_'
    decreases |s|
  {
    if s != [] && s[0] == '_' then DropLeading(s[1..]) else s
  }

  /** `s.rstrip("_")` */
  function DropTrailing(s: string): (r: string)
    ensures |r| <= |s| && r == s[..|r|]
    ensures r == [] || r[|r| - 1] != '_'
    ensures s == [] || s[|s| - 1] != '_' ==> r == s
    ensures forall k :: |r| <= k < |s| ==> s[k] == '_'
    decreases |s|
  {
    if s != [] && s[|s| - 1] == '_' then DropTrailing(s[..|s| - 1]) else s
  }

  /** `s` is some underscores, then `r` from position `a` on, then some
      underscores. */
  predicate EndsStripped(s: string, r: string, a: nat) {
    && a + |r| <= |s| && s[a..a + |r|] == r
    && (forall k :: 0 <= k < a ==> s[k] == '_')
    && (forall k :: a + |r| <= k < |s| ==> s[k] == '_')
  }

  /** `s.strip("_")`: `s` with underscores removed from its two ends only,
      up to the first and the last other character. */
  function StripUnderscores(s: string): (r: string)
    ensures exists a :: EndsStripped(s, r, a)
    ensures r == [] || (r[0] != '_' && r[|r| - 1] != '_')
    ensures AllAllowed(s) ==> AllAllowed(r)
    ensures NoDoubleUnderscore(s) ==> NoDoubleUnderscore(r)
    ensures s != [] && s[0] != '_' && s[|s| - 1] != '_' ==> r == s
  {
    var l := DropLeading(s);
    var r := DropTrailing(l);
    StripShape(s, l, r);
    r
  }

  /** What `strip("_")` keeps, from what `lstrip` and `rstrip` keep. */
  lemma StripShape(s: string, l: string, r: string)
    requires |l| <= |s| && l == s[|s| - |l|..] && (l == [] || l[0] != '_')
    requires s == [] || s[0] != '_' ==> l == s
    requires forall k :: 0 <= k < |s| - |l| ==> s[k] == '_'
    requires |r| <= |l| && r == l[..|r|] && (r == [] || r[|r| - 1] != '_')
    requires l == [] || l[|l| - 1] != '_' ==> r == l
    requires forall k :: |r| <= k < |l| ==> l[k] == '_'
    ensures EndsStripped(s, r, |s| - |l|)
    ensures r == [] || (r[0] != '_' && r[|r| - 1] != '_')
    ensures AllAllowed(s) ==> AllAllowed(r)
    ensures NoDoubleUnderscore(s) ==> NoDoubleUnderscore(r)
    ensures s != [] && s[0] != '_' && s[|s| - 1] != '_' ==> r == s
  {
    assert r != [] ==> r[0] == l[0];
    StripEnds(s, l, r);
    SliceKeepsShape(s, |s| - |l|, l);
    SliceKeepsShape(l, 0, r);
  }

  /** Dropping underscores from the front and then from the back leaves `s`
      with underscores removed from its two ends only. */
  lemma StripEnds(s: string, l: string, r: string)
    requires |l| <= |s| && l == s[|s| - |l|..]
    requires forall k :: 0 <= k < |s| - |l| ==> s[k] == '_'
    requires |r| <= |l| && r == l[..|r|]
    requires forall k :: |r| <= k < |l| ==> l[k] == '_'
    ensures EndsStripped(s, r, |s| - |l|)
  {
    var a := |s| - |l|;
    assert s[a..a + |r|] == r;
    forall k | a + |r| <= k < |s| ensures s[k] == '_' {
      assert s[k] == l[k - a];
    }
  }

  /** A slice of `s` keeps the allowed characters and the absence of `__`. */
  lemma SliceKeepsShape(s: string, off: nat, r: string)
    requires off + |r| <= |s| && r == s[off..off + |r|]
    ensures AllAllowed(s) ==> AllAllowed(r)
    ensures NoDoubleUnderscore(s) ==> NoDoubleUnderscore(r)
  {
    if NoDoubleUnderscore(s) {
      forall k | 0 <= k < |r| - 1 ensures !(r[k] == '_' && r[k + 1] == '_') {
        assert r[k] == s[off + k] && r[k + 1] == s[off + k + 1];
      }
    }
  }

  /** The placeholder is itself a well-formed section id. */
  lemma UntitledShaped()
    ensures SlugShaped(Untitled)
  {
    assert Untitled == ['b', 'a', 's', 'l', 'i', 'k', 's', 'i', 'z'];
  }

  /** `_slug(text)`: the result always has the section-id shape, and empty
      text gives "basliksiz". */
  function SlugOf(text: string): (r: string)
    ensures SlugShaped(r)
    ensures text == [] ==> r == Untitled
  {
    UntitledShaped();
    if text == [] then Untitled
    else
      var replaced := ReplaceRuns(Lower(Translate(Strip(text))));
      ReplaceRunsFacts(Lower(Translate(Strip(text))));
      CollapseShape(replaced);
      CollapseAllowed(replaced);
      var s := StripUnderscores(Collapse(replaced));
      if s == [] then Untitled else s
  }

  /** Text that is blank after trimming has no title: its slug is
      "basliksiz". */
  lemma SlugOfBlank(text: string)
    requires forall k :: 0 <= k < |text| ==> IsSpace(text[k])
    ensures SlugOf(text) == Untitled
  {
    if text != [] {
      StripBlank(text);
      var s := Strip(text);
      assert s == [];
      assert Translate(s) == [] && Lower([]) == [];
    }
  }

  /** A section id is its own slug, so taking the slug twice changes nothing. */
  lemma SlugOfShaped(s: string)
    requires SlugShaped(s)
    ensures SlugOf(s) == s
  {
    assert Trimmed(s) by {
      assert Allowed(s[0]) && Allowed(s[|s| - 1]);
    }
    StripTrimmed(s);
    TranslateAllowed(s);
    LowerAllowed(s);
    ReplaceRunsFacts(s);
    CollapseTidy(s);
  }

  lemma SlugIdempotent(text: string)
    ensures SlugOf(SlugOf(text)) == SlugOf(text)
  {
    SlugOfShaped(SlugOf(text));
  }

  /** A heading with a number, punctuation and a Turkish letter: the dot
      and the space become two underscores, which then collapse. */
  lemma SlugExample()
    ensures SlugOf(" 1. Giriş ") == "1_giris"
  {
    var u := "1. Giriş";
    assert " 1. Giriş " == [' '] + u + [' '];
    StripPadded(' ', u, ' ');
    TranslateExample();
    LowerExample();
    ReplaceRunsExample();
    CollapseExample();
    SlugOfSteps(" 1. Giriş ", u, "1._Giris", "1._giris", "1__giris", "1_giris");
  }

  /** The slug of non-empty text, given each stage of the pipeline. */
  lemma SlugOfSteps(t: string, stripped: string, translated: string, lowered: string, replaced: string, collapsed: string)
    requires t != [] && Strip(t) == stripped && Translate(stripped) == translated
    requires Lower(translated) == lowered && ReplaceRuns(lowered) == replaced
    requires Collapse(replaced) == collapsed
    requires collapsed != [] && collapsed[0] != '_' && collapsed[|collapsed| - 1] != '_'
    ensures SlugOf(t) == collapsed
  {
  }

  lemma TranslateExample() ensures Translate("1. Giriş") == "1._Giris" {
    var a := "1. Giriş";
    var b := Translate(a);
    assert |b| == 8;
    assert b[0] == '1' && b[1] == '.' && b[2] == '_' && b[3] == 'G' && b[4] == 'i' && b[5] == 'r' && b[6] == 'i' && b[7] == 's';
  }
  lemma LowerExample() ensures Lower("1._Giris") == "1._giris" {
    assert "1._Giris" == "1._" + (['G'] + "iris");
    LowerCapitalInside("1._", 'G', "iris");
    assert "1._" + (['g'] + "iris") == "1._giris";
  }

  /** Lowercasing text that is already lowercase but for one capital ASCII
      letter lowercases that letter only. */
  lemma LowerCapitalInside(p: string, c: char, q: string)
    requires 'A' <= c <= 'Z'
    requires forall k :: 0 <= k < |p| ==> LowerFixed(p[k])
    requires forall k :: 0 <= k < |q| ==> LowerFixed(q[k])
    ensures Lower(p + ([c] + q)) == p + ([(c as int + 32) as char] + q)
  {
    LowerFixedString(p);
    LowerFixedString(q);
    assert Lower([c]) == [(c as int + 32) as char];
    LowerAppend([c], q);
    LowerAppend(p, [c] + q);
  }

  /** A slug-character prefix passes through the replacement unchanged. */
  lemma {:induction false} ReplaceRunsAllowedPrefix(a: string, s: string)
    requires AllAllowed(a)
    ensures ReplaceRuns(a + s) == a + ReplaceRuns(s)
  {
    if a == [] {
      assert a + s == s;
    } else {
      assert (a + s)[1..] == a[1..] + s;
      ReplaceRunsAllowedPrefix(a[1..], s);
      assert a == [a[0]] + a[1..];
    }
  }

  /** A single disallowed character between two slug-character strings
      becomes one underscore. */
  lemma ReplaceRunsLone(a: string, x: char, b: string)
    requires AllAllowed(a) && AllAllowed(b) && !Allowed(x)
    ensures ReplaceRuns(a + ([x] + b)) == a + (['_'] + b)
  {
    ReplaceRunsLoneHead(x, b);
    ReplaceRunsAllowedPrefix(a, [x] + b);
  }

  /** A disallowed character in front of slug characters becomes an underscore. */
  lemma ReplaceRunsLoneHead(x: char, b: string)
    requires AllAllowed(b) && !Allowed(x)
    ensures ReplaceRuns([x] + b) == ['_'] + b
  {
    var t := [x] + b;
    assert t[0] == x && t[1..] == b;
    ReplaceRunsFacts(b);
  }

  lemma ReplaceRunsExample() ensures ReplaceRuns("1._giris") == "1__giris" {
    var p := "1";
    var q := "_giris";
    assert "1._giris" == p + (['.'] + q);
    ReplaceRunsLone(p, '.', q);
    assert "1__giris" == p + (['_'] + q);
  }

  /** An underscore-free prefix passes through the collapse unchanged. */
  lemma {:induction false} CollapsePlainPrefix(a: string, t: string)
    requires forall k :: 0 <= k < |a| ==> a[k] != '_'
    ensures Collapse(a + t) == a + Collapse(t)
  {
    if a == [] {
      assert a + t == t;
    } else {
      assert (a + t)[0] == a[0] && (a + t)[1..] == a[1..] + t;
      CollapsePlainPrefix(a[1..], t);
      assert a == [a[0]] + a[1..];
    }
  }

  /** Two underscores in front of a tidy tail that does not start with an
      underscore collapse into one. */
  lemma CollapseDoubleHead(b: string)
    requires NoDoubleUnderscore(b) && (b == [] || b[0] != '_')
    ensures Collapse("__" + b) == "_" + b
  {
    var t := ['_'] + b;
    assert ("__" + b)[0] == '_' && ("__" + b)[1..] == t;
    assert t[0] == '_' && t[1..] == b;
    assert SkipUnderscores(t) == b;
    CollapseTidy(b);
  }

  /** Two underscores after an underscore-free prefix, followed by a tail that
      neither starts with nor holds a double underscore, collapse into one. */
  lemma CollapseDouble(a: string, b: string)
    requires forall k :: 0 <= k < |a| ==> a[k] != '_'
    requires NoDoubleUnderscore(b) && (b == [] || b[0] != '_')
    ensures Collapse(a + "__" + b) == a + "_" + b
  {
    assert a + "__" + b == a + ("__" + b);
    CollapsePlainPrefix(a, "__" + b);
    CollapseDoubleHead(b);
    assert a + ("_" + b) == a + "_" + b;
  }

  lemma CollapseExample() ensures Collapse("1__giris") == "1_giris" {
    assert "1__giris" == "1" + "__" + "giris";
    CollapseDouble("1", "giris");
  }
}
