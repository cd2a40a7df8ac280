/** The regular expressions of the noise rules, each written as a predicate
    saying where a match lies. A regex search succeeds exactly when some
    position pair satisfies the pattern, so each search is an existential
    over positions. `\d` is read as an ASCII digit, `\s` as IsSpace, and
    `\w` (for `\b`) as ASCII letters and digits, `_`, and the Latin-1 and
    Turkish letters. */
module Patterns {
  import opened PyStr

  /** Case-insensitive matching compares characters by this folding: the
      simple lowercase mapping, plus the engine's equivalences of dotless ı
      with i and of long ſ with s. */
  function Fold(c: char): char {
    if c == 'ı' then 'i'
    else if c == 'ſ' then 's'
    else SimpleLower(c)
  }

  predicate IsWordChar(c: char) {
    || ('a' <= c <= 'z') || ('A' <= c <= 'Z') || ('0' <= c <= '9') || c == '_'
    || ('\U{C0}' <= c <= '\U{FF}' && c != '\U{D7}' && c != '\U{F7}')
    || c == 'ğ' || c == 'Ğ' || c == 'ı' || c == 'İ' || c == 'ş' || c == 'Ş'
  }

  /** `\b` at position `p` of `t`: a word character on exactly one side. */
  predicate Boundary(t: string, p: int) {
    0 <= p <= |t| && ((p > 0 && IsWordChar(t[p - 1])) != (p < |t| && IsWordChar(t[p])))
  }

  /** The literal `lit` matches `t` at `i`, ignoring case. */
  predicate LiteralAt(t: string, i: int, lit: string) {
    0 <= i && i + |lit| <= |t| && forall k :: 0 <= k < |lit| ==> Fold(t[i + k]) == Fold(lit[k])
  }

  /** `n` decimal digits of `t` start at `p`. */
  predicate DigitsAt(t: string, p: int, n: int) {
    0 <= p && p + n <= |t| && forall k :: p <= k < p + n ==> IsDigit(t[k])
  }

  /** `n` whitespace characters of `t` start at `p`. */
  predicate SpacesAt(t: string, p: int, n: int) {
    0 <= p && p + n <= |t| && forall k :: p <= k < p + n ==> IsSpace(t[k])
  }

  predicate CharIn(t: string, p: int, chars: string) {
    0 <= p < |t| && t[p] in chars
  }

  // ---- Dates: main.py, _DATE_PATTERN ----

  /** `\d{a}[./]\d{b}[./]\d{c}` at `p`, as in 12.05.2023 or 1/5/23. */
  predicate DayFirstAt(t: string, p: int, a: int, b: int, c: int) {
    && DigitsAt(t, p, a)
    && CharIn(t, p + a, "./")
    && DigitsAt(t, p + a + 1, b)
    && CharIn(t, p + a + 1 + b, "./")
    && DigitsAt(t, p + a + b + 2, c)
  }

  /** `\d{4}[-/]\d{b}[-/]\d{c}` at `p`, as in 2023-05-12. */
  predicate YearFirstAt(t: string, p: int, b: int, c: int) {
    && DigitsAt(t, p, 4)
    && CharIn(t, p + 4, "-/")
    && DigitsAt(t, p + 5, b)
    && CharIn(t, p + 5 + b, "-/")
    && DigitsAt(t, p + b + 6, c)
  }

  /** The month names of the pattern, Turkish then English. */
  const Months: seq<string> := [
    "ocak", "şubat", "mart", "nisan", "mayıs", "haziran", "temmuz", "ağustos",
    "eylül", "ekim", "kasım", "aralık",
    "january", "february", "march", "april", "may", "june", "july", "august",
    "september", "october", "november", "december"]

  /** `\d{a}\s{s1}(month m)\s{s2}\d{c}` at `p`, as in 12 Mayıs 2023. */
  predicate NamedMonthAt(t: string, p: int, a: int, s1: int, m: int, s2: int, c: int)
    requires 0 <= m < |Months|
  {
    && DigitsAt(t, p, a)
    && SpacesAt(t, p + a, s1)
    && LiteralAt(t, p + a + s1, Months[m])
    && SpacesAt(t, p + a + s1 + |Months[m]|, s2)
    && DigitsAt(t, p + a + s1 + |Months[m]| + s2, c)
  }

  /** One of the three date shapes occupies exactly `t[p..q]`. */
  predicate DateBody(t: string, p: int, q: int) {
    || (exists a, b, c | 1 <= a <= 2 && 1 <= b <= 2 && 2 <= c <= 4 ::
          q == p + a + b + c + 2 && DayFirstAt(t, p, a, b, c))
    || (exists b, c | 1 <= b <= 2 && 1 <= c <= 2 ::
          q == p + b + c + 6 && YearFirstAt(t, p, b, c))
    || (exists a, s1, m, s2, c | 1 <= a <= 2 && 1 <= s1 <= |t| && 0 <= m < |Months| && 1 <= s2 <= |t| && 2 <= c <= 4 ::
          q == p + a + s1 + |Months[m]| + s2 + c && NamedMonthAt(t, p, a, s1, m, s2, c))
  }

  /** A match of `\b(...)\b` spanning `t[p..q]`. */
  predicate DateAt(t: string, p: int, q: int) {
    Boundary(t, p) && Boundary(t, q) && DateBody(t, p, q)
  }

  /** `_DATE_PATTERN.search(t)` succeeds. */
  predicate DateMatch(t: string) {
    exists p, q | 0 <= p <= q <= |t| :: DateAt(t, p, q)
  }

  // ---- Copyright: main.py, _COPYRIGHT_PATTERN ----

  /** The alternatives of the pattern that are literals. The remaining
      alternative, `©\s*\d{4}`, begins with the first of them and so adds no
      match of its own (CopyrightYearSubsumed). */
  const CopyrightLiterals: seq<string> := ["©", "copyright", "tüm hakları", "all rights reserved", "her hakkı"]

  /** Some literal of `lits` occurs in `t`, ignoring case. */
  predicate SearchAny(t: string, lits: seq<string>) {
    exists m, i | 0 <= m < |lits| && 0 <= i <= |t| :: LiteralAt(t, i, lits[m])
  }

  /** `_COPYRIGHT_PATTERN.search(t)` succeeds. */
  predicate CopyrightMatch(t: string) {
    SearchAny(t, CopyrightLiterals)
  }

  /** A match of `©\s*\d{4}` at `i` with `s` whitespace characters. */
  predicate CopyrightYearAt(t: string, i: int, s: int) {
    LiteralAt(t, i, "©") && SpacesAt(t, i + 1, s) && DigitsAt(t, i + 1 + s, 4)
  }

  lemma CopyrightYearSubsumed(t: string, i: int, s: int)
    requires CopyrightYearAt(t, i, s)
    ensures CopyrightMatch(t)
  {
    assert LiteralAt(t, i, CopyrightLiterals[0]);
  }

  // ---- Links: main.py, _URL_PATTERN ----

  /** One of `https?://`, `www\.` matches at `i`, or one of `.com`, `.org`,
      `.net` followed by a word boundary. */
  predicate UrlAt(t: string, i: int) {
    || LiteralAt(t, i, "http://")
    || LiteralAt(t, i, "https://")
    || LiteralAt(t, i, "www.")
    || (LiteralAt(t, i, ".com") && Boundary(t, i + 4))
    || (LiteralAt(t, i, ".org") && Boundary(t, i + 4))
    || (LiteralAt(t, i, ".net") && Boundary(t, i + 4))
  }

  /** `_URL_PATTERN.search(t)` succeeds. */
  predicate UrlMatch(t: string) {
    exists i | 0 <= i <= |t| :: UrlAt(t, i)
  }

  // ---- Table-of-contents lines: main.py, _TOC_LINE_PATTERN ----

  /** `^\s*\d+[.)]\s*.{1,100}$` matched with the leading whitespace `t[..a]`,
      the number `t[a..b]`, the marker `t[b]`, whitespace `t[b+1..c]` and
      the entry `t[c..e]`, which holds no newline; `$` accepts the end of
      `t` or a single newline before it. */
  predicate TocLineAt(t: string, a: int, b: int, c: int, e: int) {
    && 0 <= a < b < c <= e <= |t|
    && SpacesAt(t, 0, a)
    && DigitsAt(t, a, b - a)
    && t[b] in ".)"
    && SpacesAt(t, b + 1, c - b - 1)
    && 1 <= e - c <= 100
    && (forall k :: c <= k < e ==> t[k] != '\n')
    && (e == |t| || (e == |t| - 1 && t[e] == '\n'))
  }

  /** `_TOC_LINE_PATTERN.match(t)` succeeds. */
  predicate TocLine(t: string) {
    exists a, b, c, e | 0 <= a < b < c <= e <= |t| :: TocLineAt(t, a, b, c, e)
  }

  /** A numbered line is a table-of-contents line when its entry ends the
      text and is at most 100 characters long. */
  lemma TocLineNumbered(t: string, b: int)
    requires 1 <= b && b + 2 <= |t| <= b + 101
    requires DigitsAt(t, 0, b) && t[b] in ".)"
    requires forall k :: b + 1 <= k < |t| ==> t[k] != '\n'
    ensures TocLine(t)
  {
    assert TocLineAt(t, 0, b, b + 1, |t|);
  }

  /** A line that does not start (after whitespace) with a digit is never a
      table-of-contents line. */
  lemma TocLineStartsWithNumber(t: string)
    requires TocLine(t)
    ensures exists a | 0 <= a < |t| :: SpacesAt(t, 0, a) && IsDigit(t[a])
  {
    var a, b, c, e :| 0 <= a < b < c <= e <= |t| && TocLineAt(t, a, b, c, e);
    assert SpacesAt(t, 0, a) && IsDigit(t[a]);
  }

  // ---- Dot leaders: main.py:269, `\.{4,}` ----

  /** `re.search(r"\.{4,}", t)` succeeds: four dots in a row. */
  predicate DotRun(t: string) {
    Contains(t, "....")
  }

  // ---- Examples ----

  lemma DateExample()
    ensures DateMatch("12/05/2023")
  {
    var t := "12/05/2023";
    assert DayFirstAt(t, 0, 2, 2, 4);
    assert DateAt(t, 0, 10);
  }

  lemma NamedDateExample()
    ensures DateMatch("12 Mayıs 2023")
  {
    var t := "12 Mayıs 2023";
    assert Months[4] == "mayıs";
    assert LiteralAt(t, 3, Months[4]);
    assert NamedMonthAt(t, 0, 2, 1, 4, 1, 4);
    assert DateAt(t, 0, 13);
  }

  lemma CopyrightExample()
    ensures CopyrightMatch("Tüm Hakları Saklıdır")
  {
    var t := "Tüm Hakları Saklıdır";
    assert LiteralAt(t, 0, CopyrightLiterals[2]);
  }

  lemma UrlExample()
    ensures UrlMatch("Bkz. www.example.com")
  {
    var t := "Bkz. www.example.com";
    assert UrlAt(t, 5);
  }
}
