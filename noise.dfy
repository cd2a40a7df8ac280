/** `_is_noise` and `_should_discard_toc`: the two filters that keep a block
    out of the retrieval chunks. Both are cascades of rules, each of which
    can only answer "noise". */
module Noise {
  import opened PyStr
  import opened Classify
  import opened Patterns
  import opened Schema

  const LonePunctuation: seq<string> := [".", "..", "-", "–", "—"]

  /** Section titles that mark a table of contents. */
  const TocMarkers: seq<string> := ["içindekiler", "contents", "table of contents", "index"]

  /** Phrases of user-interface instructions. */
  const UiMarkers: seq<string> := [
    "tıklayın", "tıklanır", "tıklanacak", "butona", "butonuna", "menüden", "seçin", "girin",
    "ekran açılır", "açılır", "penceresi açılır", "görüntülenir", "görünür", "sayfa açılır",
    "click", "select", "choose", "enter", "opens", "displayed", "shown"]

  /** `sum(1 for c in t if c in " .,;")` */
  function PunctuationCount(t: string): (n: nat)
    ensures n <= |t|
  {
    if t == [] then 0 else (if t[0] in " .,;" then 1 else 0) + PunctuationCount(t[1..])
  }

  // The rules, in cascade order. `t` is the trimmed text.

  predicate HeaderFooterRule(kind: BlockType) { kind == Header || kind == Footer }
  predicate BlankRule(t: string) { t == [] }
  predicate PunctuationRule(t: string) { |t| <= 2 && t in LonePunctuation }
  predicate DigitsRule(t: string) { IsDigitString(t) }
  predicate DateRule(t: string) { DateMatch(t) && |t| < 80 }
  predicate CopyrightRule(t: string) { CopyrightMatch(t) }
  predicate UrlRule(t: string) { UrlMatch(t) && PunctuationCount(t) < 3 }
  predicate TocSectionRule(sectionTitle: string) {
    sectionTitle != [] && Lower(Strip(sectionTitle)) in TocMarkers
  }
  predicate IcindekilerRule(t: string) { Contains(Lower(t), "içindekiler") && |t| < 150 }
  predicate TocLineRule(t: string) { TocLine(t) && |t| < 120 }
  predicate UiRule(t: string) {
    |t| < 120 && exists m | 0 <= m < |UiMarkers| :: Contains(Lower(t), UiMarkers[m])
  }

  /** The rules of `_is_noise`. */
  datatype Rule =
    | HeaderOrFooter | Blank | LonePunctuationMark | DigitsOnly | DateLine | CopyrightLine
    | LinkLine | TocSection | IcindekilerMention | TocEntry | UiInstruction

  /** The order in which `_is_noise` tries its rules. */
  const Cascade: seq<Rule> := [
    HeaderOrFooter, Blank, LonePunctuationMark, DigitsOnly, DateLine, CopyrightLine,
    LinkLine, TocSection, IcindekilerMention, TocEntry, UiInstruction]

  /** `rule` fires on a block of type `kind` with trimmed text `t` in the
      section titled `sectionTitle`. */
  predicate Fires(rule: Rule, kind: BlockType, t: string, sectionTitle: string) {
    match rule
    case HeaderOrFooter => HeaderFooterRule(kind)
    case Blank => BlankRule(t)
    case LonePunctuationMark => PunctuationRule(t)
    case DigitsOnly => DigitsRule(t)
    case DateLine => DateRule(t)
    case CopyrightLine => CopyrightRule(t)
    case LinkLine => UrlRule(t)
    case TocSection => TocSectionRule(sectionTitle)
    case IcindekilerMention => IcindekilerRule(t)
    case TocEntry => TocLineRule(t)
    case UiInstruction => UiRule(t)
  }

  /** The rules tried in order: the first that fires answers True; once
      none is left the answer is False. */
  predicate FirstFires(rules: seq<Rule>, kind: BlockType, t: string, sectionTitle: string) {
    if rules == [] then false
    else if Fires(rules[0], kind, t, sectionTitle) then true
    else FirstFires(rules[1..], kind, t, sectionTitle)
  }

  /** `_is_noise(block_type, text, section_title)`: the cascade on the
      trimmed text. What it amounts to, NoiseRules states. */
  predicate IsNoise(kind: BlockType, text: string, sectionTitle: string) {
    FirstFires(Cascade, kind, Strip(text), sectionTitle)
  }

  /** Since no rule answers False, trying rules in order answers True
      exactly when one of them fires, whatever the order. */
  lemma {:induction false} FirstFiresSome(rules: seq<Rule>, kind: BlockType, t: string, sectionTitle: string)
    ensures FirstFires(rules, kind, t, sectionTitle) <==>
      exists m | 0 <= m < |rules| :: Fires(rules[m], kind, t, sectionTitle)
  {
    if rules != [] {
      var rest := rules[1..];
      FirstFiresSome(rest, kind, t, sectionTitle);
      if !Fires(rules[0], kind, t, sectionTitle) {
        if exists m | 0 <= m < |rules| :: Fires(rules[m], kind, t, sectionTitle) {
          var m :| 0 <= m < |rules| && Fires(rules[m], kind, t, sectionTitle);
          assert rest[m - 1] == rules[m];
        }
        if exists m | 0 <= m < |rest| :: Fires(rest[m], kind, t, sectionTitle) {
          var m :| 0 <= m < |rest| && Fires(rest[m], kind, t, sectionTitle);
          assert rules[m + 1] == rest[m];
        }
      }
    }
  }

  /** The cascade of `_is_noise` holds exactly when one of its rules does. */
  lemma NoiseRules(kind: BlockType, text: string, sectionTitle: string)
    ensures IsNoise(kind, text, sectionTitle) <==>
      var t := Strip(text);
      || HeaderFooterRule(kind) || BlankRule(t) || PunctuationRule(t) || DigitsRule(t)
      || DateRule(t) || CopyrightRule(t) || UrlRule(t) || TocSectionRule(sectionTitle)
      || IcindekilerRule(t) || TocLineRule(t) || UiRule(t)
  {
    var t := Strip(text);
    FirstFiresSome(Cascade, kind, t, sectionTitle);
    assert Cascade[0] == HeaderOrFooter && Cascade[1] == Blank && Cascade[2] == LonePunctuationMark;
    assert Cascade[3] == DigitsOnly && Cascade[4] == DateLine && Cascade[5] == CopyrightLine;
    assert Cascade[6] == LinkLine && Cascade[7] == TocSection && Cascade[8] == IcindekilerMention;
    assert Cascade[9] == TocEntry && Cascade[10] == UiInstruction;
  }

  /** A block on which rule `m` of the cascade fires is noise. */
  lemma RuleFiresNoise(m: nat, kind: BlockType, text: string, sectionTitle: string)
    requires m < |Cascade| && Fires(Cascade[m], kind, Strip(text), sectionTitle)
    ensures IsNoise(kind, text, sectionTitle)
  {
    FirstFiresSome(Cascade, kind, Strip(text), sectionTitle);
  }

  /** Headers and footers are always noise. */
  lemma HeaderFooterIsNoise(kind: BlockType, text: string, sectionTitle: string)
    requires kind == Header || kind == Footer
    ensures IsNoise(kind, text, sectionTitle)
  {
    RuleFiresNoise(0, kind, text, sectionTitle);
  }

  /** A text of whitespace only (the empty text included) is always noise. */
  lemma BlankIsNoise(kind: BlockType, text: string, sectionTitle: string)
    requires forall k :: 0 <= k < |text| ==> IsSpace(text[k])
    ensures IsNoise(kind, text, sectionTitle)
  {
    StripBlank(text);
    RuleFiresNoise(1, kind, text, sectionTitle);
  }

  /** A bare number (digits, once trimmed) is always noise. */
  lemma DigitsAreNoise(kind: BlockType, text: string, sectionTitle: string)
    requires IsDigitString(Strip(text))
    ensures IsNoise(kind, text, sectionTitle)
  {
    RuleFiresNoise(3, kind, text, sectionTitle);
  }

  /** The section title enters the cascade through one rule only: a block
      is noise exactly when it is noise on its own, outside any section, or
      its section is a table of contents. */
  lemma NoiseSplits(kind: BlockType, text: string, sectionTitle: string)
    ensures IsNoise(kind, text, sectionTitle) == (IsNoise(kind, text, "") || TocSectionRule(sectionTitle))
  {
    NoiseRules(kind, text, sectionTitle);
    NoiseRules(kind, text, "");
  }

  /** Every block of a table-of-contents section is noise, whatever its text. */
  lemma TocSectionIsNoise(kind: BlockType, text: string, sectionTitle: string)
    requires Lower(Strip(sectionTitle)) == "contents"
    ensures IsNoise(kind, text, sectionTitle)
  {
    assert TocMarkers[1] == "contents";
    RuleFiresNoise(7, kind, text, sectionTitle);
  }

  /** A date line shorter than 80 characters is noise. */
  lemma DateLineIsNoise(kind: BlockType, text: string, sectionTitle: string)
    requires DateMatch(Strip(text)) && |Strip(text)| < 80
    ensures IsNoise(kind, text, sectionTitle)
  {
    assert Cascade[4] == DateLine;
    assert DateRule(Strip(text));
    RuleFiresNoise(4, kind, text, sectionTitle);
  }

  /** A date on its own is noise. */
  lemma DateIsNoise()
    ensures IsNoise(Paragraph, "12/05/2023", "")
  {
    var t := "12/05/2023";
    DateExample();
    assert Trimmed(t) by {
      assert t[0] == '1' && t[|t| - 1] == '3';
    }
    StripTrimmed(t);
    DateLineIsNoise(Paragraph, t, "");
  }

  /** A ten-character text without a capital İ, led by a capital İ, does
      not contain "içindekiler" once lowercased: `lower()` turns İ into i
      followed by a combining dot above, and the marker has a plain i. */
  lemma DottedCapitalEscapes(rest: string)
    requires 'İ' !in rest && |rest| == 10
    ensures !Contains(Lower(['İ'] + rest), "içindekiler")
  {
    var s := ['İ'] + rest;
    assert s[0] == 'İ' && s[1..] == rest;
    var l := Lower(s);
    assert l == ['i', '\U{307}'] + Lower(rest);
    LowerKeepsLength(rest);
    var m := "içindekiler";
    assert |l| - |m| == 1;
    forall i | 0 <= i <= |l| - |m| ensures !OccursAt(l, m, i) {
      if i == 0 {
        assert l[1] != m[1];
      } else {
        assert l[1] != m[0];
      }
    }
  }

  /** The capitalised heading "İçindekiler" is not caught by the
      "içindekiler" rule. */
  lemma CapitalIcindekilerEscapesRule()
    ensures !IcindekilerRule("İçindekiler")
  {
    assert "İçindekiler" == ['İ'] + "çindekiler";
    DottedCapitalEscapes("çindekiler");
  }

  /** `_should_discard_toc(block)`: only blocks of type other are discarded,
      and those when their trimmed text is empty, all digits, mentions
      "içindekiler" or "contents" once lowercased, or holds a run of four or
      more dots. */
  function ShouldDiscardToc(b: Block): (discard: bool)
    ensures discard ==> b.kind == Other
    ensures discard <==>
      var t := Strip(b.text);
      b.kind == Other &&
      (t == [] || IsDigitString(t) || Contains(Lower(t), "içindekiler")
       || Contains(Lower(t), "contents") || DotRun(t))
  {
    if b.kind != Other then false
    else
      var t := Strip(b.text);
      if t == [] then true
      else if IsDigitString(t) then true
      else
        var lower := Lower(t);
        if Contains(lower, "içindekiler") || Contains(lower, "contents") then true
        else if DotRun(t) then true
        else false
  }

  /** A dotted table-of-contents entry of type other is discarded. */
  lemma DotLeaderDiscarded(b: Block)
    requires b.kind == Other && b.text == "Giriş ..... 3"
    ensures ShouldDiscardToc(b)
  {
    var t := b.text;
    assert Trimmed(t) by {
      assert t[0] == 'G' && t[|t| - 1] == '3';
    }
    StripTrimmed(t);
    assert OccursAt(t, "....", 6);
    assert DotRun(Strip(t));
  }
}
