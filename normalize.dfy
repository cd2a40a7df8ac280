/** `_normalize_text`: the canonical form of a block's text, used by the
    boilerplate detector as its grouping key. */
module Normalize {
  import opened PyStr

  /** No two whitespace characters stand next to each other. */
  predicate NoAdjacentSpaces(s: string) {
    forall k :: 0 <= k < |s| - 1 ==> !(IsSpace(s[k]) && IsSpace(s[k + 1]))
  }

  /** The only whitespace character left is the plain space. */
  predicate OnlyPlainSpaces(s: string) {
    forall k :: 0 <= k < |s| ==> IsSpace(s[k]) ==> s[k] == ' '
  }

  /** Every word is non-empty and holds no whitespace. */
  predicate Words(ws: seq<string>) {
    forall i :: 0 <= i < |ws| ==> ws[i] != [] && NoSpace(ws[i])
  }

  lemma WordsTail(ws: seq<string>)
    requires Words(ws) && ws != []
    ensures Words(ws[1..])
  {
    forall i | 0 <= i < |ws| - 1 ensures ws[1..][i] != [] && NoSpace(ws[1..][i]) {
      assert ws[1..][i] == ws[i + 1];
    }
  }

  /** Joining non-empty, whitespace-free words with single spaces gives a
      string that is empty only for no words, has a word character at each
      end, and whose only whitespace are isolated plain spaces. */
  lemma {:induction false} JoinShape(ws: seq<string>)
    requires Words(ws)
    ensures var j := Join(ws, " ");
      && (j == [] <==> ws == [])
      && Trimmed(j)
      && NoAdjacentSpaces(j)
      && OnlyPlainSpaces(j)
  {
    if |ws| > 1 {
      assert ws[0] != [] && NoSpace(ws[0]);
      WordsTail(ws);
      JoinShape(ws[1..]);
      var rest := Join(ws[1..], " ");
      var j := ws[0] + " " + rest;
      assert j == Join(ws, " ");
      assert j[|j| - 1] == rest[|rest| - 1];
      forall k | 0 <= k < |j| - 1
        ensures !(IsSpace(j[k]) && IsSpace(j[k + 1]))
      {
        if k < |ws[0]| {
          assert !IsSpace(ws[0][k]);
        } else if k == |ws[0]| {
          assert j[k + 1] == rest[0];
        } else {
          assert j[k] == rest[k - |ws[0]| - 1];
          assert j[k + 1] == rest[k + 1 - |ws[0]| - 1];
        }
      }
      forall k | 0 <= k < |j|
        ensures IsSpace(j[k]) ==> j[k] == ' '
      {
        if k < |ws[0]| {
          assert j[k] == ws[0][k];
        } else if k > |ws[0]| {
          assert j[k] == rest[k - |ws[0]| - 1];
        }
      }
    } else if |ws| == 1 {
      assert Join(ws, " ") == ws[0];
      assert ws[0] != [] && NoSpace(ws[0]);
    }
  }

  /** Splitting a string that starts with whitespace skips it. */
  lemma SplitAfterSpace(c: char, s: string)
    requires IsSpace(c)
    ensures Split([c] + s) == Split(s)
  {
    assert ([c] + s)[1..] == s;
  }

  /** Splitting a word followed by whitespace (or nothing) yields the word,
      then the words of the rest. */
  lemma SplitWordThen(w: string, t: string)
    requires w != [] && NoSpace(w)
    requires t == [] || IsSpace(t[0])
    ensures Split(w + t) == [w] + Split(t)
  {
    var s := w + t;
    assert s[0] == w[0];
    assert TrimLeft(s) == s;
    WordLengthOfWord(w, t);
    assert s[..|w|] == w;
    assert s[|w|..] == t;
  }

  lemma SplitSingleWord(w: string)
    requires w != [] && NoSpace(w)
    ensures Split(w) == [w]
  {
    SplitWordThen(w, []);
    assert w + [] == w;
    assert TrimLeft([]) == [];
  }

  lemma JoinCons(ws: seq<string>)
    requires |ws| >= 2
    ensures Join(ws, " ") == ws[0] + ([' '] + Join(ws[1..], " "))
  {
  }

  /** Splitting a joined list yields its first word, then the split of the
      joined tail. */
  lemma SplitJoinHead(ws: seq<string>)
    requires Words(ws) && |ws| >= 2
    ensures Split(Join(ws, " ")) == [ws[0]] + Split(Join(ws[1..], " "))
  {
    JoinCons(ws);
    assert ws[0] != [] && NoSpace(ws[0]);
    SplitWordThen(ws[0], [' '] + Join(ws[1..], " "));
    SplitAfterSpace(' ', Join(ws[1..], " "));
  }

  /** A sequence that is the head of `s` followed by the tail of `s` is `s`. */
  lemma ConsTail<T>(x: seq<T>, s: seq<T>, y: seq<T>)
    requires s != [] && y == s[1..] && x == [s[0]] + y
    ensures x == s
  {
  }

  /** One step of SplitJoin: from the tail to the whole list. */
  lemma SplitJoinStep(ws: seq<string>)
    requires Words(ws) && |ws| >= 2
    requires Split(Join(ws[1..], " ")) == ws[1..]
    ensures Split(Join(ws, " ")) == ws
  {
    SplitJoinHead(ws);
    ConsTail(Split(Join(ws, " ")), ws, Split(Join(ws[1..], " ")));
  }

  /** Splitting undoes joining with single spaces. */
  lemma {:induction false} SplitJoin(ws: seq<string>)
    requires Words(ws)
    ensures Split(Join(ws, " ")) == ws
  {
    if |ws| == 1 {
      SplitSingleWord(ws[0]);
    } else if |ws| >= 2 {
      WordsTail(ws);
      SplitJoin(ws[1..]);
      SplitJoinStep(ws);
    } else {
      assert TrimLeft([]) == [];
    }
  }

  /** The leading word of `w + t` is `w` when `t` is empty or starts with
      whitespace. */
  lemma {:induction false} WordLengthOfWord(w: string, t: string)
    requires NoSpace(w)
    requires t == [] || IsSpace(t[0])
    ensures WordLength(w + t) == |w|
    decreases |w|
  {
    if w != [] {
      assert (w + t)[1..] == w[1..] + t;
      WordLengthOfWord(w[1..], t);
    } else {
      assert w + t == t;
    }
  }

  /** `_normalize_text`: "" for empty input; otherwise the words of the text
      joined by single spaces. The result has no whitespace at either end, no
      two adjacent whitespace characters, and no whitespace but plain spaces.
      Unicode NFC composition is not modelled (taken as the identity). */
  function NormalizeText(text: string): (r: string)
    ensures text == [] ==> r == []
    ensures Trimmed(r)
    ensures NoAdjacentSpaces(r)
    ensures OnlyPlainSpaces(r)
  {
    if text == [] then []
    else
      var ws := Split(text);
      SplitWords(text);
      JoinShape(ws);
      StripSlice(Join(ws, " "));
      Strip(Join(ws, " "))
  }

  /** Normalizing keeps the words, in order. */
  lemma NormalizeKeepsWords(text: string)
    ensures Split(NormalizeText(text)) == Split(text)
  {
    if text != [] {
      var ws := Split(text);
      SplitWords(text);
      JoinShape(ws);
      SplitJoin(ws);
    } else {
      assert TrimLeft(text) == [];
    }
  }

  /** Normalizing twice is normalizing once. */
  lemma NormalizeIdempotent(text: string)
    ensures NormalizeText(NormalizeText(text)) == NormalizeText(text)
  {
    var n := NormalizeText(text);
    if n != [] {
      NormalizeKeepsWords(text);
      assert text != [];
      assert n == Strip(Join(Split(text), " "));
      assert NormalizeText(n) == Strip(Join(Split(n), " "));
    }
  }
}
