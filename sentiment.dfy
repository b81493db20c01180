/**
 * The lexicon sentiment scorer: the text is lower-cased, every character that
 * is not a letter, digit or whitespace becomes a space, and the whitespace
 * separated tokens are looked up in a positive and a negative word list. The
 * score is (p - n) / (p + n) over the hit counts, or 0 without hits.
 */
module Sentiment {
  import opened Text
  import opened Seqs
  import opened Numeric
  import opened Wrappers

  /** The two word lists, already normalised (see `NormalizeWordList`). */
  datatype Lexicon = Lexicon(positive: seq<string>, negative: seq<string>)

  predicate IsWordChar(c: char) {
    IsLetter(c) || IsDigit(c) || IsSpace(c)
  }

  /**
   * Lower-casing, then replacing every character that is not a letter, digit
   * or whitespace by a space.
   */
  function Normalize(text: string): (r: string)
    ensures |r| == |text|
    ensures forall k :: 0 <= k < |r| ==> IsWordChar(r[k]) && !IsUpper(r[k])
    ensures forall k :: 0 <= k < |r| ==> r[k] == if IsWordChar(text[k]) then Lower(text[k]) else ' '
  {
    seq(|text|, k requires 0 <= k < |text| => if IsWordChar(text[k]) then Lower(text[k]) else ' ')
  }

  /** The tokens of a text: the whitespace separated runs of its normalised form. */
  function Tokens(text: string): seq<string> {
    Split(Normalize(text))
  }

  /** The number of tokens that occur in `words` (one `in_array` test per token). */
  function Hits(tokens: seq<string>, words: seq<string>): (n: nat)
    ensures n <= |tokens|
  {
    if tokens == [] then 0
    else Hits(tokens[..|tokens| - 1], words) + (if tokens[|tokens| - 1] in words then 1 else 0)
  }

  /** The score of a token sequence: (p - n) / (p + n), or 0 when no token is a hit. */
  function Polarity(tokens: seq<string>, lex: Lexicon): real {
    var p := Hits(tokens, lex.positive);
    var n := Hits(tokens, lex.negative);
    if p + n == 0 then 0.0 else (p as real - n as real) / (p + n) as real
  }

  /** (p - n) / (p + n) never leaves [-1, 1], so the clamp in the scorer changes nothing. */
  lemma PolarityBounds(tokens: seq<string>, lex: Lexicon)
    ensures -1.0 <= Polarity(tokens, lex) <= 1.0
  {
    var p := Hits(tokens, lex.positive);
    var n := Hits(tokens, lex.negative);
    if p + n > 0 {
      Ratio(p, n);
    }
  }

  /**
   * `analyze_sentiment`: counts the hits of every token in both lists, then
   * divides and clamps.
   */
  method AnalyzeSentiment(text: string, lex: Lexicon) returns (score: real)
    ensures score == Polarity(Tokens(text), lex)
    ensures -1.0 <= score <= 1.0
  {
    var tokens := Tokens(text);
    PolarityBounds(tokens, lex);
    if |tokens| == 0 {
      return 0.0;
    }
    var positive, negative := 0, 0;
    var i := 0;
    while i < |tokens|
      invariant 0 <= i <= |tokens|
      invariant positive == Hits(tokens[..i], lex.positive)
      invariant negative == Hits(tokens[..i], lex.negative)
    {
      assert tokens[..i + 1][..i] == tokens[..i];
      if tokens[i] in lex.positive {
        positive := positive + 1;
      }
      if tokens[i] in lex.negative {
        negative := negative + 1;
      }
      i := i + 1;
    }
    assert tokens[..i] == tokens;
    var total := positive + negative;
    if total == 0 {
      return 0.0;
    }
    score := (positive - negative) as real / total as real;
    score := Max(-1.0, Min(1.0, score));
  }

  // ---------------------------------------------------------------------------
  // Properties of the score

  /** The ratio (p - n) / (p + n) of two hit counts, not both zero: 1 without negatives, -1 without positives, 0 when they balance. */
  lemma Ratio(p: nat, n: nat)
    requires p + n > 0
    ensures var q := (p as real - n as real) / (p + n) as real;
            && (q == 1.0 <==> n == 0)
            && (q == -1.0 <==> p == 0)
            && (q == 0.0 <==> p == n)
            && -1.0 <= q <= 1.0
  {
    var t := (p + n) as real;
    var m := p as real - n as real;
    assert t == p as real + n as real;
    DifferenceWithinSum(m, p as real, n as real);
    UnitBounds(m / t, t, m);
  }

  /** A quotient q = m / t with |m| <= t lies in [-1, 1], and reaches 1, -1 or 0 exactly when m is t, -t or 0. */
  lemma UnitBounds(q: real, t: real, m: real)
    requires t > 0.0 && q == m / t && -t <= m <= t
    ensures -1.0 <= q <= 1.0
    ensures q == 1.0 <==> m == t
    ensures q == -1.0 <==> m == -t
    ensures q == 0.0 <==> m == 0.0
  {
    assert q * t == m;
    Scale(q, 1.0, t);
    Scale(1.0, q, t);
    Scale(q, -1.0, t);
    Scale(-1.0, q, t);
  }

  lemma DifferenceWithinSum(m: real, a: real, b: real)
    requires m == a - b && a >= 0.0 && b >= 0.0
    ensures -(a + b) <= m <= a + b
    ensures m == a + b <==> b == 0.0
    ensures m == -(a + b) <==> a == 0.0
  {
  }

  /** The score is exactly 1 iff some token is positive and none is negative. */
  lemma PolarityOne(tokens: seq<string>, lex: Lexicon)
    ensures Polarity(tokens, lex) == 1.0 <==>
              Hits(tokens, lex.positive) > 0 && Hits(tokens, lex.negative) == 0
  {
    var p := Hits(tokens, lex.positive);
    var n := Hits(tokens, lex.negative);
    if p + n > 0 {
      Ratio(p, n);
    }
  }

  /** The score is exactly -1 iff some token is negative and none is positive. */
  lemma PolarityMinusOne(tokens: seq<string>, lex: Lexicon)
    ensures Polarity(tokens, lex) == -1.0 <==>
              Hits(tokens, lex.negative) > 0 && Hits(tokens, lex.positive) == 0
  {
    var p := Hits(tokens, lex.positive);
    var n := Hits(tokens, lex.negative);
    if p + n > 0 {
      Ratio(p, n);
    }
  }

  /** The score is 0 exactly when the two hit counts are equal, in particular when there are no hits. */
  lemma PolarityZero(tokens: seq<string>, lex: Lexicon)
    ensures Polarity(tokens, lex) == 0.0 <==> Hits(tokens, lex.positive) == Hits(tokens, lex.negative)
  {
    var p := Hits(tokens, lex.positive);
    var n := Hits(tokens, lex.negative);
    if p + n > 0 {
      Ratio(p, n);
    }
  }

  lemma {:induction false} HitsAppend(a: seq<string>, b: seq<string>, words: seq<string>)
    ensures Hits(a + b, words) == Hits(a, words) + Hits(b, words)
    decreases |b|
  {
    if b == [] {
      assert a + b == a;
    } else {
      assert (a + b)[..|a + b| - 1] == a + b[..|b| - 1];
      HitsAppend(a, b[..|b| - 1], words);
    }
  }

  /** A token that is in both lists counts once on each side. */
  lemma SharedTokenCountsTwice(tokens: seq<string>, x: string, lex: Lexicon)
    requires x in lex.positive && x in lex.negative
    ensures Hits(tokens + [x], lex.positive) == Hits(tokens, lex.positive) + 1
    ensures Hits(tokens + [x], lex.negative) == Hits(tokens, lex.negative) + 1
  {
    assert (tokens + [x])[..|tokens|] == tokens;
  }

  /** Removing the token at position `k` removes its hit, if any. */
  lemma HitsRemove(b: seq<string>, k: nat, words: seq<string>)
    requires k < |b|
    ensures Hits(b, words) == Hits(b[..k] + b[k + 1..], words) + Hits([b[k]], words)
  {
    assert b == b[..k] + [b[k]] + b[k + 1..];
    HitsAppend(b[..k] + [b[k]], b[k + 1..], words);
    HitsAppend(b[..k], [b[k]], words);
    HitsAppend(b[..k], b[k + 1..], words);
  }

  lemma MultisetRemove(a: seq<string>, b: seq<string>, k: nat)
    requires a != [] && k < |b| && b[k] == a[|a| - 1]
    requires multiset(a) == multiset(b)
    ensures multiset(a[..|a| - 1]) == multiset(b[..k] + b[k + 1..])
  {
    var x := a[|a| - 1];
    assert a == a[..|a| - 1] + [x];
    assert b == b[..k] + [x] + b[k + 1..];
    assert multiset(b) == multiset(b[..k] + b[k + 1..]) + multiset{x};
    assert multiset(a) == multiset(a[..|a| - 1]) + multiset{x};
    var ma, mb := multiset(a[..|a| - 1]), multiset(b[..k] + b[k + 1..]);
    forall y
      ensures ma[y] == mb[y]
    {
      assert multiset(a)[y] == ma[y] + multiset{x}[y];
      assert multiset(b)[y] == mb[y] + multiset{x}[y];
    }
  }

  /** The hit count depends only on the multiset of tokens. */
  lemma {:induction false} HitsPermutation(a: seq<string>, b: seq<string>, words: seq<string>)
    requires multiset(a) == multiset(b)
    ensures Hits(a, words) == Hits(b, words)
    decreases |a|
  {
    if a != [] {
      var x := a[|a| - 1];
      assert x in multiset(b);
      var k :| 0 <= k < |b| && b[k] == x;
      MultisetRemove(a, b, k);
      HitsPermutation(a[..|a| - 1], b[..k] + b[k + 1..], words);
      HitsRemove(b, k, words);
      HitsRemove(a, |a| - 1, words);
      assert a[..|a| - 1] + a[|a|..] == a[..|a| - 1];
    } else {
      assert |b| == |multiset(b)| == 0;
    }
  }

  /** Reordering the tokens does not change the score. */
  lemma PolarityPermutation(a: seq<string>, b: seq<string>, lex: Lexicon)
    requires multiset(a) == multiset(b)
    ensures Polarity(a, lex) == Polarity(b, lex)
  {
    HitsPermutation(a, b, lex.positive);
    HitsPermutation(a, b, lex.negative);
  }

  /** Tokens are non-empty runs of lower-case letters and digits. */
  lemma TokensAreAlphanumeric(text: string)
    ensures forall i :: 0 <= i < |Tokens(text)| ==>
              |Tokens(text)[i]| > 0 &&
              forall k :: 0 <= k < |Tokens(text)[i]| ==> IsWordChar(Tokens(text)[i][k]) && !IsSpace(Tokens(text)[i][k])
  {
    var s := Normalize(text);
    SplitParts(s);
  }

  lemma {:induction false} SplitParts(s: string)
    ensures forall i :: 0 <= i < |Split(s)| ==> forall k :: 0 <= k < |Split(s)[i]| ==> Split(s)[i][k] in s
    decreases |s|
  {
    if s != [] {
      if IsSpace(s[0]) {
        SplitParts(s[1..]);
      } else {
        var j := WordEnd(s, 0);
        SplitParts(s[j..]);
        var r := Split(s);
        assert r == [s[..j]] + Split(s[j..]);
        forall i | 0 <= i < |r|
          ensures forall k :: 0 <= k < |r[i]| ==> r[i][k] in s
        {
          if i > 0 {
            assert r[i] == Split(s[j..])[i - 1];
            forall k | 0 <= k < |r[i]|
              ensures r[i][k] in s
            {
              var c := r[i][k];
              assert c in s[j..];
            }
          }
        }
      }
    }
  }

  lemma NormalizeExample()
    ensures Normalize("great!!!good") == "great   good"
  {
  }

  lemma SplitExample()
    ensures Split("great   good") == ["great", "good"]
  {
    var s := "great   good";
    assert WordEnd(s, 0) == 5 by {
      assert IsSpace(s[5]);
      assert WordEnd(s, 5) == 5;
    }
    assert s[..5] == "great" && s[5..] == "   good";
    assert Split(s) == ["great"] + Split("   good");
    SplitLeadingSpaces();
  }

  lemma SplitLeadingSpaces()
    ensures Split("   good") == ["good"]
  {
    assert Split("   good") == Split("good") by {
      assert "   good"[1..] == "  good" && "  good"[1..] == " good" && " good"[1..] == "good";
    }
    assert WordEnd("good", 0) == 4;
    assert "good"[4..] == "" && "good"[..4] == "good";
  }

  /** Punctuation separates tokens: "great!!!good" has the two tokens "great" and "good". */
  lemma PunctuationSplits()
    ensures Tokens("great!!!good") == ["great", "good"]
  {
    NormalizeExample();
    SplitExample();
  }

  // ---------------------------------------------------------------------------
  // Labels

  datatype Label = Positive | Negative | Neutral

  /** `get_sentiment_label`: strictly above 0.3 is positive, strictly below -0.3 negative. */
  function SentimentLabel(score: real): (l: Label)
    ensures l == Positive <==> score > 0.3
    ensures l == Negative <==> score < -0.3
    ensures l == Neutral <==> -0.3 <= score <= 0.3
  {
    if score > 0.3 then Positive
    else if score < -0.3 then Negative
    else Neutral
  }

  /** A text is labelled positive exactly when 7 p > 13 n for its hit counts p and n. */
  lemma LabelOfHits(tokens: seq<string>, lex: Lexicon)
    ensures SentimentLabel(Polarity(tokens, lex)) == Positive <==>
              7 * Hits(tokens, lex.positive) > 13 * Hits(tokens, lex.negative)
  {
    var p := Hits(tokens, lex.positive);
    var n := Hits(tokens, lex.negative);
    if p + n > 0 {
      RatioAbove(p as real, n as real);
    }
  }

  lemma RatioAbove(p: real, n: real)
    requires p >= 0.0 && n >= 0.0 && p + n > 0.0
    ensures (p - n) / (p + n) > 0.3 <==> 7.0 * p > 13.0 * n
  {
    var t := p + n;
    var q := (p - n) / t;
    assert q * t == p - n;
    Scale(q, 0.3, t);
    assert 0.3 * t == 0.3 * p + 0.3 * n;
    assert q > 0.3 <==> p - n > 0.3 * p + 0.3 * n;
  }

  lemma Scale(q: real, c: real, t: real)
    requires t > 0.0
    ensures q > c <==> q * t > c * t
  {
    if q > c {
      assert (q - c) * t > 0.0;
    } else {
      assert (c - q) * t >= 0.0;
    }
  }

  // ---------------------------------------------------------------------------
  // Word lists

  /** `explode` on one separator character: the pieces between separators, at least one. */
  function Explode(s: string, sep: char): (r: seq<string>)
    ensures |r| >= 1
    ensures forall i :: 0 <= i < |r| ==> sep !in r[i]
    decreases |s|
  {
    if s == [] then [""]
    else
      var rest := Explode(s[1..], sep);
      if s[0] == sep then [""] + rest else [[s[0]] + rest[0]] + rest[1..]
  }

  /** `implode`: the pieces glued with the separator. */
  function Implode(ps: seq<string>, sep: char): string {
    if ps == [] then "" else if |ps| == 1 then ps[0] else ps[0] + [sep] + Implode(ps[1..], sep)
  }

  /** Gluing the pieces of `explode` back together gives the text again. */
  lemma {:induction false} ImplodeExplode(s: string, sep: char)
    ensures Implode(Explode(s, sep), sep) == s
    decreases |s|
  {
    if s != [] {
      var rest := Explode(s[1..], sep);
      ImplodeExplode(s[1..], sep);
      if s[0] == sep {
        assert s == [sep] + s[1..];
      } else {
        assert s == [s[0]] + s[1..];
        if |rest| > 1 {
          assert Implode(rest, sep) == rest[0] + [sep] + Implode(rest[1..], sep);
        }
      }
    }
  }

  /** Each line trimmed, then `array_filter` drops "" and "0", then every entry is lower-cased. */
  function NormalizeWordList(lines: seq<string>): (ws: seq<string>)
    ensures |ws| <= |lines|
  {
    if lines == [] then []
    else
      var rest := NormalizeWordList(lines[1..]);
      var t := Trim(lines[0]);
      if IsFalsy(t) then rest else [LowerStr(t)] + rest
  }

  /** Line `i` survives the filter and becomes the word `w`. */
  predicate KeptAt(lines: seq<string>, i: int, w: string) {
    0 <= i < |lines| && !IsFalsy(Trim(lines[i])) && w == LowerStr(Trim(lines[i]))
  }

  /** A word is in the list exactly when some line, trimmed, is neither "" nor "0" and lower-cases to it. */
  lemma {:induction false} NormalizeWordListMembers(lines: seq<string>, w: string)
    ensures w in NormalizeWordList(lines) <==> exists i :: KeptAt(lines, i, w)
  {
    if lines != [] {
      var rest := NormalizeWordList(lines[1..]);
      NormalizeWordListMembers(lines[1..], w);
      if w in NormalizeWordList(lines) {
        if !KeptAt(lines, 0, w) {
          assert w in rest;
          var j :| KeptAt(lines[1..], j, w);
          assert lines[1..][j] == lines[j + 1];
          assert KeptAt(lines, j + 1, w);
        }
      }
      if exists i :: KeptAt(lines, i, w) {
        var i :| KeptAt(lines, i, w);
        if i > 0 {
          assert lines[1..][i - 1] == lines[i];
          assert KeptAt(lines[1..], i - 1, w);
        }
      }
    }
  }

  /** Neither "" nor "0", lower-case, and without a trim character at either end. */
  predicate IsNormalizedWord(w: string) {
    w != "" && w != "0" && IsLowerStr(w) && !IsTrimChar(w[0]) && !IsTrimChar(w[|w| - 1])
  }

  /** A line that is not falsy once trimmed becomes a normalised word. */
  lemma NormalizedLine(line: string)
    requires !IsFalsy(Trim(line))
    ensures IsNormalizedWord(LowerStr(Trim(line)))
  {
    LoweredTrimmed(Trim(line));
  }

  /** Lower-casing keeps a trimmed string other than "" and "0" trimmed and other than "" and "0". */
  lemma LoweredTrimmed(t: string)
    requires t != "" && t != "0" && !IsTrimChar(t[0]) && !IsTrimChar(t[|t| - 1])
    ensures IsNormalizedWord(LowerStr(t))
  {
    var w := LowerStr(t);
    LowerStrFixes(t);
    LowerChar(t[0]);
    LowerChar(t[|t| - 1]);
    assert w[0] == Lower(t[0]) && w[|w| - 1] == Lower(t[|t| - 1]);
    assert |t| == 1 ==> t == [t[0]];
  }

  /** Every entry of a normalised word list is trimmed, lower-case, and neither "" nor "0". */
  lemma {:induction false} NormalizedEntries(lines: seq<string>)
    ensures forall i :: 0 <= i < |NormalizeWordList(lines)| ==> IsNormalizedWord(NormalizeWordList(lines)[i])
  {
    if lines != [] {
      var rest := NormalizeWordList(lines[1..]);
      NormalizedEntries(lines[1..]);
      var t := Trim(lines[0]);
      if !IsFalsy(t) {
        var r := NormalizeWordList(lines);
        assert r == [LowerStr(t)] + rest;
        NormalizedLine(lines[0]);
        forall i | 0 <= i < |r|
          ensures IsNormalizedWord(r[i])
        {
          if i > 0 {
            assert r[i] == rest[i - 1];
          }
        }
      }
    }
  }

  /** Normalising a normalised list changes nothing. */
  lemma {:induction false} NormalizeWordListIdempotent(lines: seq<string>)
    ensures NormalizeWordList(NormalizeWordList(lines)) == NormalizeWordList(lines)
  {
    NormalizedEntries(lines);
    NormalizedFixed(NormalizeWordList(lines));
  }

  lemma {:induction false} NormalizedFixed(ws: seq<string>)
    requires forall i :: 0 <= i < |ws| ==> IsNormalizedWord(ws[i])
    ensures NormalizeWordList(ws) == ws
  {
    if ws != [] {
      var w := ws[0];
      assert IsNormalizedWord(w);
      assert forall i :: 0 <= i < |ws[1..]| ==> ws[1..][i] == ws[i + 1];
      NormalizedFixed(ws[1..]);
      LowerStrFixes(w);
      TrimKeeps(w);
      assert ws == [w] + ws[1..];
    }
  }

  /** One word list as loaded: a missing file gives an empty list, otherwise its lines are normalised. */
  function LoadWordList(content: Option<string>): (ws: seq<string>)
    ensures content.None? ==> ws == []
    ensures forall i :: 0 <= i < |ws| ==> IsNormalizedWord(ws[i])
  {
    match content
    case None => []
    case Some(c) =>
      NormalizedEntries(Explode(c, '\n'));
      NormalizeWordList(Explode(c, '\n'))
  }

  /** A loaded list holds exactly the lower-cased trimmed lines of the file that are neither "" nor "0". */
  lemma LoadWordListMembers(content: string, w: string)
    ensures w in LoadWordList(Some(content)) <==> exists i :: KeptAt(Explode(content, '\n'), i, w)
  {
    LoadedLines(content);
    NormalizeWordListMembers(Explode(content, '\n'), w);
  }

  lemma LoadedLines(content: string)
    ensures LoadWordList(Some(content)) == NormalizeWordList(Explode(content, '\n'))
  {
  }

  /** Both word lists, from the contents of the positive and the negative file. */
  function LoadLexicon(positiveFile: Option<string>, negativeFile: Option<string>): Lexicon {
    Lexicon(LoadWordList(positiveFile), LoadWordList(negativeFile))
  }
}
