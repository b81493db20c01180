/**
 * Keyword extraction for community insights: lower-case the text, delete every
 * character that is neither a letter nor whitespace, split on whitespace, drop
 * stop words, count each word, sort the counts in descending order (stably, so
 * equal counts keep first-occurrence order) and keep the first five words.
 */
module Keywords {
  import opened Text
  import opened Seqs
  import opened Ranking

  /** The fourteen words never reported as keywords. */
  const StopWords: seq<string> :=
    ["the", "is", "are", "was", "were", "and", "but", "for", "with", "this", "that", "from", "have", "has"]

  /** How many keywords one post contributes. */
  const MaxKeywords := 5

  /** Deletes (rather than replaces) every character that is neither a letter nor whitespace. */
  function DeleteNonLetters(s: string): (r: string)
    ensures |r| <= |s|
  {
    if s == [] then []
    else
      var rest := DeleteNonLetters(s[1..]);
      if IsLetter(s[0]) || IsSpace(s[0]) then [s[0]] + rest else rest
  }

  /** Only letters and whitespace survive, each of them in order, and a text of letters and whitespace is kept whole. */
  lemma {:induction false} DeleteNonLettersSpec(s: string)
    ensures forall k :: 0 <= k < |DeleteNonLetters(s)| ==> IsLetter(DeleteNonLetters(s)[k]) || IsSpace(DeleteNonLetters(s)[k])
    ensures (forall k :: 0 <= k < |s| ==> IsLetter(s[k]) || IsSpace(s[k])) ==> DeleteNonLetters(s) == s
  {
    if s != [] {
      DeleteNonLettersSpec(s[1..]);
      var r := DeleteNonLetters(s);
      var rest := DeleteNonLetters(s[1..]);
      if IsLetter(s[0]) || IsSpace(s[0]) {
        assert r == [s[0]] + rest;
        assert forall k :: 0 < k < |r| ==> r[k] == rest[k - 1];
      }
    }
  }

  /** The whitespace separated words left after lower-casing and deleting non-letters. */
  function KeywordTokens(text: string): seq<string> {
    Split(DeleteNonLetters(LowerStr(text)))
  }

  /** `array_diff` against the stop words: every other word, in order. */
  function RemoveStopWords(ws: seq<string>): (r: seq<string>)
    ensures forall k :: 0 <= k < |r| ==> r[k] !in StopWords && r[k] in ws
    ensures forall k :: 0 <= k < |ws| && ws[k] !in StopWords ==> ws[k] in r
  {
    if ws == [] then []
    else
      var rest := RemoveStopWords(ws[1..]);
      if ws[0] in StopWords then rest else [ws[0]] + rest
  }

  /** The words of a post that compete to be keywords. */
  function ContentWords(text: string): seq<string> {
    RemoveStopWords(KeywordTokens(text))
  }

  /** An entry of `array_count_values`: a word and how often it occurs. */
  datatype Entry = Entry(word: string, count: nat)

  /** `array_count_values`: one entry per distinct word, in order of first occurrence. */
  function Frequencies(ws: seq<string>): (fs: seq<Entry>)
    ensures |fs| == |Unique(ws)|
    ensures forall k :: 0 <= k < |fs| ==> fs[k] == Entry(Unique(ws)[k], Count(ws, Unique(ws)[k]))
  {
    var u := Unique(ws);
    seq(|u|, k requires 0 <= k < |u| => Entry(u[k], Count(ws, u[k])))
  }

  /** `arsort` compares the counts only. */
  function ByCount(e: Entry): Key {
    Key(e.count as real, 0.0)
  }

  /** The order `arsort` leaves the entries in, as indices into `Frequencies(ws)`. */
  function CountOrder(ws: seq<string>): seq<nat> {
    Rank(KeysOf(Frequencies(ws), ByCount))
  }

  /** `extractKeywords`: the words of the first five entries after the stable descending sort. */
  function ExtractKeywords(text: string): (r: seq<string>)
    ensures |r| <= MaxKeywords
  {
    var ws := ContentWords(text);
    var fs := Frequencies(ws);
    var order := CountOrder(ws);
    var n := if |order| < MaxKeywords then |order| else MaxKeywords;
    seq(n, k requires 0 <= k < n => fs[order[k]].word)
  }

  /** The `k`-th keyword is the word of the `k`-th entry in count order. */
  lemma KeywordAt(text: string, k: nat)
    requires k < |ExtractKeywords(text)|
    ensures var ws := ContentWords(text);
            k < |CountOrder(ws)| && CountOrder(ws)[k] < |Unique(ws)| &&
            ExtractKeywords(text)[k] == Unique(ws)[CountOrder(ws)[k]]
  {
  }

  /** The keywords are distinct content words of the post, never stop words, and at most five. */
  lemma KeywordsAreDistinctContentWords(text: string)
    ensures var r := ExtractKeywords(text);
            |r| <= MaxKeywords && Distinct(r) &&
            forall k :: 0 <= k < |r| ==> r[k] in ContentWords(text) && r[k] !in StopWords
  {
    var ws := ContentWords(text);
    var r := ExtractKeywords(text);
    var order := CountOrder(ws);
    RankRanked(KeysOf(Frequencies(ws), ByCount));
    forall p, q | 0 <= p < q < |r|
      ensures r[p] != r[q]
    {
      KeywordAt(text, p);
      KeywordAt(text, q);
      assert order[p] != order[q];
    }
    forall k | 0 <= k < |r|
      ensures r[k] in ws && r[k] !in StopWords
    {
      KeywordAt(text, k);
    }
  }

  /**
   * The keywords are in non-increasing order of frequency, and words of equal
   * frequency keep the order in which they first occur in the post.
   */
  lemma KeywordsByFrequency(text: string)
    ensures var r := ExtractKeywords(text);
            var ws := ContentWords(text);
            && (forall k :: 0 <= k < |r| ==> r[k] in ws)
            && (forall p, q :: 0 <= p < q < |r| ==> Count(ws, r[p]) >= Count(ws, r[q]))
            && (forall p, q :: 0 <= p < q < |r| && Count(ws, r[p]) == Count(ws, r[q]) ==>
                  IndexOf(ws, r[p]) < IndexOf(ws, r[q]))
  {
    var ws := ContentWords(text);
    var r := ExtractKeywords(text);
    var fs := Frequencies(ws);
    var keys := KeysOf(fs, ByCount);
    var order := CountOrder(ws);
    RankRanked(keys);
    forall k | 0 <= k < |r|
      ensures r[k] in ws
    {
      KeywordAt(text, k);
    }
    forall p, q | 0 <= p < q < |r|
      ensures Count(ws, r[p]) >= Count(ws, r[q])
      ensures Count(ws, r[p]) == Count(ws, r[q]) ==> IndexOf(ws, r[p]) < IndexOf(ws, r[q])
    {
      KeywordAt(text, p);
      KeywordAt(text, q);
      assert Before(keys, order[p], order[q]);
      if Count(ws, r[p]) == Count(ws, r[q]) {
        assert keys[order[p]] == keys[order[q]];
        UniqueFirstOccurrence(ws, order[p], order[q]);
      }
    }
  }

  /** Every content word left out is no more frequent than any keyword, and fewer than five keywords means none was left out. */
  lemma KeywordsAreTopFive(text: string)
    ensures var r := ExtractKeywords(text);
            var ws := ContentWords(text);
            && (forall w, k :: w in ws && w !in r && 0 <= k < |r| ==> Count(ws, w) <= Count(ws, r[k]))
            && (|r| < MaxKeywords ==> forall w :: w in ws ==> w in r)
  {
    var ws := ContentWords(text);
    var r := ExtractKeywords(text);
    forall w | w in ws && w !in r
      ensures |r| == MaxKeywords
      ensures forall k :: 0 <= k < |r| ==> Count(ws, w) <= Count(ws, r[k])
    {
      LeftOutWord(text, w);
    }
  }

  /** A content word that is not a keyword was ranked below all five keywords. */
  lemma LeftOutWord(text: string, w: string)
    requires w in ContentWords(text) && w !in ExtractKeywords(text)
    ensures |ExtractKeywords(text)| == MaxKeywords
    ensures forall k :: 0 <= k < MaxKeywords ==>
              Count(ContentWords(text), w) <= Count(ContentWords(text), ExtractKeywords(text)[k])
  {
    var ws := ContentWords(text);
    var r := ExtractKeywords(text);
    var u := Unique(ws);
    var keys := KeysOf(Frequencies(ws), ByCount);
    var order := CountOrder(ws);
    RankRanked(keys);
    assert w in u;
    var j :| 0 <= j < |u| && u[j] == w;
    assert j in order;
    var q :| 0 <= q < |order| && order[q] == j;
    if q < |r| {
      KeywordAt(text, q);
      assert false;
    }
    forall k | 0 <= k < |r|
      ensures Count(ws, w) <= Count(ws, r[k])
    {
      KeywordAt(text, k);
      assert Before(keys, order[k], order[q]);
    }
  }

  predicate IsLetters(s: string) {
    forall k :: 0 <= k < |s| ==> IsLetter(s[k])
  }

  lemma {:induction false} DeleteAppend(a: string, b: string)
    ensures DeleteNonLetters(a + b) == DeleteNonLetters(a) + DeleteNonLetters(b)
  {
    if a != [] {
      assert (a + b)[1..] == a[1..] + b;
      DeleteAppend(a[1..], b);
    } else {
      assert a + b == b;
    }
  }

  lemma LowerAround(a: string, c: char, b: string)
    requires !IsUpper(c)
    ensures LowerStr(a + [c] + b) == LowerStr(a) + [c] + LowerStr(b)
  {
    var l, r := LowerStr(a + [c] + b), LowerStr(a) + [c] + LowerStr(b);
    forall k | 0 <= k < |l|
      ensures l[k] == r[k]
    {
      if k < |a| {
        assert (a + [c] + b)[k] == a[k];
      } else if k > |a| {
        assert (a + [c] + b)[k] == b[k - |a| - 1];
      }
    }
  }

  lemma LettersWord(la: string, lb: string)
    requires IsLetters(la) && IsLetters(lb) && |la + lb| > 0
    ensures IsWord(la + lb) && IsLetters(la + lb)
  {
    var w := la + lb;
    forall k | 0 <= k < |w|
      ensures IsLetter(w[k])
    {
      if k < |la| {
        assert w[k] == la[k];
      } else {
        assert w[k] == lb[k - |la|];
      }
    }
  }

  /**
   * A character that is neither a letter nor whitespace, digits included, is
   * deleted rather than split on: two runs of letters around it become one
   * word, so "battery-life" is "batterylife" and "5g" is "g".
   */
  lemma NonLetterJoins(a: string, c: char, b: string)
    requires IsLetters(a) && IsLetters(b) && |a + b| > 0
    requires !IsLetter(c) && !IsSpace(c)
    ensures KeywordTokens(a + [c] + b) == [LowerStr(a) + LowerStr(b)]
  {
    var la, lb := LowerStr(a), LowerStr(b);
    LowerAround(a, c, b);
    DeleteAppend(la + [c], lb);
    DeleteAppend(la, [c]);
    DeleteNonLettersSpec(la);
    DeleteNonLettersSpec(lb);
    assert DeleteNonLetters([c]) == [];
    assert la + [] == la;
    LettersWord(la, lb);
    SplitJoin([la + lb]);
  }
}
