/**
 * The keyword heuristic used whenever the remote scorer gives no usable
 * number: a low-sentiment marker scores 2, otherwise a high-sentiment marker
 * scores 9, otherwise the text is neutral (5). Matching is by substring on
 * the lower-cased text.
 */
module Fallback {
  import opened Text

  const LowKeywords: seq<string> := ["boring", "sleep", "tired", "bored"]
  const HighKeywords: seq<string> :=
    ["exciting", "fantastic", "great", "yes", "yeah", "cool", "nice", "happy", "wow"]

  /** Python's `any(word in text for word in words)`. */
  predicate MentionsAny(text: string, words: seq<string>) {
    exists i :: 0 <= i < |words| && Contains(text, words[i])
  }

  /** The fallback score of a message text. */
  function FallbackScore(text: string): (r: int)
    ensures r in {2, 5, 9}
    ensures r == 2 <==> MentionsAny(Lower(text), LowKeywords)
  {
    var lower := Lower(text);
    if MentionsAny(lower, LowKeywords) then 2
    else if MentionsAny(lower, HighKeywords) then 9
    else 5
  }

  /** The three outcomes, both directions: low markers win ties, high markers come next, 5 otherwise. */
  lemma FallbackScoreCases(text: string)
    ensures FallbackScore(text) == 9 <==>
              !MentionsAny(Lower(text), LowKeywords) && MentionsAny(Lower(text), HighKeywords)
    ensures FallbackScore(text) == 5 <==>
              !MentionsAny(Lower(text), LowKeywords) && !MentionsAny(Lower(text), HighKeywords)
    ensures 1 <= FallbackScore(text) <= 10
  {
  }

  /** No keyword contains a quote or a backslash, and none is empty. */
  lemma KeywordsArePlain()
    ensures forall i :: 0 <= i < |LowKeywords| ==> LowKeywords[i] != [] && Plain(LowKeywords[i])
    ensures forall i :: 0 <= i < |HighKeywords| ==> HighKeywords[i] != [] && Plain(HighKeywords[i])
  {
  }

  lemma MentionsAnyEscape(u: string, words: seq<string>)
    requires forall i :: 0 <= i < |words| ==> words[i] != [] && Plain(words[i])
    ensures MentionsAny(Escape(u), words) <==> MentionsAny(u, words)
  {
    forall i | 0 <= i < |words|
      ensures Contains(Escape(u), words[i]) <==> Contains(u, words[i])
    {
      ContainsEscape(u, words[i]);
    }
  }

  /**
   * Scoring the escaped text gives the same score as scoring the raw text:
   * escaping inserts only backslashes before quotes, which no keyword holds.
   */
  lemma FallbackIgnoresEscaping(text: string)
    ensures FallbackScore(Escape(text)) == FallbackScore(text)
  {
    LowerEscape(text);
    KeywordsArePlain();
    MentionsAnyEscape(Lower(text), LowKeywords);
    MentionsAnyEscape(Lower(text), HighKeywords);
  }

  /** Every character of a contained word occurs in the text. */
  lemma ContainedCharsOccur(s: string, w: string)
    ensures Contains(s, w) ==> forall c :: c in w ==> c in s
  {
    if Contains(s, w) {
      ContainsFindsOccurrence(s, w);
      var i :| OccursAt(s, w, i);
      forall c | c in w
        ensures c in s
      {
        var k :| 0 <= k < |w| && w[k] == c;
        assert s[i + k] == s[i..i + |w|][k];
      }
    }
  }

  /** A word found between two strings is contained in their concatenation. */
  lemma ContainsMiddle(a: string, w: string, b: string)
    ensures Contains(a + w + b, w)
  {
    assert w <= w + b;
    ContainsExtendLeft(a, w + b, w);
    assert a + (w + b) == a + w + b;
  }

  /** A text that holds one of the words between two strings mentions the list. */
  lemma MentionsWitness(text: string, words: seq<string>, i: int, a: string, b: string)
    requires 0 <= i < |words| && text == a + words[i] + b
    ensures MentionsAny(text, words)
  {
    ContainsMiddle(a, words[i], b);
  }

  /** When each word holds a character (listed in `cs`) the text lacks, the text mentions none of them. */
  lemma MentionsNone(text: string, words: seq<string>, cs: seq<char>)
    requires |cs| == |words|
    requires forall i :: 0 <= i < |words| ==> cs[i] in words[i] && cs[i] !in text
    ensures !MentionsAny(text, words)
  {
    forall i | 0 <= i < |words|
      ensures !Contains(text, words[i])
    {
      ContainedCharsOccur(text, words[i]);
    }
  }

  /** A low marker scores 2 (the sample text is a parameter so that the solver does not unfold it eagerly). */
  lemma BoringScoresTwo(text: string)
    requires text == "this is boring"
    ensures FallbackScore(text) == 2
  {
    LowerOfLower(text);
    MentionsWitness(text, LowKeywords, 0, "this is ", "");
  }

  /** A high marker without a low one scores 9. */
  lemma WowScoresNine(text: string)
    requires text == "wow amazing!"
    ensures FallbackScore(text) == 9
  {
    LowerOfLower(text);
    MentionsNone(text, LowKeywords, "bstb");
    MentionsWitness(text, HighKeywords, 8, "", " amazing!");
  }

  /** Both kinds of marker: the low one wins. */
  lemma LowMarkerWinsTie(text: string)
    requires text == "tired but great"
    ensures FallbackScore(text) == 2
  {
    LowerOfLower(text);
    MentionsWitness(text, LowKeywords, 2, "", " but great");
  }

  /** No marker: neutral. */
  lemma NeutralScoresFive(text: string)
    requires text == "hello"
    ensures FallbackScore(text) == 5
  {
    LowerOfLower(text);
    MentionsNone(text, LowKeywords, "bstb");
    MentionsNone(text, HighKeywords, "xfgyycnaw");
  }

  /** Matching ignores case. */
  lemma UpperCaseMarkerMatches(text: string)
    requires text == "GREAT talk"
    ensures FallbackScore(text) == 9
  {
    var lower := Lower(text);
    assert lower == "great talk";
    MentionsNone(lower, LowKeywords, "bsib");
    MentionsWitness(lower, HighKeywords, 2, "", " talk");
  }
}
