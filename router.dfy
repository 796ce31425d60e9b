/**
 * The keyword router of the poetry orchestrator: from the poet's output text
 * it picks one of three analysts, testing the Dramatic keywords first, then
 * the Narrative keywords, and falling back to the Lyric analyst.
 */
module Router {
  import opened Text

  /** The three kinds of poem, one analyst each. */
  datatype Category = Dramatic | Narrative | Lyric

  /** Keywords (English and Roman Urdu) that send a poem to the Dramatic analyst. */
  const DramaticKeywords: seq<string> := ["dialogue", "voice", "stage", "guftagu", "aawaz"]

  /** Keywords (English and Roman Urdu) that send a poem to the Narrative analyst. */
  const NarrativeKeywords: seq<string> := ["story", "character", "event", "kahani", "kirdar"]

  /** The name of the poet agent, the stage that runs before routing. */
  const PoetName: string := "Poet Agent"

  /** The display name of the analyst agent that handles each category. */
  function AnalystName(c: Category): string {
    match c
    case Lyric => "Lyric Analyst Agent"
    case Narrative => "Narrative Analyst Agent"
    case Dramatic => "Dramatic Analyst Agent"
  }

  /** The analyst names tell the categories apart, and none is the poet's. */
  lemma AnalystNamesDistinct(c1: Category, c2: Category)
    ensures AnalystName(c1) == AnalystName(c2) <==> c1 == c2
    ensures AnalystName(c1) != PoetName
  {
  }

  /** Some keyword of the list occurs somewhere in the text. */
  ghost predicate Mentions(text: string, keywords: seq<string>) {
    exists j, i :: 0 <= j < |keywords| && OccursAt(text, keywords[j], i)
  }

  /** The `or` chain of `in` tests over a keyword list, left to right. */
  predicate ContainsAny(text: string, keywords: seq<string>) {
    |keywords| > 0 && (Contains(text, keywords[0]) || ContainsAny(text, keywords[1..]))
  }

  /** The `or` chain succeeds exactly when one of the `in` tests does. */
  lemma {:induction false} ContainsAnyIffSome(text: string, keywords: seq<string>)
    ensures ContainsAny(text, keywords) <==>
      exists j :: 0 <= j < |keywords| && Contains(text, keywords[j])
  {
    if keywords != [] {
      var rest := keywords[1..];
      ContainsAnyIffSome(text, rest);
      if ContainsAny(text, rest) {
        var j :| 0 <= j < |rest| && Contains(text, rest[j]);
        assert Contains(text, keywords[j + 1]);
      }
      forall j | 0 < j < |keywords| && Contains(text, keywords[j])
        ensures ContainsAny(text, rest)
      {
        assert keywords[j] == rest[j - 1];
      }
    }
  }

  /** The `or` chain succeeds exactly when some keyword occurs in the text. */
  lemma {:induction false} ContainsAnyIffMentions(text: string, keywords: seq<string>)
    ensures ContainsAny(text, keywords) <==> Mentions(text, keywords)
  {
    if keywords != [] {
      var rest := keywords[1..];
      ContainsAnyIffMentions(text, rest);
      ContainsIffOccurs(text, keywords[0]);
      if Mentions(text, keywords) {
        var j, i :| 0 <= j < |keywords| && OccursAt(text, keywords[j], i);
        if j > 0 {
          assert OccursAt(text, rest[j - 1], i);
        }
      }
      if Mentions(text, rest) {
        var j, i :| 0 <= j < |rest| && OccursAt(text, rest[j], i);
        assert OccursAt(text, keywords[j + 1], i);
      }
    }
  }

  /**
   * The router: lowercase the poet's output, then the Dramatic test, then the
   * Narrative test, then the Lyric fallback.
   */
  function Classify(poetOutput: string): Category {
    var poemText := Lower(poetOutput);
    if ContainsAny(poemText, DramaticKeywords) then Dramatic
    else if ContainsAny(poemText, NarrativeKeywords) then Narrative
    else Lyric
  }

  /**
   * What the router decides, in terms of where keywords occur in the
   * lowercased text: Dramatic exactly when a Dramatic keyword occurs;
   * Narrative exactly when none does and a Narrative keyword occurs;
   * Lyric exactly when neither list occurs.
   */
  lemma ClassifySpec(s: string)
    ensures Classify(s) == Dramatic <==> Mentions(Lower(s), DramaticKeywords)
    ensures Classify(s) == Narrative <==>
      !Mentions(Lower(s), DramaticKeywords) && Mentions(Lower(s), NarrativeKeywords)
    ensures Classify(s) == Lyric <==>
      !Mentions(Lower(s), DramaticKeywords) && !Mentions(Lower(s), NarrativeKeywords)
  {
    ContainsAnyIffMentions(Lower(s), DramaticKeywords);
    ContainsAnyIffMentions(Lower(s), NarrativeKeywords);
  }

  /** A Dramatic keyword wins whatever Narrative keywords the text also holds. */
  lemma DramaticOutranksNarrative(s: string)
    requires Mentions(Lower(s), DramaticKeywords)
    requires Mentions(Lower(s), NarrativeKeywords)
    ensures Classify(s) == Dramatic
  {
    ContainsAnyIffMentions(Lower(s), DramaticKeywords);
  }

  /** Without any keyword of either list the poem goes to the Lyric analyst. */
  lemma LyricIsDefault(s: string)
    requires !Mentions(Lower(s), DramaticKeywords)
    requires !Mentions(Lower(s), NarrativeKeywords)
    ensures Classify(s) == Lyric
  {
    ContainsAnyIffMentions(Lower(s), DramaticKeywords);
    ContainsAnyIffMentions(Lower(s), NarrativeKeywords);
  }

  /** The empty text has no keyword and goes to the Lyric analyst. */
  lemma EmptyIsLyric()
    ensures Classify("") == Lyric
  {
    LyricIsDefault("");
  }

  /** Texts that are equal up to ASCII case are routed alike. */
  lemma ClassifyIgnoresCase(s: string, t: string)
    requires Lower(s) == Lower(t)
    ensures Classify(s) == Classify(t)
  {
  }

  /** Routing is unchanged by lowercasing or uppercasing the text first. */
  lemma ClassifyCaseInsensitive(s: string)
    ensures Classify(Lower(s)) == Classify(s)
    ensures Classify(Upper(s)) == Classify(s)
  {
    LowerIdempotent(s);
    LowerOfUpper(s);
  }

  /** All keywords are written in small letters, so they can match folded text. */
  lemma KeywordsAreLowercase()
    ensures forall j :: 0 <= j < |DramaticKeywords| ==> IsLowercase(DramaticKeywords[j])
    ensures forall j :: 0 <= j < |NarrativeKeywords| ==> IsLowercase(NarrativeKeywords[j])
  {
  }

  /** Folding a text with a keyword inside folds only what is around the keyword. */
  lemma LowerAroundKeyword(p: string, k: string, q: string)
    requires IsLowercase(k)
    ensures Lower(p + k + q) == Lower(p) + k + Lower(q)
  {
    LowerConcat(p + k, q);
    LowerConcat(p, k);
    LowerOfLowercase(k);
  }

  /**
   * Matching is by substring: a Dramatic keyword anywhere, even inside a longer
   * word and in any ASCII case of the surrounding text, routes to Dramatic.
   */
  lemma EmbeddedDramaticKeyword(p: string, j: nat, q: string)
    requires j < |DramaticKeywords|
    ensures Classify(p + DramaticKeywords[j] + q) == Dramatic
  {
    var k := DramaticKeywords[j];
    KeywordsAreLowercase();
    LowerAroundKeyword(p, k, q);
    ContainsInfix(Lower(p), k, Lower(q));
    ContainsIffOccurs(Lower(p) + k + Lower(q), k);
    ClassifySpec(p + k + q);
  }

  /**
   * A Narrative keyword anywhere, even inside a longer word, routes to
   * Narrative as long as no Dramatic keyword occurs.
   */
  lemma EmbeddedNarrativeKeyword(p: string, j: nat, q: string)
    requires j < |NarrativeKeywords|
    requires !Mentions(Lower(p + NarrativeKeywords[j] + q), DramaticKeywords)
    ensures Classify(p + NarrativeKeywords[j] + q) == Narrative
  {
    var k := NarrativeKeywords[j];
    KeywordsAreLowercase();
    LowerAroundKeyword(p, k, q);
    ContainsInfix(Lower(p), k, Lower(q));
    ContainsIffOccurs(Lower(p) + k + Lower(q), k);
    ClassifySpec(p + k + q);
  }

  /** "backstage" holds "stage" inside a longer word and goes to Dramatic. */
  lemma BackstageIsDramatic()
    ensures Classify("backstage") == Dramatic
  {
    assert "backstage" == "back" + DramaticKeywords[2] + "";
    EmbeddedDramaticKeyword("back", 2, "");
  }

  /** No Dramatic keyword occurs in "storybook": each lacks a letter of it. */
  lemma StorybookHasNoDramaticKeyword()
    ensures !ContainsAny("storybook", DramaticKeywords)
  {
    var s := "storybook";
    forall j | 0 <= j < |DramaticKeywords|
      ensures !Contains(s, DramaticKeywords[j])
    {
      var k := DramaticKeywords[j];
      if k == "stage" {
        ContainsNeedsChar(s, k, 2);
      } else {
        ContainsNeedsChar(s, k, 0);
      }
    }
    ContainsAnyIffSome(s, DramaticKeywords);
  }

  /** "storybook" holds "story" inside a longer word and goes to Narrative. */
  lemma StorybookIsNarrative()
    ensures Classify("storybook") == Narrative
  {
    var s := "storybook";
    assert IsLowercase(s);
    LowerOfLowercase(s);
    StorybookHasNoDramaticKeyword();
    assert s == "" + NarrativeKeywords[0] + "book";
    ContainsInfix("", NarrativeKeywords[0], "book");
    assert ContainsAny(s, NarrativeKeywords);
  }
}
