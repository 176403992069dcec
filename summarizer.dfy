/**
 * The summariser of `summarizer.py`: every article gets a short summary from the
 * language model or, when there is no model, from a deterministic two-sentence cut;
 * the overall summary and the newsletter introduction fall back to fixed templates.
 *
 * The model is an oracle. `get_groq_client` is called afresh by each operation and
 * yields no client when the API key is unset, or raises when the client library
 * cannot be loaded or constructed; a chat completion yields the reply text or
 * nothing (the call raised, or the reply had no content).
 */
module Summarizer {
  import opened Wrappers
  import opened Strings
  import opened Stories

  /** What `get_groq_client` yields; `complete(system, user)` is one chat completion. */
  datatype Groq = NoKey | Broken | Ready(complete: (string, string) -> Option<string>)

  // ---------------------------------------------------------------------------
  // create_simple_summary (summarizer.py:82-93)
  // ---------------------------------------------------------------------------

  /** Summaries up to this length are kept as they are. */
  const ShortLimit: nat := 200

  /** `'. '.join(s.split('.')[:2])`: the first two sentences. */
  function FirstTwo(s: string): string {
    Join(". ", PrefixTo(SplitOn(s, '.'), 2))
  }

  /** A non-empty text has a non-empty first two sentences. */
  lemma FirstTwoNonEmpty(s: string)
    requires s != []
    ensures FirstTwo(s) != []
  {
    var pieces := SplitOn(s, '.');
    if |pieces| == 1 {
      JoinSplit(s, '.');
      assert PrefixTo(pieces, 2) == pieces;
    }
  }

  /** The fallback summary of a summary text. */
  function Shorten(s: string): (r: string)
    ensures |s| <= ShortLimit ==> r == s
    ensures |s| > ShortLimit ==> r != [] && r[|r| - 1] == '.'
  {
    if |s| > ShortLimit then
      FirstTwoNonEmpty(s);
      var short := FirstTwo(s);
      if short != [] && !EndsWith(short, ".") then short + "." else short
    else s
  }

  /** The text before the first full stop opens both the text and its first two sentences. */
  lemma FirstSentenceOpens(s: string)
    ensures StartsWith(s, SplitOn(s, '.')[0])
    ensures StartsWith(FirstTwo(s), SplitOn(s, '.')[0])
  {
    var pieces := SplitOn(s, '.');
    var p0 := pieces[0];
    JoinSplit(s, '.');
    if |pieces| > 1 {
      var tail := Join(".", pieces[1..]);
      assert s == p0 + ("." + tail);
      StartsWithAppend(p0, "." + tail);
      assert PrefixTo(pieces, 2) == [p0, pieces[1]];
      JoinTwo(". ", p0, pieces[1]);
      assert FirstTwo(s) == p0 + (". " + pieces[1]);
      StartsWithAppend(p0, ". " + pieces[1]);
    } else {
      assert PrefixTo(pieces, 2) == pieces;
      assert s == p0 + [];
      StartsWithAppend(p0, []);
    }
  }

  lemma StartsWithExtend(a: string, p: string, b: string)
    requires StartsWith(a, p)
    ensures StartsWith(a + b, p)
  {
    assert (a + b)[..|p|] == a[..|p|];
  }

  /** The first sentence of a long summary opens its short form. */
  lemma ShortenFirstSentence(s: string)
    requires |s| > ShortLimit
    ensures StartsWith(s, SplitOn(s, '.')[0])
    ensures StartsWith(Shorten(s), SplitOn(s, '.')[0])
  {
    FirstSentenceOpens(s);
    StartsWithExtend(FirstTwo(s), SplitOn(s, '.')[0], ".");
  }

  /** A long summary without a full stop gets one at its end. */
  lemma ShortenNoFullStop(s: string)
    requires |s| > ShortLimit && '.' !in s
    ensures Shorten(s) == s + "."
  {
    SplitPieceFree(s, '.');
    assert PrefixTo([s], 2) == [s];
  }

  /** A long summary `p.q` or `p.q.…` is cut to `p. q.`. */
  lemma ShortenTwoSentences(p: string, q: string, rest: string)
    requires '.' !in p && '.' !in q
    requires rest == [] || rest[0] == '.'
    requires |p + "." + q + rest| > ShortLimit
    ensures Shorten(p + "." + q + rest) == p + ". " + q + "."
  {
    var s := p + "." + q + rest;
    assert s == p + ['.'] + (q + rest);
    SplitPieceThen(p, q + rest, '.');
    if rest == [] {
      assert q + rest == q;
      SplitPieceFree(q, '.');
    } else {
      assert q + rest == q + ['.'] + rest[1..];
      SplitPieceThen(q, rest[1..], '.');
    }
    var pieces := SplitOn(s, '.');
    assert pieces[0] == p && pieces[1] == q;
    assert PrefixTo(pieces, 2) == [p, q];
    var short := p + ". " + q;
    JoinTwo(". ", p, q);
    if q == [] {
      assert short[|short| - 1] == ' ';
    } else {
      assert short[|short| - 1] == q[|q| - 1];
      assert q[|q| - 1] in q;
    }
  }

  /** create_simple_summary: the article's summary (default empty), shortened. */
  function SimpleSummary(a: Story): string {
    Shorten(a.summary.GetOr(""))
  }

  // ---------------------------------------------------------------------------
  // summarize_single_article (summarizer.py:44-80)
  // ---------------------------------------------------------------------------

  const ArticleSystem: string :=
    "You are a helpful assistant that summarizes news articles in simple, clear language."

  const ArticleInstruction: string :=
    "Summarize this news article in 2-3 clear, simple sentences that anyone can understand. \n"
    + "Avoid jargon and technical terms. Make it engaging and informative."

  /** The user-prompt paragraph: present exactly when the stripped prompt is non-empty. */
  function UserPromptPart(prompt: string): (r: string)
    ensures r == [] <==> Strip(prompt) == []
  {
    if Strip(prompt) != [] then "\n\nUser prompt: " + Strip(prompt) else ""
  }

  /** Surrounding whitespace of the user's prompt never reaches the model. */
  lemma UserPromptPartStripped(prompt: string)
    ensures UserPromptPart(Strip(prompt)) == UserPromptPart(prompt)
  {
    var stripped := Strip(prompt);
    StripNoSpaceEnds(stripped);
    assert Strip(stripped) == stripped;
  }

  function ArticlePrompt(prompt: string, title: string, summary: string): string {
    ArticleInstruction + UserPromptPart(prompt)
    + "\n\nTitle: " + title + "\n\nContent: " + summary + "\n\nSummary:"
  }

  /**
   * summarize_single_article. Without a client the fallback summary; a missing title
   * or summary, a failed call or an empty reply are caught by its handler and give
   * the fallback too. Only loading the client raises.
   */
  function SummarizeOne(a: Story, prompt: string, groq: Groq): (r: Attempt<string>)
    ensures r.Raised? <==> groq.Broken?
    ensures groq.NoKey? ==> r == Returned(SimpleSummary(a))
    ensures groq.Ready? && (a.title.None? || a.summary.None?) ==> r == Returned(SimpleSummary(a))
    ensures (groq.Ready? && a.title.Some? && a.summary.Some? &&
             groq.complete(ArticleSystem, ArticlePrompt(prompt, a.title.value, a.summary.value)).None?) ==>
      r == Returned(SimpleSummary(a))
  {
    match groq
    case NoKey => Returned(SimpleSummary(a))
    case Broken => Raised
    case Ready(complete) =>
      if a.title.None? || a.summary.None? then Returned(SimpleSummary(a))
      else match complete(ArticleSystem, ArticlePrompt(prompt, a.title.value, a.summary.value))
        case Some(text) => Returned(Strip(text))
        case None => Returned(SimpleSummary(a))
  }

  // ---------------------------------------------------------------------------
  // summarize_articles (summarizer.py:11-42)
  // ---------------------------------------------------------------------------

  /** The keys summarize_articles reads with `article[...]`. */
  predicate HasRequired(a: Story) {
    a.title.Some? && a.summary.Some? && a.source.Some? && a.published.Some?
  }

  /** The record summarize_articles builds around a simplified summary. */
  function Shaped(a: Story, simplified: string): Story
    requires HasRequired(a)
  {
    Story(a.title, None, a.summary, Some(simplified), a.source, a.published,
          Some(a.link.GetOr("")), Some(a.imageUrl.GetOr("")))
  }

  /** The output record keeps the input's fields; a missing link or image becomes empty. */
  predicate CopiesFields(a: Story, s: Story) {
    && s.title == a.title && s.source == a.source && s.published == a.published
    && s.originalSummary == a.summary && s.summary.None?
    && s.simplifiedSummary.Some?
    && s.link == Some(a.link.GetOr("")) && s.imageUrl == Some(a.imageUrl.GetOr(""))
  }

  /**
   * One pass of summarize_articles' loop. If summarising raises, the handler emits
   * the record with the original summary as the simplified one; a missing key raises
   * in both branches and escapes the loop.
   */
  function SummarizeEach(a: Story, prompt: string, groq: Groq): (r: Attempt<Story>)
    ensures r.Returned? <==> HasRequired(a)
    ensures r.Returned? ==> CopiesFields(a, r.value)
  {
    if !HasRequired(a) then Raised
    else match SummarizeOne(a, prompt, groq)
      case Returned(s) => Returned(Shaped(a, s))
      case Raised => Returned(Shaped(a, a.summary.value))
  }

  function Summarizer(prompt: string, groq: Groq): Story -> Attempt<Story> {
    a => SummarizeEach(a, prompt, groq)
  }

  /** summarize_articles as a function of its inputs. */
  function SummarizeAll(articles: seq<Story>, prompt: string, groq: Groq): Attempt<seq<Story>> {
    if articles == [] then Returned([]) else MapAttempt(articles, Summarizer(prompt, groq))
  }

  method SummarizeArticles(articles: seq<Story>, prompt: string, groq: Groq)
    returns (r: Attempt<seq<Story>>)
    ensures r == SummarizeAll(articles, prompt, groq)
  {
    if articles == [] {
      return Returned([]);
    }
    ghost var f := Summarizer(prompt, groq);
    var summarized: seq<Story> := [];
    for i := 0 to |articles|
      invariant MapAttempt(articles[..i], f) == Returned(summarized)
    {
      MapAttemptStep(articles, f, i, summarized);
      var a := articles[i];
      if !HasRequired(a) {
        MapAttemptRaisedExtends(articles, f, i + 1);
        return Raised;
      }
      var summary := SummarizeOne(a, prompt, groq);
      match summary {
        case Returned(s) =>
          summarized := summarized + [Shaped(a, s)];
        case Raised =>
          summarized := summarized + [Shaped(a, a.summary.value)];
      }
    }
    assert articles[..|articles|] == articles;
    r := Returned(summarized);
  }

  /**
   * The result keeps the input's length and order, each record copying its
   * article's fields; the call raises exactly when some article lacks a key it reads.
   */
  lemma SummarizeShape(articles: seq<Story>, prompt: string, groq: Groq)
    ensures articles == [] ==> SummarizeAll(articles, prompt, groq) == Returned([])
    ensures SummarizeAll(articles, prompt, groq).Returned? <==>
      forall k :: 0 <= k < |articles| ==> HasRequired(articles[k])
    ensures SummarizeAll(articles, prompt, groq).Returned? ==>
      var out := SummarizeAll(articles, prompt, groq).value;
      |out| == |articles| && forall k :: 0 <= k < |articles| ==> CopiesFields(articles[k], out[k])
  {
    var f := Summarizer(prompt, groq);
    MapAttemptMeaning(articles, f);
  }

  /** When loading the client raises, every article keeps its original summary. */
  lemma SummarizeClientFailure(articles: seq<Story>, prompt: string)
    requires SummarizeAll(articles, prompt, Broken).Returned?
    ensures var out := SummarizeAll(articles, prompt, Broken).value;
      |out| == |articles| &&
      forall k :: 0 <= k < |out| ==> out[k].simplifiedSummary == out[k].originalSummary
  {
    var f := Summarizer(prompt, Broken);
    MapAttemptMeaning(articles, f);
  }

  /** Without an API key, every article gets the two-sentence fallback. */
  lemma SummarizeWithoutKey(articles: seq<Story>, prompt: string)
    requires SummarizeAll(articles, prompt, NoKey).Returned?
    ensures var out := SummarizeAll(articles, prompt, NoKey).value;
      |out| == |articles| &&
      forall k :: 0 <= k < |out| ==> out[k].simplifiedSummary == Some(SimpleSummary(articles[k]))
  {
    var f := Summarizer(prompt, NoKey);
    MapAttemptMeaning(articles, f);
  }

  // ---------------------------------------------------------------------------
  // generate_overall_summary (summarizer.py:95-142)
  // ---------------------------------------------------------------------------

  const NoArticlesText: string :=
    "No articles available for summary."

  const OverallSystem: string :=
    "You are a news editor who writes concise, engaging daily news briefings."

  const OverallInstruction: string :=
    "Based on these news articles, write a brief 3-4 sentence executive summary highlighting "
    + "the main themes and most important stories of the day. Make it engaging and informative."

  /** `[a.get('title', default) for a in s]` */
  function TitlesOf(s: seq<Story>, default: string): (r: seq<string>)
    ensures |r| == |s|
    ensures forall k :: 0 <= k < |s| ==> r[k] == s[k].title.GetOr(default)
  {
    seq(|s|, k requires 0 <= k < |s| => s[k].title.GetOr(default))
  }

  /** The template sentence naming the number of stories and some titles. */
  const CoverageOpening: string := "Today's newsletter covers "
  const CoverageMiddle: string := " stories including: "

  function CoverageSentence(count: nat, titles: seq<string>): string {
    CoverageOpening + NatToString(count) + CoverageMiddle + Join(", ", titles) + "."
  }

  /** Taking five titles and then three of them is taking the first three. */
  lemma FirstFiveThenThree(articles: seq<Story>)
    ensures PrefixTo(TitlesOf(PrefixTo(articles, 5), ""), 3) == TitlesOf(PrefixTo(articles, 3), "")
  {
    var a := PrefixTo(TitlesOf(PrefixTo(articles, 5), ""), 3);
    var b := TitlesOf(PrefixTo(articles, 3), "");
    assert |a| == |b|;
    forall k | 0 <= k < |a| ensures a[k] == b[k] {
      assert PrefixTo(articles, 5)[k] == articles[k] && PrefixTo(articles, 3)[k] == articles[k];
    }
  }

  /** The text a brief uses: the simplified summary, else the summary, cut to 200 characters. */
  function BriefText(a: Story): (r: string)
    ensures |r| <= 200
    ensures StartsWith(a.simplifiedSummary.GetOr(a.summary.GetOr("")), r)
  {
    PrefixTo(a.simplifiedSummary.GetOr(a.summary.GetOr("")), 200)
  }

  /** `f"{i}. {title}: {summary}"` */
  function Brief(i: nat, a: Story): string {
    NatToString(i) + ". " + a.title.GetOr(Untitled) + ": " + BriefText(a)
  }

  /** The briefs of the first ten articles, numbered from 1. */
  function Briefs(articles: seq<Story>): (r: seq<string>)
    ensures |r| == if |articles| < 10 then |articles| else 10
  {
    var p := PrefixTo(articles, 10);
    seq(|p|, k requires 0 <= k < |p| => Brief(k + 1, p[k]))
  }

  /** The k-th brief (from 0) describes the k-th article and carries the number k + 1. */
  lemma BriefsNumbered(articles: seq<Story>, k: nat)
    requires k < |Briefs(articles)|
    ensures k < |articles| && Briefs(articles)[k] == Brief(k + 1, articles[k])
    ensures var n := NatToString(k + 1);
      StartsWith(Briefs(articles)[k], n + ". ") && DecimalValue(n) == k + 1
  {
    assert PrefixTo(articles, 10)[k] == articles[k];
    DecimalRoundTrip(k + 1);
  }

  /** article_briefs, built by appending in a loop. */
  method BuildBriefs(articles: seq<Story>) returns (briefs: seq<string>)
    ensures briefs == Briefs(articles)
  {
    var first := PrefixTo(articles, 10);
    briefs := [];
    for i := 0 to |first|
      invariant |briefs| == i
      invariant forall k :: 0 <= k < i ==> briefs[k] == Brief(k + 1, first[k])
    {
      briefs := briefs + [Brief(i + 1, first[i])];
    }
  }

  function OverallPrompt(prompt: string, briefs: seq<string>): string {
    OverallInstruction + UserPromptPart(prompt)
    + "\n\nArticles:\n" + Join("\n", briefs) + "\n\nOverall Summary:"
  }

  /**
   * generate_overall_summary. The client is loaded first, so a failing load raises
   * even for no articles; without a client the first five titles are taken and three
   * of them used; a failed call uses the first three titles.
   */
  function OverallSummary(articles: seq<Story>, prompt: string, groq: Groq): (r: Attempt<string>)
    ensures r.Raised? <==> groq.Broken?
    ensures !groq.Broken? && articles == [] ==> r == Returned(NoArticlesText)
  {
    if groq.Broken? then Raised
    else if articles == [] then Returned(NoArticlesText)
    else match groq
      case NoKey =>
        Returned(CoverageSentence(|articles|, PrefixTo(TitlesOf(PrefixTo(articles, 5), ""), 3)))
      case Ready(complete) =>
        match complete(OverallSystem, OverallPrompt(prompt, Briefs(articles)))
        case Some(text) => Returned(Strip(text))
        case None => Returned(CoverageSentence(|articles|, TitlesOf(PrefixTo(articles, 3), "")))
  }

  /** Both fallbacks give the same sentence: the story count and the first three titles. */
  lemma OverallSummaryFallback(articles: seq<Story>, prompt: string, groq: Groq)
    requires articles != []
    requires groq.NoKey? || (groq.Ready? && groq.complete(OverallSystem, OverallPrompt(prompt, Briefs(articles))).None?)
    ensures OverallSummary(articles, prompt, groq) ==
      Returned(CoverageSentence(|articles|, TitlesOf(PrefixTo(articles, 3), "")))
    ensures |TitlesOf(PrefixTo(articles, 3), "")| <= 3
  {
    FirstFiveThenThree(articles);
  }

  // ---------------------------------------------------------------------------
  // generate_newsletter_intro (summarizer.py:144-168)
  // ---------------------------------------------------------------------------

  const IntroOpening: string := "Here's your personalized newsletter with "

  function IntroFallback(topics: seq<string>, count: int): string {
    IntroOpening + IntToString(count) + " articles on " + Join(", ", topics) + "."
  }

  const IntroSystem: string :=
    "You are a friendly newsletter writer."

  const IntroAsk: string := "Write a brief, friendly 1-2 sentence introduction for a newsletter about: "
  const IntroMention: string := ".\nIt should mention there are "
  const IntroClose: string := " articles. Keep it warm and engaging."

  function IntroPrompt(topics: seq<string>, count: int): string {
    IntroAsk + Join(", ", topics) + IntroMention + IntToString(count) + IntroClose
  }

  /** generate_newsletter_intro: the model's reply, else the template. */
  function NewsletterIntro(topics: seq<string>, count: int, groq: Groq): (r: Attempt<string>)
    ensures r.Raised? <==> groq.Broken?
    ensures groq.NoKey? ==> r == Returned(IntroFallback(topics, count))
    ensures groq.Ready? && groq.complete(IntroSystem, IntroPrompt(topics, count)).None? ==>
      r == Returned(IntroFallback(topics, count))
  {
    match groq
    case Broken => Raised
    case NoKey => Returned(IntroFallback(topics, count))
    case Ready(complete) =>
      match complete(IntroSystem, IntroPrompt(topics, count))
      case Some(text) => Returned(Strip(text))
      case None => Returned(IntroFallback(topics, count))
  }
}
