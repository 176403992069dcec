/**
 * The news pipeline of `news_fetcher.py`: topics select RSS feeds from a fixed
 * category table, every feed is parsed into at most 20 articles, the articles are
 * deduplicated by exact title, scored against the topic words, stably sorted by
 * descending score and cut to the requested limit.
 *
 * The network and the feed parser are an oracle `fetch` that yields, for each URL,
 * either a parsed feed or nothing (the parser raised); the HTML-to-text step, the
 * `<img>` lookup and the clock come in through `ParseEnv`.
 */
module NewsFetcher {
  import opened Wrappers
  import opened Strings
  import StableSort
  import opened Seqs

  type Url = string

  // ---------------------------------------------------------------------------
  // The category table and feed selection (news_fetcher.py:11-58)
  // ---------------------------------------------------------------------------

  /** The number of categories in the table. */
  const CategoryCount: nat := 8

  /** The name of the category at position `i`, in the table's (insertion) order. */
  function CategoryName(i: nat): (name: string)
    requires i < CategoryCount
  {
    if i == 0 then "technology"
    else if i == 1 then "business"
    else if i == 2 then "science"
    else if i == 3 then "health"
    else if i == 4 then "world"
    else if i == 5 then "sports"
    else if i == 6 then "entertainment"
    else "general"
  }

  /** The BBC feed of each category is `https://feeds.bbci.co.uk/<path>/rss.xml`. */
  function BbcPath(i: nat): (path: string)
    requires i < CategoryCount
  {
    if i == 0 then "news/technology"
    else if i == 1 then "news/business"
    else if i == 2 then "news/science_and_environment"
    else if i == 3 then "news/health"
    else if i == 4 then "news/world"
    else if i == 5 then "sport"
    else if i == 6 then "news/entertainment_and_arts"
    else "news"
  }

  /** The New York Times feed of each category is `.../services/xml/rss/nyt/<section>.xml`. */
  function NytSection(i: nat): (section: string)
    requires i < CategoryCount
  {
    if i == 0 then "Technology"
    else if i == 1 then "Business"
    else if i == 2 then "Science"
    else if i == 3 then "Health"
    else if i == 4 then "World"
    else if i == 5 then "Sports"
    else if i == 6 then "Arts"
    else "HomePage"
  }

  function BbcFeed(path: string): Url {
    "https://feeds.bbci.co.uk/" + path + "/rss.xml"
  }

  function NytFeed(section: string): Url {
    "https://rss.nytimes.com/services/xml/rss/nyt/" + section + ".xml"
  }

  /** The two feed URLs of the category at position `i` of the table. */
  function FeedUrls(i: nat): (urls: seq<Url>)
    requires i < CategoryCount
    ensures |urls| == 2
  {
    [BbcFeed(BbcPath(i)), NytFeed(NytSection(i))]
  }

  /** The position of "general", the fallback category. */
  const GeneralIndex: nat := 7

  /** `topic.lower().strip()` */
  function NormalizeTopic(topic: string): string {
    Strip(Lower(topic))
  }

  /** `topic_lower in category or category in topic_lower` */
  predicate Matches(topicLower: string, name: string) {
    Contains(name, topicLower) || Contains(topicLower, name)
  }

  /** The first category at or after `j` that matches, or `CategoryCount` when none does. */
  function FirstMatchFrom(topicLower: string, j: nat): (m: nat)
    requires j <= CategoryCount
    ensures j <= m <= CategoryCount
    ensures m < CategoryCount ==> Matches(topicLower, CategoryName(m))
    ensures forall k :: j <= k < m ==> !Matches(topicLower, CategoryName(k))
    decreases CategoryCount - j
  {
    if j == CategoryCount then j
    else if Matches(topicLower, CategoryName(j)) then j
    else FirstMatchFrom(topicLower, j + 1)
  }

  /**
   * The category whose URLs a topic adds: the first one in table order that
   * matches the normalized topic, or "general" when none does.
   */
  function CategoryFor(topic: string): (i: nat)
    ensures i < CategoryCount
  {
    var m := FirstMatchFrom(NormalizeTopic(topic), 0);
    if m < CategoryCount then m else GeneralIndex
  }

  /** When some category matches, the first matching one is chosen; when none does, "general". */
  lemma CategoryForMeaning(topic: string)
    ensures (exists k :: 0 <= k < CategoryCount && Matches(NormalizeTopic(topic), CategoryName(k))) ==>
              Matches(NormalizeTopic(topic), CategoryName(CategoryFor(topic))) &&
              forall k :: 0 <= k < CategoryFor(topic) ==> !Matches(NormalizeTopic(topic), CategoryName(k))
    ensures (forall k :: 0 <= k < CategoryCount ==> !Matches(NormalizeTopic(topic), CategoryName(k))) ==>
              CategoryFor(topic) == GeneralIndex
  {
    var t := NormalizeTopic(topic);
    var m := FirstMatchFrom(t, 0);
    if m < CategoryCount {
      assert CategoryFor(topic) == m;
      assert Matches(t, CategoryName(m));
    } else {
      assert CategoryFor(topic) == GeneralIndex;
      assert forall k :: 0 <= k < CategoryCount ==> !Matches(t, CategoryName(k));
    }
  }

  /** The URLs the topics add, in order, duplicates included. */
  function SelectedUrls(topics: seq<string>): seq<Url>
    decreases |topics|
  {
    if topics == [] then []
    else SelectedUrls(topics[..|topics| - 1]) + FeedUrls(CategoryFor(topics[|topics| - 1]))
  }

  /** A URL is selected exactly when some topic's category lists it. */
  lemma {:induction false} SelectedUrlsUnion(topics: seq<string>, u: Url)
    ensures u in SelectedUrls(topics) <==> exists t :: t in topics && u in FeedUrls(CategoryFor(t))
    decreases |topics|
  {
    if topics != [] {
      var init := topics[..|topics| - 1];
      var last := topics[|topics| - 1];
      SelectedUrlsUnion(init, u);
      assert forall t :: t in topics <==> t in init || t == last;
    }
  }

  /** The inner loop of the feed selection: the first matching category, else "general". */
  method MatchCategory(topic: string) returns (idx: nat)
    ensures idx == CategoryFor(topic)
  {
    var topicLower := NormalizeTopic(topic);
    var matched := false;
    idx := 0;
    var j := 0;
    while j < CategoryCount
      invariant 0 <= j <= CategoryCount
      invariant FirstMatchFrom(topicLower, 0) == FirstMatchFrom(topicLower, j)
    {
      if Matches(topicLower, CategoryName(j)) {
        idx := j;
        matched := true;
        break;
      }
      j := j + 1;
    }
    if !matched {
      idx := GeneralIndex;
    }
  }

  /** The feed-selection loop of fetch_news (before the set conversion). */
  method SelectFeeds(topics: seq<string>) returns (feeds: seq<Url>)
    ensures feeds == SelectedUrls(topics)
  {
    feeds := [];
    for i := 0 to |topics|
      invariant feeds == SelectedUrls(topics[..i])
    {
      var idx := MatchCategory(topics[i]);
      SelectedUrlsStep(topics, i);
      feeds := feeds + FeedUrls(idx);
    }
    assert topics[..|topics|] == topics;
  }

  lemma SelectedUrlsStep(topics: seq<string>, i: nat)
    requires i < |topics|
    ensures SelectedUrls(topics[..i + 1]) == SelectedUrls(topics[..i]) + FeedUrls(CategoryFor(topics[i]))
  {
    var t := topics[..i + 1];
    assert t[..|t| - 1] == topics[..i];
    assert t[|t| - 1] == topics[i];
  }

  lemma LowerUnchanged(s: string)
    requires forall k :: 0 <= k < |s| ==> !IsAsciiUpper(s[k])
    ensures Lower(s) == s
  {
  }

  /** A blank topic normalizes to the empty text, a substring of every name, so it selects "technology". */
  lemma BlankTopicIsTechnology(topic: string)
    requires forall k :: 0 <= k < |topic| ==> IsSpace(topic[k])
    ensures CategoryFor(topic) == 0
    ensures CategoryName(CategoryFor(topic)) == "technology"
  {
    var low := Lower(topic);
    forall c | c in low ensures IsSpace(c) {
      var k :| 0 <= k < |low| && low[k] == c;
      assert low[k] == LowerChar(topic[k]);
    }
    StripAllSpace(low);
    assert NormalizeTopic(topic) == [];
    assert Contains(CategoryName(0), []);
  }

  /** A character of the topic missing from the name, and one of the name missing from the topic. */
  lemma NoMatchByChars(topicLower: string, name: string, inTopic: char, inName: char)
    requires inTopic in topicLower && inTopic !in name
    requires inName in name && inName !in topicLower
    ensures !Matches(topicLower, name)
  {
  }

  lemma MadeUpChars(t: string)
    requires t == "made-up-topic"
    ensures '-' in t
    ensures 'h' !in t && 'b' !in t && 's' !in t && 'w' !in t && 'n' !in t && 'g' !in t
  {
    assert t[4] == '-';
  }

  lemma UnknownTopicMissesFirstFour(t: string)
    requires t == "made-up-topic"
    ensures forall k :: 0 <= k < 4 ==> !Matches(t, CategoryName(k))
  {
    MadeUpChars(t);
    forall k | 0 <= k < 4
      ensures !Matches(t, CategoryName(k))
    {
      var name := CategoryName(k);
      if k == 0 || k == 3 {
        NoMatchByChars(t, name, '-', 'h');
      } else if k == 1 {
        NoMatchByChars(t, name, '-', 'b');
      } else {
        NoMatchByChars(t, name, '-', 's');
      }
    }
  }

  lemma UnknownTopicMissesLastFour(t: string)
    requires t == "made-up-topic"
    ensures forall k :: 4 <= k < CategoryCount ==> !Matches(t, CategoryName(k))
  {
    MadeUpChars(t);
    forall k | 4 <= k < CategoryCount
      ensures !Matches(t, CategoryName(k))
    {
      var name := CategoryName(k);
      if k == 4 {
        NoMatchByChars(t, name, '-', 'w');
      } else if k == 5 {
        NoMatchByChars(t, name, '-', 's');
      } else if k == 6 {
        NoMatchByChars(t, name, '-', 'n');
      } else {
        NoMatchByChars(t, name, '-', 'g');
      }
    }
  }

  /** A topic no category name is related to falls back to "general". */
  lemma UnknownTopicIsGeneral(topic: string)
    requires topic == "made-up-topic"
    ensures CategoryFor(topic) == GeneralIndex
  {
    MadeUpTopicNormal(topic);
    var t := NormalizeTopic(topic);
    UnknownTopicMissesFirstFour(t);
    UnknownTopicMissesLastFour(t);
    assert forall k :: 0 <= k < CategoryCount ==> !Matches(t, CategoryName(k));
    CategoryForMeaning(topic);
  }

  lemma MadeUpTopicNormal(topic: string)
    requires topic == "made-up-topic"
    ensures NormalizeTopic(topic) == topic
  {
    LowerUnchanged(topic);
    StripNoSpaceEnds(topic);
  }

  /** A topic naming a category selects that category. */
  lemma TechnologyTopic(topic: string)
    requires topic == "Technology"
    ensures CategoryFor(topic) == 0
  {
    TechnologyNormal(topic);
    var t := NormalizeTopic(topic);
    assert Contains(t, CategoryName(0)) by {
      assert t[..|t|] == t;
    }
  }

  lemma TechnologyNormal(topic: string)
    requires topic == "Technology"
    ensures NormalizeTopic(topic) == CategoryName(0)
  {
    assert Lower(topic) == "technology";
    StripNoSpaceEnds("technology");
  }

  // ---------------------------------------------------------------------------
  // Feeds and their entries (news_fetcher.py:85-148)
  // ---------------------------------------------------------------------------

  datatype MediaItem = MediaItem(medium: Option<string>, mediaType: Option<string>, url: Option<string>)
  datatype Thumbnail = Thumbnail(url: Option<string>)
  datatype Enclosure = Enclosure(encType: Option<string>, href: Option<string>, url: Option<string>)

  /** The entry's `published_parsed`: absent, formattable, or one that `datetime(...)` rejects. */
  datatype ParsedDate = NoParsedDate | FormattedDate(text: string) | BadDate

  /** A feed entry as the feed parser delivers it; an absent list attribute is the empty list. */
  datatype RawEntry = RawEntry(
    title: Option<string>,
    summary: Option<string>,
    description: Option<string>,
    link: Option<string>,
    published: Option<string>,
    updated: Option<string>,
    parsedDate: ParsedDate,
    mediaContent: seq<MediaItem>,
    mediaThumbnail: seq<Thumbnail>,
    enclosures: seq<Enclosure>)

  /** A parsed feed; an entry is None when processing it raises. */
  datatype Feed = Feed(title: Option<string>, entries: seq<Option<RawEntry>>)

  /**
   * What the parser takes from outside: today's date already formatted, the
   * text of an HTML fragment, and the `src` of its first `<img>` tag.
   */
  datatype ParseEnv = ParseEnv(today: string, htmlText: string -> string, firstImgSrc: string -> Option<string>)

  /** The article record that fetch_news works on. */
  datatype Article = Article(title: string, summary: string, link: string, imageUrl: string,
                             published: string, source: string)

  const EntryCap: nat := 20
  const SummaryCap: nat := 500

  /** The url of the first media_content item that is an image, if any. */
  function ImageFromMedia(items: seq<MediaItem>): Option<string>
    decreases |items|
  {
    if items == [] then None
    else if items[0].medium == Some("image") || StartsWith(items[0].mediaType.GetOr(""), "image")
    then Some(items[0].url.GetOr(""))
    else ImageFromMedia(items[1..])
  }

  /** The href (or url) of the first enclosure whose type is an image, if any. */
  function ImageFromEnclosures(encs: seq<Enclosure>): Option<string>
    decreases |encs|
  {
    if encs == [] then None
    else if StartsWith(encs[0].encType.GetOr(""), "image")
    then Some(encs[0].href.GetOr(encs[0].url.GetOr("")))
    else ImageFromEnclosures(encs[1..])
  }

  /** extract_image_from_entry: the four sources in order, the first that yields wins. */
  function ExtractImage(e: RawEntry, summaryHtml: string, env: ParseEnv): (url: string)
    ensures ImageFromMedia(e.mediaContent).Some? ==> url == ImageFromMedia(e.mediaContent).value
    ensures ImageFromMedia(e.mediaContent).None? && e.mediaThumbnail != [] ==>
              url == e.mediaThumbnail[0].url.GetOr("")
  {
    match ImageFromMedia(e.mediaContent)
    case Some(u) => u
    case None =>
      if e.mediaThumbnail != [] then e.mediaThumbnail[0].url.GetOr("")
      else match ImageFromEnclosures(e.enclosures)
        case Some(u) => u
        case None =>
          if summaryHtml != [] && env.firstImgSrc(summaryHtml).Some? && env.firstImgSrc(summaryHtml).value != []
          then env.firstImgSrc(summaryHtml).value
          else ""
  }

  /** One entry of parse_rss_feed's loop. */
  function ParseEntry(e: RawEntry, feedTitle: Option<string>, env: ParseEnv): (a: Article)
    ensures |a.summary| <= SummaryCap
    ensures NoDoubleSpace(a.summary)
    ensures a.summary == [] || !IsSpace(a.summary[0])
    ensures a.title == e.title.GetOr("")
    ensures a.source == feedTitle.GetOr("Unknown Source")
  {
    var summaryHtml := e.summary.GetOr(e.description.GetOr(""));
    var image := ExtractImage(e, summaryHtml, env);
    var text := Squeeze(env.htmlText(summaryHtml));
    var published :=
      match e.parsedDate
      case NoParsedDate => e.published.GetOr(e.updated.GetOr(""))
      case FormattedDate(d) => d
      case BadDate => env.today;
    var summary := PrefixTo(text, SummaryCap);
    NoDoubleSpaceSlice(text, 0, |summary|);
    Article(e.title.GetOr(""), summary, e.link.GetOr(""), image, published, feedTitle.GetOr("Unknown Source"))
  }

  /**
   * `f` applied to each entry of a run until the first missing one, which ends the
   * run: the try around parse_rss_feed's loop keeps what was built before the failure.
   */
  function MapUntilNone<A, B>(es: seq<Option<A>>, f: A -> B): (r: seq<B>)
    ensures |r| <= |es|
    decreases |es|
  {
    if es == [] then []
    else match es[0]
      case None => []
      case Some(e) => [f(e)] + MapUntilNone(es[1..], f)
  }

  /** The k-th result comes from the k-th entry, and the entry after the last result (if any) is missing. */
  lemma {:induction false} MapUntilNoneMeaning<A, B>(es: seq<Option<A>>, f: A -> B)
    ensures var r := MapUntilNone(es, f);
      && (forall k :: 0 <= k < |r| ==> es[k].Some? && r[k] == f(es[k].value))
      && (|r| < |es| ==> es[|r|].None?)
    decreases |es|
  {
    if es != [] && es[0].Some? {
      MapUntilNoneMeaning(es[1..], f);
      var r := MapUntilNone(es, f);
      var r' := MapUntilNone(es[1..], f);
      assert r == [f(es[0].value)] + r';
      forall k | 0 <= k < |r|
        ensures es[k].Some? && r[k] == f(es[k].value)
      {
        if k > 0 {
          assert r[k] == r'[k - 1] && es[k] == es[1..][k - 1];
        }
      }
      if |r| < |es| {
        assert es[|r|] == es[1..][|r'|];
      }
    }
  }

  lemma MapUntilNoneFrom<A, B>(es: seq<Option<A>>, i: nat, f: A -> B)
    requires i < |es|
    ensures es[i].None? ==> MapUntilNone(es[i..], f) == []
    ensures es[i].Some? ==> MapUntilNone(es[i..], f) == [f(es[i].value)] + MapUntilNone(es[i + 1..], f)
  {
    assert es[i..][0] == es[i];
    assert es[i..][1..] == es[i + 1..];
  }

  /** One more parsed entry moves from the rest of the feed to the articles. */
  lemma MapUntilNoneStep<A, B>(done: seq<B>, es: seq<Option<A>>, i: nat, f: A -> B)
    requires i < |es| && es[i].Some?
    ensures (done + [f(es[i].value)]) + MapUntilNone(es[i + 1..], f) == done + MapUntilNone(es[i..], f)
  {
    MapUntilNoneFrom(es, i, f);
    SeqAssoc(done, [f(es[i].value)], MapUntilNone(es[i + 1..], f));
  }

  function EntryParser(feedTitle: Option<string>, env: ParseEnv): RawEntry -> Article {
    e => ParseEntry(e, feedTitle, env)
  }

  /** What parse_rss_feed returns for a feed: its first 20 entries, parsed. */
  function FeedArticles(feed: Feed, env: ParseEnv): (r: seq<Article>)
    ensures |r| <= EntryCap
    ensures forall a :: a in r ==> |a.summary| <= SummaryCap
  {
    var es := PrefixTo(feed.entries, EntryCap);
    MapUntilNoneMeaning(es, EntryParser(feed.title, env));
    MapUntilNone(es, EntryParser(feed.title, env))
  }

  /** parse_rss_feed over a parsed feed: the loop over the first 20 entries. */
  method ParseRssFeed(feed: Feed, env: ParseEnv) returns (articles: seq<Article>)
    ensures articles == FeedArticles(feed, env)
  {
    var entries := PrefixTo(feed.entries, EntryCap);
    articles := ParseEntries(entries, EntryParser(feed.title, env));
  }

  /**
   * The loop of parse_rss_feed: each entry is parsed and appended in turn, and
   * the first entry that fails ends the loop, keeping what was appended before it.
   */
  method ParseEntries<A, B>(entries: seq<Option<A>>, parse: A -> B) returns (articles: seq<B>)
    ensures articles == MapUntilNone(entries, parse)
  {
    articles := [];
    var i := 0;
    while i < |entries|
      invariant 0 <= i <= |entries|
      invariant articles + MapUntilNone(entries[i..], parse) == MapUntilNone(entries, parse)
    {
      match entries[i]
      case None =>
        MapUntilNoneFrom(entries, i, parse);
        assert articles + [] == articles;
        return;
      case Some(e) =>
        var article := parse(e);
        MapUntilNoneStep(articles, entries, i, parse);
        articles := articles + [article];
      i := i + 1;
    }
    assert entries[i..] == [];
    assert articles + [] == articles;
  }

  // ---------------------------------------------------------------------------
  // Reading every feed (news_fetcher.py:60-66)
  // ---------------------------------------------------------------------------

  /** The articles a feed contributes: none when fetching or parsing it failed. */
  function Contribution(feed: Option<Feed>, env: ParseEnv): (r: seq<Article>)
    ensures |r| <= EntryCap
    ensures forall a :: a in r ==> |a.summary| <= SummaryCap
  {
    match feed
    case None => []
    case Some(f) => FeedArticles(f, env)
  }

  /** The articles read from one URL: the feed the fetcher returns for it, parsed. */
  function Reader(fetch: Url -> Option<Feed>, env: ParseEnv): Url -> seq<Article> {
    u => Contribution(fetch(u), env)
  }

  /** all_articles after visiting the feeds in `order`, `read` giving each feed's articles. */
  function Gathered(order: seq<Url>, read: Url -> seq<Article>): seq<Article>
    decreases |order|
  {
    if order == [] then []
    else Gathered(order[..|order| - 1], read) + read(order[|order| - 1])
  }

  lemma {:induction false} GatheredAppend(a: seq<Url>, b: seq<Url>, read: Url -> seq<Article>)
    ensures Gathered(a + b, read) == Gathered(a, read) + Gathered(b, read)
    decreases |b|
  {
    if b == [] {
      assert a + b == a;
    } else {
      var b' := b[..|b| - 1];
      assert (a + b)[..|a + b| - 1] == a + b';
      GatheredAppend(a, b', read);
    }
  }

  lemma EmptyFeedSkipped(a: seq<Url>, u: Url, b: seq<Url>, read: Url -> seq<Article>)
    requires read(u) == []
    ensures Gathered(a + [u] + b, read) == Gathered(a, read) + Gathered(b, read)
  {
    GatheredAppend(a + [u], b, read);
    GatheredAppend(a, [u], read);
    assert Gathered([u], read) == Gathered([u][..0], read) + read(u);
  }

  /** A feed that fails adds nothing, and the feeds after it are still read. */
  lemma FailedFeedSkipped(a: seq<Url>, u: Url, b: seq<Url>, fetch: Url -> Option<Feed>, env: ParseEnv)
    requires fetch(u).None?
    ensures Gathered(a + [u] + b, Reader(fetch, env)) ==
            Gathered(a, Reader(fetch, env)) + Gathered(b, Reader(fetch, env))
  {
    assert Reader(fetch, env)(u) == Contribution(None, env) == [];
    EmptyFeedSkipped(a, u, b, Reader(fetch, env));
  }

  /** Every feed adds at most 20 articles, each with a summary of at most 500 characters. */
  lemma {:induction false} GatheredBounds(order: seq<Url>, fetch: Url -> Option<Feed>, env: ParseEnv)
    ensures |Gathered(order, Reader(fetch, env))| <= EntryCap * |order|
    ensures forall a :: a in Gathered(order, Reader(fetch, env)) ==> |a.summary| <= SummaryCap
    decreases |order|
  {
    if order != [] {
      var read := Reader(fetch, env);
      var last := order[|order| - 1];
      GatheredBounds(order[..|order| - 1], fetch, env);
      assert read(last) == Contribution(fetch(last), env);
    }
  }

  method ReadFeeds(order: seq<Url>, fetch: Url -> Option<Feed>, env: ParseEnv) returns (all: seq<Article>)
    ensures all == Gathered(order, Reader(fetch, env))
  {
    all := [];
    for i := 0 to |order|
      invariant all == Gathered(order[..i], Reader(fetch, env))
    {
      assert order[..i + 1][..i] == order[..i];
      var feed := fetch(order[i]);
      ghost var read := Reader(fetch, env);
      assert read(order[i]) == Contribution(feed, env);
      if feed.Some? {
        var articles := ParseRssFeed(feed.value, env);
        all := all + articles;
      } else {
        assert read(order[i]) == [];
      }
    }
    assert order[..|order|] == order;
  }

  // ---------------------------------------------------------------------------
  // Deduplication by exact title (news_fetcher.py:68-73)
  // ---------------------------------------------------------------------------

  function Titles(s: seq<Article>): set<string> {
    set a | a in s :: a.title
  }

  predicate DistinctTitles(s: seq<Article>) {
    forall i, j :: 0 <= i < j < |s| ==> s[i].title != s[j].title
  }

  /** The first article of each title, in input order. */
  function Dedup(s: seq<Article>): seq<Article>
    decreases |s|
  {
    if s == [] then []
    else
      var init := s[..|s| - 1];
      if s[|s| - 1].title in Titles(init) then Dedup(init) else Dedup(init) + [s[|s| - 1]]
  }

  lemma TitlesAppend(s: seq<Article>, a: Article)
    ensures Titles(s + [a]) == Titles(s) + {a.title}
  {
    assert forall x :: x in s + [a] <==> x in s || x == a;
  }

  /** Deduplication keeps exactly the titles of its input. */
  lemma {:induction false} DedupTitles(s: seq<Article>)
    ensures Titles(Dedup(s)) == Titles(s)
    decreases |s|
  {
    if s != [] {
      var init := s[..|s| - 1];
      DedupTitles(init);
      assert s == init + [s[|s| - 1]];
      TitlesAppend(init, s[|s| - 1]);
      TitlesAppend(Dedup(init), s[|s| - 1]);
    }
  }

  /** No title survives deduplication twice. */
  lemma {:induction false} DedupDistinct(s: seq<Article>)
    ensures DistinctTitles(Dedup(s))
    decreases |s|
  {
    if s != [] {
      var init := s[..|s| - 1];
      DedupDistinct(init);
      DedupTitles(init);
      var d := Dedup(init);
      var x := s[|s| - 1];
      if x.title !in Titles(init) {
        forall i | 0 <= i < |d| ensures d[i].title != x.title {
          assert d[i] in d;
        }
      }
    }
  }

  /**
   * Each kept article is the first one of its title in the input, and the kept
   * articles appear in input order: `idx[j]` is where `Dedup(s)[j]` stands in `s`.
   */
  lemma DedupFirstOccurrences(s: seq<Article>) returns (idx: seq<nat>)
    ensures |idx| == |Dedup(s)|
    ensures forall j :: 0 <= j < |idx| ==> idx[j] < |s| && Dedup(s)[j] == s[idx[j]]
    ensures forall j :: 0 <= j < |idx| ==> forall i :: 0 <= i < idx[j] ==> s[i].title != s[idx[j]].title
    ensures forall j, k :: 0 <= j < k < |idx| ==> idx[j] < idx[k]
  {
    idx := FirstOccurrencesOf(s);
  }

  /** `d` is the articles of `s` at the increasing positions `idx`, each the first of its title. */
  predicate FirstOccurrences(s: seq<Article>, d: seq<Article>, idx: seq<nat>) {
    && |idx| == |d|
    && (forall j :: 0 <= j < |idx| ==> idx[j] < |s| && d[j] == s[idx[j]])
    && (forall j :: 0 <= j < |idx| ==> forall i :: 0 <= i < idx[j] ==> s[i].title != s[idx[j]].title)
    && (forall j, k :: 0 <= j < k < |idx| ==> idx[j] < idx[k])
  }

  lemma {:induction false} FirstOccurrencesOf(s: seq<Article>) returns (idx: seq<nat>)
    ensures FirstOccurrences(s, Dedup(s), idx)
    decreases |s|
  {
    if s == [] {
      idx := [];
    } else {
      var init := s[..|s| - 1];
      var x := s[|s| - 1];
      var prev := FirstOccurrencesOf(init);
      assert s == init + [x];
      if x.title in Titles(init) {
        FirstOccurrencesKeep(init, x, Dedup(init), prev);
        idx := prev;
      } else {
        FirstOccurrencesAdd(init, x, Dedup(init), prev);
        idx := prev + [|init|];
      }
    }
  }

  /** A later article leaves the earlier first occurrences where they are. */
  lemma FirstOccurrencesKeep(init: seq<Article>, x: Article, d: seq<Article>, idx: seq<nat>)
    requires FirstOccurrences(init, d, idx)
    ensures FirstOccurrences(init + [x], d, idx)
  {
    var s := init + [x];
    forall j | 0 <= j < |idx|
      ensures idx[j] < |s| && d[j] == s[idx[j]]
      ensures forall i :: 0 <= i < idx[j] ==> s[i].title != s[idx[j]].title
    {
      assert s[idx[j]] == init[idx[j]];
      forall i | 0 <= i < idx[j] ensures s[i].title != s[idx[j]].title {
        assert s[i] == init[i];
      }
    }
  }

  /** An article of a new title is a first occurrence after all the earlier ones. */
  lemma FirstOccurrencesAdd(init: seq<Article>, x: Article, d: seq<Article>, idx: seq<nat>)
    requires FirstOccurrences(init, d, idx)
    requires x.title !in Titles(init)
    ensures FirstOccurrences(init + [x], d + [x], idx + [|init|])
  {
    var s := init + [x];
    FirstOccurrencesKeep(init, x, d, idx);
    forall i | 0 <= i < |init| ensures s[i].title != x.title {
      assert s[i] == init[i] && init[i] in init;
    }
  }

  method Deduplicate(all: seq<Article>) returns (unique: seq<Article>)
    ensures unique == Dedup(all)
  {
    var seen: set<string> := {};
    unique := [];
    for i := 0 to |all|
      invariant unique == Dedup(all[..i])
      invariant seen == Titles(all[..i])
    {
      assert all[..i + 1][..i] == all[..i];
      assert all[..i + 1] == all[..i] + [all[i]];
      TitlesAppend(all[..i], all[i]);
      if all[i].title !in seen {
        seen := seen + {all[i].title};
        unique := unique + [all[i]];
      }
    }
    assert all[..|all|] == all;
  }

  // ---------------------------------------------------------------------------
  // Relevance (news_fetcher.py:150-166)
  // ---------------------------------------------------------------------------

  /** `topic.lower().strip().split()` */
  function TopicWords(topic: string): seq<string> {
    SplitWords(Strip(Lower(topic)))
  }

  /** The points one topic word earns: tested against the lowered title-and-summary first. */
  function WordScore(a: Article, word: string): nat {
    if Contains(Lower(a.title + " " + a.summary), word) then
      (if Contains(Lower(a.title), word) then 3 else 1)
    else 0
  }

  /** A word earns 3 points when it is in the title, otherwise 1 when it is in the summary. */
  lemma WordScoreMeaning(a: Article, word: string)
    ensures WordScore(a, word) ==
      if Contains(Lower(a.title), word) then 3
      else if Contains(Lower(a.title + " " + a.summary), word) then 1
      else 0
  {
    LowerAppend(a.title, " " + a.summary);
    assert a.title + " " + a.summary == a.title + (" " + a.summary);
    if Contains(Lower(a.title), word) {
      ContainsAppend(Lower(a.title), Lower(" " + a.summary), word);
    }
  }

  function WordsScore(a: Article, words: seq<string>): nat
    decreases |words|
  {
    if words == [] then 0
    else WordsScore(a, words[..|words| - 1]) + WordScore(a, words[|words| - 1])
  }

  /** calculate_relevance: the points of every word of every topic, added up. */
  function Relevance(a: Article, topics: seq<string>): nat
    decreases |topics|
  {
    if topics == [] then 0
    else Relevance(a, topics[..|topics| - 1]) + WordsScore(a, TopicWords(topics[|topics| - 1]))
  }

  function WordCount(topics: seq<string>): nat
    decreases |topics|
  {
    if topics == [] then 0
    else WordCount(topics[..|topics| - 1]) + |TopicWords(topics[|topics| - 1])|
  }

  lemma {:induction false} WordsScoreBound(a: Article, words: seq<string>)
    ensures WordsScore(a, words) <= 3 * |words|
    decreases |words|
  {
    if words != [] {
      WordsScoreBound(a, words[..|words| - 1]);
    }
  }

  /** A score is never more than three points per topic word. */
  lemma {:induction false} RelevanceBound(a: Article, topics: seq<string>)
    ensures 0 <= Relevance(a, topics) <= 3 * WordCount(topics)
    decreases |topics|
  {
    if topics != [] {
      RelevanceBound(a, topics[..|topics| - 1]);
      WordsScoreBound(a, TopicWords(topics[|topics| - 1]));
    }
  }

  lemma RelevanceStep(a: Article, topics: seq<string>, i: nat)
    requires i < |topics|
    ensures Relevance(a, topics[..i + 1]) == Relevance(a, topics[..i]) + WordsScore(a, TopicWords(topics[i]))
  {
    assert topics[..i + 1][..i] == topics[..i];
  }

  lemma WordsScoreStep(a: Article, words: seq<string>, j: nat)
    requires j < |words|
    ensures WordsScore(a, words[..j + 1]) == WordsScore(a, words[..j]) + WordScore(a, words[j])
  {
    assert words[..j + 1][..j] == words[..j];
  }

  /** The inner loop of calculate_relevance: the points of one topic's words. */
  method WordsPoints(a: Article, words: seq<string>) returns (points: int)
    ensures points == WordsScore(a, words)
  {
    points := 0;
    var text := Lower(a.title + " " + a.summary);
    var titleLower := Lower(a.title);
    for j := 0 to |words|
      invariant points == WordsScore(a, words[..j])
    {
      WordsScoreStep(a, words, j);
      if Contains(text, words[j]) {
        if Contains(titleLower, words[j]) {
          points := points + 3;
        } else {
          points := points + 1;
        }
      }
    }
    assert words[..|words|] == words;
  }

  method CalculateRelevance(a: Article, topics: seq<string>) returns (score: int)
    ensures score == Relevance(a, topics)
  {
    score := 0;
    for i := 0 to |topics|
      invariant score == Relevance(a, topics[..i])
    {
      var words := SplitWords(Strip(Lower(topics[i])));
      var points := WordsPoints(a, words);
      score := score + points;
      RelevanceStep(a, topics, i);
    }
    assert topics[..|topics|] == topics;
  }

  // ---------------------------------------------------------------------------
  // Scoring, stable sort and truncation (news_fetcher.py:75-83)
  // ---------------------------------------------------------------------------

  /** An article with its `relevance_score` set. */
  datatype Ranked = Ranked(article: Article, relevanceScore: int)

  /** The sort key. */
  function Score(r: Ranked): int {
    r.relevanceScore
  }

  function RankedTitle(r: Ranked): string {
    r.article.title
  }

  /** Every article paired with its relevance, in order. */
  function ScoreAll(u: seq<Article>, topics: seq<string>): (r: seq<Ranked>)
    ensures |r| == |u|
    ensures forall i :: 0 <= i < |u| ==> r[i].article == u[i] && r[i].relevanceScore == Relevance(u[i], topics)
  {
    seq(|u|, i requires 0 <= i < |u| => Ranked(u[i], Relevance(u[i], topics)))
  }

  lemma ScoreAllStep(u: seq<Article>, topics: seq<string>, i: nat)
    requires i < |u|
    ensures ScoreAll(u[..i + 1], topics) == ScoreAll(u[..i], topics) + [Ranked(u[i], Relevance(u[i], topics))]
  {
  }

  /** The sorted list before the cut. */
  function Sorted(all: seq<Article>, topics: seq<string>): seq<Ranked> {
    StableSort.SortDesc(ScoreAll(Dedup(all), topics), Score)
  }

  /** What fetch_news returns for the gathered articles: dedup, score, stable sort, cut. */
  function Ranking(all: seq<Article>, topics: seq<string>, limit: int): seq<Ranked> {
    PrefixTo(Sorted(all, topics), limit)
  }

  /** The result has Python's `[:limit]` length over the unique articles (a negative limit drops from the end). */
  lemma RankingLength(all: seq<Article>, topics: seq<string>, limit: int)
    ensures var n := |Dedup(all)|;
      |Ranking(all, topics, limit)| ==
        if limit >= 0 then (if limit < n then limit else n)
        else (if n + limit > 0 then n + limit else 0)
  {
    StableSort.SortLength(ScoreAll(Dedup(all), topics), Score);
  }

  /** Scores never increase along the result. */
  lemma RankingSorted(all: seq<Article>, topics: seq<string>, limit: int)
    ensures StableSort.SortedDesc(Ranking(all, topics, limit), Score)
  {
    var sorted := Sorted(all, topics);
    var r := Ranking(all, topics, limit);
    forall i, j | 0 <= i < j < |r| ensures Score(r[i]) >= Score(r[j]) {
      assert r[i] == sorted[i] && r[j] == sorted[j];
    }
  }

  /** Each result is a unique article carrying its own relevance. */
  lemma RankingMembers(all: seq<Article>, topics: seq<string>, limit: int)
    ensures forall x :: x in Ranking(all, topics, limit) ==>
      x.article in Dedup(all) && x.relevanceScore == Relevance(x.article, topics)
  {
    var u := Dedup(all);
    var scored := ScoreAll(u, topics);
    var r := Ranking(all, topics, limit);
    forall x | x in r ensures x.article in u && x.relevanceScore == Relevance(x.article, topics) {
      StableSort.SortMember(scored, Score, x);
      var m :| 0 <= m < |scored| && scored[m] == x;
    }
  }

  /** No title appears twice in the result. */
  lemma RankingDistinct(all: seq<Article>, topics: seq<string>, limit: int)
    ensures StableSort.DistinctBy(Ranking(all, topics, limit), RankedTitle)
  {
    var u := Dedup(all);
    var scored := ScoreAll(u, topics);
    var sorted := Sorted(all, topics);
    var r := Ranking(all, topics, limit);
    DedupDistinct(all);
    assert StableSort.DistinctBy(scored, RankedTitle) by {
      forall i, j | 0 <= i < j < |scored| ensures RankedTitle(scored[i]) != RankedTitle(scored[j]) {
        assert scored[i].article == u[i] && scored[j].article == u[j];
      }
    }
    StableSort.SortDistinct(scored, Score, RankedTitle);
    forall i, j | 0 <= i < j < |r| ensures RankedTitle(r[i]) != RankedTitle(r[j]) {
      assert r[i] == sorted[i] && r[j] == sorted[j];
    }
  }

  /** Truncation comes after sorting: a unique article left out scores at most what each kept one does. */
  lemma RankingKeepsBest(all: seq<Article>, topics: seq<string>, limit: int, y: Ranked)
    requires y in ScoreAll(Dedup(all), topics)
    requires y !in Ranking(all, topics, limit)
    ensures forall x :: x in Ranking(all, topics, limit) ==> y.relevanceScore <= x.relevanceScore
  {
    var sorted := Sorted(all, topics);
    var r := Ranking(all, topics, limit);
    StableSort.SortMember(ScoreAll(Dedup(all), topics), Score, y);
    var m :| 0 <= m < |sorted| && sorted[m] == y;
    assert forall j :: 0 <= j < |r| ==> r[j] == sorted[j] && r[j] != y;
    assert m >= |r|;
    forall x | x in r ensures y.relevanceScore <= x.relevanceScore {
      var i :| 0 <= i < |r| && r[i] == x;
      assert Score(sorted[i]) >= Score(sorted[m]);
    }
  }

  /** Equal scores keep their deduplicated order: per score, the result lists a prefix of that order. */
  lemma RankingStable(all: seq<Article>, topics: seq<string>, limit: int, k: int)
    ensures var f := StableSort.WithKey(Ranking(all, topics, limit), Score, k);
      var g := StableSort.WithKey(ScoreAll(Dedup(all), topics), Score, k);
      |f| <= |g| && f == g[..|f|]
  {
    var scored := ScoreAll(Dedup(all), topics);
    var sorted := Sorted(all, topics);
    StableSort.SortStable(scored, Score, k);
    StableSort.WithKeyPrefix(sorted, |Ranking(all, topics, limit)|, Score, k);
  }

  /** A duplicate-free listing of exactly the given URLs (`list(set(urls))` in some order). */
  ghost predicate IsEnumeration(order: seq<Url>, urls: seq<Url>) {
    && (forall i, j :: 0 <= i < j < |order| ==> order[i] != order[j])
    && (forall u :: u in order <==> u in urls)
  }

  /**
   * fetch_news. The iteration order of the URL set is not specified by Python;
   * `order` is that order, any duplicate-free listing of the selected URLs.
   */
  method FetchNews(topics: seq<string>, limit: int, order: seq<Url>,
                   fetch: Url -> Option<Feed>, env: ParseEnv) returns (result: seq<Ranked>)
    requires IsEnumeration(order, SelectedUrls(topics))
    ensures result == Ranking(Gathered(order, Reader(fetch, env)), topics, limit)
  {
    var selected := SelectFeeds(topics);
    // list(set(selected)): the same URLs as `selected`, each once, in the order `order` gives
    assert IsEnumeration(order, selected);
    var feedsToCheck := order;

    var all := ReadFeeds(feedsToCheck, fetch, env);
    var unique := Deduplicate(all);

    var scored: seq<Ranked> := [];
    for i := 0 to |unique|
      invariant scored == ScoreAll(unique[..i], topics)
    {
      var score := CalculateRelevance(unique[i], topics);
      ScoreAllStep(unique, topics, i);
      scored := scored + [Ranked(unique[i], score)];
    }
    assert unique[..|unique|] == unique;

    scored := StableSort.SortDesc(scored, Score);
    result := PrefixTo(scored, limit);
  }
}
