/**
 * The article dictionaries that travel from the fetcher through the summariser to
 * the PDF and audio generators. A key that is absent is `None`.
 */
module Stories {
  import opened Wrappers
  import NewsFetcher

  datatype Story = Story(
    title: Option<string>,
    summary: Option<string>,
    originalSummary: Option<string>,
    simplifiedSummary: Option<string>,
    source: Option<string>,
    published: Option<string>,
    link: Option<string>,
    imageUrl: Option<string>)

  /** The title printed and read out for a story without one. */
  const Untitled: string := "Untitled"

  /** The text printed and read out for a story: the simplified summary if present, else the original, else none. */
  function ReadSummary(a: Story): string {
    a.simplifiedSummary.GetOr(a.originalSummary.GetOr([]))
  }

  /** The dictionary fetch_news returns for a ranked article (its score is not used further on). */
  function FromRanked(r: NewsFetcher.Ranked): Story {
    Story(Some(r.article.title), Some(r.article.summary), None, None, Some(r.article.source),
          Some(r.article.published), Some(r.article.link), Some(r.article.imageUrl))
  }
}
