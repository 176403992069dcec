# Personal newsletter: a Dafny model of its core

The system builds a personal news digest:

- It maps a user's topics to RSS feeds and reads at most 20 articles per feed.
- It drops articles whose title was already seen, scores each against the topic words, and keeps the best few.
- It has a language model (or, without one, a fixed rule) shorten each summary and write an overall summary.
- It turns the result into a PDF and a spoken script.
- It delivers the newsletter to every active user by e-mail and WhatsApp, the latter through a small Node service that exposes `/send` and `/send-media`.

This project models that core in Dafny 4.11. There is one module per source file, plus shared modules:

- `Wrappers`: `Option`, `Attempt` (a value, or an exception raised), and a map that stops at the first exception.
- `Seqs`: sequence lemmas.
- `Strings`: Python's string operations on `seq<char>`, including `lower`, `strip`, `replace`, `split`, `join`, `re.sub(r'\s+', ' ', …)`, `in` and slicing.
- `StableSort`: a stable descending insertion sort. It models `list.sort(key=…, reverse=True)`.
- `Stories`: the article dictionaries passed from the summariser to the PDF and audio generators.

Imperative code is modelled imperatively:

- The loops of `fetch_news`, `parse_rss_feed` and `calculate_relevance` are methods with loop invariants.
- So are the loops of `summarize_articles`, the overall-summary briefs, `create_audio_script`, `clean_text_for_speech`, `generate_pdf`, the delivery fan-out and the `/send-media` file loop.
- Each method is proved equal to a specification function.
- The WhatsApp service is a class, `WhatsappService.Service`. Its fields are whether a client exists and the messages handed to that client. Its handlers change those fields.

Everything outside the process becomes a parameter ("oracle"):

- the network and the feed parser: each URL yields a parsed feed or nothing;
- the HTML-to-text step and the `<img>` lookup;
- the clock, given as an already formatted date;
- the language model, given as `NoKey | Broken | Ready(complete)`;
- the SMTP configuration and the outcome of each outgoing call;
- the file system;
- the order in which a Python `set` is iterated.

## Model

| member | source | states |
|---|---|---|
| NewsFetcher.FeedUrls | news_fetcher.py:11-44 | each category of the table has exactly two feeds: one BBC URL and one New York Times URL |
| NewsFetcher.FirstMatchFrom | news_fetcher.py:50-54 | the scan of the table returns the first category, from the given position on, whose name contains the lowered and stripped topic or is contained in it; no category before it matches |
| NewsFetcher.CategoryForMeaning | news_fetcher.py:46-56 | `CategoryFor` (the category a topic selects): a topic that matches some category gets the first matching one in table order; a topic that matches none gets "general" |
| NewsFetcher.MatchCategory | news_fetcher.py:47-56 | the loop with `break` over the table picks the category `CategoryFor` describes |
| NewsFetcher.SelectFeeds | news_fetcher.py:46-56 | `feeds_to_check` is extended, topic by topic, with the two feeds of each topic's category |
| NewsFetcher.SelectedUrlsUnion | news_fetcher.py:46-58 | a URL is selected iff it is a feed of the category of some topic, so the feed set is exactly the union of the selected feeds |
| NewsFetcher.BlankTopicIsTechnology | news_fetcher.py:48-51 | an empty or all-blank topic matches the first category, "technology", because the empty string is in every name |
| NewsFetcher.UnknownTopicIsGeneral | news_fetcher.py:55-56 | a topic ("made-up-topic") that matches no category falls back to the "general" feeds |
| NewsFetcher.TechnologyTopic | news_fetcher.py:48-51 | "Technology" is lowered before matching and selects the technology category |
| NewsFetcher.ExtractImage | news_fetcher.py:127-148 | an image media item's URL wins over a thumbnail; without one, the first thumbnail's URL is used |
| NewsFetcher.ParseEntry | news_fetcher.py:93-120 | an article keeps the entry's title (default empty) and the feed's title as source (default "Unknown Source"); its summary has whitespace collapsed, does not start with whitespace and has at most 500 characters |
| NewsFetcher.MapUntilNoneMeaning | news_fetcher.py:92-123 | an entry whose processing raises ends the feed; every article before it is the parse of its entry, in order |
| NewsFetcher.FeedArticles | news_fetcher.py:85-125 | a feed yields at most 20 articles, and every summary has at most 500 characters |
| NewsFetcher.ParseEntries | news_fetcher.py:92-123 | the entry loop appends one parsed article per entry until an entry raises |
| NewsFetcher.ParseRssFeed | news_fetcher.py:85-125 | `parse_rss_feed` returns the articles of `FeedArticles` |
| NewsFetcher.Contribution | news_fetcher.py:60-66 | a feed adds at most 20 articles, each summary at most 500 characters; a feed that cannot be read adds none |
| NewsFetcher.GatheredAppend | news_fetcher.py:60-63 | `Gathered` (the articles read from a list of feeds, in feed order): reading one list of feeds and then another gives the first list's articles followed by the second's |
| NewsFetcher.EmptyFeedSkipped | news_fetcher.py:60-66 | a feed with no articles leaves the articles of the feeds before and after it as they were |
| NewsFetcher.FailedFeedSkipped | news_fetcher.py:60-66 | a feed that fails adds nothing, and the feeds after it are still read |
| NewsFetcher.GatheredBounds | news_fetcher.py:60-66 | reading n feeds yields at most 20·n articles, each summary at most 500 characters |
| NewsFetcher.ReadFeeds | news_fetcher.py:60-66 | the feed loop builds `all_articles` as `Gathered` describes |
| NewsFetcher.DedupTitles | news_fetcher.py:68-73 | `Dedup` (the articles whose title was not seen before): dedup keeps every title of the input and adds none |
| NewsFetcher.DedupDistinct | news_fetcher.py:68-73 | the dedup output has pairwise distinct titles |
| NewsFetcher.DedupFirstOccurrences | news_fetcher.py:68-73 | each kept article is the input article at a position where its title occurs for the first time, and the positions increase (input order) |
| NewsFetcher.Deduplicate | news_fetcher.py:68-73 | the loop over `seen_titles` builds `unique_articles` as `Dedup` describes |
| NewsFetcher.WordScoreMeaning | news_fetcher.py:159-164 | a topic word earns 3 when it is in the lowered title, else 1 when it is in the lowered title-and-summary, else 0 |
| NewsFetcher.WordsScoreBound | news_fetcher.py:157-164 | the words of one topic earn at most 3 points each |
| NewsFetcher.RelevanceBound | news_fetcher.py:150-166 | `Relevance` (the sum over topics and their words of the word points): the relevance score is between 0 and 3 times the number of topic words |
| NewsFetcher.WordsPoints | news_fetcher.py:159-164 | the inner loop adds up the points of one topic's words |
| NewsFetcher.CalculateRelevance | news_fetcher.py:150-166 | the nested loops compute the sum over topics and words of the word points |
| NewsFetcher.ScoreAll | news_fetcher.py:75-79 | every unique article is kept, in order, with its relevance score |
| NewsFetcher.RankingLength | news_fetcher.py:81-83 | `Ranking` (the scored unique articles, stably sorted by descending score, cut to `limit`): the result has the length of Python's `[:limit]` over the unique articles: at most `limit` (for `limit` ≥ 0) and at most the number of unique articles |
| NewsFetcher.RankingSorted | news_fetcher.py:81-83 | scores in the result do not increase |
| NewsFetcher.RankingMembers | news_fetcher.py:68-83 | every returned article is a deduplicated article, returned with its relevance score |
| NewsFetcher.RankingDistinct | news_fetcher.py:68-83 | no title is returned twice |
| NewsFetcher.RankingKeepsBest | news_fetcher.py:81-83 | an article that is cut scores no more than any returned one |
| NewsFetcher.RankingStable | news_fetcher.py:81-83 | the returned articles of any given score are the first of that score in dedup order |
| NewsFetcher.FetchNews | news_fetcher.py:46-83 | for any order of the feed set, the result is the ranking of the articles read in that order |
| StableSort.SortDesc | news_fetcher.py:81 | the sorted list has non-increasing keys |
| StableSort.SortPermutes | news_fetcher.py:81 | the sort is a permutation (the same multiset) |
| StableSort.SortStable | news_fetcher.py:81 | for every key, the elements with that key keep their relative order (the sort is stable) |
| StableSort.SortLength | news_fetcher.py:81 | sorting keeps the length |
| StableSort.SortMember | news_fetcher.py:81 | an element is in the sorted list iff it is in the input |
| StableSort.SortDistinct | news_fetcher.py:81 | sorting a list with distinct names leaves the names distinct |
| Summarizer.FirstTwoNonEmpty | summarizer.py:87-88 | a non-empty text has a non-empty join of its first two `.`-pieces |
| Summarizer.Shorten | summarizer.py:84-93 | a summary of at most 200 characters is returned unchanged; a longer one gives a non-empty text ending in "." |
| Summarizer.ShortenFirstSentence | summarizer.py:86-91 | a shortened summary begins with the summary's first sentence |
| Summarizer.ShortenNoFullStop | summarizer.py:86-91 | a long summary without "." is kept whole, with "." appended |
| Summarizer.ShortenTwoSentences | summarizer.py:86-91 | a long summary "p.q…" becomes "p. q." |
| Summarizer.UserPromptPart | summarizer.py:52-56 | the "User prompt:" part is empty iff the stripped prompt is empty |
| Summarizer.UserPromptPartStripped | summarizer.py:52-56 | the part depends only on the stripped prompt |
| Summarizer.SummarizeOne | summarizer.py:44-80 | summarising raises only when loading the client raises; without an API key the result is the two-sentence fallback; with a client, a missing title or summary, or a failed or empty reply to `ArticlePrompt` (instruction, user-prompt part, title, content), also gives the fallback |
| Summarizer.SummarizeEach | summarizer.py:19-40 | one article's record is built iff the article has title, summary, source and published; it copies those fields, and a missing link or image becomes "" |
| Summarizer.SummarizeArticles | summarizer.py:11-42 | the loop appends one record per article as `SummarizeAll` describes |
| Summarizer.SummarizeShape | summarizer.py:13-40 | no articles give no records; otherwise the records keep the input's length and order, each copying its article's fields; the call raises iff an article lacks a key it reads |
| Summarizer.SummarizeClientFailure | summarizer.py:30-40 | when summarising raises, every record's simplified summary is its original summary |
| Summarizer.SummarizeWithoutKey | summarizer.py:46-49 | without an API key every record gets the two-sentence fallback |
| Summarizer.TitlesOf | summarizer.py:103 | one title per article, in order, with the given default |
| Summarizer.FirstFiveThenThree | summarizer.py:103-104 | taking the first five titles and then three of them is taking the first three |
| Summarizer.BriefText | summarizer.py:110 | a brief's text is a prefix, of at most 200 characters, of the simplified summary (else the summary) |
| Summarizer.Briefs | summarizer.py:108-111 | at most 10 briefs, one per article |
| Summarizer.BriefsNumbered | summarizer.py:108-111 | brief k is "k+1. title: text" for article k; its number reads back as k+1 |
| Summarizer.BuildBriefs | summarizer.py:107-111 | the loop appends the briefs `Briefs` describes |
| Summarizer.OverallSummary | summarizer.py:95-142 | it raises iff loading the client raises; otherwise no articles give "No articles available for summary."; the model is asked with `OverallPrompt` (instruction, user-prompt part, the briefs joined by newlines) |
| Summarizer.OverallSummaryFallback | summarizer.py:102-142 | without a client, and on a failed call, the summary is `CoverageSentence`: "Today's newsletter covers N stories including: " with the first three (or fewer) titles joined by ", " and a final "." |
| Summarizer.NewsletterIntro | summarizer.py:144-168 | it raises iff loading the client raises; without a key, or when the `IntroPrompt` call fails, it is the templated introduction `IntroFallback` ("Here's your personalized newsletter with N articles on " and the topics joined by ", ") |
| WhatsappService.NormalizeNumber | whatsapp-service/index.js:61-68 | a missing or empty number gives null; a chat id ends in "@c.us" |
| WhatsappService.NormalizeMeaning | whatsapp-service/index.js:61-68 | the result is null iff no ASCII digit or "+" remains; otherwise it is the input's digits, in order, followed by "@c.us" |
| WhatsappService.PlusOnlyNumber | whatsapp-service/index.js:63-67 | a number made only of "+" gives the chat id "@c.us" |
| WhatsappService.MimeFromExt | whatsapp-service/index.js:70-77 | .pdf, .mp3, .wav and .m4a (in any case) give their MIME types; anything else gives application/octet-stream |
| WhatsappService.MimeCaseInsensitive | whatsapp-service/index.js:71 | the MIME type does not depend on the extension's letter case |
| WhatsappService.Basename | whatsapp-service/index.js:132 | a file name has no "/" |
| WhatsappService.Extname | whatsapp-service/index.js:130 | an extension is empty or starts with "." |
| WhatsappService.MediaFor | whatsapp-service/index.js:129-133 | the document for a path goes to the chat, carries the path, the MIME type of its extension, and a file name without "/" |
| WhatsappService.MediaRun | whatsapp-service/index.js:124-135 | the file loop hands over at most one message per file and ends early only with 400 or 500 |
| WhatsappService.MediaRunSent | whatsapp-service/index.js:124-134 | the k-th message handed over is the document of the k-th resolved path |
| WhatsappService.MediaRunComplete | whatsapp-service/index.js:124-137 | the loop runs to the end iff every file is handed over; the messages are then the documents of all files, in order |
| WhatsappService.MediaRunMissing | whatsapp-service/index.js:126-128 | a 400 stop happens at a missing file, after the documents of all earlier files were handed over |
| WhatsappService.SendGate | whatsapp-service/index.js:80-92 | /send answers 400 when `to` or `message` is missing, then 503 without a client, then 400 for an invalid number; only then is it accepted |
| WhatsappService.MediaGate | whatsapp-service/index.js:104-116 | /send-media answers 400 unless `to` is given and `files` is a non-empty array, then 503 without a client, then 400 for an invalid number |
| WhatsappService.Documents | whatsapp-service/index.js:118-141 | a non-empty caption is handed over first; the reply is 200 iff the caption (if any) and every file went through |
| WhatsappService.AcceptedNumber | whatsapp-service/index.js:89-92 | an accepted request names a number with at least one digit or "+" |
| WhatsappService.Service.constructor | whatsapp-service/index.js:56 | the service starts with or without a client, having handed over no messages |
| WhatsappService.Service.Send | whatsapp-service/index.js:79-101 | a rejected request sends nothing; an accepted one hands over one text message and answers 200, or 500 if the hand-over fails |
| WhatsappService.Service.SendMedia | whatsapp-service/index.js:103-142 | a rejected request sends nothing; an accepted one hands over what `Documents` lists and answers its reply |
| WhatsappService.Service.SendDocuments | whatsapp-service/index.js:118-141 | the caption and then the file loop append exactly the messages of `Documents` to the client's outbox |
| WhatsappService.Service.SendFiles | whatsapp-service/index.js:124-135 | the file loop appends the messages of `MediaRun` and returns its early reply, if any |
| App.EmailSplitUnique | app.py:32-35 | an address splits into local part, domain and top-level domain in at most one way: at its only "@" and its last "." |
| App.CheckBody | app.py:32-35 | the scanner accepts exactly the addresses the pattern describes |
| App.ValidateEmail | app.py:32-35 | an address is accepted iff it matches the pattern, allowing one trailing newline |
| App.EmailTrailingNewline | app.py:32-35 | a valid address with one trailing newline is accepted, and with two is refused |
| App.ValidateWhatsapp | app.py:37-40 | a number is accepted iff it holds between 10 and 15 characters that are ASCII digits or "+" (counted by `Count`, proved equal to the length of what `re.sub` keeps); an accepted number contains a digit or "+" |
| App.WhatsappAccepted | app.py:37-40 | an accepted number normalises to its digits followed by "@c.us", with at most 15 digits |
| App.WhatsappPlusOnly | app.py:37-40 | ten "+" signs pass the check and normalise to the chat id "@c.us" |
| App.ValidateWhatsappDigits | app.py:37-40 | the corrected check accepts iff the number has between 10 and 15 ASCII digits (by `Count`) |
| App.WhatsappDigitsAccepted | app.py:37-40 | a number the corrected check accepts normalises to a chat id with 10 to 15 digits |
| App.Sanitize | app.py:42-46 | an empty or missing input gives ""; the output has no `<`, `>` or `"` |
| App.SanitizeKeepsSafe | app.py:42-46 | text without `<`, `>` or `"` is returned unchanged |
| App.SanitizeIdempotent | app.py:42-46 | sanitising twice is sanitising once |
| App.BuildPublicUrl | app.py:48-52 | the URL is the host with trailing "/" removed, then one "/", then the path with leading "/" removed |
| App.PublicUrlSlashes | app.py:48-52 | an extra "/" after the host or before the path changes nothing |
| App.PublicUrlPlain | app.py:48-52 | a host without a trailing "/" and a path without a leading "/" are joined by one "/" |
| App.Link | app.py:103-104 | a file link is non-empty iff the file path is set |
| App.MessageParts | app.py:105-113 | the parts are the title, then the summary or "Here is your personalized newsletter.", then "PDF: …" and "Audio: …" only when those paths are set, and last "Sent via Newsletter Bot." |
| App.WhatsappMessageShape | app.py:105-114 | `WhatsappMessage` (the parts joined by blank lines): the message starts with the title and a blank line, and ends with a blank line and the signature |
| App.MediaFiles | app.py:123-127 | at most two documents, one for each of the PDF and the audio whose path is set and whose file exists; the PDF's absolute path comes first and the audio's last |
| App.EmailReport | app.py:83-101 | the e-mail channel adds exactly one entry: "email" to successes, or an error ("SMTP not configured" when unconfigured) |
| App.TextReport | app.py:116-120 | the text channel adds exactly one entry: "whatsapp" or an error |
| App.MediaReport | app.py:129-138 | the document channel adds one entry ("whatsapp-media" or an error) iff there is a file to send |
| App.DeliveryCount | app.py:78-140 | `Delivery` (the three channels' reports, in order): one delivery adds 2 entries, plus 1 when a document exists (`MediaFiles` is non-empty, that is a PDF or audio file is set and present) |
| App.DeliveryOrder | app.py:78-140 | successes are an ordered sub-list of ["email", "whatsapp", "whatsapp-media"] |
| App.DeliveryEmail | app.py:83-101 | "email" succeeds iff SMTP is configured and sending succeeds; without SMTP the first error is "SMTP not configured" |
| App.SendNewsletterToUser | app.py:78-140 | the delivery's successes and errors are those of `Delivery`, channel by channel |
| App.SendEmailStep | app.py:83-101 | the e-mail step reports `EmailReport` |
| App.SendTextStep | app.py:116-120 | the text step reports `TextReport` |
| App.SendMediaStep | app.py:129-138 | the document step reports `MediaReport` |
| App.ComposeMessage | app.py:103-114 | the appended parts, joined by blank lines, are `WhatsappMessage` |
| App.CollectMedia | app.py:123-127 | the existing artifacts are collected as `MediaFiles` describes |
| App.DeliveriesCount | app.py:293-299 | `Deliveries` (the per-user deliveries concatenated): the fan-out reports between 2 and 3 entries per user, and exactly 2 when no document exists |
| App.DeliveriesNames | app.py:293-299 | every fan-out success is "email", "whatsapp" or "whatsapp-media" |
| App.FanOut | app.py:293-299 | the fan-out's successes and errors are the per-user results concatenated, in user order |
| App.StrippedPieces | app.py:481 | the kept topics are non-empty and stripped, and there are no more of them than pieces |
| App.ParseTopics | app.py:481 | every parsed topic is non-empty and stripped |
| App.ParseTopicsJoin | app.py:481 | joining clean topics with "," and parsing the result gives them back |
| App.TopicsCheck | app.py:477-483 | a missing, empty or non-string `topics` gives 400 "No topics provided or invalid format"; no valid topic gives 400 "No valid topics found"; otherwise the parsed list |
| App.PreviewCheck | app.py:470-483 | a non-JSON request gives 400, then a falsy payload gives 400; a truthy payload that is not an object raises outside the handler's try (a 500 from Flask); an object goes on to the topic checks |
| App.PreviewBlankTopics | app.py:481-483 | a topic string of commas and spaces is refused with "No valid topics found" |
| App.PreviewNews | app.py:468-489 | after the checks, the answer is the ranking of the topics' articles cut to 3 |
| App.PreviewAtMostThree | app.py:486 | a preview lists at most three articles |
| AudioGenerator.CleanText | audio_generator.py:64-95 | cleaned text has no leading or trailing whitespace, no two whitespace characters in a row, and none of `& % $ # @ + = < > \| / " '` |
| AudioGenerator.NewPlain | audio_generator.py:67-86 | every replacement text is made of letters, spaces, "," and "." only, so none contains a spelled-out character |
| AudioGenerator.StaysOut | audio_generator.py:88-89 | a character that none of the later replacement texts contains, once gone, stays gone |
| AudioGenerator.EntryFor | audio_generator.py:67-86 | each spelled-out character has its own one-character entry in the table |
| AudioGenerator.SpelledRemoved | audio_generator.py:88-89 | after all replacements, in table order, none of the spelled-out characters is left |
| AudioGenerator.ReplacedSpeakable | audio_generator.py:88-89 | text of letters, digits and single spaces is left as is by the replacements |
| AudioGenerator.CleanSpeakable | audio_generator.py:64-95 | cleaning text of letters, digits and single spaces, with no space at either end, returns it unchanged |
| AudioGenerator.CleanTextForSpeech | audio_generator.py:64-95 | the replacement loop, whitespace collapse and strip compute `CleanText` |
| AudioGenerator.StoryLines | audio_generator.py:39-57 | a story has: its number, cleaned title, "From …", cleaned summary; then the link note iff there is a link, "Moving on to the next story." iff it is not last, and "" |
| AudioGenerator.Opening | audio_generator.py:25-36 | the script opens with welcome, date and story count; the overview lines appear iff there is an overall summary |
| AudioGenerator.BlocksNumbered | audio_generator.py:38-39 | every story number from 1 to n appears |
| AudioGenerator.BlocksLength | audio_generator.py:38-57 | each story contributes between 5 and 7 lines |
| AudioGenerator.ScriptCoversStories | audio_generator.py:20-62 | the script names every story number and ends with the two closing lines |
| AudioGenerator.StoryBlock | audio_generator.py:39-57 | the appended lines of one story are `StoryLines` |
| AudioGenerator.OpeningLines | audio_generator.py:23-36 | the appended opening lines are `Opening` |
| AudioGenerator.CreateAudioScript | audio_generator.py:20-62 | the script is all lines, joined by single spaces |
| PdfGenerator.ParseStripped | pdf_generator.py:15-17 | `int(t, 16)` on stripped text: empty text raises; a value fits the digits it was read from |
| PdfGenerator.ParseHex | pdf_generator.py:15-17 | `int(s, 16)` raises on empty input and bounds the value by the input's length |
| PdfGenerator.ParseHexStrips | pdf_generator.py:15-17 | `int` ignores surrounding whitespace |
| PdfGenerator.ParsePair | pdf_generator.py:15-17 | two hex digits give 16·a + b |
| PdfGenerator.ParseNegativeDigit | pdf_generator.py:15-17 | a sign followed by a hex digit is accepted as a negative value |
| PdfGenerator.Slice | pdf_generator.py:15-17 | a slice has Python's meaning: the exact characters when the text is long enough, fewer otherwise |
| PdfGenerator.HexToRgb | pdf_generator.py:12-18 | each parsed channel is between -15 and 255 |
| PdfGenerator.HexToRgbHashes | pdf_generator.py:14 | any number of leading "#" are stripped |
| PdfGenerator.HexToRgbShort | pdf_generator.py:14-17 | fewer than 5 characters after the "#" make the parse fail |
| PdfGenerator.HexToRgbIgnoresTail | pdf_generator.py:15-17 | characters after the sixth are ignored |
| PdfGenerator.HexToRgbSigned | pdf_generator.py:15 | "#-f0000" is accepted with red channel -15 |
| PdfGenerator.StrictHexToRgb | pdf_generator.py:12-18 | the corrected parse succeeds iff six hex digits follow the "#"s; every channel is then between 0 and 255 |
| PdfGenerator.StrictAgrees | pdf_generator.py:12-18 | where the corrected parse succeeds, it agrees with the original |
| PdfGenerator.StrictRefusesSigned | pdf_generator.py:15 | the corrected parse refuses "#-f0000" |
| PdfGenerator.FontFamily | pdf_generator.py:20-28 | "classic" and "elegant" give Times-Roman; every other style gives Helvetica |
| PdfGenerator.TimesBoldName | pdf_generator.py:72 | replacing "Roman" by "Bold" in Times-Roman gives Times-Bold |
| PdfGenerator.BoldFontOfStyle | pdf_generator.py:71-72 | `BoldFont` ("-Bold" appended to Helvetica, otherwise "Roman" replaced by "Bold"): the bold font is Times-Bold for "classic" and "elegant", else Helvetica-Bold |
| PdfGenerator.EscapeText | pdf_generator.py:171 | escaped text has no `<` or `>` |
| PdfGenerator.EscapeOneChar | pdf_generator.py:171 | a single character escapes to its entity, or to itself |
| PdfGenerator.EscapeTextPerChar | pdf_generator.py:171 | replacing "&" first, then "<" and ">", escapes each character on its own |
| PdfGenerator.EscapeLinkPerChar | pdf_generator.py:222 | `EscapeLink`: link escaping replaces each "&" by "&amp;" and nothing else |
| PdfGenerator.UnescapeEscapeText | pdf_generator.py:171 | unescaping "&lt;", "&gt;" and "&amp;" recovers the original text |
| PdfGenerator.UnescapeEscapeLink | pdf_generator.py:222 | unescaping an escaped link recovers the link |
| PdfGenerator.LinkMarkup | pdf_generator.py:222-223 | the link paragraph wraps the escaped link in the anchor markup, and decoding it gives back the link |
| PdfGenerator.Separator | pdf_generator.py:192-200 | the separator has no title and no raw markup |
| PdfGenerator.TitleFlowables | pdf_generator.py:202-206 | title and source lines carry no raw markup in data text |
| PdfGenerator.ImageFlowables | pdf_generator.py:208-214 | the image part has no title and no raw markup |
| PdfGenerator.SummaryFlowables | pdf_generator.py:216-218 | the summary paragraph has no raw `<` or `>` |
| PdfGenerator.LinkFlowables | pdf_generator.py:220-224 | the link part has no title and no raw markup in data text |
| PdfGenerator.ArticleFlowables | pdf_generator.py:191-224 | an article contributes exactly one title paragraph (its escaped title, default "Untitled"), and no data paragraph has a raw `<` or `>` |
| PdfGenerator.HeaderFlowables | pdf_generator.py:149-189 | the header has no article title and no raw markup in data text |
| PdfGenerator.ClosingFlowables | pdf_generator.py:226-246 | the closing part has no article title and no raw markup |
| PdfGenerator.EscapedTitles | pdf_generator.py:202 | one escaped title per article |
| PdfGenerator.ArticlesTitles | pdf_generator.py:191-224 | the article titles in the document are the escaped titles, in article order |
| PdfGenerator.PdfTitles | pdf_generator.py:149-246 | the whole document's title paragraphs are the escaped article titles, in order |
| PdfGenerator.PdfMarkupFree | pdf_generator.py:149-246 | no article-title, article-body or overall-summary paragraph of the document contains a raw `<` or `>` |
| PdfGenerator.ArticleElements | pdf_generator.py:191-224 | the appended flowables of one article are `ArticleFlowables` |
| PdfGenerator.HeaderElements | pdf_generator.py:149-189 | the appended header flowables are `HeaderFlowables` |
| PdfGenerator.GeneratePdf | pdf_generator.py:149-246 | the `elements` list is `PdfFlowables` |

## Left out

- Network and parsing: the feed parser, the HTML-to-text step, the `<img>` search and the clock. They are parameters (`fetch`, `ParseEnv`). `scrape_article_content` is not part of this model: it is a network scrape outside the ranking pipeline.
- NewsFetcher.FetchNews: the feed set's iteration order is a parameter, required to list each selected URL exactly once. Python's set order is not specified.
- NewsFetcher.ExtractImage: the contract states only the first two tiers (media content, thumbnail). The enclosure tier and the `<img>` tier are modelled in the body, and the second of them depends on the HTML parser parameter.
- NewsFetcher.ParseEntry: `BeautifulSoup.get_text` is the `htmlText` parameter, and `datetime(...)` on `published_parsed` is reduced to a formatted date or a rejection (`ParsedDate`).
- Case folding and whitespace are ASCII-only. `str.lower` maps only `A`..`Z`. For `str.strip`, `str.split` and `\s`, whitespace is the ten ASCII characters Python counts: space, `\t`, `\n`, `\r`, `\v`, `\f` and `\x1c`..`\x1f`. Non-ASCII whitespace such as `\x85` or `\xa0`, which Python also strips and splits on, is not whitespace in the model. Python's `\d` in `validate_whatsapp` is ASCII digits here too.
- PdfGenerator.ParseHex, PdfGenerator.ParseStripped, PdfGenerator.HexToRgb: `int(x, 16)` also accepts non-ASCII decimal digits (so "#٣٣٣٣٣٣" gives (51, 51, 51)) and strips non-ASCII whitespace around the digits; the model reads only ASCII hex digits and strips only ASCII whitespace, so it refuses such colours where Python accepts them.
- A dictionary value that is present but `None` is treated like a missing key. The model has no separate "present but None".
- Summarizer: the language model is an oracle. Its reply is stripped; no property of the reply's content is modelled. `create_simple_summary` is modelled through `Summarizer.Shorten`.
- App: the Flask routes are not modelled, except the topic handling and checks of `preview_news` and the fan-out loop of `generate_newsletter`. Also left out are templates, flash messages, the database, SMTP sending, `create_newsletter_email_body`, `os.path.exists`/`abspath` (oracles in `Channels`) and `request.host_url` (a parameter).
- App.PreviewNews: the `except` branch answering 500 is not modelled. Inside the try, `fetch_news` catches every feed error, and the model has nothing else that raises.
- App.FanOut: the flash of `set(successes)` and of each error is not modelled; only the accumulated lists are.
- App: `topics` values of other JSON types are only truthy or falsy here.
- WhatsappService.SendGate, WhatsappService.MediaGate: `to` is an optional string here, so a JSON `to` of another type can only be passed as absent, which the model answers with 400. In the service, a truthy non-string `to` passes the presence check (whatsapp-service/index.js:81, :105). `normalizeNumber` then throws on `number.replace` (:63), called at :89 or :113 outside any `try`, and the request gets no reply.
- AudioGenerator: speech synthesis, the output file and `estimate_audio_duration` are not modelled (the last uses float division and rounding). The date line takes the formatted date as a parameter.
- PdfGenerator: the division of each channel by 255.0 and the reportlab styles, fonts, colours, page layout and `doc.build` are not modelled. A flowable keeps only its text and a style tag. `download_image` is the `downloads` parameter, because it uses the network and scales floats.
- PdfGenerator.SourceText: the source-and-date line is printed without escaping, as in the code, so it is not covered by `PdfMarkupFree`.
- WhatsappService: the client's life cycle (`initClient`, events, `/reset-session`, `/health`) and the asynchronous sending are not modelled. Reading a file and handing a message over are oracles.

## Findings

| source | as written | input that shows it | evidently intended | confidence | as-written member | corrected member |
|---|---|---|---|---|---|---|
| pdf_generator.py:12-18 | each two-character slice goes to `int(…, 16)`, which also accepts a sign and surrounding whitespace | "#-f0000" gives red -15, outside 0..255 | accept only six hex digits, giving channels in 0..255 | not executed | PdfGenerator.HexToRgbSigned | PdfGenerator.StrictHexToRgb |
| app.py:37-40 | the length check counts "+" signs as digits | "++++++++++" is accepted and normalises to the chat id "@c.us", which has no phone number | count only digits, 10 to 15 of them | not executed | App.WhatsappPlusOnly | App.ValidateWhatsappDigits |
