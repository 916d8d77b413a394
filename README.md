# RSS to Discord pipeline: a verified model

The system watches RSS feeds (and YouTube playlists) for new articles and posts each one to a
Discord channel. The model covers each stage:

- It fetches and parses a feed, retrying a bounded number of times.
- It sorts the entries newest first.
- It drops the ones whose SHA-256 id (of `link|title`) is already in the SQLite store, then caps
  the batch and queues one processed article per entry.
- It sends each article through the LLM stages, each of which falls back on failure:
  - a summary, with a sentence-packing fallback summariser;
  - a translated title;
  - a category from a configured list;
  - storage keywords.
- It renders the article as a Discord embed.

Around that pipeline sit three more parts:

- the configuration manager, which loads defaults and fills in values from the environment;
- the settings panel, with switches, a category editor, the API-key list, the feed picker and
  channel grouping;
- the TypeScript poster and TypeScript helpers that duplicate part of the Python logic.

The model has one Dafny module per core source file:

| Module | Models |
|---|---|
| `Store` | the article store: a class over two maps that stand in for the SQLite tables |
| `FeedParser` | the retry loop and the feed-to-record conversion |
| `YouTube` | playlist import |
| `FeedManagement` | the feed manager: a class with the feed list, the sweep flag and the queue |
| `Sorting` | the stable newest-first sort |
| `Helpers`, `HelpersTs` | ids, dates, HTML cleaning, channel names and key selection, in the Python and TypeScript versions |
| `SimpleSummarizer`, `Summarizer`, `Translator`, `Classifier`, `AiProcessor` | the AI stages |
| `MessageBuilder`, `PostArticle` | the two embed builders |
| `Config` | the configuration manager |
| `BotUi`, `LegacyUi` | the current settings panel and its older copy |

Shared pieces live in `Text` (Python string semantics: slicing with negative bounds, `strip`,
`split`, regex substitutions), `Articles` (entries, articles, categories), `Values` (JSON-like
configuration values) and `Wrappers` (`Option`).

Anything outside the program becomes a parameter of the model:

- the LLM is a function from prompt to `Option<string>`, where `None` means the call raised;
- the SHA-256 and MD5 digests;
- `strptime`;
- the clock (`now`, day of month);
- URL parsing and HTTP responses;
- the environment;
- `toLocaleString`.

## Model

| member | source | states |
|---|---|---|
| Helpers.GenerateArticleId | utils/helpers.py:18-34 | the id is the digest of the entry's `link\|title` key; what the key distinguishes is stated by the lemmas below |
| Helpers.IdDependsOnKeyOnly | utils/helpers.py:29-34 | two entries with the same link and title get the same id, whatever else differs |
| Helpers.KeyDistinguishesLinks | utils/helpers.py:29-31 | with the title fixed, different links give different keys |
| Helpers.KeyDistinguishesTitles | utils/helpers.py:29-31 | with the link fixed, different titles give different keys |
| Helpers.KeyNotInjective | utils/helpers.py:31 | a concrete pair of distinct (link, title) pairs with the same joined key, because `\|` may occur in either field |
| Helpers.ParseDatetime | utils/helpers.py:36-76 | the result is the first of the tried formats that parses, with a missing time zone set to UTC; `None` when no format parses |
| Helpers.CleanHtml | utils/helpers.py:78-98 | empty input gives `""` (the source's early return); the shape of the result is `CleanHtmlNormalised`, the tag removal `RemoveTagsNoTag` and `RemoveTagsPlain` |
| Helpers.CleanHtmlNormalised | utils/helpers.py:78-98 | the cleaned text has no whitespace at either end, no two whitespace characters in a row, and is no longer than the input |
| Text.RemoveTagsNoTag | utils/helpers.py:92 | tag removal leaves nothing the pattern `<[^>]+>` would match: no `<`, then a character other than `>`, then a later `>` |
| Text.RemoveTagsPlain | utils/helpers.py:92 | a text without `<` comes through tag removal unchanged |
| Text.RemoveTagsAvoids | utils/helpers.py:92 | tag removal only deletes characters: a character absent from the input is absent from the result |
| Helpers.TitleSlugShape | utils/helpers.py:112-125 | the title slug is at most 90 characters, has no whitespace, no `--`, and does not start with `-` |
| Helpers.TitleSlug | utils/helpers.py:112-123 | the slug of a title before the `rss-` prefix; stated by `TitleSlugShape` |
| Helpers.ChannelNameForFeed | utils/helpers.py:101-142 | every name starts with `rss-`, whichever of the title, host and digest branches produced it |
| Helpers.ChannelNameFromTitle | utils/helpers.py:112-125 | from a title: `rss-` followed by the slug, of bounded length, with no doubled or leading hyphen |
| Helpers.ChannelNameFromHost | utils/helpers.py:128-138 | from a host: `rss-` followed by the chosen label of the host, which holds no dot |
| Helpers.SearchHost | utils/helpers.py:128-130 | a found host is non-empty and holds no `/`; which host is stated by `SearchHostPlain` and `SearchHostWww` |
| Helpers.SearchHostPlain | utils/helpers.py:128-130 | `https://<host><path>` with a host not starting with `www.` yields exactly the host |
| Helpers.SearchHostWww | utils/helpers.py:128-130 | `https://www.<host><path>` yields the host without `www.` |
| Helpers.DomainLabel | utils/helpers.py:132-136 | the chosen label holds no `.`; which label is stated by `DomainLabelOfLabels` |
| Helpers.DomainLabelOfLabels | utils/helpers.py:132-136 | for a host made of dot-free labels: the second-to-last label when there are more than two, else the first |
| Helpers.ChannelNameFromDigest | utils/helpers.py:141-142 | with no title and no host: `rss-feed-` followed by the first eight digest characters |
| Helpers.SelectGeminiApiKey | utils/helpers.py:151-158 | no keys give `""`; one key gives that key; otherwise odd days give the first key and even days the second |
| Helpers.SelectedKeyIsOneOfFirstTwo | utils/helpers.py:151-158 | a key after the second is never selected |
| HelpersTs.TsFingerprintKey | src/utils/helpers.ts:8-13 | the key is the Python key of the two fields, with a missing field read as `""` |
| HelpersTs.GenerateArticleId | src/utils/helpers.ts:8-13 | the id is the digest of that key, so it agrees with Python's whenever the keys agree |
| HelpersTs.SameIdAsPython | src/utils/helpers.ts:8-13 | when both fields are present, the TypeScript and Python ids are equal |
| HelpersTs.GetChannelNameForFeed | src/utils/helpers.ts:21-68 | the name has at most 100 characters and starts with `rss-` |
| HelpersTs.ShortNameFallbackUnreachable | src/utils/helpers.ts:62-65 | every raw name starts with `rss-`, so the short-name fallback is never taken |
| HelpersTs.TsTitleNameUncut | src/utils/helpers.ts:24-38 | a title name is `rss-` followed by the slug, fits in 94 characters, and is left whole by the final cut |
| HelpersTs.TsDigestName | src/utils/helpers.ts:54-58 | a URL that cannot be parsed, with no title, gives `rss-feed-` followed by eight digest characters |
| Articles.CategoryInfo | discord_bot/message_builder.py:152-169 | a configured category with the name, else the built-in `other` entry; a configured match is always found |
| Articles.CategoryInfoFirst | discord_bot/message_builder.py:162-169 | when some configured category has the name, the result is the first one that has it; when none has it, the built-in `other` entry |
| Articles.Unprocessed | ai/ai_processor.py:80 | the copy processing starts from: the entry unchanged and no processor flag set |
| Sorting.SortDescSorted | rss/feed_manager.py:163-185 | the sort orders entries by non-increasing key |
| Sorting.SortDescPermutes | rss/feed_manager.py:163-185 | the output is a permutation of the input, as a multiset |
| Sorting.SortDescStable | rss/feed_manager.py:163-185 | entries with equal keys keep their relative order, as Python's `sorted` guarantees |
| Store.KeepCount | rss/article_store.py:310-318 | at most `count` of a channel's rows survive the prune, and exactly `min(count, limit)` for a non-negative limit |
| Store.PurgeKeepsRecent | rss/article_store.py:230-276 | the cleanup keeps exactly the rows stamped at or after the cutoff, each unchanged |
| Store.Purge | rss/article_store.py:270 | the table after `DELETE … WHERE processed_at < cutoff`; stated by `PurgeKeepsRecent` and `PurgePartition` |
| Store.PurgePartition | rss/article_store.py:270 | the deleted rows and the kept rows are disjoint, together make up the table, and their sizes add up to the table's |
| Store.ArticleStore.constructor | rss/article_store.py:21-78 | `CREATE TABLE IF NOT EXISTS` keeps the rows the database file already holds; both tables are exactly the stored ones (empty for a new file) |
| Store.ArticleStore.AddProcessedArticle | rss/article_store.py:80-128 | the row is inserted or replaced under the article id, stamped with `now`; every other row is unchanged; a database fault changes nothing and reports failure |
| Store.ArticleStore.IsArticleProcessed | rss/article_store.py:130-171 | true exactly when a row with this id exists; a fault reports false |
| Store.ArticleStore.GetProcessedArticles | rss/article_store.py:173-228 | `min(limit, candidates)` rows (all of them for a negative limit), taken from the table, only the feed's rows when a feed URL is given, distinct, newest first, and no unlisted candidate is newer than a listed row; a fault gives none |
| Store.ArticleStore.CleanupOldArticles | rss/article_store.py:230-276 | removes exactly the rows older than `days` days before `now` and returns their number; a fault returns 0 and changes nothing |
| Store.ArticleStore.AddFullArticle | rss/article_store.py:278-320 | upserts the snapshot, then keeps `KeepCount` of the channel's rows, none evicted newer than one kept; other channels' rows are unchanged; a fault before the first commit changes nothing; a fault after it keeps the upsert, evicts nothing and returns false |
| Store.ArticleStore.GetFullArticle | rss/article_store.py:322-341 | the stored row for the message id, or `None` |
| FeedParser.EnclosureMedia | rss/feed_parser.py:150-165 | no more media than raw elements; with `EnclosureMediaOne` and `EnclosureMediaAppend`, exactly the elements with both `type` and `href` are kept, in order |
| FeedParser.ThumbnailMedia | rss/feed_parser.py:168-174 | no more media than thumbnails; with `ThumbnailMediaOne` and `ThumbnailMediaAppend`, exactly the thumbnails with a `url` are kept, in order, typed `image/thumbnail` |
| FeedParser.EnclosureMediaOne | rss/feed_parser.py:150-156 | one element gives its reference exactly when it has both `type` and `href` |
| FeedParser.EnclosureMediaAppend | rss/feed_parser.py:150-165 | elements are filtered one by one in list order: the media of `a + b` are the media of `a`, then those of `b` |
| FeedParser.ThumbnailMediaOne | rss/feed_parser.py:168-174 | one thumbnail gives a reference, typed `image/thumbnail`, exactly when it has a `url` |
| FeedParser.ThumbnailMediaAppend | rss/feed_parser.py:168-174 | thumbnails are filtered one by one in list order: the media of `a + b` are those of `a`, then those of `b` |
| FeedParser.ConvertEntriesAt | rss/feed_parser.py:129-180 | converted entry `i` is the conversion of raw entry `i`, and no entry is added or lost |
| FeedParser.EnclosureMediaComplete | rss/feed_parser.py:150-156 | a list whose every element has both attributes gives one reference per element, in place; which elements are dropped from a mixed list is `EnclosureMediaOne` with `EnclosureMediaAppend` |
| FeedParser.EnclosureMediaFrom | rss/feed_parser.py:150-165 | every kept media reference carries the URL and type of some raw element |
| FeedParser.ThumbnailMediaTyped | rss/feed_parser.py:168-174 | every thumbnail reference has type `image/thumbnail` |
| FeedParser.ConvertEntryText | rss/feed_parser.py:135-144 | summaries come out stripped, single-spaced and no longer than the raw summary; contents come out stripped and single-spaced; without a content element the content is the summary |
| FeedParser.AttemptsBounded | rss/feed_parser.py:59-104 | at most `max_retries` fetches, and none for a malformed URL |
| FeedParser.AttemptsBeforeLastRetried | rss/feed_parser.py:61-101 | every attempt before the last was one that is retried, and a loop that made an attempt had a well-formed URL |
| FeedParser.FeedFromLastAttempt | rss/feed_parser.py:89-96 | a feed is returned exactly when the last attempt fetched a document with entries, and it is that document converted |
| FeedParser.ParseGivesUp | rss/feed_parser.py:61-104 | when every attempt is retried, the loop gives up after exactly `max_retries` attempts and returns `None` |
| FeedParser.EmptyFeedNotRetried | rss/feed_parser.py:89-91 | a document without entries ends the loop with `None` after that one attempt |
| FeedParser.CollectMedia | rss/feed_parser.py:147-177 | the media list is the enclosures, then the media contents, then the thumbnails, each filtered as in the source |
| FeedParser.ConvertOneEntry | rss/feed_parser.py:130-177 | the entry record with the source's defaults for missing attributes, cleaned text and collected media |
| FeedParser.ConvertEntry | rss/feed_parser.py:130-177 | the entry record with the source's defaults; stated by `ConvertEntryText` and `ConvertOneEntry` |
| FeedParser.ConvertedFeed | rss/feed_parser.py:106-182 | the metadata and the converted entries; stated by `ConvertEntriesAt` and `ConvertFeedToDict` |
| FeedParser.ConvertFeedToDict | rss/feed_parser.py:106-182 | the channel metadata with its defaults, and one record per entry in document order |
| FeedParser.ParseFeed | rss/feed_parser.py:48-104 | the loop's result and its number of attempts equal those of the retry specification, whose properties are the lemmas above |
| YouTube.VideoEntries | rss/youtube_api.py:44-62 | no more entries than items; with `VideoEntriesOne` and `VideoEntriesAppend`, exactly the items with a video id give entries, in order |
| YouTube.VideoEntriesOne | rss/youtube_api.py:48-62 | one item gives its entry exactly when it has a video id |
| YouTube.VideoEntriesAppend | rss/youtube_api.py:45-62 | items are converted one by one in list order: the entries of `a + b` are those of `a`, then those of `b` |
| YouTube.VideoEntriesFromItems | rss/youtube_api.py:45-62 | every entry comes from an item with a video id and links to that video |
| YouTube.VideoEntriesComplete | rss/youtube_api.py:48-49 | when every item has a video id, each item gives its entry in place |
| YouTube.VideoEntryShape | rss/youtube_api.py:50-58 | every link is a watch URL, and no entry has media |
| YouTube.VideoEntry | rss/youtube_api.py:50-61 | the entry of an item with a video id; stated by `VideoEntryShape` |
| YouTube.PlaylistTitle | rss/youtube_api.py:64-66 | the first item's channel title, else `YouTube Playlist` |
| YouTube.FetchPlaylist | rss/youtube_api.py:28-68 | `None` for a status other than 200; otherwise the video entries, with the first item's channel title or `YouTube Playlist` as the feed title |
| FeedManagement.Fresh | rss/feed_manager.py:146-159 | the new articles are at most as many as the sorted entries |
| FeedManagement.FindFeed | rss/feed_manager.py:208-211 | the position of the first feed with this URL, or `None` exactly when no feed has it |
| FeedManagement.TagKeepsIdAndDate | rss/feed_manager.py:156-157 | tagging an entry with the feed title and URL changes neither its id nor its date |
| FeedManagement.SortEntriesSpec | rss/feed_manager.py:163-185 | newest first, a permutation, and entries with equal dates keep feed order |
| FeedManagement.SortEntries | rss/feed_manager.py:163-185 | the entries sorted by date, newest first and stable; stated by `SortEntriesSpec` |
| FeedManagement.UndatedBeforeOlder | rss/feed_manager.py:173-182 | an entry with no parseable date sorts as `now`, so it comes before every entry dated earlier |
| FeedManagement.FreshFrom | rss/feed_manager.py:130-161 | every new article is a tagged sorted entry that the store did not report as processed |
| FeedManagement.FreshComplete | rss/feed_manager.py:130-161 | every sorted entry the store does not report as processed is among the new articles |
| FeedManagement.FreshSorted | rss/feed_manager.py:130-161 | the new articles are newest first |
| FeedManagement.NewArticlesSpec | rss/feed_manager.py:130-161 | the new articles are exactly the unprocessed sorted entries, in sorted order |
| FeedManagement.NewArticles | rss/feed_manager.py:130-161 | the unprocessed entries of the sorted feed, tagged with the feed; stated by `NewArticlesSpec` and `NewArticlesUnseen` |
| FeedManagement.NewArticlesUnseen | rss/feed_manager.py:146-159 | while the store works, no new article has an id the store holds |
| FeedManagement.FreshKeepsAllUnseen | rss/feed_manager.py:146-159 | within one call there is no de-duplication: when the store holds none of the ids, every entry is new, even two with equal ids |
| FeedManagement.CapSpec | rss/feed_manager.py:104-107 | the cap keeps the first `max` new articles, and all of them when there are at most `max` |
| FeedManagement.Cap | rss/feed_manager.py:104-107 | `new[:max]` when there are more than `max` new articles; stated by `CapSpec` |
| FeedManagement.EnqueueQueue | rss/feed_manager.py:110-128 | the loop appends one queue item per article, in order, each carrying that article as its original |
| FeedManagement.EnqueueRecords | rss/feed_manager.py:110-128 | while the store works, every queued article's id is recorded and the ids already held are kept; on a fault the ids are unchanged |
| FeedManagement.EnqueueAddsOnlyArticles | rss/feed_manager.py:110-128 | every id the loop adds is the id of one of its articles |
| FeedManagement.Enqueue | rss/feed_manager.py:110-128 | one queue item per article and its id recorded; stated by `EnqueueQueue`, `EnqueueRecords` and `EnqueueAddsOnlyArticles` |
| FeedManagement.CheckFeedNoChange | rss/feed_manager.py:83-99 | an incomplete feed, a failed parse or no new articles leave the state unchanged |
| FeedManagement.CheckFeedGrows | rss/feed_manager.py:73-128 | `check_feed` only appends to the queue and, while the store works, only adds ids |
| FeedManagement.CheckFeedRecordsQueued | rss/feed_manager.py:110-128 | while the store works, every queued article has its id recorded |
| FeedManagement.CheckFeedQueuesUnseen | rss/feed_manager.py:96-128 | what `check_feed` queues are new articles of its starting state that the store had not seen |
| FeedManagement.CheckFeedSpec | rss/feed_manager.py:73-128 | `check_feed` on the queue and the store; stated by the `CheckFeed…` lemmas |
| FeedManagement.QueuedAtMostOnce | rss/feed_manager.py:73-161 | while the store works, an article queued by one `check_feed` is never queued again by a later one, for any feed |
| FeedManagement.CutArticlesRemainCandidates | rss/feed_manager.py:104-128 | a new article beyond the cap, whose id differs from every queued one, is not recorded and so stays a candidate |
| FeedManagement.SweepGrows | rss/feed_manager.py:42-71 | a sweep over all feeds only appends to the queue and, while the store works, only adds ids |
| FeedManagement.Sweep | rss/feed_manager.py:42-71 | `check_feed` on every feed in list order; stated by `SweepGrows` |
| FeedManagement.AddedIsRegistered | rss/feed_manager.py:208-231 | a registered URL stays registered after an append, so a second `add_feed` for it is rejected |
| FeedManagement.AppendKeepsUnique | rss/feed_manager.py:208-231 | appending a feed whose URL is not registered keeps URLs unique |
| FeedManagement.RemoveKeepsUnique | rss/feed_manager.py:240-267 | removal keeps URLs unique, and with unique URLs the removed URL is gone |
| FeedManagement.FeedManager.constructor | rss/feed_manager.py:25-38 | no sweep running, an empty queue and the given feeds and cap |
| FeedManagement.FeedManager.GetNewArticles | rss/feed_manager.py:130-161 | the loop's result equals `Fresh` of the sorted entries, and the state is unchanged |
| FeedManagement.FeedManager.CheckFeed | rss/feed_manager.py:73-128 | the new queue and ids equal the `check_feed` specification of the old ones |
| FeedManagement.FeedManager.EnqueueArticles | rss/feed_manager.py:110-128 | the new queue and ids equal the enqueue specification of the old ones |
| FeedManagement.FeedManager.CheckFeeds | rss/feed_manager.py:42-71 | while a sweep is running nothing changes; otherwise every feed is checked in order and the flag ends cleared |
| FeedManagement.FeedManager.AddFeed | rss/feed_manager.py:187-238 | a registered URL or a failed parse is rejected with nothing changed; otherwise exactly the new feed record is appended |
| FeedManagement.FeedManager.RemoveFeed | rss/feed_manager.py:240-267 | the first feed with the URL is deleted and the others keep their order; false with nothing changed when there is none |
| FeedManagement.FeedManager.GetFeeds | rss/feed_manager.py:269-276 | the current feed list |
| SimpleSummarizer.SplitSentences | ai/simple_summarizer.py:21 | the split always gives at least one part; its content is `SplitSentencesJoin` and its shape `SplitSentencesShape` |
| SimpleSummarizer.SplitSentencesShape | ai/simple_summarizer.py:21 | for a stripped non-empty text, every sentence is non-empty, stripped and without an inner break, and every sentence but the last ends with a terminator |
| SimpleSummarizer.SplitSentencesJoin | ai/simple_summarizer.py:21 | splitting undoes joining with single spaces: a list of such sentences, joined by `" "`, splits back into exactly that list |
| SimpleSummarizer.SplitAtSpace | ai/simple_summarizer.py:21 | a terminated sentence, one space and a text that does not start with whitespace split into that sentence followed by the split of the text |
| SimpleSummarizer.BreakAtSpace | ai/simple_summarizer.py:21 | the first cut in a terminated sentence followed by a space is at that space |
| SimpleSummarizer.SimpleSummary | ai/simple_summarizer.py:12-32 | empty text gives `""`, and the summary is always stripped |
| SimpleSummarizer.PackBounded | ai/simple_summarizer.py:22-29 | the packing loop never exceeds `max` when `max >= 0` |
| SimpleSummarizer.PackGreedy | ai/simple_summarizer.py:22-29 | the summary is the first `n` sentences whole, where sentence `n` does not fit; an empty summary takes the first `max` characters of that sentence |
| SimpleSummarizer.SimpleSummaryBounded | ai/simple_summarizer.py:12-32 | for `max >= 0` the summary fits in `max` characters, and the `"..."` branch is never taken |
| SimpleSummarizer.NegativeMaxGivesEllipsis | ai/simple_summarizer.py:30-32 | any non-empty whitespace-only text with a negative `max` reaches the `"..."` branch and gives exactly `"..."` |
| SimpleSummarizer.SimpleSummarize | ai/simple_summarizer.py:12-32 | the loop with its `break` computes `SimpleSummary` |
| Summarizer.KindOf | ai/summarizer.py:53-66 | `title`, `short` and `long` select their own prompts; any other type selects the normal prompt |
| Summarizer.Summary | ai/summarizer.py:37-101 | empty text gives `""`; a failed call falls back to the simple summariser |
| Summarizer.SummaryBounded | ai/summarizer.py:93-101 | from `max = 3` on, no summary is longer than `max`, whichever path produced it |
| Summarizer.SummaryVerbatim | ai/summarizer.py:86-96 | a reply that fits and starts with no known prefix is returned as it came |
| Summarizer.SummaryPrefixDropped | ai/summarizer.py:87-90 | a reply `要約: t`, with `t` stripped and starting with no later prefix, comes back as exactly `t` |
| Summarizer.TruncateSmallMax | ai/summarizer.py:93-94 | below 3, the negative slice makes a cut reply longer than `max` |
| Summarizer.Summarize | ai/summarizer.py:37-101 | the method computes `Summary` |
| Translator.JapaneseCount | ai/translator.py:96-103 | the count is at most the length of the text counted |
| Translator.IsJapanese | ai/translator.py:75-107 | more than 30% of the first 100 characters are Japanese, compared in integer arithmetic; stated by `IsJapaneseSampleOnly` and `IsJapaneseExtremes` |
| Translator.IsJapaneseSampleOnly | ai/translator.py:75-107 | only the first 100 characters decide |
| Translator.IsJapaneseExtremes | ai/translator.py:75-107 | non-empty text made only of Japanese characters is Japanese; text with none is not |
| Translator.CheckJapanese | ai/translator.py:75-107 | the nested counting loop computes `IsJapanese` |
| Translator.Translation | ai/translator.py:28-73 | empty text gives `""`; Japanese text and a failed call return the text unchanged |
| Translator.TranslationReply | ai/translator.py:60-68 | the reply is kept as it came unless a prefix was cut, in which case it is stripped and shorter |
| Translator.Translate | ai/translator.py:28-73 | the method computes `Translation` |
| Classifier.EffectiveCategories | ai/classifier.py:44-45 | the given labels, or the eight defaults when none are given |
| Classifier.FirstMatch | ai/classifier.py:73-75 | the index of the first label whose lower-cased form occurs in the reply; no earlier label occurs |
| Classifier.Classification | ai/classifier.py:28-83 | with no title and no content, the result is `other`; the choice is `ClassificationFirstMatch`, the fallbacks `ClassificationFallback` |
| Classifier.ClassificationInCategories | ai/classifier.py:28-83 | the label is always one of the labels in use, or `other` |
| Classifier.ClassificationFirstMatch | ai/classifier.py:71-78 | when some label occurs in the stripped, lower-cased reply, the result is a label at or before it that occurs there, with no earlier label occurring: the first match in list order |
| Classifier.ClassificationOfReply | ai/classifier.py:66-83 | with a title or content, named labels and a reply, the result is the label of the first match in the normalised reply, or `other` when none matches |
| Classifier.ClassificationFallback | ai/classifier.py:66-83 | no reply, or a reply in which no label occurs once normalised, gives `other` |
| Classifier.DefaultLabelChosen | ai/classifier.py:44-75 | with no labels given, the reply ` Sports\n` gives `sports` |
| Classifier.Classify | ai/classifier.py:28-83 | the method computes `Classification` |
| AiProcessor.SummarizedArticle | ai/ai_processor.py:112-151 | the content's summary is stored; a non-empty title is replaced only by a non-empty translation; `summarized` is set; nothing else changes |
| AiProcessor.CategoryNames | ai/ai_processor.py:170 | one name per configured category, in order |
| AiProcessor.ClassifiedArticleAsWritten | ai/ai_processor.py:163-194 | as written, every run ends in the handler: `classified` is false and the category is `other`, and only the description survives from the try block |
| AiProcessor.ClassifiedArticle | ai/ai_processor.py:163-188 | corrected: `classified` is true and only the category, the flag and the description change |
| AiProcessor.ClassifyAsWrittenDiscardsLabel | ai/ai_processor.py:187 | as written, the flag always differs from the corrected version, and a label other than `other` is lost |
| AiProcessor.ClassifiedArticleSpec | ai/ai_processor.py:169-185 | the stored label is a configured name (or a default) or `other`, and the description either carries that name or is the built-in `other` description |
| AiProcessor.Label | ai/ai_processor.py:165-173 | the classifier's label for the article's title and content over the configured category names; stated by `ClassifiedArticleSpec` |
| AiProcessor.StorageKeywords | ai/ai_processor.py:53-67 | the keywords are the stripped reply, and `""` when the call raises |
| AiProcessor.StorageKeywordsOfReply | ai/ai_processor.py:62-67 | a reply that is a clean keyword line padded with whitespace is stored as that line |
| Text.StripPadded | ai/ai_processor.py:67 | `strip()` removes exactly the whitespace padding around a string with no edge whitespace |
| AiProcessor.ProcessedArticleSpec | ai/ai_processor.py:69-110 | for the corrected pipeline (classification as intended, see Findings): both flags follow the configuration, keywords are always set, no error is recorded, and only the entry's title and summary may change |
| AiProcessor.ProcessedArticle | ai/ai_processor.py:69-110 | the corrected pipeline: summary stage when `summarize` is on (default on), the intended classification when `classify` is on (default off), then keywords and the processed flag; its properties are `ProcessedArticleSpec` and `ClassifyUsesTranslatedTitle` |
| AiProcessor.ProcessedArticleAsWritten | ai/ai_processor.py:69-110 | the pipeline as written: with classification on, `classified` is false and the category `other`; with it off, the same as the corrected pipeline |
| AiProcessor.ProcessedAsWrittenDiffers | ai/ai_processor.py:84-93 | with classification on, the pipeline as written and the corrected one record different `classified` flags |
| AiProcessor.ClassifyUsesTranslatedTitle | ai/ai_processor.py:84-93 | classification sees the title produced by the summary stage |
| AiProcessor.SummarizeArticle | ai/ai_processor.py:112-151 | the method computes `SummarizedArticle` |
| AiProcessor.ClassifyArticle | ai/ai_processor.py:153-194 | the method computes the corrected `ClassifiedArticle` |
| AiProcessor.ExtractKeywordsForStorage | ai/ai_processor.py:53-67 | the method computes `StorageKeywords` |
| AiProcessor.ProcessArticle | ai/ai_processor.py:69-110 | the method computes the corrected `ProcessedArticle` (classification as intended, see Findings) |
| AiProcessor.SearchKeywords | ai/ai_processor.py:196-212 | at most five keywords, each non-empty and stripped with no comma; none when the call raises; their content and order are stated by `SearchKeywordsOfList` and `SearchKeywordsArePieces` |
| AiProcessor.SearchKeywordsFromReply | ai/ai_processor.py:207-209 | every keyword is made of characters of the reply, and none holds a newline |
| AiProcessor.SearchKeywordsOfList | ai/ai_processor.py:206-209 | a reply listing clean, newline-free keywords separated by commas gives exactly the first five of them, in order |
| AiProcessor.SearchKeywordsArePieces | ai/ai_processor.py:207-209 | every keyword is the non-blank strip of one comma-separated piece of the reply with its newlines removed |
| AiProcessor.GenerateSearchKeywords | ai/ai_processor.py:196-212 | the method computes `SearchKeywords`: the first five non-blank stripped comma pieces of the newline-free reply (`SearchKeywordsOfList`, `SearchKeywordsArePieces`), none when the call raises |
| AiProcessor.RelatedParts | ai/ai_processor.py:224-228 | one part per related article |
| AiProcessor.RelatedPartsSpec | ai/ai_processor.py:224-228 | part `i` is numbered `i + 1` and carries that article's title and at most 600 characters of its content |
| AiProcessor.Answer | ai/ai_processor.py:214-242 | the reply, or the fixed apology when the call raises |
| AiProcessor.AnswerQuestion | ai/ai_processor.py:214-242 | the numbering loop computes `Answer` |
| MessageBuilder.TruncateContentSpec | discord_bot/message_builder.py:129-150 | from `max = 3` on the text fits in `max`; it is uncut when it fits; otherwise it is a prefix followed by `...` |
| MessageBuilder.TruncateContent | discord_bot/message_builder.py:129-150 | the cleaned text cut to `max - 3` characters plus `...` when longer; stated by `TruncateContentSpec` |
| MessageBuilder.CategoryColor | discord_bot/message_builder.py:171-193 | a built-in category gets its table colour; any other category gets `embed_color`, else blue |
| MessageBuilder.FooterCases | discord_bot/message_builder.py:105-113 | the four footer cases: none, summary, classification, or both in that order |
| MessageBuilder.Footer | discord_bot/message_builder.py:105-113 | the footer of the two AI flags; its four cases are `FooterCases` |
| MessageBuilder.Description | discord_bot/message_builder.py:72-77 | a non-empty summary of a summarised article, else the truncated content; stated by `ArticleEmbedSpec` |
| MessageBuilder.FieldIf | discord_bot/message_builder.py:79-99 | a field exactly when its condition holds |
| MessageBuilder.EmbedFieldsSpec | discord_bot/message_builder.py:79-99 | the category field is present exactly when the article is classified, and there are at most four fields |
| MessageBuilder.EmbedFields | discord_bot/message_builder.py:79-99 | the fields in order: feed, author, category, date; stated by `EmbedFieldsSpec` and `FieldIf` |
| MessageBuilder.ArticleEmbedSpec | discord_bot/message_builder.py:32-127 | a thumbnail exactly when thumbnails are on and there is an image; a footer exactly when a flag is set; the title starts with the category emoji; the description is the summary of a summarised article with a non-empty summary, else the content cut to at most 300 characters |
| MessageBuilder.ArticleEmbed | discord_bot/message_builder.py:32-116 | the embed of an article: emoji and title, link, colour, description, fields, thumbnail and footer; stated by `ArticleEmbedSpec` |
| MessageBuilder.BuildArticleEmbed | discord_bot/message_builder.py:32-127 | the method computes `ArticleEmbed` |
| MessageBuilder.BuildFields | discord_bot/message_builder.py:78-99 | the `add_field` calls produce exactly `EmbedFields`: feed, author, category when classified, and the date formatted or as given |
| MessageBuilder.BuildFooter | discord_bot/message_builder.py:106-113 | the footer is `Footer` of the two flags: none when neither is set |
| PostArticle.JsPrefix | src/core/postArticle.ts:41 | `substring(0, n)` clamps `n` into `[0, length]` |
| PostArticle.TsTruncate | src/core/postArticle.ts:36-42 | empty text gives `""`; tag-free text that fits is returned whole |
| PostArticle.TsTruncateBounded | src/core/postArticle.ts:36-42 | from `max = 3` on the result fits; below that an over-long text becomes just `...` |
| PostArticle.TsCategoryColor | src/core/postArticle.ts:52-54 | the table colour for a built-in category, else the `other` grey |
| PostArticle.UnknownCategoryColors | src/core/postArticle.ts:54 | an unknown category is grey here but blue in the Python builder |
| PostArticle.PostEmbedSpec | src/core/postArticle.ts:52-79 | the footer is always non-empty; the category field is present exactly when classified; a thumbnail exactly when there is an image; a non-empty summary is the description, else the content truncated to at most 4000 characters |
| PostArticle.PostEmbed | src/core/postArticle.ts:52-79 | the embed `postArticle` sends; stated by `PostEmbedSpec` |
| Config.FillFromIsOverride | config/config_manager.py:116-119 | filling in defaults equals the defaults overridden by the present settings |
| Config.FillFrom | config/config_manager.py:116-119 | each default whose key is absent is added, in order; stated by `FillFromIsOverride` and `FillKeeps` |
| Config.DefaultEntries | config/default_config.py:11-55 | `DEFAULT_CONFIG` as key-value pairs in declaration order |
| Config.FromEnv | config/config_manager.py:134-141 | a truthy setting, or a missing or empty variable, leaves the settings unchanged |
| Text.SplitCommaList | config/config_manager.py:145 | every item is non-empty, stripped and holds no comma; which items is stated by the next three lemmas |
| Text.SplitCommaListMembers | config/config_manager.py:145 | a string is listed exactly when it is non-empty and the strip of one comma-separated piece |
| Text.SplitCommaListJoin | config/config_manager.py:145 | joining clean tokens with commas and reading the list back gives the tokens, in order |
| Text.CleanTokensAppend | ai/ai_processor.py:209 | cleaning works piece by piece, so the order of the pieces is kept |
| Config.KeyList | config/config_manager.py:143-146 | a list of strings, each non-empty and stripped with no comma; which strings is stated by `KeyListMembers` and `KeyListJoin` |
| Config.KeyListMembers | config/config_manager.py:143-146 | a string is listed exactly when it is the non-blank strip of one comma-separated piece of the variable |
| Config.KeyListJoin | config/config_manager.py:143-146 | clean keys written as a comma list come back as one string per key, in order |
| Config.KeysFromEnv | config/config_manager.py:143-146 | the key list is only taken from the environment when the setting is falsy and the variable is non-empty |
| Config.KeysFromEnvSets | config/config_manager.py:143-146 | with the setting falsy, a variable listing clean keys separated by commas sets the setting to those keys, in order |
| Config.RequiredEnvNames | config/config_manager.py:122-130 | the three variable names the required-key loop builds |
| Config.RequiredFromEnvKeeps | config/config_manager.py:122-131 | only falsy required keys change, and no key is dropped |
| Config.RequiredFromEnv | config/config_manager.py:122-131 | each falsy required key taken from `DISCORD_RSS_<KEY>`; stated by `RequiredFromEnvSets`, `RequiredFromEnvKeeps` and `RequiredEnvNames` |
| Config.RequiredFromEnvSets | config/config_manager.py:122-130 | a listed key whose setting is falsy and whose `DISCORD_RSS_<KEY>` variable is non-empty takes that variable's value as a string |
| Config.RequiredFromEnvOutside | config/config_manager.py:122-130 | a key not in the list is neither added nor changed |
| Config.FromEnvKeeps | config/config_manager.py:134-141 | a single environment fallback keeps every key and every truthy value |
| Config.FillKeeps | config/config_manager.py:116-119 | filling in defaults keeps every present setting and adds every default key |
| Config.ValidatedKeeps | config/config_manager.py:113-146 | validation never overwrites a truthy setting, never drops a key, and leaves every default key present |
| Config.ValidatedOthersUnchanged | config/config_manager.py:113-146 | a setting outside the required keys and the keys taken from the environment is unchanged |
| Config.Validated | config/config_manager.py:113-146 | defaults, required keys, token, key and key list in that order; stated by `ValidatedKeeps` and `ValidatedOthersUnchanged` |
| Config.LoadedFallback | config/config_manager.py:33-63 | a file that cannot be read, or that holds anything but an object, gives exactly the defaults without consulting the environment |
| Config.Loaded | config/config_manager.py:33-63 | the decoded object validated, the validated defaults for a missing file, the bare defaults on error; stated by `LoadedFallback` |
| Config.ConfigManager.ValidateAndUpdateConfig | config/config_manager.py:113-146 | the new configuration is `Validated` of the old one |
| Config.ConfigManager.FillDefaults | config/config_manager.py:116-119 | every default key missing from the configuration is added with its default value, in declaration order, and nothing present is changed |
| Config.ConfigManager.FillRequired | config/config_manager.py:122-130 | the new settings are `RequiredFromEnv` over the three required keys, so by `RequiredFromEnvSets` every falsy required key takes a non-empty `DISCORD_RSS_<KEY>` value, and by `RequiredFromEnvKeeps` nothing else changes |
| Config.ConfigManager.FillFromEnv | config/config_manager.py:133-140 | an unset or falsy field takes the named variable when that is non-empty; otherwise nothing changes |
| Config.ConfigManager.LoadConfig | config/config_manager.py:33-63 | the configuration becomes `Loaded` of the file state and the environment, and is returned |
| Config.ConfigManager.UpdateConfig | config/config_manager.py:86-102 | the new keys are written over the configuration; the result reports whether the save succeeded |
| Config.ConfigManager.GetConfig | config/config_manager.py:104-111 | returns the configuration |
| Config.UpdateKeepsOthers | config/config_manager.py:97 | an update writes the new keys and keeps every other key |
| BotUi.LineCategory | discord_bot/ui_components.py:313-324 | a blank line, or one with fewer than three comma parts, gives nothing; otherwise the first three parts, stripped |
| BotUi.ParsedShape | discord_bot/ui_components.py:310-324 | every category read back has three present fields, each stripped and free of commas and newlines |
| BotUi.CategoriesRoundTrip | discord_bot/ui_components.py:286-324 | reading back the editor text gives the categories again, with missing fields as `""`, when no field holds a comma, a newline or edge whitespace |
| BotUi.SerialiseCategories | discord_bot/ui_components.py:286-294 | the `+=` loop computes `Serialised` |
| BotUi.Serialised | discord_bot/ui_components.py:286-294 | one `name,jp_name,emoji` line per category; it is read back by `Parsed` (`BodiesParse`) |
| BotUi.ParseCategories | discord_bot/ui_components.py:310-324 | the line loop with `continue` computes `Parsed` |
| BotUi.Parsed | discord_bot/ui_components.py:310-324 | the stripped text split into lines, the lines with three fields read as categories |
| BotUi.CategoryValueRoundTrip | discord_bot/ui_components.py:322-327 | a stored category reads back as the category it was made from |
| BotUi.Flipped | discord_bot/ui_components.py:57-58 | the key becomes the negation of its truth value, or of the default when absent; other keys are unchanged |
| BotUi.FlipTwice | discord_bot/ui_components.py:55-90 | two presses restore the switch's truth value, and restore a boolean switch and the whole configuration exactly |
| BotUi.WithKeySpec | discord_bot/ui_components.py:359-367 | a new key goes to the front and nothing else changes; a listed key changes nothing; the key is listed afterwards and no duplicate appears |
| BotUi.WithKey | discord_bot/ui_components.py:359-367 | the key list with a new key in front; stated by `WithKeySpec` |
| BotUi.FeedOptionsSpec | discord_bot/ui_components.py:430-457 | one option per feed for the first 25, in order; captions and descriptions fit in 100 characters, kept whole when they fit; each value reads back as the feed's index |
| BotUi.FeedOptionsOf | discord_bot/ui_components.py:438-451 | one option per feed, at most 25, text cut to 100 characters, the index as value |
| BotUi.FeedOptions | discord_bot/ui_components.py:438-451 | the option loop computes `FeedOptionsOf` |
| BotUi.FeedsOf | discord_bot/ui_components.py:668-674 | the feeds of one channel, in order |
| BotUi.GroupedSpec | discord_bot/ui_components.py:668-674 | a channel is a key exactly when some feed names it, and its list is that channel's feeds in order; the key order lists each channel once |
| BotUi.GroupByChannel | discord_bot/ui_components.py:793-797 | the grouping loop computes `Grouped` and its key order |
| BotUi.Grouped | discord_bot/ui_components.py:793-797 | each feed with a channel appended to that channel's list |
| BotUi.ConfigView.Toggle | discord_bot/ui_components.py:55-90 | the view's configuration becomes `Flipped`, and the manager's is merged with it |
| BotUi.ConfigView.ToggleSummarize | discord_bot/ui_components.py:55-66 | flips `summarize`, whose default is on |
| BotUi.ConfigView.ToggleClassify | discord_bot/ui_components.py:70-82 | flips `classify`, whose default is off |
| BotUi.ConfigView.ToggleThumbnails | discord_bot/ui_components.py:84-90 | flips `use_thumbnails`, whose default is on |
| BotUi.ConfigView.OpenCategorySettings | discord_bot/ui_components.py:286-294 | the editor text is `Serialised` of the configured categories |
| BotUi.ConfigView.SubmitCategories | discord_bot/ui_components.py:306-330 | the parsed categories replace the configured list; the manager is merged with the view |
| BotUi.ConfigView.SubmitApiKey | discord_bot/ui_components.py:359-374 | a blank key is refused with nothing changed; otherwise the key list becomes `WithKey`, and the manager changes only when the list did |
| LegacyUi.ConfigView.Toggle | discord/ui_components.py:40-85 | the view's configuration becomes `Flipped`, and the manager's is merged with it |
| LegacyUi.ConfigView.ToggleTranslate | discord/ui_components.py:40-53 | flips `translate`, whose default is on |
| LegacyUi.ConfigView.ToggleSummarize | discord/ui_components.py:56-69 | flips `summarize`, whose default is on |
| LegacyUi.ConfigView.ToggleClassify | discord/ui_components.py:72-85 | flips `classify`, whose default is off |

## Left out

- I/O: HTTP sessions, SQLite connections, JSON files, Discord calls, logging and `asyncio.sleep` are left out. Their outcomes are parameters: a fetched document or status, a store fault flag, a file state, the success of a save.
- Concurrency: the sweep flag is modelled, and the interleaving of coroutines is not.
- The LLM, hashing, `strptime`, clocks, URL parsing, the environment and `toLocaleString` are oracles passed in.
- Prompt wording is a named constant per prompt. The model does not depend on its text.
- Case mapping is ASCII only in `Text.Lower` and `Text.Upper`, and Python's `\w` for non-ASCII characters is an oracle. Unicode tables are out of scope.
- JavaScript string length counts UTF-16 code units; the TypeScript model counts characters, as Python does.
- Store.KeepCount: for a negative limit the contract states only that no more rows than there were survive; the body follows the Python slice.
- FeedManagement.FeedManager.CheckFeed: the clock is read once per call, not once per entry as the source does. Dates of undated entries within one call are therefore equal.
- The id of an article is recorded when it is queued, not after it is posted, as rss/feed_manager.py:118-125 does; so an article whose post later fails is never queued again. The model keeps this order.
- FeedManagement.FeedManager.CheckFeeds: the per-feed `except` (rss/feed_manager.py:57-63) is not modelled, because no modelled stage of `check_feed` can raise; the sweep always visits every feed.
- The outer `except` of `process_article` (ai/ai_processor.py:104-110) is unreachable in the model: every stage catches its own errors and the oracles cannot raise.
- The `except` of `_summarize_article`'s caller (ai/ai_processor.py:87-89) is unreachable because `summarize` catches everything; `summarized` is always true there.
- The `except` branch of `build_article_embed` (discord_bot/message_builder.py:119-127) is unreachable for the modelled inputs and is left out.
- Config: `DEFAULT_CONFIG.copy()` is shallow, so nested defaults may alias; values are modelled as immutable.
- Config: environment values are strings, so the model sets string values where the source would too; no type coercion happens in either.
- Config: `save_config` failures are caught inside it; the model only reports the outcome.
- BotUi.ConfigView: the view's configuration and the manager's are separate maps. In the source they may be the same dictionary; the model states the merge the manager performs, and leaves the aliasing out.
- BotUi.CategoryOf: a category field that is not a string is read as missing. The source prints it with `str()`, and raises on an item that is not a dictionary.
- BotUi.ConfigView.SubmitApiKey: requires the stored key list, when present, to be a list; the source would fail on any other value. Re-creating the AI processor after a key is added is left out.
- BotUi.GroupByChannel: building the select options from `channels.items()[:25]` is left out, because slicing a dictionary view raises in Python.
- The older discord/ui_components.py repeats the category editor (lines 233-271), the feed picker (lines 347-358) and the grouping (lines 559-565) of the current file with the same code; the `BotUi` members model both, and each has one row citing the current file.
- The thumbnail expectations of the repository's tests are not modelled.
- FeedManagement.SortEntries: the sort key is only `published`. The source falls back to `updated` and then `created` (rss/feed_manager.py:163-185), but neither the RSS reader nor the YouTube reader produces those keys, so the fallbacks never apply.
- Helpers.CleanHtml: that no tag is left is stated for the tag-removal stage (`Text.RemoveTagsNoTag`), not carried through the whitespace collapse and strip that follow it.

## Findings

| source | as written | input that shows it | evidently intended | confidence | as-written member | corrected member |
|---|---|---|---|---|---|---|
| ai/ai_processor.py:187 | the log line after a successful classification names `category`, which is not defined, so a `NameError` sends every run to the handler. That handler sets `classified` to false and the category to `other`. | any article with classification on, e.g. a reply naming `technology` with `technology` configured | the label is kept and `classified` is true | high (not executed) | AiProcessor.ClassifiedArticleAsWritten, shown by AiProcessor.ClassifyAsWrittenDiscardsLabel | AiProcessor.ClassifiedArticle, used by AiProcessor.ProcessedArticle |
