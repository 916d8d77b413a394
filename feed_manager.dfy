/**
 * The feed manager: the subscription list, the `checking` re-entrancy flag, the
 * queue of articles waiting to be posted, and the sweep that fills it.  The feed
 * reader, the AI processor, the hash, `strptime` and the clock are parameters
 * bundled in `Env`; the article store is the `ArticleStore` object.
 *
 * An article's id is recorded in the store as soon as the article is queued, not
 * after it is posted.
 */
module FeedManagement {
  import opened Wrappers
  import opened Text
  import opened Articles
  import opened Sorting
  import Helpers
  import opened Store

  /** One element of `articles_to_post`. */
  datatype QueueItem = QueueItem(processed: Article, channelId: string)

  /**
   * Everything a sweep consults besides the manager's own state: the feed reader's
   * result per URL, the AI processor, SHA-256, `strptime`, the clock (seconds) and
   * whether the store's database calls raise.
   */
  datatype Env = Env(
    parse: string -> Option<FeedData>,
    process: (Entry, Feed) -> Article,
    sha256: string -> string,
    strptime: (string, string) -> Option<Helpers.DateTime>,
    now: int,
    storeFault: bool)

  /** The part of the state a sweep changes: the queue and the store's processed ids. */
  datatype SweepState = SweepState(queue: seq<QueueItem>, processed: map<string, Record>)

  /** Result of `add_feed`. */
  datatype AddOutcome = Added(feed: Feed) | AlreadyRegistered | ParseFailed

  const DefaultMaxArticles: int := 5

  /** The id of an entry. */
  function Id(e: Entry, env: Env): string {
    Helpers.GenerateArticleId(e, env.sha256)
  }

  /** A parsed date as seconds since the epoch in UTC. */
  function Instant(d: Helpers.DateTime): int {
    d.local - d.offset.GetOr(0) * 60
  }

  /** The sort key of `_sort_entries_by_date`: the parsed `published` date, else the current time. */
  function EntryDate(e: Entry, env: Env): int {
    match e.published
    case None => env.now
    case Some(p) =>
      match Helpers.ParseDatetime(p, Helpers.DateFormats, env.strptime)
      case None => env.now
      case Some(d) => Instant(d)
  }

  function DateKey(env: Env): Entry -> int {
    e => EntryDate(e, env)
  }

  /** `_sort_entries_by_date`: newest first, stable. */
  function SortEntries(entries: seq<Entry>, env: Env): seq<Entry> {
    SortDesc(entries, DateKey(env))
  }

  /** The entry with the feed's title and URL attached. */
  function Tag(e: Entry, data: FeedData, feed: Feed): Entry {
    e.(feedTitle := Some(data.meta.title), feedUrl := feed.url)
  }

  /** Whether the store reports the entry as processed (a store fault reports `False`). */
  predicate Seen(e: Entry, processed: map<string, Record>, env: Env) {
    !env.storeFault && Id(e, env) in processed
  }

  /** The sorted entries the store does not report as processed, tagged, in order. */
  function Fresh(sorted: seq<Entry>, data: FeedData, feed: Feed, processed: map<string, Record>, env: Env): (r: seq<Entry>)
    ensures |r| <= |sorted|
  {
    if sorted == [] then []
    else
      var e := sorted[|sorted| - 1];
      Fresh(sorted[..|sorted| - 1], data, feed, processed, env) + (if Seen(e, processed, env) then [] else [Tag(e, data, feed)])
  }

  /** `_get_new_articles`. */
  function NewArticles(data: FeedData, feed: Feed, processed: map<string, Record>, env: Env): seq<Entry> {
    Fresh(SortEntries(data.entries, env), data, feed, processed, env)
  }

  /** The cap of `check_feed`: `new[:max]` when there are more than `max`. */
  function Cap(articles: seq<Entry>, maxArticles: int): seq<Entry> {
    if |articles| > maxArticles then PyPrefix(articles, maxArticles) else articles
  }

  /** The processed article with `_original_article` set to the entry. */
  function Processed(a: Entry, feed: Feed, env: Env): Article {
    env.process(a, feed).(original := Some(a))
  }

  /** The enqueue loop of `check_feed`: one queue item per article, and its id recorded. */
  function Enqueue(st: SweepState, articles: seq<Entry>, url: string, channelId: string, feed: Feed, env: Env): SweepState {
    if articles == [] then st
    else
      var prev := Enqueue(st, articles[..|articles| - 1], url, channelId, feed, env);
      var a := articles[|articles| - 1];
      SweepState(
        prev.queue + [QueueItem(Processed(a, feed, env), channelId)],
        if env.storeFault then prev.processed else prev.processed[Id(a, env) := Record(url, channelId, env.now)])
  }

  /** `check_feed` on the sweep state. */
  function CheckFeedSpec(st: SweepState, feed: Feed, maxArticles: int, env: Env): SweepState {
    if !Truthy(feed.url) || !Truthy(feed.channelId) then st
    else match env.parse(feed.url.value)
      case None => st
      case Some(data) =>
        var unseen := NewArticles(data, feed, st.processed, env);
        if unseen == [] then st
        else Enqueue(st, Cap(unseen, maxArticles), feed.url.value, feed.channelId.value, feed, env)
  }

  /** The sweep of `check_feeds`: every feed, in list order. */
  function Sweep(st: SweepState, feeds: seq<Feed>, maxArticles: int, env: Env): SweepState {
    if feeds == [] then st
    else CheckFeedSpec(Sweep(st, feeds[..|feeds| - 1], maxArticles, env), feeds[|feeds| - 1], maxArticles, env)
  }

  /** Whether a feed with this URL is registered. */
  predicate Registered(feeds: seq<Feed>, url: string) {
    exists i :: 0 <= i < |feeds| && feeds[i].url == Some(url)
  }

  /** No URL is registered twice. */
  predicate UniqueUrls(feeds: seq<Feed>) {
    forall i, j :: 0 <= i < j < |feeds| && feeds[i].url.Some? ==> feeds[i].url != feeds[j].url
  }

  /** The feed `add_feed` appends. */
  function NewFeed(url: string, title: Option<string>, channelId: Option<string>, summaryType: string,
                   data: FeedData, addedAt: string): Feed {
    Feed(Some(url), Some(if Truthy(title) then title.value else data.meta.title), channelId, Some(addedAt), Some(summaryType))
  }

  /** The position of the first feed with this URL. */
  function FindFeed(feeds: seq<Feed>, url: string): (r: Option<nat>)
    ensures r.None? <==> !Registered(feeds, url)
    ensures r.Some? ==> (r.value < |feeds| && feeds[r.value].url == Some(url)
                         && forall j :: 0 <= j < r.value ==> feeds[j].url != Some(url))
  {
    if feeds == [] then None
    else if feeds[0].url == Some(url) then Some(0)
    else
      var r := FindFeed(feeds[1..], url);
      assert forall j :: 1 <= j < |feeds| ==> feeds[j] == feeds[1..][j - 1];
      if r.None? then None else Some(r.value + 1)
  }

  // ---------------------------------------------------------------------------
  // Properties of the specification functions

  /** Tagging changes neither the id nor the date of an entry. */
  lemma TagKeepsIdAndDate(e: Entry, data: FeedData, feed: Feed, env: Env)
    ensures Id(Tag(e, data, feed), env) == Id(e, env)
    ensures EntryDate(Tag(e, data, feed), env) == EntryDate(e, env)
  {
  }

  /** The sort orders newest first, keeps every entry, and keeps entries with equal dates in feed order. */
  lemma SortEntriesSpec(entries: seq<Entry>, env: Env, t: int)
    ensures SortedDesc(SortEntries(entries, env), DateKey(env))
    ensures multiset(SortEntries(entries, env)) == multiset(entries)
    ensures WithKey(SortEntries(entries, env), DateKey(env), t) == WithKey(entries, DateKey(env), t)
  {
    SortDescSorted(entries, DateKey(env));
    SortDescPermutes(entries, DateKey(env));
    SortDescStable(entries, DateKey(env), t);
  }

  /** An entry without a parseable date takes the current time, so it comes before every entry dated earlier. */
  lemma UndatedBeforeOlder(entries: seq<Entry>, env: Env, i: nat, j: nat)
    requires i < |SortEntries(entries, env)| && j < |SortEntries(entries, env)|
    requires SortEntries(entries, env)[i].published.None?
    requires EntryDate(SortEntries(entries, env)[j], env) < env.now
    ensures i < j
  {
    SortDescSorted(entries, DateKey(env));
    var s := SortEntries(entries, env);
    assert DateKey(env)(s[i]) == env.now;
    assert DateKey(env)(s[j]) < DateKey(env)(s[i]);
  }

  /** Every new article is a tagged sorted entry that the store did not report as processed. */
  lemma {:induction false} FreshFrom(sorted: seq<Entry>, data: FeedData, feed: Feed, processed: map<string, Record>, env: Env)
    ensures forall k :: 0 <= k < |Fresh(sorted, data, feed, processed, env)| ==>
      exists i :: (0 <= i < |sorted| && !Seen(sorted[i], processed, env)
                   && Fresh(sorted, data, feed, processed, env)[k] == Tag(sorted[i], data, feed))
  {
    var r := Fresh(sorted, data, feed, processed, env);
    if sorted != [] {
      var init := sorted[..|sorted| - 1];
      var e := sorted[|sorted| - 1];
      var ri := Fresh(init, data, feed, processed, env);
      FreshFrom(init, data, feed, processed, env);
      assert r == ri + (if Seen(e, processed, env) then [] else [Tag(e, data, feed)]);
      forall k | 0 <= k < |r|
        ensures exists i :: 0 <= i < |sorted| && !Seen(sorted[i], processed, env) && r[k] == Tag(sorted[i], data, feed)
      {
        if k < |ri| {
          assert r[k] == ri[k];
          assert exists i :: 0 <= i < |init| && !Seen(init[i], processed, env) && ri[k] == Tag(init[i], data, feed);
          var i :| 0 <= i < |init| && !Seen(init[i], processed, env) && ri[k] == Tag(init[i], data, feed);
          assert sorted[i] == init[i];
        } else {
          assert r[k] == Tag(sorted[|sorted| - 1], data, feed);
        }
      }
    } else {
      assert r == [];
    }
  }

  /** `x` occurs in `r`. */
  predicate Listed(r: seq<Entry>, x: Entry) {
    exists k :: 0 <= k < |r| && r[k] == x
  }

  /** Every sorted entry the store does not report as processed is among the new articles. */
  lemma {:induction false} FreshComplete(sorted: seq<Entry>, data: FeedData, feed: Feed, processed: map<string, Record>, env: Env, i: nat)
    requires i < |sorted| && !Seen(sorted[i], processed, env)
    ensures Listed(Fresh(sorted, data, feed, processed, env), Tag(sorted[i], data, feed))
  {
    var init := sorted[..|sorted| - 1];
    var r := Fresh(sorted, data, feed, processed, env);
    var ri := Fresh(init, data, feed, processed, env);
    assert r == ri + (if Seen(sorted[|sorted| - 1], processed, env) then [] else [Tag(sorted[|sorted| - 1], data, feed)]);
    if i < |sorted| - 1 {
      assert init[i] == sorted[i];
      FreshComplete(init, data, feed, processed, env, i);
      var k :| 0 <= k < |ri| && ri[k] == Tag(init[i], data, feed);
      assert r[k] == ri[k];
    } else {
      assert r[|ri|] == Tag(sorted[i], data, feed);
    }
  }

  /** Filtering keeps the order of the sort: the new articles are newest first. */
  lemma {:induction false} FreshSorted(sorted: seq<Entry>, data: FeedData, feed: Feed, processed: map<string, Record>, env: Env)
    requires SortedDesc(sorted, DateKey(env))
    ensures SortedDesc(Fresh(sorted, data, feed, processed, env), DateKey(env))
  {
    if sorted != [] {
      var init := sorted[..|sorted| - 1];
      var e := sorted[|sorted| - 1];
      var ri := Fresh(init, data, feed, processed, env);
      var r := Fresh(sorted, data, feed, processed, env);
      assert SortedDesc(init, DateKey(env));
      FreshSorted(init, data, feed, processed, env);
      FreshFrom(init, data, feed, processed, env);
      assert r == ri + (if Seen(e, processed, env) then [] else [Tag(e, data, feed)]);
      if !Seen(e, processed, env) {
        TagKeepsIdAndDate(e, data, feed, env);
        forall k | 0 <= k < |ri|
          ensures DateKey(env)(ri[k]) >= DateKey(env)(Tag(e, data, feed))
        {
          assert exists i :: 0 <= i < |init| && !Seen(init[i], processed, env) && ri[k] == Tag(init[i], data, feed);
          var i :| 0 <= i < |init| && !Seen(init[i], processed, env) && ri[k] == Tag(init[i], data, feed);
          TagKeepsIdAndDate(init[i], data, feed, env);
          assert DateKey(env)(sorted[i]) >= DateKey(env)(sorted[|sorted| - 1]);
        }
      }
    }
  }

  /** `_get_new_articles` is exactly the unprocessed sorted entries, in sorted order. */
  lemma NewArticlesSpec(data: FeedData, feed: Feed, processed: map<string, Record>, env: Env)
    ensures var r := NewArticles(data, feed, processed, env);
      var sorted := SortEntries(data.entries, env);
      SortedDesc(r, DateKey(env))
      && (forall k :: 0 <= k < |r| ==>
            exists i :: 0 <= i < |sorted| && !Seen(sorted[i], processed, env) && r[k] == Tag(sorted[i], data, feed))
      && (forall i :: 0 <= i < |sorted| && !Seen(sorted[i], processed, env) ==>
            exists k :: 0 <= k < |r| && r[k] == Tag(sorted[i], data, feed))
  {
    var sorted := SortEntries(data.entries, env);
    assert NewArticles(data, feed, processed, env) == Fresh(sorted, data, feed, processed, env);
    SortDescSorted(data.entries, DateKey(env));
    FreshSorted(sorted, data, feed, processed, env);
    FreshFrom(sorted, data, feed, processed, env);
    FreshCompleteAll(sorted, data, feed, processed, env);
  }

  lemma FreshCompleteAll(sorted: seq<Entry>, data: FeedData, feed: Feed, processed: map<string, Record>, env: Env)
    ensures forall i :: 0 <= i < |sorted| && !Seen(sorted[i], processed, env) ==>
      Listed(Fresh(sorted, data, feed, processed, env), Tag(sorted[i], data, feed))
  {
    forall i | 0 <= i < |sorted| && !Seen(sorted[i], processed, env)
      ensures Listed(Fresh(sorted, data, feed, processed, env), Tag(sorted[i], data, feed))
    {
      FreshComplete(sorted, data, feed, processed, env, i);
    }
  }

  /** While the store works, no new article has an id the store holds. */
  lemma NewArticlesUnseen(data: FeedData, feed: Feed, processed: map<string, Record>, env: Env, k: nat)
    requires !env.storeFault && k < |NewArticles(data, feed, processed, env)|
    ensures Id(NewArticles(data, feed, processed, env)[k], env) !in processed
  {
    var sorted := SortEntries(data.entries, env);
    var r := Fresh(sorted, data, feed, processed, env);
    assert NewArticles(data, feed, processed, env) == r;
    FreshFrom(sorted, data, feed, processed, env);
    assert exists i :: 0 <= i < |sorted| && !Seen(sorted[i], processed, env) && r[k] == Tag(sorted[i], data, feed);
    var i :| 0 <= i < |sorted| && !Seen(sorted[i], processed, env) && r[k] == Tag(sorted[i], data, feed);
    TagKeepsIdAndDate(sorted[i], data, feed, env);
  }

  /**
   * No de-duplication happens inside one call: when the store holds none of the
   * entries' ids, every entry is new, including two with the same id.
   */
  lemma {:induction false} FreshKeepsAllUnseen(sorted: seq<Entry>, data: FeedData, feed: Feed, processed: map<string, Record>, env: Env)
    requires forall i :: 0 <= i < |sorted| ==> !Seen(sorted[i], processed, env)
    ensures |Fresh(sorted, data, feed, processed, env)| == |sorted|
    ensures forall i :: 0 <= i < |sorted| ==> Fresh(sorted, data, feed, processed, env)[i] == Tag(sorted[i], data, feed)
  {
    if sorted != [] {
      FreshKeepsAllUnseen(sorted[..|sorted| - 1], data, feed, processed, env);
    }
  }

  /** The cap keeps the first `max` new articles, and all of them when there are no more than `max`. */
  lemma CapSpec(articles: seq<Entry>, maxArticles: int)
    ensures var c := Cap(articles, maxArticles);
      c == articles[..|c|]
      && (|articles| <= maxArticles ==> c == articles)
      && (0 <= maxArticles < |articles| ==> |c| == maxArticles)
  {
  }

  /** One more article: one more queue item and, while the store works, one more id. */
  lemma EnqueueSnoc(st: SweepState, articles: seq<Entry>, i: nat, url: string, channelId: string, feed: Feed, env: Env)
    requires i < |articles|
    ensures var prev := Enqueue(st, articles[..i], url, channelId, feed, env);
      Enqueue(st, articles[..i + 1], url, channelId, feed, env) == SweepState(
        prev.queue + [QueueItem(Processed(articles[i], feed, env), channelId)],
        if env.storeFault then prev.processed else prev.processed[Id(articles[i], env) := Record(url, channelId, env.now)])
  {
    assert articles[..i + 1][..i] == articles[..i];
  }

  /** The enqueue loop appends one item per article, in order, whose original article is that article. */
  lemma {:induction false} EnqueueQueue(st: SweepState, articles: seq<Entry>, url: string, channelId: string, feed: Feed, env: Env)
    ensures var r := Enqueue(st, articles, url, channelId, feed, env);
      |r.queue| == |st.queue| + |articles|
      && r.queue[..|st.queue|] == st.queue
      && (forall k :: 0 <= k < |articles| ==> r.queue[|st.queue| + k] == QueueItem(Processed(articles[k], feed, env), channelId))
  {
    if articles != [] {
      var init := articles[..|articles| - 1];
      EnqueueQueue(st, init, url, channelId, feed, env);
      var prev := Enqueue(st, init, url, channelId, feed, env);
      var r := Enqueue(st, articles, url, channelId, feed, env);
      assert r.queue == prev.queue + [QueueItem(Processed(articles[|articles| - 1], feed, env), channelId)];
      assert forall k :: 0 <= k < |init| ==> articles[k] == init[k];
    }
  }

  /**
   * While the store works, the enqueue loop records every article's id and keeps the
   * ids the store held; on a store fault the ids are unchanged.
   */
  lemma {:induction false} EnqueueRecords(st: SweepState, articles: seq<Entry>, url: string, channelId: string, feed: Feed, env: Env)
    ensures var r := Enqueue(st, articles, url, channelId, feed, env);
      (env.storeFault ==> r.processed == st.processed)
      && (!env.storeFault ==> st.processed.Keys <= r.processed.Keys)
      && (!env.storeFault ==> forall k :: 0 <= k < |articles| ==> Id(articles[k], env) in r.processed)
  {
    if articles != [] {
      var init := articles[..|articles| - 1];
      EnqueueRecords(st, init, url, channelId, feed, env);
      assert forall k :: 0 <= k < |init| ==> articles[k] == init[k];
    }
  }

  /** Every id the enqueue loop adds is the id of one of its articles. */
  lemma {:induction false} EnqueueAddsOnlyArticles(st: SweepState, articles: seq<Entry>, url: string, channelId: string, feed: Feed, env: Env)
    ensures var r := Enqueue(st, articles, url, channelId, feed, env);
      forall id :: id in r.processed && id !in st.processed ==> exists k :: 0 <= k < |articles| && Id(articles[k], env) == id
  {
    if articles != [] {
      var init := articles[..|articles| - 1];
      EnqueueAddsOnlyArticles(st, init, url, channelId, feed, env);
      var prev := Enqueue(st, init, url, channelId, feed, env);
      var r := Enqueue(st, articles, url, channelId, feed, env);
      forall id | id in r.processed && id !in st.processed
        ensures exists k :: 0 <= k < |articles| && Id(articles[k], env) == id
      {
        if id in prev.processed {
          assert exists k :: 0 <= k < |init| && Id(init[k], env) == id;
          var k :| 0 <= k < |init| && Id(init[k], env) == id;
          assert articles[k] == init[k];
        } else {
          assert Id(articles[|articles| - 1], env) == id;
        }
      }
    }
  }

  /** `check_feed` changes nothing for an incomplete feed, a failed parse or no new articles. */
  lemma CheckFeedNoChange(st: SweepState, feed: Feed, maxArticles: int, env: Env)
    requires !Truthy(feed.url) || !Truthy(feed.channelId)
      || env.parse(feed.url.value).None?
      || NewArticles(env.parse(feed.url.value).value, feed, st.processed, env) == []
    ensures CheckFeedSpec(st, feed, maxArticles, env) == st
  {
  }

  /** `check_feed` only appends to the queue, and while the store works it only adds ids. */
  lemma CheckFeedGrows(st: SweepState, feed: Feed, maxArticles: int, env: Env)
    ensures var r := CheckFeedSpec(st, feed, maxArticles, env);
      |st.queue| <= |r.queue| && r.queue[..|st.queue|] == st.queue
      && st.processed.Keys <= r.processed.Keys
  {
    if Truthy(feed.url) && Truthy(feed.channelId) && env.parse(feed.url.value).Some? {
      var data := env.parse(feed.url.value).value;
      var unseen := NewArticles(data, feed, st.processed, env);
      if unseen != [] {
        EnqueueQueue(st, Cap(unseen, maxArticles), feed.url.value, feed.channelId.value, feed, env);
        EnqueueRecords(st, Cap(unseen, maxArticles), feed.url.value, feed.channelId.value, feed, env);
      }
    }
  }

  /** While the store works, every article `check_feed` queues has its id recorded. */
  lemma CheckFeedRecordsQueued(st: SweepState, feed: Feed, maxArticles: int, env: Env, k: nat)
    requires !env.storeFault
    requires |st.queue| <= k < |CheckFeedSpec(st, feed, maxArticles, env).queue|
    ensures var r := CheckFeedSpec(st, feed, maxArticles, env);
      r.queue[k].processed.original.Some? && Id(r.queue[k].processed.original.value, env) in r.processed
  {
    var data := env.parse(feed.url.value).value;
    var capped := Cap(NewArticles(data, feed, st.processed, env), maxArticles);
    CheckFeedQueued(st, feed, maxArticles, env, k);
    EnqueueRecords(st, capped, feed.url.value, feed.channelId.value, feed, env);
  }

  /** A queue item `check_feed` adds is the processed form of one of the capped new articles. */
  lemma CheckFeedQueued(st: SweepState, feed: Feed, maxArticles: int, env: Env, k: nat)
    requires |st.queue| <= k < |CheckFeedSpec(st, feed, maxArticles, env).queue|
    ensures Truthy(feed.url) && Truthy(feed.channelId) && env.parse(feed.url.value).Some?
    ensures var capped := Cap(NewArticles(env.parse(feed.url.value).value, feed, st.processed, env), maxArticles);
      k - |st.queue| < |capped|
      && CheckFeedSpec(st, feed, maxArticles, env).queue[k] == QueueItem(Processed(capped[k - |st.queue|], feed, env), feed.channelId.value)
  {
    var data := env.parse(feed.url.value).value;
    var capped := Cap(NewArticles(data, feed, st.processed, env), maxArticles);
    EnqueueQueue(st, capped, feed.url.value, feed.channelId.value, feed, env);
  }

  /** What `check_feed` queues are new articles of the state it started from, not seen by the store. */
  lemma CheckFeedQueuesUnseen(st: SweepState, feed: Feed, maxArticles: int, env: Env, k: nat)
    requires !env.storeFault
    requires |st.queue| <= k < |CheckFeedSpec(st, feed, maxArticles, env).queue|
    ensures var r := CheckFeedSpec(st, feed, maxArticles, env);
      r.queue[k].processed.original.Some? && Id(r.queue[k].processed.original.value, env) !in st.processed
  {
    var data := env.parse(feed.url.value).value;
    var unseen := NewArticles(data, feed, st.processed, env);
    var capped := Cap(unseen, maxArticles);
    var j := k - |st.queue|;
    CheckFeedQueued(st, feed, maxArticles, env, k);
    CapSpec(unseen, maxArticles);
    assert capped[j] == unseen[j];
    NewArticlesUnseen(data, feed, st.processed, env, j);
  }

  /**
   * At most once across calls: while the store works, an article queued by one
   * `check_feed` is never queued again by the next, for any feed.
   */
  lemma QueuedAtMostOnce(st: SweepState, f1: Feed, f2: Feed, maxArticles: int, env: Env, i: nat, j: nat)
    requires !env.storeFault
    requires var s1 := CheckFeedSpec(st, f1, maxArticles, env);
      |st.queue| <= i < |s1.queue| <= j < |CheckFeedSpec(s1, f2, maxArticles, env).queue|
    ensures var s2 := CheckFeedSpec(CheckFeedSpec(st, f1, maxArticles, env), f2, maxArticles, env);
      s2.queue[i].processed.original.Some? && s2.queue[j].processed.original.Some?
      && Id(s2.queue[i].processed.original.value, env) != Id(s2.queue[j].processed.original.value, env)
  {
    var s1 := CheckFeedSpec(st, f1, maxArticles, env);
    var s2 := CheckFeedSpec(s1, f2, maxArticles, env);
    CheckFeedRecordsQueued(st, f1, maxArticles, env, i);
    CheckFeedGrows(s1, f2, maxArticles, env);
    assert s2.queue[i] == s2.queue[..|s1.queue|][i] == s1.queue[i];
    CheckFeedQueuesUnseen(s1, f2, maxArticles, env, j);
  }

  /**
   * Articles cut by the cap stay candidates: while the store works, a new article
   * beyond the first `max` whose id differs from every queued one is not recorded.
   */
  lemma CutArticlesRemainCandidates(st: SweepState, feed: Feed, maxArticles: int, env: Env, i: nat)
    requires !env.storeFault && Truthy(feed.url) && Truthy(feed.channelId) && env.parse(feed.url.value).Some?
    requires var unseen := NewArticles(env.parse(feed.url.value).value, feed, st.processed, env);
      |Cap(unseen, maxArticles)| <= i < |unseen|
      && forall j :: 0 <= j < |Cap(unseen, maxArticles)| ==> Id(unseen[j], env) != Id(unseen[i], env)
    ensures var unseen := NewArticles(env.parse(feed.url.value).value, feed, st.processed, env);
      Id(unseen[i], env) !in CheckFeedSpec(st, feed, maxArticles, env).processed
  {
    var data := env.parse(feed.url.value).value;
    var unseen := NewArticles(data, feed, st.processed, env);
    var capped := Cap(unseen, maxArticles);
    CapSpec(unseen, maxArticles);
    NewArticlesUnseen(data, feed, st.processed, env, i);
    EnqueueAddsOnlyArticles(st, capped, feed.url.value, feed.channelId.value, feed, env);
    assert forall j :: 0 <= j < |capped| ==> capped[j] == unseen[j];
  }

  /** The sweep only appends to the queue and, while the store works, only adds ids. */
  lemma {:induction false} SweepGrows(st: SweepState, feeds: seq<Feed>, maxArticles: int, env: Env)
    ensures var r := Sweep(st, feeds, maxArticles, env);
      |st.queue| <= |r.queue| && r.queue[..|st.queue|] == st.queue && st.processed.Keys <= r.processed.Keys
  {
    if feeds != [] {
      var mid := Sweep(st, feeds[..|feeds| - 1], maxArticles, env);
      SweepGrows(st, feeds[..|feeds| - 1], maxArticles, env);
      CheckFeedGrows(mid, feeds[|feeds| - 1], maxArticles, env);
      var r := Sweep(st, feeds, maxArticles, env);
      assert r.queue[..|st.queue|] == r.queue[..|mid.queue|][..|st.queue|];
    }
  }

  /** A registered URL stays registered once a feed is appended, so a second `add_feed` is rejected. */
  lemma AddedIsRegistered(feeds: seq<Feed>, f: Feed, url: string)
    requires f.url == Some(url)
    ensures Registered(feeds + [f], url)
  {
    assert (feeds + [f])[|feeds|] == f;
  }

  /** Appending a feed whose URL is not registered keeps URLs unique. */
  lemma AppendKeepsUnique(feeds: seq<Feed>, f: Feed, url: string)
    requires UniqueUrls(feeds) && f.url == Some(url) && !Registered(feeds, url)
    ensures UniqueUrls(feeds + [f])
  {
  }

  /** Removing a feed keeps URLs unique, and with unique URLs the removed URL is gone. */
  lemma RemoveKeepsUnique(feeds: seq<Feed>, i: nat)
    requires UniqueUrls(feeds) && i < |feeds| && feeds[i].url.Some?
    ensures UniqueUrls(feeds[..i] + feeds[i + 1..])
    ensures !Registered(feeds[..i] + feeds[i + 1..], feeds[i].url.value)
  {
    var r := feeds[..i] + feeds[i + 1..];
    assert forall k :: 0 <= k < |r| ==> r[k] == if k < i then feeds[k] else feeds[k + 1];
  }

  // ---------------------------------------------------------------------------
  // The manager

  class FeedManager {
    var checking: bool
    var feeds: seq<Feed>
    var maxArticles: int
    var queue: seq<QueueItem>
    const store: ArticleStore

    constructor(feeds: seq<Feed>, maxArticles: Option<int>, store: ArticleStore)
      ensures !checking && this.feeds == feeds && queue == [] && this.store == store
      ensures this.maxArticles == maxArticles.GetOr(DefaultMaxArticles)
    {
      checking := false;
      this.feeds := feeds;
      this.maxArticles := maxArticles.GetOr(DefaultMaxArticles);
      queue := [];
      this.store := store;
    }

    /** `_get_new_articles`: ask the store about each sorted entry and tag the new ones. */
    method GetNewArticles(data: FeedData, feed: Feed, env: Env) returns (unseen: seq<Entry>)
      ensures unseen == NewArticles(data, feed, store.processed, env)
    {
      var sorted := SortEntries(data.entries, env);
      unseen := [];
      var i := 0;
      while i < |sorted|
        invariant 0 <= i <= |sorted|
        invariant unseen == Fresh(sorted[..i], data, feed, store.processed, env)
      {
        var e := sorted[i];
        assert sorted[..i + 1][..i] == sorted[..i];
        i := i + 1;
        var seen := store.IsArticleProcessed(Helpers.GenerateArticleId(e, env.sha256), env.storeFault);
        if seen {
          continue;
        }
        unseen := unseen + [e.(feedTitle := Some(data.meta.title), feedUrl := feed.url)];
      }
      assert sorted[..i] == sorted;
    }

    /** `check_feed`: parse, select the new articles, cap them, then queue and record each. */
    method CheckFeed(feed: Feed, env: Env)
      modifies this, store
      ensures SweepState(queue, store.processed) == CheckFeedSpec(SweepState(old(queue), old(store.processed)), feed, maxArticles, env)
      ensures checking == old(checking) && feeds == old(feeds) && maxArticles == old(maxArticles)
      ensures store.snapshots == old(store.snapshots)
    {
      var url := feed.url;
      var channelId := feed.channelId;
      if !Truthy(url) || !Truthy(channelId) {
        return;
      }
      var parsed := env.parse(url.value);
      if parsed.None? {
        return;
      }
      var unseen := GetNewArticles(parsed.value, feed, env);
      if unseen == [] {
        return;
      }
      if |unseen| > maxArticles {
        unseen := PyPrefix(unseen, maxArticles);
      }
      EnqueueArticles(unseen, url.value, channelId.value, feed, env);
    }

    /** The loop of `check_feed`: process, queue and record each article in turn. */
    method EnqueueArticles(articles: seq<Entry>, url: string, channelId: string, feed: Feed, env: Env)
      modifies this, store
      ensures SweepState(queue, store.processed) == Enqueue(SweepState(old(queue), old(store.processed)), articles, url, channelId, feed, env)
      ensures checking == old(checking) && feeds == old(feeds) && maxArticles == old(maxArticles)
      ensures store.snapshots == old(store.snapshots)
    {
      ghost var st0 := SweepState(queue, store.processed);
      var i := 0;
      while i < |articles|
        invariant 0 <= i <= |articles|
        invariant SweepState(queue, store.processed) == Enqueue(st0, articles[..i], url, channelId, feed, env)
        invariant checking == old(checking) && feeds == old(feeds) && maxArticles == old(maxArticles)
        invariant store.snapshots == old(store.snapshots)
      {
        var article := articles[i];
        EnqueueSnoc(st0, articles, i, url, channelId, feed, env);
        var processed := env.process(article, feed).(original := Some(article));
        queue := queue + [QueueItem(processed, channelId)];
        var articleId := Helpers.GenerateArticleId(article, env.sha256);
        var _ := store.AddProcessedArticle(articleId, url, channelId, env.now, env.storeFault);
        i := i + 1;
      }
      assert articles[..i] == articles;
    }

    /** `check_feeds`: skip while a sweep is running; otherwise check every feed in order and clear the flag. */
    method CheckFeeds(env: Env)
      modifies this, store
      ensures old(checking) ==> checking && queue == old(queue) && store.processed == old(store.processed)
      ensures !old(checking) ==> (!checking
        && SweepState(queue, store.processed) == Sweep(SweepState(old(queue), old(store.processed)), feeds, maxArticles, env))
      ensures feeds == old(feeds) && maxArticles == old(maxArticles) && store.snapshots == old(store.snapshots)
    {
      if checking {
        return;
      }
      checking := true;
      var fs := feeds;
      if fs == [] {
        checking := false;
        return;
      }
      ghost var st0 := SweepState(queue, store.processed);
      var i := 0;
      while i < |fs|
        invariant 0 <= i <= |fs|
        invariant SweepState(queue, store.processed) == Sweep(st0, fs[..i], maxArticles, env)
        invariant checking && feeds == old(feeds) && fs == feeds && maxArticles == old(maxArticles)
        invariant store.snapshots == old(store.snapshots)
      {
        assert fs[..i + 1][..i] == fs[..i];
        CheckFeed(fs[i], env);
        i := i + 1;
      }
      assert fs[..i] == fs;
      checking := false;
    }

    /** `add_feed`: reject a registered URL or a failed parse; otherwise append the new feed. */
    method AddFeed(url: string, title: Option<string>, channelId: Option<string>, summaryType: string,
                   parse: string -> Option<FeedData>, addedAt: string) returns (outcome: AddOutcome)
      modifies this
      ensures Registered(old(feeds), url) ==> outcome == AlreadyRegistered && feeds == old(feeds)
      ensures !Registered(old(feeds), url) && parse(url).None? ==> outcome == ParseFailed && feeds == old(feeds)
      ensures !Registered(old(feeds), url) && parse(url).Some? ==>
        var f := NewFeed(url, title, channelId, summaryType, parse(url).value, addedAt);
        outcome == Added(f) && feeds == old(feeds) + [f]
      ensures UniqueUrls(old(feeds)) ==> UniqueUrls(feeds)
      ensures checking == old(checking) && queue == old(queue) && maxArticles == old(maxArticles)
    {
      var i := 0;
      while i < |feeds|
        invariant 0 <= i <= |feeds|
        invariant forall j :: 0 <= j < i ==> feeds[j].url != Some(url)
      {
        if feeds[i].url == Some(url) {
          return AlreadyRegistered;
        }
        i := i + 1;
      }
      var parsed := parse(url);
      if parsed.None? {
        return ParseFailed;
      }
      var feedTitle := if Truthy(title) then title.value else parsed.value.meta.title;
      var f := Feed(Some(url), Some(feedTitle), channelId, Some(addedAt), Some(summaryType));
      assert !Registered(feeds, url);
      if UniqueUrls(feeds) {
        AppendKeepsUnique(feeds, f, url);
      }
      feeds := feeds + [f];
      return Added(f);
    }

    /** `remove_feed`: delete the first feed with this URL, keeping the others in order. */
    method RemoveFeed(url: string) returns (removed: Option<Feed>)
      modifies this
      ensures FindFeed(old(feeds), url).None? ==> removed.None? && feeds == old(feeds)
      ensures FindFeed(old(feeds), url).Some? ==>
        var i := FindFeed(old(feeds), url).value;
        removed == Some(old(feeds)[i]) && feeds == old(feeds)[..i] + old(feeds)[i + 1..]
      ensures UniqueUrls(old(feeds)) ==> UniqueUrls(feeds) && !Registered(feeds, url)
      ensures checking == old(checking) && queue == old(queue) && maxArticles == old(maxArticles)
    {
      var i := 0;
      while i < |feeds|
        invariant 0 <= i <= |feeds|
        invariant forall j :: 0 <= j < i ==> feeds[j].url != Some(url)
      {
        if feeds[i].url == Some(url) {
          var f := feeds[i];
          assert FindFeed(feeds, url) == Some(i);
          if UniqueUrls(feeds) {
            RemoveKeepsUnique(feeds, i);
          }
          feeds := feeds[..i] + feeds[i + 1..];
          return Some(f);
        }
        i := i + 1;
      }
      return None;
    }

    /** `get_feeds`. */
    method GetFeeds() returns (fs: seq<Feed>)
      ensures fs == feeds
    {
      return feeds;
    }
  }
}
