/**
 * The feed reader: a retry loop around an HTTP fetch and `feedparser.parse`, and the
 * conversion of the parser's objects into the entry records.  The network and the
 * XML parser are parameters: `fetch(k)` is what attempt `k` yields, and `urlOk` is
 * whether `urlparse` finds both a scheme and a host.
 */
module FeedParser {
  import opened Wrappers
  import opened Text
  import opened Articles
  import Helpers

  /** An `enclosure` or `media:content` element; an absent attribute is `None`. */
  datatype RawMedia = RawMedia(mtype: Option<string>, url: Option<string>)

  /**
   * One entry as `feedparser` sees it; an absent attribute is `None`.  `content` is
   * the list of content values (`Some([])` is a present but empty list).  A missing
   * `enclosures`, `media_content` or `media_thumbnail` list is the empty list.
   */
  datatype RawEntry = RawEntry(
    title: Option<string>,
    link: Option<string>,
    published: Option<string>,
    updated: Option<string>,
    author: Option<string>,
    summary: Option<string>,
    content: Option<seq<string>>,
    enclosures: seq<RawMedia>,
    mediaContent: seq<RawMedia>,
    thumbnails: seq<Option<string>>)

  /** The parsed document: channel attributes and entries. */
  datatype RawFeed = RawFeed(
    title: Option<string>,
    link: Option<string>,
    description: Option<string>,
    language: Option<string>,
    updated: Option<string>,
    entries: seq<RawEntry>)

  /** What one attempt of the retry loop meets. */
  datatype Attempt =
    | NonOk(status: int)     // the response status is not 200
    | Raised                 // the request or the parse raised
    | Fetched(feed: RawFeed) // a 200 response, parsed

  /** Which document the retry loop settles on, if any, and how many attempts it made. */
  datatype LoopOutcome = LoopOutcome(doc: Option<RawFeed>, attempts: nat)

  const ThumbnailType := "image/thumbnail"

  /** The enclosures that have both `type` and `href`, in order. */
  function EnclosureMedia(xs: seq<RawMedia>): (r: seq<Media>)
    ensures |r| <= |xs|
  {
    if xs == [] then []
    else
      var x := xs[|xs| - 1];
      EnclosureMedia(xs[..|xs| - 1]) + (if x.mtype.Some? && x.url.Some? then [Media(x.url.value, x.mtype.value)] else [])
  }

  /** The thumbnails that have a `url`, typed `image/thumbnail`. */
  function ThumbnailMedia(xs: seq<Option<string>>): (r: seq<Media>)
    ensures |r| <= |xs|
  {
    if xs == [] then []
    else
      var x := xs[|xs| - 1];
      ThumbnailMedia(xs[..|xs| - 1]) + (if x.Some? then [Media(x.value, ThumbnailType)] else [])
  }

  /** The media list of an entry: enclosures, then `media:content`, then thumbnails. */
  function MediaOf(e: RawEntry): seq<Media> {
    EnclosureMedia(e.enclosures) + EnclosureMedia(e.mediaContent) + ThumbnailMedia(e.thumbnails)
  }

  /** The entry record with the defaults of `_convert_feed_to_dict`. */
  function ConvertEntry(e: RawEntry): Entry {
    var summary := Helpers.CleanHtml(e.summary.GetOr(""));
    var content := match e.content
      case None => summary
      case Some(values) => Helpers.CleanHtml(if values == [] then "" else values[0]);
    Entry(
      Some(e.title.GetOr("No Title")),
      e.link.GetOr(""),
      Some(if e.published.Some? then e.published.value else e.updated.GetOr("")),
      Some(e.author.GetOr("Unknown Author")),
      summary,
      content,
      MediaOf(e),
      None, None, None)
  }

  /** The channel metadata with its defaults. */
  function ConvertMeta(f: RawFeed): FeedMeta {
    FeedMeta(f.title.GetOr("Unknown Feed"), Some(f.link.GetOr("")), Some(f.description.GetOr("")),
             Some(f.language.GetOr("en")), Some(f.updated.GetOr("")))
  }

  /** The converted entries, in document order. */
  function ConvertEntries(es: seq<RawEntry>): (r: seq<Entry>)
    ensures |r| == |es|
  {
    if es == [] then [] else ConvertEntries(es[..|es| - 1]) + [ConvertEntry(es[|es| - 1])]
  }

  lemma ConvertEntriesSnoc(es: seq<RawEntry>, i: nat)
    requires i < |es|
    ensures ConvertEntries(es[..i + 1]) == ConvertEntries(es[..i]) + [ConvertEntry(es[i])]
  {
    assert es[..i + 1][..i] == es[..i];
  }

  /** The whole conversion. */
  function ConvertedFeed(f: RawFeed): FeedData {
    FeedData(ConvertMeta(f), ConvertEntries(f.entries))
  }

  /** The element-wise view of the conversion: entry `i` comes from raw entry `i`. */
  lemma {:induction false} ConvertEntriesAt(es: seq<RawEntry>, i: nat)
    requires i < |es|
    ensures ConvertEntries(es)[i] == ConvertEntry(es[i])
    decreases |es|
  {
    if i < |es| - 1 {
      ConvertEntriesAt(es[..|es| - 1], i);
    }
  }

  /** An element with both attributes is always kept, so a complete list loses nothing. */
  lemma {:induction false} EnclosureMediaComplete(xs: seq<RawMedia>)
    requires forall i :: 0 <= i < |xs| ==> xs[i].mtype.Some? && xs[i].url.Some?
    ensures |EnclosureMedia(xs)| == |xs|
    ensures forall i :: 0 <= i < |xs| ==> EnclosureMedia(xs)[i] == Media(xs[i].url.value, xs[i].mtype.value)
  {
    if xs != [] {
      EnclosureMediaComplete(xs[..|xs| - 1]);
    }
  }

  /** Every kept media reference carries the URL and type of some raw element of its list. */
  lemma {:induction false} EnclosureMediaFrom(xs: seq<RawMedia>)
    ensures forall k :: 0 <= k < |EnclosureMedia(xs)| ==>
      exists i :: 0 <= i < |xs| && xs[i].url == Some(EnclosureMedia(xs)[k].url) && xs[i].mtype == Some(EnclosureMedia(xs)[k].mtype)
  {
    if xs != [] {
      var init := xs[..|xs| - 1];
      EnclosureMediaFrom(init);
      var r := EnclosureMedia(xs);
      var ri := EnclosureMedia(init);
      var x := xs[|xs| - 1];
      assert r == ri + (if x.mtype.Some? && x.url.Some? then [Media(x.url.value, x.mtype.value)] else []);
      forall k | 0 <= k < |r|
        ensures exists i :: 0 <= i < |xs| && xs[i].url == Some(r[k].url) && xs[i].mtype == Some(r[k].mtype)
      {
        if k < |ri| {
          var i :| 0 <= i < |init| && init[i].url == Some(ri[k].url) && init[i].mtype == Some(ri[k].mtype);
          assert xs[i] == init[i];
        } else {
          assert x.url == Some(r[k].url) && x.mtype == Some(r[k].mtype);
        }
      }
    } else {
      assert EnclosureMedia(xs) == [];
    }
  }

  /** Every thumbnail reference is typed `image/thumbnail`. */
  lemma {:induction false} ThumbnailMediaTyped(xs: seq<Option<string>>)
    ensures forall k :: 0 <= k < |ThumbnailMedia(xs)| ==> ThumbnailMedia(xs)[k].mtype == ThumbnailType
  {
    if xs != [] {
      ThumbnailMediaTyped(xs[..|xs| - 1]);
    }
  }

  /** One enclosure gives its reference exactly when it has both `type` and `href`. */
  lemma EnclosureMediaOne(x: RawMedia)
    ensures EnclosureMedia([x]) == if x.mtype.Some? && x.url.Some? then [Media(x.url.value, x.mtype.value)] else []
  {
    assert [x][..0] == [];
  }

  /** Enclosures are filtered element by element, in order: the filter distributes over `+`. */
  lemma {:induction false} EnclosureMediaAppend(a: seq<RawMedia>, b: seq<RawMedia>)
    ensures EnclosureMedia(a + b) == EnclosureMedia(a) + EnclosureMedia(b)
  {
    if b == [] {
      assert a + b == a;
    } else {
      var init := b[..|b| - 1];
      assert (a + b)[..|a + b| - 1] == a + init;
      assert (a + b)[|a + b| - 1] == b[|b| - 1];
      EnclosureMediaAppend(a, init);
    }
  }

  /** One thumbnail gives a reference exactly when it has a `url`. */
  lemma ThumbnailMediaOne(u: Option<string>)
    ensures ThumbnailMedia([u]) == if u.Some? then [Media(u.value, ThumbnailType)] else []
  {
    assert [u][..0] == [];
  }

  /** Thumbnails are filtered element by element, in order: the filter distributes over `+`. */
  lemma {:induction false} ThumbnailMediaAppend(a: seq<Option<string>>, b: seq<Option<string>>)
    ensures ThumbnailMedia(a + b) == ThumbnailMedia(a) + ThumbnailMedia(b)
  {
    if b == [] {
      assert a + b == a;
    } else {
      var init := b[..|b| - 1];
      assert (a + b)[..|a + b| - 1] == a + init;
      assert (a + b)[|a + b| - 1] == b[|b| - 1];
      ThumbnailMediaAppend(a, init);
    }
  }

  /** Summaries and contents come out tag-free in the sense of `clean_html`: stripped, single-spaced, no longer than the raw text. */
  lemma ConvertEntryText(e: RawEntry)
    ensures var c := ConvertEntry(e);
      Stripped(c.summary) && NoAdjacent(c.summary, IsSpace) && |c.summary| <= |e.summary.GetOr("")|
      && Stripped(c.content) && NoAdjacent(c.content, IsSpace)
    ensures e.content.None? ==> ConvertEntry(e).content == ConvertEntry(e).summary
  {
    Helpers.CleanHtmlNormalised(e.summary.GetOr(""));
    if e.content.Some? {
      Helpers.CleanHtmlNormalised(if e.content.value == [] then "" else e.content.value[0]);
    }
  }

  /** The retry loop from attempt `k` on. */
  function ParseFrom(urlOk: bool, maxRetries: int, fetch: nat -> Attempt, k: nat): (r: LoopOutcome)
    decreases maxRetries - k
  {
    if k >= maxRetries then LoopOutcome(None, k)
    else if !urlOk then LoopOutcome(None, k)
    else match fetch(k)
      case NonOk(_) => ParseFrom(urlOk, maxRetries, fetch, k + 1)
      case Raised => ParseFrom(urlOk, maxRetries, fetch, k + 1)
      case Fetched(f) =>
        if f.entries == [] then LoopOutcome(None, k + 1) else LoopOutcome(Some(f), k + 1)
  }

  /** Whether attempt `k` is one the loop retries after. */
  predicate Retried(a: Attempt) {
    a.NonOk? || a.Raised?
  }

  /** The loop never makes more than `max_retries` attempts, and makes none for a malformed URL. */
  lemma {:induction false} AttemptsBounded(urlOk: bool, maxRetries: int, fetch: nat -> Attempt, k: nat)
    requires k <= maxRetries
    ensures k <= ParseFrom(urlOk, maxRetries, fetch, k).attempts <= maxRetries
    ensures urlOk && k < maxRetries ==> ParseFrom(urlOk, maxRetries, fetch, k).attempts > k
    ensures !urlOk ==> ParseFrom(urlOk, maxRetries, fetch, k) == LoopOutcome(None, k)
    decreases maxRetries - k
  {
    if k < maxRetries && urlOk && Retried(fetch(k)) {
      AttemptsBounded(urlOk, maxRetries, fetch, k + 1);
    }
  }

  /** Every attempt before the last one was retried, and a loop that made an attempt had a well-formed URL. */
  lemma {:induction false} AttemptsBeforeLastRetried(urlOk: bool, maxRetries: int, fetch: nat -> Attempt, k: nat)
    requires k <= maxRetries
    ensures var n := ParseFrom(urlOk, maxRetries, fetch, k).attempts;
      (n > k ==> urlOk) && forall j :: k <= j < n - 1 ==> Retried(fetch(j))
    decreases maxRetries - k
  {
    if k < maxRetries && urlOk && Retried(fetch(k)) {
      assert ParseFrom(urlOk, maxRetries, fetch, k) == ParseFrom(urlOk, maxRetries, fetch, k + 1);
      AttemptsBeforeLastRetried(urlOk, maxRetries, fetch, k + 1);
    } else {
      assert ParseFrom(urlOk, maxRetries, fetch, k).attempts <= k + 1;
    }
  }

  /**
   * A feed comes back exactly when the last attempt fetched a document with entries,
   * and it is that document converted.
   */
  lemma {:induction false} FeedFromLastAttempt(urlOk: bool, maxRetries: int, fetch: nat -> Attempt, k: nat)
    requires k <= maxRetries
    ensures var r := ParseFrom(urlOk, maxRetries, fetch, k);
      r.attempts > k ==>
        (r.doc.Some? <==> fetch(r.attempts - 1).Fetched? && fetch(r.attempts - 1).feed.entries != [])
        && (r.doc.Some? ==> r.doc.value == fetch(r.attempts - 1).feed)
    decreases maxRetries - k
  {
    if k < maxRetries && urlOk && Retried(fetch(k)) {
      assert ParseFrom(urlOk, maxRetries, fetch, k) == ParseFrom(urlOk, maxRetries, fetch, k + 1);
      if k + 1 == maxRetries {
        assert ParseFrom(urlOk, maxRetries, fetch, k + 1) == LoopOutcome(None, k + 1);
      } else {
        FeedFromLastAttempt(urlOk, maxRetries, fetch, k + 1);
        AttemptsBounded(urlOk, maxRetries, fetch, k + 1);
        assert ParseFrom(urlOk, maxRetries, fetch, k + 1).attempts > k + 1;
      }
    }
  }

  /** When every attempt is retried, the loop gives up after `max_retries` of them. */
  lemma {:induction false} ParseGivesUp(maxRetries: int, fetch: nat -> Attempt, k: nat)
    requires k <= maxRetries
    requires forall j :: k <= j < maxRetries ==> Retried(fetch(j))
    ensures ParseFrom(true, maxRetries, fetch, k) == LoopOutcome(None, maxRetries)
    decreases maxRetries - k
  {
    if k < maxRetries {
      ParseGivesUp(maxRetries, fetch, k + 1);
    }
  }

  /** A document without entries is a failure that is not retried. */
  lemma EmptyFeedNotRetried(maxRetries: int, fetch: nat -> Attempt, k: nat)
    requires k < maxRetries && fetch(k).Fetched? && fetch(k).feed.entries == []
    ensures ParseFrom(true, maxRetries, fetch, k) == LoopOutcome(None, k + 1)
  {
  }

  /** The media loops of `_convert_feed_to_dict` over one entry. */
  method CollectMedia(e: RawEntry) returns (media: seq<Media>)
    ensures media == MediaOf(e)
  {
    media := [];
    var i := 0;
    while i < |e.enclosures|
      invariant 0 <= i <= |e.enclosures|
      invariant media == EnclosureMedia(e.enclosures[..i])
    {
      var x := e.enclosures[i];
      assert e.enclosures[..i + 1][..i] == e.enclosures[..i];
      if x.mtype.Some? && x.url.Some? {
        media := media + [Media(x.url.value, x.mtype.value)];
      }
      i := i + 1;
    }
    assert e.enclosures[..i] == e.enclosures;
    var head := media;
    media := [];
    i := 0;
    while i < |e.mediaContent|
      invariant 0 <= i <= |e.mediaContent|
      invariant media == EnclosureMedia(e.mediaContent[..i])
    {
      var x := e.mediaContent[i];
      assert e.mediaContent[..i + 1][..i] == e.mediaContent[..i];
      if x.mtype.Some? && x.url.Some? {
        media := media + [Media(x.url.value, x.mtype.value)];
      }
      i := i + 1;
    }
    assert e.mediaContent[..i] == e.mediaContent;
    head := head + media;
    media := [];
    i := 0;
    while i < |e.thumbnails|
      invariant 0 <= i <= |e.thumbnails|
      invariant media == ThumbnailMedia(e.thumbnails[..i])
    {
      var x := e.thumbnails[i];
      assert e.thumbnails[..i + 1][..i] == e.thumbnails[..i];
      if x.Some? {
        media := media + [Media(x.value, ThumbnailType)];
      }
      i := i + 1;
    }
    assert e.thumbnails[..i] == e.thumbnails;
    media := head + media;
  }

  /** The body of the entry loop: copy the attributes with their defaults, then collect the media. */
  method ConvertOneEntry(e: RawEntry) returns (entry: Entry)
    ensures entry == ConvertEntry(e)
  {
    var summary := Helpers.CleanHtml(e.summary.GetOr(""));
    var content := summary;
    if e.content.Some? {
      content := Helpers.CleanHtml(if e.content.value == [] then "" else e.content.value[0]);
    }
    var published := if e.published.Some? then e.published.value else e.updated.GetOr("");
    var media := CollectMedia(e);
    entry := Entry(Some(e.title.GetOr("No Title")), e.link.GetOr(""), Some(published),
                   Some(e.author.GetOr("Unknown Author")), summary, content, media, None, None, None);
  }

  /** `_convert_feed_to_dict`: the channel metadata, then one record per entry in order. */
  method ConvertFeedToDict(f: RawFeed) returns (d: FeedData)
    ensures d == ConvertedFeed(f)
  {
    var entries: seq<Entry> := [];
    var i := 0;
    while i < |f.entries|
      invariant 0 <= i <= |f.entries|
      invariant entries == ConvertEntries(f.entries[..i])
    {
      var entry := ConvertOneEntry(f.entries[i]);
      ConvertEntriesSnoc(f.entries, i);
      entries := entries + [entry];
      i := i + 1;
    }
    assert f.entries[..i] == f.entries;
    d := FeedData(ConvertMeta(f), entries);
  }

  /**
   * `parse_feed`: retry while attempts remain; stop at a malformed URL, an empty
   * document or a converted feed.  `attempts` is how many fetches it made.
   */
  method ParseFeed(urlOk: bool, maxRetries: int, fetch: nat -> Attempt) returns (feed: Option<FeedData>, attempts: nat)
    ensures attempts == ParseFrom(urlOk, maxRetries, fetch, 0).attempts
    ensures feed.Some? <==> ParseFrom(urlOk, maxRetries, fetch, 0).doc.Some?
    ensures feed.Some? ==> feed.value == ConvertedFeed(ParseFrom(urlOk, maxRetries, fetch, 0).doc.value)
  {
    var retries: nat := 0;
    while retries < maxRetries
      invariant ParseFrom(urlOk, maxRetries, fetch, retries) == ParseFrom(urlOk, maxRetries, fetch, 0)
      decreases maxRetries - retries
    {
      if !urlOk {
        return None, retries;
      }
      match fetch(retries) {
        case NonOk(_) =>
          retries := retries + 1;
        case Raised =>
          retries := retries + 1;
        case Fetched(f) =>
          if f.entries == [] {
            return None, retries + 1;
          }
          var d := ConvertFeedToDict(f);
          return Some(d), retries + 1;
      }
    }
    return None, retries;
  }
}
