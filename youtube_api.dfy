/**
 * The YouTube playlist reader: one `playlistItems` response mapped to the same
 * `{"feed", "entries"}` shape the RSS reader returns.  The HTTP call is a parameter:
 * its status and the snippets of its `items`.
 */
module YouTube {
  import opened Wrappers
  import opened Articles

  /**
   * The fields read from one item's `snippet`; a missing key (or a missing `snippet`,
   * `resourceId` or `thumbnails.default`) is `None`.
   */
  datatype Snippet = Snippet(
    videoId: Option<string>,
    title: Option<string>,
    publishedAt: Option<string>,
    channelTitle: Option<string>,
    description: Option<string>,
    thumbnailUrl: Option<string>)

  const WatchPrefix := "https://www.youtube.com/watch?v="
  const DefaultFeedTitle := "YouTube Playlist"

  /** The entry of an item with a video id. */
  function VideoEntry(sn: Snippet): (e: Entry)
    requires Truthy(sn.videoId)
  {
    Entry(sn.title, WatchPrefix + sn.videoId.value, sn.publishedAt, sn.channelTitle,
          sn.description.GetOr(""), sn.description.GetOr(""), [],
          if Truthy(sn.thumbnailUrl) then sn.thumbnailUrl else None, None, None)
  }

  /** The entries of the items that have a video id, in order. */
  function VideoEntries(items: seq<Snippet>): (r: seq<Entry>)
    ensures |r| <= |items|
  {
    if items == [] then []
    else
      var sn := items[|items| - 1];
      VideoEntries(items[..|items| - 1]) + (if Truthy(sn.videoId) then [VideoEntry(sn)] else [])
  }

  /** The feed title: the first item's channel, else `YouTube Playlist`. */
  function PlaylistTitle(items: seq<Snippet>): string {
    if items == [] then DefaultFeedTitle else items[0].channelTitle.GetOr(DefaultFeedTitle)
  }

  /** Every entry is the entry of some item that has a video id, and links to that video. */
  lemma {:induction false} VideoEntriesFromItems(items: seq<Snippet>)
    ensures forall k :: 0 <= k < |VideoEntries(items)| ==>
      exists i :: 0 <= i < |items| && Truthy(items[i].videoId) && VideoEntries(items)[k] == VideoEntry(items[i])
  {
    if items != [] {
      var init := items[..|items| - 1];
      VideoEntriesFromItems(init);
      var r := VideoEntries(items);
      var ri := VideoEntries(init);
      var sn := items[|items| - 1];
      assert r == ri + (if Truthy(sn.videoId) then [VideoEntry(sn)] else []);
      forall k | 0 <= k < |r|
        ensures exists i :: 0 <= i < |items| && Truthy(items[i].videoId) && r[k] == VideoEntry(items[i])
      {
        if k < |ri| {
          assert r[k] == ri[k];
          assert exists i :: 0 <= i < |init| && Truthy(init[i].videoId) && ri[k] == VideoEntry(init[i]);
          var i :| 0 <= i < |init| && Truthy(init[i].videoId) && ri[k] == VideoEntry(init[i]);
          assert items[i] == init[i];
        } else {
          assert r[k] == VideoEntry(items[|items| - 1]);
        }
      }
    } else {
      assert VideoEntries(items) == [];
    }
  }

  /** An item is dropped only for lacking a video id: when all have one, each gives its entry in place. */
  lemma {:induction false} VideoEntriesComplete(items: seq<Snippet>)
    requires forall i :: 0 <= i < |items| ==> Truthy(items[i].videoId)
    ensures |VideoEntries(items)| == |items|
    ensures forall i :: 0 <= i < |items| ==> VideoEntries(items)[i] == VideoEntry(items[i])
  {
    if items != [] {
      VideoEntriesComplete(items[..|items| - 1]);
    }
  }

  /** One item gives its entry exactly when it has a video id. */
  lemma VideoEntriesOne(sn: Snippet)
    ensures VideoEntries([sn]) == if Truthy(sn.videoId) then [VideoEntry(sn)] else []
  {
    assert [sn][..0] == [];
  }

  /** Items are converted one by one, in order: the conversion distributes over `+`. */
  lemma {:induction false} VideoEntriesAppend(a: seq<Snippet>, b: seq<Snippet>)
    ensures VideoEntries(a + b) == VideoEntries(a) + VideoEntries(b)
  {
    if b == [] {
      assert a + b == a;
    } else {
      var init := b[..|b| - 1];
      assert (a + b)[..|a + b| - 1] == a + init;
      assert (a + b)[|a + b| - 1] == b[|b| - 1];
      VideoEntriesAppend(a, init);
    }
  }

  /** Every entry's link is a watch URL, and it carries no media list. */
  lemma VideoEntryShape(sn: Snippet)
    requires Truthy(sn.videoId)
    ensures var e := VideoEntry(sn);
      e.link == WatchPrefix + sn.videoId.value && |e.link| > |WatchPrefix| && e.media == []
      && (e.image.Some? <==> Truthy(sn.thumbnailUrl))
      && e.summary == e.content
  {
  }

  /** `fetch_playlist`: `None` for a status other than 200, else the feed title and the entries. */
  method FetchPlaylist(status: int, items: seq<Snippet>) returns (r: Option<FeedData>)
    ensures status != 200 <==> r.None?
    ensures r.Some? ==> r.value == FeedData(FeedMeta(PlaylistTitle(items), None, None, None, None), VideoEntries(items))
  {
    if status != 200 {
      return None;
    }
    var entries: seq<Entry> := [];
    var i := 0;
    while i < |items|
      invariant 0 <= i <= |items|
      invariant entries == VideoEntries(items[..i])
    {
      var sn := items[i];
      assert items[..i + 1][..i] == items[..i];
      i := i + 1;
      if !Truthy(sn.videoId) {
        continue;
      }
      var image := None;
      if Truthy(sn.thumbnailUrl) {
        image := sn.thumbnailUrl;
      }
      var entry := Entry(sn.title, WatchPrefix + sn.videoId.value, sn.publishedAt, sn.channelTitle,
                         sn.description.GetOr(""), sn.description.GetOr(""), [], image, None, None);
      entries := entries + [entry];
    }
    assert items[..i] == items;
    var title := DefaultFeedTitle;
    if items != [] {
      title := items[0].channelTitle.GetOr(title);
    }
    return Some(FeedData(FeedMeta(title, None, None, None, None), entries));
  }
}
