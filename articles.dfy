/**
 * The records the pipeline passes around: feed entries, feed metadata, processed
 * articles, category descriptions and feed subscriptions.  A Python dictionary key
 * that may be absent, or may hold `None`, is an `Option`.
 */
module Articles {
  import opened Wrappers

  /** One media reference of an entry: an enclosure, a `media:content` or a thumbnail. */
  datatype Media = Media(url: string, mtype: string)

  /**
   * A normalised feed entry (the "canonical article").  `title`, `published` and
   * `author` are optional because the YouTube mapping copies possibly-missing snippet
   * fields; `image` is only set by that mapping; `feedTitle` and `feedUrl` are
   * attached when the entry is selected as new.
   */
  datatype Entry = Entry(
    title: Option<string>,
    link: string,
    published: Option<string>,
    author: Option<string>,
    summary: string,
    content: string,
    media: seq<Media>,
    image: Option<string>,
    feedTitle: Option<string>,
    feedUrl: Option<string>)

  /** Feed-level metadata; the YouTube mapping fills in only the title. */
  datatype FeedMeta = FeedMeta(
    title: string,
    link: Option<string>,
    description: Option<string>,
    language: Option<string>,
    updated: Option<string>)

  /** The dictionary `{"feed": ..., "entries": [...]}` both feed readers return. */
  datatype FeedData = FeedData(meta: FeedMeta, entries: seq<Entry>)

  /** A configured category: `{"name", "jp_name", "emoji"}`, each key possibly missing. */
  datatype Category = Category(name: Option<string>, jpName: Option<string>, emoji: Option<string>)

  /** The category description used when no configured category matches. */
  const OtherCategory: Category := Category(Some("other"), Some("その他"), Some("📌"))

  /** `cats[k]` is named `name` and no category before it is. */
  predicate FirstNamed(cats: seq<Category>, name: string, k: int) {
    0 <= k < |cats| && cats[k].name == Some(name) && forall j :: 0 <= j < k ==> cats[j].name != Some(name)
  }

  /** The first configured category with the given name, else the built-in `other` entry. */
  function CategoryInfo(cats: seq<Category>, name: string): (info: Category)
    ensures info == OtherCategory || info.name == Some(name)
    ensures info != OtherCategory ==> info in cats
    ensures (exists k :: 0 <= k < |cats| && cats[k].name == Some(name)) ==> info.name == Some(name)
    ensures cats != [] && cats[0].name == Some(name) ==> info == cats[0]
  {
    if cats == [] then OtherCategory
    else if cats[0].name == Some(name) then cats[0]
    else
      var rest := CategoryInfo(cats[1..], name);
      assert forall k :: 1 <= k < |cats| ==> cats[k] == cats[1..][k - 1];
      rest
  }

  /** When some category has the name, the result is the first such category; otherwise `other`. */
  lemma {:induction false} CategoryInfoFirst(cats: seq<Category>, name: string)
    ensures (exists k :: 0 <= k < |cats| && cats[k].name == Some(name)) ==>
      exists k :: FirstNamed(cats, name, k) && cats[k] == CategoryInfo(cats, name)
    ensures (forall k :: 0 <= k < |cats| ==> cats[k].name != Some(name)) ==> CategoryInfo(cats, name) == OtherCategory
    decreases |cats|
  {
    if cats != [] {
      var tail := cats[1..];
      CategoryInfoFirst(tail, name);
      if cats[0].name == Some(name) {
        assert FirstNamed(cats, name, 0);
      } else {
        assert CategoryInfo(cats, name) == CategoryInfo(tail, name);
        if exists k :: 0 <= k < |cats| && cats[k].name == Some(name) {
          var m :| 0 <= m < |cats| && cats[m].name == Some(name);
          assert tail[m - 1].name == Some(name);
          var k :| FirstNamed(tail, name, k) && tail[k] == CategoryInfo(tail, name);
          assert FirstNamed(cats, name, k + 1) by {
            forall j | 0 <= j < k + 1
              ensures cats[j].name != Some(name)
            {
              if j > 0 {
                assert cats[j] == tail[j - 1];
              }
            }
          }
        } else {
          forall k | 0 <= k < |tail|
            ensures tail[k].name != Some(name)
          {
            assert tail[k] == cats[k + 1];
          }
        }
      }
    }
  }

  /**
   * An entry after AI processing: the (possibly retitled and summarised) entry plus the
   * keys the processor adds.  `None` is a key the processor did not set.
   */
  datatype Article = Article(
    entry: Entry,
    summarized: Option<bool>,
    category: Option<string>,
    classified: Option<bool>,
    categoryInfo: Option<Category>,
    keywordsEn: Option<string>,
    aiProcessed: Option<bool>,
    aiError: Option<string>,
    original: Option<Entry>)

  /** An article before processing: no processor key is set. */
  function Unprocessed(e: Entry): (a: Article)
    ensures a.entry == e && a.summarized.None? && a.classified.None? && a.aiProcessed.None?
  {
    Article(e, None, None, None, None, None, None, None, None)
  }

  /** A feed subscription as stored in the configuration's `feeds` list. */
  datatype Feed = Feed(
    url: Option<string>,
    title: Option<string>,
    channelId: Option<string>,
    addedAt: Option<string>,
    summaryType: Option<string>)

  /** Python truthiness of an optional string: present and non-empty. */
  predicate Truthy(s: Option<string>) {
    s.Some? && s.value != []
  }
}
