/**
 * The TypeScript poster's embed: the same colour table and category defaults as the
 * Python builder, a plainer truncation, and a footer that is always present.
 */
module PostArticle {
  import opened Wrappers
  import opened Text
  import opened Articles
  import MessageBuilder

  const DescriptionLength := 4000
  const DefaultFooter := "RSS Feed"
  const OtherColor := 0x95a5a6

  /** `s.substring(0, n)`: `n` is clamped into `[0, |s|]`. */
  function JsPrefix(s: string, n: int): (r: string)
    ensures |r| == (if n < 0 then 0 else if n > |s| then |s| else n)
    ensures r == s[..|r|]
  {
    if n < 0 then [] else if n > |s| then s else s[..n]
  }

  /** `${x}` in a template literal: the string, or the word JavaScript prints for a missing value. */
  function Template(x: Option<string>, absent: string): string {
    match x
    case Some(s) => s
    case None => absent
  }

  /** `truncate`: tags removed, cut to `max - 3` characters plus `'...'` when longer. */
  function TsTruncate(text: string, maxLength: int): (r: string)
    ensures text == [] ==> r == []
    ensures |RemoveTags(text)| <= maxLength ==> r == RemoveTags(text)
  {
    if text == [] then []
    else
      var plain := RemoveTags(text);
      if |plain| <= maxLength then plain else JsPrefix(plain, maxLength - 3) + Ellipsis
  }

  /**
   * From `max = 3` on the result fits in `max`; below that, an over-long text becomes
   * just `'...'`, because `substring` clamps where a Python slice would count from the end.
   */
  lemma TsTruncateBounded(text: string, maxLength: int)
    ensures 3 <= maxLength ==> |TsTruncate(text, maxLength)| <= maxLength
    ensures text != [] && maxLength <= 3 && |RemoveTags(text)| > maxLength ==> TsTruncate(text, maxLength) == Ellipsis
    ensures |RemoveTags(text)| > maxLength >= 3 ==>
      TsTruncate(text, maxLength) == RemoveTags(text)[..maxLength - 3] + Ellipsis
  {
  }

  /** `categoryColors[category] || categoryColors['other']`. */
  function TsCategoryColor(category: string): (c: int)
    ensures category in MessageBuilder.CategoryColors ==> c == MessageBuilder.CategoryColors[category]
    ensures category !in MessageBuilder.CategoryColors ==> c == OtherColor
  {
    if category in MessageBuilder.CategoryColors && MessageBuilder.CategoryColors[category] != 0 then MessageBuilder.CategoryColors[category]
    else MessageBuilder.CategoryColors["other"]
  }

  /** An unknown category is grey here, where the Python builder falls back to `embed_color` or blue. */
  lemma UnknownCategoryColors()
    ensures TsCategoryColor("gaming") == OtherColor
    ensures MessageBuilder.CategoryColor("gaming", None) == MessageBuilder.DefaultColor
    ensures OtherColor != MessageBuilder.DefaultColor
  {
  }

  /** The category an article is posted under: its own when truthy, else `other`. */
  function CategoryOf(a: Article): string {
    if Truthy(a.category) then a.category.value else MessageBuilder.DefaultCategory
  }

  /** The embed `postArticle` sends; `toLocale` is `new Date(published).toLocaleString('ja-JP')`. */
  function PostEmbed(a: Article, toLocale: string -> string): MessageBuilder.Embed {
    var info := a.categoryInfo.GetOr(OtherCategory);
    var emoji := Template(info.emoji, "undefined");
    MessageBuilder.Embed(
      emoji + " " + Template(a.entry.title, "null"),
      a.entry.link,
      TsCategoryColor(CategoryOf(a)),
      if a.entry.summary != [] then a.entry.summary else TsTruncate(a.entry.content, DescriptionLength),
      MessageBuilder.FieldIf(a.classified == Some(true), MessageBuilder.CategoryLabel, emoji + " " + Template(info.jpName, "undefined"))
      + MessageBuilder.FieldIf(Truthy(a.entry.published), MessageBuilder.PublishedLabel, toLocale(a.entry.published.GetOr(""))),
      if Truthy(a.entry.image) then a.entry.image else None,
      Some(if Truthy(a.entry.feedTitle) then a.entry.feedTitle.value else DefaultFooter))
  }

  /**
   * The poster's embed: always a non-empty footer (the feed title or `RSS Feed`), the category
   * field exactly when `classified` is true, a thumbnail exactly when there is an image,
   * and without a summary a description of at most 4000 characters.
   */
  lemma PostEmbedSpec(a: Article, toLocale: string -> string)
    ensures var e := PostEmbed(a, toLocale);
      e.footer.Some? && e.footer.value != []
      && ((exists k :: 0 <= k < |e.fields| && e.fields[k].name == MessageBuilder.CategoryLabel) <==> a.classified == Some(true))
      && (e.thumbnail.Some? <==> Truthy(a.entry.image))
      && (a.entry.summary != [] ==> e.description == a.entry.summary)
      && (a.entry.summary == [] ==> e.description == TsTruncate(a.entry.content, DescriptionLength) && |e.description| <= DescriptionLength)
      && (a.categoryInfo.None? ==> StartsWith(e.title, "📌 "))
  {
    var e := PostEmbed(a, toLocale);
    var info := a.categoryInfo.GetOr(OtherCategory);
    var emoji := Template(info.emoji, "undefined");
    var f1 := MessageBuilder.FieldIf(a.classified == Some(true), MessageBuilder.CategoryLabel, emoji + " " + Template(info.jpName, "undefined"));
    var f2 := MessageBuilder.FieldIf(Truthy(a.entry.published), MessageBuilder.PublishedLabel, toLocale(a.entry.published.GetOr("")));
    assert e.fields == f1 + f2;
    assert MessageBuilder.PublishedLabel != MessageBuilder.CategoryLabel;
    if a.classified == Some(true) {
      assert e.fields[0].name == MessageBuilder.CategoryLabel;
    } else {
      assert e.fields == f2;
    }
    TsTruncateBounded(a.entry.content, DescriptionLength);
    assert e.title == (emoji + " ") + Template(a.entry.title, "null");
  }
}
