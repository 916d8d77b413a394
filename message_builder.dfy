/**
 * The Discord message builder: one embed per processed article, with its title,
 * description, fields, thumbnail and footer chosen from the article's AI flags.
 */
module MessageBuilder {
  import opened Wrappers
  import opened Text
  import opened Articles
  import Helpers

  /** One `add_field` call: name and value (every field is inline). */
  datatype Field = Field(name: string, value: string)

  /** The parts of a `discord.Embed` the builder sets; `None` is a part left unset. */
  datatype Embed = Embed(
    title: string,
    url: string,
    color: int,
    description: string,
    fields: seq<Field>,
    thumbnail: Option<string>,
    footer: Option<string>)

  /** The configuration keys the builder reads; `None` is an absent key. */
  datatype BuilderConfig = BuilderConfig(useThumbnails: Option<bool>, embedColor: Option<int>, categories: seq<Category>)

  const DefaultEmoji := "📌"
  const DefaultCategory := "other"
  const DefaultColor := 0x3498db
  const ContentLength := 300
  const FeedLabel := "フィード"
  const AuthorLabel := "著者"
  const CategoryLabel := "カテゴリ"
  const PublishedLabel := "公開日時"
  const SummarizedMark := "要約済み"
  const ClassifiedMark := "分類済み"
  const FooterPrefix := "AI処理: "

  /** The fixed colour of each of the eight built-in categories. */
  const CategoryColors: map<string, int> := map[
    "technology" := 0x3498db, "business" := 0xf1c40f, "politics" := 0xe74c3c,
    "entertainment" := 0x9b59b6, "sports" := 0x2ecc71, "science" := 0x1abc9c,
    "health" := 0xe67e22, "other" := 0x95a5a6]

  /** `_truncate_content`: the cleaned text, cut to `max - 3` characters plus `"..."` when longer. */
  function TruncateContent(content: string, maxLength: int): (r: string)
  {
    Ellipsize(Helpers.CleanHtml(content), maxLength)
  }

  /** From `max = 3` on the text fits, keeps no edge or doubled whitespace when uncut, and is cut only when longer. */
  lemma TruncateContentSpec(content: string, maxLength: int)
    requires 3 <= maxLength
    ensures |TruncateContent(content, maxLength)| <= maxLength
    ensures |Helpers.CleanHtml(content)| <= maxLength ==> TruncateContent(content, maxLength) == Helpers.CleanHtml(content)
    ensures |Helpers.CleanHtml(content)| > maxLength ==>
      TruncateContent(content, maxLength)[maxLength - 3..] == Ellipsis
      && TruncateContent(content, maxLength)[..maxLength - 3] == Helpers.CleanHtml(content)[..maxLength - 3]
    ensures |Helpers.CleanHtml(content)| <= maxLength ==>
      Stripped(TruncateContent(content, maxLength)) && NoAdjacent(TruncateContent(content, maxLength), IsSpace)
  {
    Helpers.CleanHtmlNormalised(content);
  }

  /** `_get_category_color`: the table colour, else `embed_color`, else blue. */
  function CategoryColor(category: string, embedColor: Option<int>): (c: int)
    ensures category in CategoryColors ==> c == CategoryColors[category]
    ensures category !in CategoryColors ==> c == embedColor.GetOr(DefaultColor)
  {
    if category in CategoryColors then CategoryColors[category] else embedColor.GetOr(DefaultColor)
  }

  /** The footer: the marks of the flags that are set, joined by `", "`; none when neither is set. */
  function Footer(summarized: bool, classified: bool): (f: Option<string>)
  {
    var marks := (if summarized then [SummarizedMark] else []) + (if classified then [ClassifiedMark] else []);
    if marks == [] then None else Some(FooterPrefix + JoinWith(marks, ", "))
  }

  lemma FooterCases()
    ensures Footer(false, false) == None
    ensures Footer(true, false) == Some(FooterPrefix + SummarizedMark)
    ensures Footer(false, true) == Some(FooterPrefix + ClassifiedMark)
    ensures Footer(true, true) == Some(FooterPrefix + SummarizedMark + ", " + ClassifiedMark)
  {
    assert [SummarizedMark] + [] == [SummarizedMark];
    assert [] + [ClassifiedMark] == [ClassifiedMark];
    assert [SummarizedMark] + [ClassifiedMark] == [SummarizedMark, ClassifiedMark];
    assert [SummarizedMark, ClassifiedMark][1..] == [ClassifiedMark];
    assert JoinWith([ClassifiedMark], ", ") == ClassifiedMark;
    assert JoinWith([SummarizedMark, ClassifiedMark], ", ") == SummarizedMark + ", " + ClassifiedMark;
    assert FooterPrefix + (SummarizedMark + ", " + ClassifiedMark) == FooterPrefix + SummarizedMark + ", " + ClassifiedMark;
  }

  /** The description: a non-empty summary of a summarised article, else the cut content. */
  function Description(a: Article): string {
    if a.summarized.GetOr(false) && a.entry.summary != [] then a.entry.summary
    else TruncateContent(a.entry.content, ContentLength)
  }

  /** A field when `c` holds. */
  function FieldIf(c: bool, name: string, value: string): (fs: seq<Field>)
    ensures |fs| <= 1 && (c <==> fs == [Field(name, value)])
  {
    if c then [Field(name, value)] else []
  }

  /** The category description and emoji of an article. */
  function InfoOf(a: Article, cfg: BuilderConfig): Category {
    CategoryInfo(cfg.categories, a.category.GetOr(DefaultCategory))
  }

  function EmojiOf(a: Article, cfg: BuilderConfig): string {
    InfoOf(a, cfg).emoji.GetOr(DefaultEmoji)
  }

  /**
   * The fields, in order: feed title and author when truthy, the category when
   * classified, the publication date (formatted, or as given when it does not parse).
   */
  function EmbedFields(a: Article, cfg: BuilderConfig, formatDate: string -> Option<string>): seq<Field> {
    var published := a.entry.published.GetOr("");
    FieldIf(Truthy(a.entry.feedTitle), FeedLabel, a.entry.feedTitle.GetOr(""))
    + FieldIf(Truthy(a.entry.author), AuthorLabel, a.entry.author.GetOr(""))
    + FieldIf(a.classified.GetOr(false), CategoryLabel,
              EmojiOf(a, cfg) + " " + InfoOf(a, cfg).jpName.GetOr(a.category.GetOr(DefaultCategory)))
    + FieldIf(Truthy(a.entry.published), PublishedLabel, formatDate(published).GetOr(published))
  }

  /**
   * The embed `build_article_embed` returns.  A normalised entry always has a `title`
   * key, so the `"無題"` default of `article.get` never applies; an absent title prints as `None`.
   */
  function ArticleEmbed(a: Article, cfg: BuilderConfig, formatDate: string -> Option<string>): Embed {
    Embed(
      EmojiOf(a, cfg) + " " + PyStr(a.entry.title),
      a.entry.link,
      CategoryColor(a.category.GetOr(DefaultCategory), cfg.embedColor),
      Description(a),
      EmbedFields(a, cfg, formatDate),
      if cfg.useThumbnails.GetOr(true) && Truthy(a.entry.image) then a.entry.image else None,
      Footer(a.summarized.GetOr(false), a.classified.GetOr(false)))
  }

  /** `build_article_embed`, field by field. */
  method BuildArticleEmbed(a: Article, cfg: BuilderConfig, formatDate: string -> Option<string>) returns (embed: Embed)
    ensures embed == ArticleEmbed(a, cfg, formatDate)
  {
    var title := PyStr(a.entry.title);
    var summarized := a.summarized.GetOr(false);
    var classified := a.classified.GetOr(false);
    var category := a.category.GetOr(DefaultCategory);
    var info := CategoryInfo(cfg.categories, category);
    var emoji := info.emoji.GetOr(DefaultEmoji);
    var categoryName := info.jpName.GetOr(category);
    var color := CategoryColor(category, cfg.embedColor);
    embed := Embed(emoji + " " + title, a.entry.link, color, [], [], None, None);
    if summarized && a.entry.summary != [] {
      embed := embed.(description := a.entry.summary);
    } else {
      embed := embed.(description := TruncateContent(a.entry.content, ContentLength));
    }
    var fields := BuildFields(a, cfg, formatDate, emoji, categoryName);
    embed := embed.(fields := fields);
    if cfg.useThumbnails.GetOr(true) && Truthy(a.entry.image) {
      embed := embed.(thumbnail := a.entry.image);
    }
    var footer := BuildFooter(summarized, classified);
    if footer.Some? {
      embed := embed.(footer := footer);
    }
  }

  /** The `add_field` calls of `build_article_embed`, in order. */
  method BuildFields(a: Article, cfg: BuilderConfig, formatDate: string -> Option<string>, emoji: string, categoryName: string)
    returns (fields: seq<Field>)
    requires emoji == EmojiOf(a, cfg) && categoryName == InfoOf(a, cfg).jpName.GetOr(a.category.GetOr(DefaultCategory))
    ensures fields == EmbedFields(a, cfg, formatDate)
  {
    var classified := a.classified.GetOr(false);
    fields := [];
    if Truthy(a.entry.feedTitle) {
      fields := fields + [Field(FeedLabel, a.entry.feedTitle.value)];
    }
    ghost var f1 := FieldIf(Truthy(a.entry.feedTitle), FeedLabel, a.entry.feedTitle.GetOr(""));
    assert fields == f1;
    if Truthy(a.entry.author) {
      fields := fields + [Field(AuthorLabel, a.entry.author.value)];
    }
    ghost var f2 := FieldIf(Truthy(a.entry.author), AuthorLabel, a.entry.author.GetOr(""));
    assert fields == f1 + f2;
    if classified {
      fields := fields + [Field(CategoryLabel, emoji + " " + categoryName)];
    }
    ghost var f3 := FieldIf(classified, CategoryLabel, emoji + " " + categoryName);
    assert fields == f1 + f2 + f3;
    if Truthy(a.entry.published) {
      var published := a.entry.published.value;
      var formatted := formatDate(published);
      if formatted.Some? {
        fields := fields + [Field(PublishedLabel, formatted.value)];
      } else {
        fields := fields + [Field(PublishedLabel, published)];
      }
    }
    ghost var p := a.entry.published.GetOr("");
    ghost var f4 := FieldIf(Truthy(a.entry.published), PublishedLabel, formatDate(p).GetOr(p));
    assert fields == f1 + f2 + f3 + f4;
  }

  /** The footer of `build_article_embed`: the marks of the set flags, when there is any. */
  method BuildFooter(summarized: bool, classified: bool) returns (footer: Option<string>)
    ensures footer == Footer(summarized, classified)
  {
    var aiInfo: seq<string> := [];
    if summarized {
      aiInfo := aiInfo + [SummarizedMark];
    }
    if classified {
      aiInfo := aiInfo + [ClassifiedMark];
    }
    footer := None;
    if aiInfo != [] {
      footer := Some(FooterPrefix + JoinWith(aiInfo, ", "));
    }
  }

  /** The category field is there exactly when the article is classified; there are at most four fields. */
  lemma EmbedFieldsSpec(a: Article, cfg: BuilderConfig, formatDate: string -> Option<string>)
    ensures ((exists k :: 0 <= k < |EmbedFields(a, cfg, formatDate)| && EmbedFields(a, cfg, formatDate)[k].name == CategoryLabel)
             <==> a.classified.GetOr(false))
    ensures |EmbedFields(a, cfg, formatDate)| <= 4
  {
    var fields := EmbedFields(a, cfg, formatDate);
    var f1 := FieldIf(Truthy(a.entry.feedTitle), FeedLabel, a.entry.feedTitle.GetOr(""));
    var f2 := FieldIf(Truthy(a.entry.author), AuthorLabel, a.entry.author.GetOr(""));
    var value := EmojiOf(a, cfg) + " " + InfoOf(a, cfg).jpName.GetOr(a.category.GetOr(DefaultCategory));
    var f3 := FieldIf(a.classified.GetOr(false), CategoryLabel, value);
    var p := a.entry.published.GetOr("");
    var f4 := FieldIf(Truthy(a.entry.published), PublishedLabel, formatDate(p).GetOr(p));
    assert fields == f1 + f2 + f3 + f4;
    assert FeedLabel != CategoryLabel && AuthorLabel != CategoryLabel && PublishedLabel != CategoryLabel;
    if a.classified.GetOr(false) {
      assert fields[|f1 + f2|] == Field(CategoryLabel, value);
    } else {
      forall k | 0 <= k < |fields|
        ensures fields[k].name != CategoryLabel
      {
        assert fields == f1 + f2 + f4;
        if k < |f1| {
          assert fields[k] == f1[k];
        } else if k < |f1| + |f2| {
          assert fields[k] == f2[k - |f1|];
        } else {
          assert fields[k] == f4[k - |f1| - |f2|];
        }
      }
    }
  }

  /**
   * A thumbnail only when thumbnails are on and the article has an image; a footer
   * only when a flag is set; the title always starts with the category's emoji; the
   * description is the summary of a summarised article, else the content cut to 300 characters.
   */
  lemma ArticleEmbedSpec(a: Article, cfg: BuilderConfig, formatDate: string -> Option<string>)
    ensures var embed := ArticleEmbed(a, cfg, formatDate);
      (embed.thumbnail.Some? <==> cfg.useThumbnails.GetOr(true) && Truthy(a.entry.image))
      && (embed.footer.None? <==> !a.summarized.GetOr(false) && !a.classified.GetOr(false))
      && StartsWith(embed.title, EmojiOf(a, cfg) + " ")
    ensures a.summarized.GetOr(false) && a.entry.summary != [] ==> ArticleEmbed(a, cfg, formatDate).description == a.entry.summary
    ensures !(a.summarized.GetOr(false) && a.entry.summary != []) ==>
      ArticleEmbed(a, cfg, formatDate).description == TruncateContent(a.entry.content, ContentLength)
      && |ArticleEmbed(a, cfg, formatDate).description| <= ContentLength
  {
    var embed := ArticleEmbed(a, cfg, formatDate);
    TruncateContentSpec(a.entry.content, ContentLength);
    assert embed.title == (EmojiOf(a, cfg) + " ") + PyStr(a.entry.title);
  }
}
