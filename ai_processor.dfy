/**
 * The AI processor: summarise (and translate the title), optionally classify, then
 * extract storage keywords; plus the question-answering helpers.
 */
module AiProcessor {
  import opened Wrappers
  import opened Text
  import opened Articles
  import opened Llm
  import Summarizer
  import Classifier

  /**
   * The configuration keys the processor reads; `None` is an absent key, replaced by
   * the source's default where it is read.
   */
  datatype AiConfig = AiConfig(
    summarize: Option<bool>,
    classify: Option<bool>,
    summaryLength: Option<int>,
    categories: seq<Category>)

  const DefaultSummaryType := "normal"
  const MaxSearchKeywords := 5
  const ExcerptLength := 600
  const NoAnswer := "回答を生成できませんでした。"

  /** `feed_info.get("summary_type") or "normal"`. */
  function SummaryType(feed: Feed): string {
    if Truthy(feed.summaryType) then feed.summaryType.value else DefaultSummaryType
  }

  /**
   * `_summarize_article`: the content's summary replaces the entry's summary, a
   * non-empty title is replaced by its translation when that is non-empty, and
   * `summarized` is set.  It cannot fail, because the summariser catches every error.
   */
  function SummarizedArticle(a: Article, feed: Feed, cfg: AiConfig, model: Model): (r: Article)
    ensures r.summarized == Some(true)
    ensures r.entry.summary == Summarizer.Summary(a.entry.content, cfg.summaryLength.GetOr(Summarizer.DefaultMaxLength), SummaryType(feed), model)
    ensures r.entry.title == a.entry.title
      || (Truthy(a.entry.title) && r.entry.title == Some(Summarizer.Summary(a.entry.title.value, cfg.summaryLength.GetOr(Summarizer.DefaultMaxLength), "title", model))
          && r.entry.title.value != [])
    ensures r.(entry := a.entry, summarized := a.summarized) == a
    ensures r.entry.(title := a.entry.title, summary := a.entry.summary) == a.entry
  {
    var e := a.entry;
    var maxLength := cfg.summaryLength.GetOr(Summarizer.DefaultMaxLength);
    var summary := Summarizer.Summary(e.content, maxLength, SummaryType(feed), model);
    var title :=
      if Truthy(e.title) then
        var translated := Summarizer.Summary(e.title.value, maxLength, "title", model);
        if translated != [] then Some(translated) else e.title
      else e.title;
    a.(entry := e.(title := title, summary := summary), summarized := Some(true))
  }

  /** `[cat.get("name") for cat in categories]`. */
  function CategoryNames(cats: seq<Category>): (names: seq<Option<string>>)
    ensures |names| == |cats| && forall k :: 0 <= k < |cats| ==> names[k] == cats[k].name
  {
    seq(|cats|, k requires 0 <= k < |cats| => cats[k].name)
  }

  /** The label the classifier returns for the article. */
  function Label(a: Article, cfg: AiConfig, model: Model): string {
    Classifier.Classification(a.entry.title, a.entry.content, CategoryNames(cfg.categories), model)
  }

  /**
   * `_classify_article` as written: the log line after the label is stored names a
   * variable that does not exist, so every run ends in the handler, which marks the
   * article unclassified with category `other` and keeps the category description
   * already stored.
   */
  function ClassifiedArticleAsWritten(a: Article, cfg: AiConfig, model: Model): (r: Article)
    ensures r.classified == Some(false) && r.category == Some(Classifier.Other)
    ensures r.categoryInfo == Some(CategoryInfo(cfg.categories, Label(a, cfg, model)))
  {
    a.(category := Some(Classifier.Other), classified := Some(false),
       categoryInfo := Some(CategoryInfo(cfg.categories, Label(a, cfg, model))))
  }

  /** `_classify_article` as intended: the label, the flag and the matching description. */
  function ClassifiedArticle(a: Article, cfg: AiConfig, model: Model): (r: Article)
    ensures r.classified == Some(true)
    ensures r.(category := a.category, classified := a.classified, categoryInfo := a.categoryInfo) == a
  {
    var name := Label(a, cfg, model);
    a.(category := Some(name), classified := Some(true), categoryInfo := Some(CategoryInfo(cfg.categories, name)))
  }

  /**
   * As written, a classification never sticks: even a reply naming a configured
   * category leaves the article unclassified, where the intended version keeps it.
   */
  lemma ClassifyAsWrittenDiscardsLabel(a: Article, cfg: AiConfig, model: Model)
    ensures ClassifiedArticleAsWritten(a, cfg, model).classified != ClassifiedArticle(a, cfg, model).classified
    ensures Label(a, cfg, model) != Classifier.Other ==>
      ClassifiedArticleAsWritten(a, cfg, model).category != ClassifiedArticle(a, cfg, model).category
  {
  }

  /**
   * The intended classification stores a label from the configured names (or the
   * defaults when none are configured) or `other`, and a description that carries that
   * label or is the built-in `other` entry.
   */
  lemma ClassifiedArticleSpec(a: Article, cfg: AiConfig, model: Model)
    ensures var r := ClassifiedArticle(a, cfg, model);
      r.category.Some? && r.categoryInfo.Some?
      && (r.category.value == Classifier.Other
          || exists k :: 0 <= k < |Classifier.EffectiveCategories(CategoryNames(cfg.categories))|
                         && Classifier.EffectiveCategories(CategoryNames(cfg.categories))[k] == r.category)
      && (r.categoryInfo.value == OtherCategory || r.categoryInfo.value.name == r.category)
  {
    Classifier.ClassificationInCategories(a.entry.title, a.entry.content, CategoryNames(cfg.categories), model);
  }

  /** `extract_keywords_for_storage`: the stripped reply, or `""` when the call raises. */
  function StorageKeywords(e: Entry, model: Model): (r: string)
    ensures Stripped(r)
    ensures model(KeywordsPrompt(PyStr(e.title), e.content)).None? ==> r == []
    ensures model(KeywordsPrompt(PyStr(e.title), e.content)).Some? ==>
      r == Strip(model(KeywordsPrompt(PyStr(e.title), e.content)).value)
  {
    match model(KeywordsPrompt(PyStr(e.title), e.content))
    case None => []
    case Some(text) => Strip(text)
  }

  /** A reply with no edge whitespace is stored as it came; whitespace padding is removed. */
  lemma StorageKeywordsOfReply(e: Entry, model: Model, ks: string, pad: string)
    requires Stripped(ks)
    requires forall k :: 0 <= k < |pad| ==> IsSpace(pad[k])
    requires model(KeywordsPrompt(PyStr(e.title), e.content)) == Some(pad + ks + pad)
    ensures StorageKeywords(e, model) == ks
  {
    StripPadded(pad, ks);
  }

  /**
   * `process_article`: summarise when `summarize` is on (default on), classify when
   * `classify` is on (default off), then store the keywords and mark the article
   * processed.  The outer handler is unreachable here: every stage catches its own errors.
   */
  function ProcessedArticle(e: Entry, feed: Feed, cfg: AiConfig, model: Model): (r: Article)
  {
    var a0 := Unprocessed(e);
    var a1 := if cfg.summarize.GetOr(true) then SummarizedArticle(a0, feed, cfg, model) else a0;
    var a2 := if cfg.classify.GetOr(false) then ClassifiedArticle(a1, cfg, model) else a1;
    a2.(keywordsEn := Some(StorageKeywords(a2.entry, model)), aiProcessed := Some(true))
  }

  /** `process_article` as written: the classification stage is the one that loses its label. */
  function ProcessedArticleAsWritten(e: Entry, feed: Feed, cfg: AiConfig, model: Model): (r: Article)
    ensures cfg.classify.GetOr(false) ==> r.classified == Some(false) && r.category == Some(Classifier.Other)
    ensures !cfg.classify.GetOr(false) ==> r == ProcessedArticle(e, feed, cfg, model)
  {
    var a0 := Unprocessed(e);
    var a1 := if cfg.summarize.GetOr(true) then SummarizedArticle(a0, feed, cfg, model) else a0;
    var a2 := if cfg.classify.GetOr(false) then ClassifiedArticleAsWritten(a1, cfg, model) else a1;
    a2.(keywordsEn := Some(StorageKeywords(a2.entry, model)), aiProcessed := Some(true))
  }

  /** With classification on, the pipeline as written always records `classified` false, unlike the corrected one. */
  lemma ProcessedAsWrittenDiffers(e: Entry, feed: Feed, cfg: AiConfig, model: Model)
    requires cfg.classify.GetOr(false)
    ensures ProcessedArticleAsWritten(e, feed, cfg, model).classified != ProcessedArticle(e, feed, cfg, model).classified
  {
  }

  /**
   * What processing records: the two flags follow the configuration, the keywords are
   * always set, no error is recorded, and only the title and the summary of the entry
   * may change.
   */
  lemma ProcessedArticleSpec(e: Entry, feed: Feed, cfg: AiConfig, model: Model)
    ensures var r := ProcessedArticle(e, feed, cfg, model);
      r.aiProcessed == Some(true) && r.aiError.None? && r.original.None? && r.keywordsEn.Some?
      && Stripped(r.keywordsEn.value)
      && r.summarized == (if cfg.summarize.GetOr(true) then Some(true) else None)
      && r.classified == (if cfg.classify.GetOr(false) then Some(true) else None)
      && (!cfg.summarize.GetOr(true) ==> r.entry == e)
      && (!cfg.classify.GetOr(false) ==> r.category.None? && r.categoryInfo.None?)
      && r.entry.(title := e.title, summary := e.summary) == e
  {
  }

  /** Classification sees the translated title, not the original one. */
  lemma ClassifyUsesTranslatedTitle(e: Entry, feed: Feed, cfg: AiConfig, model: Model)
    requires cfg.summarize.GetOr(true) && cfg.classify.GetOr(false)
    ensures ProcessedArticle(e, feed, cfg, model).category
      == Some(Label(SummarizedArticle(Unprocessed(e), feed, cfg, model), cfg, model))
  {
  }

  /** `_summarize_article`, updating the article step by step. */
  method SummarizeArticle(a: Article, feed: Feed, cfg: AiConfig, model: Model) returns (r: Article)
    ensures r == SummarizedArticle(a, feed, cfg, model)
  {
    var maxLength := cfg.summaryLength.GetOr(Summarizer.DefaultMaxLength);
    var summary := Summarizer.Summarize(a.entry.content, maxLength, SummaryType(feed), model);
    r := a;
    if Truthy(a.entry.title) {
      var translated := Summarizer.Summarize(a.entry.title.value, maxLength, "title", model);
      if translated != [] {
        r := r.(entry := r.entry.(title := Some(translated)));
      }
    }
    r := r.(entry := r.entry.(summary := summary));
    r := r.(summarized := Some(true));
  }

  /** `_classify_article` as intended. */
  method ClassifyArticle(a: Article, cfg: AiConfig, model: Model) returns (r: Article)
    ensures r == ClassifiedArticle(a, cfg, model)
  {
    var name := Classifier.Classify(a.entry.title, a.entry.content, CategoryNames(cfg.categories), model);
    r := a.(category := Some(name), classified := Some(true));
    r := r.(categoryInfo := Some(CategoryInfo(cfg.categories, name)));
  }

  method ExtractKeywordsForStorage(e: Entry, model: Model) returns (keywords: string)
    ensures keywords == StorageKeywords(e, model)
  {
    var reply := model(KeywordsPrompt(PyStr(e.title), e.content));
    keywords := if reply.Some? then Strip(reply.value) else [];
  }

  /** `process_article`: a copy of the entry goes through the enabled stages in order. */
  method ProcessArticle(e: Entry, feed: Feed, cfg: AiConfig, model: Model) returns (processed: Article)
    ensures processed == ProcessedArticle(e, feed, cfg, model)
  {
    processed := Unprocessed(e);
    if cfg.summarize.GetOr(true) {
      processed := SummarizeArticle(processed, feed, cfg, model);
    }
    if cfg.classify.GetOr(false) {
      processed := ClassifyArticle(processed, cfg, model);
    }
    var keywords := ExtractKeywordsForStorage(processed.entry, model);
    processed := processed.(keywordsEn := Some(keywords));
    processed := processed.(aiProcessed := Some(true));
  }

  /** The keywords of a reply: newlines removed, split on commas, stripped, blanks dropped, first five. */
  function SearchKeywords(title: string, content: string, question: string, model: Model): (r: seq<string>)
    ensures |r| <= MaxSearchKeywords
    ensures forall k :: 0 <= k < |r| ==> CleanToken(r[k])
    ensures model(SearchKeywordsPrompt(title, content, question)).None? ==> r == []
  {
    match model(SearchKeywordsPrompt(title, content, question))
    case None => []
    case Some(text) => PyPrefix(SplitCommaList(RemoveChar(text, '\n')), MaxSearchKeywords)
  }

  /** Every keyword is made of characters of the reply, and none holds a newline. */
  lemma SearchKeywordsFromReply(title: string, content: string, question: string, model: Model)
    requires model(SearchKeywordsPrompt(title, content, question)).Some?
    ensures var r := SearchKeywords(title, content, question, model);
      forall k, i :: 0 <= k < |r| && 0 <= i < |r[k]| ==>
        r[k][i] in model(SearchKeywordsPrompt(title, content, question)).value && r[k][i] != '\n'
  {
    var text := model(SearchKeywordsPrompt(title, content, question)).value;
    var s := RemoveChar(text, '\n');
    SplitChars(s, ',');
    CleanTokensChars(Split(s, ','), s);
    var all := SplitCommaList(s);
    var r := SearchKeywords(title, content, question, model);
    assert r == PyPrefix(all, MaxSearchKeywords);
    forall k, i | 0 <= k < |r| && 0 <= i < |r[k]|
      ensures r[k][i] in text && r[k][i] != '\n'
    {
      assert r[k] == all[k];
      assert CharsFrom(all[k], s);
      assert r[k][i] in s;
    }
  }

  /**
   * A reply that lists clean, newline-free keywords separated by commas gives those
   * keywords back, cut to the first five.
   */
  lemma SearchKeywordsOfList(title: string, content: string, question: string, model: Model, ks: seq<string>)
    requires model(SearchKeywordsPrompt(title, content, question)) == Some(Join(ks, ','))
    requires forall k :: 0 <= k < |ks| ==> CleanToken(ks[k]) && '\n' !in ks[k]
    ensures SearchKeywords(title, content, question, model) == PyPrefix(ks, MaxSearchKeywords)
  {
    JoinAvoids(ks, ',', '\n');
    RemoveCharAbsent(Join(ks, ','), '\n');
    SplitCommaListJoin(ks);
  }

  /** Every keyword is the non-blank strip of one comma-separated piece of the newline-free reply. */
  lemma SearchKeywordsArePieces(title: string, content: string, question: string, model: Model, x: string)
    requires model(SearchKeywordsPrompt(title, content, question)).Some?
    requires x in SearchKeywords(title, content, question, model)
    ensures x != []
    ensures StripOfSome(Split(RemoveChar(model(SearchKeywordsPrompt(title, content, question)).value, '\n'), ','), x)
  {
    var s := RemoveChar(model(SearchKeywordsPrompt(title, content, question)).value, '\n');
    var all := SplitCommaList(s);
    var r := SearchKeywords(title, content, question, model);
    var i :| 0 <= i < |r| && r[i] == x;
    assert x == all[i];
    SplitCommaListMembers(s, x);
  }

  /** Every character of `x` occurs in `s`. */
  predicate CharsFrom(x: string, s: string) {
    forall i :: 0 <= i < |x| ==> x[i] in s
  }

  lemma InSuffix(s: string, a: nat, c: char)
    requires a <= |s| && c in s[a..]
    ensures c in s
  {
    var m :| 0 <= m < |s[a..]| && s[a..][m] == c;
    assert s[a + m] == c;
  }

  lemma {:induction false} SplitChars(s: string, sep: char)
    ensures forall k :: 0 <= k < |Split(s, sep)| ==> CharsFrom(Split(s, sep)[k], s)
    decreases |s|
  {
    if sep in s {
      var i := IndexOf(s, sep);
      var rest := s[i + 1..];
      SplitChars(rest, sep);
      var parts := Split(s, sep);
      assert parts == [s[..i]] + Split(rest, sep);
      forall k | 0 <= k < |parts|
        ensures CharsFrom(parts[k], s)
      {
        var x := parts[k];
        if k == 0 {
          forall j | 0 <= j < |x|
            ensures x[j] in s
          {
            assert x[j] == s[j];
          }
        } else {
          assert x == Split(rest, sep)[k - 1];
          forall j | 0 <= j < |x|
            ensures x[j] in s
          {
            InSuffix(s, i + 1, x[j]);
          }
        }
      }
    } else {
      assert Split(s, sep) == [s];
      assert CharsFrom(s, s);
    }
  }

  lemma {:induction false} CleanTokensChars(parts: seq<string>, s: string)
    requires forall k :: 0 <= k < |parts| ==> ',' !in parts[k]
    requires forall k :: 0 <= k < |parts| ==> CharsFrom(parts[k], s)
    ensures forall k :: 0 <= k < |CleanTokens(parts)| ==> CharsFrom(CleanTokens(parts)[k], s)
    decreases |parts|
  {
    if parts != [] {
      var tail := parts[1..];
      assert forall k :: 0 <= k < |tail| ==> tail[k] == parts[k + 1];
      CleanTokensChars(tail, s);
      var t := Strip(parts[0]);
      forall j | 0 <= j < |t|
        ensures t[j] in s
      {
        assert t[j] == parts[0][LeadLength(parts[0], IsSpace) + j];
      }
    }
  }

  /** `_generate_search_keywords`. */
  method GenerateSearchKeywords(title: string, content: string, question: string, model: Model) returns (keywords: seq<string>)
    ensures keywords == SearchKeywords(title, content, question, model)
  {
    var reply := model(SearchKeywordsPrompt(title, content, question));
    if reply.None? {
      return [];
    }
    var all := SplitCommaList(RemoveChar(reply.value, '\n'));
    keywords := PyPrefix(all, MaxSearchKeywords);
  }

  /** One related article as `answer_question` reads it; `content` is `None` when missing or null. */
  datatype Related = Related(title: string, content: Option<string>)

  /** The numbered lines of the related-articles block, each with the first 600 characters of content. */
  function RelatedParts(related: seq<Related>): (parts: seq<RelatedPart>)
    ensures |parts| == |related|
  {
    if related == [] then []
    else
      var last := related[|related| - 1];
      RelatedParts(related[..|related| - 1]) + [RelatedPart(|related|, last.title, PyPrefix(last.content.GetOr(""), ExcerptLength))]
  }

  /** Line `i` is numbered `i + 1`, carries that article's title and at most 600 characters of its content. */
  lemma {:induction false} RelatedPartsSpec(related: seq<Related>)
    ensures forall i :: 0 <= i < |related| ==>
      RelatedParts(related)[i] == RelatedPart(i + 1, related[i].title, PyPrefix(related[i].content.GetOr(""), ExcerptLength))
      && |RelatedParts(related)[i].excerpt| <= ExcerptLength
  {
    if related != [] {
      RelatedPartsSpec(related[..|related| - 1]);
    }
  }

  /** `answer_question`: the reply as it came, or the fixed apology when the call raises. */
  function Answer(title: string, content: string, related: seq<Related>, question: string, answerModel: Model): (r: string)
    ensures answerModel(AnswerPrompt(title, content, RelatedParts(related), question)).None? ==> r == NoAnswer
    ensures answerModel(AnswerPrompt(title, content, RelatedParts(related), question)).Some? ==>
      r == answerModel(AnswerPrompt(title, content, RelatedParts(related), question)).value
  {
    answerModel(AnswerPrompt(title, content, RelatedParts(related), question)).GetOr(NoAnswer)
  }

  /** The numbering loop of `answer_question`. */
  method AnswerQuestion(title: string, content: string, related: seq<Related>, question: string, answerModel: Model)
    returns (answer: string)
    ensures answer == Answer(title, content, related, question, answerModel)
  {
    var parts: seq<RelatedPart> := [];
    for i := 0 to |related|
      invariant parts == RelatedParts(related[..i])
    {
      assert related[..i + 1][..i] == related[..i];
      var excerpt := PyPrefix(related[i].content.GetOr(""), ExcerptLength);
      parts := parts + [RelatedPart(i + 1, related[i].title, excerpt)];
    }
    assert related[..|related|] == related;
    var reply := answerModel(AnswerPrompt(title, content, parts, question));
    answer := if reply.Some? then reply.value else NoAnswer;
  }
}
