/**
 * The LLM summariser: choose the prompt, clean the reply's prefix, cut it to the
 * maximum length, and fall back to the sentence packer when the call raises.
 */
module Summarizer {
  import opened Wrappers
  import opened Text
  import opened Llm
  import SimpleSummarizer

  const SummaryPrefixes: seq<string> := ["要約:", "要約結果:", "翻訳:", "翻訳結果:"]
  const DefaultMaxLength: int := 4000

  /** The prompt a `summary_type` selects: three named ones, the normal prompt for any other. */
  function KindOf(summaryType: string): (k: SummaryKind)
    ensures k == TitleKind <==> summaryType == "title"
    ensures k == ShortKind <==> summaryType == "short"
    ensures k == LongKind <==> summaryType == "long"
    ensures k == NormalKind <==> summaryType !in {"title", "short", "long"}
  {
    if summaryType == "title" then TitleKind
    else if summaryType == "short" then ShortKind
    else if summaryType == "long" then LongKind
    else NormalKind
  }

  /** Below 3 the cut counts from the end: a four-character reply with `max = 2` grows to six. */
  lemma TruncateSmallMax()
    ensures Ellipsize("abcd", 2) == "abc..."
  {
    assert PyPrefix("abcd", -1) == "abc";
  }

  /** `Summarizer.summarize` with the reply of `model`. */
  function Summary(text: string, maxLength: int, summaryType: string, model: Model): (r: string)
    ensures text == [] ==> r == []
    ensures text != [] && model(SummaryPrompt(KindOf(summaryType), text)).None? ==>
      r == SimpleSummarizer.SimpleSummary(text, maxLength)
  {
    if text == [] then []
    else match model(SummaryPrompt(KindOf(summaryType), text))
      case None => SimpleSummarizer.SimpleSummary(text, maxLength)
      case Some(reply) => Ellipsize(DropPrefixes(reply, SummaryPrefixes), maxLength)
  }

  /** From `max = 3` on, no summary is longer than `max`, whichever path produced it. */
  lemma SummaryBounded(text: string, maxLength: int, summaryType: string, model: Model)
    requires 3 <= maxLength
    ensures |Summary(text, maxLength, summaryType, model)| <= maxLength
  {
    if text != [] && model(SummaryPrompt(KindOf(summaryType), text)).None? {
      SimpleSummarizer.SimpleSummaryBounded(text, maxLength);
    }
  }

  /** A reply without any of the prefixes that fits in `max` is returned as it came. */
  lemma SummaryVerbatim(text: string, maxLength: int, summaryType: string, model: Model)
    requires text != [] && model(SummaryPrompt(KindOf(summaryType), text)).Some?
    requires var reply := model(SummaryPrompt(KindOf(summaryType), text)).value;
      |reply| <= maxLength && forall k :: 0 <= k < |SummaryPrefixes| ==> !StartsWith(reply, SummaryPrefixes[k])
    ensures Summary(text, maxLength, summaryType, model) == model(SummaryPrompt(KindOf(summaryType), text)).value
  {
    DropPrefixesUnchanged(model(SummaryPrompt(KindOf(summaryType), text)).value, SummaryPrefixes);
  }

  /** A prefix that the text left so far does not start with changes nothing. */
  lemma DropPrefixesSkip(s: string, ps: seq<string>, p: string)
    requires !StartsWith(DropPrefixes(s, ps), p)
    ensures DropPrefixes(s, ps + [p]) == DropPrefixes(s, ps)
  {
    assert (ps + [p])[..|ps|] == ps;
  }

  /** A space before a stripped text is all that stripping removes. */
  lemma StripLeadingSpace(t: string)
    requires Stripped(t)
    ensures Strip([' '] + t) == t
  {
    var s := [' '] + t;
    assert s[1..] == t;
    assert DropWhile(s, IsSpace) == DropWhile(t, IsSpace) == t;
  }

  /** Prefixes the text left so far does not start with leave it as it is. */
  lemma {:induction false} LaterPrefixesSkip(s: string, ps: seq<string>, n: nat)
    requires n <= |ps|
    requires forall k :: n <= k < |ps| ==> !StartsWith(DropPrefixes(s, ps[..n]), ps[k])
    ensures DropPrefixes(s, ps) == DropPrefixes(s, ps[..n])
    decreases |ps| - n
  {
    if n < |ps| {
      assert ps[..n] + [ps[n]] == ps[..n + 1];
      DropPrefixesSkip(s, ps[..n], ps[n]);
      LaterPrefixesSkip(s, ps, n + 1);
    } else {
      assert ps[..n] == ps;
    }
  }

  /**
   * A reply `要約: <t>` loses the prefix and the space after it, when `t` is stripped
   * and starts with none of the later prefixes.
   */
  lemma SummaryPrefixDropped(t: string)
    requires Stripped(t)
    requires forall k :: 1 <= k < |SummaryPrefixes| ==> !StartsWith(t, SummaryPrefixes[k])
    ensures DropPrefixes(SummaryPrefixes[0] + [' '] + t, SummaryPrefixes) == t
  {
    var p := SummaryPrefixes[0];
    var s := p + [' '] + t;
    assert s[..|p|] == p;
    assert s[|p|..] == [' '] + t;
    StripLeadingSpace(t);
    assert SummaryPrefixes[..1][..0] == [];
    assert SummaryPrefixes[..1][0] == p;
    assert DropPrefixes(s, SummaryPrefixes[..1]) == t;
    LaterPrefixesSkip(s, SummaryPrefixes, 1);
  }

  method Summarize(text: string, maxLength: int, summaryType: string, model: Model) returns (summary: string)
    ensures summary == Summary(text, maxLength, summaryType, model)
  {
    if text == [] {
      return [];
    }
    var reply := model(SummaryPrompt(KindOf(summaryType), text));
    if reply.None? {
      summary := SimpleSummarizer.SimpleSummarize(text, maxLength);
      return;
    }
    summary := StripPrefixes(reply.value, SummaryPrefixes);
    if |summary| > maxLength {
      summary := PyPrefix(summary, maxLength - 3) + Ellipsis;
    }
  }
}
