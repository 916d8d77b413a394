/**
 * The language model as the AI stages see it: a prompt goes in, and either a reply
 * comes back or the call raises (`None`).  A prompt is kept as the values it embeds;
 * the instruction wording around them is not part of this model.
 */
module Llm {
  import opened Wrappers

  /** The four summary prompts; `TitleKind` is the title-translation prompt. */
  datatype SummaryKind = TitleKind | ShortKind | LongKind | NormalKind

  /** One numbered line of the related-articles block of the question prompt. */
  datatype RelatedPart = RelatedPart(number: nat, title: string, excerpt: string)

  datatype Prompt =
    | SummaryPrompt(kind: SummaryKind, text: string)
    | ClassifyPrompt(categories: string, article: string)
    | TranslatePrompt(text: string)
    | KeywordsPrompt(title: string, content: string)
    | SearchKeywordsPrompt(title: string, content: string, question: string)
    | AnswerPrompt(title: string, content: string, related: seq<RelatedPart>, question: string)

  /** `generate_text` of one configured model: the reply, or `None` when it raises. */
  type Model = Prompt -> Option<string>
}
