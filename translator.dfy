/**
 * The translator: text that already looks Japanese is kept, anything else goes to the
 * model, whose reply loses its prefix; a failed call keeps the original text.
 */
module Translator {
  import opened Wrappers
  import opened Text
  import opened Llm

  const TranslationPrefixes: seq<string> := ["日本語訳:", "翻訳:", "翻訳結果:"]

  /** Hiragana, katakana, the CJK unified ideographs and half-width katakana, inclusive. */
  const JapaneseRanges: seq<(int, int)> := [(0x3040, 0x309F), (0x30A0, 0x30FF), (0x4E00, 0x9FFF), (0xFF66, 0xFF9F)]

  /** How much of the text the test looks at. */
  const SampleLength := 100

  predicate InRange(c: char, k: nat)
    requires k < |JapaneseRanges|
  {
    JapaneseRanges[k].0 <= c as int <= JapaneseRanges[k].1
  }

  predicate IsJapaneseChar(c: char) {
    exists k :: 0 <= k < |JapaneseRanges| && InRange(c, k)
  }

  /** The number of Japanese characters in `s`. */
  function JapaneseCount(s: string): (n: nat)
    ensures n <= |s|
  {
    if s == [] then 0
    else JapaneseCount(s[..|s| - 1]) + (if IsJapaneseChar(s[|s| - 1]) then 1 else 0)
  }

  /**
   * `_is_japanese`: more than 30% of the first 100 characters are Japanese.  The
   * floating-point ratio test is written over the integers: `n / len > 0.3` exactly
   * when `10 * n > 3 * len`.
   */
  predicate IsJapanese(text: string) {
    var sample := PyPrefix(text, SampleLength);
    sample != [] && 10 * JapaneseCount(sample) > 3 * |sample|
  }

  /** Only the first 100 characters count. */
  lemma IsJapaneseSampleOnly(text: string, rest: string)
    requires |text| >= SampleLength
    ensures IsJapanese(text + rest) == IsJapanese(text)
  {
    assert PyPrefix(text + rest, SampleLength) == PyPrefix(text, SampleLength);
  }

  lemma {:induction false} CountAll(s: string)
    requires forall i :: 0 <= i < |s| ==> IsJapaneseChar(s[i])
    ensures JapaneseCount(s) == |s|
  {
    if s != [] {
      CountAll(s[..|s| - 1]);
    }
  }

  lemma {:induction false} CountNone(s: string)
    requires forall i :: 0 <= i < |s| ==> !IsJapaneseChar(s[i])
    ensures JapaneseCount(s) == 0
  {
    if s != [] {
      CountNone(s[..|s| - 1]);
    }
  }

  /** Non-empty text made only of Japanese characters is Japanese; text with none is not. */
  lemma IsJapaneseExtremes(text: string)
    ensures text != [] && (forall i :: 0 <= i < |text| ==> IsJapaneseChar(text[i])) ==> IsJapanese(text)
    ensures (forall i :: 0 <= i < |text| ==> !IsJapaneseChar(text[i])) ==> !IsJapanese(text)
  {
    var sample := PyPrefix(text, SampleLength);
    if forall i :: 0 <= i < |text| ==> IsJapaneseChar(text[i]) {
      CountAll(sample);
    }
    if forall i :: 0 <= i < |text| ==> !IsJapaneseChar(text[i]) {
      CountNone(sample);
    }
  }

  /** The counting loop of `_is_japanese`, with its inner loop over the ranges. */
  method CheckJapanese(text: string) returns (b: bool)
    ensures b == IsJapanese(text)
  {
    var sample := PyPrefix(text, SampleLength);
    var jpChars := 0;
    for i := 0 to |sample|
      invariant jpChars == JapaneseCount(sample[..i])
    {
      var c := sample[i];
      var j := 0;
      while j < |JapaneseRanges|
        invariant 0 <= j <= |JapaneseRanges|
        invariant forall k :: 0 <= k < j ==> !InRange(c, k)
      {
        if JapaneseRanges[j].0 <= c as int <= JapaneseRanges[j].1 {
          break;
        }
        j := j + 1;
      }
      var hit := j < |JapaneseRanges|;
      if hit {
        assert InRange(c, j);
      }
      assert hit <==> IsJapaneseChar(c);
      assert sample[..i + 1][..i] == sample[..i];
      if hit {
        jpChars := jpChars + 1;
      }
    }
    assert sample[..|sample|] == sample;
    b := sample != [] && 10 * jpChars > 3 * |sample|;
  }

  /** `Translator.translate` with the reply of `model`. */
  function Translation(text: string, model: Model): (r: string)
    ensures text == [] ==> r == []
    ensures IsJapanese(text) ==> r == text
    ensures model(TranslatePrompt(text)).None? ==> r == text
  {
    if text == [] || IsJapanese(text) then text
    else match model(TranslatePrompt(text))
      case None => text
      case Some(reply) => DropPrefixes(reply, TranslationPrefixes)
  }

  /** The reply is kept as it came unless a prefix was cut, in which case it is also stripped. */
  lemma TranslationReply(text: string, model: Model)
    requires text != [] && !IsJapanese(text) && model(TranslatePrompt(text)).Some?
    ensures var reply := model(TranslatePrompt(text)).value;
      Translation(text, model) == reply || (Stripped(Translation(text, model)) && |Translation(text, model)| < |reply|)
  {
    var reply := model(TranslatePrompt(text)).value;
    DropPrefixesStripped(reply, TranslationPrefixes);
    DropPrefixesShrinks(reply, TranslationPrefixes);
  }

  lemma {:induction false} DropPrefixesShrinks(s: string, prefixes: seq<string>)
    requires forall k :: 0 <= k < |prefixes| ==> prefixes[k] != []
    ensures DropPrefixes(s, prefixes) == s || |DropPrefixes(s, prefixes)| < |s|
    decreases |prefixes|
  {
    if prefixes != [] {
      DropPrefixesShrinks(s, prefixes[..|prefixes| - 1]);
    }
  }

  method Translate(text: string, model: Model) returns (r: string)
    ensures r == Translation(text, model)
  {
    if text == [] {
      return [];
    }
    var japanese := CheckJapanese(text);
    if japanese {
      return text;
    }
    var reply := model(TranslatePrompt(text));
    if reply.None? {
      return text;
    }
    r := StripPrefixes(reply.value, TranslationPrefixes);
  }
}
