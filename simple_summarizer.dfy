/**
 * The fallback summariser: split the text into sentences, then pack whole sentences
 * from the start while they fit.
 */
module SimpleSummarizer {
  import opened Wrappers
  import opened Text

  const DefaultMaxLength: int := 200

  /** The sentence terminators of the split pattern: `。`, `.`, `!`, `?`. */
  predicate IsTerminator(c: char) {
    c == '。' || c == '.' || c == '!' || c == '?'
  }

  /** The first position `p >= max(i, 1)` where a terminator is followed by whitespace. */
  function BreakFrom(s: string, i: nat): (r: Option<nat>)
    requires i <= |s|
    ensures r.Some? ==> 1 <= r.value < |s| && i <= r.value && IsTerminator(s[r.value - 1]) && IsSpace(s[r.value])
    ensures r.Some? ==> forall q :: i <= q < r.value && q >= 1 ==> !(IsTerminator(s[q - 1]) && IsSpace(s[q]))
    ensures r.None? ==> forall q :: i <= q < |s| && q >= 1 ==> !(IsTerminator(s[q - 1]) && IsSpace(s[q]))
    decreases |s| - i
  {
    if i >= |s| then None
    else if i >= 1 && IsTerminator(s[i - 1]) && IsSpace(s[i]) then Some(i)
    else BreakFrom(s, i + 1)
  }

  /**
   * `re.split(r"(?<=[。.!?])\s+", s)`: cut at every whitespace run that follows a
   * terminator, dropping the run.
   */
  function SplitSentences(s: string): (ss: seq<string>)
    ensures |ss| >= 1
    decreases |s|
  {
    match BreakFrom(s, 0)
    case None => [s]
    case Some(p) =>
      var rest := DropWhile(s[p..], IsSpace);
      [s[..p]] + SplitSentences(rest)
  }

  /** No terminator in `x` is directly followed by whitespace. */
  predicate NoBreak(x: string) {
    forall q :: 1 <= q < |x| ==> !(IsTerminator(x[q - 1]) && IsSpace(x[q]))
  }

  /** A well-formed sentence: non-empty, stripped, with no break left inside. */
  predicate SentenceShape(x: string) {
    x != [] && Stripped(x) && NoBreak(x)
  }

  /** Every sentence is well formed, and every one but the last ends with a terminator. */
  predicate SentencesShape(ss: seq<string>) {
    && (forall k :: 0 <= k < |ss| ==> SentenceShape(ss[k]))
    && (forall k :: 0 <= k < |ss| - 1 ==> IsTerminator(ss[k][|ss[k]| - 1]))
  }

  /** The text before the first break is a well-formed sentence ending with a terminator. */
  lemma BreakHead(s: string, p: nat)
    requires s != [] && Stripped(s) && BreakFrom(s, 0) == Some(p)
    ensures SentenceShape(s[..p]) && IsTerminator(s[..p][p - 1])
  {
    var head := s[..p];
    assert head[p - 1] == s[p - 1];
    assert !IsSpace(head[p - 1]);
    assert NoBreak(head);
  }

  /** Dropping a leading run keeps a last character the run cannot contain. */
  lemma DropWhileKeepsLast(t: string, p: char -> bool)
    requires t != [] && !p(t[|t| - 1])
    ensures DropWhile(t, p) != [] && DropWhile(t, p)[|DropWhile(t, p)| - 1] == t[|t| - 1]
  {
    var r := DropWhile(t, p);
    var m := |t| - |r|;
    assert r == t[m..];
    assert r[|r| - 1] == t[m + |r| - 1];
  }

  /** The text after the first break and its whitespace run is non-empty, stripped and shorter. */
  lemma BreakRest(s: string, p: nat)
    requires s != [] && Stripped(s) && BreakFrom(s, 0) == Some(p)
    ensures var rest := DropWhile(s[p..], IsSpace); rest != [] && Stripped(rest) && |rest| < |s|
  {
    var t := s[p..];
    assert t[|t| - 1] == s[|s| - 1];
    DropWhileKeepsLast(t, IsSpace);
  }

  /** Prepending a sentence that ends with a terminator keeps the shape. */
  lemma ConsShape(head: string, tail: seq<string>)
    requires SentenceShape(head) && IsTerminator(head[|head| - 1]) && SentencesShape(tail)
    ensures SentencesShape([head] + tail)
  {
    var ss := [head] + tail;
    forall k | 0 <= k < |ss|
      ensures SentenceShape(ss[k])
    {
      if k > 0 { assert ss[k] == tail[k - 1]; }
    }
    forall k | 0 <= k < |ss| - 1
      ensures IsTerminator(ss[k][|ss[k]| - 1])
    {
      if k > 0 { assert ss[k] == tail[k - 1]; }
    }
  }

  /**
   * Splitting a stripped, non-empty text gives non-empty, stripped sentences with no
   * break left inside any of them, and every sentence but the last ends with a terminator.
   */
  lemma {:induction false} SplitSentencesShape(s: string)
    requires s != [] && Stripped(s)
    ensures SentencesShape(SplitSentences(s))
    decreases |s|
  {
    match BreakFrom(s, 0)
    case None =>
      assert SplitSentences(s) == [s];
      assert SentenceShape(s);
    case Some(p) =>
      var rest := DropWhile(s[p..], IsSpace);
      assert SplitSentences(s) == [s[..p]] + SplitSentences(rest);
      BreakRest(s, p);
      SplitSentencesShape(rest);
      BreakHead(s, p);
      ConsShape(s[..p], SplitSentences(rest));
  }

  /** A break at `p` with none before it is the first break. */
  lemma BreakFromFirst(s: string, p: nat)
    requires 1 <= p < |s| && IsTerminator(s[p - 1]) && IsSpace(s[p])
    requires forall q :: 1 <= q < p ==> !(IsTerminator(s[q - 1]) && IsSpace(s[q]))
    ensures BreakFrom(s, 0) == Some(p)
  {
  }

  /** The tail of a well-formed sentence list is well formed. */
  lemma TailShape(ss: seq<string>)
    requires ss != [] && SentencesShape(ss)
    ensures SentencesShape(ss[1..])
  {
    var tail := ss[1..];
    forall k | 0 <= k < |tail|
      ensures SentenceShape(tail[k])
    {
      assert tail[k] == ss[k + 1];
    }
    forall k | 0 <= k < |tail| - 1
      ensures IsTerminator(tail[k][|tail[k]| - 1])
    {
      assert tail[k] == ss[k + 1];
    }
  }

  /** The first break of a terminated sentence, a space and more text is at that space. */
  lemma BreakAtSpace(h: string, t: string)
    requires SentenceShape(h) && IsTerminator(h[|h| - 1])
    ensures BreakFrom(h + " " + t, 0) == Some(|h|)
  {
    var s := h + " " + t;
    var p := |h|;
    assert s[p - 1] == h[p - 1] && s[p] == ' ';
    forall q | 1 <= q < p
      ensures !(IsTerminator(s[q - 1]) && IsSpace(s[q]))
    {
      assert s[q - 1] == h[q - 1] && s[q] == h[q];
    }
    BreakFromFirst(s, p);
  }

  /** A terminated sentence, a space and a text that starts with no space split at that space. */
  lemma SplitAtSpace(h: string, t: string)
    requires SentenceShape(h) && IsTerminator(h[|h| - 1])
    requires t != [] && !IsSpace(t[0])
    ensures SplitSentences(h + " " + t) == [h] + SplitSentences(t)
  {
    var s := h + " " + t;
    BreakAtSpace(h, t);
    assert s[..|h|] == h;
    assert s[|h|..] == " " + t;
    DropWhileSkips(" ", t, IsSpace);
  }

  /**
   * Splitting undoes joining with single spaces: well-formed sentences, each but the last
   * ending with a terminator, come back as exactly the same list.
   */
  lemma {:induction false} SplitSentencesJoin(ss: seq<string>)
    requires ss != [] && SentencesShape(ss)
    ensures SplitSentences(JoinWith(ss, " ")) == ss
    decreases |ss|
  {
    var h := ss[0];
    assert SentenceShape(h);
    if |ss| == 1 {
      assert JoinWith(ss, " ") == h;
      assert BreakFrom(h, 0).None?;
    } else {
      var tail := ss[1..];
      var j := JoinWith(tail, " ");
      assert JoinWith(ss, " ") == h + " " + j;
      assert tail[0] == ss[1] && SentenceShape(ss[1]);
      assert j[0] == tail[0][0];
      SplitAtSpace(h, j);
      TailShape(ss);
      SplitSentencesJoin(tail);
      assert [h] + tail == ss;
    }
  }

  /** The sentences joined with no separator. */
  function Concat(ss: seq<string>): string {
    if ss == [] then [] else ss[0] + Concat(ss[1..])
  }

  /**
   * The packing loop from the current `summary` on: append while the total stays
   * within `max`; at the first sentence that does not fit, an empty summary takes that
   * sentence's first `max` characters.
   */
  function Pack(ss: seq<string>, maxLength: int, acc: string): string {
    if ss == [] then acc
    else if |acc| + |ss[0]| <= maxLength then Pack(ss[1..], maxLength, acc + ss[0])
    else if acc == [] then PyPrefix(ss[0], maxLength)
    else acc
  }

  /** The tail of `simple_summarize`: cut an over-long summary to `max - 3` plus `"..."`, then strip. */
  function Finish(p: string, maxLength: int): (r: string)
    ensures Stripped(r)
    ensures |p| <= maxLength ==> r == Strip(p)
  {
    Strip(if |p| > maxLength then PyPrefix(p, maxLength - 3) + "..." else p)
  }

  /** `simple_summarize`. */
  function SimpleSummary(text: string, maxLength: int): (r: string)
    ensures text == [] ==> r == []
    ensures Stripped(r)
  {
    if text == [] then [] else Finish(Pack(SplitSentences(Strip(text)), maxLength, []), maxLength)
  }

  lemma {:induction false} ConcatSnoc(ss: seq<string>, n: nat)
    requires n < |ss|
    ensures Concat(ss[..n + 1]) == Concat(ss[..n]) + ss[n]
  {
    if n > 0 {
      ConcatSnoc(ss[1..], n - 1);
      assert ss[1..][..n] == ss[..n + 1][1..];
      assert ss[1..][..n - 1] == ss[..n][1..];
    } else {
      assert ss[..1] == [ss[0]];
      assert Concat(ss[..1]) == ss[0] + Concat([]);
    }
  }

  /** Packing never exceeds `max` when `max >= 0`. */
  lemma {:induction false} PackBounded(ss: seq<string>, maxLength: int, acc: string)
    requires 0 <= maxLength && |acc| <= maxLength
    ensures |Pack(ss, maxLength, acc)| <= maxLength
  {
    if ss != [] && |acc| + |ss[0]| <= maxLength {
      PackBounded(ss[1..], maxLength, acc + ss[0]);
    }
  }

  /**
   * `n` sentences taken whole from `acc` on: they fit, the next one does not (or none
   * is left), and the result is their concatenation, or, when that is empty and a
   * sentence is left, the first `max` characters of the next sentence.
   */
  predicate GreedyAt(ss: seq<string>, maxLength: int, acc: string, n: nat, r: string) {
    n <= |ss|
    && (n > 0 ==> |acc| + |Concat(ss[..n])| <= maxLength)
    && (n < |ss| ==> |acc| + |Concat(ss[..n])| + |ss[n]| > maxLength)
    && r == (if n < |ss| && acc + Concat(ss[..n]) == [] then PyPrefix(ss[n], maxLength) else acc + Concat(ss[..n]))
  }

  /**
   * Packing is greedy: it takes the first `n` sentences whole, where the next one does
   * not fit (or none is left); later, shorter sentences are never tried.
   */
  lemma {:induction false} PackGreedy(ss: seq<string>, maxLength: int, acc: string)
    ensures exists n: nat :: GreedyAt(ss, maxLength, acc, n, Pack(ss, maxLength, acc))
  {
    if ss == [] {
      assert Concat(ss[..0]) == [];
      assert GreedyAt(ss, maxLength, acc, 0, Pack(ss, maxLength, acc));
    } else if |acc| + |ss[0]| <= maxLength {
      var acc' := acc + ss[0];
      var r := Pack(ss, maxLength, acc);
      assert r == Pack(ss[1..], maxLength, acc');
      PackGreedy(ss[1..], maxLength, acc');
      var m: nat :| GreedyAt(ss[1..], maxLength, acc', m, r);
      var n := m + 1;
      assert ss[..n] == [ss[0]] + ss[1..][..m];
      assert ([ss[0]] + ss[1..][..m])[1..] == ss[1..][..m];
      assert Concat(ss[..n]) == ss[0] + Concat(ss[1..][..m]);
      assert acc + Concat(ss[..n]) == acc' + Concat(ss[1..][..m]);
      assert n < |ss| ==> ss[n] == ss[1..][m];
      assert GreedyAt(ss, maxLength, acc, n, r);
    } else {
      assert Concat(ss[..0]) == [];
      assert acc + Concat(ss[..0]) == acc;
      assert GreedyAt(ss, maxLength, acc, 0, Pack(ss, maxLength, acc));
    }
  }

  /**
   * For `max >= 0` the summary fits in `max` characters, and the `"..."` branch is
   * never taken: the result is the stripped packing.
   */
  lemma SimpleSummaryBounded(text: string, maxLength: int)
    requires 0 <= maxLength
    ensures |SimpleSummary(text, maxLength)| <= maxLength
    ensures text != [] ==> SimpleSummary(text, maxLength) == Strip(Pack(SplitSentences(Strip(text)), maxLength, []))
  {
    if text != [] {
      PackBounded(SplitSentences(Strip(text)), maxLength, []);
    }
  }

  /** The marker is already stripped. */
  lemma EllipsisStripped()
    ensures Strip("...") == "..."
  {
    assert !IsSpace('.');
    assert DropWhile("...", IsSpace) == "...";
    assert DropWhileEnd("...", IsSpace) == "...";
  }

  /** The empty text is one empty sentence. */
  lemma SplitEmpty()
    ensures SplitSentences([]) == [[]]
  {
    assert BreakFrom([], 0) == None;
  }

  /** One empty sentence packs to nothing under a negative `max`. */
  lemma PackEmptyNegative(maxLength: int)
    requires maxLength < 0
    ensures Pack([[]], maxLength, []) == []
  {
    var one: seq<string> := [[]];
    assert one[1..] == [];
  }

  /** Whitespace-only text with a negative `max` reaches the `"..."` branch and gives just `"..."`. */
  lemma NegativeMaxGivesEllipsis(text: string, maxLength: int)
    requires text != [] && Strip(text) == [] && maxLength < 0
    ensures SimpleSummary(text, maxLength) == "..."
  {
    SplitEmpty();
    PackEmptyNegative(maxLength);
    FinishEmptyNegative(maxLength);
  }

  /** Nothing packed under a negative `max` is longer than `max`: it becomes the marker alone. */
  lemma FinishEmptyNegative(maxLength: int)
    requires maxLength < 0
    ensures Finish([], maxLength) == "..."
  {
    assert PyPrefix("", maxLength - 3) == [];
    assert PyPrefix("", maxLength - 3) + "..." == "...";
    EllipsisStripped();
  }

  /** The packing loop of `simple_summarize`, with its early `break`. */
  method SimpleSummarize(text: string, maxLength: int) returns (summary: string)
    ensures summary == SimpleSummary(text, maxLength)
  {
    if text == [] {
      return [];
    }
    var sentences := SplitSentences(Strip(text));
    summary := [];
    var i := 0;
    while i < |sentences|
      invariant 0 <= i <= |sentences|
      invariant Pack(sentences[i..], maxLength, summary) == Pack(sentences, maxLength, [])
    {
      var sentence := sentences[i];
      assert sentences[i..][0] == sentence && sentences[i..][1..] == sentences[i + 1..];
      if |summary| + |sentence| <= maxLength {
        summary := summary + sentence;
      } else {
        if summary == [] {
          summary := PyPrefix(sentence, maxLength);
        }
        break;
      }
      i := i + 1;
    }
    assert summary == Pack(sentences, maxLength, []);
    if |summary| > maxLength {
      summary := PyPrefix(summary, maxLength - 3) + "...";
    }
    summary := Strip(summary);
  }
}
