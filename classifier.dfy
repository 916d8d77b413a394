/**
 * The genre classifier: ask the model for one label and take the first configured
 * category whose lower-cased name occurs in the normalised reply.
 */
module Classifier {
  import opened Wrappers
  import opened Text
  import opened Llm
  import opened Articles

  const Other := "other"
  const DefaultCategories: seq<string> :=
    ["technology", "business", "politics", "entertainment", "sports", "science", "health", "other"]

  /** The labels used: the given ones, or the eight defaults when none are given. */
  function EffectiveCategories(names: seq<Option<string>>): (cats: seq<Option<string>>)
    ensures names != [] ==> cats == names
    ensures names == [] ==> |cats| == |DefaultCategories| && forall k :: 0 <= k < |cats| ==> cats[k] == Some(DefaultCategories[k])
  {
    if names == [] then seq(|DefaultCategories|, k requires 0 <= k < |DefaultCategories| => Some(DefaultCategories[k]))
    else names
  }

  /** A list with a `None` name makes `", ".join` raise before any call. */
  predicate AllNamed(cats: seq<Option<string>>) {
    forall k :: 0 <= k < |cats| ==> cats[k].Some?
  }

  function Names(cats: seq<Option<string>>): (names: seq<string>)
    requires AllNamed(cats)
    ensures |names| == |cats| && forall k :: 0 <= k < |cats| ==> cats[k] == Some(names[k])
  {
    seq(|cats|, k requires 0 <= k < |cats| => cats[k].value)
  }

  /** The article part of the prompt: the title, a blank line and the first 500 characters of content. */
  function ClassificationText(title: Option<string>, content: string): string {
    PyStr(title) + "\n\n" + PyPrefix(content, 500) + "..."
  }

  /** The index of the first label whose lower-cased form occurs in `result`, from `i` on. */
  function FirstMatch(cats: seq<string>, result: string, i: nat): (r: Option<nat>)
    requires i <= |cats|
    ensures r.Some? ==> i <= r.value < |cats| && Contains(result, Lower(cats[r.value]))
    ensures forall j :: i <= j < |cats| && (r.None? || j < r.value) ==> !Contains(result, Lower(cats[j]))
    decreases |cats| - i
  {
    if i == |cats| then None
    else if Contains(result, Lower(cats[i])) then Some(i)
    else FirstMatch(cats, result, i + 1)
  }

  /** `Classifier.classify` with the reply of `model`. */
  function Classification(title: Option<string>, content: string, names: seq<Option<string>>, model: Model): (r: string)
    ensures !Truthy(title) && content == [] ==> r == Other
  {
    var cats := EffectiveCategories(names);
    if !Truthy(title) && content == [] then Other
    else if !AllNamed(cats) then Other
    else
      var labels := Names(cats);
      match model(ClassifyPrompt(JoinWith(labels, ", "), ClassificationText(title, content)))
      case None => Other
      case Some(reply) =>
        match FirstMatch(labels, Lower(Strip(reply)), 0)
        case None => Other
        case Some(i) => labels[i]
  }

  /** The label is always one of the labels in use, or `other`. */
  lemma ClassificationInCategories(title: Option<string>, content: string, names: seq<Option<string>>, model: Model)
    ensures var r := Classification(title, content, names, model);
      r == Other || exists k :: 0 <= k < |EffectiveCategories(names)| && EffectiveCategories(names)[k] == Some(r)
  {
    var cats := EffectiveCategories(names);
    var r := Classification(title, content, names, model);
    if r != Other {
      var labels := Names(cats);
      var reply := model(ClassifyPrompt(JoinWith(labels, ", "), ClassificationText(title, content))).value;
      var i := FirstMatch(labels, Lower(Strip(reply)), 0).value;
      assert cats[i] == Some(r);
    }
  }

  /** With a title or content, named labels and a reply, the result is the first match or `other`. */
  lemma ClassificationOfReply(title: Option<string>, content: string, names: seq<Option<string>>, model: Model)
    requires Truthy(title) || content != []
    requires AllNamed(EffectiveCategories(names))
    requires model(ClassifyPrompt(JoinWith(Names(EffectiveCategories(names)), ", "), ClassificationText(title, content))).Some?
    ensures var labels := Names(EffectiveCategories(names));
      var reply := model(ClassifyPrompt(JoinWith(labels, ", "), ClassificationText(title, content))).value;
      var m := FirstMatch(labels, Lower(Strip(reply)), 0);
      Classification(title, content, names, model) == if m.Some? then labels[m.value] else Other
  {
  }

  /**
   * A label other than `other` is the first one in list order whose name occurs in the
   * stripped, lower-cased reply: a later label that also occurs never wins.
   */
  lemma ClassificationFirstMatch(title: Option<string>, content: string, names: seq<Option<string>>, model: Model, k: nat)
    requires Truthy(title) || content != []
    requires AllNamed(EffectiveCategories(names))
    requires model(ClassifyPrompt(JoinWith(Names(EffectiveCategories(names)), ", "), ClassificationText(title, content))).Some?
    requires k < |EffectiveCategories(names)|
    requires var reply := model(ClassifyPrompt(JoinWith(Names(EffectiveCategories(names)), ", "), ClassificationText(title, content))).value;
      Contains(Lower(Strip(reply)), Lower(Names(EffectiveCategories(names))[k]))
    ensures var labels := Names(EffectiveCategories(names));
      var result := Lower(Strip(model(ClassifyPrompt(JoinWith(labels, ", "), ClassificationText(title, content))).value));
      exists j :: 0 <= j <= k && Classification(title, content, names, model) == labels[j]
        && Contains(result, Lower(labels[j]))
        && forall i :: 0 <= i < j ==> !Contains(result, Lower(labels[i]))
  {
    var labels := Names(EffectiveCategories(names));
    var result := Lower(Strip(model(ClassifyPrompt(JoinWith(labels, ", "), ClassificationText(title, content))).value));
    ClassificationOfReply(title, content, names, model);
    var m := FirstMatch(labels, result, 0);
    assert m.Some? && m.value <= k;
    FirstMatchIsFirst(labels, result, m.value);
  }

  /** The first match occurs, and no earlier label does. */
  lemma FirstMatchIsFirst(labels: seq<string>, result: string, j: nat)
    requires FirstMatch(labels, result, 0) == Some(j)
    ensures j < |labels| && Contains(result, Lower(labels[j]))
    ensures forall i :: 0 <= i < j ==> !Contains(result, Lower(labels[i]))
  {
  }

  /**
   * The fallbacks: a model that gives no reply, or a reply in which no label occurs
   * once stripped and lower-cased, gives `other`.
   */
  lemma ClassificationFallback(title: Option<string>, content: string, names: seq<Option<string>>, model: Model)
    requires AllNamed(EffectiveCategories(names))
    ensures var labels := Names(EffectiveCategories(names));
      var reply := model(ClassifyPrompt(JoinWith(labels, ", "), ClassificationText(title, content)));
      reply.None? ==> Classification(title, content, names, model) == Other
    ensures var labels := Names(EffectiveCategories(names));
      var reply := model(ClassifyPrompt(JoinWith(labels, ", "), ClassificationText(title, content)));
      reply.Some? && (forall i :: 0 <= i < |labels| ==> !Contains(Lower(Strip(reply.value)), Lower(labels[i]))) ==>
        Classification(title, content, names, model) == Other
  {
    var labels := Names(EffectiveCategories(names));
    var reply := model(ClassifyPrompt(JoinWith(labels, ", "), ClassificationText(title, content)));
    if reply.Some? && (forall i :: 0 <= i < |labels| ==> !Contains(Lower(Strip(reply.value)), Lower(labels[i]))) {
      var m := FirstMatch(labels, Lower(Strip(reply.value)), 0);
      assert m.None?;
    }
  }

  /** With no label list given, a reply naming a default label gives that label. */
  lemma DefaultLabelChosen()
    ensures Classification(Some("t"), "", [], _ => Some(" Sports\n")) == "sports"
  {
    var model: Model := _ => Some(" Sports\n");
    var labels := Names(EffectiveCategories([]));
    assert labels == DefaultCategories;
    ClassificationOfReply(Some("t"), "", [], model);
    NormalisedReply();
    SportsFirst();
  }

  lemma NormalisedReply()
    ensures Lower(Strip(" Sports\n")) == "sports"
  {
    StripReply();
    LowerReply();
  }

  lemma StripReply()
    ensures Strip(" Sports\n") == "Sports"
  {
    LeadingSpace();
    TrailingNewline();
  }

  lemma LeadingSpace()
    ensures DropWhile(" Sports\n", IsSpace) == "Sports\n"
  {
    var s := " Sports\n";
    assert IsSpace(s[0]) && s[1..] == "Sports\n";
    assert !IsSpace('S');
  }

  lemma TrailingNewline()
    ensures DropWhileEnd("Sports\n", IsSpace) == "Sports"
  {
    assert IsSpace('\n') && "Sports\n"[..6] == "Sports";
    assert !IsSpace('s');
  }

  lemma LowerReply()
    ensures Lower("Sports") == "sports"
  {
    var l := Lower("Sports");
    assert l[0] == 's' && l[1] == 'p' && l[2] == 'o' && l[3] == 'r' && l[4] == 't' && l[5] == 's';
  }

  lemma SportsFirst()
    ensures FirstMatch(DefaultCategories, "sports", 0) == Some(4)
  {
    var labels := DefaultCategories;
    assert StartsWith("sports", Lower(labels[4]));
    assert FirstMatch(labels, "sports", 4) == Some(4);
    forall j | 0 <= j < 4
      ensures !Contains("sports", Lower(labels[j]))
    {
      ShorterHayLacks("sports", Lower(labels[j]));
    }
  }

  lemma {:induction false} ShorterHayLacks(hay: string, needle: string)
    requires |hay| < |needle|
    ensures !Contains(hay, needle)
    decreases |hay|
  {
    if hay != [] {
      ShorterHayLacks(hay[1..], needle);
    }
  }

  method Classify(title: Option<string>, content: string, names: seq<Option<string>>, model: Model) returns (r: string)
    ensures r == Classification(title, content, names, model)
  {
    if !Truthy(title) && content == [] {
      return Other;
    }
    var cats := EffectiveCategories(names);
    if !AllNamed(cats) {
      return Other;
    }
    var labels := Names(cats);
    var reply := model(ClassifyPrompt(JoinWith(labels, ", "), ClassificationText(title, content)));
    if reply.None? {
      return Other;
    }
    var result := Lower(Strip(reply.value));
    for i := 0 to |labels|
      invariant FirstMatch(labels, result, i) == FirstMatch(labels, result, 0)
    {
      if Contains(result, Lower(labels[i])) {
        return labels[i];
      }
    }
    return Other;
  }
}
