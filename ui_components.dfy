/**
 * The settings panel of the bot: the category editor's text form and its parser, the
 * on/off switches, the API-key form, the feed picker and the grouping of feeds by
 * channel.  Discord delivers the pressed button or the submitted text; those are the
 * methods' inputs here.
 */
module BotUi {
  import opened Wrappers
  import opened Text
  import opened Articles
  import V = Values
  import Config

  /*** The category editor's text form ***/

  /** One category as its editor line without the newline: the three fields, a missing one as `""`. */
  function Body(c: Category): string {
    c.name.GetOr("") + "," + c.jpName.GetOr("") + "," + c.emoji.GetOr("")
  }

  /** The categories as the editor text, one `name,jp_name,emoji` line each. */
  function Serialised(cats: seq<Category>): string {
    if cats == [] then [] else Body(cats[0]) + "\n" + Serialised(cats[1..])
  }

  /** One editor line read back: a blank line or one with fewer than three comma parts gives nothing. */
  function LineCategory(line: string): (r: Option<Category>)
    ensures r.Some? ==> Strip(line) != [] && |Split(line, ',')| >= 3
  {
    if Strip(line) == [] then None
    else
      var parts := Split(line, ',');
      if |parts| >= 3 then Some(Category(Some(Strip(parts[0])), Some(Strip(parts[1])), Some(Strip(parts[2]))))
      else None
  }

  /** The category a line gives, as a list of zero or one. */
  function LineCategories(line: string): seq<Category> {
    match LineCategory(line)
    case Some(c) => [c]
    case None => []
  }

  function ParsedLines(lines: seq<string>): seq<Category> {
    if lines == [] then [] else ParsedLines(lines[..|lines| - 1]) + LineCategories(lines[|lines| - 1])
  }

  /** Reading one more line appends what that line gives. */
  lemma ParsedLinesSnoc(lines: seq<string>, i: nat)
    requires i < |lines|
    ensures ParsedLines(lines[..i + 1]) == ParsedLines(lines[..i]) + LineCategories(lines[i])
  {
    assert lines[..i + 1][..i] == lines[..i];
  }

  /** The submitted editor text read as categories. */
  function Parsed(text: string): seq<Category> {
    ParsedLines(Split(Strip(text), '\n'))
  }

  /** A field as the editor shows it, such that reading the line back gives it unchanged. */
  predicate PlainField(x: string) {
    Stripped(x) && ',' !in x && '\n' !in x
  }

  predicate Plain(c: Category) {
    PlainField(c.name.GetOr("")) && PlainField(c.jpName.GetOr("")) && PlainField(c.emoji.GetOr(""))
  }

  /** A category with its missing fields written as `""`, as reading its line gives it. */
  function Filled(c: Category): Category {
    Category(Some(c.name.GetOr("")), Some(c.jpName.GetOr("")), Some(c.emoji.GetOr("")))
  }

  /** Each category with its missing fields written as `""`. */
  function AllFilled(cats: seq<Category>): (r: seq<Category>)
    ensures |r| == |cats| && forall k :: 0 <= k < |cats| ==> r[k] == Filled(cats[k])
  {
    if cats == [] then [] else AllFilled(cats[..|cats| - 1]) + [Filled(cats[|cats| - 1])]
  }

  /** A part of a split holds no character the text lacks. */
  lemma {:induction false} SplitKeepsOut(s: string, sep: char, c: char)
    requires c !in s
    ensures forall k :: 0 <= k < |Split(s, sep)| ==> c !in Split(s, sep)[k]
    decreases |s|
  {
    if sep in s {
      var i := IndexOf(s, sep);
      assert c !in s[..i] && c !in s[i + 1..];
      SplitKeepsOut(s[i + 1..], sep, c);
    }
  }

  /** A line without a newline reads as a category whose fields are all present and plain. */
  lemma LineCategoryShape(line: string)
    requires '\n' !in line
    ensures var r := LineCategory(line);
      r.Some? ==> r.value.name.Some? && r.value.jpName.Some? && r.value.emoji.Some? && Plain(r.value)
  {
    var parts := Split(line, ',');
    if |parts| >= 3 {
      SplitKeepsOut(line, ',', '\n');
      FieldPlain(parts[0]);
      FieldPlain(parts[1]);
      FieldPlain(parts[2]);
    }
  }

  /** A comma part of a single line, stripped, is a plain field. */
  lemma FieldPlain(x: string)
    requires ',' !in x && '\n' !in x
    ensures PlainField(Strip(x))
  {
    StripIdempotent(x);
    StrippedFixed(Strip(x));
    StripKeepsOut(x, ',');
    StripKeepsOut(x, '\n');
  }

  lemma {:induction false} ParsedLinesShape(lines: seq<string>)
    requires forall k :: 0 <= k < |lines| ==> '\n' !in lines[k]
    ensures forall k :: 0 <= k < |ParsedLines(lines)| ==>
      var c := ParsedLines(lines)[k];
      c.name.Some? && c.jpName.Some? && c.emoji.Some? && Plain(c)
  {
    if lines != [] {
      ParsedLinesShape(lines[..|lines| - 1]);
      LineCategoryShape(lines[|lines| - 1]);
    }
  }

  /**
   * Every category read from the editor text has all three fields, each stripped and
   * free of commas and newlines, so it is written back as the same line.
   */
  lemma ParsedShape(text: string)
    ensures forall k :: 0 <= k < |Parsed(text)| ==>
      var c := Parsed(text)[k];
      c.name.Some? && c.jpName.Some? && c.emoji.Some? && Plain(c)
  {
    ParsedLinesShape(Split(Strip(text), '\n'));
  }

  /** The editor lines of the categories, without their newlines. */
  function Bodies(cats: seq<Category>): (r: seq<string>)
    ensures |r| == |cats| && forall k :: 0 <= k < |cats| ==> r[k] == Body(cats[k])
  {
    seq(|cats|, k requires 0 <= k < |cats| => Body(cats[k]))
  }

  lemma {:induction false} SerialisedIsJoin(cats: seq<Category>)
    requires cats != []
    ensures Serialised(cats) == Join(Bodies(cats), '\n') + "\n"
    decreases |cats|
  {
    var rest := cats[1..];
    if rest != [] {
      SerialisedIsJoin(rest);
      assert Bodies(cats)[1..] == Bodies(rest);
    }
  }

  lemma {:induction false} JoinEnds(parts: seq<string>, sep: char)
    requires |parts| >= 1
    ensures |Join(parts, sep)| >= |parts[0]| && Join(parts, sep)[..|parts[0]|] == parts[0]
    ensures |Join(parts, sep)| >= |parts[|parts| - 1]|
    ensures Join(parts, sep)[|Join(parts, sep)| - |parts[|parts| - 1]|..] == parts[|parts| - 1]
    decreases |parts|
  {
    if |parts| > 1 {
      JoinEnds(parts[1..], sep);
    }
  }

  /** Stripping a stripped line followed by one newline gives the line back. */
  lemma StripNewline(x: string)
    requires x != [] && Stripped(x)
    ensures Strip(x + "\n") == x
  {
    var s := x + "\n";
    assert DropWhile(s, IsSpace) == s;
    assert s[..|s| - 1] == x;
    assert DropWhileEnd(x, IsSpace) == x;
  }

  /** A plain category's line reads back as the category with its missing fields as `""`. */
  lemma BodyParses(c: Category)
    requires Plain(c)
    ensures LineCategories(Body(c)) == [Filled(c)]
  {
    var n, j, e := c.name.GetOr(""), c.jpName.GetOr(""), c.emoji.GetOr("");
    BodyEnds(c);
    StrippedFixed(Body(c));
    BodyIsJoin(c);
    SplitJoin([n, j, e], ',');
    StrippedFixed(n);
    StrippedFixed(j);
    StrippedFixed(e);
  }

  /** A line is its three fields joined by commas. */
  lemma BodyIsJoin(c: Category)
    ensures Body(c) == Join([c.name.GetOr(""), c.jpName.GetOr(""), c.emoji.GetOr("")], ',')
  {
    var n, j, e := c.name.GetOr(""), c.jpName.GetOr(""), c.emoji.GetOr("");
    assert [n, j, e][1..] == [j, e] && [j, e][1..] == [e];
    assert Join([e], ',') == e;
    assert Join([j, e], ',') == j + [','] + e;
    assert Join([n, j, e], ',') == n + [','] + (j + [','] + e);
  }

  lemma BodiesStep(cats: seq<Category>)
    requires cats != []
    ensures ParsedLines(Bodies(cats)) == ParsedLines(Bodies(cats[..|cats| - 1])) + LineCategories(Body(cats[|cats| - 1]))
  {
    var n := |cats|;
    assert Bodies(cats)[..n - 1] == Bodies(cats[..n - 1]);
  }

  lemma {:induction false} BodiesParse(cats: seq<Category>)
    requires forall k :: 0 <= k < |cats| ==> Plain(cats[k])
    ensures ParsedLines(Bodies(cats)) == AllFilled(cats)
    decreases |cats|
  {
    if cats != [] {
      BodiesStep(cats);
      BodyParses(cats[|cats| - 1]);
      BodiesParse(cats[..|cats| - 1]);
    }
  }

  /**
   * Reading back the editor text gives the categories again, each missing field as
   * `""`, when no field holds a comma or a newline or has whitespace at its ends; no
   * categories give an empty text, which reads back as none.
   */
  lemma CategoriesRoundTrip(cats: seq<Category>)
    requires forall k :: 0 <= k < |cats| ==> Plain(cats[k])
    ensures Parsed(Serialised(cats)) == AllFilled(cats)
  {
    if cats == [] {
      EmptyTextParses();
    } else {
      SerialisedLines(cats);
      BodiesParse(cats);
    }
  }

  /** An empty editor text reads back as no categories. */
  lemma EmptyTextParses()
    ensures Parsed([]) == []
  {
    assert Strip([]) == [];
    assert Split([], '\n') == [[]];
    assert LineCategories([]) == [];
  }

  /** The lines of a non-empty editor text, once stripped, are the categories' lines. */
  lemma SerialisedLines(cats: seq<Category>)
    requires cats != [] && forall k :: 0 <= k < |cats| ==> Plain(cats[k])
    ensures Split(Strip(Serialised(cats)), '\n') == Bodies(cats)
  {
    var bodies := Bodies(cats);
    SerialisedIsJoin(cats);
    JoinedStripped(cats);
    StripNewline(Join(bodies, '\n'));
    SplitJoin(bodies, '\n');
  }

  /** The first character of a plain category's line is no whitespace, and neither is its last. */
  lemma BodyEnds(c: Category)
    requires Plain(c)
    ensures var b := Body(c); b != [] && !IsSpace(b[0]) && !IsSpace(b[|b| - 1]) && '\n' !in b
  {
    var n, e := c.name.GetOr(""), c.emoji.GetOr("");
    var b := Body(c);
    assert b[|n|] == ',';
    if n != [] {
      assert b[0] == n[0];
    }
    if e != [] {
      assert b[|b| - 1] == e[|e| - 1];
    } else {
      assert b[|b| - 1] == ',';
    }
  }

  /** The lines joined are non-empty and have no whitespace at either end. */
  lemma JoinedStripped(cats: seq<Category>)
    requires cats != [] && forall k :: 0 <= k < |cats| ==> Plain(cats[k])
    ensures Join(Bodies(cats), '\n') != [] && Stripped(Join(Bodies(cats), '\n'))
    ensures forall k :: 0 <= k < |Bodies(cats)| ==> '\n' !in Bodies(cats)[k]
  {
    var bodies := Bodies(cats);
    var text := Join(bodies, '\n');
    JoinEnds(bodies, '\n');
    var first, last := bodies[0], bodies[|bodies| - 1];
    BodyEnds(cats[0]);
    BodyEnds(cats[|cats| - 1]);
    assert text[0] == first[0];
    assert text[|text| - 1] == last[|last| - 1];
    forall k | 0 <= k < |bodies|
      ensures '\n' !in bodies[k]
    {
      BodyEnds(cats[k]);
    }
  }

  /** The modal's default text: the `+=` loop over the categories. */
  method SerialiseCategories(cats: seq<Category>) returns (text: string)
    ensures text == Serialised(cats)
  {
    text := "";
    for i := 0 to |cats|
      invariant text + Serialised(cats[i..]) == Serialised(cats)
    {
      var c := cats[i];
      assert cats[i..][1..] == cats[i + 1..];
      text := text + c.name.GetOr("") + "," + c.jpName.GetOr("") + "," + c.emoji.GetOr("") + "\n";
    }
  }

  /** `on_submit` of the category modal: the line loop with its `continue` and `append`. */
  method ParseCategories(input: string) returns (cats: seq<Category>)
    ensures cats == Parsed(input)
  {
    var lines := Split(Strip(input), '\n');
    cats := [];
    for i := 0 to |lines|
      invariant cats == ParsedLines(lines[..i])
    {
      var line := lines[i];
      ParsedLinesSnoc(lines, i);
      if Strip(line) == [] {
        continue;
      }
      var parts := Split(line, ',');
      if |parts| >= 3 {
        cats := cats + [Category(Some(Strip(parts[0])), Some(Strip(parts[1])), Some(Strip(parts[2])))];
      }
    }
    assert lines[..|lines|] == lines;
  }

  /*** The settings stored as categories ***/

  /** A category dictionary whose fields are strings where present. */
  predicate CategoryObject(v: V.Value) {
    v.VObject? && forall k :: k in v.fields ==> v.fields[k].VStr?
  }

  function StringField(fields: map<string, V.Value>, key: string): Option<string> {
    if key in fields && fields[key].VStr? then Some(fields[key].s) else None
  }

  function CategoryOf(v: V.Value): Category {
    if v.VObject? then Category(StringField(v.fields, "name"), StringField(v.fields, "jp_name"), StringField(v.fields, "emoji"))
    else Category(None, None, None)
  }

  /** `config.get("categories", [])` read as categories. */
  function CategoriesIn(c: Config.Settings): seq<Category> {
    if "categories" in c && c["categories"].VList? then
      var items := c["categories"].items;
      seq(|items|, k requires 0 <= k < |items| => CategoryOf(items[k]))
    else []
  }

  /** The stored form of a parsed category. */
  function CategoryValue(c: Category): V.Value {
    Config.CategoryValue(c.name.GetOr(""), c.jpName.GetOr(""), c.emoji.GetOr(""))
  }

  /** A stored category reads back as the category it was made from, its missing fields as `""`. */
  lemma CategoryValueRoundTrip(c: Category)
    ensures CategoryObject(CategoryValue(c)) && CategoryOf(CategoryValue(c)) == Filled(c)
  {
  }

  /*** The switches ***/

  /** `config[key] = not config.get(key, default)`. */
  function Flipped(c: Config.Settings, key: string, default: bool): (r: Config.Settings)
    ensures key in r && r[key] == V.VBool(!V.Switch(c, key, default))
    ensures forall k :: k in c && k != key ==> k in r && r[k] == c[k]
    ensures r.Keys == c.Keys + {key}
  {
    c[key := V.VBool(!V.Switch(c, key, default))]
  }

  /**
   * Two presses leave the switch at the truth value it had; a switch that already held
   * a boolean is restored exactly, and so is the whole configuration.
   */
  lemma FlipTwice(c: Config.Settings, key: string, default: bool)
    ensures Flipped(Flipped(c, key, default), key, default)[key] == V.VBool(V.Switch(c, key, default))
    ensures key in c && c[key].VBool? ==> Flipped(Flipped(c, key, default), key, default) == c
  {
    var twice := Flipped(Flipped(c, key, default), key, default);
    if key in c && c[key].VBool? {
      assert twice.Keys == c.Keys;
    }
  }

  /*** The API-key form ***/

  /** `config.get("gemini_api_keys", [])`. */
  function KeysIn(c: Config.Settings): seq<V.Value>
    requires "gemini_api_keys" in c ==> c["gemini_api_keys"].VList?
  {
    if "gemini_api_keys" in c then c["gemini_api_keys"].items else []
  }

  /** The configuration after submitting a key that is not blank. */
  function WithKey(c: Config.Settings, key: string): (r: Config.Settings)
    requires "gemini_api_keys" in c ==> c["gemini_api_keys"].VList?
  {
    if V.VStr(key) in KeysIn(c) then c else c["gemini_api_keys" := V.VList([V.VStr(key)] + KeysIn(c))]
  }

  predicate NoDuplicates<T(==)>(s: seq<T>) {
    forall i, j :: 0 <= i < j < |s| ==> s[i] != s[j]
  }

  /**
   * A new key goes to the front of the list and nothing else changes; a key already
   * listed changes nothing; either way the key is listed afterwards and no duplicate is
   * introduced.
   */
  lemma WithKeySpec(c: Config.Settings, key: string)
    requires "gemini_api_keys" in c ==> c["gemini_api_keys"].VList?
    ensures var r := WithKey(c, key);
      "gemini_api_keys" in r && r["gemini_api_keys"].VList? && V.VStr(key) in KeysIn(r)
      && (V.VStr(key) in KeysIn(c) ==> r == c)
      && (V.VStr(key) !in KeysIn(c) ==>
            KeysIn(r) == [V.VStr(key)] + KeysIn(c)
            && forall k :: k in c && k != "gemini_api_keys" ==> k in r && r[k] == c[k])
      && (NoDuplicates(KeysIn(c)) ==> NoDuplicates(KeysIn(r)))
  {
    var r := WithKey(c, key);
    if V.VStr(key) in KeysIn(c) {
      assert "gemini_api_keys" in c;
    } else {
      var ks := KeysIn(r);
      assert ks[0] == V.VStr(key);
      assert forall i :: 1 <= i < |ks| ==> ks[i] == KeysIn(c)[i - 1];
    }
  }

  /*** The feed picker ***/

  /** One entry of a select menu. */
  datatype SelectOption = SelectOption(caption: string, description: string, value: string)

  /** Discord's limit on the options of a select menu. */
  const MaxOptions := 25
  /** Discord's limit on an option's label and description. */
  const OptionTextLength := 100
  const UnknownFeed := "Unknown Feed"

  /** The option of the feed at index `i`: title and URL cut to 100 characters, the index as value. */
  function FeedOption(i: nat, f: Feed): SelectOption {
    SelectOption(Ellipsize(f.title.GetOr(UnknownFeed), OptionTextLength), Ellipsize(f.url.GetOr(""), OptionTextLength), NatString(i))
  }

  function FeedOptionsOf(feeds: seq<Feed>): seq<SelectOption> {
    var n := if |feeds| < MaxOptions then |feeds| else MaxOptions;
    seq(n, i requires 0 <= i < n && n <= |feeds| => FeedOption(i, feeds[i]))
  }

  /**
   * The first 25 feeds get one option each, in order: labels and descriptions fit in 100
   * characters (kept whole when they fit, else 97 characters and `"..."`), and the
   * selection callback's `int(value)` finds the feed the option was made from.
   */
  lemma FeedOptionsSpec(feeds: seq<Feed>)
    ensures |FeedOptionsOf(feeds)| == if |feeds| < MaxOptions then |feeds| else MaxOptions
    ensures forall i :: 0 <= i < |FeedOptionsOf(feeds)| ==>
      var o := FeedOptionsOf(feeds)[i];
      var title := feeds[i].title.GetOr(UnknownFeed);
      |o.caption| <= OptionTextLength && |o.description| <= OptionTextLength
      && (|title| <= OptionTextLength ==> o.caption == title)
      && (|title| > OptionTextLength ==> o.caption == title[..97] + Ellipsis)
      && ParseNat(o.value) == i
  {
    forall i | 0 <= i < |FeedOptionsOf(feeds)|
      ensures ParseNat(FeedOptionsOf(feeds)[i].value) == i
    {
      NatStringRoundTrip(i);
    }
  }

  /** `FeedSelect.__init__`: the option loop over `feeds[:25]`. */
  method FeedOptions(feeds: seq<Feed>) returns (options: seq<SelectOption>)
    ensures options == FeedOptionsOf(feeds)
  {
    var shown := PyPrefix(feeds, MaxOptions);
    options := [];
    for i := 0 to |shown|
      invariant |options| == i
      invariant forall k :: 0 <= k < i ==> options[k] == FeedOption(k, feeds[k])
    {
      var feed := shown[i];
      var title := feed.title.GetOr(UnknownFeed);
      var url := feed.url.GetOr("");
      if |title| > OptionTextLength {
        title := title[..97] + "...";
      }
      var description := if |url| <= OptionTextLength then PyPrefix(url, OptionTextLength) else url[..97] + "...";
      options := options + [SelectOption(title, description, NatString(i))];
    }
  }

  /*** Feeds grouped by channel ***/

  /** A feed's channel when it has a truthy one. */
  function ChannelOf(f: Feed): Option<string> {
    if Truthy(f.channelId) then f.channelId else None
  }

  /** The feeds of one channel, in order. */
  function FeedsOf(feeds: seq<Feed>, cid: string): (r: seq<Feed>)
    ensures |r| <= |feeds|
    ensures forall k :: 0 <= k < |r| ==> r[k] in feeds && ChannelOf(r[k]) == Some(cid)
  {
    if feeds == [] then []
    else
      var init := FeedsOf(feeds[..|feeds| - 1], cid);
      var f := feeds[|feeds| - 1];
      if ChannelOf(f) == Some(cid) then init + [f] else init
  }

  /** The grouping loop: each feed with a channel is appended to that channel's list. */
  function Grouped(feeds: seq<Feed>): map<string, seq<Feed>> {
    if feeds == [] then map[]
    else
      var g := Grouped(feeds[..|feeds| - 1]);
      var f := feeds[|feeds| - 1];
      match ChannelOf(f)
      case None => g
      case Some(cid) => g[cid := (if cid in g then g[cid] else []) + [f]]
  }

  /** The channels in the order they first appear, as the dictionary keeps its keys. */
  function ChannelOrder(feeds: seq<Feed>): seq<string> {
    if feeds == [] then []
    else
      var order := ChannelOrder(feeds[..|feeds| - 1]);
      match ChannelOf(feeds[|feeds| - 1])
      case None => order
      case Some(cid) => if cid in order then order else order + [cid]
  }

  /**
   * A channel is a key exactly when some feed names it, its list is that channel's feeds
   * in feed order, and feeds without a channel appear nowhere; the key order lists each
   * channel once.
   */
  lemma {:induction false} GroupedSpec(feeds: seq<Feed>)
    ensures forall cid :: cid in Grouped(feeds) <==> exists k :: 0 <= k < |feeds| && ChannelOf(feeds[k]) == Some(cid)
    ensures forall cid :: cid in Grouped(feeds) ==> Grouped(feeds)[cid] == FeedsOf(feeds, cid) && Grouped(feeds)[cid] != []
    ensures forall cid :: cid !in Grouped(feeds) ==> FeedsOf(feeds, cid) == []
    ensures forall cid :: cid in ChannelOrder(feeds) <==> cid in Grouped(feeds)
    ensures NoDuplicates(ChannelOrder(feeds))
  {
    if feeds != [] {
      var init := feeds[..|feeds| - 1];
      GroupedSpec(init);
      var f := feeds[|feeds| - 1];
      forall cid
        ensures cid in Grouped(feeds) <==> exists k :: 0 <= k < |feeds| && ChannelOf(feeds[k]) == Some(cid)
      {
        if exists k :: 0 <= k < |feeds| && ChannelOf(feeds[k]) == Some(cid) {
          var k :| 0 <= k < |feeds| && ChannelOf(feeds[k]) == Some(cid);
          if k < |init| {
            assert init[k] == feeds[k];
          }
        }
        if cid in Grouped(init) {
          var k :| 0 <= k < |init| && ChannelOf(init[k]) == Some(cid);
          assert feeds[k] == init[k];
        }
      }
    }
  }

  /** `ChannelListView.__init__` and `RemoveChannelSelect.__init__`: the grouping loop. */
  method GroupByChannel(feeds: seq<Feed>) returns (channels: map<string, seq<Feed>>, order: seq<string>)
    ensures channels == Grouped(feeds) && order == ChannelOrder(feeds)
  {
    channels := map[];
    order := [];
    for i := 0 to |feeds|
      invariant channels == Grouped(feeds[..i])
      invariant order == ChannelOrder(feeds[..i])
      invariant forall cid :: cid in order <==> cid in channels
    {
      assert feeds[..i + 1][..i] == feeds[..i];
      var feed := feeds[i];
      assert feeds[..i + 1][i] == feed;
      ghost var g := channels;
      var channelId := feed.channelId;
      if Truthy(channelId) {
        var cid := channelId.value;
        if cid !in channels {
          channels := channels[cid := []];
          order := order + [cid];
        }
        channels := channels[cid := channels[cid] + [feed]];
        assert ChannelOf(feed) == Some(cid);
        assert channels == g[cid := (if cid in g then g[cid] else []) + [feed]];
      }
    }
    assert feeds[..|feeds|] == feeds;
  }

  /*** The panel ***/

  /** The settings panel: its own view of the configuration, saved through the manager after each change. */
  class ConfigView {
    var config: Config.Settings
    const manager: Config.ConfigManager

    constructor(config: Config.Settings, manager: Config.ConfigManager)
      ensures this.config == config && this.manager == manager
    {
      this.config := config;
      this.manager := manager;
    }

    /** Flip a switch and hand the configuration to `update_config` (whose result is ignored). */
    method Toggle(key: string, default: bool)
      modifies this, manager
      ensures config == Flipped(old(config), key, default)
      ensures manager.config == old(manager.config) + config
    {
      var current := V.Switch(config, key, default);
      config := config[key := V.VBool(!current)];
      var saved := manager.UpdateConfig(config, true);
    }

    /** The summary switch, on by default. */
    method ToggleSummarize()
      modifies this, manager
      ensures config == Flipped(old(config), "summarize", true)
      ensures manager.config == old(manager.config) + config
    {
      Toggle("summarize", true);
    }

    /** The classification switch, off by default. */
    method ToggleClassify()
      modifies this, manager
      ensures config == Flipped(old(config), "classify", false)
      ensures manager.config == old(manager.config) + config
    {
      Toggle("classify", false);
    }

    /** The thumbnail switch, on by default. */
    method ToggleThumbnails()
      modifies this, manager
      ensures config == Flipped(old(config), "use_thumbnails", true)
      ensures manager.config == old(manager.config) + config
    {
      Toggle("use_thumbnails", true);
    }

    /** `CategorySettingsModal.__init__`: the editor text for the configured categories. */
    method OpenCategorySettings() returns (text: string)
      ensures text == Serialised(CategoriesIn(config))
    {
      var cats := CategoriesIn(config);
      text := SerialiseCategories(cats);
    }

    /** `CategorySettingsModal.on_submit`: the parsed categories replace the configured ones. */
    method SubmitCategories(input: string) returns (count: nat)
      modifies this, manager
      ensures var cats := Parsed(input);
        count == |cats|
        && config == old(config)["categories" := V.VList(seq(|cats|, k requires 0 <= k < |cats| => CategoryValue(cats[k])))]
      ensures manager.config == old(manager.config) + config
    {
      var cats := ParseCategories(input);
      var values := seq(|cats|, k requires 0 <= k < |cats| => CategoryValue(cats[k]));
      config := config["categories" := V.VList(values)];
      var saved := manager.UpdateConfig(config, true);
      count := |cats|;
    }

    /**
     * `GeminiAPIKeyModal.on_submit`: a blank key is refused with nothing changed; a new
     * key is put first and saved; a listed key is accepted with nothing changed.
     */
    method SubmitApiKey(input: string) returns (accepted: bool)
      requires "gemini_api_keys" in config ==> config["gemini_api_keys"].VList?
      modifies this, manager
      ensures accepted <==> Strip(input) != []
      ensures config == if accepted then WithKey(old(config), Strip(input)) else old(config)
      ensures config == old(config) ==> manager.config == old(manager.config)
      ensures config != old(config) ==> manager.config == old(manager.config) + config
    {
      var key := Strip(input);
      if key == [] {
        return false;
      }
      var keys := KeysIn(config);
      if V.VStr(key) !in keys {
        keys := [V.VStr(key)] + keys;
        config := config["gemini_api_keys" := V.VList(keys)];
        var saved := manager.UpdateConfig(config, true);
      }
      return true;
    }
  }
}
