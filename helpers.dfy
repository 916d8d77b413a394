/**
 * The pure helpers of the Python back end: article fingerprints, date parsing over a
 * list of formats, HTML cleaning, channel names and the day-parity API-key choice.
 * SHA-256, MD5 and `strptime` are parameters.
 */
module Helpers {
  import opened Wrappers
  import opened Text
  import opened Articles

  // ---------------------------------------------------------------------------
  // Article fingerprints

  /** The string that is hashed: `f"{link}|{title}"`. */
  function FingerprintKey(link: string, title: string): string {
    link + "|" + title
  }

  /** The key of an entry; a `None` title is formatted as `"None"`. */
  function EntryKey(e: Entry): string {
    FingerprintKey(e.link, PyStr(e.title))
  }

  /** `generate_article_id`: the SHA-256 hex digest of the key. */
  function GenerateArticleId(e: Entry, sha256: string -> string): (id: string)
    ensures id == sha256(EntryKey(e))
  {
    sha256(EntryKey(e))
  }

  /** The id depends on the link and the title only. */
  lemma IdDependsOnKeyOnly(a: Entry, b: Entry, sha256: string -> string)
    requires a.link == b.link && a.title == b.title
    ensures GenerateArticleId(a, sha256) == GenerateArticleId(b, sha256)
  {
  }

  /** With the title fixed, different links give different keys. */
  lemma {:induction false} KeyDistinguishesLinks(l1: string, l2: string, title: string)
    requires l1 != l2
    ensures FingerprintKey(l1, title) != FingerprintKey(l2, title)
  {
    var k1 := FingerprintKey(l1, title);
    var k2 := FingerprintKey(l2, title);
    if |l1| == |l2| {
      assert k1[..|l1|] == l1;
      assert k2[..|l1|] == l2;
    } else {
      assert |k1| != |k2|;
    }
  }

  /** With the link fixed, different titles give different keys. */
  lemma {:induction false} KeyDistinguishesTitles(link: string, t1: string, t2: string)
    requires t1 != t2
    ensures FingerprintKey(link, t1) != FingerprintKey(link, t2)
  {
    var k1 := FingerprintKey(link, t1);
    var k2 := FingerprintKey(link, t2);
    if |t1| == |t2| {
      assert k1[|link| + 1..] == t1;
      assert k2[|link| + 1..] == t2;
    } else {
      assert |k1| != |k2|;
    }
  }

  /** The joined key is not injective: a `|` may sit in either field. */
  lemma KeyNotInjective()
    ensures FingerprintKey("a|b", "c") == FingerprintKey("a", "b|c")
    ensures ("a|b", "c") != ("a", "b|c")
  {
  }

  // ---------------------------------------------------------------------------
  // Dates

  /** A parsed date: seconds of local time and the UTC offset in minutes, if any. */
  datatype DateTime = DateTime(local: int, offset: Option<int>)

  /** The formats `parse_datetime` tries, in order. */
  const DateFormats: seq<string> := [
    "%a, %d %b %Y %H:%M:%S %z",
    "%a, %d %b %Y %H:%M:%S %Z",
    "%Y-%m-%dT%H:%M:%S%z",
    "%Y-%m-%dT%H:%M:%SZ",
    "%Y-%m-%d %H:%M:%S"]

  /** A result without a time zone is taken to be UTC. */
  function WithUtc(d: DateTime): DateTime {
    if d.offset.None? then d.(offset := Some(0)) else d
  }

  /**
   * `parse_datetime`: the first format `strptime` accepts, with a missing zone set to
   * UTC; `None` when none does.
   */
  function ParseDatetime(s: string, formats: seq<string>, strptime: (string, string) -> Option<DateTime>): (r: Option<DateTime>)
    ensures r.None? <==> forall i :: 0 <= i < |formats| ==> strptime(s, formats[i]).None?
    ensures r.Some? ==> exists i :: (0 <= i < |formats| && strptime(s, formats[i]).Some?
      && (forall j :: 0 <= j < i ==> strptime(s, formats[j]).None?)
      && r.value == WithUtc(strptime(s, formats[i]).value))
    ensures r.Some? ==> r.value.offset.Some?
  {
    if formats == [] then None
    else match strptime(s, formats[0])
      case Some(d) => Some(WithUtc(d))
      case None =>
        var r := ParseDatetime(s, formats[1..], strptime);
        assert forall i :: 1 <= i < |formats| ==> formats[i] == formats[1..][i - 1];
        r
  }

  // ---------------------------------------------------------------------------
  // HTML cleaning

  /** `clean_html`: drop tags, collapse whitespace runs to one space, strip. */
  function CleanHtml(s: string): (r: string)
    ensures s == [] ==> r == []
  {
    if s == [] then [] else Strip(ReplaceRuns(RemoveTags(s), IsSpace, ' '))
  }

  /** The cleaned text has no whitespace at either end and no two whitespace characters in a row. */
  lemma CleanHtmlNormalised(s: string)
    ensures var r := CleanHtml(s); |r| <= |s| && Stripped(r) && NoAdjacent(r, IsSpace)
  {
    if s != [] {
      var collapsed := ReplaceRuns(RemoveTags(s), IsSpace, ' ');
      assert NoAdjacent(collapsed, IsSpace);
      StripKeepsNoAdjacent(collapsed);
    }
  }

  /** Stripping keeps a text free of adjacent whitespace. */
  lemma StripKeepsNoAdjacent(x: string)
    requires NoAdjacent(x, IsSpace)
    ensures NoAdjacent(Strip(x), IsSpace)
  {
    SliceKeepsNoAdjacent(x, LeadLength(x, IsSpace), |Strip(x)|, IsSpace);
  }

  /** A slice of a string without adjacent `p`-characters has none either. */
  lemma SliceKeepsNoAdjacent(s: string, k: nat, n: nat, p: char -> bool)
    requires k + n <= |s| && NoAdjacent(s, p)
    ensures NoAdjacent(s[k..k + n], p)
  {
    var t := s[k..k + n];
    forall i | 0 <= i < |t| - 1 ensures !(p(t[i]) && p(t[i + 1])) {
      assert t[i] == s[k + i] && t[i + 1] == s[k + i + 1];
    }
  }

  // ---------------------------------------------------------------------------
  // Channel names

  /** Python's `\w` on `str`: ASCII letters, digits and `_`, plus the Unicode word characters `unicodeWord` names. */
  predicate IsWordChar(c: char, unicodeWord: char -> bool) {
    ('a' <= c <= 'z') || ('A' <= c <= 'Z') || ('0' <= c <= '9') || c == '_'
    || (c as int >= 128 && unicodeWord(c))
  }

  /** `re.sub(r"[^\w\s-]", "", s)`. */
  function KeepWordSpaceHyphen(s: string, unicodeWord: char -> bool): (r: string)
    ensures |r| <= |s|
    ensures forall i :: 0 <= i < |r| ==> IsWordChar(r[i], unicodeWord) || IsSpace(r[i]) || r[i] == '-'
  {
    if s == [] then []
    else
      var rest := KeepWordSpaceHyphen(s[1..], unicodeWord);
      if IsWordChar(s[0], unicodeWord) || IsSpace(s[0]) || s[0] == '-' then [s[0]] + rest else rest
  }

  /** `lower()`, then `[^\w\s-]` removed, whitespace runs and then hyphen runs made one `-`. */
  function Dashed(title: string, unicodeWord: char -> bool): (r: string)
  {
    ReplaceRuns(ReplaceRuns(KeepWordSpaceHyphen(Lower(title), unicodeWord), IsSpace, '-'), IsHyphen, '-')
  }

  /** The channel-name body derived from a title, before the `rss-` prefix: `strip("-")` and `[:90]`. */
  function TitleSlug(title: string, unicodeWord: char -> bool): (body: string)
  {
    PyPrefix(Trim(Dashed(title, unicodeWord), IsHyphen), 90)
  }

  lemma DashedShape(title: string, unicodeWord: char -> bool)
    ensures var d := Dashed(title, unicodeWord);
      NoAdjacent(d, IsHyphen) && forall i :: 0 <= i < |d| ==> !IsSpace(d[i])
  {
    var kept := KeepWordSpaceHyphen(Lower(title), unicodeWord);
    var dashed := ReplaceRuns(kept, IsSpace, '-');
    assert forall i :: 0 <= i < |dashed| ==> !IsSpace(dashed[i]);
    ReplaceRunsKeeps(dashed, IsHyphen, '-', c => !IsSpace(c));
  }

  /** Hyphen-free at the start, without `--` and without whitespace. */
  predicate Slug(x: string) {
    NoAdjacent(x, IsHyphen) && (x == [] || x[0] != '-') && forall i :: 0 <= i < |x| ==> !IsSpace(x[i])
  }

  lemma SliceOfSpaceFree(s: string, k: nat, n: nat)
    requires k + n <= |s| && forall i :: 0 <= i < |s| ==> !IsSpace(s[i])
    ensures var t := s[k..k + n]; forall i :: 0 <= i < |t| ==> !IsSpace(t[i])
  {
    var t := s[k..k + n];
    assert forall i :: 0 <= i < |t| ==> t[i] == s[k + i];
  }

  lemma TrimKeepsSlug(d: string)
    requires NoAdjacent(d, IsHyphen) && forall i :: 0 <= i < |d| ==> !IsSpace(d[i])
    ensures Slug(Trim(d, IsHyphen))
  {
    var k := LeadLength(d, IsHyphen);
    var t := Trim(d, IsHyphen);
    SliceKeepsNoAdjacent(d, k, |t|, IsHyphen);
    SliceOfSpaceFree(d, k, |t|);
  }

  lemma PrefixKeepsSlug(t: string, n: int)
    requires Slug(t) && n >= 0
    ensures Slug(PyPrefix(t, n))
  {
    var b := PyPrefix(t, n);
    SliceKeepsNoAdjacent(t, 0, |b|, IsHyphen);
    SliceOfSpaceFree(t, 0, |b|);
    assert b == t[0..|b|];
  }

  /** The body is at most 90 characters, has no `--`, no whitespace, and does not start with `-`. */
  lemma TitleSlugShape(title: string, unicodeWord: char -> bool)
    ensures var body := TitleSlug(title, unicodeWord); |body| <= 90 && Slug(body)
  {
    DashedShape(title, unicodeWord);
    TrimKeepsSlug(Dashed(title, unicodeWord));
    PrefixKeepsSlug(Trim(Dashed(title, unicodeWord), IsHyphen), 90);
  }

  /** Where a match of `https?://` ends when one starts at position `i`. */
  function SchemeEnd(url: string, i: nat): Option<nat>
    requires i <= |url|
  {
    if StartsWith(url[i..], "https://") then Some(i + 8)
    else if StartsWith(url[i..], "http://") then Some(i + 7)
    else None
  }

  /** The longest run of non-`/` characters of `url` starting at `j`. */
  function HostRun(url: string, j: nat): (r: string)
    requires j <= |url|
    ensures '/' !in r
    ensures j + |r| <= |url| && r == url[j..j + |r|]
    decreases |url| - j
  {
    if j < |url| && url[j] != '/' then [url[j]] + HostRun(url, j + 1) else []
  }

  /**
   * `re.search(r"https?://(?:www\.)?([^/]+)", url).group(1)` searching from position
   * `i`: the optional `www.` is taken when a host character follows it, otherwise the
   * group starts right after `//`; a position where neither works is skipped.
   */
  function SearchHost(url: string, i: nat): (r: Option<string>)
    requires i <= |url|
    ensures r.Some? ==> r.value != [] && '/' !in r.value
    decreases |url| - i
  {
    match SchemeEnd(url, i)
    case Some(j) =>
      if j <= |url| && StartsWith(url[j..], "www.") && j + 4 < |url| && url[j + 4] != '/' then Some(HostRun(url, j + 4))
      else if j < |url| && url[j] != '/' then Some(HostRun(url, j))
      else if i < |url| then SearchHost(url, i + 1) else None
    case None =>
      if i < |url| then SearchHost(url, i + 1) else None
  }

  /** `parts[-2] if len(parts) > 2 else parts[0]` for `parts = domain.split(".")`. */
  function DomainLabel(domain: string): (part: string)
    ensures '.' !in part
  {
    var parts := Split(domain, '.');
    if |parts| > 2 then parts[|parts| - 2] else parts[0]
  }

  /** `example` from `www.sub.example.com`-style hosts: the second-to-last label of three or more, else the first. */
  lemma DomainLabelOfLabels(labels: seq<string>)
    requires |labels| >= 1 && forall k :: 0 <= k < |labels| ==> '.' !in labels[k]
    ensures DomainLabel(Join(labels, '.')) == if |labels| > 2 then labels[|labels| - 2] else labels[0]
  {
    SplitJoin(labels, '.');
  }

  /** The host run starting at `j` is the slash-free text up to the path. */
  lemma {:induction false} HostRunOf(url: string, j: nat, host: string)
    requires j + |host| <= |url| && url[j..j + |host|] == host && '/' !in host
    requires j + |host| == |url| || url[j + |host|] == '/'
    ensures HostRun(url, j) == host
    decreases |host|
  {
    if host != [] {
      assert url[j] == host[0];
      assert url[j + 1..j + 1 + |host[1..]|] == host[1..];
      HostRunOf(url, j + 1, host[1..]);
    }
  }

  /** A URL `https://<host><path>` whose host does not start with `www.` yields the host. */
  lemma SearchHostPlain(host: string, path: string)
    requires host != [] && '/' !in host && !StartsWith(host, "www.")
    requires path == [] || path[0] == '/'
    ensures SearchHost("https://" + host + path, 0) == Some(host)
  {
    var url := "https://" + host + path;
    assert url[0..] == url;
    assert url[..8] == "https://";
    assert SchemeEnd(url, 0) == Some(8);
    assert url[8..] == host + path;
    assert url[8..8 + |host|] == host;
    assert url[8] == host[0];
    if StartsWith(url[8..], "www.") {
      assert false;
    }
    HostRunOf(url, 8, host);
  }

  /** A URL `https://www.<host><path>` yields the host without the `www.`. */
  lemma SearchHostWww(host: string, path: string)
    requires host != [] && '/' !in host
    requires path == [] || path[0] == '/'
    ensures SearchHost("https://www." + host + path, 0) == Some(host)
  {
    var url := "https://www." + host + path;
    assert url[0..] == url;
    assert url[..8] == "https://";
    assert SchemeEnd(url, 0) == Some(8);
    assert url[8..][..4] == "www.";
    assert url[12] == host[0];
    assert url[12..12 + |host|] == host;
    HostRunOf(url, 12, host);
  }

  /**
   * `get_channel_name_for_feed(feed_url, feed_title)`: from the title when it is
   * truthy, else from the host of the URL, else from the MD5 digest of the URL.
   */
  function ChannelNameForFeed(feedUrl: string, feedTitle: Option<string>, unicodeWord: char -> bool, md5: string -> string): (name: string)
    ensures StartsWith(name, "rss-")
  {
    if Truthy(feedTitle) then "rss-" + TitleSlug(feedTitle.value, unicodeWord)
    else match SearchHost(feedUrl, 0)
      case Some(domain) => "rss-" + DomainLabel(domain)
      case None => "rss-feed-" + PyPrefix(md5(feedUrl), 8)
  }

  /** A title gives `rss-` and a body of at most 90 characters without doubled or leading hyphens. */
  lemma ChannelNameFromTitle(feedUrl: string, title: string, unicodeWord: char -> bool, md5: string -> string)
    requires title != []
    ensures var name := ChannelNameForFeed(feedUrl, Some(title), unicodeWord, md5);
      |name| <= 94 && name[..4] == "rss-" && NoAdjacent(name[4..], IsHyphen)
      && (|name| == 4 || name[4] != '-')
  {
    var name := ChannelNameForFeed(feedUrl, Some(title), unicodeWord, md5);
    TitleSlugShape(title, unicodeWord);
    assert name[4..] == TitleSlug(title, unicodeWord);
  }

  /** Without a title, a URL with a host gives `rss-` and one dot-free, slash-free label. */
  lemma ChannelNameFromHost(feedUrl: string, unicodeWord: char -> bool, md5: string -> string)
    requires SearchHost(feedUrl, 0).Some?
    ensures var name := ChannelNameForFeed(feedUrl, None, unicodeWord, md5);
      name == "rss-" + DomainLabel(SearchHost(feedUrl, 0).value) && '.' !in name[4..]
  {
    var name := ChannelNameForFeed(feedUrl, None, unicodeWord, md5);
    assert name[4..] == DomainLabel(SearchHost(feedUrl, 0).value);
  }

  /** Without a title and without a host, the name is `rss-feed-` and eight digest characters. */
  lemma ChannelNameFromDigest(feedUrl: string, unicodeWord: char -> bool, md5: string -> string)
    requires SearchHost(feedUrl, 0).None? && |md5(feedUrl)| >= 8
    ensures ChannelNameForFeed(feedUrl, None, unicodeWord, md5) == "rss-feed-" + md5(feedUrl)[..8]
  {
  }

  // ---------------------------------------------------------------------------
  // API keys

  /** `select_gemini_api_key` on day-of-month `day`. */
  function SelectGeminiApiKey(keys: seq<string>, day: nat): (key: string)
    ensures keys == [] ==> key == ""
    ensures |keys| == 1 ==> key == keys[0]
    ensures |keys| >= 2 ==> key == if day % 2 == 1 then keys[0] else keys[1]
  {
    if keys == [] then ""
    else if |keys| == 1 then keys[0]
    else if day % 2 == 1 then keys[0] else keys[1]
  }

  /** Keys after the second are never selected. */
  lemma SelectedKeyIsOneOfFirstTwo(keys: seq<string>, day: nat)
    requires keys != []
    ensures SelectGeminiApiKey(keys, day) in keys[..if |keys| < 2 then |keys| else 2]
  {
  }
}
