/**
 * The TypeScript twins of the fingerprint and channel-name helpers.  JavaScript's `\s`
 * and `\w` differ from Python's; `new URL(...).hostname` is a parameter that returns
 * `None` when the constructor throws.
 */
module HelpersTs {
  import opened Wrappers
  import opened Text
  import Helpers

  /** `` `${article.link || ''}|${article.title || ''}` ``: a missing field is the empty string. */
  function TsFingerprintKey(link: Option<string>, title: Option<string>): (key: string)
    ensures key == Helpers.FingerprintKey(link.GetOr(""), title.GetOr(""))
  {
    link.GetOr("") + "|" + title.GetOr("")
  }

  /** `generateArticleId`: SHA-256 of the key. */
  function GenerateArticleId(link: Option<string>, title: Option<string>, sha256: string -> string): (id: string)
    ensures id == sha256(TsFingerprintKey(link, title))
  {
    sha256(TsFingerprintKey(link, title))
  }

  /** The TypeScript and Python ids agree whenever both fields are present. */
  lemma SameIdAsPython(link: string, title: string, sha256: string -> string)
    ensures GenerateArticleId(Some(link), Some(title), sha256) == sha256(Helpers.FingerprintKey(link, title))
  {
  }

  /** JavaScript's `\s`. */
  predicate IsJsSpace(c: char) {
    c == ' ' || ('\t' <= c <= '\r') || c == '\U{A0}' || c == '\U{1680}' || ('\U{2000}' <= c <= '\U{200A}')
    || c == '\U{2028}' || c == '\U{2029}' || c == '\U{202F}' || c == '\U{205F}' || c == '\U{3000}' || c == '\U{FEFF}'
  }

  /** JavaScript's `\w`: ASCII only. */
  predicate IsJsWord(c: char) {
    ('a' <= c <= 'z') || ('A' <= c <= 'Z') || ('0' <= c <= '9') || c == '_'
  }

  /** `.replace(/[^\w\s-]/g, '')`. */
  function KeepJsWordSpaceHyphen(s: string): (r: string)
    ensures |r| <= |s|
    ensures forall i :: 0 <= i < |r| ==> IsJsWord(r[i]) || IsJsSpace(r[i]) || r[i] == '-'
  {
    if s == [] then []
    else
      var rest := KeepJsWordSpaceHyphen(s[1..]);
      if IsJsWord(s[0]) || IsJsSpace(s[0]) || s[0] == '-' then [s[0]] + rest else rest
  }

  /** The title path before the prefix: lower-case, filter, dash whitespace runs, collapse and trim hyphens, cut to 90. */
  function TsTitleSlug(title: string): string {
    var name := ReplaceRuns(ReplaceRuns(KeepJsWordSpaceHyphen(Lower(title)), IsJsSpace, '-'), IsHyphen, '-');
    PyPrefix(Trim(name, IsHyphen), 90)
  }

  /** `domain.replace(/^www\./, '')`. */
  function DropWww(host: string): (r: string)
    ensures |r| <= |host|
  {
    if StartsWith(host, "www.") then host[4..] else host
  }

  /** `parts.slice(-2, -1)[0]` when there are more than two labels, else `parts[0]`. */
  function TsDomainLabel(host: string): (part: string)
    ensures '.' !in part
  {
    var parts := Split(DropWww(host), '.');
    if |parts| > 2 then parts[|parts| - 2] else parts[0]
  }

  /** The name a titled feed gets: `rss-` and the slug. */
  function TsTitleName(title: string): (name: string)
    ensures StartsWith(name, "rss-") && |name| <= 94
  {
    "rss-" + TsTitleSlug(title)
  }

  /** The name before the final length checks. */
  function TsRawName(feedUrl: string, feedTitle: Option<string>, hostname: string -> Option<string>, md5: string -> string): (name: string)
    ensures StartsWith(name, "rss-")
  {
    if feedTitle.Some? && feedTitle.value != [] then TsTitleName(feedTitle.value)
    else match hostname(feedUrl)
      case Some(host) => "rss-" + TsDomainLabel(host)
      case None => "rss-feed-" + PyPrefix(md5(feedUrl), 8)
  }

  /** `getChannelNameForFeed`: the raw name, the never-taken `length < 2` fallback, then `substring(0, 100)`. */
  function GetChannelNameForFeed(feedUrl: string, feedTitle: Option<string>, hostname: string -> Option<string>, md5: string -> string): (name: string)
    ensures |name| <= 100
    ensures StartsWith(name, "rss-")
  {
    var raw := TsRawName(feedUrl, feedTitle, hostname, md5);
    if |raw| < 2 then "rss-feed-" + PyPrefix(md5(feedUrl), 8)
    else PyPrefix(raw, 100)
  }

  /** Every raw name starts with `rss-`, so the `length < 2` fallback is never taken. */
  lemma ShortNameFallbackUnreachable(feedUrl: string, feedTitle: Option<string>, hostname: string -> Option<string>, md5: string -> string)
    ensures |TsRawName(feedUrl, feedTitle, hostname, md5)| >= 4
    ensures GetChannelNameForFeed(feedUrl, feedTitle, hostname, md5) == PyPrefix(TsRawName(feedUrl, feedTitle, hostname, md5), 100)
  {
  }

  /** A title name is `rss-` and the slug, and fits in 94 characters, so the final cut leaves it alone. */
  lemma TsTitleNameUncut(feedUrl: string, title: string, hostname: string -> Option<string>, md5: string -> string)
    requires title != []
    ensures GetChannelNameForFeed(feedUrl, Some(title), hostname, md5) == "rss-" + TsTitleSlug(title)
    ensures |GetChannelNameForFeed(feedUrl, Some(title), hostname, md5)| <= 94
  {
    ShortNameFallbackUnreachable(feedUrl, Some(title), hostname, md5);
    PyPrefixWhole(TsRawName(feedUrl, Some(title), hostname, md5), 100);
  }

  /** An unparsable URL without a title gives `rss-feed-` and eight digest characters. */
  lemma TsDigestName(feedUrl: string, hostname: string -> Option<string>, md5: string -> string)
    requires hostname(feedUrl).None? && |md5(feedUrl)| >= 8
    ensures GetChannelNameForFeed(feedUrl, None, hostname, md5) == "rss-feed-" + md5(feedUrl)[..8]
  {
  }
}
