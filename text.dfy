/**
 * The string operations the pipeline uses, with Python's semantics written out:
 * `str.isspace`, `strip`, `split(sep)`, `s[:n]` with a negative `n`, `in` on strings,
 * the substitutions `re.sub(r"<[^>]+>", "", s)` and `re.sub(r"X+", "y", s)`.
 */
module Text {
  import opened Wrappers

  /** Python's `str.isspace()`, which is also what `\s` matches in a `str` regular expression. */
  predicate IsSpace(c: char) {
    c == ' ' || ('\t' <= c <= '\r') || ('\U{1C}' <= c <= '\U{1F}')
    || c == '\U{85}' || c == '\U{A0}' || c == '\U{1680}' || ('\U{2000}' <= c <= '\U{200A}')
    || c == '\U{2028}' || c == '\U{2029}' || c == '\U{202F}' || c == '\U{205F}' || c == '\U{3000}'
  }

  predicate IsHyphen(c: char) {
    c == '-'
  }

  /** Python's `s[:n]`: a negative `n` counts from the end. */
  function PyPrefix<T>(s: seq<T>, n: int): (r: seq<T>)
    ensures 0 <= n ==> |r| == if n <= |s| then n else |s|
    ensures n < 0 ==> |r| == if -n <= |s| then |s| + n else 0
    ensures r == s[..|r|]
  {
    if n >= 0 then (if n <= |s| then s[..n] else s)
    else if -n <= |s| then s[..|s| + n]
    else []
  }

  /** A cut at or past the end leaves the sequence whole. */
  lemma PyPrefixWhole<T>(s: seq<T>, n: int)
    requires |s| <= n
    ensures PyPrefix(s, n) == s
  {
  }

  /** Python's `f"{x}"` for a value that is a string or `None`. */
  function PyStr(x: Option<string>): string {
    match x
    case Some(s) => s
    case None => "None"
  }

  predicate StartsWith(s: string, prefix: string) {
    |prefix| <= |s| && s[..|prefix|] == prefix
  }

  /** Python's `needle in hay` for strings. */
  predicate Contains(hay: string, needle: string)
    decreases |hay|
  {
    StartsWith(hay, needle) || (hay != [] && Contains(hay[1..], needle))
  }

  /** ASCII lower-casing, the part of `str.lower()` this model keeps. */
  function LowerChar(c: char): char {
    if 'A' <= c <= 'Z' then (c as int + 32) as char else c
  }

  function Lower(s: string): (r: string)
    ensures |r| == |s|
    ensures forall i :: 0 <= i < |s| ==> r[i] == LowerChar(s[i])
  {
    seq(|s|, i requires 0 <= i < |s| => LowerChar(s[i]))
  }

  /** ASCII upper-casing, the part of `str.upper()` this model keeps. */
  function Upper(s: string): (r: string)
    ensures |r| == |s|
  {
    seq(|s|, i requires 0 <= i < |s| => if 'a' <= s[i] <= 'z' then (s[i] as int - 32) as char else s[i])
  }

  /** The first position of `c` in `s`. */
  function IndexOf(s: string, c: char): (i: nat)
    requires c in s
    ensures i < |s| && s[i] == c && c !in s[..i]
  {
    if s[0] == c then 0 else 1 + IndexOf(s[1..], c)
  }

  /** `s` without its leading run of characters satisfying `p`. */
  function DropWhile(s: string, p: char -> bool): (r: string)
    ensures |r| <= |s| && r == s[|s| - |r|..]
    ensures r == [] || !p(r[0])
    ensures forall i :: 0 <= i < |s| - |r| ==> p(s[i])
  {
    if s != [] && p(s[0]) then DropWhile(s[1..], p) else s
  }

  /** `s` without its trailing run of characters satisfying `p`. */
  function DropWhileEnd(s: string, p: char -> bool): (r: string)
    ensures |r| <= |s| && r == s[..|r|]
    ensures r == [] || !p(r[|r| - 1])
    ensures forall i :: |r| <= i < |s| ==> p(s[i])
  {
    if s != [] && p(s[|s| - 1]) then DropWhileEnd(s[..|s| - 1], p) else s
  }

  /** How many leading characters of `s` satisfy `p`. */
  function LeadLength(s: string, p: char -> bool): (n: nat)
    ensures n <= |s|
  {
    |s| - |DropWhile(s, p)|
  }

  /** Python's `s.strip(chars)` for the character class `p`: the slice of `s` left between its runs. */
  function Trim(s: string, p: char -> bool): (r: string)
    ensures LeadLength(s, p) + |r| <= |s|
    ensures r == s[LeadLength(s, p)..LeadLength(s, p) + |r|]
    ensures r == [] || (!p(r[0]) && !p(r[|r| - 1]))
  {
    DropWhileEnd(DropWhile(s, p), p)
  }

  /** Python's `s.strip()`. */
  function Strip(s: string): (r: string)
    ensures |r| <= |s|
    ensures r == [] || (!IsSpace(r[0]) && !IsSpace(r[|r| - 1]))
    ensures LeadLength(s, IsSpace) + |r| <= |s|
    ensures r == s[LeadLength(s, IsSpace)..LeadLength(s, IsSpace) + |r|]
  {
    Trim(s, IsSpace)
  }

  /** No whitespace at either end: what `strip()` leaves. */
  predicate Stripped(x: string) {
    x == [] || (!IsSpace(x[0]) && !IsSpace(x[|x| - 1]))
  }

  /** True when no two adjacent characters of `s` both satisfy `p`. */
  predicate NoAdjacent(s: string, p: char -> bool) {
    forall i :: 0 <= i < |s| - 1 ==> !(p(s[i]) && p(s[i + 1]))
  }

  /**
   * `re.sub(r"X+", rep, s)` where `X` is the character class `p`: every maximal run of
   * characters satisfying `p` becomes the single character `rep`.
   */
  function ReplaceRuns(s: string, p: char -> bool, rep: char): (r: string)
    ensures |r| <= |s|
    ensures s == [] <==> r == []
    ensures s != [] && p(s[0]) ==> r[0] == rep
    ensures s != [] && !p(s[0]) ==> r[0] == s[0]
    ensures s != [] && p(s[|s| - 1]) ==> r[|r| - 1] == rep
    ensures s != [] && !p(s[|s| - 1]) ==> r[|r| - 1] == s[|s| - 1]
    ensures p(rep) ==> NoAdjacent(r, p)
    ensures forall i :: 0 <= i < |r| ==> r[i] == rep || !p(r[i])
    decreases |s|
  {
    if s == [] then []
    else if p(s[0]) then
      var t := DropWhile(s, p);
      assert t == [] || t[0] == s[|s| - |t|];
      [rep] + ReplaceRuns(t, p, rep)
    else
      var t := ReplaceRuns(s[1..], p, rep);
      [s[0]] + t
  }

  /** A character property that the replacement and every input character have, every output character has. */
  lemma {:induction false} ReplaceRunsKeeps(s: string, p: char -> bool, rep: char, q: char -> bool)
    requires q(rep) && forall i :: 0 <= i < |s| ==> q(s[i])
    ensures forall i :: 0 <= i < |ReplaceRuns(s, p, rep)| ==> q(ReplaceRuns(s, p, rep)[i])
    decreases |s|
  {
    if s != [] {
      var t := if p(s[0]) then DropWhile(s, p) else s[1..];
      var head := if p(s[0]) then rep else s[0];
      ReplaceRunsCons(s, p, rep);
      SuffixKeeps(s, t, q);
      ReplaceRunsKeeps(t, p, rep, q);
      ConsKeeps(head, ReplaceRuns(t, p, rep), q);
    }
  }

  /** One step of `ReplaceRuns`: the first character or run, then the rest. */
  lemma ReplaceRunsCons(s: string, p: char -> bool, rep: char)
    requires s != []
    ensures ReplaceRuns(s, p, rep) == [if p(s[0]) then rep else s[0]] + ReplaceRuns(if p(s[0]) then DropWhile(s, p) else s[1..], p, rep)
  {
  }

  lemma ConsKeeps(head: char, rest: string, q: char -> bool)
    requires q(head) && forall i :: 0 <= i < |rest| ==> q(rest[i])
    ensures forall i :: 0 <= i < |[head] + rest| ==> q(([head] + rest)[i])
  {
  }

  lemma SuffixKeeps(s: string, t: string, q: char -> bool)
    requires |t| <= |s| && t == s[|s| - |t|..] && forall i :: 0 <= i < |s| ==> q(s[i])
    ensures forall i :: 0 <= i < |t| ==> q(t[i])
  {
    assert forall i :: 0 <= i < |t| ==> t[i] == s[|s| - |t| + i];
  }

  /**
   * `re.sub(r"<[^>]+>", "", s)`: scanning from the left, a `<` followed by at least one
   * non-`>` character and then a `>` is deleted together with everything up to that `>`.
   */
  function RemoveTags(s: string): (r: string)
    ensures |r| <= |s|
    decreases |s|
  {
    if s == [] then []
    else if s[0] == '<' && |s| >= 2 && s[1] != '>' && '>' in s[2..] then
      RemoveTags(s[IndexOf(s[2..], '>') + 3..])
    else
      [s[0]] + RemoveTags(s[1..])
  }

  /** No `<`, then a non-`>` character, then later a `>`: nothing the tag pattern would match. */
  predicate NoTag(r: string) {
    forall i :: 0 <= i < |r| - 1 && r[i] == '<' && r[i + 1] != '>' ==> '>' !in r[i + 2..]
  }

  /** Tag removal only deletes characters, so a character absent before is absent after. */
  lemma {:induction false} RemoveTagsAvoids(s: string, c: char)
    requires c !in s
    ensures c !in RemoveTags(s)
    decreases |s|
  {
    if s == [] {
    } else if s[0] == '<' && |s| >= 2 && s[1] != '>' && '>' in s[2..] {
      var rest := s[IndexOf(s[2..], '>') + 3..];
      assert forall k :: 0 <= k < |rest| ==> rest[k] == s[IndexOf(s[2..], '>') + 3 + k];
      RemoveTagsAvoids(rest, c);
    } else {
      assert forall k :: 0 <= k < |s[1..]| ==> s[1..][k] == s[k + 1];
      RemoveTagsAvoids(s[1..], c);
    }
  }

  /** A text without `<` holds no tag and comes through unchanged. */
  lemma {:induction false} RemoveTagsPlain(s: string)
    requires '<' !in s
    ensures RemoveTags(s) == s
    decreases |s|
  {
    if s != [] {
      assert '<' !in s[1..];
      RemoveTagsPlain(s[1..]);
    }
  }

  /** Tag removal leaves no match of `<[^>]+>` behind. */
  lemma {:induction false} RemoveTagsNoTag(s: string)
    ensures NoTag(RemoveTags(s))
    decreases |s|
  {
    if s == [] {
    } else if s[0] == '<' && |s| >= 2 && s[1] != '>' && '>' in s[2..] {
      RemoveTagsNoTag(s[IndexOf(s[2..], '>') + 3..]);
    } else {
      var t := RemoveTags(s[1..]);
      RemoveTagsNoTag(s[1..]);
      var r := [s[0]] + t;
      assert RemoveTags(s) == r;
      forall i | 0 <= i < |r| - 1 && r[i] == '<' && r[i + 1] != '>'
        ensures '>' !in r[i + 2..]
      {
        if i > 0 {
          assert r[i..] == t[i - 1..];
        } else {
          ZeroKept(s);
        }
      }
    }
  }

  /** A `<` kept at the front is followed by a kept `>`, or no `>` comes after it at all. */
  lemma ZeroKept(s: string)
    requires |s| >= 2 && s[0] == '<'
    requires !(s[1] != '>' && '>' in s[2..])
    ensures var t := RemoveTags(s[1..]); t != [] && (t[0] == '>' || '>' !in t[1..])
  {
    var u := s[1..];
    assert u[0] == s[1];
    assert u[1..] == s[2..];
    if s[1] != '>' {
      assert !(u[0] == '<' && |u| >= 2 && u[1] != '>' && '>' in u[2..]) by {
        if |u| >= 2 {
          assert u[2..] == s[3..];
          assert forall k :: 0 <= k < |s[3..]| ==> s[3..][k] == s[2..][k + 1];
        }
      }
      assert RemoveTags(u) == [u[0]] + RemoveTags(u[1..]);
      RemoveTagsAvoids(u[1..], '>');
    }
  }

  /** Python's `s.split(sep)` for a one-character separator. */
  function Split(s: string, sep: char): (parts: seq<string>)
    ensures |parts| >= 1
    ensures forall k :: 0 <= k < |parts| ==> sep !in parts[k]
    decreases |s|
  {
    if sep !in s then [s]
    else
      var i := IndexOf(s, sep);
      [s[..i]] + Split(s[i + 1..], sep)
  }

  /** Python's `sep.join(parts)` for a one-character separator. */
  function Join(parts: seq<string>, sep: char): string
    decreases |parts|
  {
    if parts == [] then []
    else if |parts| == 1 then parts[0]
    else parts[0] + [sep] + Join(parts[1..], sep)
  }

  /** The joined string is at least as long as its first part. */
  lemma JoinHead(parts: seq<string>, sep: char)
    requires parts != []
    ensures |Join(parts, sep)| >= |parts[0]|
  {
  }

  /** The first separator of `a + [sep] + b` is the one after `a` when `a` holds none. */
  lemma {:induction false} IndexOfAfter(a: string, sep: char, b: string)
    requires sep !in a
    ensures sep in a + [sep] + b && IndexOf(a + [sep] + b, sep) == |a|
    decreases |a|
  {
    var s := a + [sep] + b;
    assert s[|a|] == sep;
    if a != [] {
      assert s[0] == a[0];
      assert s[1..] == a[1..] + [sep] + b;
      IndexOfAfter(a[1..], sep, b);
    }
  }

  /** Splitting undoes joining when no part holds the separator. */
  lemma {:induction false} SplitJoin(parts: seq<string>, sep: char)
    requires |parts| >= 1
    requires forall k :: 0 <= k < |parts| ==> sep !in parts[k]
    ensures Split(Join(parts, sep), sep) == parts
    decreases |parts|
  {
    if |parts| > 1 {
      var s := Join(parts, sep);
      var rest := Join(parts[1..], sep);
      assert s == parts[0] + [sep] + rest;
      IndexOfAfter(parts[0], sep, rest);
      assert s[..|parts[0]|] == parts[0];
      assert s[|parts[0]| + 1..] == rest;
      assert Split(s, sep) == [parts[0]] + Split(rest, sep);
      SplitJoin(parts[1..], sep);
      assert parts == [parts[0]] + parts[1..];
    }
  }

  /** A token of a cleaned comma list: non-empty, already stripped, without a comma. */
  predicate CleanToken(x: string) {
    x != [] && Stripped(x) && ',' !in x
  }

  /** `[x.strip() for x in s.split(",") if x.strip()]`, the comma lists of keys and keywords. */
  function SplitCommaList(s: string): (r: seq<string>)
    ensures forall k :: 0 <= k < |r| ==> CleanToken(r[k])
  {
    CleanTokens(Split(s, ','))
  }

  function CleanTokens(parts: seq<string>): (r: seq<string>)
    requires forall k :: 0 <= k < |parts| ==> ',' !in parts[k]
    ensures |r| <= |parts|
    ensures forall k :: 0 <= k < |r| ==> CleanToken(r[k])
    decreases |parts|
  {
    if parts == [] then []
    else
      var t := Strip(parts[0]);
      StripKeepsOut(parts[0], ',');
      assert t == [] || CleanToken(t);
      var tail := parts[1..];
      assert forall k :: 0 <= k < |tail| ==> tail[k] == parts[k + 1];
      var rest := CleanTokens(tail);
      if t == [] then rest else [t] + rest
  }

  lemma StripKeepsOut(s: string, c: char)
    requires c !in s
    ensures c !in Strip(s)
  {
  }

  /** Cleaning a list that is already clean changes nothing. */
  lemma {:induction false} CleanTokensFixed(parts: seq<string>)
    requires forall k :: 0 <= k < |parts| ==> parts[k] != [] && Stripped(parts[k]) && ',' !in parts[k]
    ensures CleanTokens(parts) == parts
    decreases |parts|
  {
    if parts != [] {
      CleanTokensCons(parts);
      StrippedFixed(parts[0]);
      assert forall k :: 0 <= k < |parts[1..]| ==> parts[1..][k] == parts[k + 1];
      CleanTokensFixed(parts[1..]);
    }
  }

  /** One step of cleaning: the first part's strip, if non-empty, then the rest cleaned. */
  lemma CleanTokensCons(parts: seq<string>)
    requires parts != [] && forall k :: 0 <= k < |parts| ==> ',' !in parts[k]
    ensures forall k :: 0 <= k < |parts[1..]| ==> ',' !in parts[1..][k]
    ensures CleanTokens(parts) == (if Strip(parts[0]) == [] then [] else [Strip(parts[0])]) + CleanTokens(parts[1..])
  {
    assert forall k :: 0 <= k < |parts[1..]| ==> parts[1..][k] == parts[k + 1];
  }

  /** Cleaning keeps the order of the parts: it works piece by piece. */
  lemma {:induction false} CleanTokensAppend(a: seq<string>, b: seq<string>)
    requires forall k :: 0 <= k < |a| ==> ',' !in a[k]
    requires forall k :: 0 <= k < |b| ==> ',' !in b[k]
    ensures forall k :: 0 <= k < |a + b| ==> ',' !in (a + b)[k]
    ensures CleanTokens(a + b) == CleanTokens(a) + CleanTokens(b)
    decreases |a|
  {
    var ab := a + b;
    assert forall k :: 0 <= k < |ab| ==> ab[k] == if k < |a| then a[k] else b[k - |a|];
    if a == [] {
      assert ab == b;
    } else {
      assert ab[0] == a[0];
      assert ab[1..] == a[1..] + b;
      CleanTokensCons(a);
      CleanTokensCons(ab);
      CleanTokensAppend(a[1..], b);
    }
  }

  /** `x` is the strip of one of the parts. */
  predicate StripOfSome(parts: seq<string>, x: string) {
    exists k :: 0 <= k < |parts| && Strip(parts[k]) == x
  }

  lemma StripOfSomeCons(parts: seq<string>, x: string)
    requires parts != []
    ensures StripOfSome(parts, x) <==> Strip(parts[0]) == x || StripOfSome(parts[1..], x)
  {
    var tail := parts[1..];
    if StripOfSome(parts, x) {
      var k :| 0 <= k < |parts| && Strip(parts[k]) == x;
      if k > 0 {
        assert Strip(tail[k - 1]) == x;
      }
    }
    if StripOfSome(tail, x) {
      var j :| 0 <= j < |tail| && Strip(tail[j]) == x;
      assert Strip(parts[j + 1]) == x;
    }
  }

  /** `x` is kept exactly when it is the non-blank strip of one of the parts. */
  lemma {:induction false} CleanTokensMembers(parts: seq<string>, x: string)
    requires forall k :: 0 <= k < |parts| ==> ',' !in parts[k]
    ensures x in CleanTokens(parts) <==> x != [] && StripOfSome(parts, x)
    decreases |parts|
  {
    if parts != [] {
      var tail := parts[1..];
      var t := Strip(parts[0]);
      var rest := CleanTokens(tail);
      assert CleanTokens(parts) == if t == [] then rest else [t] + rest;
      CleanTokensMembers(tail, x);
      StripOfSomeCons(parts, x);
    }
  }

  /** The listed items are exactly the non-blank strips of the comma-separated pieces. */
  lemma SplitCommaListMembers(s: string, x: string)
    ensures x in SplitCommaList(s) <==> x != [] && StripOfSome(Split(s, ','), x)
  {
    CleanTokensMembers(Split(s, ','), x);
  }

  /** Joining clean tokens with commas and reading the list back gives the tokens, in order. */
  lemma SplitCommaListJoin(ks: seq<string>)
    requires forall k :: 0 <= k < |ks| ==> CleanToken(ks[k])
    ensures SplitCommaList(Join(ks, ',')) == ks
  {
    if ks == [] {
      assert Split([], ',') == [[]];
    } else {
      SplitJoin(ks, ',');
      CleanTokensFixed(ks);
    }
  }

  /** A character that is neither the separator nor in any part is not in the joined string. */
  lemma {:induction false} JoinAvoids(parts: seq<string>, sep: char, c: char)
    requires c != sep && forall k :: 0 <= k < |parts| ==> c !in parts[k]
    ensures c !in Join(parts, sep)
    decreases |parts|
  {
    if |parts| > 1 {
      JoinAvoids(parts[1..], sep, c);
    }
  }

  /** A leading run of `p` characters in front of a string that does not start with one is dropped exactly. */
  lemma {:induction false} DropWhileSkips(pad: string, t: string, p: char -> bool)
    requires forall k :: 0 <= k < |pad| ==> p(pad[k])
    requires t == [] || !p(t[0])
    ensures DropWhile(pad + t, p) == t
  {
    if pad == [] {
      assert pad + t == t;
    } else {
      assert (pad + t)[0] == pad[0];
      assert (pad + t)[1..] == pad[1..] + t;
      DropWhileSkips(pad[1..], t, p);
    }
  }

  /** A trailing run of `p` characters after a string that does not end with one is dropped exactly. */
  lemma {:induction false} DropWhileEndSkips(t: string, pad: string, p: char -> bool)
    requires forall k :: 0 <= k < |pad| ==> p(pad[k])
    requires t == [] || !p(t[|t| - 1])
    ensures DropWhileEnd(t + pad, p) == t
  {
    if pad == [] {
      assert t + pad == t;
    } else {
      assert (t + pad)[|t + pad| - 1] == pad[|pad| - 1];
      assert (t + pad)[..|t + pad| - 1] == t + pad[..|pad| - 1];
      DropWhileEndSkips(t, pad[..|pad| - 1], p);
    }
  }

  /** `strip()` removes exactly the whitespace padding around a string without edge whitespace. */
  lemma StripPadded(pad: string, x: string)
    requires forall k :: 0 <= k < |pad| ==> IsSpace(pad[k])
    requires Stripped(x)
    ensures Strip(pad + x + pad) == x
  {
    if x == [] {
      assert pad + x + pad == pad + pad + [];
      assert forall k :: 0 <= k < |pad + pad| ==> IsSpace((pad + pad)[k]);
      DropWhileSkips(pad + pad, [], IsSpace);
    } else {
      assert pad + x + pad == pad + (x + pad);
      assert (x + pad)[0] == x[0];
      DropWhileSkips(pad, x + pad, IsSpace);
      DropWhileEndSkips(x, pad, IsSpace);
    }
  }

  /** Stripping twice is stripping once. */
  lemma StripIdempotent(s: string)
    ensures Strip(Strip(s)) == Strip(s)
  {
    StrippedFixed(Strip(s));
  }

  /** The strings `strip()` leaves unchanged are exactly those without edge whitespace. */
  lemma StrippedFixed(x: string)
    ensures Strip(x) == x <==> Stripped(x)
  {
    if Stripped(x) && x != [] {
      assert DropWhile(x, IsSpace) == x;
      assert DropWhileEnd(x, IsSpace) == x;
    }
  }

  const Ellipsis := "..."

  /** `s[:max - 3] + "..."` when `s` is longer than `max`. */
  function Ellipsize(s: string, maxLength: int): (r: string)
    ensures |s| <= maxLength ==> r == s
    ensures |s| > maxLength >= 3 ==> |r| == maxLength && r[..maxLength - 3] == s[..maxLength - 3]
                                     && r[maxLength - 3..] == Ellipsis
  {
    if |s| > maxLength then PyPrefix(s, maxLength - 3) + Ellipsis else s
  }

  /** Python's `sep.join(parts)` for a separator of any length. */
  function JoinWith(parts: seq<string>, sep: string): string
    decreases |parts|
  {
    if parts == [] then []
    else if |parts| == 1 then parts[0]
    else parts[0] + sep + JoinWith(parts[1..], sep)
  }

  /** `s.replace(c, "")`: `s` without any occurrence of `c`, the rest in order. */
  function RemoveChar(s: string, c: char): (r: string)
    ensures c !in r && |r| <= |s|
    ensures forall x :: x in r <==> x in s && x != c
  {
    if s == [] then []
    else (if s[0] == c then [] else [s[0]]) + RemoveChar(s[1..], c)
  }

  /** Removing a character the string does not hold changes nothing. */
  lemma {:induction false} RemoveCharAbsent(s: string, c: char)
    requires c !in s
    ensures RemoveChar(s, c) == s
    decreases |s|
  {
    if s != [] {
      RemoveCharAbsent(s[1..], c);
    }
  }

  /**
   * The reply clean-up loop of the summariser and the translator: for each prefix in
   * turn, if the current text starts with it, cut it off and strip the rest.
   */
  function DropPrefixes(s: string, prefixes: seq<string>): (r: string)
    ensures |r| <= |s|
    decreases |prefixes|
  {
    if prefixes == [] then s
    else
      var t := DropPrefixes(s, prefixes[..|prefixes| - 1]);
      var p := prefixes[|prefixes| - 1];
      if StartsWith(t, p) then Strip(t[|p|..]) else t
  }

  /** A text that starts with none of the prefixes comes back unchanged. */
  lemma {:induction false} DropPrefixesUnchanged(s: string, prefixes: seq<string>)
    requires forall k :: 0 <= k < |prefixes| ==> !StartsWith(s, prefixes[k])
    ensures DropPrefixes(s, prefixes) == s
    decreases |prefixes|
  {
    if prefixes != [] {
      DropPrefixesUnchanged(s, prefixes[..|prefixes| - 1]);
    }
  }

  /** A text the loop changed has been stripped. */
  lemma {:induction false} DropPrefixesStripped(s: string, prefixes: seq<string>)
    ensures DropPrefixes(s, prefixes) == s || Stripped(DropPrefixes(s, prefixes))
    decreases |prefixes|
  {
    if prefixes != [] {
      DropPrefixesStripped(s, prefixes[..|prefixes| - 1]);
    }
  }

  /** The loop itself. */
  method StripPrefixes(s: string, prefixes: seq<string>) returns (r: string)
    ensures r == DropPrefixes(s, prefixes)
  {
    r := s;
    for i := 0 to |prefixes|
      invariant r == DropPrefixes(s, prefixes[..i])
    {
      assert prefixes[..i + 1][..i] == prefixes[..i];
      if StartsWith(r, prefixes[i]) {
        r := Strip(r[|prefixes[i]|..]);
      }
    }
    assert prefixes[..|prefixes|] == prefixes;
  }

  /** Python's `str(n)` for a natural number. */
  function NatString(n: nat): (r: string)
    ensures r != [] && forall k :: 0 <= k < |r| ==> '0' <= r[k] <= '9'
  {
    if n < 10 then [(n + 48) as char] else NatString(n / 10) + [(n % 10 + 48) as char]
  }

  /** Python's `int(s)` on a string of decimal digits. */
  function ParseNat(s: string): nat
    requires forall k :: 0 <= k < |s| ==> '0' <= s[k] <= '9'
  {
    if s == [] then 0 else 10 * ParseNat(s[..|s| - 1]) + (s[|s| - 1] as int - 48)
  }

  /** `int(str(n)) == n`. */
  lemma {:induction false} NatStringRoundTrip(n: nat)
    ensures ParseNat(NatString(n)) == n
  {
    if n >= 10 {
      var r := NatString(n);
      assert r[..|r| - 1] == NatString(n / 10);
      NatStringRoundTrip(n / 10);
    } else {
      assert NatString(n)[..0] == [];
    }
  }
}
