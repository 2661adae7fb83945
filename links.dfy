/**
 * Link extraction (`extract_valid_links` in utils.py, repeated verbatim in
 * grabEmails.py): scan the body for `https?://[^\s<>"]+` the way `re.findall`
 * does (leftmost match first, each match as long as possible, matches never
 * overlapping), keep the tokens whose raw text contains `patreon.com/posts/`,
 * rewrite the `https://open.patreon.com/posts/` prefix to the `www` host and cut
 * each at its first `?`. Order is kept and duplicates are not removed.
 */
module Links {
  import opened Optional
  import opened Text

  const OpenPrefix: string := "https://open.patreon.com/posts/"
  const CanonicalPrefix: string := "https://www.patreon.com/posts/"
  const PostsMarker: string := "patreon.com/posts/"

  /** `[^\s<>"]`: a character a URL token may contain. */
  predicate IsUrlChar(c: char)
  {
    !IsSpace(c) && c != '<' && c != '>' && c != '"'
  }

  predicate AllUrlChars(s: string)
  {
    forall i :: 0 <= i < |s| ==> IsUrlChar(s[i])
  }

  predicate HasScheme(s: string)
  {
    "https://" <= s || "http://" <= s
  }

  /** What one match of `https?://[^\s<>"]+` looks like. */
  predicate IsToken(t: string)
  {
    (("https://" <= t && |t| > 8) || ("http://" <= t && |t| > 7)) && AllUrlChars(t)
  }

  /** What an extracted link looks like: a scheme, URL characters, no query. */
  predicate IsLink(l: string)
  {
    HasScheme(l) && AllUrlChars(l) && '?' !in l
  }

  /** The end of the longest run of URL characters starting at `from`. */
  function RunEnd(s: string, from: nat): (k: nat)
    requires from <= |s|
    ensures from <= k <= |s|
    ensures forall j :: from <= j < k ==> IsUrlChar(s[j])
    ensures k < |s| ==> !IsUrlChar(s[k])
    decreases |s| - from
  {
    if from == |s| || !IsUrlChar(s[from]) then from else RunEnd(s, from + 1)
  }

  /**
   * The pattern tried at index `i`: the end of the match, if it matches there.
   * `s?` first tries to take the `s`; without it the next character would
   * have to be `:`, so the two schemes never both apply.
   */
  function MatchAt(s: string, i: nat): (r: Option<nat>)
    requires i <= |s|
    ensures r.Some? ==> i < r.value <= |s| && IsToken(s[i..r.value])
    ensures r.Some? ==> r.value == |s| || !IsUrlChar(s[r.value])
    ensures r.None? ==> forall j :: i < j <= |s| ==> !IsToken(s[i..j])
    ensures r.Some? ==> forall j :: r.value < j <= |s| ==> !IsToken(s[i..j])
  {
    TokenStart(s, i);
    if "https://" <= s[i..] && RunEnd(s, i + 8) > i + 8 then
      SchemeChars("https://");
      SchemeToken(s, i, "https://", RunEnd(s, i + 8));
      Some(RunEnd(s, i + 8))
    else if "http://" <= s[i..] && RunEnd(s, i + 7) > i + 7 then
      SchemeChars("http://");
      SchemeToken(s, i, "http://", RunEnd(s, i + 7));
      Some(RunEnd(s, i + 7))
    else
      None
  }

  /** A prefix of URL characters followed by a run of URL characters, up to `k`, is all URL characters. */
  lemma SchemeToken(s: string, i: nat, scheme: string, k: nat)
    requires AllUrlChars(scheme) && i <= |s| && scheme <= s[i..]
    requires i + |scheme| <= k <= |s| && forall j :: i + |scheme| <= j < k ==> IsUrlChar(s[j])
    ensures scheme <= s[i..k] && AllUrlChars(s[i..k])
  {
    PrefixWithin(s, i, k, scheme);
    assert s[i..i + |scheme|] == s[i..][..|scheme|] == scheme;
    RunChars(s, i, i + |scheme|, k);
  }

  /** A prefix of `s[i..]` no longer than `s[i..k]` is a prefix of it. */
  lemma PrefixWithin(s: string, i: nat, k: nat, p: string)
    requires i <= k <= |s| && p <= s[i..] && |p| <= k - i
    ensures p <= s[i..k]
  {
    assert s[i..k][..|p|] == s[i..][..|p|];
  }

  /** URL characters up to `m`, then up to `k`, make URL characters from `i` to `k`. */
  lemma RunChars(s: string, i: nat, m: nat, k: nat)
    requires i <= m <= k <= |s| && AllUrlChars(s[i..m]) && forall j :: m <= j < k ==> IsUrlChar(s[j])
    ensures AllUrlChars(s[i..k])
  {
    forall j | 0 <= j < k - i
      ensures IsUrlChar(s[i..k][j])
    {
      if j < m - i {
        assert s[i..k][j] == s[i..m][j];
      }
    }
  }

  /** The characters of both schemes are URL characters. */
  lemma SchemeChars(scheme: string)
    requires scheme == "https://" || scheme == "http://"
    ensures AllUrlChars(scheme)
  {
    forall j | 0 <= j < |scheme|
      ensures IsUrlChar(scheme[j])
    {
      assert '/' <= scheme[j] <= 'z';
    }
  }

  /**
   * A token starting at `i` lies inside the run after the scheme that
   * `MatchAt` tries: `https://` when the text has it there, else `http://`.
   */
  lemma TokenStart(s: string, i: nat)
    requires i <= |s|
    ensures forall j :: i < j <= |s| && IsToken(s[i..j]) ==>
              ("https://" <= s[i..] && j <= RunEnd(s, i + 8))
              || (!("https://" <= s[i..]) && "http://" <= s[i..] && j <= RunEnd(s, i + 7))
  {
    forall j | i < j <= |s| && IsToken(s[i..j])
      ensures ("https://" <= s[i..] && j <= RunEnd(s, i + 8))
              || (!("https://" <= s[i..]) && "http://" <= s[i..] && j <= RunEnd(s, i + 7))
    {
      var t := s[i..j];
      var w := if "https://" <= t then 8 else 7;
      assert t[..w] == s[i..][..w];
      assert "https://" <= s[i..] ==> s[i + 4] == 's';
      assert forall k :: i + w <= k < j ==> s[k] == t[k - i];
      RunEndReaches(s, i + w, j);
    }
  }

  /** The run of URL characters from `from` reaches at least `j` when every character before `j` is one. */
  lemma {:induction false} RunEndReaches(s: string, from: nat, j: nat)
    requires from <= j <= |s| && forall k :: from <= k < j ==> IsUrlChar(s[k])
    ensures j <= RunEnd(s, from)
    decreases j - from
  {
    if from < j {
      RunEndReaches(s, from + 1, j);
    }
  }

  /** `re.findall` of the URL pattern over `s`, scanning from index `i`. */
  function TokensFrom(s: string, i: nat): (ts: seq<string>)
    requires i <= |s|
    ensures forall k :: 0 <= k < |ts| ==> IsToken(ts[k])
    decreases |s| - i
  {
    if i == |s| then []
    else
      match MatchAt(s, i)
      case Some(j) =>
        var rest := TokensFrom(s, j);
        assert forall k :: 1 <= k < |rest| + 1 ==> ([s[i..j]] + rest)[k] == rest[k - 1];
        [s[i..j]] + rest
      case None => TokensFrom(s, i + 1)
  }

  /** The scan from `i` finds nothing exactly when no match starts at or after `i`. */
  lemma {:induction false} TokensFromNone(s: string, i: nat)
    requires i <= |s|
    ensures TokensFrom(s, i) == [] <==> forall p :: i <= p < |s| ==> MatchAt(s, p).None?
    decreases |s| - i
  {
    if i < |s| && MatchAt(s, i).None? {
      TokensFromNone(s, i + 1);
    }
  }

  /** `p` is the first position at or after `i` where a match starts. */
  ghost predicate FirstMatch(s: string, i: nat, p: nat)
  {
    i <= p < |s| && MatchAt(s, p).Some? && forall q :: i <= q < p ==> MatchAt(s, q).None?
  }

  /**
   * `re.findall` takes the leftmost match first and resumes where it ended:
   * when the scan from `i` finds something, its first token is the match at
   * the first position where one starts, followed by the scan from that
   * match's end. With `TokensFromNone` and the contract of `MatchAt` (a
   * match is as long as possible, and none starts where it gives `None`)
   * this pins the result down completely.
   */
  lemma {:induction false} TokensFromLeftmost(s: string, i: nat)
    requires i <= |s|
    ensures TokensFrom(s, i) != [] ==>
              exists p: nat :: FirstMatch(s, i, p) && TokensFrom(s, i) == [s[p..MatchAt(s, p).value]] + TokensFrom(s, MatchAt(s, p).value)
    decreases |s| - i
  {
    if i == |s| {
    } else if MatchAt(s, i).Some? {
      assert FirstMatch(s, i, i);
    } else {
      TokensFromLeftmost(s, i + 1);
      if TokensFrom(s, i) != [] {
        var p: nat :| FirstMatch(s, i + 1, p) && TokensFrom(s, i + 1) == [s[p..MatchAt(s, p).value]] + TokensFrom(s, MatchAt(s, p).value);
        assert FirstMatch(s, i, p);
      }
    }
  }

  /** `re.findall(r'https?://[^\s<>"]+', s)`. */
  function Tokens(s: string): (ts: seq<string>)
    ensures forall k :: 0 <= k < |ts| ==> IsToken(ts[k])
  {
    TokensFrom(s, 0)
  }

  /** The prefix rewrite `re.sub(r'^https://open\.patreon\.com/posts/', ...)`. */
  function RewriteHost(url: string): string
  {
    if OpenPrefix <= url then CanonicalPrefix + url[|OpenPrefix|..] else url
  }

  /** The canonical form of a URL: the host rewrite, then `.split('?')[0]`. */
  function Canonicalize(url: string): (r: string)
    ensures '?' !in r
  {
    BeforeFirst(RewriteHost(url), '?')
  }

  /** What one URL contributes to the comprehension. */
  function Kept(u: string): seq<string>
  {
    if Contains(u, PostsMarker) then [Canonicalize(u)] else []
  }

  /** The list comprehension: canonical forms of the tokens holding the posts marker, in order. */
  function KeepPosts(urls: seq<string>): (links: seq<string>)
    ensures |links| <= |urls|
    ensures forall k :: 0 <= k < |links| ==> '?' !in links[k]
  {
    if urls == [] then []
    else Kept(urls[0]) + KeepPosts(urls[1..])
  }

  /** `extract_valid_links(body)`. */
  function ExtractValidLinks(body: string): (links: seq<string>)
    ensures |links| <= |Tokens(body)|
    ensures forall k :: 0 <= k < |links| ==> '?' !in links[k]
  {
    KeepPosts(Tokens(body))
  }

  // ---------------------------------------------------------------------
  // Properties

  /** The links kept are exactly the canonical forms of the URLs holding the posts marker. */
  lemma {:induction false} KeepPostsMembers(urls: seq<string>)
    ensures forall l :: l in KeepPosts(urls) <==> exists u :: u in urls && Contains(u, PostsMarker) && Canonicalize(u) == l
  {
    if urls != [] {
      KeepPostsMembers(urls[1..]);
      assert forall u :: u in urls <==> u == urls[0] || u in urls[1..];
    }
  }

  /** The number of URLs holding the marker, which is the number of links kept. */
  function CountPosts(urls: seq<string>): nat
  {
    if urls == [] then 0
    else (if Contains(urls[0], PostsMarker) then 1 else 0) + CountPosts(urls[1..])
  }

  /** One link per URL holding the marker: none is dropped as a duplicate. */
  lemma {:induction false} KeepPostsCount(urls: seq<string>)
    ensures |KeepPosts(urls)| == CountPosts(urls)
  {
    if urls != [] {
      KeepPostsCount(urls[1..]);
    }
  }

  /** Every token is a piece of the text scanned. */
  lemma {:induction false} TokensOccur(s: string, i: nat)
    requires i <= |s|
    ensures forall t :: t in TokensFrom(s, i) ==> exists a :: OccursAt(s, t, a)
    decreases |s| - i
  {
    if i < |s| {
      match MatchAt(s, i)
      case Some(j) =>
        TokensOccur(s, j);
        assert OccursAt(s, s[i..j], i);
      case None =>
        TokensOccur(s, i + 1);
    }
  }

  /** The comprehension works element by element: no reordering and no deduplication across parts. */
  lemma {:induction false} KeepPostsConcat(a: seq<string>, b: seq<string>)
    ensures KeepPosts(a + b) == KeepPosts(a) + KeepPosts(b)
  {
    if a == [] {
      assert a + b == b;
    } else {
      assert a + b == [a[0]] + (a[1..] + b);
      KeepPostsCons(a[0], a[1..] + b);
      KeepPostsConcat(a[1..], b);
      assert a == [a[0]] + a[1..];
      KeepPostsCons(a[0], a[1..]);
      ConcatAssoc(Kept(a[0]), KeepPosts(a[1..]), KeepPosts(b));
    }
  }

  lemma KeepPostsCons(u: string, rest: seq<string>)
    ensures KeepPosts([u] + rest) == Kept(u) + KeepPosts(rest)
  {
    assert ([u] + rest)[0] == u && ([u] + rest)[1..] == rest;
  }

  /** A prefix of a prefix is a prefix. */
  lemma PrefixChain(p: string, r: string, u: string)
    requires r <= u
    ensures p <= r ==> p <= u
  {
  }

  lemma UrlCharsConcat(a: string, b: string)
    requires AllUrlChars(a) && AllUrlChars(b)
    ensures AllUrlChars(a + b)
  {
    assert forall j :: |a| <= j < |a + b| ==> (a + b)[j] == b[j - |a|];
  }

  /** A slice of URL characters is URL characters. */
  lemma UrlCharsSlice(s: string, i: nat, j: nat)
    requires AllUrlChars(s) && i <= j <= |s|
    ensures AllUrlChars(s[i..j])
  {
    assert forall k :: 0 <= k < j - i ==> s[i..j][k] == s[i + k];
  }

  lemma CanonicalPrefixChars()
    ensures AllUrlChars(CanonicalPrefix) && '?' !in CanonicalPrefix
  {
    forall k | 0 <= k < |CanonicalPrefix|
      ensures IsUrlChar(CanonicalPrefix[k]) && CanonicalPrefix[k] != '?'
    {
      assert '.' <= CanonicalPrefix[k] <= 'z' && CanonicalPrefix[k] != '<' && CanonicalPrefix[k] != '>' && CanonicalPrefix[k] != '?';
    }
  }

  /** A token on the `open` host canonicalises to a well-formed `www` link. */
  lemma CanonicalizeOpenToken(u: string)
    requires IsToken(u) && OpenPrefix <= u
    ensures IsLink(Canonicalize(u)) && CanonicalPrefix <= Canonicalize(u)
  {
    var rest := u[|OpenPrefix|..];
    var tail := BeforeFirst(rest, '?');
    assert RewriteHost(u) == CanonicalPrefix + rest;
    CanonicalPrefixChars();
    BeforeFirstAfterPrefix(CanonicalPrefix, rest, '?');
    assert Canonicalize(u) == CanonicalPrefix + tail;
    UrlCharsSlice(u, |OpenPrefix|, |u|);
    UrlCharsSlice(rest, 0, |tail|);
    assert rest[0..|tail|] == tail;
    UrlCharsConcat(CanonicalPrefix, tail);
    assert "https://" <= CanonicalPrefix + tail;
  }

  /** A token on any other host canonicalises to its own prefix before the first `?`. */
  lemma CanonicalizeOtherToken(u: string)
    requires IsToken(u) && !(OpenPrefix <= u)
    ensures IsLink(Canonicalize(u)) && !(OpenPrefix <= Canonicalize(u))
  {
    var scheme := if "https://" <= u then "https://" else "http://";
    assert u == scheme + u[|scheme|..];
    BeforeFirstAfterPrefix(scheme, u[|scheme|..], '?');
    var r := Canonicalize(u);
    assert scheme <= r;
    PrefixChain(OpenPrefix, r, u);
  }

  /** Every canonical form of a token starts with its scheme, has only URL characters and no `?`, and is never on the `open` host. */
  lemma CanonicalizeToken(u: string)
    requires IsToken(u)
    ensures IsLink(Canonicalize(u))
    ensures !(OpenPrefix <= Canonicalize(u))
  {
    if OpenPrefix <= u {
      CanonicalizeOpenToken(u);
      assert Canonicalize(u)[8] == 'w';
    } else {
      CanonicalizeOtherToken(u);
    }
  }

  /** Every extracted link is well formed and already canonical. */
  lemma ExtractedLinksWellFormed(body: string)
    ensures forall l :: l in ExtractValidLinks(body) ==> IsLink(l) && !(OpenPrefix <= l) && Canonicalize(l) == l
  {
    forall l | l in ExtractValidLinks(body)
      ensures IsLink(l) && !(OpenPrefix <= l) && Canonicalize(l) == l
    {
      KeepPostsMembers(Tokens(body));
      var u :| u in Tokens(body) && Contains(u, PostsMarker) && Canonicalize(u) == l;
      CanonicalizeToken(u);
      CanonicalFixpoint(l);
    }
  }

  /** A link that is not on the `open` host and has no query is left alone. */
  lemma CanonicalFixpoint(l: string)
    requires !(OpenPrefix <= l) && '?' !in l
    ensures Canonicalize(l) == l
  {
    BeforeFirstAbsent(l, '?');
  }

  /** Canonicalising twice is canonicalising once. */
  lemma CanonicalizeIdempotent(u: string)
    ensures Canonicalize(Canonicalize(u)) == Canonicalize(u)
  {
    var r := Canonicalize(u);
    if OpenPrefix <= u {
      CanonicalPrefixChars();
      BeforeFirstAfterPrefix(CanonicalPrefix, u[|OpenPrefix|..], '?');
      CanonicalNotOpen(r);
    } else {
      PrefixChain(OpenPrefix, r, u);
    }
    CanonicalFixpoint(r);
  }

  /** A link on the `www` host is not on the `open` host: the two prefixes differ at index 8. */
  lemma CanonicalNotOpen(w: string)
    requires CanonicalPrefix <= w
    ensures !(OpenPrefix <= w)
  {
    assert w[8] == CanonicalPrefix[8] == 'w';
  }

  /** A link on the `open` host becomes the `www` link with the same path, cut at its first `?`. */
  lemma OpenHostRewrite(rest: string)
    ensures Canonicalize(OpenPrefix + rest) == CanonicalPrefix + BeforeFirst(rest, '?')
  {
    assert (OpenPrefix + rest)[|OpenPrefix|..] == rest;
    CanonicalPrefixChars();
    BeforeFirstAfterPrefix(CanonicalPrefix, rest, '?');
  }

  /** The two hosts give the same canonical link for the same path. */
  lemma HostsAgree(rest: string)
    ensures Canonicalize(OpenPrefix + rest) == Canonicalize(CanonicalPrefix + rest)
  {
    OpenHostRewrite(rest);
    CanonicalNotOpen(CanonicalPrefix + rest);
    CanonicalPrefixChars();
    BeforeFirstAfterPrefix(CanonicalPrefix, rest, '?');
  }

  /** A run of URL characters reaching the end of the text ends there. */
  lemma {:induction false} RunEndAll(s: string, from: nat)
    requires from <= |s| && forall j :: from <= j < |s| ==> IsUrlChar(s[j])
    ensures RunEnd(s, from) == |s|
    decreases |s| - from
  {
    if from < |s| {
      RunEndAll(s, from + 1);
    }
  }

  /** A text that is one token from end to end is scanned as exactly that token. */
  lemma WholeToken(s: string)
    requires IsToken(s)
    ensures Tokens(s) == [s]
  {
    if "https://" <= s {
      RunEndAll(s, 8);
    } else {
      RunEndAll(s, 7);
    }
    assert s[0..] == s && s[0..|s|] == s;
    assert MatchAt(s, 0) == Some(|s|);
    assert TokensFrom(s, |s|) == [];
    assert TokensFrom(s, 0) == [s[0..|s|]] + TokensFrom(s, |s|);
  }

  /** A pattern found in the query is found in the whole URL. */
  lemma ContainsInQuery(p: string, q: string, pat: string)
    requires Contains(q, pat)
    ensures Contains(p + "?" + q, pat)
  {
    var u := p + "?" + q;
    ContainsIff(q, pat);
    var i :| OccursAt(q, pat, i);
    assert u[|p| + 1 + i..|p| + 1 + i + |pat|] == q[i..i + |pat|];
    assert OccursAt(u, pat, |p| + 1 + i);
    ContainsIff(u, pat);
  }

  /** A URL whose part before the `?` is not on the `open` host is not on it either. */
  lemma NotOpenBeforeQuery(p: string, q: string)
    requires !(OpenPrefix <= p)
    ensures !(OpenPrefix <= p + "?" + q)
  {
    var u := p + "?" + q;
    if |p| >= |OpenPrefix| {
      assert u[..|OpenPrefix|] == p[..|OpenPrefix|];
    } else if |OpenPrefix| <= |u| {
      assert u[|p|] == '?';
      assert OpenPrefix[|p|] != '?';
    }
  }

  /**
   * The marker is looked for in the whole token, before the query is cut
   * off: a URL whose marker sits only in its query still gives a link, and
   * that link does not hold the marker.
   */
  lemma MarkerInQueryOnly(p: string, q: string)
    requires IsToken(p + "?" + q) && '?' !in p && !(OpenPrefix <= p)
    requires Contains(q, PostsMarker) && !Contains(p, PostsMarker)
    ensures ExtractValidLinks(p + "?" + q) == [p]
    ensures !Contains(ExtractValidLinks(p + "?" + q)[0], PostsMarker)
  {
    var u := p + "?" + q;
    WholeToken(u);
    ContainsInQuery(p, q, PostsMarker);
    QueryCut(p, q);
    assert KeepPosts([u]) == Kept(u) + KeepPosts([]);
  }

  /** A URL off the `open` host canonicalises to what comes before its first `?`. */
  lemma QueryCut(p: string, q: string)
    requires '?' !in p && !(OpenPrefix <= p)
    ensures Canonicalize(p + "?" + q) == p
  {
    NotOpenBeforeQuery(p, q);
    assert p + "?" + q == p + ("?" + q);
    BeforeFirstAfterPrefix(p, "?" + q, '?');
    assert CharEnd("?" + q, '?', 0) == 0;
  }

  /** `http://a?patreon.com/posts/` gives the link `http://a`. */
  lemma MarkerInQueryExample()
    ensures ExtractValidLinks("http://a?patreon.com/posts/") == ["http://a"]
    ensures !Contains("http://a", PostsMarker)
  {
    var p, q := "http://a", "patreon.com/posts/";
    assert p + "?" + q == "http://a?patreon.com/posts/";
    assert IsToken(p + "?" + q) by {
      var u := p + "?" + q;
      assert "http://" <= u;
      forall k | 0 <= k < |u|
        ensures IsUrlChar(u[k])
      {
        assert '.' <= u[k] <= 'z' && u[k] != '<' && u[k] != '>';
      }
    }
    assert Contains(q, PostsMarker) by {
      assert OccursAt(q, PostsMarker, 0);
      ContainsIff(q, PostsMarker);
    }
    assert !Contains(p, PostsMarker);
    MarkerInQueryOnly(p, q);
  }
}
