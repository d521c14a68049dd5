/**
 * The frontend's citation rewriter (`preprocessResponse` in frontend/src/App.js):
 * every `[Source: <url>]` marker of the answer text becomes a link whose label
 * names the subreddit for reddit.com and the host otherwise.
 *
 * The regular expression `/\[Source:\s*(https?:\/\/[^\]\s]+)\]/gi` is written out
 * as an explicit matcher, and `String.prototype.replace` with the `g` flag as a
 * scan over the text. The `URL` constructor is a parameter: it yields the hostname
 * and the pathname, or None when it throws.
 */
module Citations {
  import opened Wrappers
  import opened Text

  /** The `hostname` and `pathname` of a parsed URL. */
  datatype Url = Url(hostname: string, pathname: string)

  /** A match of the marker pattern at the start of the text: its length and the
      captured URL. */
  datatype Match = Match(len: nat, url: string)

  const SourceTag: string := "[source:"
  const HttpsScheme: string := "https://"
  const HttpScheme: string := "http://"
  const RedditDomain: string := "reddit.com"
  const WwwPrefix: string := "www."
  const NewTabAttributes: string := "target=\"_blank\" rel=\"noopener noreferrer\""

  /** Case folding of the `i` flag for the ASCII letters of the pattern. */
  function Lower(c: char): char {
    if 'A' <= c <= 'Z' then (c as int + 32) as char else c
  }

  /** `s` starts with the lower-case literal `lit`, letters compared without case. */
  predicate CiPrefix(lit: string, s: string) {
    |lit| <= |s| && forall k :: 0 <= k < |lit| ==> Lower(s[k]) == lit[k]
  }

  /** A character of the class `[^\]\s]`. */
  predicate IsUrlChar(c: char) {
    c != ']' && !IsJsSpace(c)
  }

  predicate AllUrlChars(s: string) {
    forall k :: 0 <= k < |s| ==> IsUrlChar(s[k])
  }

  /** The captured group `https?:\/\/[^\]\s]+`: a scheme, in any case, followed by
      at least one character that is neither `]` nor whitespace. */
  predicate IsCitedUrl(url: string) {
    || (CiPrefix(HttpsScheme, url) && |url| > |HttpsScheme| && AllUrlChars(url[|HttpsScheme|..]))
    || (CiPrefix(HttpScheme, url) && |url| > |HttpScheme| && AllUrlChars(url[|HttpScheme|..]))
  }

  /** The parts of a marker: the tag `[Source:` in any case, a run of whitespace and
      the captured URL. */
  predicate IsMarker(tag: string, gap: string, url: string) {
    && |tag| == |SourceTag| && CiPrefix(SourceTag, tag)
    && AllSpace(gap, IsJsSpace)
    && IsCitedUrl(url)
  }

  /** The text of a marker: its parts followed by `]`. */
  function Marker(tag: string, gap: string, url: string): string {
    tag + gap + url + "]"
  }

  /** `s` holds the lower-case literal `lit` at position `i`, letters compared
      without case. */
  predicate CiAt(lit: string, s: string, i: nat) {
    i + |lit| <= |s| && forall k :: 0 <= k < |lit| ==> Lower(s[i + k]) == lit[k]
  }

  /** The length of the run of whitespace from position `i` on (`\s*`). */
  function SpaceRun(s: string, i: nat): (n: nat)
    requires i <= |s|
    ensures i + n <= |s|
    decreases |s| - i
  {
    if i < |s| && IsJsSpace(s[i]) then 1 + SpaceRun(s, i + 1) else 0
  }

  /** The length of the run of URL characters from position `i` on (`[^\]\s]+`,
      greedy). */
  function UrlRun(s: string, i: nat): (n: nat)
    requires i <= |s|
    ensures i + n <= |s|
    decreases |s| - i
  {
    if i < |s| && IsUrlChar(s[i]) then 1 + UrlRun(s, i + 1) else 0
  }

  /** The length of the scheme `https?:\/\/` at position `i`, or 0 when there is none. */
  function SchemeLen(s: string, i: nat): nat {
    if CiAt(HttpsScheme, s, i) then |HttpsScheme|
    else if CiAt(HttpScheme, s, i) then |HttpScheme|
    else 0
  }

  /** The captured group tried at position `i`: the length of the URL, if any. */
  function UrlMatch(s: string, i: nat): (r: Option<nat>)
    requires i <= |s|
    ensures r.Some? ==> i + r.value <= |s|
  {
    var sl := SchemeLen(s, i);
    if sl == 0 then None
    else
      var n := UrlRun(s, i + sl);
      if n == 0 then None else Some(sl + n)
  }

  /** The pattern tried at the start of `s`. The quantifiers cannot backtrack to a
      different match: the whitespace run must stop at the `h` of the scheme, and
      the URL run must stop at the `]`, which it cannot contain. */
  function MatchAt(s: string): (r: Option<Match>)
    ensures r.Some? ==> 0 < r.value.len <= |s|
  {
    if !CiAt(SourceTag, s, 0) then None
    else MatchFrom(s, |SourceTag| + SpaceRun(s, |SourceTag|))
  }

  /** The rest of the pattern, from position `i` of `s`: the captured group and `]`. */
  function MatchFrom(s: string, i: nat): (r: Option<Match>)
    requires i <= |s|
    ensures r.Some? ==> i < r.value.len <= |s|
  {
    match UrlMatch(s, i)
    case None => None
    case Some(l) =>
      if i + l < |s| && s[i + l] == ']' then Some(Match(i + l + 1, s[i..i + l])) else None
  }

  /** A literal at position `i` is a prefix of every slice from `i` that covers it. */
  lemma CiAtSlice(lit: string, s: string, i: nat, j: nat)
    requires i + |lit| <= j <= |s|
    ensures CiAt(lit, s, i) <==> CiPrefix(lit, s[i..j])
  {
    assert forall k | 0 <= k < |lit| :: s[i..j][k] == s[i + k];
  }

  /** A slice is all whitespace when every position it covers is. */
  lemma AllSpaceSlice(s: string, i: nat, j: nat)
    requires i <= j <= |s|
    ensures AllSpace(s[i..j], IsJsSpace) <==> forall k :: i <= k < j ==> IsJsSpace(s[k])
  {
    assert forall k | i <= k < j :: s[i..j][k - i] == s[k];
  }

  /** A slice is all URL characters when every position it covers is. */
  lemma AllUrlCharsSlice(s: string, i: nat, j: nat)
    requires i <= j <= |s|
    ensures AllUrlChars(s[i..j]) <==> forall k :: i <= k < j ==> IsUrlChar(s[k])
  {
    assert forall k | i <= k < j :: s[i..j][k - i] == s[k];
  }

  /** The whitespace run ends at the first character that is not whitespace. */
  lemma {:induction false} SpaceRunCuts(s: string, i: nat)
    requires i <= |s|
    ensures forall k :: i <= k < i + SpaceRun(s, i) ==> IsJsSpace(s[k])
    ensures i + SpaceRun(s, i) == |s| || !IsJsSpace(s[i + SpaceRun(s, i)])
    decreases |s| - i
  {
    if i < |s| && IsJsSpace(s[i]) {
      SpaceRunCuts(s, i + 1);
    }
  }

  /** Whitespace followed by a character that is not whitespace is the run. */
  lemma {:induction false} SpaceRunIs(s: string, i: nat, w: nat)
    requires i + w < |s| && !IsJsSpace(s[i + w])
    requires forall k :: i <= k < i + w ==> IsJsSpace(s[k])
    ensures SpaceRun(s, i) == w
    decreases w
  {
    if w > 0 {
      SpaceRunIs(s, i + 1, w - 1);
    }
  }

  /** The URL run ends at the first character that is `]` or whitespace. */
  lemma {:induction false} UrlRunCuts(s: string, i: nat)
    requires i <= |s|
    ensures forall k :: i <= k < i + UrlRun(s, i) ==> IsUrlChar(s[k])
    ensures i + UrlRun(s, i) == |s| || !IsUrlChar(s[i + UrlRun(s, i)])
    decreases |s| - i
  {
    if i < |s| && IsUrlChar(s[i]) {
      UrlRunCuts(s, i + 1);
    }
  }

  /** URL characters followed by a `]` are the run. */
  lemma {:induction false} UrlRunIs(s: string, i: nat, n: nat)
    requires i + n < |s| && s[i + n] == ']'
    requires forall k :: i <= k < i + n ==> IsUrlChar(s[k])
    ensures UrlRun(s, i) == n
    decreases n
  {
    if n > 0 {
      UrlRunIs(s, i + 1, n - 1);
    }
  }

  /** A scheme can only be matched at an `h` or `H`, which is not whitespace. */
  lemma SchemeStartsWithH(s: string, i: nat)
    requires SchemeLen(s, i) > 0
    ensures i < |s| && Lower(s[i]) == 'h' && !IsJsSpace(s[i])
  {
    assert HttpsScheme[0] == 'h' && HttpScheme[0] == 'h';
  }

  /** The URL scheme of a captured group: `https://` exactly when it is one. */
  lemma SchemeOfCitedUrl(url: string, s: string, i: nat)
    requires IsCitedUrl(url) && i + |url| <= |s| && s[i..i + |url|] == url
    ensures SchemeLen(s, i) == (if CiPrefix(HttpsScheme, url) then |HttpsScheme| else |HttpScheme|)
  {
    CiAtSlice(HttpsScheme, s, i, i + |url|);
    CiAtSlice(HttpScheme, s, i, i + |url|);
    if !CiPrefix(HttpsScheme, url) {
      assert url[4] == s[i + 4];
      assert HttpScheme[4] == ':' && HttpsScheme[4] == 's';
    }
  }

  /** What `UrlMatch` captures has the shape of the group, and it is the longest such
      text. */
  lemma UrlMatchSound(s: string, i: nat)
    requires i <= |s| && UrlMatch(s, i).Some?
    ensures var l := UrlMatch(s, i).value;
      IsCitedUrl(s[i..i + l]) && (i + l == |s| || !IsUrlChar(s[i + l]))
  {
    var sl := SchemeLen(s, i);
    var l := UrlMatch(s, i).value;
    var url := s[i..i + l];
    UrlRunCuts(s, i + sl);
    CiAtSlice(HttpsScheme, s, i, i + l);
    CiAtSlice(HttpScheme, s, i, i + l);
    AllUrlCharsSlice(s, i + sl, i + l);
    assert url[sl..] == s[i + sl..i + l];
  }

  /** A captured group followed by `]` is what `UrlMatch` captures. */
  lemma UrlMatchComplete(s: string, i: nat, l: nat)
    requires i + l < |s| && IsCitedUrl(s[i..i + l]) && s[i + l] == ']'
    ensures UrlMatch(s, i) == Some(l)
  {
    var url := s[i..i + l];
    SchemeOfCitedUrl(url, s, i);
    var sl := SchemeLen(s, i);
    assert HttpsScheme[4] != HttpScheme[4];
    assert sl < l && url[sl..] == s[i + sl..i + l];
    AllUrlCharsSlice(s, i + sl, i + l);
    UrlRunIs(s, i + sl, l - sl);
  }

  /** After the tag and a whitespace run of length `w`, the rest of the pattern
      decides the match. */
  lemma MatchAtFrom(s: string, w: nat)
    requires CiAt(SourceTag, s, 0) && SpaceRun(s, |SourceTag|) == w
    ensures MatchAt(s) == MatchFrom(s, |SourceTag| + w)
  {
  }

  /** What the rest of the pattern consumes from position `i`: a captured group of
      the required shape and `]`. */
  lemma MatchFromSound(s: string, i: nat)
    requires i <= |s| && MatchFrom(s, i).Some?
    ensures var r := MatchFrom(s, i).value;
      && r.len == i + |r.url| + 1
      && s[i..r.len] == r.url + "]"
      && IsCitedUrl(r.url)
  {
    var l := UrlMatch(s, i).value;
    UrlMatchSound(s, i);
    assert s[i..i + l + 1] == s[i..i + l] + [s[i + l]];
  }

  /** Every match is a marker: what `MatchAt` consumes splits into a tag, whitespace
      and the captured URL of the required shapes, followed by `]`. */
  lemma MatchSound(s: string)
    requires MatchAt(s).Some?
    ensures var r := MatchAt(s).value;
      var i := r.len - |r.url| - 1;
      && |SourceTag| <= i
      && IsMarker(s[..|SourceTag|], s[|SourceTag|..i], r.url)
      && s[..r.len] == Marker(s[..|SourceTag|], s[|SourceTag|..i], r.url)
  {
    var w := SpaceRun(s, |SourceTag|);
    MatchAtFrom(s, w);
    MatchFromMarker(s, |SourceTag| + w);
  }

  /** What the pattern consumes once the tag and whitespace run are known. */
  lemma MatchFromMarker(s: string, i: nat)
    requires CiAt(SourceTag, s, 0) && i == |SourceTag| + SpaceRun(s, |SourceTag|)
    requires MatchFrom(s, i).Some?
    ensures var r := MatchFrom(s, i).value;
      && r.len - |r.url| - 1 == i
      && IsMarker(s[..|SourceTag|], s[|SourceTag|..i], r.url)
      && s[..r.len] == Marker(s[..|SourceTag|], s[|SourceTag|..i], r.url)
  {
    MatchFromSound(s, i);
    MatchedTag(s);
    var r := MatchFrom(s, i).value;
    TakeSplit(s, |SourceTag|, i);
    TakeSplit(s, i, r.len);
  }

  /** A match starts with the tag, in any case, followed by a run of whitespace. */
  lemma MatchedTag(s: string)
    requires CiAt(SourceTag, s, 0)
    ensures var w := SpaceRun(s, |SourceTag|);
      && CiPrefix(SourceTag, s[..|SourceTag|])
      && AllSpace(s[|SourceTag|..|SourceTag| + w], IsJsSpace)
  {
    var w := SpaceRun(s, |SourceTag|);
    SpaceRunCuts(s, |SourceTag|);
    CiAtSlice(SourceTag, s, 0, |SourceTag|);
    assert s[0..|SourceTag|] == s[..|SourceTag|];
    AllSpaceSlice(s, |SourceTag|, |SourceTag| + w);
  }

  /** A prefix is a shorter prefix followed by the slice between them. */
  lemma TakeSplit(x: string, a: nat, b: nat)
    requires a <= b <= |x|
    ensures x[..b] == x[..a] + x[a..b]
  {
  }

  /** Every marker is matched, and in exactly one way: a text that starts with a
      marker is matched with the marker's length and its URL. */
  lemma MatchComplete(tag: string, gap: string, url: string, rest: string)
    requires IsMarker(tag, gap, url)
    ensures MatchAt(Marker(tag, gap, url) + rest) == Some(Match(|Marker(tag, gap, url)|, url))
  {
    var s := Marker(tag, gap, url) + rest;
    MarkerTag(tag, gap, url, rest);
    MarkerGap(tag, gap, url, rest);
    MarkerUrl(tag, gap, url, rest);
    MatchAtFrom(s, |gap|);
    MatchFromIs(s, |tag| + |gap|, url);
  }

  /** A text starting with a marker starts with the tag. */
  lemma MarkerTag(tag: string, gap: string, url: string, rest: string)
    requires |tag| == |SourceTag| && CiPrefix(SourceTag, tag)
    ensures CiAt(SourceTag, Marker(tag, gap, url) + rest, 0)
  {
    var s := Marker(tag, gap, url) + rest;
    MarkerLayout(tag, gap, url, rest);
    CiAtSlice(SourceTag, s, 0, |tag|);
  }

  /** The whitespace run after the tag of a marker is its gap: it stops at the
      scheme of the URL. */
  lemma MarkerGap(tag: string, gap: string, url: string, rest: string)
    requires AllSpace(gap, IsJsSpace) && IsCitedUrl(url)
    ensures SpaceRun(Marker(tag, gap, url) + rest, |tag|) == |gap|
  {
    var s := Marker(tag, gap, url) + rest;
    var i := |tag| + |gap|;
    MarkerLayout(tag, gap, url, rest);
    AllSpaceSlice(s, |tag|, i);
    SchemeOfCitedUrl(url, s, i);
    SchemeStartsWithH(s, i);
    SpaceRunIs(s, |tag|, |gap|);
  }

  /** After the tag and gap of a marker, the captured group is its URL, closed by `]`. */
  lemma MarkerUrl(tag: string, gap: string, url: string, rest: string)
    requires IsCitedUrl(url)
    ensures var s := Marker(tag, gap, url) + rest;
      var i := |tag| + |gap|;
      && |Marker(tag, gap, url)| == i + |url| + 1
      && i + |url| < |s| && UrlMatch(s, i) == Some(|url|)
      && s[i..i + |url|] == url && s[i + |url|] == ']'
  {
    var s := Marker(tag, gap, url) + rest;
    MarkerLayout(tag, gap, url, rest);
    UrlMatchComplete(s, |tag| + |gap|, |url|);
  }

  /** Where the parts of a marker lie in the text it starts. */
  lemma MarkerLayout(tag: string, gap: string, url: string, rest: string)
    ensures var s := Marker(tag, gap, url) + rest;
      var i := |tag| + |gap|;
      && |s| == |Marker(tag, gap, url)| + |rest|
      && |Marker(tag, gap, url)| == i + |url| + 1
      && s[0..|tag|] == tag
      && s[|tag|..i] == gap
      && s[i..i + |url|] == url && s[i + |url|] == ']'
  {
    var s := Marker(tag, gap, url) + rest;
    assert s == tag + (gap + (url + ("]" + rest)));
    assert s[|tag|..] == gap + (url + ("]" + rest));
    assert s[|tag| + |gap|..] == url + ("]" + rest);
  }

  /** The rest of the pattern at `i`, once the captured group and `]` are known. */
  lemma MatchFromIs(s: string, i: nat, url: string)
    requires i + |url| < |s| && UrlMatch(s, i) == Some(|url|)
    requires s[i..i + |url|] == url && s[i + |url|] == ']'
    ensures MatchFrom(s, i) == Some(Match(i + |url| + 1, url))
  {
  }

  /** `hostname.replace(/^www\./, '')`. */
  function Domain(hostname: string): string {
    if WwwPrefix <= hostname then hostname[|WwwPrefix|..] else hostname
  }

  /** `part.toLowerCase() === 'r'`. */
  predicate IsSubredditMarker(part: string) {
    part == "r" || part == "R"
  }

  /** `pathParts.findIndex(...)`: the first marker segment, if there is one. */
  function FirstMarker(parts: seq<string>): (r: Option<nat>)
    ensures r.Some? ==> r.value < |parts| && IsSubredditMarker(parts[r.value])
    ensures r.Some? ==> forall k :: 0 <= k < r.value ==> !IsSubredditMarker(parts[k])
    ensures r.None? ==> forall k :: 0 <= k < |parts| ==> !IsSubredditMarker(parts[k])
  {
    if parts == [] then None
    else if IsSubredditMarker(parts[0]) then Some(0)
    else
      match FirstMarker(parts[1..])
      case Some(i) => Some(i + 1)
      case None => None
  }

  /** The text of the link made for `url`. */
  function Label(u: Url): string {
    var domain := Domain(u.hostname);
    if domain == RedditDomain then
      var parts := Split(u.pathname, '/');
      match FirstMarker(parts)
      case Some(i) => if |parts| > i + 1 then "r/" + parts[i + 1] else domain
      case None => domain
    else domain
  }

  /** The link that replaces a marker. */
  function Anchor(url: string, text: string): string {
    AnchorHead(url) + NewTabAttributes + AnchorTail(text)
  }

  /** The opening of the link, up to its target and rel attributes. */
  function AnchorHead(url: string): string {
    "<a href=\"" + url + "\" class=\"citation-link\" "
  }

  /** The end of the opening tag, the link text and the closing tag. */
  function AnchorTail(text: string): string {
    ">" + text + "</a>"
  }

  /** The replacement callback: the link if the URL parses, the marker itself if
      `new URL` throws. */
  function Replacement(m: string, url: string, parseUrl: string -> Option<Url>): string {
    match parseUrl(url)
    case Some(u) => Anchor(url, Label(u))
    case None => m
  }

  /** `text.replace(pattern, callback)` with the `g` flag: every match, from left to
      right, the search resuming after each match. */
  function Rewrite(s: string, parseUrl: string -> Option<Url>): string
    decreases |s|
  {
    if s == [] then []
    else
      match MatchAt(s)
      case Some(m) => Replacement(s[..m.len], m.url, parseUrl) + Rewrite(s[m.len..], parseUrl)
      case None => [s[0]] + Rewrite(s[1..], parseUrl)
  }

  /** The first marker segment is found wherever it is. */
  lemma {:induction false} FirstMarkerIs(parts: seq<string>, i: nat)
    requires i < |parts| && IsSubredditMarker(parts[i])
    requires forall k :: 0 <= k < i ==> !IsSubredditMarker(parts[k])
    ensures FirstMarker(parts) == Some(i)
  {
    if i > 0 {
      assert !IsSubredditMarker(parts[0]);
      forall k | 0 <= k < i - 1 ensures !IsSubredditMarker(parts[1..][k]) {
        assert parts[1..][k] == parts[k + 1];
      }
      FirstMarkerIs(parts[1..], i - 1);
    }
  }

  /** On reddit.com, the first segment that is `r` in either case, when a segment
      follows it, names the subreddit of the label. */
  lemma LabelSubreddit(u: Url, i: nat)
    requires Domain(u.hostname) == RedditDomain
    requires var parts := Split(u.pathname, '/');
      && i + 1 < |parts| && IsSubredditMarker(parts[i])
      && forall k :: 0 <= k < i ==> !IsSubredditMarker(parts[k])
    ensures Label(u) == "r/" + Split(u.pathname, '/')[i + 1]
  {
    FirstMarkerIs(Split(u.pathname, '/'), i);
  }

  /** Only the last segment is `r`, in either case. */
  predicate OnlyLastIsMarker(parts: seq<string>) {
    && parts != [] && IsSubredditMarker(parts[|parts| - 1])
    && forall k :: 0 <= k < |parts| - 1 ==> !IsSubredditMarker(parts[k])
  }

  /** Otherwise the label is the host without its leading `www.`: off reddit.com,
      when no segment is `r`, or when the only one is the last segment. */
  lemma LabelDomain(u: Url)
    requires var parts := Split(u.pathname, '/');
      || Domain(u.hostname) != RedditDomain
      || (forall k :: 0 <= k < |parts| ==> !IsSubredditMarker(parts[k]))
      || OnlyLastIsMarker(parts)
    ensures Label(u) == Domain(u.hostname)
  {
    var parts := Split(u.pathname, '/');
    if OnlyLastIsMarker(parts) {
      FirstMarkerIs(parts, |parts| - 1);
    }
  }

  /** Only one leading `www.` is removed from the host. */
  lemma DomainStripsOneWww(h: string)
    ensures Domain(WwwPrefix + h) == h
  {
    assert WwwPrefix <= WwwPrefix + h;
  }

  /** Every link opens in a new tab without giving the new page access to the
      opener. */
  lemma AnchorOpensInNewTab(url: string, text: string)
    ensures Contains(Anchor(url, text), NewTabAttributes)
  {
    ContainsMiddle(AnchorHead(url), NewTabAttributes, AnchorTail(text));
  }

  /** No match of the pattern starts at position `i` of `s`. */
  predicate NoMatchAt(s: string, i: nat) {
    i <= |s| && MatchAt(s[i..]).None?
  }

  /** Text none of whose positions starts a match is copied unchanged, and
      rewriting goes on after it. This covers every `[` that opens no marker. */
  lemma {:induction false} RewriteNoMatch(a: string, b: string, parseUrl: string -> Option<Url>)
    requires forall i :: 0 <= i < |a| ==> NoMatchAt(a + b, i)
    ensures Rewrite(a + b, parseUrl) == a + Rewrite(b, parseUrl)
    decreases |a|
  {
    if a == [] {
      assert a + b == b;
    } else {
      var s := a + b;
      assert NoMatchAt(s, 0);
      RewriteCopiesFirst(s, parseUrl);
      NoMatchShift(a, b);
      RewriteNoMatch(a[1..], b, parseUrl);
      ConsAppend(a, b, Rewrite(b, parseUrl));
    }
  }

  /** The identities that line up the first character with the rest. */
  lemma ConsAppend(a: string, b: string, r: string)
    requires a != []
    ensures (a + b)[1..] == a[1..] + b && (a + b)[0] == a[0]
    ensures [a[0]] + (a[1..] + r) == a + r
  {
    assert a == [a[0]] + a[1..];
  }

  /** Where no match starts, the first character is copied. */
  lemma RewriteCopiesFirst(s: string, parseUrl: string -> Option<Url>)
    requires s != [] && NoMatchAt(s, 0)
    ensures Rewrite(s, parseUrl) == [s[0]] + Rewrite(s[1..], parseUrl)
  {
    assert s[0..] == s;
  }

  /** Dropping the first character keeps the positions where no match starts. */
  lemma NoMatchShift(a: string, b: string)
    requires a != [] && forall i :: 0 <= i < |a| ==> NoMatchAt(a + b, i)
    ensures forall i :: 0 <= i < |a[1..]| ==> NoMatchAt(a[1..] + b, i)
  {
    forall i | 0 <= i < |a[1..]| ensures NoMatchAt(a[1..] + b, i) {
      assert NoMatchAt(a + b, i + 1);
      assert (a[1..] + b)[i..] == (a + b)[i + 1..];
    }
  }

  /** A text that does not start with `[` starts no match. */
  lemma NoMatchWithoutBracket(s: string)
    requires s == [] || s[0] != '['
    ensures MatchAt(s).None?
  {
    assert SourceTag[0] == '[';
    if s != [] {
      assert Lower(s[0]) != '[';
    }
  }

  /** A text in which no position starts a match is returned as it is. */
  lemma RewriteWithoutMatches(s: string, parseUrl: string -> Option<Url>)
    requires forall i :: 0 <= i < |s| ==> NoMatchAt(s, i)
    ensures Rewrite(s, parseUrl) == s
  {
    AppendNothing(s);
    RewriteNoMatch(s, [], parseUrl);
  }

  lemma AppendNothing(s: string)
    ensures s + [] == s
  {
  }

  /** A bracketed tag whose URL lacks a scheme is not a marker and stays as it is. */
  lemma RewriteSchemelessSource(parseUrl: string -> Option<Url>)
    ensures Rewrite("See [Source: not-a-url]", parseUrl) == "See [Source: not-a-url]"
  {
    var s := "See [Source: not-a-url]";
    forall i | 0 <= i < |s| ensures NoMatchAt(s, i) {
      if i != 4 {
        NoMatchWithoutBracket(s[i..]);
      } else {
        assert s[4..] == "[Source: not-a-url]";
        SchemelessSourceNoMatch();
      }
    }
    RewriteWithoutMatches(s, parseUrl);
  }

  /** The tag and the space are there, but no scheme follows them. */
  lemma SchemelessSourceNoMatch()
    ensures MatchAt("[Source: not-a-url]").None?
  {
    var t := "[Source: not-a-url]";
    assert CiAt(SourceTag, t, 0);
    assert SpaceRun(t, |SourceTag|) == 1 by {
      SpaceRunIs(t, |SourceTag|, 1);
    }
    assert Lower(t[9]) == 'n' && HttpsScheme[0] == 'h' && HttpScheme[0] == 'h';
    assert SchemeLen(t, 9) == 0;
  }

  /** Text without a `[` is copied unchanged, and rewriting goes on after it. */
  lemma RewritePlain(a: string, b: string, parseUrl: string -> Option<Url>)
    requires '[' !in a
    ensures Rewrite(a + b, parseUrl) == a + Rewrite(b, parseUrl)
  {
    forall i | 0 <= i < |a| ensures NoMatchAt(a + b, i) {
      assert (a + b)[i..][0] == a[i];
      NoMatchWithoutBracket((a + b)[i..]);
    }
    RewriteNoMatch(a, b, parseUrl);
  }

  /** A text without any `[` has no marker and is returned as it is. */
  lemma RewriteWithoutMarkers(s: string, parseUrl: string -> Option<Url>)
    requires '[' !in s
    ensures Rewrite(s, parseUrl) == s
  {
    RewritePlain(s, [], parseUrl);
    assert s + [] == s;
  }

  /** At a marker, the replacement of the marker is followed by the rewritten rest. */
  lemma RewriteAtMarker(tag: string, gap: string, url: string, b: string,
                        parseUrl: string -> Option<Url>)
    requires IsMarker(tag, gap, url)
    ensures var m := Marker(tag, gap, url);
      Rewrite(m + b, parseUrl) == Replacement(m, url, parseUrl) + Rewrite(b, parseUrl)
  {
    var m := Marker(tag, gap, url);
    MatchComplete(tag, gap, url, b);
    assert (m + b)[..|m|] == m && (m + b)[|m|..] == b;
  }

  /** A marker after text in which no match starts (such as text without `[`)
      becomes the link of its URL, labelled by the parsed URL, and the rest of the
      text is rewritten in turn. */
  lemma RewriteCitation(a: string, tag: string, gap: string, url: string, b: string,
                        parseUrl: string -> Option<Url>)
    requires forall i :: 0 <= i < |a| ==> NoMatchAt(a + Marker(tag, gap, url) + b, i)
    requires IsMarker(tag, gap, url) && parseUrl(url).Some?
    ensures Rewrite(a + Marker(tag, gap, url) + b, parseUrl)
         == a + Anchor(url, Label(parseUrl(url).value)) + Rewrite(b, parseUrl)
  {
    var m := Marker(tag, gap, url);
    RewriteAtMarker(tag, gap, url, b, parseUrl);
    RewriteAfterPlain(a, m, b, Replacement(m, url, parseUrl), parseUrl);
  }

  /** A marker whose URL does not parse, after text in which no match starts, is
      kept verbatim, and the rest of the text is rewritten in turn. */
  lemma RewriteUnparsable(a: string, tag: string, gap: string, url: string, b: string,
                          parseUrl: string -> Option<Url>)
    requires forall i :: 0 <= i < |a| ==> NoMatchAt(a + Marker(tag, gap, url) + b, i)
    requires IsMarker(tag, gap, url) && parseUrl(url).None?
    ensures Rewrite(a + Marker(tag, gap, url) + b, parseUrl)
         == a + Marker(tag, gap, url) + Rewrite(b, parseUrl)
  {
    var m := Marker(tag, gap, url);
    RewriteAtMarker(tag, gap, url, b, parseUrl);
    RewriteAfterPlain(a, m, b, Replacement(m, url, parseUrl), parseUrl);
  }

  /** Text in which no match starts, then a piece rewritten to `r`, then the rest. */
  lemma RewriteAfterPlain(a: string, m: string, b: string, r: string,
                          parseUrl: string -> Option<Url>)
    requires forall i :: 0 <= i < |a| ==> NoMatchAt(a + m + b, i)
    requires Rewrite(m + b, parseUrl) == r + Rewrite(b, parseUrl)
    ensures Rewrite(a + m + b, parseUrl) == a + r + Rewrite(b, parseUrl)
  {
    AppendAssoc(a, m, b);
    RewriteNoMatch(a, m + b, parseUrl);
    AppendAssoc(a, r, Rewrite(b, parseUrl));
  }

  lemma AppendAssoc(a: string, b: string, c: string)
    ensures a + b + c == a + (b + c)
  {
  }

  /** When no URL parses, the text is returned as it is, markers included. */
  lemma {:induction false} RewriteUnparsableText(s: string, parseUrl: string -> Option<Url>)
    requires forall u :: parseUrl(u).None?
    ensures Rewrite(s, parseUrl) == s
    decreases |s|
  {
    if s != [] {
      match MatchAt(s)
      case Some(m) =>
        RewriteUnparsableText(s[m.len..], parseUrl);
        assert s == s[..m.len] + s[m.len..];
      case None =>
        RewriteUnparsableText(s[1..], parseUrl);
        assert s == [s[0]] + s[1..];
    }
  }
}
