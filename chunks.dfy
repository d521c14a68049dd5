/**
 * The pure helpers of the backend's retrieval step (backend/utils.py): adding a
 * missing URL scheme, rewriting reddit hosts, cutting a page's tokens into
 * fixed-size windows that become source chunks, and the greedy selection of
 * ranked chunks under a token budget.
 *
 * The tokenizer is not modelled: the token list, the function that turns a
 * window of tokens back into text and the token count of a chunk are inputs,
 * and so is the order the similarity ranking puts the chunks in.
 */
module Retrieval {
  import opened Wrappers
  import opened Text

  const HttpPrefix: string := "http://"
  const HttpsPrefix: string := "https://"

  /** `ensure_scheme`: a URL without an `http://` or `https://` prefix gets `https://`. */
  function EnsureScheme(url: string): (r: string)
    ensures HttpPrefix <= r || HttpsPrefix <= r
    ensures |r| >= |url| && r[|r| - |url|..] == url
    ensures (HttpPrefix <= url || HttpsPrefix <= url) <==> r == url
    ensures !(HttpPrefix <= url || HttpsPrefix <= url) ==> r == HttpsPrefix + url
  {
    if HttpPrefix <= url || HttpsPrefix <= url then url else HttpsPrefix + url
  }

  /** Adding the scheme twice is adding it once. */
  lemma EnsureSchemeIdempotent(url: string)
    ensures EnsureScheme(EnsureScheme(url)) == EnsureScheme(url)
  {
  }

  const RedditHost: string := "reddit.com"
  const OldRedditHost: string := "old.reddit.com"
  const WwwRedditHost: string := "www.reddit.com"

  /** The host rewriting at the start of `extract_post_and_comments`: a reddit URL
      is pointed at `old.reddit.com`, first by replacing `www.reddit.com` and, if
      that did not produce it, by replacing `reddit.com`. */
  function ToOldReddit(url: string): string {
    var u := if Contains(url, OldRedditHost) then url
             else ReplaceAll(url, WwwRedditHost, OldRedditHost);
    if Contains(u, OldRedditHost) then u else ReplaceAll(u, RedditHost, OldRedditHost)
  }

  /** A URL already on `old.reddit.com` is left alone. */
  lemma OldRedditUnchanged(url: string)
    requires Contains(url, OldRedditHost)
    ensures ToOldReddit(url) == url
  {
  }

  /** Any other URL that mentions `reddit.com` ends up on `old.reddit.com`. */
  lemma RedditBecomesOld(url: string)
    requires Contains(url, RedditHost)
    ensures Contains(ToOldReddit(url), OldRedditHost)
  {
    if !Contains(url, OldRedditHost) {
      if Contains(url, WwwRedditHost) {
        ReplaceAllPresent(url, WwwRedditHost, OldRedditHost);
      } else {
        ReplaceAllAbsent(url, WwwRedditHost, OldRedditHost);
        if !Contains(url, OldRedditHost) {
          ReplaceAllPresent(url, RedditHost, OldRedditHost);
        }
      }
    }
  }

  /** A text that lacks `b` lacks every text ending in `b`. */
  lemma MissingTail(s: string, a: string, b: string)
    requires !Contains(s, b)
    ensures !Contains(s, a + b)
  {
    if Contains(s, a + b) {
      ContainsTail(s, a, b);
    }
  }

  /** A URL that does not mention `reddit.com` is left alone. */
  lemma NonRedditUnchanged(url: string)
    requires !Contains(url, RedditHost)
    ensures ToOldReddit(url) == url
  {
    assert WwwRedditHost == "www." + RedditHost;
    assert OldRedditHost == "old." + RedditHost;
    MissingTail(url, "www.", RedditHost);
    MissingTail(url, "old.", RedditHost);
    ReplaceAllAbsent(url, WwwRedditHost, OldRedditHost);
    ReplaceAllAbsent(url, RedditHost, OldRedditHost);
  }

  function Min(a: int, b: int): int {
    if a <= b then a else b
  }

  /** The slices `tokens[i:i + k]` for `i` in `range(start, len(tokens), k)`. */
  function WindowsFrom(tokens: seq<string>, k: nat, start: nat): seq<seq<string>>
    requires k > 0
    decreases |tokens| - start
  {
    if start >= |tokens| then []
    else [tokens[start..Min(start + k, |tokens|)]] + WindowsFrom(tokens, k, start + k)
  }

  /** The windows `get_text_chunks` cuts a token list into. */
  function Windows(tokens: seq<string>, k: nat): seq<seq<string>>
    requires k > 0
  {
    WindowsFrom(tokens, k, 0)
  }

  /** The windows laid end to end. */
  function Flatten(windows: seq<seq<string>>): seq<string> {
    if windows == [] then [] else windows[0] + Flatten(windows[1..])
  }

  /** Window `j` starts at token `j * k` and holds the next `k` tokens, or what is
      left of the list. */
  lemma {:induction false} WindowAt(tokens: seq<string>, k: nat, start: nat, j: nat)
    requires k > 0 && j < |WindowsFrom(tokens, k, start)|
    ensures start + j * k < |tokens|
    ensures WindowsFrom(tokens, k, start)[j]
         == tokens[start + j * k..Min(start + j * k + k, |tokens|)]
    decreases j
  {
    var w := WindowsFrom(tokens, k, start);
    if j > 0 {
      WindowAt(tokens, k, start + k, j - 1);
      assert w[j] == WindowsFrom(tokens, k, start + k)[j - 1];
      NextWindowStart(start, k, j);
    }
  }

  lemma NextWindowStart(start: nat, k: nat, j: nat)
    requires j > 0
    ensures start + k + (j - 1) * k == start + j * k
  {
  }

  /** Every window is non-empty and holds at most `k` tokens. */
  lemma WindowSize(tokens: seq<string>, k: nat, j: nat)
    requires k > 0 && j < |Windows(tokens, k)|
    ensures 0 < |Windows(tokens, k)[j]| <= k
  {
    WindowAt(tokens, k, 0, j);
  }

  /** The windows cover the tokens in order, without gaps or overlap. */
  lemma {:induction false} WindowsCover(tokens: seq<string>, k: nat, start: nat)
    requires k > 0 && start <= |tokens|
    ensures Flatten(WindowsFrom(tokens, k, start)) == tokens[start..]
    decreases |tokens| - start
  {
    if start < |tokens| {
      var w := WindowsFrom(tokens, k, start);
      var next := Min(start + k, |tokens|);
      if start + k <= |tokens| {
        WindowsCover(tokens, k, start + k);
      } else {
        assert WindowsFrom(tokens, k, start + k) == [];
      }
      assert w[1..] == WindowsFrom(tokens, k, start + k);
      assert Flatten(WindowsFrom(tokens, k, start + k)) == tokens[next..];
      assert tokens[start..] == tokens[start..next] + tokens[next..];
    }
  }

  const MinChunkLength: nat := 200
  const SourceLabel: string := "\nSource: "

  /** The URL a chunk cites: `old.reddit.com` is turned back into `www.reddit.com`. */
  function SourceUrl(url: string): string {
    ReplaceAll(url, OldRedditHost, WwwRedditHost)
  }

  /** A URL not on `old.reddit.com` is cited as it is. */
  lemma SourceUrlPlain(url: string)
    requires !Contains(url, OldRedditHost)
    ensures SourceUrl(url) == url
  {
    ReplaceAllAbsent(url, OldRedditHost, WwwRedditHost);
  }

  /** The chunk a window of text yields, if its stripped text is long enough. */
  function ChunkOf(text: string, source: string): seq<string> {
    var stripped := Trim(text, IsPySpace);
    if |stripped| < MinChunkLength then [] else [stripped + SourceLabel + source]
  }

  /** The chunks of a list of windows, in window order. */
  function KeptChunks(windows: seq<seq<string>>, detokenize: seq<string> -> string,
                      source: string): seq<string>
  {
    if windows == [] then []
    else ChunkOf(detokenize(windows[0]), source) + KeptChunks(windows[1..], detokenize, source)
  }

  /** Chunking two runs of windows is chunking each in turn. */
  lemma {:induction false} KeptChunksAppend(a: seq<seq<string>>, b: seq<seq<string>>,
                                            detokenize: seq<string> -> string, source: string)
    ensures KeptChunks(a + b, detokenize, source)
         == KeptChunks(a, detokenize, source) + KeptChunks(b, detokenize, source)
  {
    if a != [] {
      assert (a + b)[1..] == a[1..] + b;
      KeptChunksAppend(a[1..], b, detokenize, source);
    } else {
      assert a + b == b;
    }
  }

  /** Windows whose stripped text is shorter than 200 characters yield nothing. */
  lemma {:induction false} ShortWindowsDropped(windows: seq<seq<string>>,
                                               detokenize: seq<string> -> string, source: string)
    requires forall j :: 0 <= j < |windows| ==>
               |Trim(detokenize(windows[j]), IsPySpace)| < MinChunkLength
    ensures KeptChunks(windows, detokenize, source) == []
  {
    if windows != [] {
      ShortWindowsDropped(windows[1..], detokenize, source);
    }
  }

  /** Windows whose stripped text is long enough each yield one chunk: the
      stripped text, the source label and the cited URL. */
  lemma {:induction false} LongWindowsKept(windows: seq<seq<string>>,
                                           detokenize: seq<string> -> string, source: string)
    requires forall j :: 0 <= j < |windows| ==>
               |Trim(detokenize(windows[j]), IsPySpace)| >= MinChunkLength
    ensures var r := KeptChunks(windows, detokenize, source);
      && |r| == |windows|
      && forall j :: 0 <= j < |r| ==>
           r[j] == Trim(detokenize(windows[j]), IsPySpace) + SourceLabel + source
  {
    if windows != [] {
      LongWindowsKept(windows[1..], detokenize, source);
      var r := KeptChunks(windows, detokenize, source);
      var rest := KeptChunks(windows[1..], detokenize, source);
      assert r == [Trim(detokenize(windows[0]), IsPySpace) + SourceLabel + source] + rest;
      forall j | 0 < j < |r|
        ensures r[j] == Trim(detokenize(windows[j]), IsPySpace) + SourceLabel + source
      {
        assert r[j] == rest[j - 1] && windows[j] == windows[1..][j - 1];
      }
    }
  }

  /** Every chunk is at least 200 characters of text with no whitespace at either
      end, followed by the source label and the cited URL. */
  lemma {:induction false} ChunkShape(windows: seq<seq<string>>,
                                      detokenize: seq<string> -> string, source: string, j: nat)
    requires j < |KeptChunks(windows, detokenize, source)|
    ensures var c := KeptChunks(windows, detokenize, source)[j];
      var tail := SourceLabel + source;
      && |c| >= MinChunkLength + |tail|
      && c[|c| - |tail|..] == tail
      && !IsPySpace(c[0]) && !IsPySpace(c[|c| - |tail| - 1])
    decreases |windows|
  {
    var here := ChunkOf(detokenize(windows[0]), source);
    var r := KeptChunks(windows, detokenize, source);
    assert r == here + KeptChunks(windows[1..], detokenize, source);
    if j < |here| {
      var stripped := Trim(detokenize(windows[0]), IsPySpace);
      TrimEnds(detokenize(windows[0]), IsPySpace);
      assert r[j] == stripped + (SourceLabel + source);
    } else {
      ChunkShape(windows[1..], detokenize, source, j - |here|);
    }
  }

  /** The first window from `start` on contributes its chunk ahead of the rest. */
  lemma KeptChunksStep(tokens: seq<string>, k: nat, start: nat,
                       detokenize: seq<string> -> string, source: string)
    requires k > 0 && start < |tokens|
    ensures KeptChunks(WindowsFrom(tokens, k, start), detokenize, source)
         == ChunkOf(detokenize(tokens[start..Min(start + k, |tokens|)]), source)
            + KeptChunks(WindowsFrom(tokens, k, start + k), detokenize, source)
  {
    var w := WindowsFrom(tokens, k, start);
    assert w[1..] == WindowsFrom(tokens, k, start + k);
  }

  /** One turn of the loop in `ChunkWindows` keeps its invariant. */
  lemma ChunkWindowsStep(tokens: seq<string>, k: nat, start: nat,
                         detokenize: seq<string> -> string, source: string, done: seq<string>)
    requires k > 0 && start < |tokens|
    requires done + KeptChunks(WindowsFrom(tokens, k, start), detokenize, source)
          == KeptChunks(Windows(tokens, k), detokenize, source)
    ensures done + ChunkOf(detokenize(tokens[start..Min(start + k, |tokens|)]), source)
            + KeptChunks(WindowsFrom(tokens, k, start + k), detokenize, source)
         == KeptChunks(Windows(tokens, k), detokenize, source)
  {
    KeptChunksStep(tokens, k, start, detokenize, source);
  }

  /** `get_text_chunks`: the windows of `max_tokens` tokens whose stripped text
      has at least 200 characters, each followed by its source line. A zero
      window size makes Python's `range` raise `ValueError` (None); a negative
      one gives an empty range. */
  method GetTextChunks(tokens: seq<string>, maxTokens: int, url: string,
                       detokenize: seq<string> -> string)
    returns (chunks: Option<seq<string>>)
    ensures maxTokens == 0 <==> chunks == None
    ensures maxTokens < 0 ==> chunks == Some([])
    ensures maxTokens > 0 ==>
      chunks == Some(KeptChunks(Windows(tokens, maxTokens), detokenize, SourceUrl(url)))
  {
    if maxTokens == 0 {
      return None;
    }
    var source := SourceUrl(url);
    if maxTokens < 0 {
      return Some([]);
    }
    var result := ChunkWindows(tokens, maxTokens, source, detokenize);
    return Some(result);
  }

  /** The loop of `get_text_chunks` over `range(0, len(tokens), k)`. */
  method ChunkWindows(tokens: seq<string>, k: nat, source: string,
                      detokenize: seq<string> -> string)
    returns (result: seq<string>)
    requires k > 0
    ensures result == KeptChunks(Windows(tokens, k), detokenize, source)
  {
    result := [];
    var i: nat := 0;
    while i < |tokens|
      invariant result + KeptChunks(WindowsFrom(tokens, k, i), detokenize, source)
             == KeptChunks(Windows(tokens, k), detokenize, source)
    {
      var chunkText := detokenize(tokens[i..Min(i + k, |tokens|)]);
      ChunkWindowsStep(tokens, k, i, detokenize, source, result);
      ghost var start := i;
      // The window's text, stripped, with its source line, if it is long enough.
      var kept := ChunkOf(chunkText, source);
      result := result + kept;
      i := i + k;
      assert result + KeptChunks(WindowsFrom(tokens, k, start + k), detokenize, source)
          == KeptChunks(Windows(tokens, k), detokenize, source);
    }
    assert WindowsFrom(tokens, k, i) == [];
    assert result + [] == result;
  }

  /** The number of tokens in a list of chunks. */
  function TokenTotal(chunks: seq<string>, countTokens: string -> nat): nat {
    if chunks == [] then 0
    else TokenTotal(chunks[..|chunks| - 1], countTokens) + countTokens(chunks[|chunks| - 1])
  }

  /** A longer prefix never holds fewer tokens. */
  lemma {:induction false} TokenTotalGrows(chunks: seq<string>, countTokens: string -> nat,
                                           m: nat, n: nat)
    requires m <= n <= |chunks|
    ensures TokenTotal(chunks[..m], countTokens) <= TokenTotal(chunks[..n], countTokens)
    decreases n - m
  {
    if m < n {
      TokenTotalGrows(chunks, countTokens, m, n - 1);
      assert chunks[..n][..n - 1] == chunks[..n - 1];
    }
  }

  /** The greedy loop of `get_top_chunks_by_token_limit` over the chunks in ranked
      order: take chunks while the running total stays within the limit, and stop
      at the first one that would exceed it. The result is the longest prefix of
      the ranking within the limit. */
  method SelectWithinLimit(ranked: seq<string>, countTokens: string -> nat, maxTokenLimit: int)
    returns (selected: seq<string>)
    ensures selected <= ranked
    ensures selected == [] || TokenTotal(selected, countTokens) <= maxTokenLimit
    ensures |selected| < |ranked| ==>
      TokenTotal(selected, countTokens) + countTokens(ranked[|selected|]) > maxTokenLimit
    ensures forall n :: |selected| < n <= |ranked| ==>
      TokenTotal(ranked[..n], countTokens) > maxTokenLimit
  {
    selected := [];
    var totalTokens := 0;
    var i := 0;
    while i < |ranked|
      invariant 0 <= i <= |ranked| && selected == ranked[..i]
      invariant totalTokens == TokenTotal(selected, countTokens)
      invariant selected == [] || totalTokens <= maxTokenLimit
    {
      var chunk := ranked[i];
      var chunkTokens := countTokens(chunk);
      if totalTokens + chunkTokens <= maxTokenLimit {
        assert (selected + [chunk])[..i] == selected;
        selected := selected + [chunk];
        totalTokens := totalTokens + chunkTokens;
        i := i + 1;
      } else {
        assert ranked[..i + 1][..i] == selected;
        forall n | i < n <= |ranked|
          ensures TokenTotal(ranked[..n], countTokens) > maxTokenLimit
        {
          TokenTotalGrows(ranked, countTokens, i + 1, n);
        }
        break;
      }
    }
  }
}
