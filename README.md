# reddit-opinion: the stream consumer, the citation rewriter, the task registry and the retrieval helpers

This project models the parts of reddit-opinion that hold sequential logic:

- **The browser's stream consumer** (`handleQuerySubmit` and `handleStop` in
  frontend/src/App.js), module `StreamConsumer` in `stream.dfy`:
  - It keeps a trailing-fragment line buffer over the decoded response chunks.
  - It classifies every complete line as a skipped line or an event: no `data: ` prefix, the `[DONE]` sentinel, malformed JSON, an unknown status, or one of `info`, `stream`, `token_usage`, `cancelled` and `error`.
  - Each event updates the page state (`response`, `status`, `errorLog`, `isProcessing`, `tokenUsage`). Only a missing token changes `isLoggedIn` (frontend/src/App.js:74-78).
  - At the end of the stream, the leftover fragment is examined only for a token-usage frame.
  - The handler is modelled twice:
    - as pure specification functions (`Classify`, `Step`, `ApplyLines`, `FeedAll`, `AfterSubmit`);
    - as the class `Session`, whose fields are the React state. Its methods run the same loops and are proved equal to those functions.
- **The citation rewriter** (`preprocessResponse` in frontend/src/App.js), module `Citations` in `citations.dfy`:
  - The regular expression `/\[Source:\s*(https?:\/\/[^\]\s]+)\]/gi` is written out as an explicit matcher, with proofs that it accepts exactly the markers.
  - `replace` with the `g` flag is a left-to-right scan.
  - The callback makes a link labelled `r/<subreddit>` on reddit.com and with the host otherwise. It leaves the marker as it is when the URL does not parse.
- **The backend's task registry** (backend/query.py), module `QueryService` in `registry.dfy`:
  - the `QueryProcessor` class with its set of cancelled task ids and its user-to-task map;
  - the module-level `cancel_task`;
  - the registration and clean-up that `process_query` wraps around a query;
  - the frames `generate_llm_response` yields, ending with the token usage and `[DONE]` on every path.
- **The retrieval helpers** (backend/utils.py), module `Retrieval` in `chunks.dfy`:
  - `ensure_scheme`;
  - the reddit host rewriting;
  - the fixed-stride token windows of `get_text_chunks` and its filter of short windows;
  - the greedy budget loop of `get_top_chunks_by_token_limit` over an already ranked list.

Shared text utilities are in `text.dfy`, module `Text`:
- the JavaScript and Python whitespace classes, trimming and `split` on one character;
- substring search and Python's `str.replace`.

`wrappers.dfy` holds `Option`.

Foreign code becomes function-typed parameters:
- `JSON.parse`: `parse`, yielding the fields the consumer reads, or None when it throws;
- `new URL`: `parseUrl`, yielding hostname and pathname, or None when it throws;
- `json.loads` with the `choices[0].delta.content` lookups: `loads`;
- the tokenizer's count: `countTokens`;
- `convert_tokens_to_string`: `detokenize`.

The token list and the ranked order of the chunks are inputs. Network replies are values:
- the `fetch` outcome is `Reply`;
- the upstream completion stream is `Upstream`, a sequence of `Piece`s, each recording whether the task had been cancelled when the piece arrived.

Three behaviours of the code are easy to miss, and the model keeps them:
- The leftover fragment is never parsed as one last line. It is only read for a `token_usage` frame, and the text decoder is never flushed (frontend/src/App.js:155-170).
- `handleStop` does not stop the read loop. It only sets `status` and `isProcessing`, and lines that arrive later are still applied. `Session.Stop` is therefore independent of `Session.Submit`.
- The start of a query sets `status` to `Starting query processing...` rather than clearing it (frontend/src/App.js:70).

## Model

| member | source | states |
|---|---|---|
| Text.TrimEnds | frontend/src/App.js:113 | a trimmed text has no whitespace at either end, and it is empty exactly when the text is all whitespace |
| Text.Trim | frontend/src/App.js:113 | `trim()` (and Python's `strip()` with its own whitespace class): leading whitespace removed, then trailing; `TrimEnds`, `TrimStartCuts` and `TrimEndCuts` state what is removed and what is left |
| Text.TrimStartCuts | frontend/src/App.js:113 | trimming the start removes exactly the leading whitespace: the result is a suffix, what was cut is all whitespace, and the result does not start with whitespace |
| Text.TrimEndCuts | frontend/src/App.js:113 | trimming the end removes exactly the trailing whitespace: the result is a prefix, what was cut is all whitespace, and the result does not end with whitespace |
| Text.SplitJoin | frontend/src/App.js:107 | no piece of `split('\n')` holds the separator, and joining the pieces with it gives back the text |
| Text.JoinSplit | frontend/src/App.js:107 | splitting the join of separator-free pieces gives back those pieces |
| Text.SplitNoSeparator | frontend/src/App.js:107 | a text without the separator splits into itself alone |
| Text.SplitAppend | frontend/src/App.js:105-107 | appending text to a split text only extends its last piece: the complete pieces stay and the last piece splits further |
| Text.Split | frontend/src/App.js:107 | `split('\n')`: the pieces between separators, always at least one; `SplitJoin`, `JoinSplit`, `SplitNoSeparator` and `SplitAppend` characterise them |
| Text.ReplaceAllAbsent | backend/utils.py:58 | `str.replace` of a text that does not occur changes nothing |
| Text.ReplaceAllPresent | backend/utils.py:82-84 | after `str.replace` of a text that occurs, the replacement occurs |
| Text.ReplaceAll | backend/utils.py:82-84 | `str.replace`: every non-overlapping occurrence, scanned from the left, is replaced; `ReplaceAllAbsent` states that an absent pattern changes nothing and `ReplaceAllPresent` that the replacement then occurs |
| StreamConsumer.StatusCases | frontend/src/App.js:123-144 | each `switch (data.status)` case is selected exactly by its own label |
| StreamConsumer.EventOf | frontend/src/App.js:123-144 | a payload yields no event exactly when its status is unknown or absent, and a terminal event exactly for `cancelled` and `error` |
| StreamConsumer.Classify | frontend/src/App.js:110-148 | only a line with the `data: ` prefix can dispatch an event |
| StreamConsumer.ClassifyCases | frontend/src/App.js:111-148 | a line is skipped exactly when it lacks `data: `, its trimmed payload is `[DONE]`, its JSON does not parse, or its status is unknown; every other line dispatches the event of its parsed payload |
| StreamConsumer.Step | frontend/src/App.js:110-148 | one turn of the line loop: nothing once stopped or for a skipped line, otherwise the event's update, stopping on a terminal one; `TerminalStep` and `OrdinaryStep` state its effect |
| StreamConsumer.ApplyLines | frontend/src/App.js:110-149 | the line loop over the complete lines in order; `ApplyLinesAppend`, `ApplyLinesAt`, `OrdinaryLines`, `TerminalLine` and `StoppedIsFinal` characterise it |
| StreamConsumer.ApplyEvent | frontend/src/App.js:124-143 | `info` sets only the status; `stream` clears the status and appends the content as `prev + data.content` does (through `AppendField`, so an absent field appends `undefined`); `token_usage` replaces both counters; `cancelled` and `error` clear the status, record the message as the error log and stop processing; the answer is kept and the login flag never changes |
| StreamConsumer.ApplyLinesAppend | frontend/src/App.js:110-149 | consuming two runs of lines is consuming the first, then the second |
| StreamConsumer.StoppedIsFinal | frontend/src/App.js:138-143 | after a terminal event no later line changes anything |
| StreamConsumer.SkippedLineChangesNothing | frontend/src/App.js:111-148 | removing a skipped line from anywhere in the input changes no state; the lines after it are still processed |
| StreamConsumer.TerminalStep | frontend/src/App.js:138-143 | a terminal line stops the consumer, keeps the answer and counters, clears the status, records its message and clears `isProcessing` |
| StreamConsumer.OrdinaryStep | frontend/src/App.js:124-137 | a line that is not terminal appends its stream content, replaces the counters when it carries usage, and keeps the error log and processing flag |
| StreamConsumer.OrdinaryRunsCompose | frontend/src/App.js:124-137 | two runs of ordinary lines are one: their texts are appended in order and the later counters win |
| StreamConsumer.NoTerminalTail | frontend/src/App.js:110 | the lines after the first of a run with no terminal line have none either |
| StreamConsumer.OrdinaryLines | frontend/src/App.js:110-149 | without terminal frames the answer grows by the stream contents in arrival order, the last token-usage frame decides the counters, the error log and processing flag stay, and the consumer keeps going |
| StreamConsumer.ApplyLinesAt | frontend/src/App.js:110-149 | consuming the lines is consuming those before position `i`, then line `i`, then the rest |
| StreamConsumer.TerminalLine | frontend/src/App.js:138-143 | the first cancelled or error frame ends the handler: the answer and counters so far stay, the status is cleared, its message becomes the error log, processing stops, and no later line has any effect |
| StreamConsumer.StoppedMeansIdle | frontend/src/App.js:138-143 | a consumer that stops is left not processing and with an empty status |
| StreamConsumer.Feed | frontend/src/App.js:105-108 | the kept fragment and every emitted line hold no newline, and the lines joined with the fragment by newlines are the old fragment followed by the chunk |
| StreamConsumer.FeedIsSplit | frontend/src/App.js:105-108 | the lines a chunk completes, followed by the new fragment, are the split of the old fragment followed by the chunk |
| StreamConsumer.SplitStep | frontend/src/App.js:105-108 | the split of everything received plus a chunk is the earlier lines followed by the split of the fragment plus the chunk |
| StreamConsumer.FeedAllSplits | frontend/src/App.js:102-108 | after any number of chunks, the emitted lines followed by the fragment are exactly the split of all text received: joined with newlines they give that text, and the fragment holds no newline |
| StreamConsumer.ChunkingIndependence | frontend/src/App.js:102-108 | two chunkings of the same text emit the same lines and keep the same fragment |
| StreamConsumer.FeedAllPrefix | frontend/src/App.js:102-108 | the lines of the first chunks are a prefix of the lines of all chunks |
| StreamConsumer.QueryFailed | frontend/src/App.js:174-178 | a failed request logs a message starting `Query failed: `, clears the status and `isProcessing`, and keeps the answer and counters |
| StreamConsumer.LeftoverUsage | frontend/src/App.js:155-170 | the usage of a leftover `data: ` fragment that is not `[DONE]`, parses and has status `token_usage`; `LeftoverOnlyTokenUsage` ties it to `Classify` |
| StreamConsumer.LeftoverOnlyTokenUsage | frontend/src/App.js:155-170 | the leftover fragment is applied exactly when it classifies as a token-usage frame; every other leftover frame is dropped |
| StreamConsumer.FinishStream | frontend/src/App.js:155-173 | the natural end clears `isProcessing` and the status, keeps the answer and error log, and takes the leftover fragment's usage if it carries one |
| StreamConsumer.Begin | frontend/src/App.js:67-71 | the resets before the token is read: empty error and answer, processing, the starting status, zero counters; `MissingToken` and `SubmitEndsIdle` use it |
| StreamConsumer.AfterBody | frontend/src/App.js:97-178 | the body split into lines and consumed, then the failed read or the natural end unless a terminal frame returned first; `CompletedStream`, `TerminalLine` and `SubmitChunkingIndependence` characterise it |
| StreamConsumer.AfterRequest | frontend/src/App.js:81-178 | a rejected `fetch` or a non-ok reply goes to the `catch` block, a body is read; `SubmitEndsIdle` states how every case ends |
| StreamConsumer.AfterSubmit | frontend/src/App.js:63-179 | the whole submit handler; `BlankQueryIsNoOp`, `MissingToken`, `SubmitEndsIdle`, `SubmitChunkingIndependence` and `CompletedStream` characterise it |
| StreamConsumer.BlankQueryIsNoOp | frontend/src/App.js:65 | a query that is all whitespace changes nothing, whatever reply the request would have had |
| StreamConsumer.MissingToken | frontend/src/App.js:67-79 | without a token the answer, error log and counters are reset, the status is cleared, processing stops, the user is logged out, and the reply plays no part |
| StreamConsumer.SubmitEndsIdle | frontend/src/App.js:63-179 | however a non-blank query ends (no token, a rejected or failed request, a terminal frame, a failed read, the natural end), the page is left not processing and with an empty status |
| StreamConsumer.SubmitChunkingIndependence | frontend/src/App.js:97-152 | the outcome of a query depends on its body only through the text, not through where the chunk boundaries fell |
| StreamConsumer.CompletedStream | frontend/src/App.js:102-173 | a stream without terminal frames that ends naturally leaves exactly the streamed text as the answer, the last usage (the leftover fragment's first) as the counters, and the empty error log |
| StreamConsumer.Session.constructor | frontend/src/App.js:16-27 | the initial values of the page state |
| StreamConsumer.Session.ProcessLine | frontend/src/App.js:110-148 | one pass of the line loop makes exactly the update `Step` specifies, and returns whether the handler must return |
| StreamConsumer.Session.FeedChunk | frontend/src/App.js:104-150 | one chunk keeps the last piece as the new buffer and applies the complete lines up to the first terminal event, as `ApplyLines` specifies |
| StreamConsumer.Session.ReadBody | frontend/src/App.js:97-173 | the read loop, then the failed read or the end of the stream, leaves the state `AfterBody` specifies |
| StreamConsumer.Session.Submit | frontend/src/App.js:63-179 | the submit handler leaves the state `AfterSubmit` specifies |
| StreamConsumer.Session.Fail | frontend/src/App.js:174-178 | the `catch` block's update, as `QueryFailed` specifies |
| StreamConsumer.Session.Finish | frontend/src/App.js:154-173 | the leftover-fragment handling and the final resets, as `FinishStream` specifies |
| StreamConsumer.Session.Stop | frontend/src/App.js:181-202 | without a token nothing changes; a successful stop request shows `Cancelling...` and clears `isProcessing`; a failed one shows `Stop request failed: ` and its reason; nothing else changes |
| Citations.SpaceRunCuts | frontend/src/App.js:308 | `\s*` takes whitespace only, up to the first character that is not whitespace |
| Citations.UrlRunCuts | frontend/src/App.js:308 | `[^\]\s]+` takes URL characters only, up to the first `]` or whitespace |
| Citations.UrlMatchSound | frontend/src/App.js:308 | what the group captures has the shape `https?://` followed by URL characters, and it is the longest such text |
| Citations.UrlMatchComplete | frontend/src/App.js:308 | a text of that shape followed by `]` is exactly what the group captures |
| Citations.MatchFromSound | frontend/src/App.js:308 | after the tag and whitespace, the pattern consumes a cited URL followed by `]` |
| Citations.MatchSound | frontend/src/App.js:308 | every match is a marker: the tag in any case, whitespace, a cited URL, then `]` |
| Citations.MatchComplete | frontend/src/App.js:308 | every marker is matched, with the marker's length and its URL as the capture |
| Citations.MatchAt | frontend/src/App.js:308 | the pattern tried at one position, with the length consumed and the captured URL; `MatchSound` and `MatchComplete` state that it matches exactly the markers |
| Citations.MatchFrom | frontend/src/App.js:308 | the capturing group and the closing `]` after the tag and whitespace; `MatchFromSound` states what it consumes |
| Citations.FirstMarker | frontend/src/App.js:315 | `findIndex` yields the first path segment equal to `r` in either case, and nothing when there is none |
| Citations.Domain | frontend/src/App.js:311 | the host with one leading `www.` removed; `DomainStripsOneWww` |
| Citations.Label | frontend/src/App.js:311-322 | the link text; `LabelSubreddit` and `LabelDomain` state which of its two forms it takes |
| Citations.LabelSubreddit | frontend/src/App.js:313-318 | on reddit.com, the segment after the first `r` segment, when there is one, names the label `r/<subreddit>` |
| Citations.LabelDomain | frontend/src/App.js:311-322 | off reddit.com, with no `r` segment, or with it only last, the label is the host without its leading `www.` |
| Citations.DomainStripsOneWww | frontend/src/App.js:311 | only one leading `www.` is removed from the host |
| Citations.AnchorOpensInNewTab | frontend/src/App.js:318-322 | every link carries `target="_blank" rel="noopener noreferrer"` |
| Citations.Anchor | frontend/src/App.js:318-322 | the link with its class and new-tab attributes; `AnchorOpensInNewTab` |
| Citations.Replacement | frontend/src/App.js:309-325 | the callback: the link when the URL parses, the matched marker otherwise; `RewriteCitation` and `RewriteUnparsable` state both cases |
| Citations.Rewrite | frontend/src/App.js:307-327 | `replace` with the `g` flag as a left-to-right scan; `RewriteNoMatch`, `RewriteAtMarker`, `RewriteCitation`, `RewriteUnparsable` and `RewriteUnparsableText` characterise it |
| Citations.RewriteNoMatch | frontend/src/App.js:308-326 | text none of whose positions starts a match (including a `[` that opens no marker) is copied unchanged, and rewriting goes on after it |
| Citations.RewriteWithoutMatches | frontend/src/App.js:308 | a text in which no position starts a match is returned as it is |
| Citations.RewriteSchemelessSource | frontend/src/App.js:308 | `See [Source: not-a-url]` has the tag but no `http://` or `https://` URL, so it is returned unchanged |
| Citations.RewritePlain | frontend/src/App.js:308 | text without a `[` is copied unchanged, and rewriting goes on after it |
| Citations.RewriteWithoutMarkers | frontend/src/App.js:308 | a text without any `[` is returned as it is |
| Citations.RewriteAtMarker | frontend/src/App.js:308-326 | at a marker, its replacement is followed by the rewritten rest |
| Citations.RewriteCitation | frontend/src/App.js:308-322 | a marker after text in which no match starts (text without `[`, or with a `[` that opens no marker) becomes the link of its URL, labelled from the parsed URL, and the rest is rewritten in turn |
| Citations.RewriteUnparsable | frontend/src/App.js:323-325 | a marker whose URL does not parse, after text in which no match starts, is kept verbatim, and the rest is rewritten in turn |
| Citations.RewriteAfterPlain | frontend/src/App.js:308 | text in which no match starts, before a rewritten piece, is copied unchanged |
| Citations.RewriteUnparsableText | frontend/src/App.js:308-326 | when no URL parses, the text is returned as it is, markers included |
| QueryService.QueryProcessor.constructor | backend/query.py:11-14 | no task is cancelled and no user has an active task |
| QueryService.QueryProcessor.CancelTask | backend/query.py:16-18 | the task is added to the cancelled set; no other id and no user entry changes |
| QueryService.QueryProcessor.IsCancelled | backend/query.py:20-22 | true exactly when the task is in the cancelled set |
| QueryService.QueryProcessor.RemoveCancelledTask | backend/query.py:24-27 | the task is taken out of the cancelled set, a no-op when it is absent; the user entries are untouched |
| QueryService.QueryProcessor.RegisterTask | backend/query.py:29-31 | the user's entry becomes the task, whatever it was; nothing else changes |
| QueryService.QueryProcessor.GetTaskForUser | backend/query.py:33-35 | the user's registered task, or None for a user without an entry |
| QueryService.QueryProcessor.UnregisterTask | backend/query.py:37-40 | only the user's entry is removed, a no-op for an absent user; the cancelled set is untouched |
| QueryService.CancelTaskFor | backend/query.py:218-228 | a user with a truthy task id has that id cancelled and gets `success`; otherwise the cancelled set is unchanged and the reply is `No active task found for user`; the user map never changes |
| QueryService.ProcessQuery | backend/query.py:45-123 | the pipeline's frames are followed by an error frame if it raised and then `[DONE]`; afterwards the task is no longer cancelled and the user has no active task, on every path on which the stream is read to its end |
| QueryService.ReadPieceConsistent | backend/query.py:187-207 | one pass of the read loop keeps its invariant: only stream frames, except a last cancellation frame, and `output_tokens` counts the tokens of the streamed contents |
| QueryService.ReadPiecesConsistent | backend/query.py:187-209 | the whole read loop keeps that invariant |
| QueryService.StreamTokensError | backend/query.py:211-212 | an error frame adds no streamed tokens |
| QueryService.ClosingFrames | backend/query.py:214-216 | the `finally` block closes the frames with the usage and then `[DONE]` |
| QueryService.ReadPiece | backend/query.py:187-207 | one turn of the read loop: a cancellation frame, the `[DONE]` return, an ignored piece, a stream frame with its tokens counted, or a raised exception; `ReadPieceConsistent` states its invariant |
| QueryService.ReadPieces | backend/query.py:187-209 | the read loop up to the first piece that ends it; `ReadPiecesConsistent` and `ReadPiecesStopped` |
| QueryService.LlmResponse | backend/query.py:179-216 | the frames the generator yields on each path; `LlmResponseEnds` states their shape |
| QueryService.LlmResponseEnds | backend/query.py:179-216 | on every exit path (upstream `[DONE]`, cancellation, a status other than 200, an exception, the end of the stream), the last two frames are the token usage and `[DONE]`; the usage reports the input tokens and exactly the tokens of the streamed contents; every earlier frame is a stream frame except at most one cancellation or error frame just before the usage |
| QueryService.GenerateLlmResponse | backend/query.py:179-216 | the loop over the upstream pieces yields exactly the frames `LlmResponse` specifies |
| QueryService.ReadPiecesStopped | backend/query.py:187-194 | once the loop has returned, the remaining pieces are never read |
| Retrieval.EnsureScheme | backend/utils.py:38-41 | the result starts with `http://` or `https://` and ends with the URL, and it is the URL itself exactly when the URL already has one of those prefixes; any other URL becomes exactly `https://` followed by the URL |
| Retrieval.EnsureSchemeIdempotent | backend/utils.py:38-41 | adding the scheme twice is adding it once |
| Retrieval.OldRedditUnchanged | backend/utils.py:81-84 | a URL containing `old.reddit.com` is left alone |
| Retrieval.RedditBecomesOld | backend/utils.py:81-84 | a URL containing `reddit.com` ends up containing `old.reddit.com` |
| Retrieval.NonRedditUnchanged | backend/utils.py:81-84 | a URL without `reddit.com` is left alone |
| Retrieval.ToOldReddit | backend/utils.py:81-84 | the two-step host rewriting; `OldRedditUnchanged`, `RedditBecomesOld` and `NonRedditUnchanged` state its effect |
| Retrieval.SourceUrl | backend/utils.py:58 | the URL a chunk cites, with `old.reddit.com` turned into `www.reddit.com`; `SourceUrlPlain` |
| Retrieval.SourceUrlPlain | backend/utils.py:58 | a URL not on `old.reddit.com` is cited as it is |
| Retrieval.WindowAt | backend/utils.py:59-60 | window `j` starts at token `j * max_tokens` and holds the next `max_tokens` tokens, or all that is left |
| Retrieval.WindowSize | backend/utils.py:59-60 | every window holds between 1 and `max_tokens` tokens |
| Retrieval.WindowsCover | backend/utils.py:59-60 | the windows laid end to end are the token list: in order, without gaps or overlap |
| Retrieval.WindowsFrom | backend/utils.py:59-60 | the slices `tokens[i:i + k]` for `i` in `range(start, len(tokens), k)`; `WindowAt`, `WindowSize` and `WindowsCover` |
| Retrieval.Windows | backend/utils.py:59-60 | the windows from token 0; the same lemmas characterise them |
| Retrieval.KeptChunksAppend | backend/utils.py:59-66 | chunking two runs of windows is chunking each in turn |
| Retrieval.ShortWindowsDropped | backend/utils.py:62-63 | windows whose stripped text is under 200 characters yield no chunk |
| Retrieval.ChunkOf | backend/utils.py:61-65 | a window's stripped text with its source line, or nothing when it is under 200 characters; `ChunkShape`, `ShortWindowsDropped` and `LongWindowsKept` |
| Retrieval.KeptChunks | backend/utils.py:59-66 | the chunks of the windows in order; `KeptChunksAppend`, `ChunkShape` and `ChunkWindows` |
| Retrieval.LongWindowsKept | backend/utils.py:62-65 | windows whose stripped text is long enough each yield one chunk: the stripped text, `\nSource: ` and the cited URL |
| Retrieval.ChunkShape | backend/utils.py:62-65 | every chunk is at least 200 characters of text with no whitespace at either end, followed by `\nSource: ` and the cited URL |
| Retrieval.ChunkWindows | backend/utils.py:59-66 | the loop over `range(0, len(tokens), k)` yields the kept chunks of the windows, in order |
| Retrieval.GetTextChunks | backend/utils.py:55-66 | a zero window size raises (None); a negative one yields no chunks; otherwise the chunks are the kept windows, citing the URL with `old.reddit.com` turned into `www.reddit.com` |
| Retrieval.TokenTotalGrows | backend/utils.py:128-135 | a longer prefix of the ranking never holds fewer tokens |
| Retrieval.SelectWithinLimit | backend/utils.py:124-137 | the selection is a prefix of the ranking within the limit; it stops at the first chunk that would overflow, and every longer prefix is over the limit |

## Left out

- Network I/O: `fetch`, `axios` (frontend/src/App.js:45, 83, 187), `requests` and `DDGS` (backend/utils.py:20, 44-52, 87) and the `httpx` stream (backend/query.py:179-187). Their outcomes are inputs (`Reply`, `Upstream`, the stop request's failure text).
- Concurrency: `await`, `asyncio.sleep` and `to_thread`. Task ids are opaque integers in place of `id(asyncio.current_task())`. A cancellation that another request makes while this one runs appears only as the flag of each upstream `Piece`, and as the `body` frames that `process_query` yields.
- `process_query`'s pipeline between registration and clean-up (URL search, scraping, selection and its cancellation checks at backend/query.py:59-112) is the `body` and `failure` parameters of `ProcessQuery`. Only the bookkeeping around it is modelled.
- The `except Exception` branch of `cancel_task` (backend/query.py:229-230) cannot be reached, because nothing in its `try` block raises.
- Tokenizer, embeddings, `cos_sim` and `argsort`: tokens, token counts, detokenized text and the ranked order are inputs. The prompt and `input_tokens` of `generate_llm_response` come in as a number.
- `JSON.parse`, `json.loads`, `json.dumps` and `new URL` are parameters. Frames are values, not their JSON text.
- The streaming `TextDecoder`: chunks arrive as decoded text.
- `gather_contextual_info`, which reads the clock and the network.
- HTML scraping with BeautifulSoup and `is_mod_comment` (backend/utils.py:68-115), including the final filter of blank chunks at backend/utils.py:116.
- Login, logout, the `localStorage` and `jwtDecode` check on load, markdown rendering, sanitising and JSX (frontend/src/App.js:31-61, 204-304).
- The `eventSource` branch of `handleStop` (frontend/src/App.js:193-196) is dead code, because `eventSource` is never set.
- backend/main.py, backend/auth.py and backend/models.py: routing, tokens and declarations only.
- How the transport groups upstream text into `aiter_text` pieces is not modelled. The source examines each piece as one frame, and so does the model.
- Retrieval.SelectWithinLimit: states `selected == [] || total <= limit` rather than `total <= limit`, because with a negative limit the empty selection has total 0.
- QueryService.ProcessQuery: an early close of the generator (`aclose()`, or a `GeneratorExit` thrown at the `yield` inside `finally`, backend/query.py:117) skips the clean-up at backend/query.py:119-123, so the user's entry and a cancelled id both stay. The model only covers a stream read to its end, because a client disconnect is not modelled.
- The `console.log` and `console.error` calls (frontend/src/App.js:132, 146, 167) are logging only.
- The token counters are `Option<int>`, absent when the JSON field is missing. A non-integer or non-numeric value in the JSON is not representable.
- A 401 reply is not a case of its own. The handler only tests `response.ok` (frontend/src/App.js:92-94), so an unauthorized reply fails like any other non-ok reply: `Query failed: HTTP error! status: 401`, with the user still logged in.
- Lengths are counted in Unicode code points, as Python's `len` does. JavaScript's UTF-16 `slice` offsets agree with this for the ASCII `data: ` prefix.
