/**
 * The frontend's stream consumer (`handleQuerySubmit` and `handleStop` in
 * frontend/src/App.js): the trailing-fragment line buffer, the classification of
 * each line as a frame, and the updates each frame makes to the page state.
 *
 * `JSON.parse` is a parameter: it maps a payload text to the fields the consumer
 * reads, or to None when it throws. Response chunks arrive already decoded.
 */
module StreamConsumer {
  import opened Wrappers
  import opened Text

  const DataPrefix: string := "data: "
  const DoneSentinel: string := "[DONE]"
  const StartingMessage: string := "Starting query processing..."
  const CancellingMessage: string := "Cancelling..."
  const QueryFailedPrefix: string := "Query failed: "
  const StopFailedPrefix: string := "Stop request failed: "

  /** What `JSON.parse` made of a payload, reduced to the fields the consumer reads.
      An absent field is None, JavaScript's `undefined`. */
  datatype Payload = Payload(
    status: Option<string>,
    message: Option<string>,
    content: Option<string>,
    inputTokens: Option<int>,
    outputTokens: Option<int>)

  /** The `tokenUsage` state: both counters are copied verbatim from a frame. */
  datatype Usage = Usage(inputTokens: Option<int>, outputTokens: Option<int>)

  const ZeroUsage: Usage := Usage(Some(0), Some(0))

  /** The meaning of a frame whose `status` the consumer recognises. */
  datatype Event =
    | Info(message: Option<string>)
    | StreamChunk(content: Option<string>)
    | TokenUsage(usage: Usage)
    | Cancelled(message: Option<string>)
    | Failed(message: Option<string>)
  {
    /** Cancelled and error frames end the consumer. */
    predicate IsTerminal() { Cancelled? || Failed? }
  }

  /** Why a line changes nothing. */
  datatype SkipReason = NotData | Sentinel | Malformed | Unrecognised

  datatype Frame = Skip(reason: SkipReason) | Dispatch(event: Event)

  /** The values of `data.status` that the `switch` distinguishes. */
  datatype StatusCase = InfoCase | StreamCase | TokenUsageCase | CancelledCase | ErrorCase | OtherCase

  /** `switch (data.status)`: strict equality with each case label; any other value,
      and an absent field, falls through every case. */
  function StatusOf(p: Payload): StatusCase {
    match p.status
    case None => OtherCase
    case Some(s) =>
      if s == "info" then InfoCase
      else if s == "stream" then StreamCase
      else if s == "token_usage" then TokenUsageCase
      else if s == "cancelled" then CancelledCase
      else if s == "error" then ErrorCase
      else OtherCase
  }

  /** Each case is selected by exactly its own label. */
  lemma StatusCases(p: Payload)
    ensures StatusOf(p) == InfoCase <==> p.status == Some("info")
    ensures StatusOf(p) == StreamCase <==> p.status == Some("stream")
    ensures StatusOf(p) == TokenUsageCase <==> p.status == Some("token_usage")
    ensures StatusOf(p) == CancelledCase <==> p.status == Some("cancelled")
    ensures StatusOf(p) == ErrorCase <==> p.status == Some("error")
  {
  }

  /** The event a parsed payload stands for, if its status is one the consumer knows. */
  function EventOf(p: Payload): (e: Option<Event>)
    ensures e.None? <==> StatusOf(p) == OtherCase
    ensures e.Some? && e.value.IsTerminal() <==> StatusOf(p) in {CancelledCase, ErrorCase}
  {
    match StatusOf(p)
    case InfoCase => Some(Info(p.message))
    case StreamCase => Some(StreamChunk(p.content))
    case TokenUsageCase => Some(TokenUsage(Usage(p.inputTokens, p.outputTokens)))
    case CancelledCase => Some(Cancelled(p.message))
    case ErrorCase => Some(Failed(p.message))
    case OtherCase => None
  }

  /** `line.slice(6).trim()`. */
  function PayloadText(line: string): string
    requires DataPrefix <= line
  {
    Trim(line[|DataPrefix|..], IsJsSpace)
  }

  /** What the `for (const line of lines)` body does with one line. */
  function Classify(line: string, parse: string -> Option<Payload>): (f: Frame)
    ensures f.Dispatch? ==> DataPrefix <= line
  {
    if !(DataPrefix <= line) then Skip(NotData)
    else
      var text := PayloadText(line);
      if text == DoneSentinel then Skip(Sentinel)
      else
        match parse(text)
        case None => Skip(Malformed)
        case Some(p) =>
          match EventOf(p)
          case None => Skip(Unrecognised)
          case Some(e) => Dispatch(e)
  }

  /** Which lines are skipped, and why: exactly the lines without the `data: ` prefix,
      the `[DONE]` sentinel, payloads `JSON.parse` rejects and unknown statuses. All
      other lines dispatch the event of their parsed payload. */
  lemma ClassifyCases(line: string, parse: string -> Option<Payload>)
    ensures Classify(line, parse) == Skip(NotData) <==> !(DataPrefix <= line)
    ensures Classify(line, parse) == Skip(Sentinel) <==>
      DataPrefix <= line && PayloadText(line) == DoneSentinel
    ensures Classify(line, parse) == Skip(Malformed) <==>
      DataPrefix <= line && PayloadText(line) != DoneSentinel && parse(PayloadText(line)).None?
    ensures Classify(line, parse) == Skip(Unrecognised) <==>
      DataPrefix <= line && PayloadText(line) != DoneSentinel && parse(PayloadText(line)).Some?
      && StatusOf(parse(PayloadText(line)).value) == OtherCase
    ensures Classify(line, parse).Dispatch? ==>
      EventOf(parse(PayloadText(line)).value) == Some(Classify(line, parse).event)
  {
  }

  /** The React state that the consumer writes. */
  datatype UiState = UiState(
    response: string,
    status: Option<string>,
    errorLog: Option<string>,
    isProcessing: bool,
    tokenUsage: Usage,
    isLoggedIn: bool)

  /** JavaScript's `prev + v` for a string `prev` and a field that may be `undefined`. */
  function AppendField(prev: string, v: Option<string>): (r: string)
    ensures prev <= r
    ensures v.Some? ==> r == prev + v.value
    ensures v.None? ==> r == prev + "undefined"
  {
    prev + v.GetOr("undefined")
  }

  /** The state update of one recognised event. */
  function ApplyEvent(ui: UiState, e: Event): (r: UiState)
    ensures r.isLoggedIn == ui.isLoggedIn
    ensures r.tokenUsage == (if e.TokenUsage? then e.usage else ui.tokenUsage)
    ensures e.StreamChunk? ==> r.response == AppendField(ui.response, e.content)
    ensures !e.StreamChunk? ==> r.response == ui.response
    ensures r.isProcessing == (ui.isProcessing && !e.IsTerminal())
    ensures r.errorLog == (if e.IsTerminal() then e.message else ui.errorLog)
    ensures r.status == (if e.Info? then e.message
                         else if e.TokenUsage? then ui.status else Some(""))
  {
    match e
    case Info(m) => ui.(status := m)
    case StreamChunk(c) => ui.(status := Some(""), response := AppendField(ui.response, c))
    case TokenUsage(u) => ui.(tokenUsage := u)
    case Cancelled(m) => ui.(status := Some(""), errorLog := m, isProcessing := false)
    case Failed(m) => ui.(status := Some(""), errorLog := m, isProcessing := false)
  }

  /** The state while lines are consumed: `stopped` once a terminal event made the
      consumer return. */
  datatype Progress = Progress(ui: UiState, stopped: bool)

  /** One line: nothing once stopped, nothing for a skipped line. */
  function Step(p: Progress, line: string, parse: string -> Option<Payload>): Progress {
    if p.stopped then p
    else
      match Classify(line, parse)
      case Skip(_) => p
      case Dispatch(e) => Progress(ApplyEvent(p.ui, e), e.IsTerminal())
  }

  /** The lines in order. */
  function ApplyLines(p: Progress, lines: seq<string>, parse: string -> Option<Payload>): Progress
    decreases |lines|
  {
    if lines == [] then p else ApplyLines(Step(p, lines[0], parse), lines[1..], parse)
  }

  /** Consuming `a + b` is consuming `a` and then `b`. */
  lemma {:induction false} ApplyLinesAppend(p: Progress, a: seq<string>, b: seq<string>,
                                            parse: string -> Option<Payload>)
    ensures ApplyLines(p, a + b, parse) == ApplyLines(ApplyLines(p, a, parse), b, parse)
    decreases |a|
  {
    if a != [] {
      assert (a + b)[0] == a[0] && (a + b)[1..] == a[1..] + b;
      ApplyLinesAppend(Step(p, a[0], parse), a[1..], b, parse);
    } else {
      assert a + b == b;
    }
  }

  /** Once a terminal event has been handled, no further line changes anything. */
  lemma {:induction false} StoppedIsFinal(p: Progress, lines: seq<string>, parse: string -> Option<Payload>)
    requires p.stopped
    ensures ApplyLines(p, lines, parse) == p
    decreases |lines|
  {
    if lines != [] {
      StoppedIsFinal(p, lines[1..], parse);
    }
  }

  /** A skipped line (no `data: ` prefix, the `[DONE]` sentinel, malformed JSON, an
      unknown status) changes no state, and the lines after it are still processed. */
  lemma SkippedLineChangesNothing(p: Progress, a: seq<string>, line: string, b: seq<string>,
                                  parse: string -> Option<Payload>)
    requires Classify(line, parse).Skip?
    ensures ApplyLines(p, a + [line] + b, parse) == ApplyLines(p, a + b, parse)
  {
    ApplyLinesAppend(p, a + [line], b, parse);
    ApplyLinesAppend(p, a, [line], parse);
    ApplyLinesAppend(p, a, b, parse);
    assert ApplyLines(ApplyLines(p, a, parse), [line], parse) == ApplyLines(p, a, parse);
  }

  /** The line is a cancelled or error frame. */
  predicate IsTerminalLine(line: string, parse: string -> Option<Payload>) {
    var f := Classify(line, parse);
    f.Dispatch? && f.event.IsTerminal()
  }

  /** No line among `lines` is a cancelled or error frame. */
  predicate NoTerminal(lines: seq<string>, parse: string -> Option<Payload>) {
    forall i :: 0 <= i < |lines| ==> !IsTerminalLine(lines[i], parse)
  }

  /** The answer text a stream frame carries; nothing for other lines. */
  function StreamPiece(line: string, parse: string -> Option<Payload>): string {
    var f := Classify(line, parse);
    if f.Dispatch? && f.event.StreamChunk? then AppendField("", f.event.content) else ""
  }

  /** The counters a token-usage frame carries; nothing for other lines. */
  function LineUsage(line: string, parse: string -> Option<Payload>): Option<Usage> {
    var f := Classify(line, parse);
    if f.Dispatch? && f.event.TokenUsage? then Some(f.event.usage) else None
  }

  /** The answer text carried by the stream frames among `lines`, in arrival order. */
  function StreamedText(lines: seq<string>, parse: string -> Option<Payload>): string
    decreases |lines|
  {
    if lines == [] then "" else StreamPiece(lines[0], parse) + StreamedText(lines[1..], parse)
  }

  /** The usage of the last token-usage frame among `lines`, if there is one. */
  function LastUsage(lines: seq<string>, parse: string -> Option<Payload>): Option<Usage>
    decreases |lines|
  {
    if lines == [] then None
    else
      var later := LastUsage(lines[1..], parse);
      if later.Some? then later else LineUsage(lines[0], parse)
  }

  /** From `p` to `q` the consumer kept going: `text` was appended to the answer,
      `usage`, if any, replaced the counters, and the error log, the processing
      flag and the login flag stayed. */
  predicate OrdinaryRun(p: Progress, q: Progress, text: string, usage: Option<Usage>) {
    && !q.stopped
    && q.ui.response == p.ui.response + text
    && q.ui.tokenUsage == usage.GetOr(p.ui.tokenUsage)
    && q.ui.isProcessing == p.ui.isProcessing
    && q.ui.errorLog == p.ui.errorLog
    && q.ui.isLoggedIn == p.ui.isLoggedIn
  }

  /** Two ordinary runs in a row are one: the texts are appended in order and the
      later counters win. */
  lemma OrdinaryRunsCompose(p: Progress, q: Progress, r: Progress,
                            a: string, ua: Option<Usage>, b: string, ub: Option<Usage>)
    requires OrdinaryRun(p, q, a, ua) && OrdinaryRun(q, r, b, ub)
    ensures OrdinaryRun(p, r, a + b, if ub.Some? then ub else ua)
  {
    assert p.ui.response + a + b == p.ui.response + (a + b);
  }

  /** One line that is not terminal: its stream content is appended, its counters
      replace the old ones, and the error log and processing flag stay. */
  lemma OrdinaryStep(p: Progress, line: string, parse: string -> Option<Payload>)
    requires !p.stopped && !IsTerminalLine(line, parse)
    ensures OrdinaryRun(p, Step(p, line, parse), StreamPiece(line, parse), LineUsage(line, parse))
  {
    var f := Classify(line, parse);
    if f.Dispatch? && f.event.StreamChunk? {
      assert AppendField(p.ui.response, f.event.content)
          == p.ui.response + AppendField("", f.event.content);
    }
  }

  /** The lines after the first of a run without terminal frames have none either. */
  lemma NoTerminalTail(lines: seq<string>, parse: string -> Option<Payload>)
    requires lines != [] && NoTerminal(lines, parse)
    ensures !IsTerminalLine(lines[0], parse) && NoTerminal(lines[1..], parse)
  {
    forall i | 0 <= i < |lines[1..]| ensures !IsTerminalLine(lines[1..][i], parse) {
      assert lines[1..][i] == lines[i + 1];
    }
  }

  /** Without terminal frames, stream contents are appended in arrival order, the
      last token-usage frame decides the counters, and the consumer keeps going. */
  lemma {:induction false} OrdinaryLines(p: Progress, lines: seq<string>, parse: string -> Option<Payload>)
    requires !p.stopped && NoTerminal(lines, parse)
    ensures OrdinaryRun(p, ApplyLines(p, lines, parse), StreamedText(lines, parse),
                        LastUsage(lines, parse))
    decreases |lines|
  {
    if lines != [] {
      NoTerminalTail(lines, parse);
      var p' := Step(p, lines[0], parse);
      OrdinaryStep(p, lines[0], parse);
      OrdinaryLines(p', lines[1..], parse);
      OrdinaryRunsCompose(p, p', ApplyLines(p', lines[1..], parse),
                          StreamPiece(lines[0], parse), LineUsage(lines[0], parse),
                          StreamedText(lines[1..], parse), LastUsage(lines[1..], parse));
    } else {
      assert p.ui.response + "" == p.ui.response;
    }
  }

  /** One terminal line stops the consumer, keeps the answer and the counters, clears
      the status and records its message as the error log. */
  lemma TerminalStep(p: Progress, line: string, parse: string -> Option<Payload>)
    requires !p.stopped && IsTerminalLine(line, parse)
    ensures var q := Step(p, line, parse);
      && q.stopped
      && q.ui.response == p.ui.response
      && q.ui.tokenUsage == p.ui.tokenUsage
      && q.ui.status == Some("")
      && q.ui.errorLog == Classify(line, parse).event.message
      && !q.ui.isProcessing
  {
  }

  /** Consuming `lines` is consuming the lines before `i`, then line `i`, then the rest. */
  lemma ApplyLinesAt(p: Progress, lines: seq<string>, i: nat, parse: string -> Option<Payload>)
    requires i < |lines|
    ensures ApplyLines(p, lines, parse)
         == ApplyLines(Step(ApplyLines(p, lines[..i], parse), lines[i], parse), lines[i + 1..], parse)
  {
    assert lines == lines[..i] + [lines[i]] + lines[i + 1..];
    ApplyLinesAppend(p, lines[..i] + [lines[i]], lines[i + 1..], parse);
    ApplyLinesAppend(p, lines[..i], [lines[i]], parse);
    assert [lines[i]][1..] == [];
  }

  /** A cancelled or error frame at position `i`, the first among `lines`, ends the
      consumer: the answer and counters so far are kept, the status is cleared, its
      message becomes the error log, processing stops, and no later line has any
      effect. */
  lemma TerminalLine(p: Progress, lines: seq<string>, i: nat, parse: string -> Option<Payload>)
    requires !p.stopped && i < |lines| && NoTerminal(lines[..i], parse)
    requires IsTerminalLine(lines[i], parse)
    ensures var before := ApplyLines(p, lines[..i], parse);
      var q := ApplyLines(p, lines, parse);
      && q.stopped
      && q.ui.response == before.ui.response
      && q.ui.tokenUsage == before.ui.tokenUsage
      && q.ui.status == Some("")
      && q.ui.errorLog == Classify(lines[i], parse).event.message
      && !q.ui.isProcessing
  {
    var before := ApplyLines(p, lines[..i], parse);
    OrdinaryLines(p, lines[..i], parse);
    var mid := Step(before, lines[i], parse);
    TerminalStep(before, lines[i], parse);
    ApplyLinesAt(p, lines, i, parse);
    StoppedIsFinal(mid, lines[i + 1..], parse);
  }

  /** A consumer that stops does so through a terminal event, which leaves it not
      processing and with an empty status. */
  lemma {:induction false} StoppedMeansIdle(p: Progress, lines: seq<string>, parse: string -> Option<Payload>)
    requires !p.stopped && ApplyLines(p, lines, parse).stopped
    ensures !ApplyLines(p, lines, parse).ui.isProcessing
    ensures ApplyLines(p, lines, parse).ui.status == Some("")
    decreases |lines|
  {
    var p' := Step(p, lines[0], parse);
    if p'.stopped {
      StoppedIsFinal(p', lines[1..], parse);
    } else {
      StoppedMeansIdle(p', lines[1..], parse);
    }
  }

  // ---- The trailing-fragment line buffer ----

  /** `buffer += chunk; lines = buffer.split('\n'); buffer = lines.pop()`: the complete
      lines and the new trailing fragment. */
  function Feed(buffer: string, chunk: string): (r: (seq<string>, string))
    ensures '\n' !in r.1
    ensures forall i :: 0 <= i < |r.0| ==> '\n' !in r.0[i]
    ensures Join(r.0 + [r.1], '\n') == buffer + chunk
  {
    var parts := Split(buffer + chunk, '\n');
    SplitJoin(buffer + chunk, '\n');
    assert parts == parts[..|parts| - 1] + [parts[|parts| - 1]];
    (parts[..|parts| - 1], parts[|parts| - 1])
  }

  /** All text received, in order. */
  function Concat(chunks: seq<string>): string {
    if chunks == [] then [] else Concat(chunks[..|chunks| - 1]) + chunks[|chunks| - 1]
  }

  /** The lines emitted and the fragment kept after feeding every chunk in turn. */
  function FeedAll(chunks: seq<string>): (seq<string>, string) {
    if chunks == [] then ([], [])
    else
      var (lines, buffer) := FeedAll(chunks[..|chunks| - 1]);
      var (more, rest) := Feed(buffer, chunks[|chunks| - 1]);
      (lines + more, rest)
  }

  /** The line-buffer invariant: after any number of chunks, the emitted lines and the
      kept fragment are exactly the split of everything received. So joining them with
      "\n" gives the text received, the fragment holds no "\n", and the lines do not
      depend on where the chunk boundaries fell. */
  lemma {:induction false} FeedAllSplits(chunks: seq<string>)
    ensures FeedAll(chunks).0 + [FeedAll(chunks).1] == Split(Concat(chunks), '\n')
    ensures Join(FeedAll(chunks).0 + [FeedAll(chunks).1], '\n') == Concat(chunks)
    ensures '\n' !in FeedAll(chunks).1
  {
    if chunks != [] {
      var init := chunks[..|chunks| - 1];
      var last := chunks[|chunks| - 1];
      FeedAllSplits(init);
      var (lines, buffer) := FeedAll(init);
      SplitStep(lines, buffer, Concat(init), last);
      var (more, rest) := Feed(buffer, last);
      FeedIsSplit(buffer, last);
      assert lines + more + [rest] == lines + (more + [rest]);
    }
    SplitJoin(Concat(chunks), '\n');
  }

  /** The lines a chunk completes and the new fragment are the split of the old
      fragment followed by the chunk. */
  lemma FeedIsSplit(buffer: string, chunk: string)
    ensures Feed(buffer, chunk).0 + [Feed(buffer, chunk).1] == Split(buffer + chunk, '\n')
  {
    var parts := Split(buffer + chunk, '\n');
    assert parts == parts[..|parts| - 1] + [parts[|parts| - 1]];
  }

  /** Text after a split only extends its last, incomplete piece. */
  lemma SplitStep(lines: seq<string>, buffer: string, received: string, chunk: string)
    requires lines + [buffer] == Split(received, '\n')
    ensures Split(received + chunk, '\n') == lines + Split(buffer + chunk, '\n')
  {
    var parts := Split(received, '\n');
    SplitAppend(received, chunk, '\n');
    assert parts[..|parts| - 1] == lines && parts[|parts| - 1] == buffer;
  }

  /** Two ways of chunking the same text produce the same lines and fragment. */
  lemma ChunkingIndependence(a: seq<string>, b: seq<string>)
    requires Concat(a) == Concat(b)
    ensures FeedAll(a) == FeedAll(b)
  {
    FeedAllSplits(a);
    FeedAllSplits(b);
    var (la, ba) := FeedAll(a);
    var (lb, bb) := FeedAll(b);
    assert la + [ba] == lb + [bb];
    assert la == (la + [ba])[..|la|] && lb == (lb + [bb])[..|lb|];
  }

  /** The lines of a prefix of the chunks are a prefix of the lines of all chunks. */
  lemma {:induction false} FeedAllPrefix(chunks: seq<string>, n: nat)
    requires n <= |chunks|
    ensures FeedAll(chunks[..n]).0 <= FeedAll(chunks).0
    decreases |chunks| - n
  {
    if n < |chunks| {
      FeedAllPrefix(chunks, n + 1);
      assert chunks[..n + 1][..n] == chunks[..n];
    } else {
      assert chunks[..n] == chunks;
    }
  }

  // ---- One submitted query ----

  /** How the request came back: `fetch` rejected, a response that is not ok, or a
      body delivered as decoded chunks, possibly cut short by a read that rejected. */
  datatype Reply =
    | Rejected(message: string)
    | NotOk(httpStatus: string)
    | Body(chunks: seq<string>, failure: Option<string>)

  /** `localStorage.getItem('token')` is truthy. */
  predicate HasToken(token: Option<string>) {
    token.Some? && token.value != ""
  }

  /** The resets made before the token is looked up. */
  function Begin(ui: UiState): UiState {
    ui.(errorLog := Some(""), isProcessing := true, response := "",
        status := Some(StartingMessage), tokenUsage := ZeroUsage)
  }

  /** The `catch (error)` of the submit handler. */
  function QueryFailed(ui: UiState, message: string): (r: UiState)
    ensures r.errorLog.Some? && QueryFailedPrefix <= r.errorLog.value
    ensures !r.isProcessing && r.status == Some("")
    ensures r.response == ui.response && r.tokenUsage == ui.tokenUsage
  {
    ui.(status := Some(""),
        errorLog := Some(QueryFailedPrefix + (if message == "" then "Unknown error" else message)),
        isProcessing := false)
  }

  /** The usage carried by a leftover fragment, when it is a `data: ` frame whose
      parsed `status` is `token_usage`. */
  function LeftoverUsage(leftover: string, parse: string -> Option<Payload>): Option<Usage> {
    if DataPrefix <= leftover && PayloadText(leftover) != DoneSentinel then
      match parse(PayloadText(leftover))
      case Some(p) =>
        if StatusOf(p) == TokenUsageCase then Some(Usage(p.inputTokens, p.outputTokens)) else None
      case None => None
    else None
  }

  /** The leftover fragment is applied exactly when it classifies as a token-usage
      frame; every other leftover frame is dropped. */
  lemma LeftoverOnlyTokenUsage(leftover: string, parse: string -> Option<Payload>)
    ensures var f := Classify(leftover, parse);
      LeftoverUsage(leftover, parse) ==
        if f.Dispatch? && f.event.TokenUsage? then Some(f.event.usage) else None
  {
  }

  /** The natural end of the stream: the leftover fragment, then not processing and
      no status. */
  function FinishStream(ui: UiState, leftover: string, parse: string -> Option<Payload>): (r: UiState)
    ensures !r.isProcessing && r.status == Some("")
    ensures r.response == ui.response && r.errorLog == ui.errorLog && r.isLoggedIn == ui.isLoggedIn
    ensures r.tokenUsage == LeftoverUsage(leftover, parse).GetOr(ui.tokenUsage)
  {
    var ui' := match LeftoverUsage(leftover, parse)
      case Some(u) => ui.(tokenUsage := u)
      case None => ui;
    ui'.(isProcessing := false, status := Some(""))
  }

  /** The body read to its end, or cut short by a terminal frame or a failed read. */
  function AfterBody(started: UiState, chunks: seq<string>, failure: Option<string>,
                     parse: string -> Option<Payload>): UiState
  {
    var (lines, leftover) := FeedAll(chunks);
    var p := ApplyLines(Progress(started, false), lines, parse);
    if p.stopped then p.ui
    else if failure.Some? then QueryFailed(p.ui, failure.value)
    else FinishStream(p.ui, leftover, parse)
  }

  /** The request sent with a token, from the reset state `started`. */
  function AfterRequest(started: UiState, reply: Reply, parse: string -> Option<Payload>): UiState {
    match reply
    case Rejected(m) => QueryFailed(started, m)
    case NotOk(code) => QueryFailed(started, "HTTP error! status: " + code)
    case Body(chunks, failure) => AfterBody(started, chunks, failure, parse)
  }

  /** The state after the submit handler has run to its end. */
  function AfterSubmit(ui: UiState, query: string, token: Option<string>, reply: Reply,
                       parse: string -> Option<Payload>): UiState
  {
    if Trim(query, IsJsSpace) == [] then ui
    else if !HasToken(token) then Begin(ui).(status := Some(""), isProcessing := false, isLoggedIn := false)
    else AfterRequest(Begin(ui), reply, parse)
  }

  /** A blank query changes nothing. */
  lemma BlankQueryIsNoOp(ui: UiState, query: string, token: Option<string>, reply: Reply,
                         parse: string -> Option<Payload>)
    requires AllSpace(query, IsJsSpace)
    ensures AfterSubmit(ui, query, token, reply, parse) == ui
  {
    TrimEnds(query, IsJsSpace);
  }

  /** Without a token the query is reset and abandoned and the user is logged out.
      Which reply the request would have had makes no difference. */
  lemma MissingToken(ui: UiState, query: string, token: Option<string>, reply: Reply, reply': Reply,
                     parse: string -> Option<Payload>)
    requires !AllSpace(query, IsJsSpace) && !HasToken(token)
    ensures var r := AfterSubmit(ui, query, token, reply, parse);
      && r == AfterSubmit(ui, query, token, reply', parse)
      && r.response == "" && r.errorLog == Some("") && r.tokenUsage == ZeroUsage
      && r.status == Some("") && !r.isProcessing && !r.isLoggedIn
  {
    TrimEnds(query, IsJsSpace);
  }

  /** However a non-blank query ends, the page is left not processing and with an
      empty status. */
  lemma SubmitEndsIdle(ui: UiState, query: string, token: Option<string>, reply: Reply,
                       parse: string -> Option<Payload>)
    requires !AllSpace(query, IsJsSpace)
    ensures !AfterSubmit(ui, query, token, reply, parse).isProcessing
    ensures AfterSubmit(ui, query, token, reply, parse).status == Some("")
  {
    TrimEnds(query, IsJsSpace);
    if HasToken(token) && reply.Body? {
      var (lines, leftover) := FeedAll(reply.chunks);
      var p := ApplyLines(Progress(Begin(ui), false), lines, parse);
      if p.stopped {
        StoppedMeansIdle(Progress(Begin(ui), false), lines, parse);
      }
    }
  }

  /** The outcome depends on the body only through the text it carries, never on
      where the chunk boundaries fell. */
  lemma SubmitChunkingIndependence(ui: UiState, query: string, token: Option<string>,
                                   a: seq<string>, b: seq<string>, failure: Option<string>,
                                   parse: string -> Option<Payload>)
    requires Concat(a) == Concat(b)
    ensures AfterSubmit(ui, query, token, Body(a, failure), parse)
         == AfterSubmit(ui, query, token, Body(b, failure), parse)
  {
    ChunkingIndependence(a, b);
  }

  /** A stream without terminal frames that ends naturally leaves exactly the streamed
      text as the answer, the last token-usage frame (the leftover fragment included)
      as the counters, and the empty error log set at the start. */
  lemma CompletedStream(ui: UiState, query: string, token: Option<string>, chunks: seq<string>,
                        parse: string -> Option<Payload>)
    requires !AllSpace(query, IsJsSpace) && HasToken(token)
    requires NoTerminal(FeedAll(chunks).0, parse)
    ensures var r := AfterSubmit(ui, query, token, Body(chunks, None), parse);
      var (lines, leftover) := FeedAll(chunks);
      && r.response == StreamedText(lines, parse)
      && r.tokenUsage == LeftoverUsage(leftover, parse).GetOr(LastUsage(lines, parse).GetOr(ZeroUsage))
      && r.errorLog == Some("")
      && r.isLoggedIn == ui.isLoggedIn
  {
    TrimEnds(query, IsJsSpace);
    var (lines, leftover) := FeedAll(chunks);
    OrdinaryLines(Progress(Begin(ui), false), lines, parse);
    assert AfterSubmit(ui, query, token, Body(chunks, None), parse)
        == FinishStream(ApplyLines(Progress(Begin(ui), false), lines, parse).ui, leftover, parse);
  }

  // ---- The page state as an object ----

  /** The page state that `handleQuerySubmit` and `handleStop` write. */
  class Session {
    var response: string
    var status: Option<string>
    var errorLog: Option<string>
    var isProcessing: bool
    var tokenUsage: Usage
    var isLoggedIn: bool

    function Ui(): UiState
      reads this
    {
      UiState(response, status, errorLog, isProcessing, tokenUsage, isLoggedIn)
    }

    /** The initial values of the `useState` hooks. */
    constructor ()
      ensures Ui() == UiState("", Some(""), Some(""), false, ZeroUsage, false)
    {
      response, status, errorLog := "", Some(""), Some("");
      isProcessing, tokenUsage, isLoggedIn := false, ZeroUsage, false;
    }

    /** The body of the loop over complete lines, for one line; `halt` when a
        terminal event makes the handler return. */
    method ProcessLine(line: string, parse: string -> Option<Payload>) returns (halt: bool)
      modifies this
      ensures Progress(Ui(), halt) == Step(Progress(old(Ui()), false), line, parse)
    {
      halt := false;
      if !(DataPrefix <= line) {
        return;
      }
      var dataStr := PayloadText(line);
      if dataStr == DoneSentinel {
        return;
      }
      var parsed := parse(dataStr);
      if parsed.None? {
        return;
      }
      var data := parsed.value;
      match StatusOf(data) {
        case InfoCase =>
          status := data.message;
        case StreamCase =>
          status := Some("");
          response := AppendField(response, data.content);
        case TokenUsageCase =>
          tokenUsage := Usage(data.inputTokens, data.outputTokens);
        case CancelledCase =>
          status := Some("");
          errorLog := data.message;
          isProcessing := false;
          halt := true;
        case ErrorCase =>
          status := Some("");
          errorLog := data.message;
          isProcessing := false;
          halt := true;
        case OtherCase =>
      }
    }

    /** One chunk read from the body: append it to the fragment, split, keep the last
        piece, and process the complete lines in order until a terminal event. */
    method FeedChunk(buffer: string, chunk: string, parse: string -> Option<Payload>)
      returns (rest: string, halt: bool)
      modifies this
      ensures rest == Feed(buffer, chunk).1
      ensures Progress(Ui(), halt) == ApplyLines(Progress(old(Ui()), false), Feed(buffer, chunk).0, parse)
    {
      var parts := Split(buffer + chunk, '\n');
      rest := parts[|parts| - 1];
      var lines := parts[..|parts| - 1];
      assert lines == Feed(buffer, chunk).0;
      ghost var start := Progress(old(Ui()), false);
      halt := false;
      var j := 0;
      while j < |lines| && !halt
        invariant 0 <= j <= |lines|
        invariant Progress(Ui(), halt) == ApplyLines(start, lines[..j], parse)
      {
        halt := ProcessLine(lines[j], parse);
        ApplyLinesAppend(start, lines[..j], [lines[j]], parse);
        assert lines[..j + 1] == lines[..j] + [lines[j]];
        j := j + 1;
      }
      ApplyLinesAppend(start, lines[..j], lines[j..], parse);
      assert lines == lines[..j] + lines[j..];
      if halt {
        StoppedIsFinal(Progress(Ui(), true), lines[j..], parse);
      } else {
        assert lines[j..] == [];
      }
    }

    /** `handleQuerySubmit`: the blank-query and missing-token exits, the request,
        the read loop with its line buffer, and the end-of-stream handling. */
    method Submit(query: string, token: Option<string>, reply: Reply, parse: string -> Option<Payload>)
      modifies this
      ensures Ui() == AfterSubmit(old(Ui()), query, token, reply, parse)
    {
      if Trim(query, IsJsSpace) == [] {
        return;
      }
      errorLog := Some("");
      isProcessing := true;
      response := "";
      status := Some(StartingMessage);
      tokenUsage := ZeroUsage;
      if !HasToken(token) {
        status := Some("");
        isProcessing := false;
        isLoggedIn := false;
        return;
      }
      match reply {
        case Rejected(m) =>
          Fail(m);
        case NotOk(code) =>
          Fail("HTTP error! status: " + code);
        case Body(chunks, failure) =>
          ReadBody(chunks, failure, parse);
      }
    }

    /** The read loop with its line buffer, then the failed read or the end of the
        stream. */
    method ReadBody(chunks: seq<string>, failure: Option<string>, parse: string -> Option<Payload>)
      modifies this
      ensures Ui() == AfterBody(old(Ui()), chunks, failure, parse)
    {
      ghost var start := Progress(Ui(), false);
      var buffer: string := [];
      ghost var lines: seq<string> := [];
      var halt := false;
      var i := 0;
      while i < |chunks| && !halt
        invariant 0 <= i <= |chunks|
        invariant (lines, buffer) == FeedAll(chunks[..i])
        invariant Progress(Ui(), halt) == ApplyLines(start, lines, parse)
      {
        assert chunks[..i + 1][..i] == chunks[..i];
        ghost var more := Feed(buffer, chunks[i]).0;
        var rest;
        rest, halt := FeedChunk(buffer, chunks[i], parse);
        ApplyLinesAppend(start, lines, more, parse);
        lines, buffer := lines + more, rest;
        i := i + 1;
      }
      ghost var all := FeedAll(chunks).0;
      if halt {
        assert all == lines + all[|lines|..] by {
          FeedAllPrefix(chunks, i);
        }
        ApplyLinesAppend(start, lines, all[|lines|..], parse);
        StoppedIsFinal(Progress(Ui(), true), all[|lines|..], parse);
      } else {
        assert chunks[..i] == chunks;
        if failure.Some? {
          Fail(failure.value);
        } else {
          Finish(buffer, parse);
        }
      }
    }

    /** The `catch (error)` of the submit handler. */
    method Fail(message: string)
      modifies this
      ensures Ui() == QueryFailed(old(Ui()), message)
    {
      status := Some("");
      errorLog := Some(QueryFailedPrefix + (if message == "" then "Unknown error" else message));
      isProcessing := false;
    }

    /** After the read loop: the leftover fragment is examined only for a
        token-usage frame, then processing ends. */
    method Finish(buffer: string, parse: string -> Option<Payload>)
      modifies this
      ensures Ui() == FinishStream(old(Ui()), buffer, parse)
    {
      if DataPrefix <= buffer {
        var dataStr := PayloadText(buffer);
        if dataStr != DoneSentinel {
          var parsed := parse(dataStr);
          if parsed.Some? && StatusOf(parsed.value) == TokenUsageCase {
            tokenUsage := Usage(parsed.value.inputTokens, parsed.value.outputTokens);
          }
        }
      }
      isProcessing := false;
      status := Some("");
    }

    /** `handleStop` without its network call: `stopFailure` is None when the stop
        request succeeded and otherwise the text reported for its failure. The answer,
        the error log and the counters are never touched. */
    method Stop(token: Option<string>, stopFailure: Option<string>)
      modifies this
      ensures !HasToken(token) ==> Ui() == old(Ui())
      ensures HasToken(token) && stopFailure.None? ==>
        Ui() == old(Ui()).(status := Some(CancellingMessage), isProcessing := false)
      ensures HasToken(token) && stopFailure.Some? ==>
        Ui() == old(Ui()).(status := Some(StopFailedPrefix + stopFailure.value))
    {
      if !HasToken(token) {
        return;
      }
      status := Some(CancellingMessage);
      if stopFailure.None? {
        isProcessing := false;
      } else {
        status := Some(StopFailedPrefix + stopFailure.value);
      }
    }
  }
}
