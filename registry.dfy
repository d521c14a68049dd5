/**
 * The backend's task bookkeeping and stream endings (backend/query.py): the
 * `QueryProcessor` registry of cancelled task ids and of each user's active task,
 * the module-level `cancel_task`, the registration and clean-up that
 * `process_query` wraps around a query, and the frames `generate_llm_response`
 * yields from the upstream completion stream.
 *
 * Frames are values; their JSON rendering is not modelled. Task ids are opaque
 * integers (the source takes `id(asyncio.current_task())`).
 */
module QueryService {
  import opened Wrappers
  import opened Text

  /** A frame of the event stream sent to the browser. */
  datatype Frame =
    | Info(message: string)
    | Stream(content: string)
    | TokenUsage(inputTokens: int, outputTokens: int)
    | Cancelled(message: string)
    | Error(message: string)
    | Done

  const TaskWasCancelled: string := "Task was cancelled"
  const UpstreamDone: string := "data: [DONE]"
  const UpstreamPrefix: string := "data: "

  /** The reply of the module-level `cancel_task`. */
  datatype Reply = Reply(status: string, message: string)

  /** The registry shared by every request. */
  class QueryProcessor {
    var cancelledTasks: set<int>
    var activeTasks: map<string, int>

    constructor ()
      ensures cancelledTasks == {} && activeTasks == map[]
    {
      cancelledTasks := {};
      activeTasks := map[];
    }

    /** `cancel_task`: mark the task cancelled. */
    method CancelTask(taskId: int)
      modifies this
      ensures cancelledTasks == old(cancelledTasks) + {taskId}
      ensures activeTasks == old(activeTasks)
    {
      cancelledTasks := cancelledTasks + {taskId};
    }

    /** `is_cancelled`. */
    method IsCancelled(taskId: int) returns (b: bool)
      ensures b <==> taskId in cancelledTasks
    {
      b := taskId in cancelledTasks;
    }

    /** `remove_cancelled_task`: forget the task's cancellation, if there is one. */
    method RemoveCancelledTask(taskId: int)
      modifies this
      ensures cancelledTasks == old(cancelledTasks) - {taskId}
      ensures activeTasks == old(activeTasks)
    {
      if taskId in cancelledTasks {
        cancelledTasks := cancelledTasks - {taskId};
      }
    }

    /** `register_task`: the user's active task is now `taskId`, whatever it was. */
    method RegisterTask(userId: string, taskId: int)
      modifies this
      ensures activeTasks == old(activeTasks)[userId := taskId]
      ensures cancelledTasks == old(cancelledTasks)
    {
      activeTasks := activeTasks[userId := taskId];
    }

    /** `get_task_for_user`: `dict.get`, None for a user without an entry. */
    method GetTaskForUser(userId: string) returns (r: Option<int>)
      ensures r.Some? <==> userId in activeTasks
      ensures r.Some? ==> r.value == activeTasks[userId]
    {
      if userId in activeTasks {
        r := Some(activeTasks[userId]);
      } else {
        r := None;
      }
    }

    /** `unregister_task`: remove the user's entry, if there is one. */
    method UnregisterTask(userId: string)
      modifies this
      ensures activeTasks == old(activeTasks) - {userId}
      ensures cancelledTasks == old(cancelledTasks)
    {
      if userId in activeTasks {
        activeTasks := activeTasks - {userId};
      }
    }
  }

  /** Python's truth value of the id `get_task_for_user` returned. */
  predicate IsTruthy(id: Option<int>) {
    id.Some? && id.value != 0
  }

  /** The module-level `cancel_task`: cancel the user's active task, when the user
      has one whose id is truthy. */
  method CancelTaskFor(qp: QueryProcessor, userId: string) returns (reply: Reply)
    modifies qp
    ensures var id := if userId in old(qp.activeTasks) then Some(old(qp.activeTasks)[userId]) else None;
      && (IsTruthy(id) ==>
            && qp.cancelledTasks == old(qp.cancelledTasks) + {id.value}
            && reply == Reply("success", "Task cancellation requested"))
      && (!IsTruthy(id) ==>
            && qp.cancelledTasks == old(qp.cancelledTasks)
            && reply == Reply("error", "No active task found for user"))
    ensures qp.activeTasks == old(qp.activeTasks)
  {
    var taskId := qp.GetTaskForUser(userId);
    if IsTruthy(taskId) {
      qp.CancelTask(taskId.value);
      reply := Reply("success", "Task cancellation requested");
    } else {
      reply := Reply("error", "No active task found for user");
    }
  }

  /** `process_query` reduced to its bookkeeping: the task is registered for the
      user, the pipeline yields `body` and possibly raises `failure`, and the
      `finally` block yields `[DONE]`, forgets the task's cancellation and removes
      the user's entry. */
  method ProcessQuery(qp: QueryProcessor, userId: string, taskId: int,
                      body: seq<Frame>, failure: Option<string>)
    returns (frames: seq<Frame>)
    modifies qp
    ensures frames == body + (if failure.Some? then [Error("An error occurred: " + failure.value)] else []) + [Done]
    ensures qp.cancelledTasks == old(qp.cancelledTasks) - {taskId}
    ensures qp.activeTasks == old(qp.activeTasks) - {userId}
  {
    qp.RegisterTask(userId, taskId);
    frames := body;
    if failure.Some? {
      frames := frames + [Error("An error occurred: " + failure.value)];
    }
    frames := frames + [Done];
    qp.RemoveCancelledTask(taskId);
    qp.UnregisterTask(userId);
    assert old(qp.activeTasks)[userId := taskId] - {userId} == old(qp.activeTasks) - {userId};
  }

  // ---- The completion stream ----

  /** What `json.loads` and the lookups that follow make of an upstream payload. */
  datatype Delta =
    | NotJson                    // json.JSONDecodeError: the piece is ignored
    | NoContent                  // no choices, no delta, no content, or a null content
    | Content(text: string)      // choices[0].delta.content
    | Raises(message: string)    // any other exception, caught by the outer handler

  /** A piece of text from `aiter_text`, with whether the task had been cancelled by
      the time it arrived. */
  datatype Piece = Piece(text: string, cancelled: bool)

  /** How the upstream request went. The status code is its decimal text. */
  datatype Upstream =
    | NotOk(statusCode: string, body: string)
    | Streamed(pieces: seq<Piece>, failure: Option<string>)

  /** Why the read loop ended early, if it did. */
  datatype Outcome = Reading | SawDone | WasCancelled | Raised(message: string)

  /** The frames yielded so far, the `output_tokens` counter and the loop's outcome. */
  datatype LlmState = LlmState(frames: seq<Frame>, outputTokens: int, outcome: Outcome)

  /** One iteration of `async for chunk in response.aiter_text()`. */
  function ReadPiece(st: LlmState, p: Piece, loads: string -> Delta, countTokens: string -> nat): LlmState {
    if p.cancelled then
      st.(frames := st.frames + [Cancelled(TaskWasCancelled)], outcome := WasCancelled)
    else if !(UpstreamPrefix <= p.text) then st
    else if Trim(p.text, IsPySpace) == UpstreamDone then st.(outcome := SawDone)
    else
      match loads(p.text[|UpstreamPrefix|..])
      case NotJson => st
      case NoContent => st
      case Content(c) =>
        if c == "" then st
        else st.(frames := st.frames + [Stream(c)], outputTokens := st.outputTokens + countTokens(c))
      case Raises(m) => st.(outcome := Raised(m))
  }

  /** The loop over the pieces, stopping at the first that ends it. */
  function ReadPieces(pieces: seq<Piece>, loads: string -> Delta, countTokens: string -> nat): LlmState {
    if pieces == [] then LlmState([], 0, Reading)
    else
      var st := ReadPieces(pieces[..|pieces| - 1], loads, countTokens);
      if st.outcome != Reading then st else ReadPiece(st, pieces[|pieces| - 1], loads, countTokens)
  }

  /** The frames of `generate_llm_response`: the frames of the stream, an error frame
      for a status other than 200 or a raised exception, then the `finally` block's
      token usage and `[DONE]`. */
  function LlmResponse(inputTokens: int, upstream: Upstream, loads: string -> Delta,
                       countTokens: string -> nat): seq<Frame>
  {
    match upstream
    case NotOk(code, body) =>
      [Error("LLM API error: " + code + " - " + body), TokenUsage(inputTokens, 0), Done]
    case Streamed(pieces, failure) =>
      var st := ReadPieces(pieces, loads, countTokens);
      var error :=
        if st.outcome.Raised? then [Error("Error connecting to LLM API: " + st.outcome.message)]
        else if st.outcome == Reading && failure.Some? then [Error("Error connecting to LLM API: " + failure.value)]
        else [];
      st.frames + error + [TokenUsage(inputTokens, st.outputTokens), Done]
  }

  /** The number of tokens of the stream frames among `frames`. */
  function StreamTokens(frames: seq<Frame>, countTokens: string -> nat): int {
    if frames == [] then 0
    else
      var last := frames[|frames| - 1];
      StreamTokens(frames[..|frames| - 1], countTokens) + (if last.Stream? then countTokens(last.content) else 0)
  }

  /** The read loop's invariant: every frame so far is a stream frame, except a
      cancellation frame that ends it, and `output_tokens` is the number of tokens of
      the streamed contents. */
  predicate Consistent(st: LlmState, countTokens: string -> nat) {
    && st.outputTokens == StreamTokens(st.frames, countTokens)
    && (forall k :: 0 <= k < |st.frames| ==> st.frames[k].Stream? || (st.frames[k].Cancelled? && k == |st.frames| - 1))
    && (st.frames != [] && st.frames[|st.frames| - 1].Cancelled? ==> st.outcome == WasCancelled)
  }

  /** One piece keeps the invariant. */
  lemma ReadPieceConsistent(st: LlmState, p: Piece, loads: string -> Delta, countTokens: string -> nat)
    requires Consistent(st, countTokens) && st.outcome == Reading
    ensures Consistent(ReadPiece(st, p, loads, countTokens), countTokens)
  {
    var st' := ReadPiece(st, p, loads, countTokens);
    if |st'.frames| > |st.frames| {
      assert st'.frames[..|st'.frames| - 1] == st.frames;
    }
  }

  /** The whole loop keeps the invariant. */
  lemma {:induction false} ReadPiecesConsistent(pieces: seq<Piece>, loads: string -> Delta, countTokens: string -> nat)
    ensures Consistent(ReadPieces(pieces, loads, countTokens), countTokens)
    decreases |pieces|
  {
    if pieces != [] {
      var init := pieces[..|pieces| - 1];
      ReadPiecesConsistent(init, loads, countTokens);
      var st := ReadPieces(init, loads, countTokens);
      if st.outcome == Reading {
        ReadPieceConsistent(st, pieces[|pieces| - 1], loads, countTokens);
      }
    }
  }

  /** On every exit path (the upstream `[DONE]`, a cancellation, a status other than
      200, an exception, the end of the stream) the last two frames are the token
      usage and then `[DONE]`; the usage reports the input tokens and exactly the
      tokens of the streamed contents; every earlier frame is a stream frame except
      at most one cancellation or error frame just before the usage. */
  lemma LlmResponseEnds(inputTokens: int, upstream: Upstream, loads: string -> Delta,
                        countTokens: string -> nat)
    ensures var r := LlmResponse(inputTokens, upstream, loads, countTokens);
      && |r| >= 2
      && r[|r| - 1] == Done
      && r[|r| - 2] == TokenUsage(inputTokens, StreamTokens(r[..|r| - 2], countTokens))
      && (forall k :: 0 <= k < |r| - 3 ==> r[k].Stream?)
      && (|r| >= 3 ==> r[|r| - 3].Stream? || r[|r| - 3].Cancelled? || r[|r| - 3].Error?)
  {
    match upstream
    case NotOk(code, body) =>
      ClosingFrames([], [Error("LLM API error: " + code + " - " + body)], inputTokens, countTokens);
    case Streamed(pieces, failure) =>
      var st := ReadPieces(pieces, loads, countTokens);
      ReadPiecesConsistent(pieces, loads, countTokens);
      var error :=
        if st.outcome.Raised? then [Error("Error connecting to LLM API: " + st.outcome.message)]
        else if st.outcome == Reading && failure.Some? then [Error("Error connecting to LLM API: " + failure.value)]
        else [];
      ClosingFrames(st.frames, error, inputTokens, countTokens);
  }

  /** The frames of the loop, at most one error frame, the usage and `[DONE]`. */
  lemma ClosingFrames(body: seq<Frame>, error: seq<Frame>, inputTokens: int, countTokens: string -> nat)
    requires forall k :: 0 <= k < |body| ==> body[k].Stream? || (body[k].Cancelled? && k == |body| - 1)
    requires |error| <= 1 && (error != [] ==> error[0].Error? && (body == [] || !body[|body| - 1].Cancelled?))
    ensures var r := body + error + [TokenUsage(inputTokens, StreamTokens(body, countTokens)), Done];
      && r[|r| - 1] == Done
      && r[|r| - 2] == TokenUsage(inputTokens, StreamTokens(r[..|r| - 2], countTokens))
      && (forall k :: 0 <= k < |r| - 3 ==> r[k].Stream?)
      && (|r| >= 3 ==> r[|r| - 3].Stream? || r[|r| - 3].Cancelled? || r[|r| - 3].Error?)
  {
    var r := body + error + [TokenUsage(inputTokens, StreamTokens(body, countTokens)), Done];
    assert r[..|r| - 2] == body + error;
    if error != [] {
      StreamTokensError(body, error[0], countTokens);
      assert body + error == body + [error[0]];
    } else {
      assert body + error == body;
    }
    forall k | 0 <= k < |r| - 3 ensures r[k].Stream? {
      if k < |body| { assert r[k] == body[k]; }
    }
  }

  /** An error frame adds no tokens. */
  lemma StreamTokensError(frames: seq<Frame>, e: Frame, countTokens: string -> nat)
    requires e.Error?
    ensures StreamTokens(frames + [e], countTokens) == StreamTokens(frames, countTokens)
  {
    assert (frames + [e])[..|frames|] == frames;
  }

  /** The read loop, as `generate_llm_response` runs it. */
  method GenerateLlmResponse(inputTokens: int, upstream: Upstream, loads: string -> Delta,
                             countTokens: string -> nat)
    returns (frames: seq<Frame>)
    ensures frames == LlmResponse(inputTokens, upstream, loads, countTokens)
  {
    var outputTokens := 0;
    frames := [];
    match upstream {
      case NotOk(code, body) =>
        frames := [Error("LLM API error: " + code + " - " + body)];
      case Streamed(pieces, failure) =>
        var outcome := Reading;
        var i := 0;
        while i < |pieces| && outcome == Reading
          invariant 0 <= i <= |pieces|
          invariant LlmState(frames, outputTokens, outcome) == ReadPieces(pieces[..i], loads, countTokens)
        {
          assert pieces[..i + 1][..i] == pieces[..i];
          var p := pieces[i];
          if p.cancelled {
            frames := frames + [Cancelled(TaskWasCancelled)];
            outcome := WasCancelled;
          } else if UpstreamPrefix <= p.text {
            if Trim(p.text, IsPySpace) == UpstreamDone {
              outcome := SawDone;
            } else {
              var delta := loads(p.text[|UpstreamPrefix|..]);
              match delta {
                case NotJson =>
                case NoContent =>
                case Content(c) =>
                  if c != "" {
                    outputTokens := outputTokens + countTokens(c);
                    frames := frames + [Stream(c)];
                  }
                case Raises(m) =>
                  outcome := Raised(m);
              }
            }
          }
          i := i + 1;
        }
        ReadPiecesStopped(pieces, i, loads, countTokens);
        if outcome.Raised? {
          frames := frames + [Error("Error connecting to LLM API: " + outcome.message)];
        } else if outcome == Reading && failure.Some? {
          frames := frames + [Error("Error connecting to LLM API: " + failure.value)];
        }
    }
    frames := frames + [TokenUsage(inputTokens, outputTokens), Done];
  }

  /** Once the loop has ended, the remaining pieces are never read. */
  lemma {:induction false} ReadPiecesStopped(pieces: seq<Piece>, i: nat, loads: string -> Delta,
                                             countTokens: string -> nat)
    requires i <= |pieces|
    requires i == |pieces| || ReadPieces(pieces[..i], loads, countTokens).outcome != Reading
    ensures ReadPieces(pieces, loads, countTokens) == ReadPieces(pieces[..i], loads, countTokens)
    decreases |pieces| - i
  {
    if i == |pieces| {
      assert pieces[..i] == pieces;
    } else {
      var j := |pieces| - 1;
      assert pieces[..j][..i] == pieces[..i];
      ReadPiecesStopped(pieces[..j], i, loads, countTokens);
    }
  }
}
