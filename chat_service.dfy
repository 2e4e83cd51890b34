/**
 * The conversation memory of the question-answering service: one message list
 * per session id, cut down to the last `memoryLimit * 2` messages before every
 * turn, and extended by the question and the answer only when the model gave a
 * non-blank answer.  The language model itself is not modelled: what it
 * returned for a turn (an answer, or the error it raised) is a parameter.
 */
module ChatMemory {
  import opened Wrappers
  import opened PyText
  import opened Seqs

  datatype Message = Human(content: string) | AI(content: string)

  /** What the model call produced for one turn: its text, or the error it raised. */
  datatype Reply = Reply(content: string) | ModelFailure(reason: string)

  /** The dict `chat` returns: `{"message": ..., "session_id": ...}`. */
  datatype ChatResponse = ChatResponse(message: string, sessionId: string)

  const DefaultSession: string := "default"
  const ApologyPrefix: string := "抱歉，服务暂时不可用："
  const EmptyReplyError: string := "AI响应为空"

  /** The history kept once `_limit_history` is done with `h`: its last `keep` messages. */
  function Trim(h: seq<Message>, keep: nat): (t: seq<Message>)
    ensures |t| == Min(|h|, keep)
    ensures t == h[|h| - |t|..]
  {
    if |h| > keep then h[|h| - keep..] else h
  }

  /** The answer of a turn, or the error message the turn ends with (blank answers raise `ValueError`). */
  function Outcome(reply: Reply): Result<string> {
    match reply
    case ModelFailure(reason) => Failure(reason)
    case Reply(content) => if IsBlank(content) then Failure(EmptyReplyError) else Success(content)
  }

  /** The service's emptiness test on an answer: empty, or nothing left once stripped. */
  function BlankAnswer(content: string): (b: bool)
    ensures b <==> IsBlank(content)
  {
    content == [] || Strip(content) == []
  }

  /** The messages a turn adds to the history: the question and the answer, or nothing. */
  function Added(message: string, reply: Reply): seq<Message> {
    match Outcome(reply) case Success(answer) => [Human(message), AI(answer)] case Failure(_) => []
  }

  /** The history of a session after one turn: trimmed first, then extended on success. */
  function AfterTurn(h: seq<Message>, message: string, reply: Reply, keep: nat): seq<Message> {
    Trim(h, keep) + Added(message, reply)
  }

  /** The stored history of a session, or the empty one `_get_history` would create. */
  function HistoryOf(histories: map<string, seq<Message>>, sessionId: string): seq<Message> {
    if sessionId in histories then histories[sessionId] else []
  }

  /** The session `clear_history` acts on: `None` means the default session. */
  function SessionKey(sessionId: Option<string>): string {
    match sessionId case None => DefaultSession case Some(s) => s
  }

  /** A second update of the same key overrides the first. */
  lemma UpdateTwice(m: map<string, seq<Message>>, k: string, a: seq<Message>, b: seq<Message>)
    ensures m[k := a][k := b] == m[k := b]
  {
  }

  class ChatService {
    const memoryLimit: nat := 3
    var histories: map<string, seq<Message>>

    constructor()
      ensures histories == map[]
    {
      histories := map[];
    }

    /** `_get_history`: the session's history, created empty only when the session is absent. */
    method GetHistory(sessionId: string) returns (h: seq<Message>)
      modifies this
      ensures histories == old(histories)[sessionId := HistoryOf(old(histories), sessionId)]
      ensures h == HistoryOf(old(histories), sessionId)
    {
      if sessionId !in histories {
        histories := histories[sessionId := []];
      }
      h := histories[sessionId];
    }

    /** `_limit_history`: a history longer than `memoryLimit * 2` is cleared and refilled with its latest messages. */
    method LimitHistory(sessionId: string)
      requires sessionId in histories
      modifies this
      ensures histories == old(histories)[sessionId := Trim(old(histories)[sessionId], memoryLimit * 2)]
    {
      var messages := histories[sessionId];
      if |messages| > memoryLimit * 2 {
        var recent := messages[|messages| - memoryLimit * 2..];
        histories := histories[sessionId := []];
        for i := 0 to |recent|
          invariant histories == old(histories)[sessionId := recent[..i]]
        {
          histories := histories[sessionId := histories[sessionId] + [recent[i]]];
          assert recent[..i + 1] == recent[..i] + [recent[i]];
        }
        assert recent[..|recent|] == recent;
      }
    }

    /**
     * `chat`: the session's history is fetched (created if needed) and trimmed,
     * then the question and the answer are appended only when the answer is not
     * blank; any failure becomes an apology carrying the error's text.
     */
    method Chat(message: string, reply: Reply, sessionId: string) returns (response: ChatResponse)
      modifies this
      ensures histories == old(histories)[sessionId := AfterTurn(HistoryOf(old(histories), sessionId), message, reply, memoryLimit * 2)]
      ensures response.sessionId == sessionId
      ensures response.message == match Outcome(reply) case Success(answer) => answer case Failure(e) => ApologyPrefix + e
    {
      PrepareHistory(sessionId);
      ghost var kept := Trim(HistoryOf(old(histories), sessionId), memoryLimit * 2);
      var outcome: Result<string>;
      match reply {
        case ModelFailure(reason) =>
          outcome := Failure(reason);
        case Reply(content) =>
          if BlankAnswer(content) {
            outcome := Failure(EmptyReplyError);
          } else {
            outcome := Success(content);
          }
      }
      assert outcome == Outcome(reply);
      ghost var after := AfterTurn(HistoryOf(old(histories), sessionId), message, reply, memoryLimit * 2);
      if outcome.Success? {
        AddTurn(sessionId, message, outcome.value);
        assert after == kept + [Human(message), AI(outcome.value)];
        UpdateTwice(old(histories), sessionId, kept, after);
        response := ChatResponse(outcome.value, sessionId);
      } else {
        assert after == kept;
        response := ChatResponse(ApologyPrefix + outcome.error, sessionId);
      }
    }

    /** The start of a turn: `_get_history` then `_limit_history`, leaving the session's history trimmed. */
    method PrepareHistory(sessionId: string)
      modifies this
      ensures histories == old(histories)[sessionId := Trim(HistoryOf(old(histories), sessionId), memoryLimit * 2)]
    {
      var _ := GetHistory(sessionId);
      ghost var fetched := histories;
      LimitHistory(sessionId);
      ghost var kept := Trim(HistoryOf(old(histories), sessionId), memoryLimit * 2);
      assert histories == fetched[sessionId := kept];
      UpdateTwice(old(histories), sessionId, HistoryOf(old(histories), sessionId), kept);
    }

    /** The two `add_message` calls of a successful turn: the question, then the answer. */
    method AddTurn(sessionId: string, message: string, answer: string)
      requires sessionId in histories
      modifies this
      ensures histories == old(histories)[sessionId := old(histories)[sessionId] + [Human(message), AI(answer)]]
    {
      histories := histories[sessionId := histories[sessionId] + [Human(message)]];
      histories := histories[sessionId := histories[sessionId] + [AI(answer)]];
      assert histories[sessionId] == old(histories)[sessionId] + [Human(message), AI(answer)];
    }

    /** `clear_history`: removes the session (the default one for `None`) if present; nothing else changes. */
    method ClearHistory(sessionId: Option<string>)
      modifies this
      ensures histories == old(histories) - {SessionKey(sessionId)}
    {
      var key := if sessionId.None? then DefaultSession else sessionId.value;
      if key in histories {
        histories := histories - {key};
      }
    }
  }

  // ---------------------------------------------------------------------------
  // Properties of the memory window

  /** Trimming twice keeps what trimming once kept. */
  lemma TrimIdempotent(h: seq<Message>, keep: nat)
    ensures Trim(Trim(h, keep), keep) == Trim(h, keep)
  {
  }

  /** A history no longer than the window is kept as it is; a longer one loses its oldest messages. */
  lemma TrimKeepsLatest(h: seq<Message>, keep: nat)
    ensures |h| <= keep ==> Trim(h, keep) == h
    ensures |h| > keep ==> |Trim(h, keep)| == keep && forall i :: 0 <= i < keep ==> Trim(h, keep)[i] == h[|h| - keep + i]
  {
  }

  /** After any turn the history holds at most two messages more than the window. */
  lemma TurnBound(h: seq<Message>, message: string, reply: Reply, keep: nat)
    ensures |AfterTurn(h, message, reply, keep)| <= keep + 2
  {
  }

  /** A failed or blank answer leaves only the trimmed history; a good one ends it with the question and the answer. */
  lemma TurnAppendsOnSuccess(h: seq<Message>, message: string, reply: Reply, keep: nat)
    ensures (reply.ModelFailure? || IsBlank(reply.content)) ==> AfterTurn(h, message, reply, keep) == Trim(h, keep)
    ensures reply.Reply? && !IsBlank(reply.content) ==>
              AfterTurn(h, message, reply, keep) == Trim(h, keep) + [Human(message), AI(reply.content)]
  {
  }

  /** A turn of a conversation: the question and what the model produced for it. */
  datatype Turn = Turn(message: string, reply: Reply)

  /** The history of one session after the given turns, starting from `h`. */
  function Replay(h: seq<Message>, turns: seq<Turn>, keep: nat): seq<Message> {
    if turns == [] then h
    else
      var last := turns[|turns| - 1];
      AfterTurn(Replay(h, turns[..|turns| - 1], keep), last.message, last.reply, keep)
  }

  /** Every question and answer of the successful turns, in order: what an unbounded memory would hold. */
  function Transcript(turns: seq<Turn>): seq<Message> {
    if turns == [] then []
    else
      var last := turns[|turns| - 1];
      Transcript(turns[..|turns| - 1]) + Added(last.message, last.reply)
  }

  /** `t` is the latest part of `log`. */
  predicate IsSuffix(t: seq<Message>, log: seq<Message>) {
    |t| <= |log| && t == log[|log| - |t|..]
  }

  /** Trimming a suffix of a sequence gives another suffix of it. */
  lemma TrimOfSuffix(log: seq<Message>, h: seq<Message>, keep: nat)
    requires IsSuffix(h, log)
    ensures IsSuffix(Trim(h, keep), log)
  {
    var t := Trim(h, keep);
    assert forall i :: 0 <= i < |t| ==> t[i] == log[|log| - |t| + i];
  }

  /** Appending the same messages to a sequence and to one of its suffixes keeps the suffix relation. */
  lemma SuffixAppend(log: seq<Message>, t: seq<Message>, more: seq<Message>)
    requires IsSuffix(t, log)
    ensures IsSuffix(t + more, log + more)
  {
    var full := log + more;
    assert forall i :: 0 <= i < |t + more| ==> (t + more)[i] == full[|full| - |t + more| + i];
  }

  /**
   * Starting from no history, the memory is always the latest part of the
   * transcript, never longer than the window plus one turn.
   */
  lemma {:induction false} MemoryIsLatestTranscript(turns: seq<Turn>, keep: nat)
    ensures IsSuffix(Replay([], turns, keep), Transcript(turns))
    ensures |Replay([], turns, keep)| <= keep + 2
  {
    if turns != [] {
      var init := turns[..|turns| - 1];
      var last := turns[|turns| - 1];
      MemoryIsLatestTranscript(init, keep);
      var prev := Replay([], init, keep);
      var log := Transcript(init);
      TrimOfSuffix(log, prev, keep);
      var more := Added(last.message, last.reply);
      assert Replay([], turns, keep) == Trim(prev, keep) + more;
      assert Transcript(turns) == log + more;
      SuffixAppend(log, Trim(prev, keep), more);
    }
  }

  /** When every answer is non-blank, `n` turns leave `min(2n, window + 2)` messages. */
  lemma {:induction false} SuccessfulTurnsLength(turns: seq<Turn>, keep: nat)
    requires forall i :: 0 <= i < |turns| ==> turns[i].reply.Reply? && !IsBlank(turns[i].reply.content)
    ensures |Replay([], turns, keep)| == Min(2 * |turns|, keep + 2)
  {
    if turns != [] {
      var init := turns[..|turns| - 1];
      SuccessfulTurnsLength(init, keep);
      var last := turns[|turns| - 1];
      TurnAppendsOnSuccess(Replay([], init, keep), last.message, last.reply, keep);
    }
  }

  /**
   * With the service's window of 6 messages, five successful rounds leave 8
   * messages, not 6: the trim runs before the new question and answer are added.
   */
  lemma FiveRoundsKeepEight(turns: seq<Turn>)
    requires |turns| == 5
    requires forall i :: 0 <= i < |turns| ==> turns[i].reply.Reply? && !IsBlank(turns[i].reply.content)
    ensures |Replay([], turns, 3 * 2)| == 8
  {
    SuccessfulTurnsLength(turns, 3 * 2);
  }
}
