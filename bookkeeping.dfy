/** The memory and summary bookkeeping of ocbotpy/examples/test.py as a state machine over
    values: the chat call (`call_api`), the memory call (`call_memory_api`), one run of
    `process_memory`, and the state part of the inbound-message handler
    `on_group_at_message_create`. The class `BotClient.Bot` implements these steps on mutable
    fields; the lemmas here are about sequences of steps.

    The process is modelled sequentially: `process_memory`, which the source starts as a
    background task, runs to completion inside the step of the message that started it, and
    an `asyncio.Lock` acquisition that would wait forever is the outcome `Blocked`. */
module Bookkeeping {
  import opened Wrappers
  import opened PyStrings
  import opened Conversation

  /** A summary is requested every this many turns. */
  const SummaryInterval := 10
  /** The query that asks the memory API for a summary. */
  const BeginSummaryQuery := "【【开始总结】】"
  /** The prefix under which a summary is relayed to the chat API. */
  const SummaryPrefix := "【【总结】】"

  /** A posted request: the query text and the conversation id sent with it. */
  datatype Request = Request(query: string, conversationId: Option<string>)

  /** The state the bookkeeping reads and writes:
      - `turnCounter`: the in-process global `conversation_turn_counter` (not persisted);
      - `summaryRequested`: whether the file `summary_requested.txt` exists;
      - `chatIdFile`, `memoryIdFile`: the raw contents of the two conversation-id files
        (`None` when the file does not exist);
      - `lockHeld`: whether `api_call_lock` is held;
      - `chatRequests`, `memoryRequests`: the requests posted to each API, in order. */
  datatype BotState = BotState(
    turnCounter: nat,
    summaryRequested: bool,
    chatIdFile: Option<string>,
    memoryIdFile: Option<string>,
    lockHeld: bool,
    chatRequests: seq<Request>,
    memoryRequests: seq<Request>)

  datatype ChatOutcome = Answered(answer: string) | Blocked

  /** The three API responses one `process_memory` run may consume: the memory API's answers
      to the turn record and to the summary request, and the chat API's answer to the relay
      of the summary. */
  datatype MemoryResponses = MemoryResponses(record: ApiResponse, summary: ApiResponse, relay: ApiResponse)

  /** `call_api(query)`: reads the stored id, takes the lock, posts the query with that id,
      adopts a new id from a 200 response and returns the answer or the fallback. When the
      lock is already held the call waits for ever: nothing is posted and nothing changes. */
  function ChatStep(s: BotState, query: string, resp: ApiResponse): (r: (BotState, ChatOutcome))
    ensures s.lockHeld ==> r == (s, Blocked)
    ensures !s.lockHeld ==> r.1 == Answered(ChatAnswer(resp))
    ensures !s.lockHeld ==>
              r.0.chatRequests == s.chatRequests + [Request(query, ReadConversationId(s.chatIdFile))]
    ensures r.0 == s.(chatIdFile := r.0.chatIdFile, chatRequests := r.0.chatRequests)
    ensures ReadConversationId(s.chatIdFile).Some? ==> r.0.chatIdFile == s.chatIdFile
    ensures !s.lockHeld && resp.status == Ok && ReadConversationId(s.chatIdFile).None? && Truthy(resp.conversationId) ==>
              r.0.chatIdFile == resp.conversationId
    ensures r.0.chatIdFile != s.chatIdFile ==>
              resp.status == Ok && r.0.chatIdFile == resp.conversationId && Truthy(resp.conversationId)
  {
    if s.lockHeld then (s, Blocked)
    else
      var sent := s.(chatRequests := s.chatRequests + [Request(query, ReadConversationId(s.chatIdFile))]);
      if resp.status == Ok then
        (sent.(chatIdFile := AdoptId(s.chatIdFile, resp.conversationId)), Answered(ChatAnswer(resp)))
      else (sent, Answered(ChatAnswer(resp)))
  }

  /** `call_memory_api(query, answer)`: posts the formatted message with the stored memory
      id, adopts a new id from a 200 response, and returns the memory answer. It does not
      take the lock. */
  function MemoryStep(s: BotState, query: string, answer: Option<string>, resp: ApiResponse): (r: (BotState, Option<string>))
    ensures r.1 == MemoryAnswer(resp)
    ensures r.0.memoryRequests
            == s.memoryRequests + [Request(FormatMemoryMessage(query, answer), ReadConversationId(s.memoryIdFile))]
    ensures r.0 == s.(memoryIdFile := r.0.memoryIdFile, memoryRequests := r.0.memoryRequests)
    ensures ReadConversationId(s.memoryIdFile).Some? ==> r.0.memoryIdFile == s.memoryIdFile
    ensures resp.status == Ok && ReadConversationId(s.memoryIdFile).None? && Truthy(resp.conversationId) ==>
              r.0.memoryIdFile == resp.conversationId
    ensures resp.status != Ok || !Truthy(resp.conversationId) ==> r.0.memoryIdFile == s.memoryIdFile
  {
    var sent := s.(memoryRequests := s.memoryRequests
                     + [Request(FormatMemoryMessage(query, answer), ReadConversationId(s.memoryIdFile))]);
    if resp.status == Ok then
      (sent.(memoryIdFile := AdoptId(s.memoryIdFile, resp.conversationId)), MemoryAnswer(resp))
    else (sent, MemoryAnswer(resp))
  }

  /** The turn about to be counted lands on a multiple of ten while the flag is absent. */
  predicate SummaryDue(s: BotState) {
    (s.turnCounter + 1) % SummaryInterval == 0 && !s.summaryRequested
  }

  /** The part of `process_memory` before the relay (lines 142-154): count the turn, record
      it with the memory API and, when due, ask for a summary; the second component is the
      summary answer when one was asked for. */
  function RecordTurn(s: BotState, query: string, answer: string, rs: MemoryResponses): (r: (BotState, Option<string>))
    ensures r.0 == s.(turnCounter := s.turnCounter + 1, memoryIdFile := r.0.memoryIdFile,
                      memoryRequests := r.0.memoryRequests)
    ensures r.1 == if SummaryDue(s) then MemoryAnswer(rs.summary) else None
    ensures ReadConversationId(s.memoryIdFile).Some? ==> r.0.memoryIdFile == s.memoryIdFile
  {
    var counted := s.(turnCounter := s.turnCounter + 1);
    var (recorded, _) := MemoryStep(counted, query, Some(answer), rs.record);
    assert recorded == counted.(memoryIdFile := recorded.memoryIdFile, memoryRequests := recorded.memoryRequests);
    assert (recorded.turnCounter % SummaryInterval != 0 || recorded.summaryRequested) <==> !SummaryDue(s);
    if recorded.turnCounter % SummaryInterval != 0 || recorded.summaryRequested then (recorded, None)
    else
      MemoryStep(recorded, BeginSummaryQuery, None, rs.summary)
  }

  /** Whether a run of `process_memory` from `s` relays a summary. */
  predicate Relays(s: BotState, rs: MemoryResponses) {
    SummaryDue(s) && Truthy(MemoryAnswer(rs.summary)) && !s.lockHeld
  }

  /** One run of `process_memory` with the relay made under a single acquisition of the lock:
      the turn is counted, recorded with the memory API and, on a multiple of ten with the
      flag absent, a summary is requested; a truthy summary is relayed to the chat API and
      only then is the flag set. */
  function ProcessMemoryStep(s: BotState, query: string, answer: string, rs: MemoryResponses): (r: BotState)
    ensures r.turnCounter == s.turnCounter + 1
    ensures |r.memoryRequests| == |s.memoryRequests| + (if SummaryDue(s) then 2 else 1)
    ensures r.memoryRequests[|s.memoryRequests|]
            == Request(FormatMemoryMessage(query, Some(answer)), ReadConversationId(s.memoryIdFile))
    ensures SummaryDue(s) ==> r.memoryRequests[|s.memoryRequests| + 1].query == BeginSummaryQuery
    ensures r.summaryRequested <==> s.summaryRequested || Relays(s, rs)
    ensures r.chatRequests
            == s.chatRequests
               + (if Relays(s, rs)
                  then [Request(SummaryPrefix + MemoryAnswer(rs.summary).value, ReadConversationId(s.chatIdFile))]
                  else [])
    ensures r.lockHeld == s.lockHeld
    ensures ReadConversationId(s.memoryIdFile).Some? ==> r.memoryIdFile == s.memoryIdFile
    ensures ReadConversationId(s.chatIdFile).Some? || !Relays(s, rs) ==> r.chatIdFile == s.chatIdFile
  {
    var (recorded, summary) := RecordTurn(s, query, answer, rs);
    if !Truthy(summary) then recorded
    else
      var (relayed, outcome) := ChatStep(recorded, SummaryPrefix + summary.value, rs.relay);
      if outcome.Blocked? then relayed else relayed.(summaryRequested := true)
  }

  /** `process_memory` as written: it takes `api_call_lock` and, holding it, awaits
      `call_api`, which takes the same lock again. `asyncio.Lock` is not reentrant, so the
      relay never runs, the flag is never written, and the lock stays held. */
  function ProcessMemoryAsWritten(s: BotState, query: string, answer: string, rs: MemoryResponses): (r: BotState)
    ensures r.turnCounter == s.turnCounter + 1
    ensures r.summaryRequested == s.summaryRequested
    ensures r.chatRequests == s.chatRequests && r.chatIdFile == s.chatIdFile
    ensures r.lockHeld <==> s.lockHeld || (SummaryDue(s) && Truthy(MemoryAnswer(rs.summary)))
  {
    var (recorded, summary) := RecordTurn(s, query, answer, rs);
    if !Truthy(summary) then recorded
    else ChatStep(recorded.(lockHeld := true), SummaryPrefix + summary.value, rs.relay).0
  }

  /** The summary relay as written deadlocks: once a truthy summary arrives the lock stays
      held, the summary is never relayed, the flag is never set, and every later chat call
      waits for ever. The corrected step relays the summary, sets the flag and releases the
      lock. */
  lemma SummaryRelayDeadlocks(s: BotState, query: string, answer: string, rs: MemoryResponses,
                              laterQuery: string, laterResp: ApiResponse)
    requires Relays(s, rs)
    ensures ProcessMemoryAsWritten(s, query, answer, rs).lockHeld
    ensures !ProcessMemoryAsWritten(s, query, answer, rs).summaryRequested
    ensures ProcessMemoryAsWritten(s, query, answer, rs).chatRequests == s.chatRequests
    ensures ChatStep(ProcessMemoryAsWritten(s, query, answer, rs), laterQuery, laterResp).1 == Blocked
    ensures !ProcessMemoryStep(s, query, answer, rs).lockHeld
    ensures ProcessMemoryStep(s, query, answer, rs).summaryRequested
    ensures |ProcessMemoryStep(s, query, answer, rs).chatRequests| == |s.chatRequests| + 1
  {
    var (recorded, summary) := RecordTurn(s, query, answer, rs);
    assert summary == MemoryAnswer(rs.summary);
  }

  /** How the handler for one inbound group message ended. */
  datatype Reply = Hung | Dropped | NoAnswer | VoiceReply(answer: string) | TextReply(answer: string)

  /** The state part of `on_group_at_message_create`: remove the flag file, ask the chat API,
      drop the reply when a summary relay holds the lock (`relayInProgress`), give up on an
      empty answer, and otherwise run `process_memory` and reply by voice when the query
      contains "-v" and by text otherwise. */
  function GroupMessageStep(s: BotState, query: string, chatResp: ApiResponse, relayInProgress: bool,
                            rs: MemoryResponses): (r: (BotState, Reply))
    ensures !s.lockHeld ==> !r.1.Hung?
    ensures r.1.Hung? <==> s.lockHeld
    ensures !s.lockHeld && relayInProgress ==> r.1 == Dropped
    ensures (r.1.VoiceReply? || r.1.TextReply?) <==> !s.lockHeld && !relayInProgress && ChatAnswer(chatResp) != []
    ensures (r.1.VoiceReply? || r.1.TextReply?) ==> r.1.answer == ChatAnswer(chatResp)
    ensures r.1.VoiceReply? ==> Contains(query, "-v")
    ensures r.1.TextReply? ==> !Contains(query, "-v")
    ensures var asked := ChatStep(s.(summaryRequested := false), query, chatResp).0;
            r.0 == if r.1.VoiceReply? || r.1.TextReply? then ProcessMemoryStep(asked, query, r.1.answer, rs) else asked
    ensures r.0.turnCounter == s.turnCounter + (if r.1.VoiceReply? || r.1.TextReply? then 1 else 0)
  {
    var cleared := s.(summaryRequested := false);
    var (asked, outcome) := ChatStep(cleared, query, chatResp);
    if outcome.Blocked? then (asked, Hung)
    else if relayInProgress then (asked, Dropped)
    else if outcome.answer == [] then (asked, NoAnswer)
    else
      (ProcessMemoryStep(asked, query, outcome.answer, rs),
       if Contains(query, "-v") then VoiceReply(outcome.answer) else TextReply(outcome.answer))
  }

  /** After an inbound message the flag is set exactly when the message was replied to and
      its turn, a multiple of ten, relayed a truthy summary: the handler removes the flag
      before anything else, so an earlier summary never suppresses this one. */
  lemma GroupMessageFlag(s: BotState, query: string, chatResp: ApiResponse, relayInProgress: bool,
                         rs: MemoryResponses)
    ensures var r := GroupMessageStep(s, query, chatResp, relayInProgress, rs);
            r.0.summaryRequested <==>
              && (r.1.VoiceReply? || r.1.TextReply?)
              && (s.turnCounter + 1) % SummaryInterval == 0
              && Truthy(MemoryAnswer(rs.summary))
  {
    var cleared := s.(summaryRequested := false);
    var (asked, outcome) := ChatStep(cleared, query, chatResp);
    var r := GroupMessageStep(s, query, chatResp, relayInProgress, rs);
    if outcome.Answered? && !relayInProgress && outcome.answer != [] {
      assert r.0 == ProcessMemoryStep(asked, query, outcome.answer, rs);
      RepliedTurnFlag(asked, query, outcome.answer, rs);
    } else {
      assert r.0 == asked;
    }
  }

  /** A turn run from a state with the flag absent and the lock free sets the flag exactly
      when it lands on a multiple of ten and the summary answer is truthy. */
  lemma RepliedTurnFlag(s: BotState, query: string, answer: string, rs: MemoryResponses)
    requires !s.summaryRequested && !s.lockHeld
    ensures ProcessMemoryStep(s, query, answer, rs).summaryRequested
            <==> (s.turnCounter + 1) % SummaryInterval == 0 && Truthy(MemoryAnswer(rs.summary))
  {
  }

  /** One `process_memory` run: the query and answer of the turn and the responses it gets. */
  datatype Turn = Turn(query: string, answer: string, responses: MemoryResponses)

  /** `process_memory` runs one after another with no inbound message in between. */
  function RunTurns(s: BotState, turns: seq<Turn>): BotState
    decreases |turns|
  {
    if turns == [] then s
    else RunTurns(ProcessMemoryStep(s, turns[0].query, turns[0].answer, turns[0].responses), turns[1..])
  }

  /** Each run adds exactly one to the turn counter. */
  lemma {:induction false} CounterCountsTurns(s: BotState, turns: seq<Turn>)
    decreases |turns|
    ensures RunTurns(s, turns).turnCounter == s.turnCounter + |turns|
  {
    if turns != [] {
      var t := turns[0];
      CounterCountsTurns(ProcessMemoryStep(s, t.query, t.answer, t.responses), turns[1..]);
    }
  }

  /** While the flag is set no summary is requested or relayed: each run posts only its turn
      record, and the flag stays set. */
  lemma {:induction false} FlagSuppressesSummaries(s: BotState, turns: seq<Turn>)
    decreases |turns|
    requires s.summaryRequested
    ensures RunTurns(s, turns).summaryRequested
    ensures RunTurns(s, turns).chatRequests == s.chatRequests
    ensures |RunTurns(s, turns).memoryRequests| == |s.memoryRequests| + |turns|
  {
    if turns != [] {
      var t := turns[0];
      FlagSuppressesSummaries(ProcessMemoryStep(s, t.query, t.answer, t.responses), turns[1..]);
    }
  }

  /** Between two inbound messages at most one summary is relayed to the chat API. */
  lemma {:induction false} AtMostOneRelayBetweenMessages(s: BotState, turns: seq<Turn>)
    decreases |turns|
    ensures |RunTurns(s, turns).chatRequests| <= |s.chatRequests| + 1
  {
    if turns != [] {
      var t := turns[0];
      var s' := ProcessMemoryStep(s, t.query, t.answer, t.responses);
      if Relays(s, t.responses) {
        FlagSuppressesSummaries(s', turns[1..]);
      } else {
        AtMostOneRelayBetweenMessages(s', turns[1..]);
      }
    }
  }
}
