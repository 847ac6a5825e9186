/** The bot's process-wide state as the source keeps it: the global turn counter, the flag
    file, the two conversation-id files and the lock, updated in place by `call_api`,
    `call_memory_api`, `process_memory` and `on_group_at_message_create`
    (ocbotpy/examples/test.py). Each method is proved to perform the matching step of
    `Bookkeeping`, where the properties of the steps are proved. */
module BotClient {
  import opened Wrappers
  import opened PyStrings
  import opened Conversation
  import opened Bookkeeping

  class Bot {
    /** `conversation_turn_counter`, a global that starts at 0 in every process. */
    var turnCounter: nat
    /** Whether `summary_requested.txt` exists. */
    var summaryRequested: bool
    /** Contents of `api_conversation_id.txt` (`None`: no such file). */
    var chatIdFile: Option<string>
    /** Contents of `memory_api_conversation_id.txt` (`None`: no such file). */
    var memoryIdFile: Option<string>
    /** Whether `api_call_lock` is held. */
    var lockHeld: bool
    /** Requests posted to the chat API and to the memory API, in order. */
    var chatRequests: seq<Request>
    var memoryRequests: seq<Request>

    function State(): BotState
      reads this
    {
      BotState(turnCounter, summaryRequested, chatIdFile, memoryIdFile, lockHeld, chatRequests, memoryRequests)
    }

    /** Process start: the counter is 0 and the lock is free; the files are as found on disk. */
    constructor (flagFileExists: bool, chatIdFile: Option<string>, memoryIdFile: Option<string>)
      ensures State() == BotState(0, flagFileExists, chatIdFile, memoryIdFile, false, [], [])
    {
      turnCounter := 0;
      summaryRequested := flagFileExists;
      this.chatIdFile := chatIdFile;
      this.memoryIdFile := memoryIdFile;
      lockHeld := false;
      chatRequests := [];
      memoryRequests := [];
    }

    /** `call_api(query)`, with the HTTP response given as `resp`. */
    method CallApi(query: string, resp: ApiResponse) returns (outcome: ChatOutcome)
      modifies this
      ensures (State(), outcome) == ChatStep(old(State()), query, resp)
    {
      var conversationId := ReadConversationId(chatIdFile);
      if lockHeld {
        // `async with api_call_lock` waits for a release that never comes
        return Blocked;
      }
      chatRequests := chatRequests + [Request(query, conversationId)];
      if resp.status == Ok {
        var answer := resp.answer.GetOr(NoDataAnswer);
        if conversationId.None? {
          var newId := resp.conversationId;
          if Truthy(newId) {
            chatIdFile := newId;
          }
        }
        outcome := Answered(answer);
      } else {
        outcome := Answered(ServiceUnavailable);
      }
    }

    /** `call_memory_api(query, answer)`, with the HTTP response given as `resp`. */
    method CallMemoryApi(query: string, answer: Option<string>, resp: ApiResponse) returns (memoryAnswer: Option<string>)
      modifies this
      ensures (State(), memoryAnswer) == MemoryStep(old(State()), query, answer, resp)
    {
      var conversationId := ReadConversationId(memoryIdFile);
      memoryRequests := memoryRequests + [Request(FormatMemoryMessage(query, answer), conversationId)];
      if resp.status == Ok {
        memoryAnswer := Some(resp.answer.GetOr(NoDataAnswer));
        if conversationId.None? {
          var newId := resp.conversationId;
          if Truthy(newId) {
            memoryIdFile := newId;
          }
        }
      } else {
        memoryAnswer := None;
      }
    }

    /** `process_memory(query, answer)`, relaying the summary under one acquisition of the
        lock (see `Bookkeeping.SummaryRelayDeadlocks` for the source's double acquisition). */
    method ProcessMemory(query: string, answer: string, rs: MemoryResponses)
      modifies this
      ensures State() == ProcessMemoryStep(old(State()), query, answer, rs)
    {
      ghost var s0 := State();
      turnCounter := turnCounter + 1;
      var _ := CallMemoryApi(query, Some(answer), rs.record);
      if turnCounter % SummaryInterval == 0 {
        if summaryRequested {
          assert RecordTurn(s0, query, answer, rs) == (State(), None);
          return;
        }
        var summary := CallMemoryApi(BeginSummaryQuery, None, rs.summary);
        assert (State(), summary) == RecordTurn(s0, query, answer, rs);
        if Truthy(summary) {
          ghost var recorded := State();
          var outcome := CallApi(SummaryPrefix + summary.value, rs.relay);
          assert (State(), outcome) == ChatStep(recorded, SummaryPrefix + summary.value, rs.relay);
          if outcome.Answered? {
            summaryRequested := true;
          }
        }
      } else {
        assert RecordTurn(s0, query, answer, rs) == (State(), None);
      }
    }

    /** The state part of `on_group_at_message_create`; `relayInProgress` says whether a
        summary relay holds the lock when the chat answer arrives. */
    method OnGroupAtMessageCreate(query: string, chatResp: ApiResponse, relayInProgress: bool,
                                  rs: MemoryResponses) returns (reply: Reply)
      modifies this
      ensures (State(), reply) == GroupMessageStep(old(State()), query, chatResp, relayInProgress, rs)
    {
      summaryRequested := false;
      var outcome := CallApi(query, chatResp);
      if outcome.Blocked? {
        return Hung;
      }
      if relayInProgress {
        return Dropped;
      }
      var answer := outcome.answer;
      if answer == [] {
        return NoAnswer;
      }
      ProcessMemory(query, answer, rs);
      if Contains(query, "-v") {
        reply := VoiceReply(answer);
      } else {
        reply := TextReply(answer);
      }
    }
  }
}
