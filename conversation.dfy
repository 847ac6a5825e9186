/** The conversation-id file rules and the handling of one chat or memory API response
    (`read_conversation_id`, `write_conversation_id`, and the response handling of `call_api`
    and `call_memory_api` in ocbotpy/examples/test.py). The HTTP request itself is not
    modelled: its outcome is an `ApiResponse`. */
module Conversation {
  import opened Wrappers
  import opened PyStrings

  /** What a chat or memory API call returned: the HTTP status and, from the JSON body, the
      `answer` and `conversation_id` fields (`None` when the field is absent). */
  datatype ApiResponse = ApiResponse(status: int, answer: Option<string>, conversationId: Option<string>)

  const Ok := 200
  /** `answer` used when a successful response has no `answer` field. */
  const NoDataAnswer := "没有返回数据"
  /** The chat answer used for any non-200 status. */
  const ServiceUnavailable := "抱歉，服务暂时不可用"
  const UserLabel := "用户："
  const AiLabel := "\nAI："

  /** `read_conversation_id`: the stored file text stripped of surrounding whitespace, and
      `None` when the file is missing (`file == None`) or holds only whitespace. */
  function ReadConversationId(file: Option<string>): (id: Option<string>)
    ensures id.None? <==> file.None? || AllSpace(file.value)
    ensures id.Some? ==> id.value == Strip(file.value)
    ensures id.Some? ==> id.value != [] && !IsSpace(id.value[0]) && !IsSpace(id.value[|id.value| - 1])
  {
    match file
    case None => None
    case Some(text) =>
      var stripped := Strip(text);
      if |stripped| > 0 then
        assert !AllSpace(text) && !IsSpace(stripped[0]) && !IsSpace(stripped[|stripped| - 1]);
        Some(stripped)
      else
        assert AllSpace(text);
        None
  }

  /** Writing an id without surrounding whitespace and reading it back gives the id. */
  lemma WriteThenRead(id: string)
    requires id != [] && !IsSpace(id[0]) && !IsSpace(id[|id| - 1])
    ensures ReadConversationId(Some(id)) == Some(id)
  {
    assert LeadingSpace(id) == 0;
    assert id[0..] == id;
    assert TrailingSpace(id) == 0;
    assert id[0..|id|] == id;
    assert Strip(id) == id;
  }

  /** The id file after a successful response (lines 92-97 and 129-134): the response's id is
      written only when no id was stored and the response carries a non-empty one. */
  function AdoptId(file: Option<string>, responseId: Option<string>): (file': Option<string>)
    ensures ReadConversationId(file).Some? ==> file' == file
    ensures file' != file <==> ReadConversationId(file).None? && Truthy(responseId) && responseId != file
    ensures file' != file ==> file' == responseId
  {
    if ReadConversationId(file).None? && Truthy(responseId) then responseId else file
  }

  /** The id file after a sequence of successful responses. */
  function AdoptAll(file: Option<string>, responses: seq<Option<string>>): Option<string>
    decreases |responses|
  {
    if responses == [] then file else AdoptAll(AdoptId(file, responses[0]), responses[1..])
  }

  /** Once an id that reads back as present is stored, no later response replaces it. */
  lemma {:induction false} StoredIdIsStable(file: Option<string>, responses: seq<Option<string>>)
    requires ReadConversationId(file).Some?
    ensures AdoptAll(file, responses) == file
  {
    if responses != [] {
      StoredIdIsStable(AdoptId(file, responses[0]), responses[1..]);
    }
  }

  /** The first well-formed id a response brings is the one every later call sends. */
  lemma AdoptedIdIsRead(file: Option<string>, responseId: string)
    requires ReadConversationId(file).None?
    requires responseId != [] && !IsSpace(responseId[0]) && !IsSpace(responseId[|responseId| - 1])
    ensures ReadConversationId(AdoptId(file, Some(responseId))) == Some(responseId)
  {
    WriteThenRead(responseId);
  }

  /** The answer `call_api` returns: the fixed fallback on any non-200 status, and otherwise
      the response's answer or, when it has none, the no-data text; it is empty only when
      the API itself answered with an empty string. */
  function ChatAnswer(resp: ApiResponse): (answer: string)
    ensures resp.status != Ok ==> answer == ServiceUnavailable
    ensures resp.status == Ok && resp.answer.Some? ==> answer == resp.answer.value
    ensures resp.status == Ok && resp.answer.None? ==> answer == NoDataAnswer
    ensures answer == [] <==> resp.status == Ok && resp.answer == Some([])
  {
    if resp.status == Ok then resp.answer.GetOr(NoDataAnswer) else ServiceUnavailable
  }

  /** The value `call_memory_api` returns: `None` on any non-200 status, otherwise the answer
      or the no-data text. It is truthy exactly when the status is 200 and the answer is
      missing or non-empty. */
  function MemoryAnswer(resp: ApiResponse): (r: Option<string>)
    ensures r.None? <==> resp.status != Ok
    ensures r.Some? && resp.answer.Some? ==> r.value == resp.answer.value
    ensures resp.status == Ok && resp.answer.None? ==> r == Some(NoDataAnswer)
    ensures Truthy(r) <==> resp.status == Ok && (resp.answer.None? || resp.answer.value != [])
  {
    if resp.status == Ok then Some(resp.answer.GetOr(NoDataAnswer)) else None
  }

  /** The query `call_memory_api` posts: `用户：{query}\nAI：{answer}` when the answer is
      truthy, and the bare query otherwise. */
  function FormatMemoryMessage(query: string, answer: Option<string>): (message: string)
    ensures !Truthy(answer) ==> message == query
    ensures Truthy(answer) ==>
              var sep := |UserLabel| + |query|;
              && |message| == sep + |AiLabel| + |answer.value|
              && message[..|UserLabel|] == UserLabel
              && message[|UserLabel|..sep] == query
              && OccursAt(message, AiLabel, sep)
              && message[sep + |AiLabel|..] == answer.value
  {
    if Truthy(answer) then UserLabel + query + AiLabel + answer.value else query
  }

  /** Reads a formatted memory message back into query and answer, splitting at the first
      `\nAI：` after the `用户：` label. */
  function SplitMemoryMessage(message: string): Option<(string, string)> {
    if |message| < |UserLabel| || message[..|UserLabel|] != UserLabel then None
    else
      match Find(message, AiLabel, |UserLabel|)
      case None => None
      case Some(i) => Some((message[|UserLabel|..i], message[i + |AiLabel|..]))
  }

  /** No occurrence of the `\nAI：` label can straddle the end of a query that does not contain
      it: the label's first character appears nowhere else in the label. */
  lemma {:induction false} NoLabelBeforeSeparator(query: string, answer: string, i: nat)
    requires !Contains(query, AiLabel)
    requires |UserLabel| <= i < |UserLabel| + |query|
    ensures !OccursAt(UserLabel + query + AiLabel + answer, AiLabel, i)
  {
    var m := UserLabel + query + AiLabel + answer;
    var j := i - |UserLabel|;
    if j + |AiLabel| <= |query| {
      assert !OccursAt(query, AiLabel, j);
      assert m[i..i + |AiLabel|] == query[j..j + |AiLabel|];
    } else {
      var d := |query| - j;
      assert m[i + d] == '\n' && AiLabel[d] != '\n';
      if i + |AiLabel| <= |m| {
        assert m[i..i + |AiLabel|][d] != AiLabel[d];
      }
    }
  }

  /** The memory API can tell query and answer apart: a formatted message splits back into
      them whenever the query does not itself contain the `\nAI：` label. */
  lemma MemoryMessageRoundTrip(query: string, answer: string)
    requires answer != [] && !Contains(query, AiLabel)
    ensures SplitMemoryMessage(FormatMemoryMessage(query, Some(answer))) == Some((query, answer))
  {
    var m := UserLabel + query + AiLabel + answer;
    var sep := |UserLabel| + |query|;
    assert m[..|UserLabel|] == UserLabel;
    assert OccursAt(m, AiLabel, sep) by {
      assert m[sep..sep + |AiLabel|] == AiLabel;
    }
    forall i: nat | |UserLabel| <= i < sep ensures !OccursAt(m, AiLabel, i) {
      NoLabelBeforeSeparator(query, answer, i);
    }
    var found := Find(m, AiLabel, |UserLabel|);
    assert found == Some(sep);
    assert m[|UserLabel|..sep] == query;
    assert m[sep + |AiLabel|..] == answer;
  }
}
