# ocbotpy core in Dafny

This project models the logic inside ocbotpy's group chat bot. The bot passes each group
message that mentions it to a chat API and records every exchange with a separate memory
API. Every tenth turn it asks the memory API for a summary and relays that summary to the
chat API. It splits the chat answer into paragraphs and replaces the emotion keywords in
them with uploaded images. It then posts the resulting text and media messages with
increasing `msg_seq` numbers. A separate script, `gif2base64.py`, builds the keyword-to-image
table (`emotion_mapping`) from the `*.png` files in a directory.

Modules, one per concern of `ocbotpy/examples/test.py` and `ocbotpy/examples/gif2base64.py`:

- `Wrappers`: `Option`.
- `PyStrings`: the Python string behaviour the code relies on: `str.isspace`, `str.strip`,
  truthiness of an optional string and the substring test `in`. It also defines a leftmost
  literal search, `Find`, which the code does not call; the model uses it to read a
  formatted memory message back.
- `Conversation`: `read_conversation_id`, the id adoption rule and the answer fallbacks of
  `call_api` and `call_memory_api`, and the `用户：…\nAI：…` memory message.
- `EmotionSegment`: `replace_emotion_with_base64`. It is an imperative method proved equal
  to a fold over the mapping (`Segment`), and the fold's properties are proved.
- `Bookkeeping`: the process-wide state as a value (`BotState`: turn counter, flag file,
  both id files, the API lock bit, and the requests posted to each API). It defines one
  step function per async operation and proves lemmas over runs of them.
- `BotClient`: class `Bot`. It holds that state in fields updated in place; each method is
  proved to perform the matching `Bookkeeping` step.
- `Dispatch`: the upload-result check, the paragraph loop that builds `messages_to_send`,
  the send loop with `msg_seq`, and the voice reply.
- `EmotionConfig`: `update_config_with_base64`. It is an imperative loop over the file
  list, proved equal to `Merge`; the merge's properties are proved against an independent
  "first file that encodes" definition.

Where the code and its description disagree, the model follows the code.
- `replace_emotion_with_base64` shares one cursor across all keywords and never resets
  it, so a keyword that occurs before an earlier keyword's match can make text appear twice.
  The model keeps this (`EmotionSegment.SharedCursorReemitsText`).
- The summary relay as written cannot complete; see Findings. The rest of the model uses
  the corrected relay.

## Model

| member | source | states |
|---|---|---|
| PyStrings.LeadingSpace | ocbotpy/examples/test.py:64 | the whitespace prefix removed by `strip()` is all whitespace and is followed by a non-space character or the end |
| PyStrings.TrailingSpace | ocbotpy/examples/test.py:64 | the whitespace suffix removed by `strip()` is all whitespace and is preceded by a non-space character or the start |
| PyStrings.Strip | ocbotpy/examples/test.py:64 | `strip()` yields a slice of the text with only whitespace cut from both ends; it is empty exactly when the text is all whitespace, and otherwise neither begins nor ends with whitespace |
| PyStrings.Find | ocbotpy/examples/test.py:107 | the leftmost occurrence at or after a position, and none before it; not called by the code, it reads the message formatted here back into query and answer |
| Conversation.ReadConversationId | ocbotpy/examples/test.py:61-67 | `None` exactly when the file is missing or holds only whitespace; otherwise the stripped text, which is non-empty and has no surrounding whitespace |
| Conversation.WriteThenRead | ocbotpy/examples/test.py:61-72 | an id written by `write_conversation_id` without surrounding whitespace reads back unchanged |
| Conversation.AdoptId | ocbotpy/examples/test.py:92-97 | a stored id is never replaced; the file changes exactly when no id was stored and the response id is non-empty and differs, and then holds the response id |
| Conversation.StoredIdIsStable | ocbotpy/examples/test.py:93-96 | after an id is stored, no sequence of later responses replaces it |
| Conversation.AdoptedIdIsRead | ocbotpy/examples/test.py:130-134 | the adopted id is what the next call reads and sends |
| Conversation.ChatAnswer | ocbotpy/examples/test.py:88-102 | the fixed fallback text on any non-200 status; on 200 the response's answer, or the no-data text `没有返回数据` when the response has none; empty exactly when the API answered with an empty string |
| Conversation.MemoryAnswer | ocbotpy/examples/test.py:125-139 | `None` exactly on a non-200 status; on 200 the response's answer, or the no-data text when it has none; truthy exactly when the status is 200 and the answer is missing or non-empty |
| Conversation.FormatMemoryMessage | ocbotpy/examples/test.py:106-109 | with a truthy answer the message is the `用户：` label, the query, the `\nAI：` label at the end of the query, then the answer; otherwise the bare query |
| Conversation.NoLabelBeforeSeparator | ocbotpy/examples/test.py:106-109 | in a formatted memory message, no `\nAI：` label starts inside a query that does not contain it |
| Conversation.MemoryMessageRoundTrip | ocbotpy/examples/test.py:106-109 | `用户：{q}\nAI：{a}` splits back into `q` and `a` whenever `a` is non-empty and `q` does not contain `\nAI：` |
| EmotionSegment.Occurrences | ocbotpy/examples/test.py:280 | every reported match lies inside the paragraph, at or after the scan start |
| EmotionSegment.OccurrencesAreDisjointMatches | ocbotpy/examples/test.py:280-281 | every start `re.finditer` reports is a literal occurrence, in increasing order, without overlap |
| EmotionSegment.OccurrencesAreLeftmost | ocbotpy/examples/test.py:280-281 | every occurrence that is not reported starts inside one that is |
| EmotionSegment.EmitMatches | ocbotpy/examples/test.py:280-293 | the inner loop over one keyword's matches, with the cursor carried in and out, produces exactly `EmitAll` over the keyword's non-overlapping occurrences |
| EmotionSegment.EmitAppends | ocbotpy/examples/test.py:285-293 | one match keeps the earlier parts, appends the text between cursor and match only when the match starts after the cursor, then the image, and moves the cursor to the match's end |
| EmotionSegment.EmitAll | ocbotpy/examples/test.py:280-293 | the cursor stays within the paragraph while one keyword's matches are emitted |
| EmotionSegment.EmitAllGrows | ocbotpy/examples/test.py:280-293 | each match of one keyword appends at least one part; with no match nothing changes |
| EmotionSegment.ScanKeywords | ocbotpy/examples/test.py:278-293 | the cursor stays within the paragraph across the whole mapping |
| EmotionSegment.ScanGrows | ocbotpy/examples/test.py:278-293 | the mapping loop only appends parts, changes nothing when it appends none, and changes nothing on an empty paragraph |
| EmotionSegment.Flush | ocbotpy/examples/test.py:295-299 | the earlier parts are kept, and the non-empty rest of the paragraph after the cursor is appended exactly when the cursor is before its end |
| EmotionSegment.Segment | ocbotpy/examples/test.py:273-302 | the part list is empty exactly when the paragraph is empty |
| EmotionSegment.ReplaceEmotionWithBase64 | ocbotpy/examples/test.py:273-302 | the nested loops with the shared `last_match_end` cursor produce exactly `Segment` of the paragraph |
| EmotionSegment.CountImagesAppend | ocbotpy/examples/test.py:276-292 | image counts add up over concatenated part lists |
| EmotionSegment.EmitAllImages | ocbotpy/examples/test.py:280-292 | each match of one keyword appends exactly one image |
| EmotionSegment.ScanImages | ocbotpy/examples/test.py:278-292 | the mapping loop appends one image per match of every keyword |
| EmotionSegment.SegmentImageCount | ocbotpy/examples/test.py:276-299 | the number of image parts equals the total number of non-overlapping matches over all keywords |
| EmotionSegment.NoMatchScan | ocbotpy/examples/test.py:278-293 | when no keyword occurs, the mapping loop changes nothing |
| EmotionSegment.NoMatchSegment | ocbotpy/examples/test.py:276-299 | with no keyword occurring, the result is the paragraph as one text part, or nothing for an empty paragraph |
| EmotionSegment.EmitKeepsInv | ocbotpy/examples/test.py:285-293 | one match keeps every text part a non-empty slice of the paragraph, keeps texts non-adjacent, and leaves an image last |
| EmotionSegment.EmitAllKeepsInv | ocbotpy/examples/test.py:280-293 | the same holds for all matches of one keyword |
| EmotionSegment.ScanKeepsInv | ocbotpy/examples/test.py:278-293 | the same holds for the whole mapping loop |
| EmotionSegment.SegmentTextParts | ocbotpy/examples/test.py:285-299 | every text part is a non-empty slice `paragraph[a:b]`, and no two text parts are adjacent |
| EmotionSegment.RestoreAppend | ocbotpy/examples/test.py:276-299 | writing parts back as text distributes over concatenation |
| EmotionSegment.EmitRestores | ocbotpy/examples/test.py:285-293 | with one keyword, a match extends the rebuilt prefix of the paragraph to the match's end |
| EmotionSegment.EmitAllRestores | ocbotpy/examples/test.py:280-293 | with one keyword, all matches together rebuild the paragraph up to the cursor |
| EmotionSegment.SingleKeywordRoundTrip | ocbotpy/examples/test.py:277-299 | with a one-keyword mapping, writing each image back as the keyword and joining the parts gives the paragraph |
| EmotionSegment.MismatchAt | ocbotpy/examples/test.py:280 | a differing character rules out a match at that position |
| EmotionSegment.SmileExample | ocbotpy/examples/test.py:273-302 | `"hi [smile] bye"` becomes text, image, text |
| EmotionSegment.SharedCursorReemitsText | ocbotpy/examples/test.py:277-299 | a later keyword that occurs earlier moves the shared cursor back, so text already replaced by an image is emitted again |
| Bookkeeping.ChatStep | ocbotpy/examples/test.py:73-102 | with the lock held the call waits and nothing changes; otherwise one request goes out with the stored id and the answer is `ChatAnswer`; only the chat id file may change: a stored id is kept, and with none stored a 200 response's non-empty id is written; any change is such an adoption |
| Bookkeeping.MemoryStep | ocbotpy/examples/test.py:103-139 | one request goes out with the formatted message and the stored memory id, and the result is `MemoryAnswer`; a stored id is kept, with none stored a 200 response's non-empty id is written, a non-200 status or an empty id leaves the file alone; nothing else changes |
| Bookkeeping.RecordTurn | ocbotpy/examples/test.py:142-154 | the counter grows by one and only the memory id file and the memory requests may change besides; a summary answer is returned exactly when the new count is a multiple of 10 and the flag is absent; a stored memory id is kept |
| Bookkeeping.ProcessMemoryStep | ocbotpy/examples/test.py:140-167 | the counter grows by exactly one and the turn is recorded; a summary is requested only when the new counter is a multiple of 10 and the flag is absent; the flag becomes set exactly when a truthy summary is relayed, which is then the only chat request; the lock is left as it was; a stored memory id is kept, and the chat id file changes only through the relay and only when no chat id was stored |
| Bookkeeping.ProcessMemoryAsWritten | ocbotpy/examples/test.py:140-167 | as written, the counter grows by one, the flag and the chat side are untouched, and the lock ends up held exactly when it was held before or a truthy summary was due |
| Bookkeeping.SummaryRelayDeadlocks | ocbotpy/examples/test.py:156-165 | as written, a truthy summary leaves the lock held, nothing relayed, no flag, and every later chat call blocked; the corrected step relays once, sets the flag and frees the lock |
| Bookkeeping.GroupMessageStep | ocbotpy/examples/test.py:339-353 | the handler hangs exactly when the lock is held; a relay in progress drops the message; otherwise it replies exactly when the answer is non-empty, with that answer, by voice exactly when the query contains `-v`; the state afterwards is the chat call's, followed by `process_memory` exactly when a reply goes out, so the counter grows exactly then |
| Bookkeeping.GroupMessageFlag | ocbotpy/examples/test.py:339-353 | because the handler removes the flag first, afterwards the flag is set exactly when the message was replied to, its turn landed on a multiple of 10 and the summary answer was truthy |
| Bookkeeping.CounterCountsTurns | ocbotpy/examples/test.py:142-143 | n runs of `process_memory` raise the counter by n |
| Bookkeeping.FlagSuppressesSummaries | ocbotpy/examples/test.py:148-152 | while the flag is set, each run posts only its turn record, nothing goes to the chat API, and the flag stays set |
| Bookkeeping.AtMostOneRelayBetweenMessages | ocbotpy/examples/test.py:148-165 | between two inbound messages at most one summary is relayed |
| BotClient.Bot.constructor | ocbotpy/examples/test.py:55-59 | the counter starts at 0 and the lock free; the files are as found |
| BotClient.Bot.CallApi | ocbotpy/examples/test.py:73-102 | updates the fields exactly as `ChatStep` and returns its outcome |
| BotClient.Bot.CallMemoryApi | ocbotpy/examples/test.py:103-139 | updates the fields exactly as `MemoryStep` and returns its answer |
| BotClient.Bot.ProcessMemory | ocbotpy/examples/test.py:140-167 | updates the fields exactly as the corrected `ProcessMemoryStep` |
| BotClient.Bot.OnGroupAtMessageCreate | ocbotpy/examples/test.py:339-353 | updates the fields exactly as `GroupMessageStep` and returns its reply |
| Dispatch.AcceptUpload | ocbotpy/examples/test.py:316-320 | an upload (of an image here, of the audio at lines 367-370) is used exactly when it returned and `file_uuid`, `file_info` and `ttl` are all truthy; the media then carries those values |
| Dispatch.QueueParts | ocbotpy/examples/test.py:406-412 | the loop over one paragraph's parts uploads exactly its image payloads, in order, and queues exactly `Queue` of its parts, each upload answered by the response with its running number |
| Dispatch.BuildMessages | ocbotpy/examples/test.py:402-412 | the paragraph loop segments every paragraph, uploads exactly the image payloads of all paragraphs in order, and queues each paragraph's messages after those of the paragraphs before it |
| Dispatch.EnqueueKeepsText | ocbotpy/examples/test.py:407-412 | one part queues its own text, or one media message when it is an image whose upload is accepted, or nothing |
| Dispatch.QueueKeepsTexts | ocbotpy/examples/test.py:406-412 | a failed upload drops only its image: the text messages queued are exactly the text parts, in order |
| Dispatch.QueueLength | ocbotpy/examples/test.py:406-412 | the queue holds one message per text part plus one per accepted upload |
| Dispatch.ReplyKeepsTexts | ocbotpy/examples/test.py:402-412 | whatever the uploads return, the reply's text messages are exactly the text parts of all paragraphs, in order |
| Dispatch.SendAll | ocbotpy/examples/test.py:400-438 | every queued message is posted once, in order; each post carries 21314 plus 5 per earlier post that returned |
| Dispatch.DeliveredSeqsLength | ocbotpy/examples/test.py:414-438 | one delivered `msg_seq` per post that returned |
| Dispatch.DeliveredSeqsConsecutive | ocbotpy/examples/test.py:400-438 | the messages that went out carry 21314, 21319, 21324, … in send order |
| Dispatch.NextMsgSeq | ocbotpy/examples/test.py:435-438 | a post that raises leaves the next post the same `msg_seq`; one that returns moves it on by 5 |
| Dispatch.SendTextReply | ocbotpy/examples/test.py:396-440 | the text reply uploads every image payload in order and posts the queued messages in order, numbered as `SendAll` |
| Dispatch.VoiceMessage | ocbotpy/examples/test.py:353-395 | a voice message is sent exactly when the audio is truthy and its upload is accepted, and it carries `msg_seq` 21314 |
| EmotionConfig.LastDot | ocbotpy/examples/gif2base64.py:51 | the position of the last `.`, with no `.` after it, or none at all |
| EmotionConfig.Stem | ocbotpy/examples/gif2base64.py:51 | `splitext(name)[0]` is a prefix of the name; when shorter, it is followed by the last `.` and is not all dots |
| EmotionConfig.PngStem | ocbotpy/examples/gif2base64.py:39-51 | a `*.png` name that does not start with a dot has the name without `.png` as its key |
| EmotionConfig.FirstSuccess | ocbotpy/examples/gif2base64.py:49-63 | the first file with a given stem that encodes to a non-empty string, and none before it |
| EmotionConfig.MergeEntry | ocbotpy/examples/gif2base64.py:49-64 | each key after the merge holds its old payload, or else the encoding of the first file with that stem that encodes; no other keys appear |
| EmotionConfig.Merge | ocbotpy/examples/gif2base64.py:49-64 | a key already in `emotion_mapping` keeps its payload; every added entry holds a non-empty encoding; at most one entry is added per file |
| EmotionConfig.KeyOrigin | ocbotpy/examples/gif2base64.py:49-63 | every new key is the stem of a listed file whose encoding succeeded, and holds that encoding |
| EmotionConfig.FailedEncodingsAddNothing | ocbotpy/examples/gif2base64.py:59-64 | files whose encodings all give `None` or an empty string add no entry |
| EmotionConfig.FirstFileWins | ocbotpy/examples/gif2base64.py:49-63 | among files sharing a new stem, the first one that encodes supplies the entry |
| EmotionConfig.MergeIdempotent | ocbotpy/examples/gif2base64.py:49-64 | merging the same files a second time changes nothing |
| EmotionConfig.UpdateConfigWithBase64 | ocbotpy/examples/gif2base64.py:20-72 | nothing is written when the read fails or there are no png files; otherwise the written config is the read one (a missing file or empty document as `{}`) with only `emotion_mapping` replaced by the merge, starting from `{}` when it was absent |

## Left out

- HTTP: the chat and memory requests are not modelled. Their outcome is an `ApiResponse` input (status, `answer`, `conversation_id`), and the posted request is recorded in the state. Exceptions from `requests.post` and JSON decoding are not modelled.
- Concurrency: `create_task`, `run_in_executor` and interleavings of several handlers are not modelled. `process_memory` runs to completion inside the handler that starts it. `api_call_lock` is a bit: acquiring it while held waits for ever (`Blocked`/`Hung`). That a relay holds it during the `locked()` check is an input, `relayInProgress`.
- Speech synthesis, SSML, PyAV decoding and SILK encoding (`ocbotpy/examples/test.py:169-272`): foreign libraries. The voice path takes the resulting base64 audio as an input.
- base64 encoding and file reading (`gif_to_base64`): foreign calls. They are the input `encode`, a pure function of the file name. A read that fails is an `encode` result of `None`.
- botpy SDK calls (`post_group_file`, `post_group_message`): only their outcome is modelled, as an `UploadResponse` per upload and a set of posts that raise. Request fields other than `msg_seq` and the media are not modelled.
- The paragraph split `re.split(r"\n\s*\n+", answer.strip())` is not modelled: regex-engine behaviour. The text reply takes the paragraph list as given.
- YAML reading and writing, `glob` and `os.path.exists`/`os.remove`: file I/O. The read outcome, the file list in glob order, and the presence of the flag and id files are inputs or state. A failed write at `gif2base64.py:67-72` is not distinguished from a successful one.
- EmotionConfig.Config: other top-level config values are modelled as strings. Key order after `yaml.dump` (which sorts keys) is not modelled; `emotion_mapping` is a map.
- EmotionSegment.ValidKeywords: keywords are required to be non-empty. An empty keyword makes `re.finditer` match at every position, and that case is not modelled.
- An `emotion_mapping` that is present but not a dictionary, and JSON `null` values for `answer` or `conversation_id`, are not modelled: the source would fail with a type error or pass `None` on.
- Logging and `print` output are not modelled.
- `read_conversation_id` catches only `FileNotFoundError`: a `PermissionError` or a `UnicodeDecodeError` while reading propagates to the caller, and so does any error of `write_conversation_id`. The model has no such failures: an id file is missing or holds a string.
- Text-mode reading turns `\r\n` and `\r` into `\n`. The id file content is modelled as the text after that translation.
- `relayInProgress` (`api_call_lock.locked()` at `ocbotpy/examples/test.py:346`): in the source as written this check can never be true. `call_api` releases the lock before it returns, and between its return and the check there is no `await` at which another task could take it. The model keeps the check as an input, so `Dropped` is reachable in the model only.
- Persistence of the turn counter across restarts is not modelled, because the source does not persist it.

## Findings

| source | as written | input that shows it | evidently intended | confidence | as-written member | corrected member |
|---|---|---|---|---|---|---|
| ocbotpy/examples/test.py:158-160 | `process_memory` holds `api_call_lock` and then awaits `call_api`, which acquires the same non-reentrant `asyncio.Lock` at line 83 | the 10th turn with the flag file absent and a non-empty summary from the memory API | relay the summary once, write the flag file, and release the lock | high, not executed | Bookkeeping.ProcessMemoryAsWritten, Bookkeeping.SummaryRelayDeadlocks | Bookkeeping.ProcessMemoryStep |
