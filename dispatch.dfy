/** The outbound half of `on_group_at_message_create` (ocbotpy/examples/test.py:305-334,
    353-438): validating upload results, turning the segmented paragraphs of an answer into
    the queue of text and media messages, and numbering the sends with `msg_seq`. The
    platform SDK is left out: each upload's response and whether each post raises are
    inputs. */
module Dispatch {
  import opened Wrappers
  import opened PyStrings
  import opened EmotionSegment

  /** `msg_seq` of the first message of a reply, and the step after each successful send. */
  const FirstMsgSeq: int := 21314
  const MsgSeqStep: int := 5

  /** What `post_group_file` gave back: it raised, or it returned a dict whose `file_uuid`,
      `file_info` and `ttl` entries may be missing. */
  datatype UploadResponse =
    | UploadRaised
    | UploadReturned(fileUuid: Option<string>, fileInfo: Option<string>, ttl: Option<int>)

  /** The media dict posted with `msg_type=7`. */
  datatype Media = Media(fileUuid: string, fileInfo: string, ttl: int)

  /** The field check of `upload_and_build_media_message` and of the voice path: an upload is
      used exactly when it returned and all three fields are truthy, and the media then
      carries those fields unchanged. */
  function AcceptUpload(r: UploadResponse): (media: Option<Media>)
    ensures media.Some? <==> && r.UploadReturned?
                             && Truthy(r.fileUuid) && Truthy(r.fileInfo)
                             && r.ttl.Some? && r.ttl.value != 0
    ensures media.Some? ==>
              && r.fileUuid == Some(media.value.fileUuid) && media.value.fileUuid != []
              && r.fileInfo == Some(media.value.fileInfo) && media.value.fileInfo != []
              && r.ttl == Some(media.value.ttl) && media.value.ttl != 0
  {
    match r
    case UploadRaised => None
    case UploadReturned(fileUuid, fileInfo, ttl) =>
      if Truthy(fileUuid) && Truthy(fileInfo) && ttl.Some? && ttl.value != 0
      then Some(Media(fileUuid.value, fileInfo.value, ttl.value))
      else None
  }

  /** An entry of `messages_to_send`. */
  datatype OutMessage = TextMessage(content: string) | MediaMessage(media: Media)

  /** The payloads of the image parts, in order: what gets uploaded. */
  function Images(parts: seq<Part>): seq<string> {
    if |parts| == 0 then []
    else
      Images(parts[..|parts| - 1])
      + match parts[|parts| - 1] case Image(payload) => [payload] case Text(_) => []
  }

  /** The messages queued for one part, given the response to its upload when it is an
      image: a text part queues a text message, an image part a media message only when its
      upload is accepted. */
  function Enqueue(part: Part, upload: UploadResponse): seq<OutMessage> {
    match part
    case Text(t) => [TextMessage(t)]
    case Image(_) => match AcceptUpload(upload) case Some(m) => [MediaMessage(m)] case None => []
  }

  /** The messages queued for `parts`, where `uploads(n)` is the response to the n-th upload
      of this reply and `k` uploads came before. */
  function Queue(parts: seq<Part>, uploads: nat -> UploadResponse, k: nat): seq<OutMessage> {
    if |parts| == 0 then []
    else
      var init := parts[..|parts| - 1];
      Queue(init, uploads, k) + Enqueue(parts[|parts| - 1], uploads(k + |Images(init)|))
  }

  /** The loop over one paragraph's parts (lines 406-412), after `k` earlier uploads: a text
      part is queued as is; an image part is uploaded and queued when the upload is
      accepted. */
  method QueueParts(parts: seq<Part>, uploads: nat -> UploadResponse, k: nat)
    returns (messages: seq<OutMessage>, uploaded: seq<string>)
    ensures uploaded == Images(parts)
    ensures messages == Queue(parts, uploads, k)
  {
    messages, uploaded := [], [];
    for j := 0 to |parts|
      invariant uploaded == Images(parts[..j])
      invariant messages == Queue(parts[..j], uploads, k)
    {
      assert parts[..j + 1][..j] == parts[..j];
      match parts[j]
      case Text(t) =>
        messages := messages + [TextMessage(t)];
      case Image(payload) =>
        var media := AcceptUpload(uploads(k + |uploaded|));
        uploaded := uploaded + [payload];
        if media.Some? {
          messages := messages + [MediaMessage(media.value)];
        }
    }
    assert parts[..|parts|] == parts;
  }

  /** The payloads a reply uploads, paragraph by paragraph. */
  function Uploaded(paragraphs: seq<string>, mapping: Mapping): seq<string>
    requires ValidKeywords(mapping)
  {
    if |paragraphs| == 0 then []
    else
      Uploaded(paragraphs[..|paragraphs| - 1], mapping)
      + Images(Segment(paragraphs[|paragraphs| - 1], mapping))
  }

  /** The queue of a reply: each paragraph's parts, queued after the uploads of the
      paragraphs before it. */
  function Queued(paragraphs: seq<string>, mapping: Mapping, uploads: nat -> UploadResponse): seq<OutMessage>
    requires ValidKeywords(mapping)
  {
    if |paragraphs| == 0 then []
    else
      var init := paragraphs[..|paragraphs| - 1];
      Queued(init, mapping, uploads)
      + Queue(Segment(paragraphs[|paragraphs| - 1], mapping), uploads, |Uploaded(init, mapping)|)
  }

  /** The paragraph loop of lines 402-412: segments every paragraph with
      `replace_emotion_with_base64` and queues its parts. Returns the queue and the payloads
      uploaded. */
  method BuildMessages(paragraphs: seq<string>, mapping: Mapping, uploads: nat -> UploadResponse)
    returns (messages: seq<OutMessage>, uploaded: seq<string>)
    requires ValidKeywords(mapping)
    ensures uploaded == Uploaded(paragraphs, mapping)
    ensures messages == Queued(paragraphs, mapping, uploads)
  {
    messages, uploaded := [], [];
    for i := 0 to |paragraphs|
      invariant uploaded == Uploaded(paragraphs[..i], mapping)
      invariant messages == Queued(paragraphs[..i], mapping, uploads)
    {
      var parts := ReplaceEmotionWithBase64(paragraphs[i], mapping);
      var queued, sent := QueueParts(parts, uploads, |uploaded|);
      assert paragraphs[..i + 1][..i] == paragraphs[..i];
      messages, uploaded := messages + queued, uploaded + sent;
    }
    assert paragraphs[..|paragraphs|] == paragraphs;
  }

  /** The text parts' contents, in order. */
  function Texts(parts: seq<Part>): seq<string> {
    if |parts| == 0 then []
    else
      Texts(parts[..|parts| - 1])
      + match parts[|parts| - 1] case Text(t) => [t] case Image(_) => []
  }

  /** The text messages' contents, in order. */
  function TextContents(messages: seq<OutMessage>): seq<string> {
    if |messages| == 0 then []
    else
      TextContents(messages[..|messages| - 1])
      + match messages[|messages| - 1] case TextMessage(t) => [t] case MediaMessage(_) => []
  }

  /** How many of the uploads `k`, ..., `k + n - 1` are accepted. */
  function Accepted(uploads: nat -> UploadResponse, k: nat, n: nat): nat {
    if n == 0 then 0 else Accepted(uploads, k, n - 1) + (if AcceptUpload(uploads(k + n - 1)).Some? then 1 else 0)
  }

  lemma AcceptedStep(uploads: nat -> UploadResponse, k: nat, n: nat)
    ensures Accepted(uploads, k, n + 1)
         == Accepted(uploads, k, n) + (if AcceptUpload(uploads(k + n)).Some? then 1 else 0)
  {
  }

  lemma {:induction false} TextContentsAppend(a: seq<OutMessage>, b: seq<OutMessage>)
    decreases |b|
    ensures TextContents(a + b) == TextContents(a) + TextContents(b)
  {
    if |b| == 0 {
      assert a + b == a;
    } else {
      var init := b[..|b| - 1];
      assert (a + b)[..|a + b| - 1] == a + init;
      assert (a + b)[|a + b| - 1] == b[|b| - 1];
      TextContentsAppend(a, init);
    }
  }

  /** One part's queued messages: its text if it is a text part, and one media message if it
      is an image whose upload is accepted. */
  lemma EnqueueKeepsText(part: Part, upload: UploadResponse)
    ensures TextContents(Enqueue(part, upload)) == Texts([part])
    ensures |Enqueue(part, upload)|
         == |Texts([part])| + (if part.Image? && AcceptUpload(upload).Some? then 1 else 0)
  {
    assert [part][..0] == [];
    var queued := Enqueue(part, upload);
    if |queued| == 1 {
      assert queued[..0] == [];
    }
  }

  /** Removing the last part from a non-empty list. */
  lemma LastPartStep(parts: seq<Part>)
    requires |parts| != 0
    ensures var init, last := parts[..|parts| - 1], parts[|parts| - 1];
      && Texts(parts) == Texts(init) + Texts([last])
      && |Images(parts)| == |Images(init)| + (if last.Image? then 1 else 0)
  {
    var init, last := parts[..|parts| - 1], parts[|parts| - 1];
    assert [last][..0] == [];
  }

  /** A failed upload drops only its own image: the queue holds every text part, in order. */
  lemma {:induction false} QueueKeepsTexts(parts: seq<Part>, uploads: nat -> UploadResponse, k: nat)
    decreases |parts|
    ensures TextContents(Queue(parts, uploads, k)) == Texts(parts)
  {
    if |parts| != 0 {
      var init, last := parts[..|parts| - 1], parts[|parts| - 1];
      var before, queued := Queue(init, uploads, k), Enqueue(last, uploads(k + |Images(init)|));
      calc {
        TextContents(Queue(parts, uploads, k));
        TextContents(before + queued);
        { TextContentsAppend(before, queued); }
        TextContents(before) + TextContents(queued);
        { QueueKeepsTexts(init, uploads, k);
          EnqueueKeepsText(last, uploads(k + |Images(init)|)); }
        Texts(init) + Texts([last]);
        { LastPartStep(parts); }
        Texts(parts);
      }
    }
  }

  /** Besides the texts, the queue holds one media message per accepted upload. */
  lemma {:induction false} QueueLength(parts: seq<Part>, uploads: nat -> UploadResponse, k: nat)
    decreases |parts|
    ensures |Queue(parts, uploads, k)| == |Texts(parts)| + Accepted(uploads, k, |Images(parts)|)
  {
    if |parts| != 0 {
      var init, last := parts[..|parts| - 1], parts[|parts| - 1];
      var n := |Images(init)|;
      var queued := Enqueue(last, uploads(k + n));
      assert |Queue(parts, uploads, k)| == |Queue(init, uploads, k)| + |queued|;
      QueueLength(init, uploads, k);
      EnqueueKeepsText(last, uploads(k + n));
      LastPartStep(parts);
      AcceptedStep(uploads, k, n);
    }
  }

  /** The text parts of a reply's paragraphs, in order. */
  function ReplyTexts(paragraphs: seq<string>, mapping: Mapping): seq<string>
    requires ValidKeywords(mapping)
  {
    if |paragraphs| == 0 then []
    else
      ReplyTexts(paragraphs[..|paragraphs| - 1], mapping)
      + Texts(Segment(paragraphs[|paragraphs| - 1], mapping))
  }

  /** Whatever the uploads return, every text part of every paragraph is queued, in order. */
  lemma {:induction false} ReplyKeepsTexts(paragraphs: seq<string>, mapping: Mapping, uploads: nat -> UploadResponse)
    requires ValidKeywords(mapping)
    decreases |paragraphs|
    ensures TextContents(Queued(paragraphs, mapping, uploads)) == ReplyTexts(paragraphs, mapping)
  {
    if |paragraphs| != 0 {
      var init := paragraphs[..|paragraphs| - 1];
      var parts := Segment(paragraphs[|paragraphs| - 1], mapping);
      var k := |Uploaded(init, mapping)|;
      ReplyKeepsTexts(init, mapping, uploads);
      QueueKeepsTexts(parts, uploads, k);
      TextContentsAppend(Queued(init, mapping, uploads), Queue(parts, uploads, k));
    }
  }

  /** One post of the send loop: the message, the `msg_seq` it was posted with, and whether
      the post returned (`false`: it raised and the exception was logged). */
  datatype Attempt = Attempt(message: OutMessage, msgSeq: int, delivered: bool)

  /** How many attempts returned. */
  function DeliveredCount(log: seq<Attempt>): nat {
    if |log| == 0 then 0 else DeliveredCount(log[..|log| - 1]) + (if log[|log| - 1].delivered then 1 else 0)
  }

  /** Every attempt is numbered 21314 plus 5 per earlier attempt that returned. */
  predicate Numbered(log: seq<Attempt>) {
    forall i :: 0 <= i < |log| ==> log[i].msgSeq == FirstMsgSeq + MsgSeqStep * DeliveredCount(log[..i])
  }

  /** The send loop of lines 414-438: posts every queued message in order; the `i`-th post
      raises exactly when `i` is in `raises`, and only a post that returns advances
      `current_msg_seq`. */
  method SendAll(messages: seq<OutMessage>, raises: set<nat>) returns (log: seq<Attempt>)
    ensures |log| == |messages|
    ensures forall i :: 0 <= i < |log| ==> log[i].message == messages[i] && (log[i].delivered <==> i !in raises)
    ensures Numbered(log)
  {
    var currentMsgSeq := FirstMsgSeq;
    log := [];
    for i := 0 to |messages|
      invariant |log| == i
      invariant forall j :: 0 <= j < i ==> log[j].message == messages[j] && (log[j].delivered <==> j !in raises)
      invariant Numbered(log)
      invariant currentMsgSeq == FirstMsgSeq + MsgSeqStep * DeliveredCount(log)
    {
      var delivered := i !in raises;
      var attempt := Attempt(messages[i], currentMsgSeq, delivered);
      NumberedSnoc(log, attempt);
      log := log + [attempt];
      if delivered {
        currentMsgSeq := currentMsgSeq + MsgSeqStep;
      }
    }
  }

  /** An attempt numbered after the ones that returned before it keeps the log numbered. */
  lemma NumberedSnoc(log: seq<Attempt>, attempt: Attempt)
    requires Numbered(log)
    requires attempt.msgSeq == FirstMsgSeq + MsgSeqStep * DeliveredCount(log)
    ensures Numbered(log + [attempt])
    ensures DeliveredCount(log + [attempt]) == DeliveredCount(log) + (if attempt.delivered then 1 else 0)
  {
    var next := log + [attempt];
    assert next[..|log|] == log;
    forall j | 0 <= j < |log|
      ensures next[..j] == log[..j]
    {
    }
  }

  /** The `msg_seq` values of the attempts that returned, in order. */
  function DeliveredSeqs(log: seq<Attempt>): seq<int> {
    if |log| == 0 then []
    else DeliveredSeqs(log[..|log| - 1]) + (if log[|log| - 1].delivered then [log[|log| - 1].msgSeq] else [])
  }

  lemma {:induction false} DeliveredSeqsLength(log: seq<Attempt>)
    ensures |DeliveredSeqs(log)| == DeliveredCount(log)
  {
    if |log| != 0 {
      DeliveredSeqsLength(log[..|log| - 1]);
    }
  }

  /** The messages that went out carry 21314, 21319, 21324, ... in send order, with no gap
      for a post that raised. */
  lemma {:induction false} DeliveredSeqsConsecutive(log: seq<Attempt>)
    requires Numbered(log)
    ensures forall k :: 0 <= k < |DeliveredSeqs(log)| ==> DeliveredSeqs(log)[k] == FirstMsgSeq + MsgSeqStep * k
  {
    if |log| != 0 {
      var init := log[..|log| - 1];
      assert Numbered(init) by {
        forall i | 0 <= i < |init|
          ensures init[i].msgSeq == FirstMsgSeq + MsgSeqStep * DeliveredCount(init[..i])
        {
          assert init[..i] == log[..i];
        }
      }
      DeliveredSeqsConsecutive(init);
      DeliveredSeqsLength(init);
      assert log[..|log| - 1] == init;
    }
  }

  /** A post that raises leaves the next message the same `msg_seq`; one that returns moves
      it on by 5. */
  lemma NextMsgSeq(log: seq<Attempt>, i: nat)
    requires Numbered(log) && i + 1 < |log|
    ensures log[i + 1].msgSeq == log[i].msgSeq + (if log[i].delivered then MsgSeqStep else 0)
  {
    assert log[..i + 1][..i] == log[..i];
  }

  /** The text reply of lines 396-440: queue the paragraphs' messages, then send them. */
  method SendTextReply(paragraphs: seq<string>, mapping: Mapping, uploads: nat -> UploadResponse, raises: set<nat>)
    returns (log: seq<Attempt>, uploaded: seq<string>)
    requires ValidKeywords(mapping)
    ensures uploaded == Uploaded(paragraphs, mapping)
    ensures |log| == |Queued(paragraphs, mapping, uploads)|
    ensures forall i :: 0 <= i < |log| ==>
              && log[i].message == Queued(paragraphs, mapping, uploads)[i]
              && (log[i].delivered <==> i !in raises)
    ensures Numbered(log)
  {
    var messages;
    messages, uploaded := BuildMessages(paragraphs, mapping, uploads);
    log := SendAll(messages, raises);
  }

  /** The voice reply of lines 353-395: with a truthy SILK payload and an accepted upload
      (`file_type=3`), one media message goes out with `msg_seq` 21314; otherwise nothing is
      sent. */
  function VoiceMessage(audio: Option<string>, upload: UploadResponse): (r: Option<(Media, int)>)
    ensures r.Some? <==> Truthy(audio) && AcceptUpload(upload).Some?
    ensures r.Some? ==> r.value == (AcceptUpload(upload).value, FirstMsgSeq)
  {
    if !Truthy(audio) then None
    else
      match AcceptUpload(upload)
      case None => None
      case Some(media) => Some((media, FirstMsgSeq))
  }
}
