/** Splitting one reply paragraph into text parts and emotion images
    (`replace_emotion_with_base64` in ocbotpy/examples/test.py).

    The source walks the emotion mapping in order and, for every keyword, every leftmost
    non-overlapping literal occurrence of it in the paragraph. Each occurrence appends the
    text between the cursor `last_match_end` and the occurrence (when the occurrence starts
    after the cursor) and then the keyword's image; the cursor then moves to the end of the
    occurrence. The cursor is shared by all keywords and never reset, so a later keyword that
    occurs earlier in the paragraph moves it backwards, and the text after it is emitted again
    at the end. The model keeps that behaviour. */
module EmotionSegment {
  import opened PyStrings

  /** One message part: `("text", s)` or `("image", payload)`. */
  datatype Part = Text(text: string) | Image(payload: string)

  /** The emotion mapping in its iteration order: keyword and base64 image payload. */
  type Mapping = seq<(string, string)>

  /** Every keyword is non-empty (an empty pattern would match at every position). */
  predicate ValidKeywords(mapping: Mapping) {
    forall i :: 0 <= i < |mapping| ==> mapping[i].0 != []
  }

  /** Start positions of the leftmost non-overlapping occurrences of `k` in `p` at or after
      `from`, in the order `re.finditer(re.escape(k), p)` reports them (characterised by
      `OccurrencesAreDisjointMatches` and `OccurrencesAreLeftmost`). */
  function Occurrences(p: string, k: string, from: nat): (r: seq<nat>)
    requires k != []
    decreases |p| - from
    ensures forall j :: 0 <= j < |r| ==> from <= r[j] && r[j] + |k| <= |p|
  {
    if from + |k| > |p| then []
    else if OccursAt(p, k, from) then [from] + Occurrences(p, k, from + |k|)
    else Occurrences(p, k, from + 1)
  }

  /** Every start `re.finditer` reports is an occurrence, and the reported occurrences are in
      order and do not overlap. */
  lemma {:induction false} OccurrencesAreDisjointMatches(p: string, k: string, from: nat)
    requires k != []
    decreases |p| - from
    ensures forall j :: 0 <= j < |Occurrences(p, k, from)| ==> OccursAt(p, k, Occurrences(p, k, from)[j])
    ensures forall j :: 0 <= j < |Occurrences(p, k, from)| - 1 ==>
              Occurrences(p, k, from)[j] + |k| <= Occurrences(p, k, from)[j + 1]
  {
    if from + |k| > |p| {
    } else if OccursAt(p, k, from) {
      OccurrencesAreDisjointMatches(p, k, from + |k|);
      var rest := Occurrences(p, k, from + |k|);
      var r := Occurrences(p, k, from);
      assert r == [from] + rest;
      forall j | 0 <= j < |r| ensures OccursAt(p, k, r[j]) {
        if j > 0 { assert r[j] == rest[j - 1]; }
      }
      forall j | 0 <= j < |r| - 1 ensures r[j] + |k| <= r[j + 1] {
        assert r[j + 1] == rest[j];
        if j > 0 { assert r[j] == rest[j - 1]; }
      }
    } else {
      OccurrencesAreDisjointMatches(p, k, from + 1);
      assert Occurrences(p, k, from) == Occurrences(p, k, from + 1);
    }
  }

  /** No occurrence is missed: every occurrence at or after `from` that `re.finditer` does not
      report starts inside one it does report. */
  lemma {:induction false} OccurrencesAreLeftmost(p: string, k: string, from: nat, q: nat)
    requires k != []
    requires from <= q && OccursAt(p, k, q)
    decreases |p| - from
    ensures exists j :: 0 <= j < |Occurrences(p, k, from)| &&
              Occurrences(p, k, from)[j] <= q < Occurrences(p, k, from)[j] + |k|
  {
    var r := Occurrences(p, k, from);
    if OccursAt(p, k, from) {
      var rest := Occurrences(p, k, from + |k|);
      assert r == [from] + rest;
      if q < from + |k| {
        assert 0 < |r| && r[0] == from;
      } else {
        OccurrencesAreLeftmost(p, k, from + |k|, q);
        var j :| 0 <= j < |rest| && rest[j] <= q < rest[j] + |k|;
        assert r[j + 1] == rest[j];
      }
    } else {
      assert q != from && from + |k| <= |p|;
      OccurrencesAreLeftmost(p, k, from + 1, q);
      assert r == Occurrences(p, k, from + 1);
    }
  }

  /** The loop state of the source: the parts so far and the shared cursor `last_match_end`. */
  datatype Scan = Scan(parts: seq<Part>, cursor: nat)

  /** One match at `[start, end)` with the keyword's `payload`. */
  function Emit(p: string, st: Scan, start: nat, end: nat, payload: string): Scan
    requires st.cursor <= |p| && start <= end <= |p|
  {
    Scan(st.parts + (if start > st.cursor then [Text(p[st.cursor..start])] else [])
           + [Image(payload)],
         end)
  }

  /** A match leaves the earlier parts alone, appends the text between the cursor and the
      match only when the match starts after the cursor, then the image, and moves the cursor
      to the match's end. */
  lemma EmitAppends(p: string, st: Scan, start: nat, end: nat, payload: string)
    requires st.cursor <= |p| && start <= end <= |p|
    ensures var r := Emit(p, st, start, end, payload);
            && r.cursor == end
            && |r.parts| == |st.parts| + (if start > st.cursor then 2 else 1)
            && r.parts[..|st.parts|] == st.parts
            && (start > st.cursor ==> r.parts[|st.parts|] == Text(p[st.cursor..start]))
            && r.parts[|r.parts| - 1] == Image(payload)
  {
  }

  /** The matches of one keyword of length `len`, starting at `starts`, in order. */
  function EmitAll(p: string, st: Scan, starts: seq<nat>, len: nat, payload: string): (r: Scan)
    requires st.cursor <= |p|
    requires forall j :: 0 <= j < |starts| ==> starts[j] + len <= |p|
    ensures r.cursor <= |p|
    decreases |starts|
  {
    if starts == [] then st
    else EmitAll(p, Emit(p, st, starts[0], starts[0] + len, payload), starts[1..], len, payload)
  }

  /** The outer loop over the mapping, continuing from scan state `st`. */
  function ScanKeywords(p: string, mapping: Mapping, st: Scan): (r: Scan)
    requires ValidKeywords(mapping) && st.cursor <= |p|
    ensures r.cursor <= |p|
  {
    if mapping == [] then st
    else
      var (k, payload) := mapping[0];
      ScanKeywords(p, mapping[1..], EmitAll(p, st, Occurrences(p, k, 0), |k|, payload))
  }

  /** The text after the cursor, if any, closes the part list. */
  function Flush(p: string, st: Scan): (r: seq<Part>)
    requires st.cursor <= |p|
    ensures |r| == |st.parts| + (if st.cursor < |p| then 1 else 0)
    ensures r[..|st.parts|] == st.parts
    ensures st.cursor < |p| ==> r[|r| - 1] == Text(p[st.cursor..]) && p[st.cursor..] != []
  {
    if st.cursor < |p| then st.parts + [Text(p[st.cursor..])] else st.parts
  }

  /** The parts `replace_emotion_with_base64(p)` returns under `mapping`. */
  function Segment(p: string, mapping: Mapping): (r: seq<Part>)
    requires ValidKeywords(mapping)
    ensures r == [] <==> p == []
  {
    ScanGrows(p, mapping, Scan([], 0));
    Flush(p, ScanKeywords(p, mapping, Scan([], 0)))
  }

  /** Every match appends at least one part, so the parts only grow, and they grow whenever
      the cursor moves. */
  lemma {:induction false} EmitAllGrows(p: string, st: Scan, starts: seq<nat>, len: nat, payload: string)
    requires st.cursor <= |p|
    requires forall j :: 0 <= j < |starts| ==> starts[j] + len <= |p|
    decreases |starts|
    ensures |EmitAll(p, st, starts, len, payload).parts| >= |st.parts| + |starts|
    ensures starts == [] ==> EmitAll(p, st, starts, len, payload) == st
  {
    if starts != [] {
      EmitAllGrows(p, Emit(p, st, starts[0], starts[0] + len, payload), starts[1..], len, payload);
    }
  }

  /** The same over the whole mapping; an empty paragraph has no matches at all. */
  lemma {:induction false} ScanGrows(p: string, mapping: Mapping, st: Scan)
    requires ValidKeywords(mapping) && st.cursor <= |p|
    ensures |ScanKeywords(p, mapping, st).parts| >= |st.parts|
    ensures |ScanKeywords(p, mapping, st).parts| == |st.parts| ==> ScanKeywords(p, mapping, st) == st
    ensures |p| == 0 ==> ScanKeywords(p, mapping, st) == st
  {
    if mapping != [] {
      var (k, payload) := mapping[0];
      var starts := Occurrences(p, k, 0);
      EmitAllGrows(p, st, starts, |k|, payload);
      ScanGrows(p, mapping[1..], EmitAll(p, st, starts, |k|, payload));
    }
  }

  /** What is left of one keyword's pass once the scan has reached `pos`. */
  function EmitFrom(p: string, k: string, payload: string, st: Scan, pos: nat): Scan
    requires k != [] && st.cursor <= |p|
  {
    EmitAll(p, st, Occurrences(p, k, pos), |k|, payload)
  }

  /** A match at `pos` is the first one reported from `pos`: it is emitted and the scan goes
      on after it. */
  lemma MatchStep(p: string, k: string, payload: string, st: Scan, pos: nat)
    requires k != [] && st.cursor <= |p| && OccursAt(p, k, pos)
    ensures EmitFrom(p, k, payload, st, pos)
            == EmitFrom(p, k, payload, Emit(p, st, pos, pos + |k|, payload), pos + |k|)
  {
    var rest := Occurrences(p, k, pos + |k|);
    assert Occurrences(p, k, pos) == [pos] + rest;
    assert ([pos] + rest)[1..] == rest;
  }

  /** No match at `pos`: the scan goes on at `pos + 1`. */
  lemma SkipStep(p: string, k: string, payload: string, st: Scan, pos: nat)
    requires k != [] && st.cursor <= |p| && pos + |k| <= |p| && !OccursAt(p, k, pos)
    ensures EmitFrom(p, k, payload, st, pos) == EmitFrom(p, k, payload, st, pos + 1)
  {
  }

  /** The inner loop of `replace_emotion_with_base64` for one keyword: scans the paragraph
      left to right for non-overlapping literal matches, appending the text before each match
      (when it starts after the cursor) and the image, and moving the cursor to the match's
      end. */
  method EmitMatches(p: string, emotion: string, payload: string, parts0: seq<Part>, cursor0: nat)
    returns (parts: seq<Part>, lastMatchEnd: nat)
    requires emotion != [] && cursor0 <= |p|
    ensures Scan(parts, lastMatchEnd) == EmitAll(p, Scan(parts0, cursor0), Occurrences(p, emotion, 0), |emotion|, payload)
  {
    parts, lastMatchEnd := parts0, cursor0;
    var pos: nat := 0;
    while pos + |emotion| <= |p|
      invariant lastMatchEnd <= |p|
      invariant EmitFrom(p, emotion, payload, Scan(parts, lastMatchEnd), pos)
                == EmitFrom(p, emotion, payload, Scan(parts0, cursor0), 0)
      decreases |p| - pos
    {
      if OccursAt(p, emotion, pos) {
        var start, end := pos, pos + |emotion|;
        ghost var next := Scan(parts + (if start > lastMatchEnd then [Text(p[lastMatchEnd..start])] else [])
                                 + [Image(payload)], end);
        MatchStep(p, emotion, payload, Scan(parts, lastMatchEnd), pos);
        if start > lastMatchEnd {
          parts := parts + [Text(p[lastMatchEnd..start])];
        }
        parts := parts + [Image(payload)];
        lastMatchEnd := end;
        assert Scan(parts, lastMatchEnd) == next;
        pos := end;
      } else {
        SkipStep(p, emotion, payload, Scan(parts, lastMatchEnd), pos);
        pos := pos + 1;
      }
    }
  }

  /** `replace_emotion_with_base64`: the loop over the mapping with the shared cursor
      `last_match_end`, then the trailing text. */
  method ReplaceEmotionWithBase64(p: string, mapping: Mapping) returns (parts: seq<Part>)
    requires ValidKeywords(mapping)
    ensures parts == Segment(p, mapping)
  {
    parts := [];
    var lastMatchEnd: nat := 0;
    for i := 0 to |mapping|
      invariant lastMatchEnd <= |p|
      invariant ScanKeywords(p, mapping[i..], Scan(parts, lastMatchEnd))
                == ScanKeywords(p, mapping, Scan([], 0))
    {
      var (emotion, payload) := mapping[i];
      assert mapping[i..][1..] == mapping[i + 1..];
      parts, lastMatchEnd := EmitMatches(p, emotion, payload, parts, lastMatchEnd);
    }
    if lastMatchEnd < |p| {
      parts := parts + [Text(p[lastMatchEnd..])];
    }
  }

  // ---------------------------------------------------------------------------------------
  // Properties of the segmentation

  /** Number of image parts. */
  function CountImages(parts: seq<Part>): nat {
    if parts == [] then 0 else (if parts[0].Image? then 1 else 0) + CountImages(parts[1..])
  }

  lemma {:induction false} CountImagesAppend(a: seq<Part>, b: seq<Part>)
    ensures CountImages(a + b) == CountImages(a) + CountImages(b)
  {
    if a == [] {
      assert a + b == b;
    } else {
      assert (a + b)[1..] == a[1..] + b;
      CountImagesAppend(a[1..], b);
    }
  }

  /** Number of occurrences `re.finditer` reports, summed over all keywords. */
  function TotalMatches(p: string, mapping: Mapping): nat
    requires ValidKeywords(mapping)
  {
    if mapping == [] then 0
    else |Occurrences(p, mapping[0].0, 0)| + TotalMatches(p, mapping[1..])
  }

  lemma {:induction false} EmitAllImages(p: string, st: Scan, starts: seq<nat>, len: nat, payload: string)
    requires st.cursor <= |p|
    requires forall j :: 0 <= j < |starts| ==> starts[j] + len <= |p|
    decreases |starts|
    ensures CountImages(EmitAll(p, st, starts, len, payload).parts) == CountImages(st.parts) + |starts|
  {
    if starts != [] {
      var st' := Emit(p, st, starts[0], starts[0] + len, payload);
      var text: seq<Part> := if starts[0] > st.cursor then [Text(p[st.cursor..starts[0]])] else [];
      CountImagesAppend(st.parts + text, [Image(payload)]);
      CountImagesAppend(st.parts, text);
      EmitAllImages(p, st', starts[1..], len, payload);
    }
  }

  lemma {:induction false} ScanImages(p: string, mapping: Mapping, st: Scan)
    requires ValidKeywords(mapping) && st.cursor <= |p|
    ensures CountImages(ScanKeywords(p, mapping, st).parts) == CountImages(st.parts) + TotalMatches(p, mapping)
  {
    if mapping != [] {
      var (k, payload) := mapping[0];
      var st' := EmitAll(p, st, Occurrences(p, k, 0), |k|, payload);
      EmitAllImages(p, st, Occurrences(p, k, 0), |k|, payload);
      ScanImages(p, mapping[1..], st');
    }
  }

  /** Every match appends exactly one image: the number of image parts is the number of
      occurrences found, summed over all keywords. */
  lemma {:induction false} SegmentImageCount(p: string, mapping: Mapping)
    requires ValidKeywords(mapping)
    ensures CountImages(Segment(p, mapping)) == TotalMatches(p, mapping)
  {
    var st := ScanKeywords(p, mapping, Scan([], 0));
    ScanImages(p, mapping, Scan([], 0));
    if st.cursor < |p| {
      CountImagesAppend(st.parts, [Text(p[st.cursor..])]);
    }
  }

  lemma {:induction false} NoMatchScan(p: string, mapping: Mapping, st: Scan)
    requires ValidKeywords(mapping) && st.cursor <= |p|
    requires forall i :: 0 <= i < |mapping| ==> !Contains(p, mapping[i].0)
    ensures ScanKeywords(p, mapping, st) == st
  {
    if mapping != [] {
      var k := mapping[0].0;
      OccurrencesAreDisjointMatches(p, k, 0);
      if Occurrences(p, k, 0) != [] {
        assert OccursAt(p, k, Occurrences(p, k, 0)[0]);
        assert Contains(p, k);
      }
      NoMatchScan(p, mapping[1..], st);
    }
  }

  /** When no keyword occurs in the paragraph (in particular when the mapping is empty) the
      paragraph comes back as one text part, or as no part at all when it is empty. */
  lemma {:induction false} NoMatchSegment(p: string, mapping: Mapping)
    requires ValidKeywords(mapping)
    requires forall i :: 0 <= i < |mapping| ==> !Contains(p, mapping[i].0)
    ensures Segment(p, mapping) == if p == [] then [] else [Text(p)]
  {
    NoMatchScan(p, mapping, Scan([], 0));
    assert p[0..] == p;
  }

  /** `s` is a non-empty slice `p[a:b]` of the paragraph. */
  ghost predicate IsSliceOf(p: string, s: string) {
    exists a, b | 0 <= a < b <= |p| :: s == p[a..b]
  }

  ghost predicate TextsAreSlices(p: string, parts: seq<Part>) {
    forall i :: 0 <= i < |parts| && parts[i].Text? ==> IsSliceOf(p, parts[i].text)
  }

  predicate NoAdjacentTexts(parts: seq<Part>) {
    forall i :: 0 <= i < |parts| - 1 ==> !(parts[i].Text? && parts[i + 1].Text?)
  }

  /** What holds of the scan state between matches. */
  ghost predicate ScanInv(p: string, st: Scan) {
    && TextsAreSlices(p, st.parts)
    && NoAdjacentTexts(st.parts)
    && (st.parts == [] || st.parts[|st.parts| - 1].Image?)
  }

  lemma {:induction false} EmitKeepsInv(p: string, st: Scan, start: nat, end: nat, payload: string)
    requires st.cursor <= |p| && start <= end <= |p|
    requires ScanInv(p, st)
    ensures ScanInv(p, Emit(p, st, start, end, payload))
  {
    var parts := Emit(p, st, start, end, payload).parts;
    var n := |st.parts|;
    if start > st.cursor {
      assert parts == st.parts + [Text(p[st.cursor..start])] + [Image(payload)];
      assert IsSliceOf(p, parts[n].text);
    } else {
      assert parts == st.parts + [Image(payload)];
    }
    forall i | 0 <= i < |parts| && parts[i].Text? ensures IsSliceOf(p, parts[i].text) {
      if i < n { assert parts[i] == st.parts[i]; }
    }
  }

  lemma {:induction false} EmitAllKeepsInv(p: string, st: Scan, starts: seq<nat>, len: nat, payload: string)
    requires st.cursor <= |p|
    requires forall j :: 0 <= j < |starts| ==> starts[j] + len <= |p|
    requires ScanInv(p, st)
    decreases |starts|
    ensures ScanInv(p, EmitAll(p, st, starts, len, payload))
  {
    if starts != [] {
      EmitKeepsInv(p, st, starts[0], starts[0] + len, payload);
      EmitAllKeepsInv(p, Emit(p, st, starts[0], starts[0] + len, payload), starts[1..], len, payload);
    }
  }

  lemma {:induction false} ScanKeepsInv(p: string, mapping: Mapping, st: Scan)
    requires ValidKeywords(mapping) && st.cursor <= |p|
    requires ScanInv(p, st)
    ensures ScanInv(p, ScanKeywords(p, mapping, st))
  {
    if mapping != [] {
      var (k, payload) := mapping[0];
      EmitAllKeepsInv(p, st, Occurrences(p, k, 0), |k|, payload);
      ScanKeepsInv(p, mapping[1..], EmitAll(p, st, Occurrences(p, k, 0), |k|, payload));
    }
  }

  /** Every text part is a non-empty slice `paragraph[a:b]` with `a < b`, and no two text parts
      are next to each other. */
  lemma {:induction false} SegmentTextParts(p: string, mapping: Mapping)
    requires ValidKeywords(mapping)
    ensures TextsAreSlices(p, Segment(p, mapping))
    ensures NoAdjacentTexts(Segment(p, mapping))
  {
    var st := ScanKeywords(p, mapping, Scan([], 0));
    ScanKeepsInv(p, mapping, Scan([], 0));
    var parts := Segment(p, mapping);
    if st.cursor < |p| {
      var n := |st.parts|;
      assert parts == st.parts + [Text(p[st.cursor..])];
      assert p[st.cursor..] == p[st.cursor..|p|];
      assert IsSliceOf(p, parts[n].text);
      forall i | 0 <= i < |parts| && parts[i].Text? ensures IsSliceOf(p, parts[i].text) {
        if i < n { assert parts[i] == st.parts[i]; }
      }
    }
  }

  /** The paragraph text the parts stand for when every image is read as `keyword`. */
  function Restore(parts: seq<Part>, keyword: string): string {
    if parts == [] then []
    else (match parts[0] case Text(s) => s case Image(_) => keyword) + Restore(parts[1..], keyword)
  }

  lemma {:induction false} RestoreAppend(a: seq<Part>, b: seq<Part>, keyword: string)
    ensures Restore(a + b, keyword) == Restore(a, keyword) + Restore(b, keyword)
  {
    if a == [] {
      assert a + b == b;
    } else {
      assert (a + b)[1..] == a[1..] + b;
      RestoreAppend(a[1..], b, keyword);
    }
  }

  /** One occurrence of the only keyword extends the restored prefix up to its end. */
  lemma {:induction false} EmitRestores(p: string, k: string, payload: string, st: Scan, start: nat)
    requires st.cursor <= start && OccursAt(p, k, start)
    requires Restore(st.parts, k) == p[..st.cursor]
    ensures Restore(Emit(p, st, start, start + |k|, payload).parts, k) == p[..start + |k|]
  {
    var parts := Emit(p, st, start, start + |k|, payload).parts;
    assert Restore([Image(payload)], k) == k by {
      assert [Image(payload)][1..] == [];
    }
    if start > st.cursor {
      var text := Text(p[st.cursor..start]);
      assert parts == (st.parts + [text]) + [Image(payload)];
      RestoreAppend(st.parts + [text], [Image(payload)], k);
      RestoreAppend(st.parts, [text], k);
      assert Restore([text], k) == p[st.cursor..start] by {
        assert [text][1..] == [];
      }
      PrefixJoin(p, st.cursor, start);
    } else {
      assert parts == st.parts + [Image(payload)];
      RestoreAppend(st.parts, [Image(payload)], k);
    }
    PrefixJoin(p, start, start + |k|);
  }

  /** Adjacent slices of a prefix join up. */
  lemma PrefixJoin(p: string, i: nat, j: nat)
    requires i <= j <= |p|
    ensures p[..i] + p[i..j] == p[..j]
  {
  }

  lemma {:induction false} EmitAllRestores(p: string, k: string, payload: string, st: Scan, from: nat)
    requires k != [] && st.cursor <= from && st.cursor <= |p|
    requires Restore(st.parts, k) == p[..st.cursor]
    decreases |p| - from, 1
    ensures var r := EmitFrom(p, k, payload, st, from); Restore(r.parts, k) == p[..r.cursor]
  {
    if from + |k| > |p| {
      assert Occurrences(p, k, from) == [];
    } else if OccursAt(p, k, from) {
      MatchRestores(p, k, payload, st, from);
    } else {
      SkipStep(p, k, payload, st, from);
      EmitAllRestores(p, k, payload, st, from + 1);
    }
  }

  /** The match case of `EmitAllRestores`. */
  lemma {:induction false} MatchRestores(p: string, k: string, payload: string, st: Scan, from: nat)
    requires k != [] && st.cursor <= from && st.cursor <= |p| && OccursAt(p, k, from)
    requires Restore(st.parts, k) == p[..st.cursor]
    decreases |p| - from, 0
    ensures var r := EmitFrom(p, k, payload, st, from); Restore(r.parts, k) == p[..r.cursor]
  {
    var next := Emit(p, st, from, from + |k|, payload);
    EmitRestores(p, k, payload, st, from);
    EmitAllRestores(p, k, payload, next, from + |k|);
    MatchStep(p, k, payload, st, from);
  }

  /** With a one-keyword mapping, reading every image as the keyword and concatenating the
      parts gives back the paragraph. */
  lemma {:induction false} SingleKeywordRoundTrip(p: string, k: string, payload: string)
    requires k != []
    ensures ValidKeywords([(k, payload)])
    ensures Restore(Segment(p, [(k, payload)]), k) == p
  {
    var m: Mapping := [(k, payload)];
    var st := EmitAll(p, Scan([], 0), Occurrences(p, k, 0), |k|, payload);
    assert ScanKeywords(p, m, Scan([], 0)) == ScanKeywords(p, [], st) == st;
    EmitAllRestores(p, k, payload, Scan([], 0), 0);
    if st.cursor < |p| {
      RestoreAppend(st.parts, [Text(p[st.cursor..])], k);
      assert p == p[..st.cursor] + p[st.cursor..];
    }
  }

  /** A mismatching character at offset `d` rules out an occurrence at `i`. */
  lemma MismatchAt(s: string, pat: string, i: nat, d: nat)
    requires d < |pat| && i + d < |s| && s[i + d] != pat[d]
    ensures !OccursAt(s, pat, i)
  {
    if i + |pat| <= |s| {
      assert s[i..i + |pat|][d] == s[i + d];
    }
  }

  /** The documented example: one keyword in the middle of the paragraph. */
  lemma SmileExample()
    ensures Segment("hi [smile] bye", [("[smile]", "B64IMG")])
            == [Text("hi "), Image("B64IMG"), Text(" bye")]
  {
    var p, k := "hi [smile] bye", "[smile]";
    SmileMatches();
    var st := Scan([Text("hi "), Image("B64IMG")], 10);
    assert p[0..3] == "hi ";
    assert Emit(p, Scan([], 0), 3, 10, "B64IMG") == st;
    assert EmitAll(p, Scan([], 0), [3], 7, "B64IMG") == st;
    assert ScanKeywords(p, [(k, "B64IMG")], Scan([], 0)) == st;
    assert p[10..] == " bye";
  }

  /** The only match of `[smile]` in the example paragraph is at index 3. */
  lemma SmileMatches()
    ensures Occurrences("hi [smile] bye", "[smile]", 0) == [3]
  {
    var p, k := "hi [smile] bye", "[smile]";
    MismatchAt(p, k, 0, 0);
    MismatchAt(p, k, 1, 0);
    MismatchAt(p, k, 2, 0);
    assert OccursAt(p, k, 3) by {
      assert p[3..10] == k;
    }
    assert Occurrences(p, k, 10) == [];
    assert Occurrences(p, k, 3) == [3];
    assert Occurrences(p, k, 0) == Occurrences(p, k, 1) == Occurrences(p, k, 2) == [3];
  }

  /** The shared cursor: the second keyword occurs before the first one's match, the cursor
      moves back to 1, and the "b" that was already replaced by its image is emitted again as
      trailing text; the images also come out in mapping order, not paragraph order. */
  lemma SharedCursorReemitsText()
    ensures Segment("ab", [("b", "X"), ("a", "Y")])
            == [Text("a"), Image("X"), Image("Y"), Text("b")]
  {
    var p := "ab";
    SharedCursorMatches();
    var st1 := EmitAll(p, Scan([], 0), [1], 1, "X");
    assert st1 == Scan([Text("a"), Image("X")], 2);
    var st2 := EmitAll(p, st1, [0], 1, "Y");
    assert st2 == Scan([Text("a"), Image("X"), Image("Y")], 1);
    assert ScanKeywords(p, [("b", "X"), ("a", "Y")], Scan([], 0)) == st2;
  }

  /** In "ab", "b" is found only at index 1 and "a" only at index 0. */
  lemma SharedCursorMatches()
    ensures Occurrences("ab", "b", 0) == [1]
    ensures Occurrences("ab", "a", 0) == [0]
  {
    var p := "ab";
    MismatchAt(p, "b", 0, 0);
    assert OccursAt(p, "b", 1) by {
      assert p[1..2] == "b";
    }
    assert Occurrences(p, "b", 0) == [1];
    MismatchAt(p, "a", 1, 0);
    assert OccursAt(p, "a", 0) by {
      assert p[0..1] == "a";
    }
    assert Occurrences(p, "a", 0) == [0];
  }
}
