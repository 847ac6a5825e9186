/** The pieces of Python string semantics the bot relies on: `str.isspace`, `str.strip`,
    truthiness of an optional string, and literal substring search. */
module PyStrings {
  import opened Wrappers

  /** `str.isspace()` on one character: the characters `str.strip()` removes. */
  predicate IsSpace(c: char) {
    || ('\t' <= c <= '\r')
    || ('\U{1c}' <= c <= '\U{1f}')
    || c == ' ' || c == '\U{85}' || c == '\U{a0}' || c == '\U{1680}'
    || ('\U{2000}' <= c <= '\U{200a}')
    || c == '\U{2028}' || c == '\U{2029}' || c == '\U{202f}' || c == '\U{205f}' || c == '\U{3000}'
  }

  predicate AllSpace(s: string) {
    forall i :: 0 <= i < |s| ==> IsSpace(s[i])
  }

  /** Number of whitespace characters at the front of `s`. */
  function LeadingSpace(s: string): (n: nat)
    ensures n <= |s| && AllSpace(s[..n])
    ensures n < |s| ==> !IsSpace(s[n])
  {
    if |s| > 0 && IsSpace(s[0]) then
      var n := 1 + LeadingSpace(s[1..]);
      assert s[..n] == [s[0]] + s[1..][..n - 1];
      n
    else 0
  }

  /** Number of whitespace characters at the back of `s`. */
  function TrailingSpace(s: string): (n: nat)
    ensures n <= |s| && AllSpace(s[|s| - n..])
    ensures n < |s| ==> !IsSpace(s[|s| - n - 1])
    ensures |s| > 0 && !IsSpace(s[0]) ==> n < |s|
  {
    if |s| > 0 && IsSpace(s[|s| - 1]) then
      var init := s[..|s| - 1];
      var n := 1 + TrailingSpace(init);
      assert s[|s| - n..] == init[|s| - n..] + [s[|s| - 1]];
      assert |init| > 0 ==> init[0] == s[0];
      n
    else 0
  }

  /** Python's `s.strip()`: the longest infix of `s` that neither begins nor ends with
      whitespace, obtained by removing only whitespace from both ends. */
  function Strip(s: string): (r: string)
    ensures r == [] <==> AllSpace(s)
    ensures r != [] ==> !IsSpace(r[0]) && !IsSpace(r[|r| - 1])
    ensures exists lo, hi | 0 <= lo <= hi <= |s| ::
              r == s[lo..hi] && AllSpace(s[..lo]) && AllSpace(s[hi..])
  {
    var lo := LeadingSpace(s);
    var hi := |s| - TrailingSpace(s[lo..]);
    StripOutside(s, lo, hi);
    StripEmpty(s, lo, hi);
    StripEnds(s, lo, hi);
    s[lo..hi]
  }

  /** The cut points of `Strip` keep their order, and only whitespace lies outside them. */
  lemma StripOutside(s: string, lo: nat, hi: int)
    requires lo == LeadingSpace(s) && hi == |s| - TrailingSpace(s[lo..])
    ensures lo <= hi <= |s| && AllSpace(s[..lo]) && AllSpace(s[hi..])
  {
    var rest := s[lo..];
    var t := TrailingSpace(rest);
    assert hi == lo + (|rest| - t);
    assert rest[|rest| - t..] == s[hi..];
  }

  /** The slice between the cut points of `Strip` is empty only when everything is
      whitespace. */
  lemma StripEmpty(s: string, lo: nat, hi: int)
    requires lo == LeadingSpace(s) && hi == |s| - TrailingSpace(s[lo..])
    ensures lo == hi <==> AllSpace(s)
  {
    if lo == |s| {
      assert s[..lo] == s;
    } else {
      assert s[lo..][0] == s[lo];
    }
  }

  /** Otherwise the slice starts and ends with a non-whitespace character. */
  lemma StripEnds(s: string, lo: nat, hi: int)
    requires lo == LeadingSpace(s) && hi == |s| - TrailingSpace(s[lo..])
    ensures lo < hi ==> !IsSpace(s[lo]) && !IsSpace(s[hi - 1])
  {
    if lo < |s| {
      var rest := s[lo..];
      assert rest[0] == s[lo];
      var last := |rest| - TrailingSpace(rest) - 1;
      assert rest[last] == s[hi - 1];
    }
  }

  /** Python truthiness of a value that is either `None` or a string. */
  predicate Truthy(s: Option<string>) {
    s.Some? && s.value != []
  }

  /** `pat` occurs literally in `s` starting at index `i`. */
  predicate OccursAt(s: string, pat: string, i: nat) {
    i + |pat| <= |s| && s[i..i + |pat|] == pat
  }

  /** Python's `pat in s` for strings. */
  predicate Contains(s: string, pat: string) {
    exists i: nat | i <= |s| :: OccursAt(s, pat, i)
  }

  /** Python's `s.find(pat, from)`: the leftmost occurrence of `pat` at or after `from`. */
  function Find(s: string, pat: string, from: nat): (r: Option<nat>)
    decreases |s| - from
    ensures r.Some? ==> from <= r.value && OccursAt(s, pat, r.value)
    ensures forall i: nat :: from <= i && (r.None? || i < r.value) ==> !OccursAt(s, pat, i)
  {
    if from + |pat| > |s| then None
    else if OccursAt(s, pat, from) then Some(from)
    else Find(s, pat, from + 1)
  }
}
