/**
 * Locating the JSON text in an assistant reply. `FencedArray` is the match
 * of the pattern ```(?:json)?\s*(\[[\s\S]*?\])\s*``` under JavaScript's
 * backtracking semantics: the leftmost position where it matches, with the
 * lazy group closed at the first `]` that is followed by optional whitespace
 * and a closing fence.
 */
module Extraction {
  import opened Results
  import opened Json

  const Fence: string := "```"

  const JsonTag: string := "json"

  /** Three backticks at `i`: the same as `HasAt(s, i, Fence)`, written code point by code point. */
  predicate FenceAt(s: string, i: nat) {
    i + 3 <= |s| && s[i] == '`' && s[i + 1] == '`' && s[i + 2] == '`'
  }

  /** The tag `json` at `i`, code point by code point. */
  predicate TagAt(s: string, i: nat) {
    i + 4 <= |s| && s[i] == 'j' && s[i + 1] == 's' && s[i + 2] == 'o' && s[i + 3] == 'n'
  }

  /** The greedy `\s*` from `i`: the index of the first non-whitespace code point. */
  function SkipSpace(s: string, i: nat): (j: nat)
    requires i <= |s|
    ensures i <= j <= |s|
    ensures forall k :: i <= k < j ==> IsJsSpace(s[k])
    ensures j == |s| || !IsJsSpace(s[j])
    decreases |s| - i
  {
    if i < |s| && IsJsSpace(s[i]) then SkipSpace(s, i + 1) else i
  }

  /**
   * The opening part ```(?:json)?\s*\[ tried at `p`: the index of the `[`
   * that opens the capture. The optional tag is taken whenever present
   * (without it the `j` could match neither `\s` nor `[`), and `\s*` must
   * consume all whitespace, since a whitespace code point is not `[`.
   */
  function OpenAt(s: string, p: nat): (r: Option<nat>)
    requires p <= |s|
    ensures r.Some? ==> FenceAt(s, p) && p + 3 <= r.value < |s| && s[r.value] == '['
  {
    if !FenceAt(s, p) then None
    else
      var j := if TagAt(s, p + 3) then p + 7 else p + 3;
      var q := SkipSpace(s, j);
      if q < |s| && s[q] == '[' then Some(q) else None
  }

  /** A `]` at `e` followed by optional whitespace and a closing fence. */
  predicate ClosesAt(s: string, e: nat) {
    e < |s| && s[e] == ']' && FenceAt(s, SkipSpace(s, e + 1))
  }

  /** The lazy `[\s\S]*?\]` from `e` on: the first closing `]` at or after `e`. */
  function FirstClose(s: string, e: nat): (r: Option<nat>)
    requires e <= |s|
    ensures r.Some? ==> e <= r.value < |s| && ClosesAt(s, r.value)
    ensures r.Some? ==> forall k :: e <= k < r.value ==> !ClosesAt(s, k)
    ensures r.None? ==> forall k :: e <= k < |s| ==> !ClosesAt(s, k)
    decreases |s| - e
  {
    if e == |s| then None
    else if ClosesAt(s, e) then Some(e)
    else FirstClose(s, e + 1)
  }

  /** The whole pattern matches at `p`: an opening there and a closing somewhere after its `[`. */
  ghost predicate MatchesAt(s: string, p: nat) {
    p <= |s| && OpenAt(s, p).Some? && exists e :: OpenAt(s, p).value < e < |s| && ClosesAt(s, e)
  }

  /** Where a match was found: the start of its fence, and its capture `s[open..close + 1]`. */
  datatype Span = Span(start: nat, open: nat, close: nat)

  /**
   * The search for the leftmost match at or after `p`: each position is
   * tried in turn, and the first one with an opening whose group closes is
   * the match.
   */
  function FindFence(s: string, p: nat): (r: Option<Span>)
    requires p <= |s|
    ensures r.Some? ==> p <= r.value.start <= |s| && OpenAt(s, r.value.start) == Some(r.value.open)
    ensures r.Some? ==> FirstClose(s, r.value.open + 1) == Some(r.value.close)
    decreases |s| - p
  {
    match OpenAt(s, p)
    case Some(q) =>
      (match FirstClose(s, q + 1)
       case Some(e) => Some(Span(p, q, e))
       case None => if p == |s| then None else FindFence(s, p + 1))
    case None => if p == |s| then None else FindFence(s, p + 1)
  }

  /**
   * The search finds the leftmost position where the pattern matches, with
   * the lazy group closed at its first possible `]`; it finds nothing exactly
   * when the pattern matches nowhere.
   */
  lemma FindFenceLeftmost(s: string, p: nat)
    requires p <= |s|
    ensures FindFence(s, p).Some? ==> MatchesAt(s, FindFence(s, p).value.start)
    ensures FindFence(s, p).Some? ==> forall k :: p <= k < FindFence(s, p).value.start ==> !MatchesAt(s, k)
    ensures FindFence(s, p).Some? ==>
      var m := FindFence(s, p).value;
      m.open < m.close && ClosesAt(s, m.close) && forall k :: m.open < k < m.close ==> !ClosesAt(s, k)
    ensures FindFence(s, p).None? ==> forall k :: p <= k <= |s| ==> !MatchesAt(s, k)
  {
    var r := FindFence(s, p);
    if r.Some? {
      MatchHere(s, r.value.start);
      NoMatchBeforeFound(s, p);
    } else {
      NoMatchWhenNotFound(s, p);
    }
  }

  /** The positions the search passes over before its match do not match. */
  lemma {:induction false} NoMatchBeforeFound(s: string, p: nat)
    requires p <= |s| && FindFence(s, p).Some?
    ensures forall k :: p <= k < FindFence(s, p).value.start ==> !MatchesAt(s, k)
    decreases |s| - p
  {
    var start := FindFence(s, p).value.start;
    if start != p {
      assert FindFence(s, p) == FindFence(s, p + 1);
      forall k | p <= k < start ensures !MatchesAt(s, k) {
        if k == p {
          NoMatchHere(s, p);
        } else {
          NoMatchBeforeFound(s, p + 1);
        }
      }
    }
  }

  /** A search that finds nothing passes over positions that do not match. */
  lemma {:induction false} NoMatchWhenNotFound(s: string, p: nat)
    requires p <= |s| && FindFence(s, p).None?
    ensures forall k :: p <= k <= |s| ==> !MatchesAt(s, k)
    decreases |s| - p
  {
    forall k | p <= k <= |s| ensures !MatchesAt(s, k) {
      if k == p {
        NoMatchHere(s, p);
      } else {
        assert FindFence(s, p) == FindFence(s, p + 1);
        NoMatchWhenNotFound(s, p + 1);
      }
    }
  }

  /** An opening whose group closes is a match. */
  lemma MatchHere(s: string, p: nat)
    requires p <= |s| && OpenAt(s, p).Some? && FirstClose(s, OpenAt(s, p).value + 1).Some?
    ensures MatchesAt(s, p)
  {
    var e := FirstClose(s, OpenAt(s, p).value + 1).value;
    assert OpenAt(s, p).value < e < |s| && ClosesAt(s, e);
  }

  /** Without an opening, or without a close after it, there is no match. */
  lemma NoMatchHere(s: string, p: nat)
    requires p <= |s|
    requires OpenAt(s, p).None? || FirstClose(s, OpenAt(s, p).value + 1).None?
    ensures !MatchesAt(s, p)
  {
  }

  /**
   * The capture group of the fenced-array pattern, if the pattern matches:
   * the text from the opening `[` of the leftmost match to the first `]`
   * that optional whitespace and three backticks follow.
   */
  function FencedArray(s: string): (r: Option<string>)
    ensures r.Some? ==> |r.value| >= 2 && r.value[0] == '[' && r.value[|r.value| - 1] == ']'
  {
    match FindFence(s, 0)
    case None => None
    case Some(span) =>
      var capture := s[span.open..span.close + 1];
      assert capture[0] == s[span.open] && capture[|capture| - 1] == s[span.close];
      Some(capture)
  }

  /** There is a capture exactly when the pattern matches somewhere in `s`. */
  lemma FencedArrayMatches(s: string)
    ensures FencedArray(s).None? <==> forall p :: 0 <= p <= |s| ==> !MatchesAt(s, p)
  {
    FindFenceLeftmost(s, 0);
  }

  /** `indexOf(c)`: the first position of `c` in `s`, if it occurs. */
  function IndexOf(s: string, c: char): (r: Option<nat>)
    ensures r.Some? ==> r.value < |s| && s[r.value] == c && c !in s[..r.value]
    ensures r.None? ==> c !in s
  {
    if s == [] then None
    else if s[0] == c then Some(0)
    else match IndexOf(s[1..], c)
      case Some(i) =>
        assert s[..i + 1] == [s[0]] + s[1..][..i];
        Some(i + 1)
      case None => None
  }

  /**
   * The text the Anthropic agent hands to the JSON parser: the fenced array
   * if the pattern matches; else the suffix from the first `[`; else all of
   * the reply.
   */
  function AnthropicCandidate(s: string): (c: string)
    ensures FencedArray(s).Some? ==> c == FencedArray(s).value
    ensures FencedArray(s).None? && '[' in s ==>
      exists k :: 0 <= k < |s| && s[k] == '[' && '[' !in s[..k] && c == s[k..]
    ensures FencedArray(s).None? && '[' !in s ==> c == s
  {
    match FencedArray(s)
    case Some(capture) => capture
    case None =>
      match IndexOf(s, '[')
      case Some(k) => s[k..]
      case None => s
  }

  /**
   * The text the Letta agent hands to the JSON parser: the fenced array if
   * the pattern matches, else all of the reply (there is no first-`[` step).
   */
  function LettaCandidate(s: string): (c: string)
    ensures FencedArray(s).Some? ==> c == FencedArray(s).value
    ensures FencedArray(s).None? ==> c == s
  {
    match FencedArray(s)
    case Some(capture) => capture
    case None => s
  }
}

module ExtractionFacts {
  import opened Results
  import opened Json
  import opened Extraction

  /** `\s*` stops at the first code point that is not whitespace. */
  lemma SkipSpaceStops(s: string, i: nat, j: nat)
    requires i <= j < |s| && !IsJsSpace(s[j])
    requires forall k :: i <= k < j ==> IsJsSpace(s[k])
    ensures SkipSpace(s, i) == j
  {
  }

  /** Positions with no opening fence are skipped by the search. */
  lemma {:induction false} FindFenceSkips(s: string, p: nat, a: nat)
    requires p <= a <= |s|
    requires forall k :: p <= k < a ==> OpenAt(s, k).None?
    ensures FindFence(s, p) == FindFence(s, a)
    decreases a - p
  {
    if p < a {
      FindFenceSkips(s, p + 1, a);
    }
  }

  /** The lazy group stops at the first `]` that closes. */
  lemma {:induction false} FirstCloseAt(s: string, k: nat, e: nat)
    requires k <= e && ClosesAt(s, e)
    requires forall i :: k <= i < e ==> !ClosesAt(s, i)
    ensures FirstClose(s, k) == Some(e)
    decreases e - k
  {
    if k < e {
      FirstCloseAt(s, k + 1, e);
    }
  }

  /** Three backticks at `i`, code point by code point, are the fence as a slice. */
  lemma FenceSlice(s: string, i: nat)
    requires i + 3 <= |s|
    ensures FenceAt(s, i) <==> s[i..i + 3] == Fence
  {
    assert s[i..i + 3][0] == s[i] && s[i..i + 3][1] == s[i + 1] && s[i..i + 3][2] == s[i + 2];
  }

  /** No opening fence starts where there is no backtick. */
  lemma NoOpenWithoutBacktick(s: string, p: nat)
    requires p < |s| && s[p] != '`'
    ensures OpenAt(s, p).None?
  {
  }

  /** The opening part of the pattern, with an optional tag, and whitespace before the `[` at `q`. */
  lemma OpensAt(s: string, a: nat, tag: string, q: nat)
    requires tag == "" || tag == JsonTag
    requires a + 3 + |tag| <= q < |s| && s[q] == '['
    requires s[a..a + 3] == Fence && s[a + 3..a + 3 + |tag|] == tag
    requires forall k :: a + 3 + |tag| <= k < q ==> IsJsSpace(s[k])
    ensures OpenAt(s, a) == Some(q)
  {
    FenceSlice(s, a);
    if tag == JsonTag {
      assert s[a + 3..a + 7][0] == s[a + 3] && s[a + 3..a + 7][1] == s[a + 4];
      assert s[a + 3..a + 7][2] == s[a + 5] && s[a + 3..a + 7][3] == s[a + 6];
    } else {
      assert !TagAt(s, a + 3) by {
        assert s[a + 3] == '[' || IsJsSpace(s[a + 3]);
      }
    }
    SkipSpaceStops(s, a + 3 + |tag|, q);
  }

  /** A `]` at `e` closes when whitespace and a fence follow it. */
  lemma ClosesHere(s: string, e: nat, f: nat)
    requires e < f && f + 3 <= |s| && s[e] == ']' && s[f..f + 3] == Fence
    requires forall k :: e + 1 <= k < f ==> IsJsSpace(s[k])
    ensures ClosesAt(s, e)
  {
    SkipSpaceStops(s, e + 1, f);
  }

  /** Inside a stretch without backticks that ends in a non-space, no `]` closes. */
  lemma NoCloseBefore(s: string, k: nat, e: nat)
    requires k < e < |s| && !IsJsSpace(s[e])
    requires forall i :: k < i <= e ==> s[i] != '`'
    ensures !ClosesAt(s, k)
  {
    var m := SkipSpace(s, k + 1);
    assert m <= e;
  }

  /** The capture is the text between the `[` and the `]` of the leftmost match. */
  lemma CaptureOfSpan(s: string, span: Span)
    requires FindFence(s, 0) == Some(span)
    ensures FencedArray(s) == Some(s[span.open..span.close + 1])
  {
  }

  /** The leftmost match, located by its opening and its first close. */
  lemma LeftmostSpan(s: string, a: nat, q: nat, e: nat)
    requires a <= |s| && OpenAt(s, a) == Some(q) && q < e && ClosesAt(s, e)
    requires forall k :: 0 <= k < a ==> OpenAt(s, k).None?
    requires forall k :: q < k < e ==> !ClosesAt(s, k)
    ensures FindFence(s, 0) == Some(Span(a, q, e))
  {
    FirstCloseAt(s, q + 1, e);
    FoundAfterSkipping(s, a, q, e);
  }

  /** The search from the start passes over positions without an opening and stops at `a`, whose group closes. */
  lemma FoundAfterSkipping(s: string, a: nat, q: nat, e: nat)
    requires a <= |s| && OpenAt(s, a) == Some(q) && FirstClose(s, q + 1) == Some(e)
    requires forall k :: 0 <= k < a ==> OpenAt(s, k).None?
    ensures FindFence(s, 0) == Some(Span(a, q, e))
  {
    FindFenceSkips(s, 0, a);
    FoundAt(s, a, q, e);
  }

  /** A search that starts at an opening whose group closes stops there. */
  lemma FoundAt(s: string, a: nat, q: nat, e: nat)
    requires a <= |s| && OpenAt(s, a) == Some(q) && FirstClose(s, q + 1) == Some(e)
    ensures FindFence(s, a) == Some(Span(a, q, e))
  {
  }

  /** The capture, located by the parts of the text around it. */
  lemma CaptureFromParts(s: string, a: nat, tag: string, q: nat, e: nat, f: nat)
    requires tag == "" || tag == JsonTag
    requires a + 3 + |tag| <= q < e < f && f + 3 <= |s|
    requires forall k :: 0 <= k < a ==> s[k] != '`'
    requires s[a..a + 3] == Fence && s[a + 3..a + 3 + |tag|] == tag
    requires forall k :: a + 3 + |tag| <= k < q ==> IsJsSpace(s[k])
    requires s[q] == '[' && s[e] == ']'
    requires forall k :: q < k <= e ==> s[k] != '`'
    requires forall k :: e + 1 <= k < f ==> IsJsSpace(s[k])
    requires s[f..f + 3] == Fence
    ensures FencedArray(s) == Some(s[q..e + 1])
  {
    OpeningFound(s, a, tag, q);
    ClosingFound(s, q, e, f);
    LeftmostSpan(s, a, q, e);
    CaptureOfSpan(s, Span(a, q, e));
  }

  /** Text without backticks, then a fence, a tag and whitespace before a `[`: the first opening. */
  lemma OpeningFound(s: string, a: nat, tag: string, q: nat)
    requires tag == "" || tag == JsonTag
    requires a + 3 + |tag| <= q < |s|
    requires forall k :: 0 <= k < a ==> s[k] != '`'
    requires s[a..a + 3] == Fence && s[a + 3..a + 3 + |tag|] == tag
    requires forall k :: a + 3 + |tag| <= k < q ==> IsJsSpace(s[k])
    requires s[q] == '['
    ensures forall p :: 0 <= p < a ==> OpenAt(s, p).None?
    ensures OpenAt(s, a) == Some(q)
  {
    forall p | 0 <= p < a
      ensures OpenAt(s, p).None?
    {
      NoOpenWithoutBacktick(s, p);
    }
    OpensAt(s, a, tag, q);
  }

  /** A `]` before whitespace and a fence, in a body without backticks: the first close after `q`. */
  lemma ClosingFound(s: string, q: nat, e: nat, f: nat)
    requires q < e < f && f + 3 <= |s| && s[e] == ']'
    requires forall k :: q < k <= e ==> s[k] != '`'
    requires forall k :: e + 1 <= k < f ==> IsJsSpace(s[k])
    requires s[f..f + 3] == Fence
    ensures ClosesAt(s, e)
    ensures forall k :: q < k < e ==> !ClosesAt(s, k)
  {
    ClosesHere(s, e, f);
    forall k | q < k < e
      ensures !ClosesAt(s, k)
    {
      NoCloseBefore(s, k, e);
    }
  }

  /**
   * A reply that holds one fenced array yields exactly that array: text
   * without backticks, then three backticks, an optional `json` tag,
   * whitespace, a bracketed body without backticks, whitespace and the
   * closing fence, then anything at all.
   */
  lemma FencedArrayCapture(pre: string, tag: string, ws: string, body: string, ws2: string, post: string)
    requires '`' !in pre && '`' !in body
    requires tag == "" || tag == JsonTag
    requires IsBlank(ws) && IsBlank(ws2)
    requires |body| >= 2 && body[0] == '[' && body[|body| - 1] == ']'
    ensures FencedArray(pre + Fence + tag + ws + body + ws2 + Fence + post) == Some(body)
  {
    var s := pre + Fence + tag + ws + body + ws2 + Fence + post;
    var a := |pre|;
    var q := a + 3 + |tag| + |ws|;
    var e := q + |body| - 1;
    var f := e + 1 + |ws2|;
    ReplyParts(pre, tag, ws, body, ws2, post);
    assert s[q..e + 1] == body;
    CaptureFromParts(s, a, tag, q, e, f);
    assert FencedArray(s) == Some(s[q..e + 1]);
  }

  /** Where each part of such a reply lies in it. */
  lemma ReplyParts(pre: string, tag: string, ws: string, body: string, ws2: string, post: string)
    requires '`' !in pre && '`' !in body
    requires IsBlank(ws) && IsBlank(ws2)
    requires |body| >= 2 && body[0] == '[' && body[|body| - 1] == ']'
    ensures var s := pre + Fence + tag + ws + body + ws2 + Fence + post;
      var a := |pre|;
      var q := a + 3 + |tag| + |ws|;
      var e := q + |body| - 1;
      var f := e + 1 + |ws2|;
      && a + 3 + |tag| <= q < e < f && f + 3 <= |s|
      && (forall k :: 0 <= k < a ==> s[k] != '`')
      && s[a..a + 3] == Fence && s[a + 3..a + 3 + |tag|] == tag
      && (forall k :: a + 3 + |tag| <= k < q ==> IsJsSpace(s[k]))
      && s[q] == '[' && s[e] == ']' && s[q..e + 1] == body
      && (forall k :: q < k <= e ==> s[k] != '`')
      && (forall k :: e + 1 <= k < f ==> IsJsSpace(s[k]))
      && s[f..f + 3] == Fence
  {
    var s := pre + Fence + tag + ws + body + ws2 + Fence + post;
    var a := |pre|;
    var q := a + 3 + |tag| + |ws|;
    var e := q + |body| - 1;
    var f := e + 1 + |ws2|;
    assert s[a..a + 3] == Fence;
    assert s[a + 3..a + 3 + |tag|] == tag;
    assert s[q..e + 1] == body;
    assert s[f..f + 3] == Fence;
    forall k | 0 <= k < a
      ensures s[k] != '`'
    {
      assert s[k] == pre[k];
    }
    forall k | a + 3 + |tag| <= k < q
      ensures IsJsSpace(s[k])
    {
      assert s[k] == ws[k - a - 3 - |tag|];
    }
    forall k | q <= k <= e
      ensures s[k] == body[k - q]
    {
    }
    forall k | e + 1 <= k < f
      ensures IsJsSpace(s[k])
    {
      assert s[k] == ws2[k - e - 1];
    }
  }

  /** A reply that is exactly one `json` code block around an array yields that array. */
  lemma JsonBlockCapture(text: string)
    requires '`' !in text && |text| >= 2 && text[0] == '[' && text[|text| - 1] == ']'
    ensures FencedArray(Fence + JsonTag + "\n" + text + "\n" + Fence) == Some(text)
  {
    assert Fence + JsonTag + "\n" + text + "\n" + Fence == [] + Fence + JsonTag + "\n" + text + "\n" + Fence + [];
    FencedArrayCapture([], JsonTag, "\n", text, "\n", []);
  }
}
