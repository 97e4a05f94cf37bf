/**
 * The structured-JSON mode of the text-generation client
 * (`LLMClient.generate_json`): the prompt gets a fixed instruction appended,
 * the reply is searched for a JSON document — inside a ```json fence, inside
 * a plain ``` fence, or as the whole trimmed reply — and, when that does not
 * parse, the leftmost brace-delimited span without inner braces is tried.
 *
 * The HTTP exchange (`generate`, its endpoint fallback and retries) is the
 * parameter `llm: Prompt -> Result<string>`, which sees the prompt wrapped
 * in `JsonMode` (its text is the prompt's followed by the JSON instruction); `json.loads` is the parameter
 * `loads: string -> Option<Json>` (`None` for a `JSONDecodeError`).
 */
module LlmClient {
  import opened Wrappers
  import opened Json
  import Text
  import opened Prompts

  /** The opening of a fence labelled `json`. */
  const JsonFence: string := "```json"

  /** A code fence. */
  const Fence: string := "```"

  /**
   * The first parse candidate: the trimmed reply, cut down to the body of
   * its first ```json fence, else of its first plain fence
   * (`text.split(marker)[1].split("```")[0]`).
   */
  function FenceCandidate(response: string): string {
    var text := Text.Strip(response);
    if Text.Contains(text, JsonFence) then Text.Split(Text.Split(text, JsonFence)[1], Fence)[0]
    else if Text.Contains(text, Fence) then Text.Split(Text.Split(text, Fence)[1], Fence)[0]
    else text
  }

  lemma {:induction false} UpToHasNoSeparator(s: string, sep: string, from: nat)
    requires sep != [] && from <= |s|
    ensures !Text.Contains(Text.UpTo(s, sep, from), sep)
  {
    var n := Text.FindFrom(s, sep, from);
    if n.Some? {
      Text.FindInSlice(s, sep, from, n.value);
    } else {
      assert s[from..] == s[from..|s|];
      Text.FindInSlice(s, sep, from, |s|);
    }
  }

  lemma {:induction false} JsonFenceHasFence(text: string)
    ensures Text.Contains(text, JsonFence) ==> Text.Contains(text, Fence)
  {
    if Text.Contains(text, JsonFence) {
      var i := Text.FindFrom(text, JsonFence, 0).value;
      assert forall m :: 0 <= m < |Fence| ==> text[i + m] == JsonFence[m] == Fence[m];
      assert Text.OccursAt(text, Fence, i);
      Text.ContainsIff(text, Fence);
    }
  }

  /** The candidate never contains a code fence. */
  lemma {:induction false} CandidateHasNoFence(response: string)
    ensures !Text.Contains(FenceCandidate(response), Fence)
  {
    var text := Text.Strip(response);
    if Text.Contains(text, JsonFence) {
      Text.SplitFirst(Text.Split(text, JsonFence)[1], Fence);
    } else if Text.Contains(text, Fence) {
      Text.SplitFirst(Text.Split(text, Fence)[1], Fence);
    }
  }

  /** The text from `lo` up to the first fence that ends by `hi`, or up to `hi`. */
  function FenceCut(text: string, lo: nat, hi: nat): string
    requires lo <= hi <= |text|
  {
    var f := Text.FindFrom(text, Fence, lo);
    text[lo..if f.Some? && f.value + |Fence| <= hi then f.value else hi]
  }

  /** Where the next `marker` at or after `start` begins, or the end of the text. */
  function NextOrEnd(text: string, marker: string, start: nat): nat {
    var next := Text.FindFrom(text, marker, start);
    if next.Some? then next.value else |text|
  }

  /** The first fence-separated piece of `text[lo..hi]`. */
  lemma {:induction false} SliceHead(text: string, lo: nat, hi: nat, piece: string)
    requires lo <= hi <= |text| && piece == text[lo..hi]
    ensures Text.Split(piece, Fence)[0] == FenceCut(text, lo, hi)
  {
    var f := Text.FindFrom(text, Fence, lo);
    Text.SplitFirst(piece, Fence);
    Text.FindInSlice(text, Fence, lo, hi);
    if f.Some? && f.value + |Fence| <= hi {
      assert piece[..f.value - lo] == text[lo..f.value];
    }
  }

  /** `text.split(marker)[1]` runs from the end of the first marker to the next marker or the end. */
  lemma {:induction false} SecondPiece(text: string, marker: string, i: nat)
    requires marker != [] && Text.FindFrom(text, marker, 0) == Some(i)
    ensures i + |marker| <= NextOrEnd(text, marker, i + |marker|) <= |text|
    ensures Text.Split(text, marker)[1] == text[i + |marker|..NextOrEnd(text, marker, i + |marker|)]
  {
    Text.SplitSecond(text, marker, i);
  }

  /**
   * With a ```json fence in the trimmed reply, the candidate starts right
   * after the first one and stops at the first later ``` that ends before the
   * next ```json (else at that next ```json, or at the end).
   */
  lemma {:induction false} JsonFencedCandidate(response: string)
    requires Text.Contains(Text.Strip(response), JsonFence)
    ensures var text := Text.Strip(response);
      var start := Text.FindFrom(text, JsonFence, 0).value + |JsonFence|;
      start <= NextOrEnd(text, JsonFence, start) <= |text| &&
      FenceCandidate(response) == FenceCut(text, start, NextOrEnd(text, JsonFence, start))
  {
    var text := Text.Strip(response);
    var i := Text.FindFrom(text, JsonFence, 0).value;
    SecondPiece(text, JsonFence, i);
    SliceHead(text, i + |JsonFence|, NextOrEnd(text, JsonFence, i + |JsonFence|), Text.Split(text, JsonFence)[1]);
  }

  /** When no second ```json follows, the candidate runs to the next ``` or to the end. */
  lemma {:induction false} JsonFencedCandidateSimple(response: string)
    requires Text.Contains(Text.Strip(response), JsonFence)
    requires var text := Text.Strip(response);
      Text.FindFrom(text, JsonFence, Text.FindFrom(text, JsonFence, 0).value + |JsonFence|).None?
    ensures var text := Text.Strip(response);
      FenceCandidate(response) == Text.UpTo(text, Fence, Text.FindFrom(text, JsonFence, 0).value + |JsonFence|)
  {
    JsonFencedCandidate(response);
  }

  /** With only plain fences, the candidate is the text between the first and the second fence, or to the end. */
  lemma {:induction false} PlainFencedCandidate(response: string)
    requires !Text.Contains(Text.Strip(response), JsonFence)
    requires Text.Contains(Text.Strip(response), Fence)
    ensures var text := Text.Strip(response);
      FenceCandidate(response) == Text.UpTo(text, Fence, Text.FindFrom(text, Fence, 0).value + |Fence|)
  {
    var text := Text.Strip(response);
    var i := Text.FindFrom(text, Fence, 0).value;
    Text.SplitSecond(text, Fence, i);
    var piece := Text.Split(text, Fence)[1];
    UpToHasNoSeparator(text, Fence, i + |Fence|);
    Text.SplitFirst(piece, Fence);
  }

  /** Without any fence the candidate is the trimmed reply. */
  lemma {:induction false} UnfencedCandidate(response: string)
    requires !Text.Contains(Text.Strip(response), Fence)
    ensures FenceCandidate(response) == Text.Strip(response)
  {
    JsonFenceHasFence(Text.Strip(response));
  }

  predicate IsBrace(c: char) {
    c == '{' || c == '}'
  }

  /** `s[i..j+1]` matches `\{[^{}]*\}`: an opening brace, no brace, a closing brace. */
  predicate FlatObjectAt(s: string, i: int, j: int) {
    && 0 <= i < j < |s| && s[i] == '{' && s[j] == '}'
    && forall k :: i < k < j ==> !IsBrace(s[k])
  }

  /** No match of the pattern starts in `[lo, hi)`. */
  predicate NoFlatObjectStartsIn(s: string, lo: int, hi: int) {
    forall i, j :: lo <= i < hi && i < j < |s| ==> !FlatObjectAt(s, i, j)
  }

  /** A match is determined by where it starts. */
  lemma {:induction false} FlatObjectUnique(s: string, i: int, j: int, j': int)
    requires FlatObjectAt(s, i, j) && FlatObjectAt(s, i, j')
    ensures j == j'
  {
  }

  /** Two matches that each start before any other are the same match. */
  lemma {:induction false} LeftmostFlatObject(s: string, i: int, j: int, i': int, j': int)
    requires FlatObjectAt(s, i, j) && NoFlatObjectStartsIn(s, 0, i)
    requires FlatObjectAt(s, i', j') && NoFlatObjectStartsIn(s, 0, i')
    ensures i == i' && j == j'
  {
    FlatObjectUnique(s, i, j, j');
  }

  /** The first brace at or after `from`. */
  function NextBrace(s: string, from: nat): (r: Option<nat>)
    ensures r.Some? ==> from <= r.value < |s| && IsBrace(s[r.value])
    ensures r.Some? ==> forall k :: from <= k < r.value ==> !IsBrace(s[k])
    ensures r.None? ==> forall k :: from <= k < |s| ==> !IsBrace(s[k])
    decreases |s| - from
  {
    if from >= |s| then None
    else if IsBrace(s[from]) then Some(from)
    else NextBrace(s, from + 1)
  }

  /**
   * `re.search(r'\{[^{}]*\}', s[from:])`, as a span of `s`: the regular
   * expression matches at an opening brace exactly when the next brace after
   * it is a closing one, and the search reports the leftmost such start.
   */
  function FlatObjectFrom(s: string, from: nat): (r: Option<(nat, nat)>)
    ensures r.Some? ==> from <= r.value.0 && FlatObjectAt(s, r.value.0, r.value.1)
    ensures r.Some? ==> NoFlatObjectStartsIn(s, from, r.value.0)
    ensures r.None? ==> NoFlatObjectStartsIn(s, from, |s|)
    decreases |s| - from
  {
    if from >= |s| then None
    else
      var n := NextBrace(s, from + 1);
      if s[from] == '{' && n.Some? && s[n.value] == '}' then Some((from, n.value))
      else
        assert forall j :: FlatObjectAt(s, from, j) ==> n.Some? && n.value == j;
        FlatObjectFrom(s, from + 1)
  }

  /** The text that is parsed first: the fence candidate, trimmed. */
  function Candidate(response: string): string {
    Text.Strip(FenceCandidate(response))
  }

  /** The search's match is the only match that starts before any other. */
  lemma {:induction false} SearchFindsLeftmost(s: string)
    ensures var m := FlatObjectFrom(s, 0);
      m.Some? ==> forall i, j :: FlatObjectAt(s, i, j) && NoFlatObjectStartsIn(s, 0, i) ==> (i, j) == m.value
  {
    var m := FlatObjectFrom(s, 0);
    if m.Some? {
      forall i, j | FlatObjectAt(s, i, j) && NoFlatObjectStartsIn(s, 0, i) ensures (i, j) == m.value {
        LeftmostFlatObject(s, m.value.0, m.value.1, i, j);
      }
    }
  }

  /**
   * The fallback parse: the leftmost span of the raw reply that matches
   * `\{[^{}]*\}`, parsed; `None` when there is no such span.
   */
  function FlatObjectFallback(response: string, loads: string -> Option<Json>): (r: Option<Json>)
    ensures NoFlatObjectStartsIn(response, 0, |response|) ==> r.None?
    ensures forall i, j :: (FlatObjectAt(response, i, j) && NoFlatObjectStartsIn(response, 0, i)
      ==> r == loads(response[i..j + 1]))
  {
    var m := FlatObjectFrom(response, 0);
    SearchFindsLeftmost(response);
    if m.None? then None else loads(response[m.value.0..m.value.1 + 1])
  }

  /**
   * The value `generate_json` returns for a reply: the parsed candidate; if
   * that does not parse, the parsed leftmost flat-object match in the raw
   * reply; `None` when neither parses.  A parsed value is returned as is.
   */
  function ExtractJson(response: string, loads: string -> Option<Json>): (r: Option<Json>)
    ensures loads(Candidate(response)).Some? ==> r == loads(Candidate(response))
    ensures loads(Candidate(response)).None? ==> r == FlatObjectFallback(response, loads)
  {
    var first := loads(Candidate(response));
    if first.Some? then first else FlatObjectFallback(response, loads)
  }

  /**
   * `await llm.generate_json(prompt)`: the reply to the JSON-mode prompt,
   * extracted; an exception from the text service propagates.
   */
  function GenerateJson(prompt: Prompt, llm: Prompt -> Result<string>, loads: string -> Option<Json>)
    : (r: Result<Option<Json>>)
    ensures r.Err? <==> llm(JsonMode(prompt)).Err?
    ensures r.Ok? ==> r.value == ExtractJson(llm(JsonMode(prompt)).value, loads)
  {
    match llm(JsonMode(prompt))
    case Ok(text) => Ok(ExtractJson(text, loads))
    case Err(e) => Err(e)
  }

  /**
   * A reply of plain prose — no brace anywhere, and a candidate that does not
   * parse — yields no result.
   */
  lemma {:induction false} ProseYieldsNothing(response: string, loads: string -> Option<Json>)
    requires forall k :: 0 <= k < |response| ==> response[k] != '{'
    requires loads(Candidate(response)).None?
    ensures ExtractJson(response, loads).None?
  {
    assert NoFlatObjectStartsIn(response, 0, |response|);
  }
}
