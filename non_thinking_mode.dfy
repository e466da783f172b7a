// `clean_response` of the non-thinking-mode vLLM script: drop everything up
// to and including the first `</think>` when both markers occur (the empty
// `<think></think>` pair Qwen3 emits when reasoning is switched off), then
// trim.
module NonThinkingMode {
  import opened PyStr
  import opened Markers
  import opened ThinkingMode

  /** The cleaned answer: a stripped piece of the text. */
  function CleanResponse(text: string): (r: string)
    ensures IsStripped(r)
    ensures Contains(text, r)
  {
    if HasBothMarkers(text) then
      var startIdx := Find(text, Close) + 8;
      SliceContained(text, startIdx, |text|);
      StripIsSubstring(SliceFrom(text, startIdx));
      ContainsTrans(text, SliceFrom(text, startIdx), Strip(SliceFrom(text, startIdx)));
      Strip(SliceFrom(text, startIdx))
    else
      StripIsSubstring(text);
      Strip(text)
  }

  /** On every input, the cleaned text is the answer half of the
      thinking-mode split. */
  lemma CleanMatchesParse(text: string)
    ensures CleanResponse(text) == ParseThinkingResponse(text).answer
  {
  }

  /** `<think>` + `a` + `</think>` + `b`, with no `</think>` in `a`, cleans
      to `strip(b)`. */
  lemma CleanWellFormed(a: string, b: string)
    requires !Contains(a, Close)
    ensures CleanResponse(Open + a + Close + b) == Strip(b)
  {
    CleanMatchesParse(Open + a + Close + b);
    ParseWellFormed(a, b);
  }

  /** A text with an opening `<think>` and no `</think>` is only trimmed:
      the tag stays in the result. */
  lemma CleanOnlyOpen(a: string)
    requires !Contains(a, Close)
    ensures CleanResponse(Open + a) == Strip(Open + a)
    ensures StartsWith(CleanResponse(Open + a), Open)
  {
    NoCloseAfterOpen(a);
    StripKeepsSolidPrefix(Open, a);
  }

  /** Cleaning a cleaned text again changes nothing, unless the cleaned text
      still holds both markers. */
  lemma CleanAgainWithoutPair(text: string)
    requires !HasBothMarkers(CleanResponse(text))
    ensures CleanResponse(CleanResponse(text)) == CleanResponse(text)
  {
    StripStripped(CleanResponse(text));
  }

  /** Cleaning is not idempotent in general: for any visible character `c`,
      a second marker pair in `<think></think><think></think>c` survives the
      first pass and is removed by the second. */
  lemma CleanNotIdempotent(c: char, t: string)
    requires !IsSpace(c)
    requires t == Open + Close + Open + Close + [c]
    ensures CleanResponse(CleanResponse(t)) != CleanResponse(t)
  {
    var b := Open + Close + [c];
    assert t == Open + Close + b;
    CleanFirstPass(c, b);
    CleanSecondPass(c, b);
    assert |b| != 1;
  }

  lemma CleanFirstPass(c: char, b: string)
    requires !IsSpace(c)
    requires b == Open + Close + [c]
    ensures CleanResponse(Open + Close + b) == b
  {
    CleanAfterEmptyPair(b);
    assert b[0] == '<' && b[|b| - 1] == c;
    StripStripped(b);
  }

  lemma CleanSecondPass(c: char, b: string)
    requires !IsSpace(c)
    requires b == Open + Close + [c]
    ensures CleanResponse(b) == [c]
  {
    CleanAfterEmptyPair([c]);
    StripStripped([c]);
  }

  /** An empty marker pair in front is cleaned away. */
  lemma CleanAfterEmptyPair(b: string)
    ensures CleanResponse(Open + Close + b) == Strip(b)
  {
    var e: string := [];
    NoMarkerWithoutAngle(e);
    assert Open + e + Close + b == Open + Close + b;
    CleanWellFormed(e, b);
  }
}
