// `parse_thinking_response` of the thinking-mode vLLM script: split a
// generated text into the reasoning between the first `<think>` and the
// first `</think>`, and the answer after that `</think>`.
module ThinkingMode {
  import opened PyStr
  import opened Markers

  /** The pair `(thinking_content, final_answer)` the script returns. */
  datatype ThinkingSplit = ThinkingSplit(thinking: string, answer: string)

  /** Both markers occur somewhere in the text (`"<think>" in t and
      "</think>" in t`). */
  predicate HasBothMarkers(text: string)
  {
    Contains(text, Open) && Contains(text, Close)
  }

  /** The split, total on every string: both parts are stripped pieces of
      the text. */
  function ParseThinkingResponse(text: string): (r: ThinkingSplit)
    ensures IsStripped(r.thinking) && IsStripped(r.answer)
    ensures Contains(text, r.thinking) && Contains(text, r.answer)
  {
    if HasBothMarkers(text) then
      var startIdx := Find(text, Open) + 7;
      var endIdx := Find(text, Close);
      var middle := Slice(text, startIdx, endIdx);
      var after := SliceFrom(text, endIdx + 8);
      SliceContained(text, startIdx, endIdx);
      SliceContained(text, endIdx + 8, |text|);
      StripIsSubstring(middle);
      StripIsSubstring(after);
      ContainsTrans(text, middle, Strip(middle));
      ContainsTrans(text, after, Strip(after));
      ThinkingSplit(Strip(middle), Strip(after))
    else
      StripIsSubstring(text);
      ContainsEmpty(text);
      ThinkingSplit("", Strip(text))
  }

  /** Without one of the markers there is no reasoning and the whole text,
      stripped, is the answer. */
  lemma ParseWithoutMarkers(text: string)
    requires !HasBothMarkers(text)
    ensures ParseThinkingResponse(text) == ThinkingSplit("", Strip(text))
  {
  }

  /** `<think>` + `a` + `</think>` + `b`, where `a` has no `</think>`,
      splits into `strip(a)` and `strip(b)`. `a` may contain `<think>` and
      `b` anything, further marker pairs included: those stay verbatim in
      the answer, because only the first occurrences are used. */
  lemma ParseWellFormed(a: string, b: string)
    requires !Contains(a, Close)
    ensures ParseThinkingResponse(Open + a + Close + b) == ThinkingSplit(Strip(a), Strip(b))
  {
    var t := Open + a + Close + b;
    WellFormedMarkers(a, b);
    assert t[7..7 + |a|] == a;
    SliceInRange(t, 7, 7 + |a|);
    assert t[7 + |a| + 8..] == b;
    SliceInRange(t, 7 + |a| + 8, |t|);
  }

  /** Where `ParseWellFormed` finds the markers. */
  lemma WellFormedMarkers(a: string, b: string)
    requires !Contains(a, Close)
    ensures var t := Open + a + Close + b;
      HasBothMarkers(t) && Find(t, Open) == 0 && Find(t, Close) == 7 + |a|
  {
    var t := Open + a + Close + b;
    assert t[0..7] == Open;
    assert OccursAt(t, Open, 0);
    CloseRightAfter(t, a, b);
    FirstCloseAfter(a, b);
  }

  /** Conversely, every text whose first `<think>` precedes its first
      `</think>` has that shape: a prefix without `<think>`, the marker, a
      middle without `</think>`, the closing marker, and the rest; the split
      is the stripped middle and the stripped rest. */
  lemma ParseAtFirstPair(text: string)
    requires HasBothMarkers(text)
    requires Find(text, Open) <= Find(text, Close)
    ensures var i, j := Find(text, Open), Find(text, Close);
      && i + 7 <= j
      && text == text[..i] + Open + text[i + 7..j] + Close + text[j + 8..]
      && !Contains(text[..i], Open)
      && !Contains(text[i + 7..j], Close)
      && ParseThinkingResponse(text) == ThinkingSplit(Strip(text[i + 7..j]), Strip(text[j + 8..]))
  {
    var i, j := Find(text, Open), Find(text, Close);
    FirstPairShape(text);
    FirstPairParse(text);
  }

  /** The parse part of `ParseAtFirstPair`. */
  lemma FirstPairParse(text: string)
    requires HasBothMarkers(text)
    requires Find(text, Open) <= Find(text, Close)
    ensures var i, j := Find(text, Open), Find(text, Close);
      && i + 7 <= j && j + 8 <= |text|
      && ParseThinkingResponse(text) == ThinkingSplit(Strip(text[i + 7..j]), Strip(text[j + 8..]))
  {
    var i, j := Find(text, Open), Find(text, Close);
    FirstMarkersApart(text);
    SliceInRange(text, i + 7, j);
    SliceInRange(text, j + 8, |text|);
  }

  /** The shape part of `ParseAtFirstPair`. */
  lemma FirstPairShape(text: string)
    requires HasBothMarkers(text)
    requires Find(text, Open) <= Find(text, Close)
    ensures var i, j := Find(text, Open), Find(text, Close);
      && i + 7 <= j && j + 8 <= |text|
      && text == text[..i] + Open + text[i + 7..j] + Close + text[j + 8..]
      && !Contains(text[..i], Open)
      && !Contains(text[i + 7..j], Close)
  {
    var i, j := Find(text, Open), Find(text, Close);
    FirstMarkersApart(text);
    assert !Contains(text[..i], Open) by {
      NothingBeforeFind(text, Open, 0);
      assert text[0..i] == text[..i];
    }
    assert !Contains(text[i + 7..j], Close) by {
      NothingBeforeFind(text, Close, i + 7);
    }
    FirstPairPieces(text, i, j);
  }

  /** Cutting a text at a `<think>` at `i` and a `</think>` at `j`. */
  lemma FirstPairPieces(text: string, i: nat, j: nat)
    requires i + 7 <= j && OccursAt(text, Open, i) && OccursAt(text, Close, j)
    ensures j + 8 <= |text|
    ensures text == text[..i] + Open + text[i + 7..j] + Close + text[j + 8..]
  {
    OccursAtIs(text, Open, i);
    OccursAtIs(text, Close, j);
    assert text == text[..i] + text[i..i + 7] + text[i + 7..j] + text[j..j + 8] + text[j + 8..];
  }

  lemma OccursAtIs(s: string, pat: string, i: int)
    requires OccursAt(s, pat, i)
    ensures s[i..i + |pat|] == pat
  {
  }

  /** When the first `</think>` comes before the first `<think>`, the
      reasoning slice is empty, yet the answer is still the text after that
      `</think>`. */
  lemma ParseCloseFirst(text: string)
    requires HasBothMarkers(text)
    requires Find(text, Close) < Find(text, Open)
    ensures ParseThinkingResponse(text).thinking == ""
    ensures ParseThinkingResponse(text).answer == Strip(text[Find(text, Close) + 8..])
  {
    StripStripped("");
  }
}
