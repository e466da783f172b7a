// The reasoning markers Qwen3 emits around its chain of thought, and where
// their first occurrences can lie. Every tag-splitting routine in the
// scripts searches for the first `<think>` and the first `</think>` and
// slices with the literal offsets 7 and 8, the markers' lengths.
module Markers {
  import opened PyStr

  const Open: string := "<think>"
  const Close: string := "</think>"

  /** The offsets the scripts add after `find` are the marker lengths. */
  lemma MarkerLengths()
    ensures |Open| == 7 && |Close| == 8
  {
  }

  /** `</think>` cannot start inside an occurrence of `<think>`: the only
      `<` of `<think>` is its first character, and there the next
      character is `t`, not `/`. */
  lemma CloseNotInsideOpen(t: string, i: int)
    requires OccursAt(t, Open, i)
    ensures forall j :: i <= j < i + 7 ==> !OccursAt(t, Close, j)
  {
    forall j | i <= j < i + 7
      ensures !OccursAt(t, Close, j)
    {
      if j == i {
        OccursAtIndex(t, Open, i, 1);
        Mismatch(t, Close, j, 1);
      } else {
        OccursAtIndex(t, Open, i, j - i);
        Mismatch(t, Close, j, 0);
      }
    }
  }

  /** In any text holding both markers, the first `</think>` lies either
      before the first `<think>` or after its last character. */
  lemma FirstMarkersApart(t: string)
    requires Contains(t, Open) && Contains(t, Close)
    ensures Find(t, Close) < Find(t, Open) || Find(t, Open) + 7 <= Find(t, Close)
  {
    CloseNotInsideOpen(t, Find(t, Open));
  }

  /** A text made of `<think>`, a piece `a` without `</think>`, then
      `</think>`: the first `</think>` is the one right after `a`. */
  lemma FirstCloseAfter(a: string, b: string)
    requires !Contains(a, Close)
    ensures Find(Open + a + Close + b, Close) == 7 + |a|
  {
    var t := Open + a + Close + b;
    CloseRightAfter(t, a, b);
    NoCloseBefore(t, a, b);
  }

  lemma CloseRightAfter(t: string, a: string, b: string)
    requires t == Open + a + Close + b
    ensures OccursAt(t, Close, 7 + |a|)
  {
    assert t[7 + |a|..7 + |a| + 8] == Close;
  }

  lemma NoCloseBefore(t: string, a: string, b: string)
    requires t == Open + a + Close + b
    requires !Contains(a, Close)
    ensures forall j :: 0 <= j < 7 + |a| ==> !OccursAt(t, Close, j)
  {
    assert OccursAt(t, Open, 0);
    CloseNotInsideOpen(t, 0);
    forall j | 7 <= j < 7 + |a|
      ensures !OccursAt(t, Close, j)
    {
      if j + 8 <= 7 + |a| {
        assert !OccursAt(a, Close, j - 7);
        assert t[j..j + 8] == a[j - 7..j + 1];
      } else {
        // The piece would overlap the real `</think>`, whose first
        // character `<` appears nowhere else in `</think>`.
        var d := 7 + |a| - j;
        CloseRightAfter(t, a, b);
        OccursAtIndex(t, Close, 7 + |a|, 0);
        Mismatch(t, Close, j, d);
      }
    }
  }

  /** Without `</think>` in `a`, the text `<think>` + `a` has none either. */
  lemma NoCloseAfterOpen(a: string)
    requires !Contains(a, Close)
    ensures !Contains(Open + a, Close)
  {
    var t := Open + a;
    assert OccursAt(t, Open, 0);
    CloseNotInsideOpen(t, 0);
    forall j | 7 <= j
      ensures !OccursAt(t, Close, j)
    {
      if j + 8 <= |t| {
        assert !OccursAt(a, Close, j - 7);
        assert t[j..j + 8] == a[j - 7..j + 1];
      }
    }
  }

  /** A text without the character `<` holds no marker. */
  lemma NoMarkerWithoutAngle(a: string)
    requires '<' !in a
    ensures !Contains(a, Close) && !Contains(a, Open)
  {
    forall j | 0 <= j
      ensures !OccursAt(a, Close, j) && !OccursAt(a, Open, j)
    {
      if j < |a| {
        assert a[j] != '<';
      }
      Mismatch(a, Close, j, 0);
      Mismatch(a, Open, j, 0);
    }
  }
}
