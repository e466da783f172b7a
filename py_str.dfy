// The Python string and list primitives the scripts build on, with their
// Python meaning: `find`, `in`, slicing (clamped, negative indices counted
// from the end), `strip`, `lower`, `startswith`, `split`, `join`, and `int()`
// / `str()` on integers.
module PyStr {
  import opened Wrappers

  // ---------------------------------------------------------------------
  // Substrings and `find`
  // ---------------------------------------------------------------------

  /** `pat` occurs in `s` starting at index `i`. */
  predicate OccursAt<T(==)>(s: seq<T>, pat: seq<T>, i: int)
  {
    0 <= i && i + |pat| <= |s| && s[i..i + |pat|] == pat
  }

  /** Python's `pat in s`: `pat` is a contiguous piece of `s`. */
  predicate Contains<T(==)>(s: seq<T>, pat: seq<T>)
  {
    exists i | 0 <= i <= |s| - |pat| :: OccursAt(s, pat, i)
  }

  /** Python's `s.find(pat, from)` restricted to a start `from` inside `s`. */
  function FindFrom<T(==)>(s: seq<T>, pat: seq<T>, from: nat): (r: int)
    requires from <= |s|
    ensures r == -1 ==> forall j :: from <= j ==> !OccursAt(s, pat, j)
    ensures r != -1 ==> from <= r && OccursAt(s, pat, r)
    ensures r != -1 ==> forall j :: from <= j < r ==> !OccursAt(s, pat, j)
    decreases |s| - from
  {
    if from + |pat| > |s| then -1
    else if s[from..from + |pat|] == pat then from
    else FindFrom(s, pat, from + 1)
  }

  /** Python's `s.find(pat)`: the lowest index at which `pat` occurs, or -1. */
  function Find<T(==)>(s: seq<T>, pat: seq<T>): (r: int)
    ensures r == -1 <==> !Contains(s, pat)
    ensures r != -1 ==> OccursAt(s, pat, r)
    ensures forall j :: 0 <= j < r ==> !OccursAt(s, pat, j)
  {
    FindFrom(s, pat, 0)
  }

  /** A character that differs from the pattern rules out an occurrence. */
  lemma Mismatch<T>(s: seq<T>, pat: seq<T>, i: int, k: int)
    requires 0 <= i && 0 <= k < |pat|
    requires i + k < |s| ==> s[i + k] != pat[k]
    ensures !OccursAt(s, pat, i)
  {
    if i + |pat| <= |s| {
      assert s[i..i + |pat|][k] == s[i + k];
    }
  }

  /** An occurrence fixes the characters it covers. */
  lemma OccursAtIndex<T>(s: seq<T>, pat: seq<T>, i: int, k: int)
    requires OccursAt(s, pat, i) && 0 <= k < |pat|
    ensures s[i + k] == pat[k]
  {
    assert s[i..i + |pat|][k] == s[i + k];
  }

  /** Being a substring is transitive. */
  lemma ContainsTrans<T>(s: seq<T>, m: seq<T>, r: seq<T>)
    requires Contains(s, m) && Contains(m, r)
    ensures Contains(s, r)
  {
    var i :| 0 <= i <= |s| - |m| && OccursAt(s, m, i);
    var j :| 0 <= j <= |m| - |r| && OccursAt(m, r, j);
    assert m == s[i..i + |m|];
    assert r == m[j..j + |r|];
    forall k | 0 <= k < |r| ensures s[i + j + k] == r[k] {
      assert r[k] == m[j + k] == s[i + j + k];
    }
    assert s[i + j..i + j + |r|] == r;
    assert OccursAt(s, r, i + j);
  }

  lemma SliceOfSlice<T>(s: seq<T>, lo: int, hi: int, a: int, b: int)
    requires 0 <= lo <= hi <= |s| && 0 <= a <= b <= hi - lo
    ensures s[lo..hi][a..b] == s[lo + a..lo + b]
  {
    var x, y := s[lo..hi][a..b], s[lo + a..lo + b];
    assert |x| == |y|;
    forall i | 0 <= i < |x|
      ensures x[i] == y[i]
    {
      assert x[i] == s[lo..hi][a + i] == s[lo + a + i];
    }
  }

  /** The empty sequence is in every sequence. */
  lemma ContainsEmpty<T>(s: seq<T>)
    ensures Contains(s, [])
  {
    assert OccursAt(s, [], 0);
  }

  /** A window of `s` with no occurrence starting inside it (and fitting in
      it) has no occurrence at all. */
  lemma NoOccurrenceIn<T>(s: seq<T>, pat: seq<T>, lo: int, hi: int)
    requires 0 <= lo <= hi <= |s|
    requires forall k :: lo <= k && k + |pat| <= hi ==> !OccursAt(s, pat, k)
    ensures !Contains(s[lo..hi], pat)
  {
    var w := s[lo..hi];
    forall k | 0 <= k
      ensures !OccursAt(w, pat, k)
    {
      if k + |pat| <= |w| {
        SliceOfSlice(s, lo, hi, k, k + |pat|);
        assert !OccursAt(s, pat, lo + k);
      }
    }
  }

  /** No window ending at the first occurrence holds the pattern. */
  lemma NothingBeforeFind<T>(s: seq<T>, pat: seq<T>, lo: int)
    requires pat != [] && Contains(s, pat) && 0 <= lo <= Find(s, pat)
    ensures !Contains(s[lo..Find(s, pat)], pat)
  {
    NoOccurrenceIn(s, pat, lo, Find(s, pat));
  }

  /** Python's `s.startswith(p)`. */
  predicate StartsWith<T(==)>(s: seq<T>, p: seq<T>)
  {
    |p| <= |s| && s[..|p|] == p
  }

  // ---------------------------------------------------------------------
  // Slicing with Python's clamping rules (step 1)
  // ---------------------------------------------------------------------

  /** Where a slice bound `i` lands in a sequence of length `n`: negative
      bounds count from the end, and everything is clamped into `0..n`. */
  function SliceBound(i: int, n: nat): (b: nat)
    ensures b <= n
    ensures 0 <= i <= n ==> b == i
    ensures 0 - n <= i < 0 ==> b == n + i
  {
    if i < 0 then (if i + n < 0 then 0 else i + n)
    else if i > n then n
    else i
  }

  /** Python's `s[i:j]`: empty when the normalised bounds cross. */
  function Slice<T>(s: seq<T>, i: int, j: int): (r: seq<T>)
    ensures var lo, hi := SliceBound(i, |s|), SliceBound(j, |s|);
      |r| == (if lo < hi then hi - lo else 0) &&
      forall k :: 0 <= k < |r| ==> r[k] == s[lo + k]
  {
    var lo, hi := SliceBound(i, |s|), SliceBound(j, |s|);
    if lo < hi then s[lo..hi] else []
  }

  /** Python's `s[i:]`. */
  function SliceFrom<T>(s: seq<T>, i: int): (r: seq<T>)
    ensures r == s[SliceBound(i, |s|)..]
  {
    Slice(s, i, |s|)
  }

  /** Python's `s[:j]`. */
  function SliceTo<T>(s: seq<T>, j: int): (r: seq<T>)
    ensures r == s[..SliceBound(j, |s|)]
  {
    Slice(s, 0, j)
  }

  /** Every slice is a contiguous piece of the sliced sequence. */
  /** Within bounds, Python's slice is Dafny's. */
  lemma SliceInRange<T>(s: seq<T>, i: int, j: int)
    requires 0 <= i <= j <= |s|
    ensures Slice(s, i, j) == s[i..j]
  {
  }

  lemma SliceContained<T>(s: seq<T>, i: int, j: int)
    ensures Contains(s, Slice(s, i, j))
  {
    var lo := SliceBound(i, |s|);
    var r := Slice(s, i, j);
    assert s[lo..lo + |r|] == r;
    assert OccursAt(s, r, lo);
  }

  /** Dropping a known prefix by slicing from its length gives back the rest
      (`generated[len(prompt):]` when `generated` starts with `prompt`). */
  lemma SliceFromAfterPrefix<T>(p: seq<T>, q: seq<T>)
    ensures SliceFrom(p + q, |p|) == q
  {
  }

  /** `s[n:]` has `max(0, len(s) - n)` elements for a non-negative `n`. */
  lemma SliceFromLength<T>(s: seq<T>, n: nat)
    ensures |SliceFrom(s, n)| == if n <= |s| then |s| - n else 0
  {
  }

  // ---------------------------------------------------------------------
  // Whitespace and `strip`
  // ---------------------------------------------------------------------

  /** Python 3's `str.isspace` for one character. */
  predicate IsSpace(c: char)
  {
    || '\t' <= c <= '\r'
    || '\U{1C}' <= c <= ' '
    || c == '\U{85}' || c == '\U{A0}' || c == '\U{1680}'
    || '\U{2000}' <= c <= '\U{200A}'
    || c == '\U{2028}' || c == '\U{2029}' || c == '\U{202F}'
    || c == '\U{205F}' || c == '\U{3000}'
  }

  /** No whitespace at either end: what `strip` produces. */
  predicate IsStripped(s: string)
  {
    s == [] || (!IsSpace(s[0]) && !IsSpace(s[|s| - 1]))
  }

  /** Number of whitespace characters `s` starts with. */
  function LeadingSpace(s: string): (n: nat)
    ensures n <= |s|
    ensures forall k :: 0 <= k < n ==> IsSpace(s[k])
    ensures n < |s| ==> !IsSpace(s[n])
  {
    if s != [] && IsSpace(s[0]) then 1 + LeadingSpace(s[1..]) else 0
  }

  /** Number of whitespace characters `s` ends with. */
  function TrailingSpace(s: string): (n: nat)
    ensures n <= |s|
    ensures forall k :: |s| - n <= k < |s| ==> IsSpace(s[k])
    ensures n < |s| ==> !IsSpace(s[|s| - 1 - n])
  {
    if s != [] && IsSpace(s[|s| - 1]) then 1 + TrailingSpace(s[..|s| - 1]) else 0
  }

  /** Python's `s.strip()`: the piece of `s` left after removing whitespace
      from both ends. Exactly whitespace is removed, and all of it. */
  function Strip(s: string): (r: string)
    ensures IsStripped(r)
    ensures LeadingSpace(s) + |r| <= |s|
    ensures r == s[LeadingSpace(s)..LeadingSpace(s) + |r|]
    ensures forall k :: 0 <= k < |s| && !(LeadingSpace(s) <= k < LeadingSpace(s) + |r|) ==> IsSpace(s[k])
  {
    var t := s[LeadingSpace(s)..];
    var r := t[..|t| - TrailingSpace(t)];
    assert r != [] ==> r[0] == s[LeadingSpace(s)];
    r
  }

  /** A stripped string is its own `strip`. */
  lemma StripStripped(s: string)
    requires IsStripped(s)
    ensures Strip(s) == s
  {
    var t := s[LeadingSpace(s)..];
    assert LeadingSpace(s) == 0;
    assert TrailingSpace(t) == 0;
  }

  /** `strip` is idempotent. */
  lemma StripIdempotent(s: string)
    ensures Strip(Strip(s)) == Strip(s)
  {
    StripStripped(Strip(s));
  }

  /** The result of `strip` is a contiguous piece of its input. */
  lemma StripIsSubstring(s: string)
    ensures Contains(s, Strip(s))
  {
    assert OccursAt(s, Strip(s), LeadingSpace(s));
  }

  /** All characters of `w` are whitespace. */
  predicate AllSpace(w: string)
  {
    forall k :: 0 <= k < |w| ==> IsSpace(w[k])
  }

  /** Whitespace around a stripped, non-empty core is exactly what `strip`
      removes. */
  lemma StripAround(w1: string, m: string, w2: string)
    requires AllSpace(w1) && AllSpace(w2)
    requires m != [] && IsStripped(m)
    ensures Strip(w1 + m + w2) == m
  {
    var s := w1 + m + w2;
    LeadingSpaceAfter(w1, m + w2);
    assert s == w1 + (m + w2);
    assert LeadingSpace(s) == |w1|;
    var r := Strip(s);
    assert s[|w1|] == m[0];
    assert s[|w1| + |m| - 1] == m[|m| - 1];
    assert |r| == |m|;
    assert r == s[|w1|..|w1| + |m|];
  }

  /** Leading whitespace of `w + u`, where `u` starts with non-whitespace. */
  lemma {:induction false} LeadingSpaceAfter(w: string, u: string)
    requires AllSpace(w)
    requires u != [] && !IsSpace(u[0])
    ensures LeadingSpace(w + u) == |w|
    decreases |w|
  {
    if w != [] {
      assert (w + u)[1..] == w[1..] + u;
      LeadingSpaceAfter(w[1..], u);
    }
  }

  /** Stripping `p + q`, where `p` starts and ends with non-whitespace, keeps
      `p` whole at the front: only `q` can lose characters. */
  lemma StripKeepsSolidPrefix(p: string, q: string)
    requires p != [] && !IsSpace(p[0]) && !IsSpace(p[|p| - 1])
    ensures StartsWith(Strip(p + q), p)
  {
    var s := p + q;
    assert LeadingSpace(s) == 0;
    assert !IsSpace(s[|p| - 1]);
  }

  // ---------------------------------------------------------------------
  // `lower`
  // ---------------------------------------------------------------------

  /** Lower-case mapping of one character (ASCII letters only). */
  function LowerChar(c: char): char
  {
    if 'A' <= c <= 'Z' then (c as int + 32) as char else c
  }

  /** `s.lower()`, on ASCII letters. */
  function Lower(s: string): (r: string)
    ensures |r| == |s|
    ensures forall k :: 0 <= k < |s| ==> r[k] == LowerChar(s[k])
  {
    seq(|s|, k requires 0 <= k < |s| => LowerChar(s[k]))
  }

  // ---------------------------------------------------------------------
  // `split` and `join`
  // ---------------------------------------------------------------------

  /** Index of the first `c` in `s`. */
  function IndexOf(s: string, c: char): (i: nat)
    requires c in s
    ensures i < |s| && s[i] == c && c !in s[..i]
  {
    if s[0] == c then 0 else 1 + IndexOf(s[1..], c)
  }

  /** Python's `s.split(sep)` for a one-character separator: the pieces
      between separators, never an empty list. */
  function Split(s: string, sep: char): (parts: seq<string>)
    ensures |parts| >= 1
    ensures forall k :: 0 <= k < |parts| ==> sep !in parts[k]
    decreases |s|
  {
    if sep !in s then [s]
    else
      var i := IndexOf(s, sep);
      [s[..i]] + Split(s[i + 1..], sep)
  }

  /** Python's `sep.join(parts)`. */
  function Join(parts: seq<string>, sep: string): string
  {
    if |parts| == 0 then ""
    else if |parts| == 1 then parts[0]
    else parts[0] + sep + Join(parts[1..], sep)
  }

  /** Splitting and re-joining with the same separator gives the string back. */
  lemma {:induction false} SplitJoin(s: string, sep: char)
    ensures Join(Split(s, sep), [sep]) == s
    decreases |s|
  {
    if sep in s {
      var i := IndexOf(s, sep);
      var rest := Split(s[i + 1..], sep);
      SplitJoin(s[i + 1..], sep);
      assert Split(s, sep) == [s[..i]] + rest;
      assert ([s[..i]] + rest)[1..] == rest;
      assert s == s[..i] + [sep] + s[i + 1..];
    }
  }

  /** When `s` starts with `p + [sep]` and `p` has no separator, the first
      piece of `s.split(sep)` is `p` and the second is what follows up to
      the next separator. */
  lemma SplitAfterPrefix(p: string, sep: char, rest: string)
    requires sep !in p
    ensures var parts := Split(p + [sep] + rest, sep);
      |parts| >= 2 && parts[0] == p && parts[1] == Split(rest, sep)[0]
  {
    var s := p + [sep] + rest;
    assert s[|p|] == sep;
    var i := IndexOf(s, sep);
    assert s[..|p|] == p;
    assert i == |p|;
    assert s[..i] == p;
    assert s[i + 1..] == rest;
  }

  // ---------------------------------------------------------------------
  // `os.path.join` for two POSIX path components
  // ---------------------------------------------------------------------

  /** `os.path.join(a, b)`: an absolute `b` replaces `a`; otherwise one `/`
      is put between them unless `a` is empty or already ends with one. */
  function PathJoin(a: string, b: string): (r: string)
    ensures b != [] && b[0] == '/' ==> r == b
    ensures !(b != [] && b[0] == '/') ==> |a| + |b| <= |r| && r[|r| - |b|..] == b && r[..|a|] == a
    ensures !(b != [] && b[0] == '/') && a != [] && a[|a| - 1] != '/' ==> r == a + ['/'] + b
  {
    if b != [] && b[0] == '/' then b
    else if a == [] || a[|a| - 1] == '/' then a + b
    else a + ['/'] + b
  }

  /** A relative component can be taken back off the joined path. */
  lemma PathJoinSplits(a: string, b: string)
    requires !(b != [] && b[0] == '/')
    requires a != [] && a[|a| - 1] != '/'
    ensures SliceFrom(PathJoin(a, b), |a| + 1) == b
  {
    SliceFromAfterPrefix(a + ['/'], b);
  }

  // ---------------------------------------------------------------------
  // `int(s)` and `str(n)` for integers in base 10
  // ---------------------------------------------------------------------

  predicate IsDigit(c: char)
  {
    '0' <= c <= '9'
  }

  predicate AllDigits(s: string)
  {
    forall k :: 0 <= k < |s| ==> IsDigit(s[k])
  }

  function DigitsValue(ds: string): nat
    requires AllDigits(ds)
  {
    if ds == [] then 0
    else 10 * DigitsValue(ds[..|ds| - 1]) + (ds[|ds| - 1] as int - '0' as int)
  }

  /** Python's `int(s)`: surrounding whitespace, an optional sign and at least
      one decimal digit; `None` where Python raises `ValueError`. */
  function ParseInt(s: string): Option<int>
  {
    var t := Strip(s);
    if t != [] && (t[0] == '-' || t[0] == '+') then
      var ds := t[1..];
      if ds != [] && AllDigits(ds) then
        var v: int := DigitsValue(ds);
        Some(if t[0] == '-' then -v else v)
      else None
    else if t != [] && AllDigits(t) then Some(DigitsValue(t))
    else None
  }

  function DigitChar(d: nat): (c: char)
    requires d < 10
    ensures IsDigit(c) && c as int - '0' as int == d
  {
    ('0' as int + d) as char
  }

  /** `str(n)` for a natural number. */
  function NatToString(n: nat): (s: string)
    ensures s != [] && AllDigits(s)
  {
    if n < 10 then [DigitChar(n)] else NatToString(n / 10) + [DigitChar(n % 10)]
  }

  /** Python's `str(n)` for an integer. */
  function IntToString(n: int): (s: string)
    ensures s != [] && IsStripped(s)
  {
    if n < 0 then "-" + NatToString(-n) else NatToString(n)
  }

  lemma {:induction false} NatToStringValue(n: nat)
    ensures DigitsValue(NatToString(n)) == n
  {
    if n >= 10 {
      var s := NatToString(n);
      NatToStringValue(n / 10);
      assert s[..|s| - 1] == NatToString(n / 10);
    }
  }

  /** `int(str(n)) == n`: the decimal rendering reads back as the same number. */
  lemma IntToStringRoundTrip(n: int)
    ensures ParseInt(IntToString(n)) == Some(n)
  {
    if n < 0 {
      NegativeRoundTrip(n);
    } else {
      NonNegativeRoundTrip(n);
    }
  }

  lemma NonNegativeRoundTrip(n: nat)
    ensures ParseInt(IntToString(n)) == Some(n)
  {
    var s := IntToString(n);
    assert s == NatToString(n);
    StripStripped(s);
    assert IsDigit(s[0]);
    NatToStringValue(n);
  }

  lemma NegativeRoundTrip(n: int)
    requires n < 0
    ensures ParseInt(IntToString(n)) == Some(n)
  {
    var ds := NatToString(-n);
    var s := ['-'] + ds;
    assert IntToString(n) == s;
    StripStripped(s);
    assert s[1..] == ds;
    NatToStringValue(-n);
    assert ParseInt(s) == Some(0 - DigitsValue(ds));
  }
}
