/**
 * The handful of Python `str` operations the pipeline relies on: `strip`,
 * `in`, `split`, `join`, `lower` and `str(int)`.
 */
module Text {
  import opened Wrappers

  /** Python's `str.isspace()` for one character (the characters `str.strip()` removes). */
  predicate IsSpace(c: char) {
    || c == ' ' || c == '\t' || c == '\n' || c == '\r' || c == '\U{b}' || c == '\U{c}'
    || ('\U{1c}' <= c <= '\U{1f}') || c == '\U{85}' || c == '\U{a0}' || c == '\U{1680}'
    || ('\U{2000}' <= c <= '\U{200a}') || c == '\U{2028}' || c == '\U{2029}'
    || c == '\U{202f}' || c == '\U{205f}' || c == '\U{3000}'
  }

  /** `s.lstrip()`: the longest suffix of `s` that does not start with whitespace. */
  function TrimStart(s: string): (r: string)
    ensures |r| <= |s| && r == s[|s| - |r|..]
    ensures r == [] || !IsSpace(r[0])
    ensures forall k :: 0 <= k < |s| - |r| ==> IsSpace(s[k])
  {
    if s != [] && IsSpace(s[0]) then TrimStart(s[1..]) else s
  }

  /** `s.rstrip()`: the longest prefix of `s` that does not end with whitespace. */
  function TrimEnd(s: string): (r: string)
    ensures |r| <= |s| && r == s[..|r|]
    ensures r == [] || !IsSpace(r[|r| - 1])
    ensures forall k :: |r| <= k < |s| ==> IsSpace(s[k])
  {
    if s != [] && IsSpace(s[|s| - 1]) then TrimEnd(s[..|s| - 1]) else s
  }

  /**
   * `s.strip()`: a contiguous slice of `s` that neither starts nor ends with
   * whitespace, and everything cut away on either side is whitespace.
   */
  function Strip(s: string): (r: string)
    ensures exists i :: StrippedAt(s, r, i)
    ensures r == [] || (!IsSpace(r[0]) && !IsSpace(r[|r| - 1]))
  {
    var t := TrimStart(s);
    var r := TrimEnd(t);
    var i := |s| - |t|;
    assert r == s[i..i + |r|];
    assert StrippedAt(s, r, i);
    r
  }

  /** `r` is the slice of `s` at `i`, and only whitespace lies outside it. */
  predicate StrippedAt(s: string, r: string, i: int) {
    && 0 <= i <= |s| - |r| && r == s[i..i + |r|]
    && (forall k :: 0 <= k < i ==> IsSpace(s[k]))
    && (forall k :: i + |r| <= k < |s| ==> IsSpace(s[k]))
  }

  lemma {:induction false} TrimEndKeepsStart(s: string)
    requires s == [] || !IsSpace(s[0])
    ensures TrimStart(TrimEnd(s)) == TrimEnd(s)
  {
  }

  /** Stripping twice is stripping once. */
  lemma {:induction false} StripIdempotent(s: string)
    ensures Strip(Strip(s)) == Strip(s)
  {
    var r := Strip(s);
    assert TrimStart(r) == r;
    TrimEndKeepsStart(r);
  }

  /** `pat` occurs in `s` starting at index `i`. */
  predicate OccursAt(s: string, pat: string, i: int) {
    0 <= i && i + |pat| <= |s| && forall m :: 0 <= m < |pat| ==> s[i + m] == pat[m]
  }

  /** `s.find(pat, from)`: the leftmost occurrence of `pat` at or after `from`. */
  function FindFrom(s: string, pat: string, from: nat): (r: Option<nat>)
    ensures r.Some? ==> from <= r.value && OccursAt(s, pat, r.value)
    ensures r.Some? ==> forall k :: from <= k < r.value ==> !OccursAt(s, pat, k)
    ensures r.None? ==> forall k :: from <= k ==> !OccursAt(s, pat, k)
    decreases |s| - from
  {
    if from + |pat| > |s| then None
    else if OccursAt(s, pat, from) then Some(from)
    else FindFrom(s, pat, from + 1)
  }

  /** Python's `pat in s`. */
  predicate Contains(s: string, pat: string) {
    FindFrom(s, pat, 0).Some?
  }

  lemma {:induction false} ContainsIff(s: string, pat: string)
    ensures Contains(s, pat) <==> exists k :: OccursAt(s, pat, k)
  {
    if !Contains(s, pat) {
      assert forall k :: 0 <= k ==> !OccursAt(s, pat, k);
    }
  }

  /** `s.split(sep)` for a non-empty separator. */
  function Split(s: string, sep: string): (parts: seq<string>)
    requires sep != []
    ensures |parts| >= 1
    ensures Contains(s, sep) ==> |parts| >= 2
    decreases |s|
  {
    match FindFrom(s, sep, 0)
    case None => [s]
    case Some(i) => [s[..i]] + Split(s[i + |sep|..], sep)
  }

  /** `sep.join(parts)`. */
  function Join(sep: string, parts: seq<string>): (r: string)
    ensures |parts| == 1 ==> r == parts[0]
  {
    if |parts| == 0 then ""
    else if |parts| == 1 then parts[0]
    else parts[0] + sep + Join(sep, parts[1..])
  }

  lemma {:induction false} OccursInSlice(s: string, pat: string, lo: nat, hi: nat, q: nat)
    requires lo <= hi <= |s|
    ensures OccursAt(s[lo..hi], pat, q) <==> OccursAt(s, pat, lo + q) && lo + q + |pat| <= hi
  {
    if q + |pat| <= hi - lo {
      var a, b := s[lo..hi][q..q + |pat|], s[lo + q..lo + q + |pat|];
      forall m | 0 <= m < |pat| ensures a[m] == b[m] {
        assert a[m] == s[lo + q + m];
      }
      assert a == b;
    }
  }

  /** An occurrence with none before it, from `from` on, is what `find` returns. */
  lemma {:induction false} FindFromFirst(s: string, pat: string, from: nat, a: nat)
    requires from <= a && OccursAt(s, pat, a)
    requires forall k :: from <= k < a ==> !OccursAt(s, pat, k)
    ensures FindFrom(s, pat, from) == Some(a)
  {
    var f := FindFrom(s, pat, from);
    assert f.Some?;
    assert f.value <= a;
  }

  /**
   * Searching a slice `s[lo..hi]` finds the first occurrence in `s` at or
   * after `lo`, provided that occurrence ends by `hi`.
   */
  lemma {:induction false} FindInSlice(s: string, pat: string, lo: nat, hi: nat)
    requires lo <= hi <= |s|
    ensures var f := FindFrom(s, pat, lo);
      FindFrom(s[lo..hi], pat, 0)
        == if f.Some? && f.value + |pat| <= hi then Some(f.value - lo) else None
  {
    var t := s[lo..hi];
    var f := FindFrom(s, pat, lo);
    if f.Some? && f.value + |pat| <= hi {
      var q := f.value - lo;
      OccursInSlice(s, pat, lo, hi, q);
      forall k | 0 <= k < q ensures !OccursAt(t, pat, k) {
        OccursInSlice(s, pat, lo, hi, k);
      }
      FindFromFirst(t, pat, 0, q);
    } else {
      forall k: nat ensures !OccursAt(t, pat, k) {
        OccursInSlice(s, pat, lo, hi, k);
      }
    }
  }

  /** The first piece of `s.split(sep)` is everything before the first `sep`, and has no `sep` in it. */
  lemma {:induction false} SplitFirst(s: string, sep: string)
    requires sep != []
    ensures !Contains(Split(s, sep)[0], sep)
    ensures FindFrom(s, sep, 0).None? ==> Split(s, sep)[0] == s
    ensures FindFrom(s, sep, 0).Some? ==> Split(s, sep)[0] == s[..FindFrom(s, sep, 0).value]
  {
    var p := Split(s, sep)[0];
    match FindFrom(s, sep, 0)
    case None =>
    case Some(i) =>
      assert p == s[0..i];
      forall k: nat ensures OccursAt(p, sep, k) ==> OccursAt(s, sep, k) && k + |sep| <= i {
        OccursInSlice(s, sep, 0, i, k);
      }
  }

  lemma {:induction false} SplitUnfold(s: string, sep: string, i: nat)
    requires sep != [] && FindFrom(s, sep, 0) == Some(i)
    ensures i + |sep| <= |s|
    ensures Split(s, sep) == [s[..i]] + Split(s[i + |sep|..], sep)
  {
    assert OccursAt(s, sep, i);
  }

  lemma {:induction false} AroundSeparator(s: string, sep: string, i: nat)
    requires OccursAt(s, sep, i)
    ensures s == s[..i] + sep + s[i + |sep|..]
  {
    assert s[i..i + |sep|] == sep;
    assert s == s[..i] + s[i..i + |sep|] + s[i + |sep|..];
  }

  /** Everything before the first `sep` in `s`, or all of `s`. */
  function UpTo(s: string, sep: string, from: nat): (r: string)
    requires from <= |s|
  {
    var n := FindFrom(s, sep, from);
    if n.Some? then s[from..n.value] else s[from..]
  }

  lemma {:induction false} SplitFirstUpTo(s: string, sep: string)
    requires sep != []
    ensures Split(s, sep)[0] == UpTo(s, sep, 0)
  {
    SplitFirst(s, sep);
  }

  /** The second piece of `s.split(sep)` runs from the end of the first `sep` to the next `sep` or the end. */
  lemma {:induction false} SplitSecond(s: string, sep: string, i: nat)
    requires sep != [] && FindFrom(s, sep, 0) == Some(i)
    ensures i + |sep| <= |s|
    ensures Split(s, sep)[1] == UpTo(s, sep, i + |sep|)
  {
    SplitUnfold(s, sep, i);
    var start := i + |sep|;
    var rest := s[start..];
    var tail := Split(rest, sep);
    assert Split(s, sep)[1] == tail[0];
    SplitFirstUpTo(rest, sep);
    UpToShift(s, sep, start);
  }

  lemma {:induction false} UpToShift(s: string, sep: string, start: nat)
    requires start <= |s|
    ensures UpTo(s[start..], sep, 0) == UpTo(s, sep, start)
  {
    var rest := s[start..];
    assert s[start..|s|] == rest;
    FindInSlice(s, sep, start, |s|);
    var n := FindFrom(s, sep, start);
    if n.Some? {
      assert rest[..n.value - start] == s[start..n.value];
    }
  }

  /** `sep.join(s.split(sep)) == s`. */
  lemma {:induction false} JoinSplit(s: string, sep: string)
    requires sep != []
    ensures Join(sep, Split(s, sep)) == s
    decreases |s|
  {
    var f := FindFrom(s, sep, 0);
    if f.Some? {
      var i := f.value;
      SplitUnfold(s, sep, i);
      AroundSeparator(s, sep, i);
      var rest := s[i + |sep|..];
      var tail := Split(rest, sep);
      JoinSplit(rest, sep);
      assert ([s[..i]] + tail)[1..] == tail;
    }
  }

  /** A string without the separator's first character holds no separator. */
  lemma {:induction false} NoSeparatorIn(s: string, sep: string)
    requires sep != [] && sep[0] !in s
    ensures FindFrom(s, sep, 0).None?
  {
    forall k | 0 <= k ensures !OccursAt(s, sep, k) {
      if k + |sep| <= |s| {
        assert s[k] in s;
        assert s[k + 0] != sep[0];
      }
    }
  }

  /** In `p + sep + rest`, with `sep[0]` not in `p`, the first separator is the one after `p`. */
  lemma {:induction false} FirstSeparatorAfter(p: string, sep: string, rest: string)
    requires sep != [] && sep[0] !in p
    ensures FindFrom(p + sep + rest, sep, 0) == Some(|p|)
    ensures (p + sep + rest)[..|p|] == p && (p + sep + rest)[|p| + |sep|..] == rest
  {
    var s := p + sep + rest;
    forall k | 0 <= k < |p| ensures !OccursAt(s, sep, k) {
      assert s[k] == p[k] && p[k] in p;
      if k + |sep| <= |s| {
        assert s[k + 0] != sep[0];
      }
    }
    assert forall m :: 0 <= m < |sep| ==> s[|p| + m] == sep[m];
    FindFromFirst(s, sep, 0, |p|);
  }

  /**
   * `s.split(sep)` recovers the parts of `sep.join(parts)` when no part holds
   * the separator's first character (so no occurrence can start inside a part).
   */
  lemma {:induction false} SplitJoin(parts: seq<string>, sep: string)
    requires sep != [] && |parts| >= 1
    requires forall p :: p in parts ==> sep[0] !in p
    ensures Split(Join(sep, parts), sep) == parts
    decreases |parts|
  {
    var p := parts[0];
    assert p in parts;
    if |parts| == 1 {
      NoSeparatorIn(p, sep);
    } else {
      var rest := Join(sep, parts[1..]);
      assert Join(sep, parts) == p + sep + rest;
      FirstSeparatorAfter(p, sep, rest);
      SplitUnfold(p + sep + rest, sep, |p|);
      SplitJoin(parts[1..], sep);
    }
  }

  /** A join of pieces that all avoid a character avoids it too. */
  lemma {:induction false} JoinAvoids(sep: string, parts: seq<string>, c: char)
    requires c !in sep && forall p :: p in parts ==> c !in p
    ensures c !in Join(sep, parts)
    decreases |parts|
  {
    if |parts| > 1 {
      assert parts[0] in parts;
      assert forall p :: p in parts[1..] ==> p in parts;
      JoinAvoids(sep, parts[1..], c);
    } else if |parts| == 1 {
      assert parts[0] in parts;
    }
  }

  /** ASCII lower-casing of one character. */
  function LowerChar(c: char): (r: char)
    ensures 'A' <= c <= 'Z' ==> 'a' <= r <= 'z'
    ensures !('A' <= c <= 'Z') ==> r == c
  {
    if 'A' <= c <= 'Z' then (c as int + 32) as char else c
  }

  /** `s.lower()` restricted to ASCII letters. */
  function Lower(s: string): (r: string)
    ensures |r| == |s|
    ensures forall k :: 0 <= k < |s| ==> r[k] == LowerChar(s[k])
  {
    if s == [] then [] else [LowerChar(s[0])] + Lower(s[1..])
  }

  function DigitChar(d: nat): (c: char)
    requires d < 10
    ensures '0' <= c <= '9'
  {
    ('0' as int + d) as char
  }

  /** `str(n)` for a natural number: its decimal digits, no leading zero. */
  function NatToString(n: nat): (r: string)
    ensures |r| >= 1
    ensures forall k :: 0 <= k < |r| ==> '0' <= r[k] <= '9'
    ensures |r| > 1 ==> r[0] != '0'
    decreases n
  {
    if n < 10 then [DigitChar(n)] else NatToString(n / 10) + [DigitChar(n % 10)]
  }

  /** The value of a string of decimal digits. */
  function DigitsValue(s: string): nat
    requires forall k :: 0 <= k < |s| ==> '0' <= s[k] <= '9'
  {
    if s == [] then 0 else 10 * DigitsValue(s[..|s| - 1]) + (s[|s| - 1] as int - '0' as int)
  }

  /** `int(str(n)) == n`: the decimal rendering loses nothing. */
  lemma {:induction false} NatToStringValue(n: nat)
    ensures DigitsValue(NatToString(n)) == n
    decreases n
  {
    if n >= 10 {
      NatToStringValue(n / 10);
      var s := NatToString(n);
      assert s[..|s| - 1] == NatToString(n / 10);
    }
  }

  /** `str(i)` for any integer. */
  function IntToString(i: int): (r: string)
    ensures i >= 0 ==> r == NatToString(i)
    ensures i < 0 ==> r == "-" + NatToString(-i)
  {
    if i >= 0 then NatToString(i) else "-" + NatToString(-i)
  }
}
