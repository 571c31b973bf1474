/** The parts of Python's `str` semantics that the OCR service relies on:
    whitespace, `in`, `find`, `strip`, `splitlines`, `lower`, `replace`,
    `int(...)` and `str(...)`. Strings are sequences of Unicode scalar values. */
module Strings {
  import opened Results

  // ---------------------------------------------------------------------------
  // Character classes
  // ---------------------------------------------------------------------------

  /** `c.isspace()`: the 29 code points Python treats as whitespace. */
  predicate IsSpace(c: char) {
    c == ' ' || ('\t' <= c <= '\r') || ('\U{1C}' <= c <= '\U{1F}')
    || c == '\U{85}' || c == '\U{A0}' || c == '\U{1680}'
    || ('\U{2000}' <= c <= '\U{200A}') || c == '\U{2028}' || c == '\U{2029}'
    || c == '\U{202F}' || c == '\U{205F}' || c == '\U{3000}'
  }

  /** The line boundaries recognised by `str.splitlines()`. */
  predicate IsLineBreak(c: char) {
    c == '\n' || c == '\r' || c == '\U{0B}' || c == '\U{0C}'
    || ('\U{1C}' <= c <= '\U{1E}') || c == '\U{85}' || c == '\U{2028}' || c == '\U{2029}'
  }

  predicate IsDigit(c: char) {
    '0' <= c <= '9'
  }

  predicate AllDigits(s: string) {
    forall k :: 0 <= k < |s| ==> IsDigit(s[k])
  }

  predicate AllSpace(s: string) {
    forall k :: 0 <= k < |s| ==> IsSpace(s[k])
  }

  // ---------------------------------------------------------------------------
  // Substrings: `p in s` and `s.find(p, from)`
  // ---------------------------------------------------------------------------

  /** `p` occurs in `s` starting at index `i`. */
  predicate StartsAt(s: string, i: nat, p: string) {
    i + |p| <= |s| && s[i..i + |p|] == p
  }

  predicate StartsWith(s: string, p: string) {
    StartsAt(s, 0, p)
  }

  /** Python's `p in s`. */
  predicate Contains(s: string, p: string) {
    exists i: nat | i <= |s| :: StartsAt(s, i, p)
  }

  /** A pattern whose first character never appears in `s` does not occur in
      `s`. */
  lemma {:induction false} FirstCharAbsent(s: string, p: string)
    requires |p| > 0 && p[0] !in s
    ensures !Contains(s, p)
  {
    forall i: nat | i <= |s|
      ensures !StartsAt(s, i, p)
    {
      if i + |p| <= |s| {
        assert s[i..i + |p|][0] == s[i];
      }
    }
  }

  /** A string starts with each of its prefixes. */
  lemma {:induction false} PrefixStartsWith(a: string, b: string)
    ensures StartsWith(a + b, a)
  {
    assert (a + b)[..|a|] == a;
  }

  /** `s.find(p, from)`: the first index at or after `from` where `p` starts. */
  function FindFrom(s: string, p: string, from: nat): (r: Option<nat>)
    decreases |s| - from
    ensures r.Some? ==> from <= r.value && StartsAt(s, r.value, p)
    ensures r.Some? ==> forall k: nat :: from <= k < r.value ==> !StartsAt(s, k, p)
    ensures r.None? ==> forall k: nat :: from <= k ==> !StartsAt(s, k, p)
  {
    if from + |p| > |s| then None
    else if StartsAt(s, from, p) then Some(from)
    else FindFrom(s, p, from + 1)
  }

  /** A slice of a string without `q` does not contain `q` either. */
  lemma {:induction false} NotContainsSlice(s: string, i: nat, j: nat, q: string)
    requires i <= j <= |s|
    requires !Contains(s, q)
    ensures !Contains(s[i..j], q)
  {
    var t := s[i..j];
    forall m: nat
      ensures !StartsAt(t, m, q)
    {
      if m + |q| <= |t| {
        var u, w := t[m..m + |q|], s[i + m..i + m + |q|];
        forall x | 0 <= x < |q|
          ensures u[x] == w[x]
        {
        }
        assert u == w;
        assert !StartsAt(s, i + m, q);
      }
    }
  }

  /** A window of `s` in which `q` starts nowhere, and which therefore holds
      no `q`. */
  lemma {:induction false} NoneInWindow(s: string, a: nat, b: nat, q: string)
    requires a <= b <= |s| && |q| > 0
    requires forall x :: a <= x < b ==> !StartsAt(s, x, q)
    ensures !Contains(s[a..b], q)
  {
    var t := s[a..b];
    forall m: nat
      ensures !StartsAt(t, m, q)
    {
      if m + |q| <= |t| {
        var u, w := t[m..m + |q|], s[a + m..a + m + |q|];
        forall x | 0 <= x < |q|
          ensures u[x] == w[x]
        {
        }
        assert u == w;
        assert !StartsAt(s, a + m, q);
      }
    }
  }

  /** Two adjacent slices make up the slice that spans both. */
  lemma {:induction false} SliceConcat(s: string, a: nat, b: nat, c: nat)
    requires a <= b <= c <= |s|
    ensures s[a..b] + s[b..c] == s[a..c]
  {
  }

  /** No occurrence of `q` can straddle a non-empty piece `r` whose first
      character is not in `q` and that holds no first character of `q`. */
  lemma {:induction false} NoStraddle(a: string, r: string, b: string, q: string)
    requires |q| > 0 && |r| > 0
    requires q[0] !in r && r[0] !in q
    requires !Contains(a, q) && !Contains(b, q)
    ensures !Contains(a + r + b, q)
  {
    var t := a + r + b;
    forall i: nat
      ensures !StartsAt(t, i, q)
    {
      if i + |q| > |t| {
      } else if i + |q| <= |a| {
        assert t[i..i + |q|] == a[i..i + |q|];
        assert !StartsAt(a, i, q);
      } else if i >= |a| + |r| {
        var i' := i - |a| - |r|;
        assert t[i..i + |q|] == b[i'..i' + |q|];
        assert !StartsAt(b, i', q);
      } else if i >= |a| {
        assert t[i..i + |q|][0] == r[i - |a|];
      } else {
        assert t[i..i + |q|][|a| - i] == r[0];
      }
    }
  }

  // ---------------------------------------------------------------------------
  // `s.strip()` and `s.splitlines()`
  // ---------------------------------------------------------------------------

  /** The first index at or after `i` that does not hold whitespace. */
  function SkipSpace(s: string, i: nat): (a: nat)
    requires i <= |s|
    decreases |s| - i
    ensures i <= a <= |s|
    ensures forall k :: i <= k < a ==> IsSpace(s[k])
    ensures a < |s| ==> !IsSpace(s[a])
  {
    if i == |s| || !IsSpace(s[i]) then i else SkipSpace(s, i + 1)
  }

  /** The end of `s[a..j]` once trailing whitespace is dropped. */
  function DropTrailingSpace(s: string, a: nat, j: nat): (b: nat)
    requires a <= j <= |s|
    decreases j
    ensures a <= b <= j
    ensures forall k :: b <= k < j ==> IsSpace(s[k])
    ensures b > a ==> !IsSpace(s[b - 1])
  {
    if j == a || !IsSpace(s[j - 1]) then j else DropTrailingSpace(s, a, j - 1)
  }

  /** `r` is `s` with the whitespace run of length `i` removed in front and
      only whitespace removed behind. */
  ghost predicate StrippedAt(s: string, i: nat, r: string) {
    && i + |r| <= |s| && r == s[i..i + |r|]
    && AllSpace(s[..i]) && AllSpace(s[i + |r|..])
  }

  /** `s.strip()` with no argument. */
  function Strip(s: string): (r: string)
    ensures r == [] || (!IsSpace(r[0]) && !IsSpace(r[|r| - 1]))
    ensures r == [] <==> AllSpace(s)
  {
    var a := SkipSpace(s, 0);
    var b := DropTrailingSpace(s, a, |s|);
    s[a..b]
  }

  /** `Strip` removes whitespace at both ends and nothing else. */
  lemma {:induction false} StripIsSlice(s: string)
    ensures exists i: nat :: StrippedAt(s, i, Strip(s))
  {
    var a := SkipSpace(s, 0);
    var b := DropTrailingSpace(s, a, |s|);
    assert Strip(s) == s[a..b];
    assert StrippedAt(s, a, s[a..b]);
  }

  lemma {:induction false} StripUnchanged(s: string)
    requires s == [] || (!IsSpace(s[0]) && !IsSpace(s[|s| - 1]))
    ensures Strip(s) == s
  {
  }

  /** First line boundary at or after `i`, or `|s|`. */
  function LineEnd(s: string, i: nat): (k: nat)
    requires i <= |s|
    decreases |s| - i
    ensures i <= k <= |s|
    ensures forall j :: i <= j < k ==> !IsLineBreak(s[j])
    ensures k < |s| ==> IsLineBreak(s[k])
  {
    if i == |s| || IsLineBreak(s[i]) then i else LineEnd(s, i + 1)
  }

  /** `s.splitlines()`: `\r\n` is one boundary, and a trailing boundary does
      not open an empty last line. */
  function SplitLines(s: string): (lines: seq<string>)
    decreases |s|
    ensures s == [] <==> lines == []
  {
    if s == [] then []
    else
      var k := LineEnd(s, 0);
      if k == |s| then [s]
      else
        var next := if s[k] == '\r' && k + 1 < |s| && s[k + 1] == '\n' then k + 2 else k + 1;
        [s[..k]] + SplitLines(s[next..])
  }

  predicate NoLineBreaks(lines: seq<string>) {
    forall j, c :: 0 <= j < |lines| && 0 <= c < |lines[j]| ==> !IsLineBreak(lines[j][c])
  }

  /** No line holds a line boundary. */
  lemma {:induction false} SplitLinesNoBreaks(s: string)
    ensures NoLineBreaks(SplitLines(s))
    decreases |s|
  {
    if s != [] {
      var k := LineEnd(s, 0);
      if k < |s| {
        var next := if s[k] == '\r' && k + 1 < |s| && s[k + 1] == '\n' then k + 2 else k + 1;
        SplitLinesNoBreaks(s[next..]);
        var lines := SplitLines(s);
        var rest := SplitLines(s[next..]);
        assert lines == [s[..k]] + rest;
        forall j, c | 0 <= j < |lines| && 0 <= c < |lines[j]|
          ensures !IsLineBreak(lines[j][c])
        {
          if j > 0 {
            assert lines[j] == rest[j - 1];
          } else {
            assert lines[0] == s[..k];
            assert lines[0][c] == s[c];
            assert c < k;
          }
        }
      }
    }
  }

  // ---------------------------------------------------------------------------
  // `s.lower()` on ASCII letters
  // ---------------------------------------------------------------------------

  function LowerChar(c: char): char {
    if 'A' <= c <= 'Z' then (c as int + 32) as char else c
  }

  function Lower(s: string): (r: string)
    ensures |r| == |s|
    ensures forall k :: 0 <= k < |s| ==> r[k] == LowerChar(s[k])
  {
    seq(|s|, k requires 0 <= k < |s| => LowerChar(s[k]))
  }

  /** Lower-casing twice is lower-casing once. */
  lemma {:induction false} LowerIdempotent(s: string)
    ensures Lower(Lower(s)) == Lower(s)
  {
    var a, b := Lower(Lower(s)), Lower(s);
    forall k | 0 <= k < |s| ensures a[k] == b[k] {}
  }

  // ---------------------------------------------------------------------------
  // Decimal numerals: `str(n)` and `int(s)`
  // ---------------------------------------------------------------------------

  function DigitChar(d: nat): (c: char)
    requires d < 10
    ensures IsDigit(c)
  {
    (d + '0' as int) as char
  }

  function DigitValue(c: char): nat
    requires IsDigit(c)
  {
    c as int - '0' as int
  }

  /** `str(n)` for a non-negative integer. */
  function NatToString(n: nat): (r: string)
    ensures |r| > 0 && AllDigits(r)
    ensures (r[0] == '0') == (n == 0)
    ensures (|r| == 1) == (n < 10)
  {
    if n < 10 then [DigitChar(n)] else NatToString(n / 10) + [DigitChar(n % 10)]
  }

  /** The value of a string of decimal digits, most significant first. */
  function DigitsValue(d: string): nat
    requires AllDigits(d)
  {
    if |d| == 0 then 0 else DigitsValue(d[..|d| - 1]) * 10 + DigitValue(d[|d| - 1])
  }

  lemma {:induction false} NatToStringValue(n: nat)
    ensures DigitsValue(NatToString(n)) == n
  {
    if n >= 10 {
      var s := NatToString(n);
      assert s[..|s| - 1] == NatToString(n / 10);
      NatToStringValue(n / 10);
    }
  }

  /** A number below `10^k`, for `k >= 1`, has at most `k` digits. */
  lemma {:induction false} NumeralLength(n: nat, k: nat)
    requires k >= 1 && n < Pow10(k)
    ensures |NatToString(n)| <= k
  {
    if n >= 10 {
      NumeralLength(n / 10, k - 1);
    }
  }

  function Pow10(k: nat): (p: nat)
    ensures p >= 1
  {
    if k == 0 then 1 else 10 * Pow10(k - 1)
  }

  /** `str(i)` for any integer. */
  function IntToString(i: int): string {
    if i < 0 then "-" + NatToString(-i) else NatToString(i)
  }

  /** CPython's default `sys.get_int_max_str_digits()`: `int()` refuses a
      decimal string of more digits, and the parser refuses a numeral of more
      digits unless it is a run of zeros. */
  const IntMaxStrDigits: nat := 4300

  /** `int(s)` on a decimal string: surrounding whitespace, an optional sign
      and from one to `IntMaxStrDigits` digits, leading zeros counted. `None`
      is the `ValueError` Python raises. */
  function ParseInt(s: string): Option<int> {
    var t := Strip(s);
    var negative := |t| > 0 && t[0] == '-';
    var body := if |t| > 0 && (t[0] == '-' || t[0] == '+') then t[1..] else t;
    if |body| == 0 || !AllDigits(body) || |body| > IntMaxStrDigits then None
    else
      var v: int := DigitsValue(body);
      Some(if negative then -v else v)
  }

  /** `int` of a bare digit string: its value, unless it is too long. */
  lemma {:induction false} ParseIntOfDigits(d: string)
    requires |d| > 0 && AllDigits(d)
    ensures ParseInt(d) == if |d| <= IntMaxStrDigits then Some(DigitsValue(d)) else None
  {
    assert !IsSpace(d[0]) && !IsSpace(d[|d| - 1]);
    StripUnchanged(d);
  }

  /** `int` of a digit string behind a minus sign. */
  lemma {:induction false} ParseIntOfNegatedDigits(d: string)
    requires |d| > 0 && AllDigits(d)
    ensures ParseInt("-" + d) == if |d| <= IntMaxStrDigits then Some(-(DigitsValue(d) as int)) else None
  {
    var m := "-" + d;
    assert m[0] == '-' && m[|m| - 1] == d[|d| - 1];
    assert !IsSpace(m[0]) && !IsSpace(m[|m| - 1]);
    StripUnchanged(m);
    assert m[1..] == d;
  }

  /** `int(str(i)) == i` when the numeral has at most `IntMaxStrDigits`
      digits; a longer one is refused. */
  lemma {:induction false} ParseIntOfIntToString(i: int)
    ensures ParseInt(IntToString(i)) ==
      if |NatToString(if i < 0 then -i else i)| <= IntMaxStrDigits then Some(i) else None
  {
    var n: nat := if i < 0 then -i else i;
    NatToStringValue(n);
    if i < 0 {
      ParseIntOfNegatedDigits(NatToString(n));
    } else {
      ParseIntOfDigits(NatToString(n));
    }
  }

  // ---------------------------------------------------------------------------
  // `s.replace(p, r)`
  // ---------------------------------------------------------------------------

  /** Python's `s.replace(p, r)` for a non-empty `p`: every occurrence, found
      left to right without overlap, is replaced. */
  function ReplaceAll(s: string, p: string, r: string): (res: string)
    requires |p| > 0
    decreases |s|
  {
    match FindFrom(s, p, 0)
    case None => s
    case Some(k) => s[..k] + r + ReplaceAll(s[k + |p|..], p, r)
  }

  /** `s.replace("", r)`: `r` before every character and at the end. */
  function InsertEverywhere(s: string, r: string): (res: string)
    ensures |res| == |s| + (|s| + 1) * |r|
    decreases |s|
  {
    if s == [] then r else r + ([s[0]] + InsertEverywhere(s[1..], r))
  }

  /** Python's `s.replace(p, r)` for any `p`. */
  function Replace(s: string, p: string, r: string): string {
    if |p| == 0 then InsertEverywhere(s, r) else ReplaceAll(s, p, r)
  }

  /** Without an occurrence of `p` there is nothing to replace. */
  lemma {:induction false} ReplaceAllAbsent(s: string, p: string, r: string)
    requires |p| > 0 && !Contains(s, p)
    ensures ReplaceAll(s, p, r) == s
  {
  }

  /** The text before the first occurrence of `p` holds no `p`. */
  lemma {:induction false} NoneBeforeFirst(s: string, p: string, k: nat)
    requires |p| > 0
    requires FindFrom(s, p, 0) == Some(k)
    ensures !Contains(s[..k], p)
  {
    var a := s[..k];
    forall i: nat
      ensures !StartsAt(a, i, p)
    {
      if i + |p| <= |a| {
        assert a[i..i + |p|] == s[i..i + |p|];
        assert !StartsAt(s, i, p);
      }
    }
  }

  /** Cutting `s` around its first `p` leaves two pieces that still meet the
      hypothesis of `ReplaceKeepsOut`. */
  lemma {:induction false} SplitAtFirst(s: string, p: string, k: nat, q: string)
    requires |p| > 0
    requires FindFrom(s, p, 0) == Some(k)
    requires q == p || !Contains(s, q)
    ensures !Contains(s[..k], q)
    ensures q == p || !Contains(s[k + |p|..], q)
  {
    if q == p {
      NoneBeforeFirst(s, p, k);
    } else {
      NotContainsSlice(s, 0, k, q);
      NotContainsSlice(s, k + |p|, |s|, q);
      assert s[k + |p|..|s|] == s[k + |p|..];
    }
  }

  /** Replacing `p` by a piece `r` that cannot start or be entered by an
      occurrence of `q` leaves no `q` behind: neither a `q` that was absent
      before, nor `p` itself. */
  lemma {:induction false} ReplaceKeepsOut(s: string, p: string, r: string, q: string)
    requires |p| > 0 && |q| > 0 && |r| > 0
    requires q[0] !in r && r[0] !in q
    requires q == p || !Contains(s, q)
    ensures !Contains(ReplaceAll(s, p, r), q)
    decreases |s|
  {
    var f := FindFrom(s, p, 0);
    if f.Some? {
      var k := f.value;
      var rest := s[k + |p|..];
      SplitAtFirst(s, p, k, q);
      ReplaceKeepsOut(rest, p, r, q);
      ReplaceAllAt(s, p, r, k);
      NoStraddle(s[..k], r, ReplaceAll(rest, p, r), q);
    }
  }

  lemma {:induction false} ReplaceAllNone(s: string, p: string, r: string)
    requires |p| > 0
    requires FindFrom(s, p, 0).None?
    ensures ReplaceAll(s, p, r) == s
  {
  }

  lemma {:induction false} ReplaceAllAt(s: string, p: string, r: string, k: nat)
    requires |p| > 0
    requires FindFrom(s, p, 0) == Some(k)
    ensures ReplaceAll(s, p, r) == s[..k] + r + ReplaceAll(s[k + |p|..], p, r)
  {
  }

  /** An occurrence in `b` is an occurrence in `a + b`, shifted by `|a|`. */
  lemma {:induction false} StartsAtShift(a: string, b: string, j: nat, p: string)
    ensures StartsAt(a + b, |a| + j, p) <==> StartsAt(b, j, p)
  {
    if j + |p| <= |b| {
      assert (a + b)[|a| + j..|a| + j + |p|] == b[j..j + |p|];
    }
  }

  /** `find` returns the first occurrence: one at `k` with none before. */
  lemma {:induction false} FindFromIs(s: string, p: string, k: nat)
    requires StartsAt(s, k, p)
    requires forall i: nat :: i < k ==> !StartsAt(s, i, p)
    ensures FindFrom(s, p, 0) == Some(k)
  {
  }

  /** `find` from `from` returns the first occurrence at or after it. */
  lemma {:induction false} FindFromAt(s: string, p: string, from: nat, k: nat)
    requires from <= k && StartsAt(s, k, p)
    requires forall i: nat :: from <= i < k ==> !StartsAt(s, i, p)
    ensures FindFrom(s, p, from) == Some(k)
  {
  }

  /** With `p` starting nowhere in `a`, `find` in `a + b` is `find` in `b`
      shifted by `|a|`. */
  lemma {:induction false} FindPastPrefix(a: string, b: string, p: string)
    requires forall i: nat :: i < |a| ==> !StartsAt(a + b, i, p)
    ensures FindFrom(b, p, 0).None? ==> FindFrom(a + b, p, 0).None?
    ensures FindFrom(b, p, 0).Some? ==> FindFrom(a + b, p, 0) == Some(|a| + FindFrom(b, p, 0).value)
  {
    if FindFrom(b, p, 0).Some? {
      FindPastPrefixAt(a, b, p, FindFrom(b, p, 0).value);
    } else {
      forall i: nat ensures !StartsAt(a + b, i, p) {
        if i >= |a| {
          StartsAtShift(a, b, i - |a|, p);
        }
      }
    }
  }

  lemma {:induction false} FindPastPrefixAt(a: string, b: string, p: string, k: nat)
    requires forall i: nat :: i < |a| ==> !StartsAt(a + b, i, p)
    requires FindFrom(b, p, 0) == Some(k)
    ensures FindFrom(a + b, p, 0) == Some(|a| + k)
  {
    StartsAtShift(a, b, k, p);
    forall i: nat | i < |a| + k ensures !StartsAt(a + b, i, p) {
      if i >= |a| {
        StartsAtShift(a, b, i - |a|, p);
      }
    }
    FindFromIs(a + b, p, |a| + k);
  }

  /** A prefix in which `p` starts nowhere passes through `replace`
      untouched. */
  lemma {:induction false} ReplaceAllSkip(a: string, b: string, p: string, r: string)
    requires |p| > 0
    requires forall i: nat :: i < |a| ==> !StartsAt(a + b, i, p)
    ensures ReplaceAll(a + b, p, r) == a + ReplaceAll(b, p, r)
  {
    FindPastPrefix(a, b, p);
    ReplaceAllShifted(a, b, p, r);
  }

  lemma {:induction false} ReplaceAllShifted(a: string, b: string, p: string, r: string)
    requires |p| > 0
    requires FindFrom(b, p, 0).None? ==> FindFrom(a + b, p, 0).None?
    requires FindFrom(b, p, 0).Some? ==> FindFrom(a + b, p, 0) == Some(|a| + FindFrom(b, p, 0).value)
    ensures ReplaceAll(a + b, p, r) == a + ReplaceAll(b, p, r)
  {
    if FindFrom(b, p, 0).Some? {
      ReplaceAllShiftedAt(a, b, p, r, FindFrom(b, p, 0).value);
    } else {
      ReplaceAllNone(a + b, p, r);
      ReplaceAllNone(b, p, r);
    }
  }

  lemma {:induction false} ReplaceAllShiftedAt(a: string, b: string, p: string, r: string, k: nat)
    requires |p| > 0
    requires FindFrom(b, p, 0) == Some(k) && FindFrom(a + b, p, 0) == Some(|a| + k)
    ensures ReplaceAll(a + b, p, r) == a + ReplaceAll(b, p, r)
  {
    var head, rest := b[..k], b[k + |p|..];
    ReplaceAllParts(b, p, r, k, head, rest);
    SlicesOfShifted(a, b, k, |p|);
    ReplaceAllParts(a + b, p, r, |a| + k, a + head, rest);
    JoinAround(a, head, r, ReplaceAll(rest, p, r), ReplaceAll(a + b, p, r), ReplaceAll(b, p, r));
  }

  lemma {:induction false} SlicesOfShifted(a: string, b: string, k: nat, n: nat)
    requires k + n <= |b|
    ensures (a + b)[..|a| + k] == a + b[..k] && (a + b)[|a| + k + n..] == b[k + n..]
  {
  }

  lemma {:induction false} ReplaceAllParts(s: string, p: string, r: string, k: nat, head: string, rest: string)
    requires |p| > 0
    requires FindFrom(s, p, 0) == Some(k)
    requires head == s[..k] && rest == s[k + |p|..]
    ensures ReplaceAll(s, p, r) == head + r + ReplaceAll(rest, p, r)
  {
    ReplaceAllAt(s, p, r, k);
  }

  lemma {:induction false} JoinAround(a: string, x: string, r: string, y: string, whole: string, part: string)
    requires whole == (a + x) + r + y && part == x + r + y
    ensures whole == a + part
  {
  }

  /** A pattern whose first character is not in `g` starts nowhere in `g`,
      whatever follows it. */
  lemma {:induction false} NoStartIn(g: string, u: string, q: string)
    requires |q| > 0 && q[0] !in g
    ensures forall i: nat :: i < |g| ==> !StartsAt(g + u, i, q)
  {
    forall i: nat | i < |g| ensures !StartsAt(g + u, i, q) {
      if i + |q| <= |g + u| {
        assert (g + u)[i..i + |q|][0] == g[i];
      }
    }
  }

  /** A pattern whose first character occurs neither before nor after its
      one occurrence is replaced there and nowhere else. */
  lemma {:induction false} ReplaceSoleOccurrence(g: string, p: string, tail: string, r: string)
    requires |p| > 0 && p[0] !in g && p[0] !in tail
    ensures ReplaceAll(g + (p + tail), p, r) == g + (r + tail)
  {
    NoStartIn(g, p + tail, p);
    ReplaceAllSkip(g, p + tail, p, r);
    ReplaceAllFront(p, tail, r);
    FirstCharAbsent(tail, p);
    ReplaceAllAbsent(tail, p, r);
  }

  lemma {:induction false} Regroup(a: string, b: string, c: string, d: string, e: string)
    ensures a + b + c + d + e == a + (b + (c + d + e))
  {
  }

  /** An occurrence at the very start is replaced first. */
  lemma {:induction false} ReplaceAllFront(p: string, b: string, r: string)
    requires |p| > 0
    ensures ReplaceAll(p + b, p, r) == r + ReplaceAll(b, p, r)
  {
    PrefixStartsWith(p, b);
    assert FindFrom(p + b, p, 0) == Some(0);
    ReplaceAllAt(p + b, p, r, 0);
    assert (p + b)[|p|..] == b;
  }
}
