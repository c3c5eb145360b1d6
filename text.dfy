/**
 * Character classes and string searches that the Python regular expressions
 * and `str` methods of the core rely on, written out as Dafny predicates and
 * functions.
 */
module Text {
  import opened Wrappers

  /**
   * Python's `str.isspace()`; the regex class `\s` of a str pattern and the
   * argument-less `str.strip()` use the same set.
   */
  predicate IsSpace(c: char) {
    var n := c as int;
    n == 0x20 || 0x09 <= n <= 0x0D || 0x1C <= n <= 0x1F || n == 0x85 || n == 0xA0 || n == 0x1680
    || 0x2000 <= n <= 0x200A || n == 0x2028 || n == 0x2029 || n == 0x202F || n == 0x205F || n == 0x3000
  }

  predicate IsAsciiDigit(c: char) {
    '0' <= c <= '9'
  }

  /**
   * The first code points of the blocks of ten Unicode decimal digits
   * (general category Nd, Unicode 15.0) beyond ASCII, in ascending order.
   */
  const DigitBlockStarts: seq<int> := [
    0x660, 0x6F0, 0x7C0, 0x966, 0x9E6, 0xA66, 0xAE6, 0xB66,
    0xBE6, 0xC66, 0xCE6, 0xD66, 0xDE6, 0xE50, 0xED0, 0xF20,
    0x1040, 0x1090, 0x17E0, 0x1810, 0x1946, 0x19D0, 0x1A80, 0x1A90,
    0x1B50, 0x1BB0, 0x1C40, 0x1C50, 0xA620, 0xA8D0, 0xA900, 0xA9D0,
    0xA9F0, 0xAA50, 0xABF0, 0xFF10, 0x104A0, 0x10D30, 0x11066, 0x110F0,
    0x11136, 0x111D0, 0x112F0, 0x11450, 0x114D0, 0x11650, 0x116C0, 0x11730,
    0x118E0, 0x11950, 0x11C50, 0x11D50, 0x11DA0, 0x11F50, 0x16A60, 0x16AC0,
    0x16B50, 0x1D7CE, 0x1D7D8, 0x1D7E2, 0x1D7EC, 0x1D7F6, 0x1E140, 0x1E2F0,
    0x1E4F0, 0x1E950, 0x1FBF0
  ]

  /**
   * Python's regex class `\d` in a str pattern: the Unicode decimal digits,
   * ASCII '0'..'9' and the blocks above, all of which start at U+0660 or later.
   */
  predicate IsDigit(c: char) {
    IsAsciiDigit(c)
    || (0x660 <= c as int && exists i :: 0 <= i < |DigitBlockStarts| && DigitBlockStarts[i] <= c as int < DigitBlockStarts[i] + 10)
  }

  /** Every character of `s` satisfies `p`. */
  predicate All(s: string, p: char -> bool) {
    forall k :: 0 <= k < |s| ==> p(s[k])
  }

  /** End of the longest run of `p`-characters starting at `i`: a greedy `p*`. */
  function Span(s: string, i: nat, p: char -> bool): (e: nat)
    requires i <= |s|
    ensures i <= e <= |s|
    ensures forall k :: i <= k < e ==> p(s[k])
    ensures e == |s| || !p(s[e])
    decreases |s| - i
  {
    if i < |s| && p(s[i]) then Span(s, i + 1, p) else i
  }

  /** A run end is determined by the run: any `e` with the properties of `Span` is the span. */
  lemma {:induction false} SpanUnique(s: string, i: nat, p: char -> bool, e: nat)
    requires i <= e <= |s|
    requires forall k :: i <= k < e ==> p(s[k])
    requires e == |s| || !p(s[e])
    ensures Span(s, i, p) == e
    decreases e - i
  {
    if i < e {
      SpanUnique(s, i + 1, p, e);
    }
  }

  /** Starting inside a run ends it at the same place. */
  lemma SpanFrom(s: string, j: nat, p: char -> bool)
    requires j <= Span(s, 0, p)
    ensures Span(s, j, p) == Span(s, 0, p)
  {
    SpanUnique(s, j, p, Span(s, 0, p));
  }

  /** A span measured on a suffix is the same span, shifted. */
  lemma SpanDrop(s: string, d: nat, p: char -> bool)
    requires d <= |s|
    ensures Span(s[d..], 0, p) == Span(s, d, p) - d
  {
    var e := Span(s, d, p);
    var t := s[d..];
    forall k | 0 <= k < e - d
      ensures p(t[k])
    {
      assert t[k] == s[d + k];
    }
    if e < |s| {
      assert t[e - d] == s[e];
    }
    SpanUnique(t, 0, p, e - d);
  }

  /** A prefix that contains the whole run has the same span. */
  lemma SpanTake(s: string, n: nat, p: char -> bool)
    requires Span(s, 0, p) <= n <= |s|
    ensures Span(s[..n], 0, p) == Span(s, 0, p)
  {
    var e := Span(s, 0, p);
    var t := s[..n];
    forall k | 0 <= k < e
      ensures p(t[k])
    {
      assert t[k] == s[k];
    }
    if e < n {
      assert t[e] == s[e];
    }
    SpanUnique(t, 0, p, e);
  }

  /** Start of the longest run of `p`-characters ending at `j`. */
  function SpanBack(s: string, j: nat, p: char -> bool): (b: nat)
    requires j <= |s|
    ensures b <= j
    ensures forall k :: b <= k < j ==> p(s[k])
    ensures b == 0 || !p(s[b - 1])
    decreases j
  {
    if j > 0 && p(s[j - 1]) then SpanBack(s, j - 1, p) else j
  }

  predicate OccursAt(s: string, pat: string, i: nat) {
    i + |pat| <= |s| && s[i..i + |pat|] == pat
  }

  /** The first occurrence of `pat` in `s` at or after `i` (`str.find` from `i`). */
  function FindFrom(s: string, pat: string, i: nat): (r: Option<nat>)
    ensures r.Some? ==> i <= r.value && OccursAt(s, pat, r.value)
    ensures forall k :: i <= k && (r.None? || k < r.value) ==> !OccursAt(s, pat, k)
    decreases |s| + 1 - i
  {
    if i + |pat| > |s| then None
    else if s[i..i + |pat|] == pat then Some(i)
    else FindFrom(s, pat, i + 1)
  }

  // ---------------------------------------------------------------------------
  // Decimal rendering of natural numbers, as Python's `str(n)` / f-strings do.

  function DigitChar(d: nat): (c: char)
    requires d < 10
    ensures IsAsciiDigit(c) && c as int - '0' as int == d
  {
    ('0' as int + d) as char
  }

  function NatToString(n: nat): (r: string)
    ensures |r| >= 1 && All(r, IsAsciiDigit)
    ensures |r| > 1 ==> r[0] != '0'
  {
    if n < 10 then [DigitChar(n)] else NatToString(n / 10) + [DigitChar(n % 10)]
  }

  /** The value of a string of ASCII digits. */
  function DecimalValue(s: string): nat
    requires All(s, IsAsciiDigit)
  {
    if s == [] then 0 else DecimalValue(s[..|s| - 1]) * 10 + (s[|s| - 1] as int - '0' as int)
  }

  /** Reading back a rendered number gives the number. */
  lemma {:induction false} DecimalRoundTrip(n: nat)
    ensures DecimalValue(NatToString(n)) == n
  {
    if n >= 10 {
      var s := NatToString(n);
      assert s[..|s| - 1] == NatToString(n / 10);
      DecimalRoundTrip(n / 10);
    }
  }

  lemma NatToStringInjective(m: nat, n: nat)
    ensures NatToString(m) == NatToString(n) ==> m == n
  {
    DecimalRoundTrip(m);
    DecimalRoundTrip(n);
  }
}
