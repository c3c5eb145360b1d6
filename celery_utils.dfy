/**
 * Text normalisation, metadata extraction and chunk tagging of a fetched
 * court decision (backend/celery_tasks/utils.py). The regular expressions
 * are written out as scans over the characters; the LangChain text splitter
 * is a function parameter.
 */
module CeleryUtils {
  import opened Wrappers
  import opened Text
  import opened Documents

  datatype DecisionMetadata = DecisionMetadata(number: string, proceeding: string)

  const Unspecified: string := "unspecified"
  const FullAccessMarker: string := "Повний доступ"
  const LoginMarker: string := "Логін: Для помилки:"
  const WaitMarker: string := "Зачекайте, будь ласка..."
  const NoBreakSpace: char := '\U{00A0}'

  // ===========================================================================
  // clean_text

  predicate IsBreakOrTab(c: char) {
    c == '\r' || c == '\n' || c == '\t'
  }

  /** `re.sub(r"<p>+", " ", s)`: every maximal run of `p`-characters becomes one space. */
  function CollapseRuns(s: string, p: char -> bool): string
    decreases |s|
  {
    if s == [] then []
    else if p(s[0]) then [' '] + CollapseRuns(s[Span(s, 0, p)..], p)
    else [s[0]] + CollapseRuns(s[1..], p)
  }

  /** `s.replace("\u00A0", " ")`: no-break spaces become plain spaces. */
  function ReplaceNoBreakSpace(s: string): string {
    if s == [] then [] else [if s[0] == NoBreakSpace then ' ' else s[0]] + ReplaceNoBreakSpace(s[1..])
  }

  /** `s.strip()`: drops leading and trailing whitespace. */
  function Strip(s: string): string {
    var t := s[Span(s, 0, IsSpace)..];
    t[..SpanBack(t, |t|, IsSpace)]
  }

  /** The first three substitutions of clean_text: whitespace runs become single spaces, then strip. */
  function Squeeze(text: string): string {
    var noBreaks := CollapseRuns(text, IsBreakOrTab);
    var noNbsp := ReplaceNoBreakSpace(noBreaks);
    Strip(CollapseRuns(noNbsp, IsSpace))
  }

  /**
   * `re.sub(r"^.*?Повний доступ\s*", "", s, flags=re.DOTALL)`: `^` only
   * matches at position 0, the lazy `.*?` stops at the first occurrence of
   * the marker and `\s*` takes all whitespace after it.
   */
  function CutHead(s: string): string {
    match FindFrom(s, FullAccessMarker, 0)
    case None => s
    case Some(i) => s[Span(s, i + |FullAccessMarker|, IsSpace)..]
  }

  /**
   * `re.sub(r"\s*Логін: Для помилки:.*Зачекайте, будь ласка\.\.\..*$", "", s, flags=re.DOTALL)`.
   * If a login marker with a wait marker somewhere after it exists, the
   * first login marker has one too; the leftmost match then starts at the
   * whitespace run just before that first login marker, and the final `.*$`
   * takes the rest of the text.
   */
  function CutTail(s: string): string {
    match FindFrom(s, LoginMarker, 0)
    case None => s
    case Some(i) =>
      if FindFrom(s, WaitMarker, i + |LoginMarker|).Some? then s[..SpanBack(s, i, IsSpace)] else s
  }

  /** `clean_text`. */
  function CleanText(text: string): string {
    Strip(CutTail(CutHead(Squeeze(text))))
  }

  // ----- what clean_text guarantees

  /** Every whitespace character is a plain space and is not followed by another whitespace character. */
  predicate SingleSpaced(s: string) {
    forall i :: 0 <= i < |s| && IsSpace(s[i]) ==> s[i] == ' ' && (i + 1 == |s| || !IsSpace(s[i + 1]))
  }

  /** No leading or trailing whitespace. */
  predicate Trimmed(s: string) {
    s == [] || (!IsSpace(s[0]) && !IsSpace(s[|s| - 1]))
  }

  lemma SliceSingleSpaced(s: string, a: nat, b: nat)
    requires a <= b <= |s| && SingleSpaced(s)
    ensures SingleSpaced(s[a..b])
  {
    var t := s[a..b];
    forall i | 0 <= i < |t| && IsSpace(t[i])
      ensures t[i] == ' ' && (i + 1 == |t| || !IsSpace(t[i + 1]))
    {
      assert t[i] == s[a + i];
      if i + 1 < |t| {
        assert t[i + 1] == s[a + i + 1];
      }
    }
  }

  lemma {:induction false} CollapseSingleSpaced(s: string)
    ensures SingleSpaced(CollapseRuns(s, IsSpace))
    decreases |s|
  {
    if s != [] {
      if IsSpace(s[0]) {
        var rest := s[Span(s, 0, IsSpace)..];
        CollapseSingleSpaced(rest);
        if rest != [] {
          assert CollapseRuns(rest, IsSpace)[0] == rest[0];
        }
      } else {
        CollapseSingleSpaced(s[1..]);
      }
    }
  }

  lemma StripNormalises(s: string)
    ensures Trimmed(Strip(s))
    ensures SingleSpaced(s) ==> SingleSpaced(Strip(s))
  {
    var e := Span(s, 0, IsSpace);
    var t := s[e..];
    var b := SpanBack(t, |t|, IsSpace);
    if SingleSpaced(s) {
      SliceSingleSpaced(s, e, |s|);
      SliceSingleSpaced(t, 0, b);
    }
  }

  /**
   * clean_text's output has no leading or trailing whitespace, never two
   * whitespace characters in a row, and plain spaces as its only whitespace
   * (so CR/LF/TAB runs and no-break spaces have become single spaces).
   */
  lemma SqueezeNormalised(text: string)
    ensures SingleSpaced(Squeeze(text))
  {
    var noNbsp := ReplaceNoBreakSpace(CollapseRuns(text, IsBreakOrTab));
    CollapseSingleSpaced(noNbsp);
    StripNormalises(CollapseRuns(noNbsp, IsSpace));
  }

  lemma CutHeadSingleSpaced(s: string)
    requires SingleSpaced(s)
    ensures SingleSpaced(CutHead(s))
  {
    match FindFrom(s, FullAccessMarker, 0)
    case None =>
    case Some(i) => SliceSingleSpaced(s, Span(s, i + |FullAccessMarker|, IsSpace), |s|);
  }

  lemma CutTailSingleSpaced(s: string)
    requires SingleSpaced(s)
    ensures SingleSpaced(CutTail(s))
  {
    match FindFrom(s, LoginMarker, 0)
    case None =>
    case Some(i) => SliceSingleSpaced(s, 0, SpanBack(s, i, IsSpace));
  }

  /**
   * clean_text's output has no leading or trailing whitespace, never two
   * whitespace characters in a row, and plain spaces as its only whitespace
   * (so CR/LF/TAB runs and no-break spaces have become single spaces).
   */
  lemma CleanTextNormalised(text: string)
    ensures Trimmed(CleanText(text)) && SingleSpaced(CleanText(text))
  {
    SqueezeNormalised(text);
    CutHeadSingleSpaced(Squeeze(text));
    CutTailSingleSpaced(CutHead(Squeeze(text)));
    StripNormalises(CutTail(CutHead(Squeeze(text))));
  }

  /** The characters of `s` that are not whitespace, in order. */
  function Visible(s: string): string {
    if s == [] then [] else (if IsSpace(s[0]) then [] else [s[0]]) + Visible(s[1..])
  }

  lemma {:induction false} VisibleAppend(a: string, b: string)
    ensures Visible(a + b) == Visible(a) + Visible(b)
    decreases |a|
  {
    if a != [] {
      var h := if IsSpace(a[0]) then [] else [a[0]];
      assert (a + b)[0] == a[0];
      assert (a + b)[1..] == a[1..] + b;
      VisibleAppend(a[1..], b);
      calc {
        Visible(a + b);
        h + Visible(a[1..] + b);
        h + (Visible(a[1..]) + Visible(b));
        (h + Visible(a[1..])) + Visible(b);
        Visible(a) + Visible(b);
      }
    } else {
      assert a + b == b;
    }
  }

  lemma {:induction false} VisibleOfSpaces(s: string)
    requires All(s, IsSpace)
    ensures Visible(s) == []
    decreases |s|
  {
    if s != [] {
      VisibleOfSpaces(s[1..]);
    }
  }

  lemma {:induction false} CollapseKeepsVisible(s: string, p: char -> bool)
    requires forall k :: 0 <= k < |s| && p(s[k]) ==> IsSpace(s[k])
    ensures Visible(CollapseRuns(s, p)) == Visible(s)
    decreases |s|
  {
    if s != [] {
      if p(s[0]) {
        var e := Span(s, 0, p);
        var rest := s[e..];
        CollapseKeepsVisible(rest, p);
        assert s == s[..e] + rest;
        VisibleAppend(s[..e], rest);
        VisibleOfSpaces(s[..e]);
        assert ([' '] + CollapseRuns(rest, p))[1..] == CollapseRuns(rest, p);
      } else {
        CollapseKeepsVisible(s[1..], p);
        assert ([s[0]] + CollapseRuns(s[1..], p))[1..] == CollapseRuns(s[1..], p);
      }
    }
  }

  lemma {:induction false} ReplaceKeepsVisible(s: string)
    ensures Visible(ReplaceNoBreakSpace(s)) == Visible(s)
    decreases |s|
  {
    if s != [] {
      ReplaceKeepsVisible(s[1..]);
      var r := ReplaceNoBreakSpace(s);
      assert r[1..] == ReplaceNoBreakSpace(s[1..]);
    }
  }

  lemma DropSpacesKeepsVisible(s: string, a: nat, b: nat)
    requires a <= b <= |s| && All(s[..a], IsSpace) && All(s[b..], IsSpace)
    ensures Visible(s[a..b]) == Visible(s)
  {
    var t := s[a..];
    assert s == s[..a] + t;
    VisibleAppend(s[..a], t);
    VisibleOfSpaces(s[..a]);
    assert t == s[a..b] + s[b..];
    VisibleAppend(s[a..b], s[b..]);
    VisibleOfSpaces(s[b..]);
  }

  lemma StripKeepsVisible(s: string)
    ensures Visible(Strip(s)) == Visible(s)
  {
    var e := Span(s, 0, IsSpace);
    var t := s[e..];
    var b := SpanBack(t, |t|, IsSpace);
    assert Strip(s) == s[e..e + b];
    assert All(s[e + b..], IsSpace) by {
      assert s[e + b..] == t[b..];
    }
    DropSpacesKeepsVisible(s, e, e + b);
  }

  /** The whitespace normalisation of clean_text changes whitespace only: every other character survives, in order. */
  lemma SqueezeKeepsVisible(text: string)
    ensures Visible(Squeeze(text)) == Visible(text)
  {
    var noBreaks := CollapseRuns(text, IsBreakOrTab);
    var noNbsp := ReplaceNoBreakSpace(noBreaks);
    CollapseKeepsVisible(text, IsBreakOrTab);
    ReplaceKeepsVisible(noBreaks);
    CollapseKeepsVisible(noNbsp, IsSpace);
    StripKeepsVisible(CollapseRuns(noNbsp, IsSpace));
  }

  predicate FirstOccurrence(s: string, pat: string, i: nat) {
    OccursAt(s, pat, i) && forall k :: 0 <= k < i ==> !OccursAt(s, pat, k)
  }

  /** Without the full-access marker the head cut leaves the text alone. */
  lemma CutHeadWithoutMarker(s: string)
    requires forall k :: !OccursAt(s, FullAccessMarker, k)
    ensures CutHead(s) == s
  {
  }

  /**
   * With the marker first occurring at `i`, the head cut removes everything up
   * to and including that occurrence, and the whitespace after it.
   */
  lemma CutHeadAtFirstMarker(s: string, i: nat)
    requires FirstOccurrence(s, FullAccessMarker, i)
    ensures var r := CutHead(s);
      && |r| + i + |FullAccessMarker| <= |s|
      && s[|s| - |r|..] == r
      && All(s[i + |FullAccessMarker|..|s| - |r|], IsSpace)
      && (r == [] || !IsSpace(r[0]))
  {
    var found := FindFrom(s, FullAccessMarker, 0);
    assert found == Some(i);
    var e := Span(s, i + |FullAccessMarker|, IsSpace);
    assert CutHead(s) == s[e..];
  }

  /** Without a login marker followed later by the wait marker, the tail cut leaves the text alone. */
  lemma CutTailWithoutMarkers(s: string)
    requires forall i: nat, j: nat :: OccursAt(s, LoginMarker, i) && i + |LoginMarker| <= j ==> !OccursAt(s, WaitMarker, j)
    ensures CutTail(s) == s
  {
    match FindFrom(s, LoginMarker, 0)
    case None =>
    case Some(i) =>
      if FindFrom(s, WaitMarker, i + |LoginMarker|).Some? {
        assert false;
      }
  }

  /**
   * When the wait marker occurs after the first login marker (at `i`), the
   * tail cut keeps exactly the text before the whitespace run that precedes
   * that login marker.
   */
  lemma CutTailAtFirstMarker(s: string, i: nat, j: nat)
    requires FirstOccurrence(s, LoginMarker, i)
    requires i + |LoginMarker| <= j && OccursAt(s, WaitMarker, j)
    ensures var r := CutTail(s);
      && |r| <= i
      && s[..|r|] == r
      && All(s[|r|..i], IsSpace)
      && (r == [] || !IsSpace(r[|r| - 1]))
  {
    var found := FindFrom(s, LoginMarker, 0);
    assert found == Some(i);
    var w := FindFrom(s, WaitMarker, i + |LoginMarker|);
    assert w.Some?;
    var b := SpanBack(s, i, IsSpace);
    assert CutTail(s) == s[..b];
  }

  // ===========================================================================
  // extract_metadata

  const CaseLabel: string := "Категорія справи"
  const ShortCaseLabel: string := "Справа"
  const ProceedingLabel: string := "провадження"
  const NumeroSign: char := '№'

  /**
   * Case folding as `re.IGNORECASE` applies it to the Cyrillic letters: the
   * upper-case block U+0400..U+042F maps onto the lower-case one, and the
   * historic letter forms U+1C80..U+1C86 count as в, д, о, с, т, т, ъ.
   */
  function Fold(c: char): char {
    var n := c as int;
    if 0x410 <= n <= 0x42F then (n + 0x20) as char
    else if 0x400 <= n <= 0x40F then (n + 0x50) as char
    else if n == 0x1C80 then 'в'
    else if n == 0x1C81 then 'д'
    else if n == 0x1C82 then 'о'
    else if n == 0x1C83 then 'с'
    else if n == 0x1C84 || n == 0x1C85 then 'т'
    else if n == 0x1C86 then 'ъ'
    else c
  }

  /** The class `[\dа-яА-Я\-]` under `re.IGNORECASE`. */
  predicate CaseChar(c: char) {
    IsDigit(c) || c == '-' || 'а' <= Fold(c) <= 'я'
  }

  /** The literal `word` matches at `i`, ignoring case. */
  predicate LabelAt(s: string, i: nat, word: string) {
    i + |word| <= |s| && forall k :: 0 <= k < |word| ==> Fold(s[i + k]) == Fold(word[k])
  }

  /** `\s*№?\s*` from `i`: neither `\s*` nor `№?` ever gives characters back, since the group after them cannot start with them. */
  function SkipOptionalSign(s: string, i: nat): (r: nat)
    requires i <= |s|
    ensures i <= r <= |s|
  {
    var a := Span(s, i, IsSpace);
    var b := if a < |s| && s[a] == NumeroSign then a + 1 else a;
    Span(s, b, IsSpace)
  }

  /** `\s*№\s*` from `i`. */
  function SkipSign(s: string, i: nat): (r: Option<nat>)
    requires i <= |s|
    ensures r.Some? ==> i < r.value <= |s|
  {
    var a := Span(s, i, IsSpace);
    if a < |s| && s[a] == NumeroSign then Some(Span(s, a + 1, IsSpace)) else None
  }

  /** The greedy repetition `(?:/<cls>+)*` from `e`, which follows a `cls` character. */
  function SlashGroupsEnd(s: string, e: nat, cls: char -> bool): (r: nat)
    requires 0 < e <= |s| && cls(s[e - 1])
    ensures e <= r <= |s| && cls(s[r - 1])
    ensures r > e ==> s[e] == '/' && e + 1 < r
    decreases |s| - e
  {
    if e < |s| && s[e] == '/' && Span(s, e + 1, cls) > e + 1 then SlashGroupsEnd(s, Span(s, e + 1, cls), cls)
    else e
  }

  lemma {:induction false} SlashGroupsShape(s: string, e: nat, cls: char -> bool)
    requires 0 < e <= |s| && cls(s[e - 1])
    ensures var r := SlashGroupsEnd(s, e, cls);
      forall k {:trigger s[k]} :: e <= k < r ==> cls(s[k]) || (s[k] == '/' && k + 1 < r && cls(s[k - 1]) && cls(s[k + 1]))
    decreases |s| - e
  {
    if e < |s| && s[e] == '/' && Span(s, e + 1, cls) > e + 1 {
      var e2 := Span(s, e + 1, cls);
      SlashGroupsShape(s, e2, cls);
      assert SlashGroupsEnd(s, e, cls) == SlashGroupsEnd(s, e2, cls);
    }
  }

  /** The case-number group `[\dа-яА-Я\-]+(?:/[\dа-яА-Я\-]+)+` at `q`. */
  function CaseGroupAt(s: string, q: nat): Option<string>
    requires q <= |s|
  {
    var e1 := Span(s, q, CaseChar);
    if e1 == q then None
    else
      var e := SlashGroupsEnd(s, e1, CaseChar);
      if e > e1 then Some(s[q..e]) else None
  }

  /** `<cls>+` repeated `n` times with `/` between, from `q`; the end of the match. */
  function CountedGroupsEnd(s: string, q: nat, n: nat, cls: char -> bool): (r: Option<nat>)
    requires q <= |s| && n >= 1
    ensures r.Some? ==> q < r.value <= |s|
    decreases n
  {
    var e := Span(s, q, cls);
    if e == q then None
    else if n == 1 then Some(e)
    else if e < |s| && s[e] == '/' then CountedGroupsEnd(s, e + 1, n - 1, cls)
    else None
  }

  /** The proceeding-number group `\d+/\d+/\d+/\d+` after `\s*№\s*` from `i`. */
  function ProceedingAfter(s: string, i: nat): Option<string>
    requires i <= |s|
  {
    match SkipSign(s, i)
    case None => None
    case Some(q) =>
      match CountedGroupsEnd(s, q, 4, IsDigit)
      case None => None
      case Some(e) => Some(s[q..e])
  }

  datatype Pattern =
    | CaseNumberPattern   // (?:Категорія справи|Справа)?\s*№?\s*([\dа-яА-Я\-]+(?:/[\dа-яА-Я\-]+)+)
    | ProceedingPattern   // (провадження)?\s*№\s*(\d+/\d+/\d+/\d+)

  /**
   * The captured group of `pat` when a match starts at `p`. The optional
   * label is tried first, alternatives in order, and skipped if the rest of
   * the pattern fails after it.
   */
  function MatchAt(pat: Pattern, s: string, p: nat): Option<string>
    requires p <= |s|
  {
    match pat
    case CaseNumberPattern =>
      var long := if LabelAt(s, p, CaseLabel) then CaseGroupAt(s, SkipOptionalSign(s, p + |CaseLabel|)) else None;
      var short := if LabelAt(s, p, ShortCaseLabel) then CaseGroupAt(s, SkipOptionalSign(s, p + |ShortCaseLabel|)) else None;
      if long.Some? then long
      else if short.Some? then short
      else CaseGroupAt(s, SkipOptionalSign(s, p))
    case ProceedingPattern =>
      var labelled := if LabelAt(s, p, ProceedingLabel) then ProceedingAfter(s, p + |ProceedingLabel|) else None;
      if labelled.Some? then labelled else ProceedingAfter(s, p)
  }

  /** `re.search`: the leftmost position from `p` where `pat` matches. */
  function Search(pat: Pattern, s: string, p: nat): (r: Option<nat>)
    requires p <= |s|
    ensures r.Some? ==> p <= r.value <= |s| && MatchAt(pat, s, r.value).Some?
    ensures forall q :: p <= q <= |s| && (r.None? || q < r.value) ==> MatchAt(pat, s, q).None?
    decreases |s| - p
  {
    var here := MatchAt(pat, s, p);
    if here.Some? then Some(p)
    else if p == |s| then None
    else
      var r := Search(pat, s, p + 1);
      assert forall q :: p <= q <= |s| && (r.None? || q < r.value) ==> MatchAt(pat, s, q).None? by {
        forall q | p <= q <= |s| && (r.None? || q < r.value) ensures MatchAt(pat, s, q).None? {
          if q == p {
            assert MatchAt(pat, s, q) == here;
          }
        }
      }
      r
  }

  /** The group of the first match of `pat`, or "unspecified". */
  function FirstGroupOr(pat: Pattern, text: string): string {
    match Search(pat, text, 0)
    case Some(q) => MatchAt(pat, text, q).value
    case None => Unspecified
  }

  /** `extract_metadata`; it never fails. */
  function ExtractMetadata(text: string): DecisionMetadata {
    DecisionMetadata(FirstGroupOr(CaseNumberPattern, text), FirstGroupOr(ProceedingPattern, text))
  }

  // ----- what extract_metadata guarantees

  /** Nonempty runs of `cls`-characters separated by single slashes (`cls` never holds of '/'). */
  predicate SlashSeparated(w: string, cls: char -> bool) {
    && |w| > 0
    && forall k {:trigger w[k]} :: 0 <= k < |w| ==>
      cls(w[k]) || (w[k] == '/' && 0 < k < |w| - 1 && cls(w[k - 1]) && cls(w[k + 1]))
  }

  function SlashCount(w: string): nat {
    if w == [] then 0 else (if w[0] == '/' then 1 else 0) + SlashCount(w[1..])
  }

  lemma {:induction false} SlashCountAppend(a: string, b: string)
    ensures SlashCount(a + b) == SlashCount(a) + SlashCount(b)
    decreases |a|
  {
    if a != [] {
      assert (a + b)[0] == a[0];
      assert (a + b)[1..] == a[1..] + b;
      SlashCountAppend(a[1..], b);
      assert SlashCount(a + b) == (if a[0] == '/' then 1 else 0) + SlashCount(a[1..] + b);
    } else {
      assert a + b == b;
    }
  }

  lemma {:induction false} SlashCountPositive(w: string, k: nat)
    requires k < |w| && w[k] == '/'
    ensures SlashCount(w) > 0
    decreases k
  {
    if k > 0 && w[0] != '/' {
      SlashCountPositive(w[1..], k - 1);
    }
  }

  lemma {:induction false} SlashCountOfRun(w: string, cls: char -> bool)
    requires All(w, cls) && !cls('/')
    ensures SlashCount(w) == 0
    decreases |w|
  {
    if w != [] {
      SlashCountOfRun(w[1..], cls);
    }
  }

  /** A case number is two or more groups of digits, hyphens and а-я/А-Я letters separated by slashes. */
  predicate IsCaseNumber(w: string) {
    SlashSeparated(w, CaseChar) && SlashCount(w) >= 1
  }

  /** A proceeding number is exactly four groups of digits separated by slashes. */
  predicate IsProceedingNumber(w: string) {
    SlashSeparated(w, IsDigit) && SlashCount(w) == 3
  }

  lemma SlashRunsShape(s: string, q: nat, cls: char -> bool)
    requires q <= |s| && q < Span(s, q, cls) && SlashGroupsEnd(s, Span(s, q, cls), cls) > Span(s, q, cls)
    ensures var w := s[q..SlashGroupsEnd(s, Span(s, q, cls), cls)];
      SlashSeparated(w, cls) && SlashCount(w) >= 1
  {
    var e1 := Span(s, q, cls);
    var e := SlashGroupsEnd(s, e1, cls);
    var w := s[q..e];
    SlashGroupsShape(s, e1, cls);
    forall k | 0 <= k < |w|
      ensures cls(w[k]) || (w[k] == '/' && 0 < k < |w| - 1 && cls(w[k - 1]) && cls(w[k + 1]))
    {
      assert w[k] == s[q + k];
      if q + k >= e1 && !cls(s[q + k]) {
        assert w[k - 1] == s[q + k - 1] && w[k + 1] == s[q + k + 1];
      }
    }
    SlashCountPositive(w, e1 - q);
  }

  lemma CaseGroupShape(s: string, q: nat)
    requires q <= |s| && CaseGroupAt(s, q).Some?
    ensures IsCaseNumber(CaseGroupAt(s, q).value)
  {
    SlashRunsShape(s, q, CaseChar);
  }

  lemma {:induction false} CountedGroupsShape(s: string, q: nat, n: nat, cls: char -> bool, r: nat)
    requires q <= |s| && n >= 1 && CountedGroupsEnd(s, q, n, cls) == Some(r) && !cls('/')
    ensures q < r <= |s|
    ensures SlashSeparated(s[q..r], cls) && SlashCount(s[q..r]) == n - 1 && cls(s[r - 1])
    decreases n
  {
    var e := CountedGroupsStep(s, q, n, cls, r);
    RunShape(s[q..e], cls);
    if n > 1 {
      CountedGroupsShape(s, e + 1, n - 1, cls, r);
      SlashStep(s, q, e, r, cls);
    }
  }

  /**
   * One group of `CountedGroupsEnd`: a nonempty run from `q` to `e`, then
   * either the end or a slash and the remaining groups.
   */
  lemma CountedGroupsStep(s: string, q: nat, n: nat, cls: char -> bool, r: nat) returns (e: nat)
    requires q <= |s| && n >= 1 && CountedGroupsEnd(s, q, n, cls) == Some(r)
    ensures q < e <= |s| && All(s[q..e], cls)
    ensures n == 1 ==> r == e
    ensures n > 1 ==> e < |s| && s[e] == '/' && CountedGroupsEnd(s, e + 1, n - 1, cls) == Some(r)
  {
    e := Span(s, q, cls);
  }

  /** A nonempty run of `cls`-characters is a slash-separated word without slashes. */
  lemma RunShape(w: string, cls: char -> bool)
    requires |w| > 0 && All(w, cls) && !cls('/')
    ensures SlashSeparated(w, cls) && SlashCount(w) == 0 && cls(w[|w| - 1])
  {
    SlashCountOfRun(w, cls);
  }

  /** A run of `cls`-characters, a slash and a slash-separated word, read off `s` in one piece. */
  lemma SlashStep(s: string, q: nat, e: nat, r: nat, cls: char -> bool)
    requires q < e < r <= |s| && s[e] == '/'
    requires All(s[q..e], cls) && SlashSeparated(s[e + 1..r], cls) && cls(s[r - 1])
    ensures SlashSeparated(s[q..r], cls) && cls(s[q..r][r - q - 1])
    ensures SlashCount(s[q..r]) == SlashCount(s[q..e]) + 1 + SlashCount(s[e + 1..r])
  {
    var head := s[q..e];
    var tail := s[e + 1..r];
    JoinShape(head, tail, cls);
    assert s[q..r] == head + ['/'] + tail;
  }

  /** Two slash-separated words joined by a slash make one. */
  lemma JoinShape(head: string, tail: string, cls: char -> bool)
    requires |head| > 0 && All(head, cls) && SlashSeparated(tail, cls) && cls(tail[|tail| - 1])
    ensures var w := head + ['/'] + tail;
      SlashSeparated(w, cls) && SlashCount(w) == SlashCount(head) + 1 + SlashCount(tail) && cls(w[|w| - 1])
  {
    var w := head + ['/'] + tail;
    SlashCountAppend(head + ['/'], tail);
    SlashCountAppend(head, ['/']);
    assert SlashCount(['/']) == 1 by {
      assert ['/'][1..] == [];
    }
    forall k | 0 <= k < |w|
      ensures cls(w[k]) || (w[k] == '/' && 0 < k < |w| - 1 && cls(w[k - 1]) && cls(w[k + 1]))
    {
      if k < |head| {
        assert w[k] == head[k];
      } else if k == |head| {
        assert w[k - 1] == head[|head| - 1] && w[k + 1] == tail[0];
      } else {
        var j := k - |head| - 1;
        assert w[k] == tail[j];
        if !cls(tail[j]) {
          assert w[k - 1] == tail[j - 1] && w[k + 1] == tail[j + 1];
        }
      }
    }
  }

  lemma MatchShape(pat: Pattern, s: string, p: nat)
    requires p <= |s| && MatchAt(pat, s, p).Some?
    ensures pat.CaseNumberPattern? ==> IsCaseNumber(MatchAt(pat, s, p).value)
    ensures pat.ProceedingPattern? ==> IsProceedingNumber(MatchAt(pat, s, p).value)
  {
    match pat
    case CaseNumberPattern =>
      if LabelAt(s, p, CaseLabel) && CaseGroupAt(s, SkipOptionalSign(s, p + |CaseLabel|)).Some? {
        CaseGroupShape(s, SkipOptionalSign(s, p + |CaseLabel|));
      } else if LabelAt(s, p, ShortCaseLabel) && CaseGroupAt(s, SkipOptionalSign(s, p + |ShortCaseLabel|)).Some? {
        CaseGroupShape(s, SkipOptionalSign(s, p + |ShortCaseLabel|));
      } else {
        CaseGroupShape(s, SkipOptionalSign(s, p));
      }
    case ProceedingPattern =>
      var i := if LabelAt(s, p, ProceedingLabel) && ProceedingAfter(s, p + |ProceedingLabel|).Some?
        then p + |ProceedingLabel| else p;
      var q := SkipSign(s, i).value;
      CountedGroupsShape(s, q, 4, IsDigit, CountedGroupsEnd(s, q, 4, IsDigit).value);
  }

  /**
   * The case number is the first case-number match, or "unspecified" exactly
   * when the text has none; a found number is well formed, so it is never
   * "unspecified" itself.
   */
  /** "unspecified" has no slash-separated shape over a class that excludes its first letter. */
  lemma UnspecifiedIsNoNumber(cls: char -> bool)
    requires !cls('u')
    ensures !SlashSeparated(Unspecified, cls)
  {
    assert Unspecified[0] == 'u';
  }

  lemma CaseNumberSpec(text: string)
    ensures var n := ExtractMetadata(text).number;
      && (n == Unspecified <==> forall q :: 0 <= q <= |text| ==> MatchAt(CaseNumberPattern, text, q).None?)
      && (n != Unspecified ==> IsCaseNumber(n))
  {
    UnspecifiedIsNoNumber(CaseChar);
    match Search(CaseNumberPattern, text, 0)
    case None =>
    case Some(q) =>
      MatchShape(CaseNumberPattern, text, q);
  }

  /** The same for the proceeding number: four slash-separated digit groups, or "unspecified" when none matches. */
  lemma ProceedingNumberSpec(text: string)
    ensures var n := ExtractMetadata(text).proceeding;
      && (n == Unspecified <==> forall q :: 0 <= q <= |text| ==> MatchAt(ProceedingPattern, text, q).None?)
      && (n != Unspecified ==> IsProceedingNumber(n))
  {
    UnspecifiedIsNoNumber(IsDigit);
    match Search(ProceedingPattern, text, 0)
    case None =>
    case Some(q) =>
      MatchShape(ProceedingPattern, text, q);
  }

  /** The case-number class leaves out the Ukrainian letters і, ї, є and ґ in either case. */
  lemma UkrainianLettersOutsideCaseClass()
    ensures !CaseChar('і') && !CaseChar('ї') && !CaseChar('є') && !CaseChar('ґ')
    ensures !CaseChar('І') && !CaseChar('Ї') && !CaseChar('Є') && !CaseChar('Ґ')
  {
  }

  // ===========================================================================
  // split_text_into_chunks

  /** The metadata every chunk of a decision carries; the proceeding number is not among it. */
  function ChunkMetadata(decisionId: string, m: DecisionMetadata): map<string, string> {
    map["document_id" := decisionId, "decision_number" := m.number]
  }

  function TagChunks(chunks: seq<string>, decisionId: string, m: DecisionMetadata): seq<Document> {
    if chunks == [] then [] else [Document(chunks[0], ChunkMetadata(decisionId, m))] + TagChunks(chunks[1..], decisionId, m)
  }

  /** `split_text_into_chunks`, with the LangChain splitter (chunk size 512, overlap 50) as `split`. */
  function SplitTextIntoChunks(text: string, decisionId: string, m: DecisionMetadata, split: string -> seq<string>): seq<Document> {
    TagChunks(split(text), decisionId, m)
  }

  /**
   * One document per splitter chunk, in splitter order, each carrying exactly
   * the document id and the case number.
   */
  lemma {:induction false} TagChunksSpec(chunks: seq<string>, decisionId: string, m: DecisionMetadata)
    ensures var docs := TagChunks(chunks, decisionId, m);
      && Contents(docs) == chunks
      && forall i :: 0 <= i < |docs| ==>
        && docs[i].metadata.Keys == {"document_id", "decision_number"}
        && docs[i].metadata["document_id"] == decisionId
        && docs[i].metadata["decision_number"] == m.number
    decreases |chunks|
  {
    if chunks != [] {
      TagChunksSpec(chunks[1..], decisionId, m);
      var docs := TagChunks(chunks, decisionId, m);
      assert docs[1..] == TagChunks(chunks[1..], decisionId, m);
      assert Contents(docs) == [chunks[0]] + Contents(docs[1..]);
    }
  }
}
