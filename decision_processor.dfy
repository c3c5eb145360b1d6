/**
 * The upload pipeline's first stage (backend/api/processor/decision_processor.py):
 * decision ids are read off the start of the lines of the pasted text, and
 * one processing job per id is handed to the Celery queue together with the
 * id's page in the court register.
 */
module DecisionProcessing {
  import opened Wrappers
  import opened Text
  import opened TaskQueue

  // ===========================================================================
  // extract_ids: re.findall(r'^\d{7,9}', raw_data, re.MULTILINE)

  const MinIdLength: nat := 7
  const MaxIdLength: nat := 9

  /** The id a match at the start of `s` takes: the first nine digits of a run of at least seven. */
  function IdLength(s: string): (m: nat)
    ensures m <= |s|
  {
    var run := Span(s, 0, IsDigit);
    if run < MinIdLength then 0 else if run < MaxIdLength then run else MaxIdLength
  }

  /**
   * The scan `re.findall` performs. `atLineStart` says whether `^` may match
   * at the front of `s` (start of the text, or just after a '\n'). After a
   * match the scan resumes behind it, where `^` cannot match, since the
   * match ended on a digit.
   */
  function FindAll(s: string, atLineStart: bool): seq<string>
    decreases |s|
  {
    if atLineStart && IdLength(s) > 0 then [s[..IdLength(s)]] + FindAll(s[IdLength(s)..], false)
    else if s == [] then []
    else FindAll(s[1..], s[0] == '\n')
  }

  /** `extract_ids` on the raw text. */
  function IdsIn(text: string): seq<string> {
    FindAll(text, true)
  }

  // ----- the same result, line by line

  predicate NotNewline(c: char) {
    c != '\n'
  }

  /** `text.split('\n')`: the pieces between newlines, always at least one. */
  function SplitLines(s: string): (lines: seq<string>)
    ensures |lines| >= 1
    ensures forall i :: 0 <= i < |lines| ==> All(lines[i], NotNewline)
    decreases |s|
  {
    var i := Span(s, 0, NotNewline);
    if i == |s| then [s] else [s[..i]] + SplitLines(s[i + 1..])
  }

  /** `'\n'.join(lines)`. */
  function JoinLines(lines: seq<string>): string
    requires |lines| >= 1
  {
    if |lines| == 1 then lines[0] else lines[0] + "\n" + JoinLines(lines[1..])
  }

  /** The id a single line contributes: its first 7 to 9 characters, when it starts with at least seven digits. */
  function IdOfLine(line: string): (r: Option<string>)
    ensures r.Some? <==> |line| >= MinIdLength && All(line[..MinIdLength], IsDigit)
    ensures r.Some? ==> var m := |r.value|;
      && MinIdLength <= m <= MaxIdLength && m <= |line| && r.value == line[..m] && All(r.value, IsDigit)
      && (m < MaxIdLength ==> m == |line| || !IsDigit(line[m]))
  {
    var m := IdLength(line);
    var run := Span(line, 0, IsDigit);
    if m > 0 then Some(line[..m])
    else
      assert |line| >= MinIdLength && All(line[..MinIdLength], IsDigit) ==> !IsDigit(line[run]);
      None
  }

  function IdsOfLines(lines: seq<string>): seq<string> {
    if lines == [] then []
    else match IdOfLine(lines[0])
      case Some(id) => [id] + IdsOfLines(lines[1..])
      case None => IdsOfLines(lines[1..])
  }

  // ----- properties

  /** Splitting at newlines and joining again gives the text back. */
  lemma {:induction false} SplitJoinRoundTrip(s: string)
    ensures JoinLines(SplitLines(s)) == s
    decreases |s|
  {
    var i := Span(s, 0, NotNewline);
    if i < |s| {
      SplitJoinRoundTrip(s[i + 1..]);
      assert s == s[..i] + "\n" + s[i + 1..];
    }
  }

  /** At a line start the scan takes the line's id, if any, and then goes on as inside the line. */
  lemma FindAllLineStart(s: string)
    ensures FindAll(s, true)
         == if IdLength(s) > 0 then [s[..IdLength(s)]] + FindAll(s[IdLength(s)..], false) else FindAll(s, false)
  {
  }

  /** Inside a line, a character other than a newline is skipped. */
  lemma FindAllInside(t: string)
    requires t != [] && t[0] != '\n'
    ensures FindAll(t, false) == FindAll(t[1..], false)
  {
  }

  /** A newline puts the scan at the start of the next line. */
  lemma FindAllNewline(t: string)
    requires t != [] && t[0] == '\n'
    ensures FindAll(t, false) == FindAll(t[1..], true)
  {
  }

  /** From any point inside the first line, where `^` cannot match, the scan finds nothing before the next line. */
  lemma {:induction false} SkipFromInside(s: string, j: nat)
    requires j <= Span(s, 0, NotNewline)
    ensures var i := Span(s, 0, NotNewline);
      FindAll(s[j..], false) == if i == |s| then [] else FindAll(s[i + 1..], true)
    decreases Span(s, 0, NotNewline) - j
  {
    var i := Span(s, 0, NotNewline);
    if j < i {
      FindAllInside(s[j..]);
      assert s[j..][1..] == s[j + 1..];
      SkipFromInside(s, j + 1);
    } else if i < |s| {
      FindAllNewline(s[i..]);
      assert s[i..][1..] == s[i + 1..];
    }
  }

  /** The id found at a line start is the one the line gives. */
  lemma IdAtLineStart(s: string)
    ensures var i := Span(s, 0, NotNewline);
      IdOfLine(s[..i]) == (if IdLength(s) > 0 then Some(s[..IdLength(s)]) else None)
  {
    var i := Span(s, 0, NotNewline);
    var run := Span(s, 0, IsDigit);
    assert run <= i;
    SpanTake(s, i, IsDigit);
    assert IdLength(s[..i]) == IdLength(s);
    assert s[..i][..IdLength(s)] == s[..IdLength(s)];
  }

  lemma {:induction false} FindAllByLines(s: string)
    ensures FindAll(s, true) == IdsOfLines(SplitLines(s))
    decreases |s|
  {
    var i := Span(s, 0, NotNewline);
    var lines := SplitLines(s);
    var rest := if i == |s| then [] else FindAll(s[i + 1..], true);
    if i < |s| {
      FindAllByLines(s[i + 1..]);
      assert lines == [s[..i]] + SplitLines(s[i + 1..]);
    } else {
      assert s[..i] == s;
      assert lines == [s[..i]];
    }
    assert IdsOfLines(lines[1..]) == rest;
    IdAtLineStart(s);
    FindAllLineStart(s);
    var m := IdLength(s);
    if m > 0 {
      SkipFromInside(s, m);
    } else {
      SkipFromInside(s, 0);
      assert s[0..] == s;
    }
  }

  /**
   * `extract_ids` returns, in line order and duplicates included, the id of
   * every line of the text that starts with at least seven decimal digits.
   */
  lemma IdsByLines(text: string)
    ensures IdsIn(text) == IdsOfLines(SplitLines(text))
  {
    FindAllByLines(text);
  }

  lemma {:induction false} IdsOfLinesShape(lines: seq<string>)
    ensures |IdsOfLines(lines)| <= |lines|
    ensures forall id :: id in IdsOfLines(lines) ==>
      MinIdLength <= |id| <= MaxIdLength && All(id, IsDigit)
  {
    if lines != [] {
      IdsOfLinesShape(lines[1..]);
    }
  }

  /** Every extracted id is 7 to 9 decimal digits, and there are at most as many ids as lines. */
  lemma IdsShape(text: string)
    ensures |IdsIn(text)| <= |SplitLines(text)|
    ensures forall id :: id in IdsIn(text) ==> MinIdLength <= |id| <= MaxIdLength && All(id, IsDigit)
  {
    IdsByLines(text);
    IdsOfLinesShape(SplitLines(text));
  }

  // ===========================================================================
  // process_all

  const ReviewPrefix: string := "https://reyestr.court.gov.ua/Review/"
  const ProcessAllMessage: string := "Решения отправлены на обработку"

  /** The register page of a decision. */
  function ReviewUrl(decisionId: string): (url: string)
    ensures |url| == |ReviewPrefix| + |decisionId|
  {
    ReviewPrefix + decisionId
  }

  /** The id a register page URL names, if it is one. */
  function IdOfReviewUrl(url: string): (r: Option<string>)
    ensures r.Some? <==> |url| >= |ReviewPrefix| && url[..|ReviewPrefix|] == ReviewPrefix
  {
    if |url| >= |ReviewPrefix| && url[..|ReviewPrefix|] == ReviewPrefix then Some(url[|ReviewPrefix|..]) else None
  }

  /** The id can be read back from its URL, so distinct ids get distinct URLs. */
  lemma ReviewUrlRoundTrip(decisionId: string)
    ensures IdOfReviewUrl(ReviewUrl(decisionId)) == Some(decisionId)
  {
    var url := ReviewUrl(decisionId);
    assert url[..|ReviewPrefix|] == ReviewPrefix;
    assert url[|ReviewPrefix|..] == decisionId;
  }

  lemma ReviewUrlInjective(a: string, b: string)
    ensures ReviewUrl(a) == ReviewUrl(b) ==> a == b
  {
    ReviewUrlRoundTrip(a);
    ReviewUrlRoundTrip(b);
  }

  /** The arguments of one `decision_processing_task.delay(url, decision_id)`. */
  datatype Job = Job(url: string, decisionId: string)

  function ReviewUrls(ids: seq<string>): (urls: seq<string>)
    ensures |urls| == |ids|
    ensures forall i :: 0 <= i < |ids| ==> urls[i] == ReviewUrl(ids[i])
  {
    if ids == [] then [] else ReviewUrls(ids[..|ids| - 1]) + [ReviewUrl(ids[|ids| - 1])]
  }

  function JobsFor(ids: seq<string>): (jobs: seq<Job>)
    ensures |jobs| == |ids|
    ensures forall i :: 0 <= i < |ids| ==> jobs[i] == Job(ReviewUrl(ids[i]), ids[i])
  {
    if ids == [] then [] else JobsFor(ids[..|ids| - 1]) + [Job(ReviewUrl(ids[|ids| - 1]), ids[|ids| - 1])]
  }

  /** Each URL added by process_all names, in order, the id it was built from. */
  lemma ReviewUrlsDecode(ids: seq<string>)
    ensures forall i :: 0 <= i < |ids| ==> IdOfReviewUrl(ReviewUrls(ids)[i]) == Some(ids[i])
  {
    forall i | 0 <= i < |ids|
      ensures IdOfReviewUrl(ReviewUrls(ids)[i]) == Some(ids[i])
    {
      ReviewUrlRoundTrip(ids[i]);
    }
  }

  class DecisionProcessor {
    var rawData: string
    var decisionIds: seq<string>
    var urls: seq<string>

    constructor(inputText: string)
      ensures rawData == inputText && decisionIds == [] && urls == []
    {
      rawData := inputText;
      decisionIds := [];
      urls := [];
    }

    /** `extract_ids`: stores the ids of the raw text and returns that same list. */
    method ExtractIds() returns (ids: seq<string>)
      modifies this
      ensures decisionIds == IdsIn(rawData) && ids == decisionIds
      ensures rawData == old(rawData) && urls == old(urls)
    {
      decisionIds := IdsIn(rawData);
      ids := decisionIds;
    }

    /**
     * `process_all`: one URL and one queued job per stored id, in id order;
     * the reply is the same message whatever the ids.
     */
    method ProcessAll(queue: Queue<Job>) returns (message: string)
      modifies this, queue
      ensures urls == old(urls) + ReviewUrls(decisionIds)
      ensures queue.pending == old(queue.pending) + JobsFor(decisionIds)
      ensures rawData == old(rawData) && decisionIds == old(decisionIds)
      ensures message == ProcessAllMessage
    {
      for i := 0 to |decisionIds|
        invariant rawData == old(rawData) && decisionIds == old(decisionIds)
        invariant urls == old(urls) + ReviewUrls(decisionIds[..i])
        invariant queue.pending == old(queue.pending) + JobsFor(decisionIds[..i])
      {
        var decisionId := decisionIds[i];
        var url := ReviewUrl(decisionId);
        urls := urls + [url];
        queue.Delay(Job(url, decisionId));
        assert decisionIds[..i + 1][..i] == decisionIds[..i];
      }
      assert decisionIds[..|decisionIds|] == decisionIds;
      message := ProcessAllMessage;
    }
  }
}
