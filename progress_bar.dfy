/**
 * The upload progress bar (frontend/src/components/ProgressBar/ProgressBar.jsx):
 * the effect that recomputes the completed decision ids from the socket
 * messages, and the percentage the component renders.
 */
module ProgressBar {
  import opened Wrappers

  /** A socket message, as the task publishes it: the decision id and the stage reached. */
  datatype Message = Message(decisionId: string, status: string)

  /** `["done", "success"].includes(msg.status)`. */
  predicate Finished(m: Message) {
    m.status == "done" || m.status == "success"
  }

  /** Some message reports `id` finished. */
  predicate Reported(messages: seq<Message>, id: string) {
    exists i :: 0 <= i < |messages| && messages[i].decisionId == id && Finished(messages[i])
  }

  predicate Distinct(s: seq<string>) {
    forall i, j :: 0 <= i < j < |s| ==> s[i] != s[j]
  }

  /** The position of the first occurrence of `x` in `s`. */
  function FirstIndex(s: seq<string>, x: string): (k: nat)
    requires x in s
    ensures k < |s| && s[k] == x && x !in s[..k]
  {
    if s[0] == x then 0
    else
      assert s[1..][FirstIndex(s[1..], x)] == s[FirstIndex(s[1..], x) + 1];
      assert s[..FirstIndex(s[1..], x) + 1] == [s[0]] + s[1..][..FirstIndex(s[1..], x)];
      FirstIndex(s[1..], x) + 1
  }

  /**
   * The `filter` and `map` of the effect: the ids of the finished messages
   * about one of the tasks, in message order, repeats included.
   */
  function FinishedIds(taskIds: seq<string>, messages: seq<Message>): (ids: seq<string>)
    ensures forall x :: x in ids <==> x in taskIds && Reported(messages, x)
  {
    if messages == [] then []
    else
      var rest := FinishedIds(taskIds, messages[1..]);
      var head := messages[0];
      forall x ensures Reported(messages, x) <==> (head.decisionId == x && Finished(head)) || Reported(messages[1..], x) {
        if Reported(messages, x) && !(head.decisionId == x && Finished(head)) {
          var i :| 0 <= i < |messages| && messages[i].decisionId == x && Finished(messages[i]);
          assert messages[1..][i - 1] == messages[i];
        }
        if Reported(messages[1..], x) {
          var i :| 0 <= i < |messages[1..]| && messages[1..][i].decisionId == x && Finished(messages[1..][i]);
          assert messages[i + 1] == messages[1..][i];
        }
      }
      (if head.decisionId in taskIds && Finished(head) then [head.decisionId] else []) + rest
  }

  /**
   * `Array.from(new Set(ids))`: every id once, in the order of its first
   * occurrence.
   */
  function Dedupe(s: seq<string>): (r: seq<string>)
    ensures Distinct(r)
    ensures forall x :: x in r <==> x in s
    ensures forall i, j :: 0 <= i < j < |r| ==> FirstIndex(s, r[i]) < FirstIndex(s, r[j])
  {
    if s == [] then []
    else
      var init := s[..|s| - 1];
      var last := s[|s| - 1];
      var r := Dedupe(init);
      assert s == init + [last];
      forall x | x in init ensures FirstIndex(s, x) == FirstIndex(init, x) {
        FirstIndexPrefix(init, [last], x);
      }
      if last in r then r
      else
        var r' := r + [last];
        assert last !in init;
        forall i, j | 0 <= i < j < |r'| ensures FirstIndex(s, r'[i]) < FirstIndex(s, r'[j]) {
          if j == |r| {
            assert r'[i] == r[i] && r[i] in init;
            assert FirstIndex(s, last) == |init| by {
              assert s[|init|] == last && last !in s[..|init|];
            }
          } else {
            assert r'[i] == r[i] && r'[j] == r[j];
          }
        }
        r'
  }

  lemma FirstIndexPrefix(a: seq<string>, b: seq<string>, x: string)
    requires x in a
    ensures x in a + b && FirstIndex(a + b, x) == FirstIndex(a, x)
  {
    var k := FirstIndex(a, x);
    var s := a + b;
    assert s[k] == x;
    assert s[..k] == a[..k];
    FirstIndexUnique(s, x, k);
  }

  /** The first occurrence is where `x` is and nowhere before. */
  lemma {:induction false} FirstIndexUnique(s: seq<string>, x: string, k: nat)
    requires k < |s| && s[k] == x && x !in s[..k]
    ensures FirstIndex(s, x) == k
  {
    if k > 0 {
      assert s[0] in s[..k];
      assert s[1..][k - 1] == x;
      assert s[1..][..k - 1] == s[1..k];
      assert s[1..k] == s[..k][1..];
      FirstIndexUnique(s[1..], x, k - 1);
    }
  }

  /** The list the effect stores: each finished task once, in the order it was first reported. */
  function NewCompleted(taskIds: seq<string>, messages: seq<Message>): seq<string> {
    Dedupe(FinishedIds(taskIds, messages))
  }

  /**
   * The completed list holds exactly the tasks some message reports as
   * finished, each once.
   */
  lemma NewCompletedSpec(taskIds: seq<string>, messages: seq<Message>)
    ensures Distinct(NewCompleted(taskIds, messages))
    ensures forall x :: x in NewCompleted(taskIds, messages) <==> x in taskIds && Reported(messages, x)
  {
  }

  // ===========================================================================
  // The percentage

  /** `(done / total) * 100`, and 0 without tasks. */
  function Percent(done: nat, total: nat): real {
    if total == 0 then 0.0 else (done as real / total as real) * 100.0
  }

  lemma PercentBounds(done: nat, total: nat)
    requires done <= total
    ensures 0.0 <= Percent(done, total) <= 100.0
    ensures total > 0 ==> (Percent(done, total) == 100.0 <==> done == total)
  {
    if total > 0 {
      var q := done as real / total as real;
      assert q * total as real == done as real;
      assert q <= 1.0;
      assert q == 1.0 <==> done == total;
    }
  }

  /** The render as written: the stored list's length over the current task count. */
  function RenderedProgress(completed: seq<string>, taskIds: Option<seq<string>>): real {
    if taskIds.None? || taskIds.value == [] then 0.0 else Percent(|completed|, |taskIds.value|)
  }

  /** The percentage derived from the current tasks and messages. */
  function DerivedProgress(taskIds: Option<seq<string>>, messages: seq<Message>): (p: real)
    ensures 0.0 <= p <= 100.0
  {
    if taskIds.None? || taskIds.value == [] then 0.0
    else
      var done := NewCompleted(taskIds.value, messages);
      DistinctWithin(done, taskIds.value);
      PercentBounds(|done|, |taskIds.value|);
      Percent(|done|, |taskIds.value|)
  }

  /**
   * The bar is full exactly when every task is reported finished and no
   * task id is listed twice: a repeated id can never be matched by a second
   * completion, so it keeps the bar below 100.
   */
  lemma DerivedProgressFull(taskIds: seq<string>, messages: seq<Message>)
    requires taskIds != []
    ensures DerivedProgress(Some(taskIds), messages) == 100.0
        <==> Distinct(taskIds) && forall x :: x in taskIds ==> Reported(messages, x)
  {
    var done := NewCompleted(taskIds, messages);
    DistinctWithin(done, taskIds);
    PercentBounds(|done|, |taskIds|);
    if Distinct(taskIds) && forall x :: x in taskIds ==> Reported(messages, x) {
      DistinctCovers(done, taskIds);
    }
  }

  // ===========================================================================
  // Counting distinct elements

  function Elems(s: seq<string>): set<string> {
    set x | x in s
  }

  lemma {:induction false} ElemsCard(s: seq<string>)
    ensures |Elems(s)| <= |s|
    ensures Distinct(s) <==> |Elems(s)| == |s|
  {
    if s != [] {
      var t := s[1..];
      ElemsCard(t);
      assert Elems(s) == Elems(t) + {s[0]};
      if s[0] in t {
        assert Elems(s) == Elems(t);
        var k :| 0 <= k < |t| && t[k] == s[0];
        assert s[k + 1] == s[0];
      } else {
        assert |Elems(s)| == |Elems(t)| + 1;
        if Distinct(t) {
          forall i, j | 0 <= i < j < |s| ensures s[i] != s[j] {
            if i > 0 {
              assert s[i] == t[i - 1] && s[j] == t[j - 1];
            } else {
              assert s[j] == t[j - 1];
            }
          }
        }
        if Distinct(s) {
          forall i, j | 0 <= i < j < |t| ensures t[i] != t[j] {
            assert t[i] == s[i + 1] && t[j] == s[j + 1];
          }
        }
      }
    }
  }

  lemma {:induction false} SubsetCard(a: set<string>, b: set<string>)
    requires a <= b
    ensures |a| <= |b|
    ensures |a| == |b| ==> a == b
    decreases |b|
  {
    if b != {} {
      var y :| y in b;
      if y in a {
        SubsetCard(a - {y}, b - {y});
        if |a| == |b| {
          assert a == (a - {y}) + {y} && b == (b - {y}) + {y};
        }
      } else {
        SubsetCard(a, b - {y});
      }
    }
  }

  /** A list without repeats drawn from `t` is no longer than `t`. */
  lemma DistinctWithin(s: seq<string>, t: seq<string>)
    requires Distinct(s) && forall x :: x in s ==> x in t
    ensures |s| <= |t|
    ensures |s| == |t| ==> Distinct(t) && forall x :: x in t ==> x in s
  {
    ElemsCard(s);
    ElemsCard(t);
    SubsetCard(Elems(s), Elems(t));
    if |s| == |t| {
      assert Elems(s) == Elems(t);
      forall x | x in t ensures x in s {
        assert x in Elems(t);
      }
    }
  }

  /** A list without repeats that covers a list without repeats is as long as it. */
  lemma DistinctCovers(s: seq<string>, t: seq<string>)
    requires Distinct(s) && Distinct(t)
    requires forall x :: x in s <==> x in t
    ensures |s| == |t|
  {
    ElemsCard(s);
    ElemsCard(t);
    assert Elems(s) == Elems(t);
  }

  // ===========================================================================
  // The component

  class ProgressView {
    /** The `completed` state. */
    var completed: seq<string>

    /** `useState([])`. */
    constructor()
      ensures completed == []
    {
      completed := [];
    }

    /**
     * The effect on `[messages, taskIds]`: without tasks it returns early and
     * the stored list stays; otherwise the list is recomputed from the
     * current tasks and messages alone, and the bar then shows the derived
     * percentage.
     */
    method Effect(taskIds: Option<seq<string>>, messages: seq<Message>)
      modifies this
      ensures taskIds.None? || taskIds.value == [] ==> completed == old(completed)
      ensures taskIds.Some? && taskIds.value != [] ==> completed == NewCompleted(taskIds.value, messages)
      ensures taskIds.Some? && taskIds.value != [] ==> Progress(taskIds) == DerivedProgress(taskIds, messages)
    {
      if taskIds.None? || taskIds.value == [] {
        return;
      }
      completed := NewCompleted(taskIds.value, messages);
    }

    /** `progress`, read while rendering. */
    function Progress(taskIds: Option<seq<string>>): real
      reads this
    {
      RenderedProgress(completed, taskIds)
    }
  }

  /**
   * The render that follows a change of `taskIds` runs before the effect and
   * divides the list stored for the previous tasks by the new task count:
   * two finished tasks followed by a single new one render 200.
   */
  lemma StaleRenderExceeds()
    ensures var messages := [Message("1", "done"), Message("2", "done")];
      RenderedProgress(NewCompleted(["1", "2"], messages), Some(["3"])) == 200.0
  {
    var messages := [Message("1", "done"), Message("2", "done")];
    var tasks := ["1", "2"];
    var done := NewCompleted(tasks, messages);
    NewCompletedSpec(tasks, messages);
    assert Reported(messages, "1") by { assert messages[0].decisionId == "1" && Finished(messages[0]); }
    assert Reported(messages, "2") by { assert messages[1].decisionId == "2" && Finished(messages[1]); }
    DistinctCovers(done, tasks);
  }
}
