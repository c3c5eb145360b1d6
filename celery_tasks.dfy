/**
 * `decision_processing_task` (backend/celery_tasks/tasks.py): one decision is
 * fetched, cleaned, described, cut into chunks and stored, its registry row is
 * marked done, and each stage is announced on the requesting user's Redis
 * channel. The network fetch, the text splitter, the user behind the job and
 * the failures of Redis, of the vector store and of the registry's two
 * queries are parameters.
 */
module CeleryTasks {
  import opened Wrappers
  import opened Text
  import opened Documents
  import opened CeleryUtils
  import opened CourtModels
  import opened ChromaStorage

  // ===========================================================================
  // Messages, channels and chunk ids

  /** One `redis_client.publish(channel, json.dumps(message))`. */
  datatype Notification = Notification(channel: string, decisionId: string, status: string, detail: string)

  /** `f"user:{user.id}"`. */
  function Channel(userId: nat): (ch: string)
    ensures |ch| > 5 && ch[..5] == "user:" && ch[5..] == NatToString(userId)
  {
    "user:" + NatToString(userId)
  }

  /** Distinct users listen on distinct channels. */
  lemma ChannelInjective(a: nat, b: nat)
    ensures Channel(a) == Channel(b) ==> a == b
  {
    if Channel(a) == Channel(b) {
      assert Channel(a)[5..] == Channel(b)[5..];
      NatToStringInjective(a, b);
    }
  }

  const ChunkInfix: string := "_chunk_"

  /** `f"{decision_id}_chunk_{i}"`. */
  function ChunkId(decisionId: string, i: nat): (c: string)
    ensures |c| > |decisionId| + |ChunkInfix|
    ensures c[..|decisionId| + |ChunkInfix|] == decisionId + ChunkInfix
    ensures c[|decisionId| + |ChunkInfix|..] == NatToString(i)
  {
    decisionId + ChunkInfix + NatToString(i)
  }

  /** The ids of the `n` chunks of a decision, in document order. */
  function ChunkIds(decisionId: string, n: nat): (ids: seq<string>)
    ensures |ids| == n
    ensures forall i :: 0 <= i < n ==> ids[i] == ChunkId(decisionId, i)
  {
    if n == 0 then [] else ChunkIds(decisionId, n - 1) + [ChunkId(decisionId, n - 1)]
  }

  /** The chunk ids of one decision are pairwise distinct, so no chunk overwrites another. */
  lemma ChunkIdsDistinct(decisionId: string, n: nat)
    ensures forall i, j :: 0 <= i < j < n ==> ChunkIds(decisionId, n)[i] != ChunkIds(decisionId, n)[j]
  {
    forall i, j | 0 <= i < j < n
      ensures ChunkIds(decisionId, n)[i] != ChunkIds(decisionId, n)[j]
    {
      var k := |decisionId| + |ChunkInfix|;
      assert ChunkId(decisionId, i)[k..] == NatToString(i);
      assert ChunkId(decisionId, j)[k..] == NatToString(j);
      NatToStringInjective(i, j);
    }
  }

  // ===========================================================================
  // The world the task acts on

  /**
   * The registry table, the notifications published so far, the outcome of
   * each future publish (`Some(message)` when it raises), and the vector
   * collection.
   */
  datatype World = World(
    records: map<string, CourtDecision>,
    published: seq<Notification>,
    publishFaults: seq<Option<string>>,
    store: map<string, Document>)

  /** What the task depends on besides its arguments. */
  datatype Environment = Environment(
    requester: Option<nat>,             // `self.requester.user.id`; None when that lookup raises
    fetch: string -> Result<string>,    // the page text RecursiveUrlLoader and bs4 yield for a URL, or their failure
    split: string -> seq<string>,       // the LangChain splitter
    saveFault: Option<string>,          // a failure of the collection write
    openFault: Option<string>,          // a failure of `get_or_create`
    markFault: Option<string>,          // a failure of the final `save`, such as a number too long for its column
    now: int)                           // `created_at` of a new row

  const MissingRequesterError: string := "'requester'"

  /** The dictionaries the task returns. */
  datatype TaskReturn =
    | AlreadyDone(decisionId: string)
    | Success(decisionId: string)
    | Failure(decisionId: string, errorMessage: string)

  /** How a run ends: a returned dictionary, or an exception that escapes the task. */
  datatype TaskOutcome = Returned(value: TaskReturn) | Escaped(message: string)

  /** A publish: the next fault in the script decides whether it raises. */
  datatype Published = Published(world: World, error: Option<string>)

  function Notify(w: World, n: Notification): (p: Published)
    ensures p.world.records == w.records && p.world.store == w.store
    ensures p.world.publishFaults == (if w.publishFaults == [] then [] else w.publishFaults[1..])
    ensures p.error.None? ==> p.world.published == w.published + [n]
    ensures p.error.Some? ==> p.world.published == w.published && w.publishFaults != [] && w.publishFaults[0] == p.error
  {
    var faults := if w.publishFaults == [] then [] else w.publishFaults[1..];
    if w.publishFaults != [] && w.publishFaults[0].Some? then Published(w.(publishFaults := faults), w.publishFaults[0])
    else Published(w.(published := w.published + [n], publishFaults := faults), None)
  }

  /** The row `get_or_create` yields for `decisionId`. */
  function RecordOf(w: World, decisionId: string, now: int): CourtDecision {
    if decisionId in w.records then w.records[decisionId] else NewDecision(decisionId, now)
  }

  /** The table after `get_or_create`. */
  function Opened(w: World, decisionId: string, now: int): World {
    w.(records := w.records[decisionId := RecordOf(w, decisionId, now)])
  }

  /** The row after the final `save(update_fields=[...])`: three fields change, nothing else. */
  function Completed(record: CourtDecision, m: DecisionMetadata): CourtDecision {
    record.(decisionNumber := m.number, proceedingNumber := m.proceeding, status := Done)
  }

  // ===========================================================================
  // What the page yields

  /** The metadata and the chunks of a fetched page. */
  datatype Analysis = Analysis(metadata: DecisionMetadata, docs: seq<Document>)

  /** `extract_metadata` and `split_text_into_chunks` on the cleaned text. */
  function AnalyseText(decisionId: string, split: string -> seq<string>, text: string): Analysis {
    var m := ExtractMetadata(text);
    Analysis(m, SplitTextIntoChunks(text, decisionId, m, split))
  }

  /** The page cleaned by `clean_text` (inside `extract_text_from_url`), then analysed. */
  function Analyse(decisionId: string, split: string -> seq<string>, page: string): Analysis {
    AnalyseText(decisionId, split, CleanText(page))
  }

  /** Everything the `try` block's effects depend on, with the page already analysed. */
  datatype Inputs = Inputs(
    decisionId: string,
    requester: Option<nat>,
    now: int,
    fetched: Result<Analysis>,
    saveFault: Option<string>,
    openFault: Option<string>,
    markFault: Option<string>)

  function InputsOf(url: string, decisionId: string, env: Environment): Inputs {
    var fetched := match env.fetch(url)
      case Err(e) => Err(e)
      case Ok(page) => Ok(Analyse(decisionId, env.split, page));
    Inputs(decisionId, env.requester, env.now, fetched, env.saveFault, env.openFault, env.markFault)
  }

  // ===========================================================================
  // The `try` block as a plan of effects

  /** How the `try` block ends: a returned dictionary, or an exception and its message. */
  datatype BodyEnd = BodyReturned(value: TaskReturn) | Threw(message: string)

  /**
   * One effect of the `try` block: a publish, the collection write of the
   * chunks, or the save of the completed row. The work between them
   * (cleaning, metadata, chunking) is pure and decides what the effects are.
   */
  datatype Action =
    | Announce(notice: Notification)
    | WriteChunks(ids: seq<string>, docs: seq<Document>)
    | MarkCompleted(decisionId: string, record: CourtDecision)

  /** The effects the `try` block attempts, and how it ends when none of them raises. */
  datatype Plan = Plan(actions: seq<Action>, end: BodyEnd)

  /** Carries out `actions` in order; the first publish that raises ends the block with its message. */
  function Exec(actions: seq<Action>, end: BodyEnd, w: World): (World, BodyEnd)
    decreases |actions|
  {
    if actions == [] then (w, end)
    else match actions[0]
      case Announce(n) =>
        var p := Notify(w, n);
        if p.error.Some? then (p.world, Threw(p.error.value)) else Exec(actions[1..], end, p.world)
      case WriteChunks(ids, docs) => Exec(actions[1..], end, w.(store := Upsert(w.store, ids, docs)))
      case MarkCompleted(id, record) => Exec(actions[1..], end, w.(records := w.records[id := record]))
  }

  /** The first four announcements, up to the chunk count. */
  function Prepared(ch: string, decisionId: string, chunkCount: nat): seq<Action> {
    [ Announce(Notification(ch, decisionId, "started", "Processing started")),
      Announce(Notification(ch, decisionId, "text_extracted", "Text extracted")),
      Announce(Notification(ch, decisionId, "metadata_extracted", "Metadata extracted")),
      Announce(Notification(ch, decisionId, "chunks_created", NatToString(chunkCount) + " chunks created")) ]
  }

  /** The write of the chunks and its announcement, where a failing row save ends the block. */
  function Unsaved(ch: string, decisionId: string, docs: seq<Document>): seq<Action> {
    [ WriteChunks(ChunkIds(decisionId, |docs|), docs),
      Announce(Notification(ch, decisionId, "documents_saved", "Documents saved to Chroma")) ]
  }

  /** The write of the chunks, its announcement, the row update and the final announcement. */
  function Finishing(ch: string, decisionId: string, docs: seq<Document>, done: CourtDecision): seq<Action> {
    [ WriteChunks(ChunkIds(decisionId, |docs|), docs),
      Announce(Notification(ch, decisionId, "documents_saved", "Documents saved to Chroma")),
      MarkCompleted(decisionId, done),
      Announce(Notification(ch, decisionId, "done", "Decision processing completed")) ]
  }

  /**
   * The plan of the `try` block for the row `get_or_create` returned: a done
   * row only announces itself; otherwise "started", then a failed fetch
   * raises, and a fetched page is described, chunked and stored.
   */
  function PlanOf(inp: Inputs, userId: nat, record: CourtDecision): Plan {
    var ch := Channel(userId);
    var id := inp.decisionId;
    if record.status == Done then
      Plan([Announce(Notification(ch, id, "already_done", ""))], BodyReturned(AlreadyDone(id)))
    else match inp.fetched
      case Err(e) => Plan([Announce(Notification(ch, id, "started", "Processing started"))], Threw(e))
      case Ok(a) => FetchedPlan(ch, id, record, a, inp.saveFault, inp.markFault)
  }

  /**
   * The plan once the page is fetched: the chunks are stored unless the
   * write fails, and a failing row save ends the block after the chunks are
   * stored and announced.
   */
  function FetchedPlan(ch: string, decisionId: string, record: CourtDecision, a: Analysis,
                       saveFault: Option<string>, markFault: Option<string>): Plan {
    if saveFault.Some? then Plan(Prepared(ch, decisionId, |a.docs|), Threw(saveFault.value))
    else if markFault.Some? then Plan(Prepared(ch, decisionId, |a.docs|) + Unsaved(ch, decisionId, a.docs), Threw(markFault.value))
    else Plan(Prepared(ch, decisionId, |a.docs|) + Finishing(ch, decisionId, a.docs, Completed(record, a.metadata)),
              BodyReturned(Success(decisionId)))
  }

  /** The `try` block: `get_or_create`, which may raise and change nothing, then the plan for that row. */
  function Body(inp: Inputs, userId: nat, w: World): (World, BodyEnd) {
    if inp.openFault.Some? then (w, Threw(inp.openFault.value))
    else
      var plan := PlanOf(inp, userId, RecordOf(w, inp.decisionId, inp.now));
      Exec(plan.actions, plan.end, Opened(w, inp.decisionId, inp.now))
  }

  /**
   * The whole task: the user lookup before the `try`, the `try` block, and
   * the `except` branch that announces the error and returns it (or lets the
   * exception of a failing announcement escape).
   */
  function RunOf(inp: Inputs, w: World): (World, TaskOutcome) {
    match inp.requester
    case None => (w, Escaped(MissingRequesterError))
    case Some(userId) =>
      var (w1, end) := Body(inp, userId, w);
      match end
      case BodyReturned(r) => (w1, Returned(r))
      case Threw(message) =>
        var p := Notify(w1, Notification(Channel(userId), inp.decisionId, "error", message));
        if p.error.Some? then (p.world, Escaped(p.error.value))
        else (p.world, Returned(Failure(inp.decisionId, message)))
  }

  /** `decision_processing_task(url, decision_id)` in the world `w`. */
  function Run(url: string, decisionId: string, env: Environment, w: World): (World, TaskOutcome) {
    RunOf(InputsOf(url, decisionId, env), w)
  }

  // ===========================================================================
  // Carrying out a plan

  /** The notifications a plan publishes when every publish goes through. */
  function Notices(actions: seq<Action>): (ns: seq<Notification>)
    ensures |ns| <= |actions|
    decreases |actions|
  {
    if actions == [] then []
    else (if actions[0].Announce? then [actions[0].notice] else []) + Notices(actions[1..])
  }

  /** The collection after a plan's writes. */
  function StoreAfter(actions: seq<Action>, store: map<string, Document>): map<string, Document>
    decreases |actions|
  {
    if actions == [] then store
    else StoreAfter(actions[1..], if actions[0].WriteChunks? then Upsert(store, actions[0].ids, actions[0].docs) else store)
  }

  /** The table after a plan's row saves. */
  function RecordsAfter(actions: seq<Action>, records: map<string, CourtDecision>): map<string, CourtDecision>
    decreases |actions|
  {
    if actions == [] then records
    else RecordsAfter(actions[1..], if actions[0].MarkCompleted? then records[actions[0].decisionId := actions[0].record] else records)
  }

  /** Every publish of the script goes through. */
  predicate NoPublishFaults(w: World) {
    forall i :: 0 <= i < |w.publishFaults| ==> w.publishFaults[i].None?
  }

  /**
   * A block that returns a dictionary ran its whole plan: the publishes
   * that raise end it with `Threw`, so none of them raised.
   */
  lemma {:induction false} ExecReturned(actions: seq<Action>, end: BodyEnd, w: World)
    ensures var (w1, e) := Exec(actions, end, w);
      e.BodyReturned? ==>
        && e == end
        && w1.published == w.published + Notices(actions)
        && w1.store == StoreAfter(actions, w.store)
        && w1.records == RecordsAfter(actions, w.records)
    decreases |actions|
  {
    if actions != [] {
      match actions[0]
      case Announce(n) =>
        var p := Notify(w, n);
        if p.error.None? {
          ExecReturned(actions[1..], end, p.world);
          assert w.published + [n] + Notices(actions[1..]) == w.published + Notices(actions);
        }
      case WriteChunks(ids, docs) =>
        ExecReturned(actions[1..], end, w.(store := Upsert(w.store, ids, docs)));
      case MarkCompleted(id, record) =>
        ExecReturned(actions[1..], end, w.(records := w.records[id := record]));
    }
  }

  /** Without publish failures a plan runs to its end. */
  lemma {:induction false} ExecUnfailing(actions: seq<Action>, end: BodyEnd, w: World)
    requires NoPublishFaults(w)
    ensures Exec(actions, end, w).1 == end
    decreases |actions|
  {
    if actions != [] {
      match actions[0]
      case Announce(n) =>
        ExecUnfailing(actions[1..], end, Notify(w, n).world);
      case WriteChunks(ids, docs) =>
        ExecUnfailing(actions[1..], end, w.(store := Upsert(w.store, ids, docs)));
      case MarkCompleted(id, record) =>
        ExecUnfailing(actions[1..], end, w.(records := w.records[id := record]));
    }
  }

  /** `w1` extends the notifications of `w` with notices on `ch` about `decisionId` only. */
  predicate Announced(w: World, w1: World, ch: string, decisionId: string) {
    && |w.published| <= |w1.published|
    && w1.published[..|w.published|] == w.published
    && forall i :: |w.published| <= i < |w1.published| ==>
         w1.published[i].channel == ch && w1.published[i].decisionId == decisionId
  }

  lemma AnnouncedTrans(w: World, w1: World, w2: World, ch: string, decisionId: string)
    requires Announced(w, w1, ch, decisionId) && Announced(w1, w2, ch, decisionId)
    ensures Announced(w, w2, ch, decisionId)
  {
    assert w2.published[..|w.published|] == w1.published[..|w1.published|][..|w.published|];
  }

  lemma NotifyAnnounced(w: World, n: Notification)
    ensures Announced(w, Notify(w, n).world, n.channel, n.decisionId)
  {
    assert w.published[..|w.published|] == w.published;
    assert (w.published + [n])[..|w.published|] == w.published;
  }

  /** Every announcement of the plan is on `ch` about `decisionId`. */
  predicate AnnouncesOn(actions: seq<Action>, ch: string, decisionId: string) {
    forall i :: 0 <= i < |actions| && actions[i].Announce? ==>
      actions[i].notice.channel == ch && actions[i].notice.decisionId == decisionId
  }

  /** A plan that only announces on `ch` about `decisionId` publishes nothing else, wherever it stops. */
  lemma {:induction false} ExecAnnounced(actions: seq<Action>, end: BodyEnd, w: World, ch: string, decisionId: string)
    requires AnnouncesOn(actions, ch, decisionId)
    ensures Announced(w, Exec(actions, end, w).0, ch, decisionId)
    decreases |actions|
  {
    assert w.published[..|w.published|] == w.published;
    if actions != [] {
      var rest := actions[1..];
      assert AnnouncesOn(rest, ch, decisionId) by {
        forall i | 0 <= i < |rest| && rest[i].Announce?
          ensures rest[i].notice.channel == ch && rest[i].notice.decisionId == decisionId
        {
          assert rest[i] == actions[i + 1];
        }
      }
      match actions[0]
      case Announce(n) =>
        var p := Notify(w, n);
        NotifyAnnounced(w, n);
        if p.error.None? {
          ExecAnnounced(rest, end, p.world, ch, decisionId);
          AnnouncedTrans(w, p.world, Exec(rest, end, p.world).0, ch, decisionId);
        }
      case WriteChunks(ids, docs) =>
        var w1 := w.(store := Upsert(w.store, ids, docs));
        ExecAnnounced(rest, end, w1, ch, decisionId);
      case MarkCompleted(id, record) =>
        var w1 := w.(records := w.records[id := record]);
        ExecAnnounced(rest, end, w1, ch, decisionId);
    }
  }

  /**
   * The store is either untouched or holds the chunks; the rows are either
   * untouched or `decisionId` is completed, and then the chunks are stored.
   */
  predicate SavedBeforeDone(w: World, w1: World, decisionId: string, done: CourtDecision,
                            ids: seq<string>, docs: seq<Document>) {
    var stored := Upsert(w.store, ids, docs);
    && (w1.store == w.store || w1.store == stored)
    && (w1.records == w.records || (w1.records == w.records[decisionId := done] && w1.store == stored))
  }

  /** Every row save of the plan completes `decisionId` with `done`. */
  predicate MarksOnly(actions: seq<Action>, decisionId: string, done: CourtDecision) {
    forall i :: 0 <= i < |actions| && actions[i].MarkCompleted? ==> actions[i] == MarkCompleted(decisionId, done)
  }

  /** After the write: no further writes, and row saves only of `done`. */
  lemma {:induction false} ExecAfterWrite(actions: seq<Action>, end: BodyEnd, w: World, decisionId: string, done: CourtDecision)
    requires forall i :: 0 <= i < |actions| ==> !actions[i].WriteChunks?
    requires MarksOnly(actions, decisionId, done)
    ensures var w1 := Exec(actions, end, w).0;
      w1.store == w.store && (w1.records == w.records || w1.records == w.records[decisionId := done])
    decreases |actions|
  {
    if actions != [] {
      match actions[0]
      case Announce(n) =>
        if Notify(w, n).error.None? {
          ExecAfterWrite(actions[1..], end, Notify(w, n).world, decisionId, done);
        }
      case MarkCompleted(id, record) =>
        var w1 := w.(records := w.records[id := record]);
        ExecAfterWrite(actions[1..], end, w1, decisionId, done);
        assert w1.records[decisionId := done] == w.records[decisionId := done];
    }
  }

  predicate OnlyAnnounces(actions: seq<Action>) {
    forall i :: 0 <= i < |actions| ==> actions[i].Announce?
  }

  /** A plan that only announces leaves the rows and the store alone, wherever it stops. */
  lemma {:induction false} ExecOnlyAnnounces(actions: seq<Action>, end: BodyEnd, w: World)
    requires OnlyAnnounces(actions)
    ensures Exec(actions, end, w).0.store == w.store && Exec(actions, end, w).0.records == w.records
    decreases |actions|
  {
    if actions != [] {
      var p := Notify(w, actions[0].notice);
      if p.error.None? {
        ExecOnlyAnnounces(actions[1..], end, p.world);
      }
    }
  }

  /**
   * A plan that announces, writes the chunks once, and afterwards completes
   * only the decision's row keeps the rows unchanged until the chunks are
   * stored, wherever it stops.
   */
  lemma {:induction false} ExecSavedBeforeDone(before: seq<Action>, after: seq<Action>, end: BodyEnd, w: World,
                                               decisionId: string, done: CourtDecision,
                                               ids: seq<string>, docs: seq<Document>)
    requires OnlyAnnounces(before)
    requires forall i :: 0 <= i < |after| ==> !after[i].WriteChunks?
    requires MarksOnly(after, decisionId, done)
    ensures SavedBeforeDone(w, Exec(before + [WriteChunks(ids, docs)] + after, end, w).0, decisionId, done, ids, docs)
    decreases |before|
  {
    var a := before + [WriteChunks(ids, docs)] + after;
    if before == [] {
      assert a[0] == WriteChunks(ids, docs) && a[1..] == after;
      ExecAfterWrite(after, end, w.(store := Upsert(w.store, ids, docs)), decisionId, done);
    } else {
      assert a[0] == before[0] && a[1..] == before[1..] + [WriteChunks(ids, docs)] + after;
      var p := Notify(w, before[0].notice);
      if p.error.None? {
        ExecSavedBeforeDone(before[1..], after, end, p.world, decisionId, done, ids, docs);
      }
    }
  }

  // ===========================================================================
  // The plans of the task

  /** The six notifications of a successful run, in order. */
  function SuccessNotifications(ch: string, decisionId: string, chunkCount: nat): seq<Notification> {
    [ Notification(ch, decisionId, "started", "Processing started"),
      Notification(ch, decisionId, "text_extracted", "Text extracted"),
      Notification(ch, decisionId, "metadata_extracted", "Metadata extracted"),
      Notification(ch, decisionId, "chunks_created", NatToString(chunkCount) + " chunks created"),
      Notification(ch, decisionId, "documents_saved", "Documents saved to Chroma"),
      Notification(ch, decisionId, "done", "Decision processing completed") ]
  }

  lemma {:induction false} EffectsAppend(a: seq<Action>, b: seq<Action>, store: map<string, Document>,
                                         records: map<string, CourtDecision>)
    ensures Notices(a + b) == Notices(a) + Notices(b)
    ensures StoreAfter(a + b, store) == StoreAfter(b, StoreAfter(a, store))
    ensures RecordsAfter(a + b, records) == RecordsAfter(b, RecordsAfter(a, records))
    decreases |a|
  {
    if a == [] {
      assert a + b == b;
    } else {
      assert (a + b)[1..] == a[1..] + b;
      var s := if a[0].WriteChunks? then Upsert(store, a[0].ids, a[0].docs) else store;
      var r := if a[0].MarkCompleted? then records[a[0].decisionId := a[0].record] else records;
      EffectsAppend(a[1..], b, s, r);
    }
  }

  lemma PreparedEffects(ch: string, decisionId: string, chunkCount: nat, store: map<string, Document>,
                        records: map<string, CourtDecision>)
    ensures Notices(Prepared(ch, decisionId, chunkCount)) == SuccessNotifications(ch, decisionId, chunkCount)[..4]
    ensures StoreAfter(Prepared(ch, decisionId, chunkCount), store) == store
    ensures RecordsAfter(Prepared(ch, decisionId, chunkCount), records) == records
  {
    var a := Prepared(ch, decisionId, chunkCount);
    var ns := SuccessNotifications(ch, decisionId, chunkCount);
    assert a[4..] == [];
    assert a[3..][1..] == a[4..] && a[2..][1..] == a[3..] && a[1..][1..] == a[2..];
    assert Notices(a[3..]) == [ns[3]];
    assert Notices(a[2..]) == [ns[2], ns[3]];
    assert Notices(a[1..]) == [ns[1], ns[2], ns[3]];
    assert StoreAfter(a[3..], store) == store && RecordsAfter(a[3..], records) == records;
    assert StoreAfter(a[2..], store) == store && RecordsAfter(a[2..], records) == records;
  }

  lemma FinishingEffects(ch: string, decisionId: string, docs: seq<Document>, done: CourtDecision,
                         store: map<string, Document>, records: map<string, CourtDecision>)
    ensures Notices(Finishing(ch, decisionId, docs, done)) == SuccessNotifications(ch, decisionId, |docs|)[4..]
    ensures StoreAfter(Finishing(ch, decisionId, docs, done), store) == Upsert(store, ChunkIds(decisionId, |docs|), docs)
    ensures RecordsAfter(Finishing(ch, decisionId, docs, done), records) == records[decisionId := done]
  {
    var a := Finishing(ch, decisionId, docs, done);
    var ns := SuccessNotifications(ch, decisionId, |docs|);
    var stored := Upsert(store, ChunkIds(decisionId, |docs|), docs);
    var marked := records[decisionId := done];
    assert a[4..] == [];
    assert a[3..][1..] == a[4..] && a[2..][1..] == a[3..] && a[1..][1..] == a[2..];
    assert Notices(a[3..]) == [ns[5]];
    assert Notices(a[2..]) == [ns[5]];
    assert Notices(a[1..]) == [ns[4], ns[5]];
    assert StoreAfter(a[3..], stored) == stored;
    assert StoreAfter(a[2..], stored) == stored;
    assert StoreAfter(a, store) == StoreAfter(a[1..], stored);
    assert RecordsAfter(a[3..], marked) == marked;
    assert RecordsAfter(a[2..], records) == marked;
  }

  /** The successful plan announces the six stages, writes the chunks once and completes the row once. */
  lemma SuccessPlanEffects(ch: string, decisionId: string, docs: seq<Document>, done: CourtDecision,
                           store: map<string, Document>, records: map<string, CourtDecision>)
    ensures var a := Prepared(ch, decisionId, |docs|) + Finishing(ch, decisionId, docs, done);
      && Notices(a) == SuccessNotifications(ch, decisionId, |docs|)
      && StoreAfter(a, store) == Upsert(store, ChunkIds(decisionId, |docs|), docs)
      && RecordsAfter(a, records) == records[decisionId := done]
  {
    var prepared := Prepared(ch, decisionId, |docs|);
    var finishing := Finishing(ch, decisionId, docs, done);
    EffectsAppend(prepared, finishing, store, records);
    PreparedEffects(ch, decisionId, |docs|, store, records);
    FinishingEffects(ch, decisionId, docs, done, store, records);
    var ns := SuccessNotifications(ch, decisionId, |docs|);
    assert ns == ns[..4] + ns[4..];
  }

  lemma AnnouncesOnAppend(a: seq<Action>, b: seq<Action>, ch: string, decisionId: string)
    requires AnnouncesOn(a, ch, decisionId) && AnnouncesOn(b, ch, decisionId)
    ensures AnnouncesOn(a + b, ch, decisionId)
  {
    forall i | 0 <= i < |a + b| && (a + b)[i].Announce?
      ensures (a + b)[i].notice.channel == ch && (a + b)[i].notice.decisionId == decisionId
    {
      if i >= |a| {
        assert (a + b)[i] == b[i - |a|];
      }
    }
  }

  /** The announcements of every plan are on the user's channel and about the decision. */
  lemma PlanAnnouncesOn(inp: Inputs, userId: nat, record: CourtDecision)
    ensures AnnouncesOn(PlanOf(inp, userId, record).actions, Channel(userId), inp.decisionId)
  {
    var ch := Channel(userId);
    var id := inp.decisionId;
    if record.status != Done && inp.fetched.Ok? {
      var a := inp.fetched.value;
      var prepared := Prepared(ch, id, |a.docs|);
      var finishing := Finishing(ch, id, a.docs, Completed(record, a.metadata));
      assert AnnouncesOn(prepared, ch, id) by {
        forall i | 0 <= i < 4 ensures prepared[i].notice.channel == ch && prepared[i].notice.decisionId == id {}
      }
      assert AnnouncesOn(finishing, ch, id) by {
        forall i | 0 <= i < 4 && finishing[i].Announce?
          ensures finishing[i].notice.channel == ch && finishing[i].notice.decisionId == id
        {}
      }
      AnnouncesOnAppend(prepared, finishing, ch, id);
      var unsaved := Unsaved(ch, id, a.docs);
      assert AnnouncesOn(unsaved, ch, id) by {
        forall i | 0 <= i < 2 && unsaved[i].Announce?
          ensures unsaved[i].notice.channel == ch && unsaved[i].notice.decisionId == id
        {}
      }
      AnnouncesOnAppend(prepared, unsaved, ch, id);
    }
  }

  /** A row not yet done opens its plan with "started". */
  lemma PlanStarts(inp: Inputs, userId: nat, record: CourtDecision)
    requires record.status != Done
    ensures var plan := PlanOf(inp, userId, record);
      plan.actions != [] && plan.actions[0] == Announce(Notification(Channel(userId), inp.decisionId, "started", "Processing started"))
  {
  }

  /** A plan that ends in success is the plan of a fetched page, stored and saved without fault, for a row not yet done. */
  lemma PlanOfSuccess(inp: Inputs, userId: nat, record: CourtDecision)
    ensures var plan := PlanOf(inp, userId, record);
      plan.end == BodyReturned(Success(inp.decisionId)) ==>
        && record.status != Done && inp.fetched.Ok? && inp.saveFault.None? && inp.markFault.None?
        && plan.actions == Prepared(Channel(userId), inp.decisionId, |inp.fetched.value.docs|)
                           + Finishing(Channel(userId), inp.decisionId, inp.fetched.value.docs,
                                       Completed(record, inp.fetched.value.metadata))
  {
  }

  // ===========================================================================
  // What the `try` block guarantees

  /**
   * A `try` block that ends in success met no registry fault, announced the
   * six stages in order, stored every chunk under its id, and completed the
   * row with the page's numbers.
   */
  lemma BodySuccess(inp: Inputs, userId: nat, w: World)
    ensures var (w1, end) := Body(inp, userId, w);
      end == BodyReturned(Success(inp.decisionId)) ==>
        && inp.openFault.None? && inp.markFault.None?
        && inp.fetched.Ok?
        && var a := inp.fetched.value;
        && w1.published == w.published + SuccessNotifications(Channel(userId), inp.decisionId, |a.docs|)
        && w1.store == Upsert(w.store, ChunkIds(inp.decisionId, |a.docs|), a.docs)
        && w1.records == w.records[inp.decisionId := Completed(RecordOf(w, inp.decisionId, inp.now), a.metadata)]
  {
    var record := RecordOf(w, inp.decisionId, inp.now);
    var plan := PlanOf(inp, userId, record);
    var w0 := Opened(w, inp.decisionId, inp.now);
    ExecReturned(plan.actions, plan.end, w0);
    PlanOfSuccess(inp, userId, record);
    if inp.openFault.None? && plan.end == BodyReturned(Success(inp.decisionId)) {
      var a := inp.fetched.value;
      var done := Completed(record, a.metadata);
      SuccessPlanEffects(Channel(userId), inp.decisionId, a.docs, done, w0.store, w0.records);
      assert w0.records[inp.decisionId := done] == w.records[inp.decisionId := done];
    }
  }

  /**
   * Whatever the plan and wherever it stops, the store holds either nothing
   * new or the page's chunks, and the row is completed only once they are
   * stored, which needs a fetched page, a row not yet done and a write and
   * a save without fault. A failing `get_or_create` changes nothing.
   */
  lemma BodySavesBeforeDone(inp: Inputs, userId: nat, w: World)
    ensures inp.openFault.Some? ==> Body(inp, userId, w).0 == w
    ensures var record := RecordOf(w, inp.decisionId, inp.now);
      var a := if inp.fetched.Ok? then inp.fetched.value else Analysis(DecisionMetadata("", ""), []);
      var w1 := Body(inp, userId, w).0;
      var w0 := Opened(w, inp.decisionId, inp.now);
      inp.openFault.None? ==>
        && SavedBeforeDone(w0, w1, inp.decisionId, Completed(record, a.metadata), ChunkIds(inp.decisionId, |a.docs|), a.docs)
        && (w1.records != w0.records ==> record.status != Done && inp.fetched.Ok? && inp.saveFault.None? && inp.markFault.None?)
  {
    var ch := Channel(userId);
    var id := inp.decisionId;
    var record := RecordOf(w, id, inp.now);
    var plan := PlanOf(inp, userId, record);
    var w0 := Opened(w, id, inp.now);
    if inp.openFault.Some? {
    } else if record.status != Done && inp.fetched.Ok? && inp.saveFault.None? {
      var a := inp.fetched.value;
      var done := Completed(record, a.metadata);
      var finishing := Finishing(ch, id, a.docs, done);
      var write := WriteChunks(ChunkIds(id, |a.docs|), a.docs);
      if inp.markFault.None? {
        var after := finishing[1..];
        assert plan.actions == Prepared(ch, id, |a.docs|) + [write] + after by {
          assert finishing == [finishing[0]] + after;
        }
        ExecSavedBeforeDone(Prepared(ch, id, |a.docs|), after, plan.end, w0, id, done, ChunkIds(id, |a.docs|), a.docs);
      } else {
        // No row save in this plan: it completes the row with the row itself.
        var unsaved := Unsaved(ch, id, a.docs);
        var after := unsaved[1..];
        assert plan.actions == Prepared(ch, id, |a.docs|) + [write] + after by {
          assert unsaved == [write] + after;
        }
        ExecSavedBeforeDone(Prepared(ch, id, |a.docs|), after, plan.end, w0, id, record, ChunkIds(id, |a.docs|), a.docs);
        assert w0.records[id := record] == w0.records;
      }
    } else {
      assert OnlyAnnounces(plan.actions);
      ExecOnlyAnnounces(plan.actions, plan.end, w0);
    }
  }

  /** The notifications of the `try` block are on the user's channel and about the decision. */
  lemma BodyAnnounced(inp: Inputs, userId: nat, w: World)
    ensures Announced(w, Body(inp, userId, w).0, Channel(userId), inp.decisionId)
  {
    assert w.published[..|w.published|] == w.published;
    var record := RecordOf(w, inp.decisionId, inp.now);
    var plan := PlanOf(inp, userId, record);
    PlanAnnouncesOn(inp, userId, record);
    ExecAnnounced(plan.actions, plan.end, Opened(w, inp.decisionId, inp.now), Channel(userId), inp.decisionId);
  }

  // ===========================================================================
  // What the task guarantees

  /**
   * A row already marked done short-circuits: one "already_done" notice, no
   * fetch, no chunks, no store write and no row change.
   */
  lemma AlreadyDoneShortCircuit(inp: Inputs, w: World)
    requires inp.requester.Some? && inp.openFault.None?
    requires inp.decisionId in w.records && w.records[inp.decisionId].status == Done
    requires w.publishFaults == [] || w.publishFaults[0].None?
    ensures var (w1, outcome) := RunOf(inp, w);
      && outcome == Returned(AlreadyDone(inp.decisionId))
      && w1.records == w.records && w1.store == w.store
      && w1.published == w.published + [Notification(Channel(inp.requester.value), inp.decisionId, "already_done", "")]
  {
    var userId := inp.requester.value;
    var n := Notification(Channel(userId), inp.decisionId, "already_done", "");
    var plan := PlanOf(inp, userId, w.records[inp.decisionId]);
    var w0 := Opened(w, inp.decisionId, inp.now);
    assert w0 == w by {
      assert w.records[inp.decisionId := w.records[inp.decisionId]] == w.records;
    }
    assert plan.actions == [Announce(n)] && plan.end == BodyReturned(AlreadyDone(inp.decisionId));
    assert plan.actions[1..] == [];
    assert Body(inp, userId, w) == Exec(plan.actions, plan.end, w);
    assert Notify(w, n).error.None?;
    assert Exec(plan.actions, plan.end, w) == Exec(plan.actions[1..], plan.end, Notify(w, n).world);
  }

  /**
   * A successful run met no registry fault, announces exactly the six
   * stages in order on the user's channel, with the number of stored chunks
   * in the fourth, stores every chunk under its id, and marks the row done
   * with the page's numbers.
   */
  lemma SuccessfulRun(inp: Inputs, w: World)
    requires inp.requester.Some?
    ensures var (w1, outcome) := RunOf(inp, w);
      outcome == Returned(Success(inp.decisionId)) ==>
        && inp.openFault.None? && inp.markFault.None?
        && inp.fetched.Ok?
        && var a := inp.fetched.value;
        && w1.published == w.published + SuccessNotifications(Channel(inp.requester.value), inp.decisionId, |a.docs|)
        && w1.store == Upsert(w.store, ChunkIds(inp.decisionId, |a.docs|), a.docs)
        && w1.records == w.records[inp.decisionId := Completed(RecordOf(w, inp.decisionId, inp.now), a.metadata)]
  {
    BodySuccess(inp, inp.requester.value, w);
  }

  /**
   * Nothing fails, so the run succeeds: with every publish going through,
   * the page fetched, the store write accepted and both registry queries
   * answering, a row that is not done ends done.
   */
  lemma NoFaultSucceeds(inp: Inputs, w: World)
    requires inp.requester.Some? && inp.fetched.Ok? && inp.saveFault.None?
    requires inp.openFault.None? && inp.markFault.None?
    requires NoPublishFaults(w)
    requires inp.decisionId !in w.records || w.records[inp.decisionId].status != Done
    ensures var (w1, outcome) := RunOf(inp, w);
      && outcome == Returned(Success(inp.decisionId))
      && inp.decisionId in w1.records && w1.records[inp.decisionId].status == Done
  {
    var userId := inp.requester.value;
    var plan := PlanOf(inp, userId, RecordOf(w, inp.decisionId, inp.now));
    ExecUnfailing(plan.actions, plan.end, Opened(w, inp.decisionId, inp.now));
    SuccessfulRun(inp, w);
  }

  /**
   * Every run with a user whose `get_or_create` answers leaves a row for the
   * id, touches no other row, and changes the row only by the three
   * completed fields; a row that was not done becomes done only with the
   * page fetched, its chunks written to the store and the save accepted. A
   * run whose `get_or_create` raises leaves the rows as they were.
   */
  lemma RecordDiscipline(inp: Inputs, w: World)
    requires inp.requester.Some?
    ensures var (w1, _) := RunOf(inp, w);
      var id := inp.decisionId;
      var before := RecordOf(w, id, inp.now);
      && (inp.openFault.Some? ==> w1.records == w.records)
      && (inp.openFault.None? ==>
        && w1.records.Keys == w.records.Keys + {id}
        && (forall other :: other in w.records && other != id ==> w1.records[other] == w.records[other])
        && (w1.records[id] == before || (before.status != Done && exists m :: w1.records[id] == Completed(before, m)))
        && (before.status != Done && w1.records[id].status == Done ==>
              inp.fetched.Ok? && inp.saveFault.None? && inp.markFault.None?
              && var a := inp.fetched.value;
              w1.store == Upsert(w.store, ChunkIds(id, |a.docs|), a.docs)))
  {
    RunKeepsBodyTables(inp, w);
    BodyRecordDiscipline(inp, inp.requester.value, w);
  }

  /** The `except` branch only publishes: the rows and the store are those the `try` block left. */
  lemma RunKeepsBodyTables(inp: Inputs, w: World)
    requires inp.requester.Some?
    ensures RunOf(inp, w).0.records == Body(inp, inp.requester.value, w).0.records
    ensures RunOf(inp, w).0.store == Body(inp, inp.requester.value, w).0.store
  {
  }

  /** `RecordDiscipline` for the `try` block. */
  lemma BodyRecordDiscipline(inp: Inputs, userId: nat, w: World)
    ensures var w1 := Body(inp, userId, w).0;
      var id := inp.decisionId;
      var before := RecordOf(w, id, inp.now);
      && (inp.openFault.Some? ==> w1.records == w.records)
      && (inp.openFault.None? ==>
        && w1.records.Keys == w.records.Keys + {id}
        && (forall other :: other in w.records && other != id ==> w1.records[other] == w.records[other])
        && (w1.records[id] == before || (before.status != Done && exists m :: w1.records[id] == Completed(before, m)))
        && (before.status != Done && w1.records[id].status == Done ==>
              inp.fetched.Ok? && inp.saveFault.None? && inp.markFault.None?
              && var a := inp.fetched.value;
              w1.store == Upsert(w.store, ChunkIds(id, |a.docs|), a.docs)))
  {
    var id := inp.decisionId;
    var record := RecordOf(w, id, inp.now);
    var w0 := Opened(w, id, inp.now);
    var a := if inp.fetched.Ok? then inp.fetched.value else Analysis(DecisionMetadata("", ""), []);
    var done := Completed(record, a.metadata);
    BodySavesBeforeDone(inp, userId, w);
    var wb := Body(inp, userId, w).0;
    if inp.openFault.None? && wb.records != w0.records {
      assert wb.records == w0.records[id := done];
      assert w0.records[id := done] == w.records[id := done];
    }
  }

  /** The `try` block never returns the failure dictionary itself: that is the `except` branch's. */
  lemma PlanEndsNoFailure(inp: Inputs, userId: nat, record: CourtDecision, w: World)
    ensures var plan := PlanOf(inp, userId, record);
      var end := Exec(plan.actions, plan.end, w).1;
      end.BodyReturned? ==> !end.value.Failure?
  {
    var plan := PlanOf(inp, userId, record);
    ExecReturned(plan.actions, plan.end, w);
  }

  /** A failed stage is announced as "error" with the exception's message, and the dictionary carries the same message. */
  lemma ErrorAnnounced(inp: Inputs, w: World)
    requires inp.requester.Some?
    ensures var (w1, outcome) := RunOf(inp, w);
      outcome.Returned? && outcome.value.Failure? ==>
        && |w1.published| > |w.published|
        && w1.published[|w1.published| - 1]
           == Notification(Channel(inp.requester.value), inp.decisionId, "error", outcome.value.errorMessage)
  {
    var userId := inp.requester.value;
    var (wb, end) := Body(inp, userId, w);
    BodyAnnounced(inp, userId, w);
    if end.Threw? {
      var n := Notification(Channel(userId), inp.decisionId, "error", end.message);
      var p := Notify(wb, n);
      if p.error.None? {
        assert RunOf(inp, w) == (p.world, Returned(Failure(inp.decisionId, end.message)));
        assert p.world.published == wb.published + [n];
        assert p.world.published[|p.world.published| - 1] == n;
      }
    } else {
      assert RunOf(inp, w).1 == Returned(end.value);
      PlanEndsNoFailure(inp, userId, RecordOf(w, inp.decisionId, inp.now), Opened(w, inp.decisionId, inp.now));
    }
  }

  /**
   * Every notification of a run goes to the requesting user's channel and
   * names the decision; earlier notifications are untouched. Without a user
   * the task raises before doing anything.
   */
  lemma NotificationsScoped(inp: Inputs, w: World)
    ensures var (w1, outcome) := RunOf(inp, w);
      && (inp.requester.None? ==> w1 == w && outcome.Escaped?)
      && (inp.requester.Some? ==> Announced(w, w1, Channel(inp.requester.value), inp.decisionId))
  {
    if inp.requester.Some? {
      var userId := inp.requester.value;
      var ch := Channel(userId);
      BodyAnnounced(inp, userId, w);
      var (wb, end) := Body(inp, userId, w);
      if end.Threw? {
        var n := Notification(ch, inp.decisionId, "error", end.message);
        NotifyAnnounced(wb, n);
        AnnouncedTrans(w, wb, Notify(wb, n).world, ch, inp.decisionId);
      }
    }
  }

  // ===========================================================================
  // The task itself, step by step

  /** The registry table; the id column is unique, so it is a map keyed by id. */
  class Registry {
    var records: map<string, CourtDecision>

    /** Every row sits under its own id. */
    predicate Valid()
      reads this
    {
      KeyedById(records)
    }

    constructor(records0: map<string, CourtDecision>)
      requires KeyedById(records0)
      ensures Valid() && records == records0
    {
      records := records0;
    }

    /**
     * `CourtDecision.objects.get_or_create(decision_id=...)`: the stored row,
     * or a new row with the default status; when the query raises
     * (`fault`), nothing is stored.
     */
    method GetOrCreate(decisionId: string, now: int, fault: Option<string>) returns (record: Result<CourtDecision>)
      requires Valid()
      modifies this
      ensures Valid()
      ensures fault.Some? ==> record == Err(fault.value) && records == old(records)
      ensures fault.None? ==>
        && record == Ok(if decisionId in old(records) then old(records)[decisionId] else NewDecision(decisionId, now))
        && record.value.decisionId == decisionId
        && records == old(records)[decisionId := record.value]
    {
      if fault.Some? {
        return Err(fault.value);
      }
      var row := if decisionId in records then records[decisionId] else NewDecision(decisionId, now);
      records := records[decisionId := row];
      record := Ok(row);
    }

    /**
     * `decision.save(update_fields=[...])` after the three fields were set:
     * the row is written back under its id, unless the query raises
     * (`fault`) and the table stays as it was.
     */
    method Save(record: CourtDecision, fault: Option<string>) returns (error: Option<string>)
      requires Valid()
      modifies this
      ensures Valid() && error == fault
      ensures fault.Some? ==> records == old(records)
      ensures fault.None? ==> records == old(records)[record.decisionId := record]
    {
      if fault.Some? {
        return fault;
      }
      records := records[record.decisionId := record];
      error := None;
    }
  }

  /** The Redis connection: what was published, and whether each next publish raises. */
  class Redis {
    var published: seq<Notification>
    var faults: seq<Option<string>>

    constructor(faults0: seq<Option<string>>)
      ensures published == [] && faults == faults0
    {
      published := [];
      faults := faults0;
    }

    method Publish(n: Notification) returns (error: Option<string>)
      modifies this
      ensures faults == (if old(faults) == [] then [] else old(faults)[1..])
      ensures error.None? ==> published == old(published) + [n]
      ensures error.Some? ==> published == old(published) && old(faults) != [] && old(faults)[0] == error
      ensures var p := Notify(World(map[], old(published), old(faults), map[]), n);
        error == p.error && published == p.world.published && faults == p.world.publishFaults
    {
      error := if faults != [] then faults[0] else None;
      faults := if faults == [] then [] else faults[1..];
      if error.None? {
        published := published + [n];
      }
    }
  }

  /** The world as the objects hold it. */
  function WorldOf(registry: Registry, redis: Redis, store: Collection): World
    reads registry, redis, store
  {
    World(registry.records, redis.published, redis.faults, store.entries)
  }

  /**
   * `decision_processing_task(url, decision_id)`. A fresh ChromaDBHandler
   * over `store` does the write; `directoryHasFiles` and `defaultDirectory`
   * only decide how it opens the base.
   */
  method DecisionProcessingTask(url: string, decisionId: string, env: Environment,
                                registry: Registry, redis: Redis, store: Collection,
                                directoryHasFiles: bool, defaultDirectory: string)
    returns (outcome: TaskOutcome)
    requires registry.Valid()
    modifies registry, redis, store
    ensures registry.Valid()
    ensures (WorldOf(registry, redis, store), outcome)
      == Run(url, decisionId, env, old(WorldOf(registry, redis, store)))
  {
    ghost var inp := InputsOf(url, decisionId, env);
    assert inp.requester == env.requester && inp.decisionId == decisionId;
    if env.requester.None? {
      return Escaped(MissingRequesterError);
    }
    var userId := env.requester.value;
    var end: BodyEnd;
    ghost var w := WorldOf(registry, redis, store);
    end := TryBlock(url, decisionId, userId, env, registry, redis, store, directoryHasFiles, defaultDirectory);
    assert (WorldOf(registry, redis, store), end) == Body(inp, userId, w);
    assert Run(url, decisionId, env, w) == RunOf(inp, w);
    match end
    case BodyReturned(r) =>
      outcome := Returned(r);
    case Threw(message) =>
      var error := redis.Publish(Notification(Channel(userId), decisionId, "error", message));
      if error.Some? {
        outcome := Escaped(error.value);
      } else {
        outcome := Returned(Failure(decisionId, message));
      }
  }

  /** One announcement of a plan: it either raises, ending the block, or the rest of the plan follows. */
  lemma ExecAnnounce(actions: seq<Action>, end: BodyEnd, w: World)
    requires actions != [] && actions[0].Announce?
    ensures var p := Notify(w, actions[0].notice);
      Exec(actions, end, w) == (if p.error.Some? then (p.world, Threw(p.error.value)) else Exec(actions[1..], end, p.world))
  {
  }

  /**
   * `notify(status, detail)` as the next step of a plan: a raising publish
   * is where the block ends; otherwise the rest of the plan follows.
   */
  method NotifyUser(n: Notification, registry: Registry, redis: Redis, store: Collection,
                    ghost rest: seq<Action>, ghost planEnd: BodyEnd)
    returns (error: Option<string>)
    requires rest != [] && rest[0] == Announce(n)
    modifies redis
    ensures error.Some? ==> (WorldOf(registry, redis, store), Threw(error.value)) == old(Exec(rest, planEnd, WorldOf(registry, redis, store)))
    ensures error.None? ==> Exec(rest[1..], planEnd, WorldOf(registry, redis, store)) == old(Exec(rest, planEnd, WorldOf(registry, redis, store)))
  {
    ghost var w := WorldOf(registry, redis, store);
    ExecAnnounce(rest, planEnd, w);
    error := redis.Publish(n);
    assert WorldOf(registry, redis, store) == Notify(w, n).world;
  }

  /** The `try` block of the task: `get_or_create`, then the plan of the row it opens. */
  method TryBlock(url: string, decisionId: string, userId: nat, env: Environment,
                  registry: Registry, redis: Redis, store: Collection,
                  directoryHasFiles: bool, defaultDirectory: string)
    returns (end: BodyEnd)
    requires registry.Valid()
    modifies registry, redis, store
    ensures registry.Valid()
    ensures (WorldOf(registry, redis, store), end)
      == Body(InputsOf(url, decisionId, env), userId, old(WorldOf(registry, redis, store)))
  {
    ghost var inp := InputsOf(url, decisionId, env);
    ghost var w := WorldOf(registry, redis, store);
    var row := registry.GetOrCreate(decisionId, env.now, env.openFault);
    if row.Err? {
      return Threw(row.error);
    }
    var decision := row.value;
    assert decision == RecordOf(w, decisionId, env.now);
    assert WorldOf(registry, redis, store) == Opened(w, decisionId, env.now);
    end := ProcessRow(url, decisionId, userId, env, decision, registry, redis, store, directoryHasFiles, defaultDirectory);
  }

  /** The `try` block after `get_or_create`, carrying out the plan of the row `decision`. */
  method ProcessRow(url: string, decisionId: string, userId: nat, env: Environment, decision: CourtDecision,
                    registry: Registry, redis: Redis, store: Collection,
                    directoryHasFiles: bool, defaultDirectory: string)
    returns (end: BodyEnd)
    requires registry.Valid() && decision.decisionId == decisionId
    modifies registry, redis, store
    ensures registry.Valid()
    ensures var plan := PlanOf(InputsOf(url, decisionId, env), userId, decision);
      (WorldOf(registry, redis, store), end) == old(Exec(plan.actions, plan.end, WorldOf(registry, redis, store)))
  {
    ghost var inp := InputsOf(url, decisionId, env);
    var ch := Channel(userId);
    ghost var plan := PlanOf(inp, userId, decision);

    if decision.status == Done {
      var error := NotifyUser(Notification(ch, decisionId, "already_done", ""), registry, redis, store, plan.actions, plan.end);
      assert plan.actions[1..] == [];
      return if error.Some? then Threw(error.value) else BodyReturned(AlreadyDone(decisionId));
    }
    PlanStarts(inp, userId, decision);
    var error := NotifyUser(Notification(ch, decisionId, "started", "Processing started"), registry, redis, store, plan.actions, plan.end);
    if error.Some? { return Threw(error.value); }
    end := ProcessPage(url, decisionId, userId, env, decision, registry, redis, store, directoryHasFiles, defaultDirectory);
  }

  /** The `try` block after "started": the fetch, then the rest of the plan of a row not yet done. */
  method ProcessPage(url: string, decisionId: string, userId: nat, env: Environment, decision: CourtDecision,
                     registry: Registry, redis: Redis, store: Collection,
                     directoryHasFiles: bool, defaultDirectory: string)
    returns (end: BodyEnd)
    requires registry.Valid() && decision.decisionId == decisionId && decision.status != Done
    modifies registry, redis, store
    ensures registry.Valid()
    ensures var plan := PlanOf(InputsOf(url, decisionId, env), userId, decision);
      (WorldOf(registry, redis, store), end) == old(Exec(plan.actions[1..], plan.end, WorldOf(registry, redis, store)))
  {
    ghost var inp := InputsOf(url, decisionId, env);
    var ch := Channel(userId);
    ghost var plan := PlanOf(inp, userId, decision);
    var page := env.fetch(url);
    if page.Err? {
      assert inp.fetched == Err(page.error);
      assert plan.actions[1..] == [] && plan.end == Threw(page.error);
      return Threw(page.error);
    }
    var cleanedText := CleanText(page.value);
    ghost var a := AnalyseText(decisionId, env.split, cleanedText);
    assert inp.fetched == Ok(a);
    assert plan == FetchedPlan(ch, decisionId, decision, a, env.saveFault, env.markFault);
    end := ProcessText(cleanedText, ch, decisionId, decision, env.split, env.saveFault, env.markFault,
                       registry, redis, store, directoryHasFiles, defaultDirectory);
  }

  /**
   * The rest of the `try` block once the page text is extracted: the
   * announcements, the metadata, the chunks, their write, the row update.
   */
  method ProcessText(text: string, ch: string, decisionId: string, decision: CourtDecision,
                     split: string -> seq<string>, saveFault: Option<string>, markFault: Option<string>,
                     registry: Registry, redis: Redis, store: Collection,
                     directoryHasFiles: bool, defaultDirectory: string)
    returns (end: BodyEnd)
    requires registry.Valid() && decision.decisionId == decisionId
    modifies registry, redis, store
    ensures registry.Valid()
    ensures var plan := FetchedPlan(ch, decisionId, decision, AnalyseText(decisionId, split, text), saveFault, markFault);
      (WorldOf(registry, redis, store), end) == Exec(plan.actions[1..], plan.end, old(WorldOf(registry, redis, store)))
  {
    ghost var plan := FetchedPlan(ch, decisionId, decision, AnalyseText(decisionId, split, text), saveFault, markFault);
    // What is left of the plan, run from the current world, reaches the goal.
    ghost var goal := Exec(plan.actions[1..], plan.end, WorldOf(registry, redis, store));
    ghost var rest := plan.actions[1..];

    var error := NotifyUser(Notification(ch, decisionId, "text_extracted", "Text extracted"), registry, redis, store, rest, plan.end);
    if error.Some? { return Threw(error.value); }
    rest := rest[1..];

    var metadata := ExtractMetadata(text);
    error := NotifyUser(Notification(ch, decisionId, "metadata_extracted", "Metadata extracted"), registry, redis, store, rest, plan.end);
    if error.Some? { return Threw(error.value); }
    rest := rest[1..];

    var handler := new ChromaDBHandler(None, None, defaultDirectory, store);
    var documents := SplitTextIntoChunks(text, decisionId, metadata, split);
    assert AnalyseText(decisionId, split, text) == Analysis(metadata, documents);
    assert rest[0] == Announce(Notification(ch, decisionId, "chunks_created", NatToString(|documents|) + " chunks created"));
    error := NotifyUser(Notification(ch, decisionId, "chunks_created", NatToString(|documents|) + " chunks created"),
                        registry, redis, store, rest, plan.end);
    if error.Some? { return Threw(error.value); }
    rest := rest[1..];
    assert goal == Exec(rest, plan.end, WorldOf(registry, redis, store));

    end := StoreChunks(documents, ch, decisionId, Completed(decision, metadata), saveFault, markFault, handler,
                       registry, redis, store, directoryHasFiles, rest, plan.end);
  }

  /**
   * The write of the chunks under their ids, "documents_saved", the row
   * update, "done", and the handler's release.
   */
  method StoreChunks(documents: seq<Document>, ch: string, decisionId: string, done: CourtDecision,
                     saveFault: Option<string>, markFault: Option<string>, handler: ChromaDBHandler,
                     registry: Registry, redis: Redis, store: Collection, directoryHasFiles: bool,
                     ghost rest: seq<Action>, ghost planEnd: BodyEnd)
    returns (end: BodyEnd)
    requires registry.Valid() && done.decisionId == decisionId
    requires handler.Valid() && handler.store == store
    requires rest == (if saveFault.Some? then []
                      else if markFault.Some? then Unsaved(ch, decisionId, documents)
                      else Finishing(ch, decisionId, documents, done))
    requires planEnd == (if saveFault.Some? then Threw(saveFault.value)
                         else if markFault.Some? then Threw(markFault.value)
                         else BodyReturned(Success(decisionId)))
    modifies registry, redis, store, handler
    ensures registry.Valid()
    ensures (WorldOf(registry, redis, store), end) == old(Exec(rest, planEnd, WorldOf(registry, redis, store)))
  {
    var ids := ChunkIds(decisionId, |documents|);
    var saved := handler.SaveDocuments(documents, ids, decisionId, directoryHasFiles, saveFault);
    if saved.Err? {
      return Threw(saved.error);
    }
    ghost var tail := rest[1..];

    var error := NotifyUser(Notification(ch, decisionId, "documents_saved", "Documents saved to Chroma"),
                            registry, redis, store, tail, planEnd);
    if error.Some? { return Threw(error.value); }
    tail := tail[1..];

    ghost var before := WorldOf(registry, redis, store);
    var saveError := registry.Save(done, markFault);
    if saveError.Some? {
      assert tail == [];
      return Threw(saveError.value);
    }
    assert WorldOf(registry, redis, store) == before.(records := before.records[decisionId := done]);
    tail := tail[1..];

    error := NotifyUser(Notification(ch, decisionId, "done", "Decision processing completed"),
                        registry, redis, store, tail, planEnd);
    if error.Some? { return Threw(error.value); }
    assert tail[1..] == [];

    handler.Close();
    return BodyReturned(Success(decisionId));
  }
}
