/**
 * The HTTP views of the decision API (backend/api/views.py): the upload
 * view, which validates the pasted text and queues one job per decision id,
 * and the search view, which validates the query, asks the vector store for
 * the twenty nearest chunks, drops the entries without a truthy score and
 * orders the rest by score, highest first.
 */
module ApiViews {
  import opened Wrappers
  import opened Text
  import opened Documents
  import opened TaskQueue
  import opened DecisionProcessing
  import opened ChromaStorage

  const BadRequest: nat := 400
  const Ok200: nat := 200
  const ServerError: nat := 500

  const MissingUrlsError: string := "You need to pass a URLs."
  const NoIdsError: string := "No decision IDs found in input_text."
  const MissingKeywordsError: string := "You need to pass a few key words."

  /** How many neighbours the search asks the store for. */
  const SearchK: int := 20

  // ===========================================================================
  // Upload

  datatype UploadBody = UploadError(error: string) | UploadAccepted(message: string)
  datatype UploadResponse = UploadResponse(status: nat, body: UploadBody)

  /**
   * `DecisionUploadView.post`. `inputText` is the `input_text` field of the
   * request, None when it is absent. An empty text is refused before any
   * parsing, a text without ids is refused without queueing anything, and
   * otherwise every id of the text is queued, in order, and the processor's
   * message is returned.
   */
  method UploadPost(inputText: Option<string>, queue: Queue<Job>) returns (r: UploadResponse)
    modifies queue
    ensures inputText.None? || inputText.value == "" ==>
      r == UploadResponse(BadRequest, UploadError(MissingUrlsError)) && queue.pending == old(queue.pending)
    ensures inputText.Some? && inputText.value != "" && IdsIn(inputText.value) == [] ==>
      r == UploadResponse(BadRequest, UploadError(NoIdsError)) && queue.pending == old(queue.pending)
    ensures inputText.Some? && inputText.value != "" && IdsIn(inputText.value) != [] ==>
      r == UploadResponse(Ok200, UploadAccepted(ProcessAllMessage))
      && queue.pending == old(queue.pending) + JobsFor(IdsIn(inputText.value))
  {
    if inputText.None? || inputText.value == "" {
      return UploadResponse(BadRequest, UploadError(MissingUrlsError));
    }
    var processor := new DecisionProcessor(inputText.value);
    var ids := processor.ExtractIds();
    if processor.decisionIds == [] {
      return UploadResponse(BadRequest, UploadError(NoIdsError));
    }
    var message := processor.ProcessAll(queue);
    r := UploadResponse(Ok200, UploadAccepted(message));
  }

  /**
   * An accepted upload queues exactly one job per id found in the text, in
   * text order, each carrying the id and its register URL; a refused one
   * queues none.
   */
  lemma UploadJobs(text: string)
    ensures |JobsFor(IdsIn(text))| == |IdsIn(text)|
    ensures forall i :: 0 <= i < |IdsIn(text)| ==>
      JobsFor(IdsIn(text))[i].decisionId == IdsIn(text)[i]
      && IdOfReviewUrl(JobsFor(IdsIn(text))[i].url) == Some(IdsIn(text)[i])
  {
    var ids := IdsIn(text);
    forall i | 0 <= i < |ids|
      ensures JobsFor(ids)[i].decisionId == ids[i] && IdOfReviewUrl(JobsFor(ids)[i].url) == Some(ids[i])
    {
      ReviewUrlRoundTrip(ids[i]);
    }
  }

  // ===========================================================================
  // Search

  /** One entry of the search answer: `{"text", "metadata", "similarity_score"}`. */
  datatype Hit = Hit(text: string, metadata: map<string, string>, similarityScore: real)

  datatype SearchBody = SearchError(error: string) | SearchResult(result: seq<Hit>)
  datatype SearchResponse = SearchResponse(status: nat, body: SearchBody)

  /** Python truthiness of a score: a missing score and 0.0 are false. */
  predicate Truthy(score: Option<real>) {
    score.Some? && score.value != 0.0
  }

  /** The formatted entries of the store's answer whose score is truthy, in the store's order. */
  function TruthyHits(results: seq<Scored>): (hits: seq<Hit>)
    ensures |hits| <= |results|
    ensures forall i :: 0 <= i < |hits| ==> hits[i].similarityScore != 0.0
  {
    if results == [] then []
    else
      var head := results[0];
      (if Truthy(head.score) then [Hit(head.doc.pageContent, head.doc.metadata, head.score.value)] else [])
      + TruthyHits(results[1..])
  }

  /** Every hit of `TruthyHits` is the formatted form of a result with that truthy score. */
  lemma {:induction false} TruthyHitsFromResults(results: seq<Scored>, h: Hit)
    requires h in TruthyHits(results)
    ensures exists j :: (0 <= j < |results| && Truthy(results[j].score)
                         && h == Hit(results[j].doc.pageContent, results[j].doc.metadata, results[j].score.value))
  {
    var head := results[0];
    var rest := TruthyHits(results[1..]);
    if Truthy(head.score) && h == Hit(head.doc.pageContent, head.doc.metadata, head.score.value) {
      assert Truthy(results[0].score);
    } else {
      assert h in rest;
      TruthyHitsFromResults(results[1..], h);
      var j :| 0 <= j < |results[1..]| && Truthy(results[1..][j].score)
        && h == Hit(results[1..][j].doc.pageContent, results[1..][j].doc.metadata, results[1..][j].score.value);
      assert results[1..][j] == results[j + 1];
    }
  }

  /** Every result with a truthy score is formatted into a hit. */
  lemma {:induction false} TruthyResultsKept(results: seq<Scored>, j: nat)
    requires j < |results| && Truthy(results[j].score)
    ensures Hit(results[j].doc.pageContent, results[j].doc.metadata, results[j].score.value) in TruthyHits(results)
  {
    if j > 0 {
      assert results[1..][j - 1] == results[j];
      TruthyResultsKept(results[1..], j - 1);
    }
  }

  /** Scores never increase along `hits`. */
  predicate Descending(hits: seq<Hit>) {
    forall i, j :: 0 <= i < j < |hits| ==> hits[i].similarityScore >= hits[j].similarityScore
  }

  /**
   * Places `h` before the first entry whose score is not higher, so that
   * among equal scores the entry that came first stays first.
   */
  function InsertByScore(h: Hit, hits: seq<Hit>): (r: seq<Hit>)
    ensures multiset(r) == multiset(hits) + multiset{h}
    ensures |r| == |hits| + 1
  {
    if hits == [] || hits[0].similarityScore <= h.similarityScore then [h] + hits
    else
      assert hits == [hits[0]] + hits[1..];
      [hits[0]] + InsertByScore(h, hits[1..])
  }

  /**
   * `sorted(hits, key=similarity_score, reverse=True)`: Python's sort is
   * stable, also in reverse, so equal scores keep their order.
   */
  function SortByScore(hits: seq<Hit>): (r: seq<Hit>)
    ensures multiset(r) == multiset(hits)
    ensures |r| == |hits|
  {
    if hits == [] then []
    else
      assert hits == [hits[0]] + hits[1..];
      InsertByScore(hits[0], SortByScore(hits[1..]))
  }

  lemma {:induction false} InsertKeepsDescending(h: Hit, hits: seq<Hit>)
    requires Descending(hits)
    ensures Descending(InsertByScore(h, hits))
  {
    if hits != [] && hits[0].similarityScore > h.similarityScore {
      var tail := InsertByScore(h, hits[1..]);
      InsertKeepsDescending(h, hits[1..]);
      var r := [hits[0]] + tail;
      forall i, j | 0 <= i < j < |r| ensures r[i].similarityScore >= r[j].similarityScore {
        if i == 0 {
          // Every entry of the tail is `h` or an entry of `hits[1..]`, none scoring above `hits[0]`.
          assert r[j] in multiset(tail);
          assert r[j] == h || r[j] in multiset(hits[1..]);
          if r[j] != h {
            var k :| 0 <= k < |hits[1..]| && hits[1..][k] == r[j];
            assert hits[1..][k] == hits[k + 1];
          }
        } else {
          assert r[i] == tail[i - 1] && r[j] == tail[j - 1];
        }
      }
    }
  }

  /** The sorted hits are in descending order of score. */
  lemma {:induction false} SortDescending(hits: seq<Hit>)
    ensures Descending(SortByScore(hits))
  {
    if hits != [] {
      SortDescending(hits[1..]);
      InsertKeepsDescending(hits[0], SortByScore(hits[1..]));
    }
  }

  /** The entries of `hits` with score `v`, in order. */
  function ScoredAs(hits: seq<Hit>, v: real): (r: seq<Hit>)
    ensures |r| <= |hits|
    ensures forall i :: 0 <= i < |r| ==> r[i].similarityScore == v
  {
    if hits == [] then []
    else (if hits[0].similarityScore == v then [hits[0]] else []) + ScoredAs(hits[1..], v)
  }

  lemma {:induction false} InsertScoredAs(h: Hit, hits: seq<Hit>, v: real)
    requires Descending(hits)
    ensures ScoredAs(InsertByScore(h, hits), v)
         == (if h.similarityScore == v then [h] else []) + ScoredAs(hits, v)
  {
    if hits == [] || hits[0].similarityScore <= h.similarityScore {
      assert ([h] + hits)[1..] == hits;
    } else {
      var r := InsertByScore(h, hits);
      assert r[1..] == InsertByScore(h, hits[1..]);
      assert Descending(hits[1..]) by {
        forall i, j | 0 <= i < j < |hits[1..]|
          ensures hits[1..][i].similarityScore >= hits[1..][j].similarityScore
        {
          assert hits[1..][i] == hits[i + 1] && hits[1..][j] == hits[j + 1];
        }
      }
      InsertScoredAs(h, hits[1..], v);
      if h.similarityScore == v {
        // `hits[0]` scores above `h`, so it is not among the entries scoring `v`.
        assert hits[0].similarityScore != v;
      }
    }
  }

  /** Stability: the entries with any given score appear in the same order before and after sorting. */
  lemma {:induction false} SortStable(hits: seq<Hit>, v: real)
    ensures ScoredAs(SortByScore(hits), v) == ScoredAs(hits, v)
  {
    if hits != [] {
      SortStable(hits[1..], v);
      SortDescending(hits[1..]);
      InsertScoredAs(hits[0], SortByScore(hits[1..]), v);
    }
  }

  /** The list the search view returns for the store's answer. */
  function SearchHits(results: seq<Scored>): (hits: seq<Hit>)
    ensures |hits| <= |results|
  {
    SortByScore(TruthyHits(results))
  }

  /**
   * The search answer is exactly the formatted entries of the store's answer
   * that have a truthy score, each once, highest score first, equal scores
   * in the store's order.
   */
  lemma SearchHitsSpec(results: seq<Scored>)
    ensures Descending(SearchHits(results))
    ensures multiset(SearchHits(results)) == multiset(TruthyHits(results))
    ensures forall v :: ScoredAs(SearchHits(results), v) == ScoredAs(TruthyHits(results), v)
    ensures forall i :: 0 <= i < |SearchHits(results)| ==> SearchHits(results)[i].similarityScore != 0.0
  {
    SortDescending(TruthyHits(results));
    forall v ensures ScoredAs(SearchHits(results), v) == ScoredAs(TruthyHits(results), v) {
      SortStable(TruthyHits(results), v);
    }
    var hits := SearchHits(results);
    forall i | 0 <= i < |hits| ensures hits[i].similarityScore != 0.0 {
      assert hits[i] in multiset(TruthyHits(results));
    }
  }

  /** A query that `str.strip()` leaves empty: every character is whitespace. */
  predicate Blank(s: string) {
    All(s, IsSpace)
  }

  /**
   * `SearchView.post`. `search` is the `search` field of the request. A
   * missing or blank query is refused before the store is touched; otherwise
   * a fresh handler loads the model and the base and runs the library search
   * with scores for the twenty nearest chunks; a failure becomes a 500 with
   * its message, and an answer becomes the sorted truthy hits.
   */
  method SearchPost(search: Option<string>, defaultDirectory: string, store: Collection,
                    directoryHasFiles: bool, librarySearch: (string, bool, int) -> Result<seq<Scored>>)
    returns (r: SearchResponse)
    ensures search.None? || Blank(search.value) ==>
      r == SearchResponse(BadRequest, SearchError(MissingKeywordsError))
    ensures search.Some? && !Blank(search.value) ==>
      match librarySearch(search.value, true, SearchK)
      case Err(e) => r == SearchResponse(ServerError, SearchError(e))
      case Ok(results) => r == SearchResponse(Ok200, SearchResult(SearchHits(results)))
  {
    if search.None? || Blank(search.value) {
      return SearchResponse(BadRequest, SearchError(MissingKeywordsError));
    }
    var handler := new ChromaDBHandler(None, None, defaultDirectory, store);
    handler.InitEmbeddingModel();
    var results := handler.SimilaritySearch(search.value, true, SearchK, directoryHasFiles, librarySearch);
    if results.Err? {
      return SearchResponse(ServerError, SearchError(results.error));
    }
    var formatted := TruthyHits(results.value);
    r := SearchResponse(Ok200, SearchResult(SortByScore(formatted)));
  }
}
