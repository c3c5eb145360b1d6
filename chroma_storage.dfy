/**
 * The vector-store adapter (backend/chroma_client/chroma_storage.py): lazy
 * set-up of the embedding model and of the Chroma handle, writes into the
 * collection, and the conversion of raw collection query results into scored
 * documents. The embedding model, the similarity computation and the
 * collection's own query are parameters; only what the adapter itself does
 * is modelled.
 */
module ChromaStorage {
  import opened Wrappers
  import opened Documents

  const ModelName: string := "sentence-transformers/paraphrase-multilingual-MiniLM-L12-v2"
  const DefaultCollectionName: string := "chroma_docs"
  const CosineSpace: string := "cosine"

  /** The settings `init_embedding_model` gives HuggingFaceEmbeddings. */
  datatype EmbeddingModel = EmbeddingModel(modelName: string, device: string, normalizeEmbeddings: bool)

  const ConfiguredModel: EmbeddingModel := EmbeddingModel(ModelName, "cpu", true)

  /** The Chroma handle: opened on an existing persisted base, or created empty with cosine distance. */
  datatype DbHandle =
    | Loaded(directory: string, collection: string)
    | Created(directory: string, collection: string, space: string)

  /** One entry of a search result: a document and its score, which may be missing. */
  datatype Scored = Scored(doc: Document, score: Option<real>)

  /** The three result columns `collection.query` returns for the single query embedding. */
  datatype QueryColumns = QueryColumns(
    documents: seq<Option<string>>,
    metadatas: seq<map<string, string>>,
    distances: seq<Option<real>>)

  /** A query is either text, embedded first, or an embedding used as it is. */
  datatype Query = TextQuery(text: string) | VectorQuery(embedding: seq<real>)

  /** The message of the exception LangChain's `Document` raises when its page content is None. */
  const MissingContentError: string := "page_content: Input should be a valid string"

  /** The persisted collection: chunk ids to stored documents. */
  class Collection {
    var entries: map<string, Document>

    constructor(entries0: map<string, Document>)
      ensures entries == entries0
    {
      entries := entries0;
    }
  }

  // ===========================================================================
  // Pure meaning of the adapter's operations

  /** `add_documents(documents, ids)`, which upserts: pairs in order, a later write to an id wins. */
  function Upsert(entries: map<string, Document>, ids: seq<string>, docs: seq<Document>): map<string, Document>
    decreases |ids|
  {
    if ids == [] || docs == [] then entries else Upsert(entries[ids[0] := docs[0]], ids[1..], docs[1..])
  }

  function Min3(a: nat, b: nat, c: nat): (m: nat)
    ensures m <= a && m <= b && m <= c && (m == a || m == b || m == c)
  {
    if a <= b && a <= c then a else if b <= c then b else c
  }

  /** `1 - dist if dist is not None else None`. */
  function SimilarityOf(dist: Option<real>): (s: Option<real>)
    ensures s.Some? <==> dist.Some?
    ensures s.Some? ==> s.value + dist.value == 1.0
  {
    match dist
    case Some(d) => Some(1.0 - d)
    case None => None
  }

  /**
   * The loop of `similarity_search_by_vector` over the first `n` zipped
   * entries: each becomes a document scored `1 - distance`, and a missing
   * document makes `Document(...)` raise.
   */
  function ByVectorResults(cols: QueryColumns, n: nat): (r: Result<seq<Scored>>)
    requires n <= Min3(|cols.documents|, |cols.metadatas|, |cols.distances|)
    ensures r.Ok? ==> |r.value| == n
    ensures r.Ok? <==> forall i :: 0 <= i < n ==> cols.documents[i].Some?
  {
    if n == 0 then Ok([])
    else match ByVectorResults(cols, n - 1)
      case Err(e) => Err(e)
      case Ok(prefix) =>
        match cols.documents[n - 1]
        case None => Err(MissingContentError)
        case Some(text) =>
          Ok(prefix + [Scored(Document(text, cols.metadatas[n - 1]), SimilarityOf(cols.distances[n - 1]))])
  }

  /**
   * The loop of `similarity_search_by_vector_with_relevance_scores` over the
   * first `n` zipped entries: entries without a document are skipped, and the
   * raw distance is kept as the score.
   */
  function RelevanceResults(cols: QueryColumns, n: nat): (r: seq<Scored>)
    requires n <= Min3(|cols.documents|, |cols.metadatas|, |cols.distances|)
    ensures |r| <= n
  {
    if n == 0 then []
    else
      var prefix := RelevanceResults(cols, n - 1);
      match cols.documents[n - 1]
      case None => prefix
      case Some(text) => prefix + [Scored(Document(text, cols.metadatas[n - 1]), cols.distances[n - 1])]
  }

  function ZipLength(cols: QueryColumns): nat {
    Min3(|cols.documents|, |cols.metadatas|, |cols.distances|)
  }

  // ----- properties of the conversions

  /**
   * With every document present, `similarity_search_by_vector` returns one
   * entry per zipped position, in store order, scored `1 - distance` (None
   * for a missing distance); otherwise it fails.
   */
  lemma {:induction false} ByVectorSpec(cols: QueryColumns, n: nat)
    requires n <= ZipLength(cols)
    ensures var r := ByVectorResults(cols, n);
      r.Ok? ==> forall i :: 0 <= i < n ==>
        && cols.documents[i].Some?
        && r.value[i] == Scored(Document(cols.documents[i].value, cols.metadatas[i]), SimilarityOf(cols.distances[i]))
  {
    if n > 0 {
      ByVectorSpec(cols, n - 1);
    }
  }

  /** The entries kept in relevance mode: the positions whose document is present, in order. */
  function PresentPositions(cols: QueryColumns, n: nat): (ps: seq<nat>)
    requires n <= ZipLength(cols)
    ensures forall j :: 0 <= j < |ps| ==> ps[j] < n && cols.documents[ps[j]].Some?
    ensures forall j, k :: 0 <= j < k < |ps| ==> ps[j] < ps[k]
    ensures forall i :: 0 <= i < n && cols.documents[i].Some? ==> i in ps
  {
    if n == 0 then []
    else if cols.documents[n - 1].Some? then PresentPositions(cols, n - 1) + [n - 1]
    else PresentPositions(cols, n - 1)
  }

  /**
   * Relevance mode keeps exactly the entries whose document is present, in
   * store order, each with its raw distance unchanged.
   */
  lemma {:induction false} RelevanceSpec(cols: QueryColumns, n: nat)
    requires n <= ZipLength(cols)
    ensures var r := RelevanceResults(cols, n);
      var ps := PresentPositions(cols, n);
      && |r| == |ps|
      && forall j :: 0 <= j < |r| ==>
        r[j] == Scored(Document(cols.documents[ps[j]].value, cols.metadatas[ps[j]]), cols.distances[ps[j]])
  {
    if n > 0 {
      RelevanceSpec(cols, n - 1);
    }
  }

  /** Once an entry fails, the whole conversion fails with that entry's error. */
  lemma {:induction false} ByVectorFailureSticks(cols: QueryColumns, m: nat, n: nat)
    requires m <= n <= ZipLength(cols) && ByVectorResults(cols, m).Err?
    ensures ByVectorResults(cols, n) == ByVectorResults(cols, m)
    decreases n - m
  {
    if m < n {
      ByVectorFailureSticks(cols, m, n - 1);
    }
  }

  /** With every document present, relevance mode keeps every entry in place. */
  lemma {:induction false} RelevanceAllPresent(cols: QueryColumns, n: nat)
    requires n <= ZipLength(cols) && forall i :: 0 <= i < n ==> cols.documents[i].Some?
    ensures var r := RelevanceResults(cols, n);
      && |r| == n
      && forall i :: 0 <= i < n ==> r[i] == Scored(Document(cols.documents[i].value, cols.metadatas[i]), cols.distances[i])
  {
    if n > 0 {
      RelevanceAllPresent(cols, n - 1);
    }
  }

  /**
   * The two search modes score the same stored entry with opposite
   * conventions: a similarity (higher is closer) and a raw distance (lower is
   * closer), which add up to one.
   */
  lemma ScoreConventionsOpposite(cols: QueryColumns, n: nat, i: nat)
    requires n <= ZipLength(cols) && ByVectorResults(cols, n).Ok? && i < n && cols.distances[i].Some?
    ensures var relevance := RelevanceResults(cols, n);
      var similarity := ByVectorResults(cols, n).value[i].score;
      && |relevance| == n
      && similarity.Some? && relevance[i].score == cols.distances[i]
      && similarity.value + relevance[i].score.value == 1.0
  {
    ByVectorSpec(cols, n);
    RelevanceAllPresent(cols, n);
  }

  /** Writing pairwise distinct ids stores each document under its id and leaves every other id alone. */
  lemma {:induction false} UpsertSpec(entries: map<string, Document>, ids: seq<string>, docs: seq<Document>)
    requires |ids| == |docs|
    requires forall i, j :: 0 <= i < j < |ids| ==> ids[i] != ids[j]
    ensures var r := Upsert(entries, ids, docs);
      && r.Keys == entries.Keys + (set i | 0 <= i < |ids| :: ids[i])
      && (forall i :: 0 <= i < |ids| ==> r[ids[i]] == docs[i])
      && (forall id :: id in entries && id !in ids ==> r[id] == entries[id])
    decreases |ids|
  {
    if ids != [] {
      UpsertSpec(entries[ids[0] := docs[0]], ids[1..], docs[1..]);
      var r := Upsert(entries, ids, docs);
      assert (set i | 0 <= i < |ids| :: ids[i]) == {ids[0]} + set i | 0 <= i < |ids[1..]| :: ids[1..][i];
      forall i | 0 <= i < |ids|
        ensures r[ids[i]] == docs[i]
      {
        if i > 0 {
          assert ids[i] == ids[1..][i - 1];
        }
      }
    }
  }

  // ===========================================================================
  // ChromaDBHandler

  class ChromaDBHandler {
    const persistDirectory: string
    const collectionName: string
    /** The persisted collection the handle reads and writes. */
    const store: Collection
    var embeddingModel: Option<EmbeddingModel>
    var db: Option<DbHandle>
    /** How many times an embedding model was built. */
    ghost var modelInits: nat

    /**
     * The model is built once at most, with the configured settings, and a
     * handle exists only on top of a model and for this directory and
     * collection.
     */
    ghost predicate Valid()
      reads this
    {
      && modelInits == (if embeddingModel.Some? then 1 else 0)
      && (embeddingModel.Some? ==> embeddingModel.value == ConfiguredModel)
      && (db.Some? ==> embeddingModel.Some?)
      && (db.Some? ==> db.value.directory == persistDirectory && db.value.collection == collectionName)
    }

    /**
     * `ChromaDBHandler(persist_directory, collection_name)`: a missing or
     * empty argument falls back to the configured default (Python's `or`).
     */
    constructor(directory: Option<string>, collection: Option<string>, defaultDirectory: string, store: Collection)
      ensures Valid()
      ensures persistDirectory == (if directory.None? || directory.value == "" then defaultDirectory else directory.value)
      ensures collectionName == (if collection.None? || collection.value == "" then DefaultCollectionName else collection.value)
      ensures this.store == store
      ensures embeddingModel.None? && db.None?
    {
      persistDirectory := if directory.None? || directory.value == "" then defaultDirectory else directory.value;
      collectionName := if collection.None? || collection.value == "" then DefaultCollectionName else collection.value;
      this.store := store;
      embeddingModel := None;
      db := None;
      modelInits := 0;
    }

    /** `init_embedding_model`: builds the model only when none is held. */
    method InitEmbeddingModel()
      requires Valid()
      modifies this
      ensures Valid()
      ensures embeddingModel == Some(ConfiguredModel)
      ensures old(embeddingModel).Some? ==> modelInits == old(modelInits)
      ensures db == old(db)
    {
      if embeddingModel.None? {
        embeddingModel := Some(ConfiguredModel);
        modelInits := modelInits + 1;
      }
    }

    /**
     * `load_or_create_db`: ensures the model, then opens the persisted base
     * when the directory exists and is not empty, and otherwise creates an
     * empty collection with cosine distance.
     */
    method LoadOrCreateDb(directoryHasFiles: bool)
      requires Valid()
      modifies this
      ensures Valid()
      ensures embeddingModel == Some(ConfiguredModel)
      ensures old(embeddingModel).Some? ==> modelInits == old(modelInits)
      ensures db == Some(if directoryHasFiles then Loaded(persistDirectory, collectionName)
                         else Created(persistDirectory, collectionName, CosineSpace))
    {
      InitEmbeddingModel();
      if directoryHasFiles {
        db := Some(Loaded(persistDirectory, collectionName));
      } else {
        db := Some(Created(persistDirectory, collectionName, CosineSpace));
      }
    }

    /** The `if not self.db: self.load_or_create_db()` preamble of every store operation. */
    method EnsureDb(directoryHasFiles: bool)
      requires Valid()
      modifies this
      ensures Valid() && db.Some? && embeddingModel == Some(ConfiguredModel)
      ensures old(db).Some? ==> db == old(db) && embeddingModel == old(embeddingModel) && modelInits == old(modelInits)
      ensures old(embeddingModel).Some? ==> modelInits == old(modelInits)
    {
      if db.None? {
        LoadOrCreateDb(directoryHasFiles);
      }
    }

    /**
     * `save_documents`: the collection upserts the pairs; a store failure
     * (`fault`) is re-raised with the collection unchanged.
     */
    method SaveDocuments(documents: seq<Document>, ids: seq<string>, decisionId: string,
                         directoryHasFiles: bool, fault: Option<string>) returns (r: Result<()>)
      requires Valid()
      modifies this, store
      ensures Valid() && db.Some?
      ensures old(db).Some? ==> db == old(db) && modelInits == old(modelInits)
      ensures fault.Some? ==> r == Err(fault.value) && store.entries == old(store.entries)
      ensures fault.None? ==> r == Ok(()) && store.entries == Upsert(old(store.entries), ids, documents)
    {
      EnsureDb(directoryHasFiles);
      if fault.Some? {
        r := Err(fault.value);
      } else {
        store.entries := Upsert(store.entries, ids, documents);
        r := Ok(());
      }
    }

    /**
     * `similarity_search`: the library search (with or without scores, top
     * `k`) is a parameter; its answer or its failure is passed on unchanged.
     */
    method SimilaritySearch(query: string, withScore: bool, k: int, directoryHasFiles: bool,
                            librarySearch: (string, bool, int) -> Result<seq<Scored>>) returns (r: Result<seq<Scored>>)
      requires Valid()
      modifies this
      ensures Valid() && db.Some?
      ensures old(db).Some? ==> db == old(db) && modelInits == old(modelInits)
      ensures r == librarySearch(query, withScore, k)
    {
      EnsureDb(directoryHasFiles);
      r := librarySearch(query, withScore, k);
    }

    /**
     * `similarity_search_by_vector`: a text query is embedded with the model,
     * a vector query is used as is; the collection's answer is converted entry
     * by entry, and a collection failure is re-raised.
     */
    method SimilaritySearchByVector(query: Query, k: int, directoryHasFiles: bool,
                                    embed: string -> seq<real>,
                                    collectionQuery: (seq<real>, int) -> Result<QueryColumns>)
      returns (r: Result<seq<Scored>>)
      requires Valid()
      modifies this
      ensures Valid() && db.Some?
      ensures old(db).Some? ==> db == old(db) && modelInits == old(modelInits)
      ensures var embedding := match query case TextQuery(t) => embed(t) case VectorQuery(v) => v;
        match collectionQuery(embedding, k)
        case Err(e) => r == Err(e)
        case Ok(cols) => r == ByVectorResults(cols, ZipLength(cols))
    {
      EnsureDb(directoryHasFiles);
      var embedding: seq<real>;
      if query.TextQuery? {
        // The source builds the model here if none is held; after EnsureDb one always is.
        assert embeddingModel.Some?;
        embedding := embed(query.text);
      } else {
        embedding := query.embedding;
      }
      var answer := collectionQuery(embedding, k);
      if answer.Err? {
        return Err(answer.error);
      }
      var cols := answer.value;
      var n := ZipLength(cols);
      var results: seq<Scored> := [];
      var i := 0;
      while i < n
        invariant 0 <= i <= n
        invariant ByVectorResults(cols, i) == Ok(results)
      {
        if cols.documents[i].None? {
          ByVectorFailureSticks(cols, i + 1, n);
          return Err(MissingContentError);
        }
        results := results + [Scored(Document(cols.documents[i].value, cols.metadatas[i]), SimilarityOf(cols.distances[i]))];
        i := i + 1;
      }
      r := Ok(results);
    }

    /**
     * `similarity_search_by_vector_with_relevance_scores`: entries without a
     * document are skipped and the raw distance is returned as the score.
     */
    method SimilaritySearchWithRelevanceScores(embedding: seq<real>, k: int, directoryHasFiles: bool,
                                               collectionQuery: (seq<real>, int) -> Result<QueryColumns>)
      returns (r: Result<seq<Scored>>)
      requires Valid()
      modifies this
      ensures Valid() && db.Some?
      ensures old(db).Some? ==> db == old(db) && modelInits == old(modelInits)
      ensures match collectionQuery(embedding, k)
        case Err(e) => r == Err(e)
        case Ok(cols) => r == Ok(RelevanceResults(cols, ZipLength(cols)))
    {
      EnsureDb(directoryHasFiles);
      var answer := collectionQuery(embedding, k);
      if answer.Err? {
        return Err(answer.error);
      }
      var cols := answer.value;
      var n := ZipLength(cols);
      var results: seq<Scored> := [];
      for i := 0 to n
        invariant results == RelevanceResults(cols, i)
      {
        if cols.documents[i].Some? {
          results := results + [Scored(Document(cols.documents[i].value, cols.metadatas[i]), cols.distances[i])];
        }
      }
      r := Ok(results);
    }

    /** `close`: drops the handle and keeps the model, so a later operation reopens the base without a new model. */
    method Close()
      requires Valid()
      modifies this
      ensures Valid()
      ensures db.None? && embeddingModel == old(embeddingModel) && modelInits == old(modelInits)
    {
      db := None;
    }
  }
}
