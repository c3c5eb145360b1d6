# lawyer-assistant: the decision-ingestion pipeline in Dafny

This project models the part of lawyer-assistant that ingests court decisions, together with the small validators and state machines around it:

- **Upload.** The upload view reads decision ids off the start of the lines of a pasted text. It queues one Celery job per id, each with the id's page in the Ukrainian court register.
- **Per-decision task.** Each job runs `decision_processing_task`:
  - it opens or creates the decision's registry row;
  - it short-circuits when the row is already done;
  - otherwise it cleans the page text, extracts the case and proceeding numbers, and cuts the text into chunks;
  - it stores the chunks in the Chroma collection under deterministic ids and marks the row done;
  - it announces every stage on the user's Redis channel, and on failure announces and returns the error.
- **Vector store.** The Chroma adapter sets up its embedding model and database handle lazily. It converts raw collection answers into scored documents.
- **Search.** The search view keeps the hits with a truthy score and sorts them by score, highest first, with a stable sort.
- **Accounts.**
  - E-mail verification consumes a code once and honours it for three hours.
  - Registration runs the unique validators on the user name and the e-mail, then checks the passwords, stores the user and asks for a verification code and its mail.
  - The login view has three branches.
- **Progress bar.** The frontend bar derives the completed tasks and the percentage from the socket messages.

One module per source file:

| module | file |
|---|---|
| `DecisionProcessing` | `decision_processor.dfy` |
| `CeleryUtils` | `celery_utils.dfy` |
| `CeleryTasks` | `celery_tasks.dfy` |
| `CourtModels` | `court_models.dfy` |
| `ChromaStorage` | `chroma_storage.dfy` |
| `ApiViews` | `api_views.dfy` |
| `UserModels` | `user_models.dfy` |
| `UserSerializers` | `user_serializers.dfy` |
| `UserViews` | `user_views.dfy` |
| `ProgressBar` | `progress_bar.dfy` |

Four support modules sit beside them:

- `Text`: Python's `\s`, `\d` and `str(n)`, plus greedy character runs.
- `Documents`: LangChain's `Document`.
- `TaskQueue`: a Celery queue as `.delay` sees it.
- `Wrappers`: `Option` and `Result`.

How the model is shaped:

- **Objects that update fields in place are classes:**
  - `DecisionProcessor`;
  - `ChromaDBHandler` and the persisted `Collection`;
  - the task's registry table (`Registry`) and Redis connection (`Redis`);
  - the account tables (`Accounts`);
  - the progress bar's state (`ProgressView`);
  - the broker queue (`Queue`).
- **Their methods are proved against pure functions**, for example:
  - `DecisionProcessingTask` equals `Run`;
  - `VerifyUser` equals `Verify`;
  - `ProgressView.Effect` stores `NewCompleted`.
- **The properties are lemmas about those functions.**
- **Effects of the task.** Its `try` block is described as a plan of effects (`PlanOf`): publishes, the chunk write and the row save. `Exec` carries the plan out, stopping at the first publish that raises. The page analysis (`clean_text`, `extract_metadata`, `split_text_into_chunks`) decides the plan.
- **External failures are parameters.** A publish failure is a fault script on the Redis connection. A store write failure, a failure of `get_or_create` and a failure of the final row `save` are optional messages. The fetched page is a `Result`. The final `save` can fail, for instance, when the extracted case number is longer than the 150-character column (backend/api/models.py:11) on a database that enforces lengths; the chunks are stored and "documents_saved" is published by then.

Where the code and its informal description differ, the model follows the code:

- **The `error` publish can escape.** It sits inside the `except` branch of tasks.py (backend/celery_tasks/tasks.py:72-73). When it raises, the exception escapes the task (`Escaped`). Only exceptions raised inside the `try` block are turned into the error dictionary.
- **The user lookup can escape.** `self.requester.user` (backend/celery_tasks/tasks.py:22) is evaluated before the `try`. When it raises, nothing is published or stored and the exception escapes.

## Model

| member | source | states |
|---|---|---|
| DecisionProcessing.IdLength | backend/api/processor/decision_processor.py:13 | the length a `^\d{7,9}` match takes never exceeds the text |
| DecisionProcessing.IdOfLine | backend/api/processor/decision_processor.py:13 | a line contributes an id iff it starts with at least seven decimal digits; the id is its first 7 to 9 characters, all digits, and takes 9 when more digits follow |
| DecisionProcessing.SplitJoinRoundTrip | backend/api/processor/decision_processor.py:13 | splitting the text at newlines and joining the lines again gives the text back, so the line view loses nothing |
| DecisionProcessing.FindAllByLines | backend/api/processor/decision_processor.py:13 | the multiline `findall` scan returns exactly the ids of the lines, in line order |
| DecisionProcessing.IdsByLines | backend/api/processor/decision_processor.py:12-14 | `extract_ids` returns the id of every line that starts with at least seven digits, in line order, duplicates kept, nothing for other lines |
| DecisionProcessing.IdsShape | backend/api/processor/decision_processor.py:13 | every extracted id is 7 to 9 decimal digits and there are no more ids than lines |
| DecisionProcessing.ReviewUrl | backend/api/processor/decision_processor.py:19 | the register URL is the fixed prefix followed by the id |
| DecisionProcessing.IdOfReviewUrl | backend/api/processor/decision_processor.py:19 | a URL names an id iff it starts with the register prefix |
| DecisionProcessing.ReviewUrlRoundTrip | backend/api/processor/decision_processor.py:19 | reading the id back from its register URL gives the id |
| DecisionProcessing.ReviewUrlInjective | backend/api/processor/decision_processor.py:19 | distinct ids get distinct URLs |
| DecisionProcessing.ReviewUrls | backend/api/processor/decision_processor.py:18-20 | one URL per id, the i-th built from the i-th id |
| DecisionProcessing.JobsFor | backend/api/processor/decision_processor.py:18-21 | one job per id, the i-th carrying the i-th id's URL and the id itself |
| DecisionProcessing.ReviewUrlsDecode | backend/api/processor/decision_processor.py:18-20 | each appended URL decodes back to the id it was built from, in order |
| DecisionProcessing.DecisionProcessor.constructor | backend/api/processor/decision_processor.py:7-10 | the raw text is kept; ids and URLs start empty |
| DecisionProcessing.DecisionProcessor.ExtractIds | backend/api/processor/decision_processor.py:12-14 | stores the ids of the raw text in `decisionIds` and returns that same list; nothing else changes |
| DecisionProcessing.DecisionProcessor.ProcessAll | backend/api/processor/decision_processor.py:16-27 | `urls` grows by exactly one register URL per id in id order; the queue grows by one job per id; the reply is the constant message whatever the ids |
| TaskQueue.Queue.Delay | backend/api/processor/decision_processor.py:21 | `.delay` appends the job to the end of the queue |
| CeleryUtils.CollapseSingleSpaced | backend/celery_tasks/utils.py:30-32 | after replacing whitespace runs by one space, no whitespace character other than a lone space remains |
| CeleryUtils.StripNormalises | backend/celery_tasks/utils.py:32 | `strip` leaves no leading or trailing whitespace and keeps single spacing |
| CeleryUtils.SqueezeNormalised | backend/celery_tasks/utils.py:30-32 | the first three substitutions give single-spaced text |
| CeleryUtils.CutHeadSingleSpaced | backend/celery_tasks/utils.py:33 | the head cut keeps single spacing |
| CeleryUtils.CutTailSingleSpaced | backend/celery_tasks/utils.py:34 | the tail cut keeps single spacing |
| CeleryUtils.CleanTextNormalised | backend/celery_tasks/utils.py:26-35 | `clean_text` output has no leading or trailing whitespace, never two whitespace characters in a row, and plain spaces as its only whitespace (CR/LF/TAB runs and no-break spaces have become single spaces) |
| CeleryUtils.VisibleAppend | backend/celery_tasks/utils.py:30-32 | the non-whitespace characters of a concatenation are those of its parts, in order |
| CeleryUtils.CollapseKeepsVisible | backend/celery_tasks/utils.py:30 | collapsing whitespace runs keeps every other character, in order |
| CeleryUtils.ReplaceKeepsVisible | backend/celery_tasks/utils.py:31 | replacing no-break spaces keeps every other character, in order |
| CeleryUtils.StripKeepsVisible | backend/celery_tasks/utils.py:32 | `strip` drops only whitespace |
| CeleryUtils.SqueezeKeepsVisible | backend/celery_tasks/utils.py:30-32 | the whitespace normalisation changes whitespace only: every other character survives, in order |
| CeleryUtils.CutHeadWithoutMarker | backend/celery_tasks/utils.py:33 | without "Повний доступ" the head cut leaves the text alone |
| CeleryUtils.CutHeadAtFirstMarker | backend/celery_tasks/utils.py:33 | with the marker first occurring at i, everything up to and including it and the whitespace after it is removed, and the rest is kept |
| CeleryUtils.CutTailWithoutMarkers | backend/celery_tasks/utils.py:34 | without a login marker followed later by the wait marker, the tail cut leaves the text alone |
| CeleryUtils.CutTailAtFirstMarker | backend/celery_tasks/utils.py:34 | when the wait marker follows the first login marker, exactly the text before the whitespace run preceding that login marker is kept |
| CeleryUtils.SkipOptionalSign | backend/celery_tasks/utils.py:52 | `\s*№?\s*` consumes a stretch within the text |
| CeleryUtils.SkipSign | backend/celery_tasks/utils.py:59 | `\s*№\s*` consumes at least the sign when it matches |
| CeleryUtils.SlashGroupsEnd | backend/celery_tasks/utils.py:52 | the greedy `(?:/cls+)*` ends on a class character, and any extension starts with a slash |
| CeleryUtils.Search | backend/celery_tasks/utils.py:54-59 | `re.search` returns the leftmost position where the pattern matches, and no earlier position matches |
| CeleryUtils.MatchShape | backend/celery_tasks/utils.py:52-60 | a case-number match is two or more slash-separated groups of digits, hyphens and а-я/А-Я letters; a proceeding match is exactly four slash-separated digit groups |
| CeleryUtils.UnspecifiedIsNoNumber | backend/celery_tasks/utils.py:56 | the default "unspecified" never has the shape of a number |
| CeleryUtils.CaseNumberSpec | backend/celery_tasks/utils.py:50-56 | `number` is the first case-number match, well formed, or "unspecified" exactly when the text has none; extraction never fails |
| CeleryUtils.ProceedingNumberSpec | backend/celery_tasks/utils.py:58-60 | `proceeding` is the group of the first match after "№": four digit groups, or "unspecified" exactly when none matches |
| CeleryUtils.UkrainianLettersOutsideCaseClass | backend/celery_tasks/utils.py:52 | the case-number class excludes і, ї, є and ґ in both cases |
| CeleryUtils.TagChunksSpec | backend/celery_tasks/utils.py:76-85 | one document per splitter chunk, in splitter order, with the chunk as content and metadata exactly `{document_id, decision_number}`; the proceeding number is not attached |
| Text.DecimalRoundTrip | backend/celery_tasks/tasks.py:51 | the count rendered in "n chunks created" reads back as the number of documents |
| Text.NatToStringInjective | backend/celery_tasks/tasks.py:53 | distinct numbers render differently |
| CeleryTasks.Channel | backend/celery_tasks/tasks.py:30 | the channel is "user:" followed by the user id in decimal |
| CeleryTasks.ChannelInjective | backend/celery_tasks/tasks.py:30 | distinct users listen on distinct channels |
| CeleryTasks.ChunkId | backend/celery_tasks/tasks.py:53 | a chunk id is the decision id, "_chunk_", and the index in decimal |
| CeleryTasks.ChunkIds | backend/celery_tasks/tasks.py:53 | n ids for n documents, the i-th for index i, in document order |
| CeleryTasks.ChunkIdsDistinct | backend/celery_tasks/tasks.py:53-54 | the chunk ids of a decision are pairwise distinct, so no chunk overwrites another |
| CeleryTasks.Notify | backend/celery_tasks/tasks.py:24-30 | a publish appends the message and leaves rows and store alone; a raising publish appends nothing and raises the scripted error |
| CeleryTasks.ExecReturned | backend/celery_tasks/tasks.py:32-70 | a block that returns ran its whole plan: every notice published, every write and row save applied |
| CeleryTasks.ExecUnfailing | backend/celery_tasks/tasks.py:32-70 | without publish failures the plan runs to its end |
| CeleryTasks.ExecAnnounced | backend/celery_tasks/tasks.py:24-30 | a plan whose notices are all on one channel about one decision publishes nothing else, wherever it stops |
| CeleryTasks.ExecSavedBeforeDone | backend/celery_tasks/tasks.py:54-60 | a plan that writes the chunks once and afterwards only completes the decision's row leaves the rows unchanged until the chunks are stored, wherever it stops |
| CeleryTasks.PlanAnnouncesOn | backend/celery_tasks/tasks.py:24-30 | every notice of every plan is on the user's channel and about the decision |
| CeleryTasks.PlanOfSuccess | backend/celery_tasks/tasks.py:32-70 | a plan that ends in success is the full six-stage plan of a fetched page, a row not yet done, a write without fault and a row save without fault |
| CeleryTasks.BodySuccess | backend/celery_tasks/tasks.py:32-70 | a `try` block succeeds only when `get_or_create` and the row save did not fail; it then published the six stages in order, stored every chunk under its id, and completed the row with the page's numbers |
| CeleryTasks.BodySavesBeforeDone | backend/celery_tasks/tasks.py:33-60 | a failing `get_or_create` changes nothing; otherwise, wherever the block stops, the store holds nothing new or the page's chunks, and the row changes only when the chunks are stored for a row not yet done and its save does not fail |
| CeleryTasks.BodyAnnounced | backend/celery_tasks/tasks.py:24-70 | the `try` block only appends notices on the user's channel about the decision |
| CeleryTasks.AlreadyDoneShortCircuit | backend/celery_tasks/tasks.py:33-36 | when `get_or_create` finds a done row, the block yields one "already_done" notice and the already-done dictionary, with no chunking, store write or row change |
| CeleryTasks.SuccessfulRun | backend/celery_tasks/tasks.py:33-70 | a successful run had no `get_or_create` or row-save failure; it publishes started, text_extracted, metadata_extracted, chunks_created (with the document count), documents_saved and done, in order; stores every chunk under its id; marks the row done with the extracted numbers |
| CeleryTasks.NoFaultSucceeds | backend/celery_tasks/tasks.py:32-70 | with every publish going through, the row opened, the page fetched, the write accepted and the row save accepted, a row that is not done ends done and the run succeeds |
| CeleryTasks.RecordDiscipline | backend/celery_tasks/tasks.py:33-60 | a failing `get_or_create` leaves the table as it was; otherwise a row exists for the id afterwards, no other row changes, the row changes only by the three completed fields, and it becomes done only after its chunks were written and only when its save succeeds |
| CeleryTasks.PlanEndsNoFailure | backend/celery_tasks/tasks.py:32-70 | the `try` block never returns the error dictionary itself |
| CeleryTasks.ErrorAnnounced | backend/celery_tasks/tasks.py:72-76 | a run that returns the error dictionary last published "error" with the same message on the user's channel |
| CeleryTasks.NotificationsScoped | backend/celery_tasks/tasks.py:22-76 | every notice of a run is on the user's channel about the decision and earlier ones are kept; without a user the task raises before changing anything |
| CeleryTasks.Registry.constructor | backend/api/models.py:10 | the table starts from rows keyed by their own unique id |
| CeleryTasks.Registry.GetOrCreate | backend/celery_tasks/tasks.py:33 | a database failure is returned as an error and changes no row; otherwise returns the stored row, or inserts and returns a new row with the default status, keyed by its id |
| CeleryTasks.Registry.Save | backend/celery_tasks/tasks.py:57-60 | a database failure is returned and writes nothing; otherwise the row is written back under its id and no other row changes |
| CeleryTasks.Redis.constructor | backend/celery_tasks/tasks.py:20 | a connection starts with nothing published |
| CeleryTasks.Redis.Publish | backend/celery_tasks/tasks.py:30 | a publish appends its message unless it raises, in which case nothing is appended; it agrees with `Notify` |
| CeleryTasks.DecisionProcessingTask | backend/celery_tasks/tasks.py:15-76 | the task leaves the registry, the published notices and the collection exactly as `Run` describes, and returns its outcome |
| CeleryTasks.ExecAnnounce | backend/celery_tasks/tasks.py:24-30 | one announcement of a plan either raises, ending the block with its message, or the rest of the plan follows |
| CeleryTasks.NotifyUser | backend/celery_tasks/tasks.py:24-30 | `notify` as a plan step: a raise ends the block as the plan says, otherwise the rest of the plan remains |
| CeleryTasks.TryBlock | backend/celery_tasks/tasks.py:32-70 | the `try` block's effects and ending are those of `Body`, including a failing `get_or_create` ending the block with its error |
| CeleryTasks.ProcessRow | backend/celery_tasks/tasks.py:34-70 | after the row is opened, the block's effects and ending are those of the row's plan, short-circuit or full |
| CeleryTasks.ProcessPage | backend/celery_tasks/tasks.py:40-70 | after "started", the fetch and the steps that follow carry out the rest of the row's plan |
| CeleryTasks.ProcessText | backend/celery_tasks/tasks.py:44-70 | the steps after the text is extracted carry out the rest of the fetched page's plan |
| CeleryTasks.StoreChunks | backend/celery_tasks/tasks.py:53-63 | the chunk write, "documents_saved", the row update and "done" carry out the finishing plan, or end with the write's error, or with the row save's error after the chunks are stored and announced |
| CourtModels.DecisionStatus.Value | backend/api/models.py:4-6 | each status's stored value fits the ten-character column |
| CourtModels.StatusOfValue | backend/api/models.py:4-6 | only "absent" and "done" are valid stored values |
| CourtModels.StatusValueRoundTrip | backend/api/models.py:4-6 | reading a status's stored value back gives the status |
| CourtModels.NewDecision | backend/api/models.py:9-18 | a created row has the given id, empty numbers and status Absent |
| CourtModels.NewDecisionFits | backend/api/models.py:10-14 | a created row fits the declared column lengths whenever its id does |
| CourtModels.Describe | backend/api/models.py:20-21 | `__str__` is the id, " - " and the status label |
| CourtModels.DescribeShowsStatus | backend/api/models.py:20-21 | two rows with the same id and different statuses read differently |
| ChromaStorage.SimilarityOf | backend/chroma_client/chroma_storage.py:117 | a score exists iff a distance does, and score plus distance is one |
| ChromaStorage.ByVectorResults | backend/chroma_client/chroma_storage.py:115-118 | the conversion succeeds iff every zipped entry has a document, and then yields one entry per position |
| ChromaStorage.RelevanceResults | backend/chroma_client/chroma_storage.py:153-157 | relevance mode yields no more entries than were zipped |
| ChromaStorage.ByVectorSpec | backend/chroma_client/chroma_storage.py:111-120 | with every document present, the i-th result is the i-th document and metadata scored `1 - distance` (None for a missing distance), over the shortest of the three lists; otherwise it fails |
| ChromaStorage.PresentPositions | backend/chroma_client/chroma_storage.py:154-155 | the positions with a document, strictly increasing, all of them |
| ChromaStorage.RelevanceSpec | backend/chroma_client/chroma_storage.py:149-159 | relevance mode keeps exactly the entries with a document, in store order, each with its raw distance unchanged |
| ChromaStorage.ByVectorFailureSticks | backend/chroma_client/chroma_storage.py:116-118 | once an entry fails, the whole conversion fails with that error |
| ChromaStorage.RelevanceAllPresent | backend/chroma_client/chroma_storage.py:154-157 | with every document present, relevance mode keeps every entry in place |
| ChromaStorage.ScoreConventionsOpposite | backend/chroma_client/chroma_storage.py:116-157 | the two modes score the same entry as a similarity and as a raw distance, which add up to one |
| ChromaStorage.UpsertSpec | backend/chroma_client/chroma_storage.py:57 | writing distinct ids stores each document under its id and leaves every other id alone |
| ChromaStorage.ChromaDBHandler.constructor | backend/chroma_client/chroma_storage.py:16-20 | a missing or empty directory or collection name falls back to the default; no model and no handle yet |
| ChromaStorage.ChromaDBHandler.InitEmbeddingModel | backend/chroma_client/chroma_storage.py:22-29 | a model with the configured settings is held afterwards; an existing one is not rebuilt; the handle is untouched |
| ChromaStorage.ChromaDBHandler.LoadOrCreateDb | backend/chroma_client/chroma_storage.py:31-50 | ensures the model first, then loads the persisted base when the directory has files, or creates an empty cosine collection |
| ChromaStorage.ChromaDBHandler.EnsureDb | backend/chroma_client/chroma_storage.py:53-54 | `load_or_create_db` runs only when no handle is held; an existing handle and model are kept |
| ChromaStorage.ChromaDBHandler.SaveDocuments | backend/chroma_client/chroma_storage.py:52-62 | the collection upserts the pairs; a store failure is re-raised with the collection unchanged |
| ChromaStorage.ChromaDBHandler.SimilaritySearch | backend/chroma_client/chroma_storage.py:64-75 | the library search's answer or failure is passed on unchanged, after the lazy set-up |
| ChromaStorage.ChromaDBHandler.SimilaritySearchByVector | backend/chroma_client/chroma_storage.py:77-124 | a text query is embedded and a vector used as is; the answer is `ByVectorResults` of the collection's columns; a query failure is re-raised |
| ChromaStorage.ChromaDBHandler.SimilaritySearchWithRelevanceScores | backend/chroma_client/chroma_storage.py:126-163 | the answer is `RelevanceResults` of the collection's columns; a query failure is re-raised |
| ChromaStorage.ChromaDBHandler.Close | backend/chroma_client/chroma_storage.py:165-169 | drops the handle and keeps the model |
| ApiViews.UploadPost | backend/api/views.py:15-27 | a missing or empty text is a 400 and a text without ids a 400, neither queueing anything; otherwise one job per id is queued in order and the answer is 200 with the processor's message |
| ApiViews.UploadJobs | backend/api/views.py:20-26 | the queued jobs are exactly one per id found, in text order, each decoding back to its id |
| ApiViews.TruthyHits | backend/api/views.py:48-58 | the kept hits are no more than the results and none scores zero |
| ApiViews.TruthyHitsFromResults | backend/api/views.py:48-58 | every kept hit is the formatted form of a result with that truthy score |
| ApiViews.TruthyResultsKept | backend/api/views.py:48-58 | every result with a truthy score is formatted into a kept hit |
| ApiViews.InsertByScore | backend/api/views.py:57-61 | inserting a hit adds exactly that hit |
| ApiViews.SortByScore | backend/api/views.py:57-61 | sorting is a permutation of the hits |
| ApiViews.SortDescending | backend/api/views.py:57-61 | the sorted hits are in descending order of score |
| ApiViews.SortStable | backend/api/views.py:57-61 | hits with equal scores keep their order through the sort |
| ApiViews.SearchHits | backend/api/views.py:48-62 | the answer has no more entries than the store returned |
| ApiViews.SearchHitsSpec | backend/api/views.py:48-62 | the answer is exactly the truthy-scored hits, each once, highest score first, equal scores in store order, none scoring zero |
| ApiViews.SearchPost | backend/api/views.py:31-79 | a missing or blank query is a 400 without touching the store; a search failure is a 500 with its message; otherwise 200 with `SearchHits` of the twenty nearest |
| UserModels.Accounts.constructor | backend/auth/models.py:5-16 | empty user and verification tables, ids starting at one |
| UserModels.Accounts.GenerateVerificationLink | backend/user/models.py:29-36 | a free code whose insert succeeds is stored for the user and returned; a taken code or a refused insert stores nothing and yields None |
| UserSerializers.FieldErrors | backend/user/serializers.py:10-16 | the field-level errors name exactly the failing fields: those of the other validators plus 'username' and 'email' when taken, each with the unique message; validation passes exactly when nothing fails |
| UserSerializers.ValidateAfterFields | backend/user/serializers.py:18-35 | once the fields passed, `validate` accepts exactly when the passwords match and otherwise refuses under 'password2': its e-mail check never fires |
| UserSerializers.Validate | backend/user/serializers.py:18-35 | data is accepted iff the e-mail is free and the passwords match, and is then returned unchanged; a refusal is keyed 'email' or 'password2' |
| UserSerializers.EmailCheckFirst | backend/user/serializers.py:23-33 | a taken e-mail is reported under 'email' even when the passwords differ too |
| UserSerializers.MismatchReported | backend/user/serializers.py:30-33 | with a free e-mail, differing passwords are reported under 'password2' |
| UserSerializers.Create | backend/user/serializers.py:38-43 | the user is stored under a new id with the hashed password and without `password2`, unverified; the codes are untouched |
| UserSerializers.RegisteredLoginsTaken | backend/user/serializers.py:10-27 | after a user is stored, registering again with its user name or its e-mail gets the unique message under that field, and `validate` would refuse the e-mail too |
| UserViews.Verify | backend/user/views.py:81-104 | verification keeps every code owned by an existing user and keeps the set of users |
| UserViews.VerifyAnswers | backend/user/views.py:81-104 | 200 iff the code is known and younger than three hours, 400 iff known and older, 404 iff unknown |
| UserViews.VerifyConsumesOnce | backend/user/views.py:88-104 | a known code is deleted and no other code is touched; asking again with it at any time is a 404 that changes nothing |
| UserViews.VerifyTouchesOnlyOwner | backend/user/views.py:84-98 | only the code's own user changes, only in its verified flag, and only when the code is still valid |
| UserViews.VerifyUser | backend/user/views.py:81-104 | the view changes the tables and answers exactly as `Verify` says |
| UserViews.ActionAfterRegistration | backend/user/views.py:54-57 | the verification mail is queued, with the user and the code, exactly when a code was stored |
| UserViews.RegisteringRefuses | backend/user/views.py:60-62 | a request is refused iff a field fails or the passwords differ, and then nothing changes; a taken user name or e-mail is reported under its field with the unique message; a mismatch alone is reported under 'password2' |
| UserViews.RegisteringStores | backend/user/views.py:62-64 | a stored user is new, unverified, under the next id with the request's name, e-mail and hashed password; the code and its mail follow exactly when the code is free and its insert accepted; the tables stay valid |
| UserViews.RegisteringKeepsLoginsUnique | backend/user/views.py:60-64 | registration never creates a second account with a user name or an e-mail already in use |
| UserViews.ValidateAndSave | backend/user/views.py:60-64 | validation, saving and the verification step change the tables and the mail queue exactly as `Registering` says |
| UserViews.StoredThenRaises | backend/user/views.py:62-69 | as written, a request that passes validation raises the `second_name` attribute error after the user is stored; with the code's insert refused, no code is stored and no mail queued; only refusals are answered, with a 400 |
| UserViews.RegisterAsWritten | backend/user/views.py:59-75 | the view as written changes the tables as `Registering` says and ends as `AnswerAsWritten` says |
| UserViews.RegisterAnswers | backend/user/views.py:59-75 | corrected, the answer is 201 exactly when validation passes, naming the new id and the request's e-mail, and 400 with the errors otherwise |
| UserViews.Register | backend/user/views.py:59-75 | the corrected view changes the tables as `Registering` says and answers as `Answer` says |
| UserViews.Login | backend/user/views.py:23-47 | 400 iff the fields are invalid, 401 iff authentication fails, 200 iff it succeeds, with the user's id, name, e-mail and token pair |
| ProgressBar.FinishedIds | frontend/src/components/ProgressBar/ProgressBar.jsx:30-39 | an id is listed iff it is one of the tasks and some message reports it "done" or "success" |
| ProgressBar.Dedupe | frontend/src/components/ProgressBar/ProgressBar.jsx:41 | the set conversion yields each id once, no other ids, in order of first occurrence |
| ProgressBar.NewCompletedSpec | frontend/src/components/ProgressBar/ProgressBar.jsx:30-41 | the stored list holds exactly the tasks some message reports finished, each once |
| ProgressBar.PercentBounds | frontend/src/components/ProgressBar/ProgressBar.jsx:44-46 | with no more done than total, the percentage is between 0 and 100, and is 100 exactly when all are done |
| ProgressBar.DerivedProgress | frontend/src/components/ProgressBar/ProgressBar.jsx:44-46 | the percentage derived from the current tasks and messages lies between 0 and 100 |
| ProgressBar.DerivedProgressFull | frontend/src/components/ProgressBar/ProgressBar.jsx:27-46 | the derived bar is full iff every task is reported finished and no task id is listed twice |
| ProgressBar.ProgressView.constructor | frontend/src/components/ProgressBar/ProgressBar.jsx:25 | the completed list starts empty |
| ProgressBar.ProgressView.Effect | frontend/src/components/ProgressBar/ProgressBar.jsx:27-42 | without tasks the stored list stays; otherwise it becomes `NewCompleted` of the current tasks and messages, and the bar then shows the derived percentage |
| ProgressBar.StaleRenderExceeds | frontend/src/components/ProgressBar/ProgressBar.jsx:44-46 | the render that follows a change of tasks, before the effect, can show 200 |

## Left out

- The page download and HTML parsing of `extract_text_from_url` (backend/celery_tasks/utils.py:37-48) are network and library code. The fetched text, or the failure, is a parameter, and `clean_text` is applied to it.
- The LangChain text splitter (chunk size 512, overlap 50) is a function parameter. Its chunking algorithm is not modelled.
- Embeddings, the Chroma collection's query and the library similarity search are parameters. The persist directory's contents are a boolean. Distances and scores are `real`, not floating point.
- Celery's retry options (`max_retries=2`) are never exercised by the task, which catches its own exceptions. Workers and the broker are left out. `.delay` is an append to a queue.
- GPU cache clearing, `del` and garbage collection in the task change nothing the model observes.
- `self.requester.user` is not a standard Celery attribute. The requesting user is a parameter: `None` stands for the lookup raising, which happens before the `try`.
- `send_email_verification_link`, `get_email_template_user_verification` and `get_smtp_config` are SMTP and environment I/O. The mail is modelled only as the queued job.
- JWT tokens, `authenticate` and password hashing are function parameters. The drawn uuid is a parameter.
- `UserModels.Accounts`: one users table stands for both `User` models. Registration stores into the `User` of backend/auth/models.py:5-11 (backend/user/serializers.py:2, 15). The verification table, the verification view and the mail task use the `User` of backend/user/models.py:10-21 (backend/user/models.py:26, backend/user/views.py:16, backend/celery_tasks/utils.py:14). As written, the verification insert for a newly registered user is therefore always refused: Django's foreign-key setter rejects an instance of the other class with a `ValueError`, and backend/user/models.py:34-36 turns that into None. In the model that is `refused` true, so no code is stored and no mail is queued. `refused` also stands for every database failure other than a code collision.
- The field-level validators other than the two unique validators (e-mail format, lengths, required fields) are an input to `FieldErrors`: their messages per field. The order of the messages within one field's list is not modelled. `RegisterData` always holds every field, so presence and type checks are outside the model. The login serializer's outcome is an input to `Login`.
- Requests whose fields are not strings are not modelled.
- `UserViews.VerifyUser`: the route accepts only well-formed uuids (`<uuid:code>` in backend/user/urls.py:13), so malformed codes never reach the view and are not modelled.
- `UserViews.Register`: the corrected answer omits `first_name`, which the serializer never sets and is always empty, and `second_name`, which the stored model does not have.
- `ApiViews.SearchPost`: the library search's scores are taken as given. The cap of twenty entries is the library's `k` and is not restated in the contract.
- A render without `taskIds` shows 0 in the model (`RenderedProgress`). The source's label (frontend/src/components/ProgressBar/ProgressBar.jsx:55) reads `taskIds.length` and would throw instead.
- `LogoutView`, the WebSocket consumers and the frontend pages other than the progress bar are not part of this model.
- `re.IGNORECASE` case folding is modelled for the basic Cyrillic block and the historic Cyrillic letter forms that fold onto в, д, о, с, т and ъ. ASCII folding is not modelled, which changes nothing: neither pattern (backend/celery_tasks/utils.py:52, 59) contains an ASCII letter. Other foldings are left out.
- Query answers (`QueryColumns` in `ChromaStorage`): the metadatas column of a query answer is always present (never None), and the `filter` and `where_document` arguments (backend/chroma_client/chroma_storage.py:81-82, 104-105) are not passed to the query, whose answer is a parameter.

## Findings

| source | as written | input that shows it | evidently intended | confidence | as-written member | corrected member |
|---|---|---|---|---|---|---|
| frontend/src/components/ProgressBar/ProgressBar.jsx:44-46 | `progress` divides the `completed` list stored by the last effect by the current `taskIds.length`. On the render after `taskIds` changes, which runs before the effect, the list still belongs to the previous tasks. | Tasks ["1", "2"] both reported "done", then tasks become ["3"]: that render shows 200%. | A percentage between 0 and 100, derived from the current tasks and messages. | low, latent, not executed: both callers clear the result first (frontend/src/components/UploadPage/UploadPage.jsx:70, frontend/src/components/HomePage/HomePage.jsx:85), which remounts the bar, and the upload answer (backend/api/processor/decision_processor.py:27) has no `ids_array` or `user_channel_id`, so the bar is never shown | ProgressBar.StaleRenderExceeds | ProgressBar.DerivedProgress |
| backend/user/views.py:62-69 | The serializer stores the `User` of backend/auth/models.py (backend/user/serializers.py:2, 15), which has no `second_name`. After `save`, the tokens and the verification mail, the answer reads `user.second_name` and raises `AttributeError`, served as a 500. | Any request that passes validation, such as user name "ann", e-mail "ann@example.com" and matching passwords on empty tables: the user is stored (the verification insert is refused, so no mail is queued), then the view raises. | A 201 with the new user's id, e-mail and tokens. | high, not executed | UserViews.StoredThenRaises | UserViews.RegisterAnswers |
