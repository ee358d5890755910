# steemdata-mongo scraper: a Dafny model

This project models the ingestion core of the steemdata-mongo scraper
(`src/scraper.py`). Its jobs are:

- `scrape_operations` replays the Steem operation stream from the stored
  `last_block` checkpoint. For each operation it fires two triggers: the
  upsert of a top-level post, and the refresh of a newly created account.
  It then inserts the typified operation into Operations, with duplicate
  keys suppressed, and writes `block_num - 1` as the checkpoint whenever
  the block changes.
- `scrape_all_users` refreshes every account of the usernames batch that
  the account checkpoint selects. After each username it advances the
  cursor. It resets the cursor to `-1` after a short batch that resumed
  from a checkpoint.
- `update_account_ops` inserts an account's history. It starts at the
  highest stored `index` of that account, or at 0, and relies on
  duplicate-key suppression.
- `upsert_post` and `update_account` do full-replace upserts by
  identifier and by name.

The model has five files:

- `records.dfy` (module `Records`) holds the documents and raw operations
  as datatypes. It also holds the collaborators the scraper calls:
  - `typify` and `is_comment` (`Normalizer`);
  - `Post`, `Account`, `Account.history` and `get_usernames_batch`
    (`Upstream`);
  - the unique indexes (`Indexes`).

  These collaborators are functions passed in as parameters.
- `storage.dfy` (module `Storage`) models the store:
  - each collection with a unique index is a map from key to document;
  - an insert under `suppress(DuplicateKeyError)` is `InsertUnique`;
  - `Store` is a class holding the MongoStorage collections and the
    Settings values as fields;
  - its methods update those fields in place.
- `scraper_spec.dfy` (module `ScraperSpec`) defines each job as functions
  over store snapshots:
  - the trigger predicates;
  - one step per operation or per username;
  - a fold over a prefix of the input.

  A job that raises ends in `Halted`/`Stopped` with the store as it was
  left.
- `scraper.dfy` (module `Scraper`) holds the five functions of the source
  as imperative methods on a `Store`, with the source's loops. Each method
  is proved to leave exactly the snapshot that its specification function
  describes.
- `scraper_proofs.dfy` (module `ScraperProofs`) proves what the scraper
  promises about those functions:
  - duplicate suppression;
  - the lagging checkpoint and the no-gap property it buys;
  - the replay scenario `[100, 100, 101, 102]`;
  - the order of the triggers;
  - full-replace upserts;
  - the resume rule of the account history;
  - the account cursor rule;
  - that no record is ever lost.

`update_account_ops` resumes AT the highest stored `index`
(`src/scraper.py:124`), not one past it. The re-fetched event is absorbed
by duplicate-key suppression (`src/scraper.py:128-129`).
`StartIndexIsHighest` and `ResumeOverlapAbsorbed` state this.

## Model

| member | source | states |
|---|---|---|
| Storage.InsertUnique | src/scraper.py:63-64 | An insert under duplicate-key suppression adds the document's key. A fresh key stores the document. A present key keeps every stored document unchanged. |
| Storage.InsertUniqueWellKeyed | src/scraper.py:63-64 | An insert keeps every document under the key its unique index computes. |
| Storage.InsertUniqueCount | src/scraper.py:63-64 | A duplicate leaves the document count unchanged; a fresh key adds exactly one document. |
| Storage.InsertAllGrows | src/scraper.py:126-129 | Inserting a sequence of events one by one: the keys grow by exactly the events' keys, no stored document is replaced, and every new document is one of the events, stored under its own key. |
| Storage.InsertAllFirst | src/scraper.py:126-129 | Of several events sharing a key not yet stored, the first one inserted is the one stored: every later insert under that key is a suppressed duplicate. |
| Storage.InsertAllWellKeyed | src/scraper.py:126-129 | Inserting a sequence keeps every document under the key its unique index computes. |
| Records.Truthy | src/scraper.py:22 | Python truthiness of the account checkpoint: no stored checkpoint and an empty username are false, and the -1 written after the last batch is true. The guards at :22 and :34 both test it. |
| ScraperSpec.PostIdentifier | src/scraper.py:52 | The identifier is "@", the author, "/", then the permlink, each at a fixed position. |
| ScraperSpec.PostIdentifierInjective | src/scraper.py:52 | For authors without "/", as Steem account names are, equal identifiers mean the same author and permlink, so the Posts key tells posts apart. |
| ScraperSpec.IsTopLevelPost | src/scraper.py:50-51 | The post trigger fires only for a comment with no parent author that `is_comment` does not call a reply. An operation that fires it never also creates an account. |
| ScraperSpec.IsAccountCreation | src/scraper.py:56 | The account trigger fires for `account_create`, which is never a comment, so at most one of the two triggers fires for an operation. |
| ScraperSpec.Batch | src/scraper.py:21-25 | With no checkpoint or an empty username it requests the first batch. A stored username, or the -1 written after the last batch, is passed on as the cursor. |
| Storage.Store.InsertOperation | src/scraper.py:63-64 | `Operations.insert_one` with DuplicateKeyError suppressed: reports whether the key was fresh, and leaves Operations equal to `InsertUnique` of the old collection. |
| Storage.Store.InsertAccountOp | src/scraper.py:128-129 | The same, for AccountOperations. |
| Storage.Store.ReplacePost | src/scraper.py:105 | Posts maps the identifier to the new document; every other post is unchanged. |
| Storage.Store.ReplaceAccount | src/scraper.py:114 | Accounts maps the name to the new document; every other account is unchanged. |
| Storage.Store.UpdateLastBlock | src/scraper.py:69 | The stored checkpoint becomes the given block. |
| Storage.Store.SetAccountCheckpoint | src/scraper.py:30-35 | The stored account cursor becomes the given username or -1. |
| ScraperSpec.StartIndexIsHighest | src/scraper.py:118-124 | The start index is 0 when `from_last_index` is false or the account has no stored index. Otherwise it is a stored index of the account that is at least every other stored index: resume at the highest stored index, not one past it. |
| ScraperSpec.IngestHaltIsFinal | src/scraper.py:48-57 | Once the account fetch of an operation has raised, later operations change nothing, and the failing position precedes the processed count. |
| ScraperSpec.ScanStopIsFinal | src/scraper.py:27-29 | Once a username's refresh has raised, later usernames change nothing. |
| ScraperSpec.ScrapeAllUsersStopped | src/scraper.py:27-29 | A scan stopped at a username is the job's outcome: no later username and no cursor reset happen. |
| Scraper.UpsertPost | src/scraper.py:95-105 | Posts becomes the full replacement by the fetched post's identifier, and a missing post leaves it unchanged (`UpsertPostSpec`). |
| Scraper.UpdateAccount | src/scraper.py:108-114 | The account document is replaced by the fetched state, stamped with the given time. A missing account reports failure and writes nothing. |
| Scraper.UpdateAccountOps | src/scraper.py:117-129 | The loop inserts the fetched history from `StartIndex` on and yields `InsertAll` of it. A missing account reports failure and writes nothing. |
| Scraper.ProcessOperation | src/scraper.py:49-69 | One loop iteration runs in order: post trigger, account trigger, insert, then a checkpoint write only on a block change. The result equals `IngestStep`, and a raising account fetch halts it. |
| Scraper.ScrapeOperations | src/scraper.py:38-71 | The loop over the replayed operations, from the stored checkpoint, leaves the snapshot `Ingest` computes. It reports the position that raised, if any. |
| Scraper.ScanUsername | src/scraper.py:27-30 | Refresh one username: the account, then its history, then the cursor moves to it. Equals `ScanStep`. |
| Scraper.ScrapeAllUsers | src/scraper.py:17-35 | It fetches the batch the cursor selects and scans it. After a complete short batch that resumed from a cursor, it resets the cursor to -1. The result equals `ScrapeAllUsersSpec`. |
| ScraperProofs.IngestStepRetains | src/scraper.py:49-69 | One iteration loses no record of Operations, AccountOperations, Accounts or Posts. |
| ScraperProofs.IngestStepStores | src/scraper.py:49-64 | A completed iteration has stored its operation's key. The account it creates now holds the fetched state, stamped with the clock at that step. The top-level post it opens now holds the fetched export with empty `replies`. Both hold only when the entity exists upstream. |
| ScraperProofs.TriggersOnlyWhenMatched | src/scraper.py:50-57 | Posts changes only for a comment with no parent author that `is_comment` rejects. Accounts changes only for `account_create`, and only that operation can stop the run. A step never touches the account history or the cursor. |
| ScraperProofs.IngestNext | src/scraper.py:48-69 | One more operation: a halted run stays halted, and no record is lost. A run still going has stored the operation, the account it creates and the post it opens. |
| ScraperProofs.IngestNextRefreshed | src/scraper.py:49-57 | A run still going after an operation holds what that operation's triggers just fetched: the created account stamped with the clock at that step, and the opened post with empty `replies`. |
| ScraperProofs.IngestRetains | src/scraper.py:38-71 | `scrape_operations` never loses a record. |
| ScraperProofs.UpdateAccountOpsRetains | src/scraper.py:117-129 | `update_account_ops` never loses or rewrites a record. |
| ScraperProofs.ScanStepRetains | src/scraper.py:27-30 | Refreshing one username loses no record. |
| ScraperProofs.ScanNext | src/scraper.py:27-30 | One more username: no record is lost, and a scan still going has replaced that account's document and moved the cursor to it. A username that raised leaves the cursor where it was. |
| ScraperProofs.ScanRetains | src/scraper.py:27-31 | `scrape_all_users` never loses a record. |
| ScraperProofs.HaltedBeforeInsert | src/scraper.py:56-64 | A halted run stopped at an `account_create` whose account does not exist, before inserting that operation or moving the checkpoint. The store is exactly as the preceding operations left it, and the run is halted from the step after that operation on. |
| ScraperProofs.CheckpointTrailsBlock | src/scraper.py:66-69 | With the stream in block order, after the operation of block b the tracked block is b and the stored checkpoint is b - 1. The exception is b equal to the starting checkpoint, which is never rewritten. |
| ScraperProofs.RunningUntilHalt | src/scraper.py:48-57 | Any point at which a run had not yet raised lies at or before the operation that raised. |
| ScraperProofs.CheckpointMonotoneWhileRunning | src/scraper.py:66-69 | With the stream in block order, the stored checkpoint does not decrease between two points of a run that has not raised. |
| ScraperProofs.CheckpointNeverDecreases | src/scraper.py:66-69 | With the stream in block order, the stored checkpoint never decreases along a run, whether or not the run raised. |
| ScraperProofs.ProcessedOpsStored | src/scraper.py:62-64 | Every operation a running loop has processed is stored. |
| ScraperProofs.NoGapBelowCheckpoint | src/scraper.py:42-69 | Wherever the run stops, by raising or at the end, every operation of a block below the stored checkpoint is in Operations. So a restart from the checkpoint misses nothing. |
| ScraperProofs.ReplayScenario | src/scraper.py:44-69 | From checkpoint 99, blocks [100, 100, 101, 102] with one operation repeated store 3 operations and leave the checkpoint at 101. |
| ScraperProofs.DerivedEntitiesPresent | src/scraper.py:49-57 | After a run, every created account and every top-level post that exists upstream has its document. |
| ScraperProofs.UpsertPostLastWins | src/scraper.py:95-105 | A post upsert is a full replace. Upserting twice equals upserting the second fetch alone, and a second fetch of a post gone missing keeps the first. Repeating the same upsert changes nothing. |
| ScraperProofs.UpdateAccountLastWins | src/scraper.py:108-114 | Two refreshes of an account leave one document, with the state and time of the second. Accounts grows by at most that name. |
| ScraperProofs.InsertAllAbsorbsStored | src/scraper.py:126-129 | Inserting events whose keys are all stored changes nothing. |
| ScraperProofs.InsertAllIdempotent | src/scraper.py:126-129 | Re-inserting the same history is a no-op. |
| ScraperProofs.UpdateAccountOpsAddsOnlyNew | src/scraper.py:117-129 | When the key is determined by (account, index), `update_account_ops` keeps every stored record. Each record it adds has an (account, index) not stored before. |
| ScraperProofs.ResumeOverlapAbsorbed | src/scraper.py:119-129 | The re-fetched event at the highest stored index already has its key stored, and the stored document is kept. |
| ScraperProofs.ScanCursorFollowsBatch | src/scraper.py:27-30 | While scanning, the cursor is the last username processed. A username whose refresh raised leaves the cursor at the one before it. |
| ScraperProofs.ScrapeAllUsersCursor | src/scraper.py:21-35 | After a complete scan, the cursor is the last username of the batch, or it is unchanged for an empty batch. It is reset to -1 exactly when a cursor was set before and the batch is shorter than 1000. A first run never resets it, and neither does a run that raised. |
| ScraperProofs.ScanRefreshesAccounts | src/scraper.py:27-28 | When upstream accounts carry the name they were fetched by, every scanned username has an Accounts document holding its fetched state. |

## Left out

- `scrape_misc`, `scrape_active_posts`, `override` and `test` are not part of this model. The path that `scrape_active_posts` takes to the store is `upsert_post`, which is modelled.
- The internals of `typify`, `is_comment`, `Post.export`, `Account.export`, `Account.history`, `Blockchain.replay` and `get_usernames_batch` are not modelled. They are parameters (`Normalizer`, `Upstream`, and the replayed `history`). `helpers.py` and `mongostorage.py` are not part of this model.
- The key of the unique indexes that `ensure_indexes` declares is an abstract function (`Indexes`). The lemmas about the history key assume only that it is determined by (account, index).
- The replay stream is unbounded in the source. The model processes a finite prefix of it; a longer run is a longer prefix.
- `datetime.utcnow()` is a clock parameter indexed by loop position. The output written by `print` is not modelled.
- Failures: the only raise modelled is `Account(name)` failing for an account that does not exist. It stops the job where it occurs. The model does not represent a stop at any other point where the source can raise:
  - `get_usernames_batch` at `src/scraper.py:23` and `src/scraper.py:25`, before any username is scanned;
  - `s.set_account_checkpoint(username)` at `src/scraper.py:30`, after the account and its history have been refreshed but before the cursor moves;
  - `s.set_account_checkpoint(-1)` at `src/scraper.py:35`, after the whole batch has been scanned;
  - `typify` at `src/scraper.py:60`, after the operation's triggers have run and before its insert;
  - `typify` at `src/scraper.py:111`, inside an account refresh;
  - `Post(...)` at `src/scraper.py:97`, for any error other than `PostDoesNotExist`;
  - a non-duplicate error of `insert_one` at `src/scraper.py:64`, after the operation's triggers have run;
  - `update_last_block` at `src/scraper.py:69`;
  - `Posts.update` at `src/scraper.py:105` and `Accounts.update` at `src/scraper.py:114`;
  - the `history` generator at `src/scraper.py:127`. A stop there would leave a partial insert of the history. `UpdateAccountOps` inserts all of it or nothing, so it cannot represent that state.
- `Settings.last_block()` on a fresh database is not modelled; the stored checkpoint is always an integer.
- `update_account_ops` constructs the `Account` once and typifies each history event. The model merges the fetch and `typify` into `Upstream.history`, which returns typified events.
- Concurrency: each job is sequential. Jobs running at the same time against one store are not modelled. `scrape_operations` (`src/scraper.py:57`) and `scrape_all_users` (`src/scraper.py:28`) both write Accounts, and their interleavings are not represented.
- The no-argument call `get_usernames_batch(steem)` is modelled as the request for the first batch. Its positional binding is in `helpers.py`, which is not part of this model.
