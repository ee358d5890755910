/**
 * What the scraper's jobs do to the store, as functions over snapshots:
 * one step per stream operation or per scanned username, folded over a
 * prefix of the input. The methods in module Scraper are proved to
 * produce exactly these snapshots.
 */
module ScraperSpec {
  import opened Records
  import opened Storage

  /** What a job consults besides the store's contents: its unique indexes, the Steem client, the clock. */
  datatype Env = Env(ix: Indexes, up: Upstream, clock: nat -> Time)

  const CommentType := "comment"
  const AccountCreateType := "account_create"

  /**
   * The Posts identifier of a post: "@author/permlink". The author and the
   * permlink sit at fixed positions, so they can be read back from it.
   */
  function PostIdentifier(author: string, permlink: string): (id: string)
    ensures |id| == |author| + |permlink| + 2
    ensures id[0] == '@' && id[|author| + 1] == '/'
    ensures id[1..|author| + 1] == author && id[|author| + 2..] == permlink
  {
    "@" + author + "/" + permlink
  }

  /**
   * Steem account names contain no '/', so two posts with the same
   * identifier have the same author and the same permlink: the Posts key
   * tells posts apart.
   */
  lemma PostIdentifierInjective(author1: string, permlink1: string, author2: string, permlink2: string)
    requires '/' !in author1 && '/' !in author2
    requires PostIdentifier(author1, permlink1) == PostIdentifier(author2, permlink2)
    ensures author1 == author2 && permlink1 == permlink2
  {
  }

  /**
   * A comment operation that opens a thread: no parent author and not a
   * reply by `is_comment`. Such an operation never also creates an account.
   */
  predicate IsTopLevelPost(raw: RawOp, norm: Normalizer)
    ensures IsTopLevelPost(raw, norm) ==> !IsAccountCreation(raw)
    ensures raw.parentAuthor != "" || norm.isComment(raw) ==> !IsTopLevelPost(raw, norm)
  {
    raw.kind == CommentType && raw.parentAuthor == "" && !norm.isComment(raw)
  }

  /** An operation that creates an account; it is never a comment, so it never fires the post trigger. */
  predicate IsAccountCreation(raw: RawOp)
    ensures IsAccountCreation(raw) ==> raw.kind != CommentType
  {
    raw.kind == AccountCreateType
  }

  // ---------------------------------------------------------------------------
  // Derived-entity upserts

  /** The Posts collection after an upsert whose fetch returned `fetched`. */
  function PutPost(posts: map<string, PostDoc>, fetched: Option<PostExport>): map<string, PostDoc>
  {
    match fetched
    case None => posts
    case Some(p) => posts[p.identifier := PostDoc(p, [])]
  }

  /** The Accounts collection after replacing the document of `state.name`. */
  function PutAccount(accounts: map<string, AccountDoc>, state: AccountState, now: Time): map<string, AccountDoc>
  {
    accounts[state.name := AccountDoc(state, now)]
  }

  /** `upsert_post(identifier)`. */
  function UpsertPostSpec(db: Db, up: Upstream, identifier: string): Db
  {
    db.(posts := PutPost(db.posts, up.post(identifier)))
  }

  /** `update_account(username)` at time `now`; None when the account fetch raises. */
  function UpdateAccountSpec(db: Db, up: Upstream, username: string, now: Time): Option<Db>
  {
    match up.account(username)
    case None => None
    case Some(a) => Some(db.(accounts := PutAccount(db.accounts, a, now)))
  }

  // ---------------------------------------------------------------------------
  // Account history

  /** The `index` values stored in AccountOperations for `account`. */
  function StoredIndexes(accountOps: map<Key, AccountOp>, account: string): set<int>
  {
    set k | k in accountOps && accountOps[k].account == account && accountOps[k].index.Some? :: accountOps[k].index.value
  }

  function Max(s: set<int>): (x: int)
    requires s != {}
    ensures x in s && forall y :: y in s ==> y <= x
  {
    MaxExists(s);
    var x :| x in s && forall y :: y in s ==> y <= x;
    x
  }

  /**
   * The history index `update_account_ops` starts fetching at: the highest
   * stored index of the account when `fromLastIndex` holds, otherwise 0.
   * A descending sort on 'index' puts documents without that field last,
   * and `.get('index', 0)` reads such a document as 0.
   */
  function StartIndex(accountOps: map<Key, AccountOp>, account: string, fromLastIndex: bool): int
  {
    if !fromLastIndex then 0
    else if !(exists k :: k in accountOps && accountOps[k].account == account) then 0
    else
      var indexes := StoredIndexes(accountOps, account);
      if indexes == {} then 0 else Max(indexes)
  }

  /**
   * The start index is 0 when `fromLastIndex` is off or the account has no
   * stored index; otherwise it is the highest stored index itself (not one
   * past it).
   */
  lemma StartIndexIsHighest(accountOps: map<Key, AccountOp>, account: string, fromLastIndex: bool)
    ensures var start := StartIndex(accountOps, account, fromLastIndex);
      && (!fromLastIndex || StoredIndexes(accountOps, account) == {} ==> start == 0)
      && (fromLastIndex && StoredIndexes(accountOps, account) != {} ==>
            && start in StoredIndexes(accountOps, account)
            && forall i :: i in StoredIndexes(accountOps, account) ==> i <= start)
  {
    var indexes := StoredIndexes(accountOps, account);
    if fromLastIndex && indexes != {} {
      NonEmptyHasMember(indexes);
      var i :| i in indexes;
      var k :| k in accountOps && accountOps[k].account == account && accountOps[k].index == Some(i);
      assert exists k :: k in accountOps && accountOps[k].account == account;
    }
  }

  /** `update_account_ops(username, fromLastIndex)`; None when the account fetch raises. */
  function UpdateAccountOpsSpec(db: Db, ix: Indexes, up: Upstream, username: string, fromLastIndex: bool): Option<Db>
  {
    var start := StartIndex(db.accountOps, username, fromLastIndex);
    if up.account(username).None? then None
    else Some(db.(accountOps := InsertAll(db.accountOps, ix.event, up.history(username, start))))
  }

  // ---------------------------------------------------------------------------
  // Operation ingestion

  /**
   * The state of `scrape_operations` between two operations: the store and
   * the local `last_block`, or the store as it was when operation `at`
   * raised (its account fetch failed).
   */
  datatype Run = Running(db: Db, tracked: int) | Halted(db: Db, at: nat)

  /** The block number `scrape_operations` reads from operation `raw`, after `typify`. */
  function BlockOf(norm: Normalizer, raw: RawOp): int
  {
    norm.typify(raw).blockNum
  }

  /** One iteration of the loop of `scrape_operations`, for the `i`-th operation `raw`. */
  function IngestStep(db: Db, tracked: int, raw: RawOp, i: nat, norm: Normalizer, env: Env): Run
  {
    var db1 := if IsTopLevelPost(raw, norm)
      then UpsertPostSpec(db, env.up, PostIdentifier(raw.author, raw.permlink))
      else db;
    var created := if IsAccountCreation(raw)
      then UpdateAccountSpec(db1, env.up, raw.newAccountName, env.clock(i))
      else Some(db1);
    match created
    case None => Halted(db1, i)
    case Some(db2) =>
      var op := norm.typify(raw);
      var db3 := db2.(operations := InsertUnique(db2.operations, env.ix.op, op));
      if op.blockNum != tracked then Running(db3.(lastBlock := op.blockNum - 1), op.blockNum)
      else Running(db3, tracked)
  }

  /** `scrape_operations` after the first `n` operations of `history`, starting from `db0`. */
  function Ingest(db0: Db, history: seq<RawOp>, n: nat, norm: Normalizer, env: Env): Run
    requires n <= |history|
  {
    if n == 0 then Running(db0, db0.lastBlock)
    else
      match Ingest(db0, history, n - 1, norm, env)
      case Halted(db, at) => Halted(db, at)
      case Running(db, tracked) => IngestStep(db, tracked, history[n - 1], n - 1, norm, env)
  }

  /** Once an operation has raised, later operations change nothing. */
  lemma {:induction false} IngestHaltIsFinal(db0: Db, history: seq<RawOp>, n: nat, m: nat, norm: Normalizer, env: Env)
    requires n <= m <= |history|
    requires Ingest(db0, history, n, norm, env).Halted?
    ensures Ingest(db0, history, m, norm, env) == Ingest(db0, history, n, norm, env)
    ensures Ingest(db0, history, n, norm, env).at < n
    decreases m
  {
    if m > n {
      IngestHaltIsFinal(db0, history, n, m - 1, norm, env);
    } else if n > 0 && Ingest(db0, history, n - 1, norm, env).Halted? {
      IngestHaltIsFinal(db0, history, n - 1, n - 1, norm, env);
    }
  }

  // ---------------------------------------------------------------------------
  // Account scan

  /** The state of `scrape_all_users`: the store, or the store as it was when username `at` raised. */
  datatype Scan = Scanning(db: Db) | Stopped(db: Db, at: nat)

  /** One iteration of the loop of `scrape_all_users`, for the `i`-th username. */
  function ScanStep(db: Db, username: string, i: nat, env: Env): Scan
  {
    match UpdateAccountSpec(db, env.up, username, env.clock(i))
    case None => Stopped(db, i)
    case Some(db1) =>
      match UpdateAccountOpsSpec(db1, env.ix, env.up, username, true)
      case None => Stopped(db1, i)
      case Some(db2) => Scanning(db2.(accountCheckpoint := Some(After(username))))
  }

  /** The loop of `scrape_all_users` after the first `n` usernames of `batch`. */
  function ScanBatch(db0: Db, batch: seq<string>, n: nat, env: Env): Scan
    requires n <= |batch|
  {
    if n == 0 then Scanning(db0)
    else
      match ScanBatch(db0, batch, n - 1, env)
      case Stopped(db, at) => Stopped(db, at)
      case Scanning(db) => ScanStep(db, batch[n - 1], n - 1, env)
  }

  lemma {:induction false} ScanStopIsFinal(db0: Db, batch: seq<string>, n: nat, m: nat, env: Env)
    requires n <= m <= |batch|
    requires ScanBatch(db0, batch, n, env).Stopped?
    ensures ScanBatch(db0, batch, m, env) == ScanBatch(db0, batch, n, env)
    ensures ScanBatch(db0, batch, n, env).at < n
    decreases m
  {
    if m > n {
      ScanStopIsFinal(db0, batch, n, m - 1, env);
    } else if n > 0 && ScanBatch(db0, batch, n - 1, env).Stopped? {
      ScanStopIsFinal(db0, batch, n - 1, n - 1, env);
    }
  }

  /**
   * The usernames batch requested for a stored checkpoint. No checkpoint
   * and an empty username are falsy and request the first batch; a
   * username and the -1 written after the last batch are passed on as the
   * cursor.
   */
  function Batch(up: Upstream, checkpoint: Option<Cursor>): (batch: seq<string>)
    ensures checkpoint == None || checkpoint == Some(After("")) ==> batch == up.usernames(None)
    ensures checkpoint == Some(MinusOne) ==> batch == up.usernames(Some(MinusOne))
    ensures checkpoint.Some? && checkpoint.value.After? && checkpoint.value.username != "" ==>
      batch == up.usernames(checkpoint)
  {
    if Truthy(checkpoint) then up.usernames(checkpoint) else up.usernames(None)
  }

  /** `scrape_all_users`: scan the batch, then reset the cursor after a short resumed batch. */
  function ScrapeAllUsersSpec(db0: Db, env: Env): Scan
  {
    var batch := Batch(env.up, db0.accountCheckpoint);
    match ScanBatch(db0, batch, |batch|, env)
    case Stopped(db, at) => Stopped(db, at)
    case Scanning(db) =>
      if Truthy(db0.accountCheckpoint) && |batch| < PageSize
      then Scanning(db.(accountCheckpoint := Some(MinusOne)))
      else Scanning(db)
  }

  /** A scan that stopped at username `i` is the outcome of `scrape_all_users`. */
  lemma ScrapeAllUsersStopped(db0: Db, env: Env, i: nat)
    requires i < |Batch(env.up, db0.accountCheckpoint)|
    requires ScanBatch(db0, Batch(env.up, db0.accountCheckpoint), i + 1, env).Stopped?
    ensures ScrapeAllUsersSpec(db0, env) == ScanBatch(db0, Batch(env.up, db0.accountCheckpoint), i + 1, env)
  {
    var batch := Batch(env.up, db0.accountCheckpoint);
    ScanStopIsFinal(db0, batch, i + 1, |batch|, env);
  }

  /** A scan of the whole batch ends with the cursor reset exactly after a short resumed batch. */
  lemma ScrapeAllUsersScanned(db0: Db, env: Env, db: Db)
    requires ScanBatch(db0, Batch(env.up, db0.accountCheckpoint), |Batch(env.up, db0.accountCheckpoint)|, env) == Scanning(db)
    ensures ScrapeAllUsersSpec(db0, env) ==
      if Truthy(db0.accountCheckpoint) && |Batch(env.up, db0.accountCheckpoint)| < PageSize
      then Scanning(db.(accountCheckpoint := Some(MinusOne)))
      else Scanning(db)
  {
  }
}
