/**
 * The scraper's jobs as they run against the store: each method performs
 * the source's steps in order on a `Store` and is proved to leave exactly
 * the snapshot its specification function in ScraperSpec describes.
 */
module Scraper {
  import opened Records
  import opened Storage
  import opened ScraperSpec

  /** `upsert_post`: fetch the post and replace its document; a missing post is skipped. */
  method UpsertPost(mongo: Store, identifier: string, up: Upstream)
    requires mongo.Valid()
    modifies mongo
    ensures mongo.Valid()
    ensures mongo.Snapshot() == UpsertPostSpec(old(mongo.Snapshot()), up, identifier)
  {
    match up.post(identifier)
    case None =>
    case Some(p) =>
      mongo.ReplacePost(PostDoc(p, []));
  }

  /**
   * `update_account`: fetch the account and replace its document, stamped
   * with `now`. When the account does not exist the fetch raises: `ok` is
   * false and nothing is written.
   */
  method UpdateAccount(mongo: Store, up: Upstream, username: string, now: Time) returns (ok: bool)
    requires mongo.Valid()
    modifies mongo
    ensures mongo.Valid()
    ensures ok == up.account(username).Some?
    ensures UpdateAccountSpec(old(mongo.Snapshot()), up, username, now)
            == if ok then Some(mongo.Snapshot()) else None
    ensures !ok ==> mongo.Snapshot() == old(mongo.Snapshot())
  {
    match up.account(username)
    case None =>
      ok := false;
    case Some(a) =>
      mongo.ReplaceAccount(AccountDoc(a, now));
      ok := true;
  }

  /**
   * `update_account_ops`: insert the account's history from the start
   * index on, one event at a time, each under duplicate-key suppression.
   */
  method UpdateAccountOps(mongo: Store, up: Upstream, username: string, fromLastIndex: bool) returns (ok: bool)
    requires mongo.Valid()
    modifies mongo
    ensures mongo.Valid()
    ensures ok == up.account(username).Some?
    ensures UpdateAccountOpsSpec(old(mongo.Snapshot()), mongo.ix, up, username, fromLastIndex)
            == if ok then Some(mongo.Snapshot()) else None
    ensures !ok ==> mongo.Snapshot() == old(mongo.Snapshot())
  {
    var start := StartIndex(mongo.accountOps, username, fromLastIndex);
    if up.account(username).None? {
      return false;
    }
    var events := up.history(username, start);
    var i := 0;
    while i < |events|
      invariant 0 <= i <= |events|
      invariant mongo.Valid()
      invariant mongo.Snapshot()
                == old(mongo.Snapshot()).(accountOps := InsertAll(old(mongo.accountOps), mongo.ix.event, events[..i]))
    {
      var inserted := mongo.InsertAccountOp(events[i]);
      assert events[..i + 1][..i] == events[..i];
      i := i + 1;
    }
    assert events[..i] == events;
    ok := true;
  }

  /**
   * The body of the loop of `scrape_operations` for the `i`-th operation
   * `raw`, with `lastBlock` the block tracked so far: fire the triggers,
   * insert the typified operation, and move the checkpoint when the block
   * changes. `ok` is false when the account trigger raised.
   */
  method ProcessOperation(mongo: Store, raw: RawOp, i: nat, lastBlock: int, norm: Normalizer, up: Upstream, clock: nat -> Time)
    returns (ok: bool, newLastBlock: int)
    requires mongo.Valid()
    modifies mongo
    ensures mongo.Valid()
    ensures IngestStep(old(mongo.Snapshot()), lastBlock, raw, i, norm, Env(mongo.ix, up, clock))
            == if ok then Running(mongo.Snapshot(), newLastBlock) else Halted(mongo.Snapshot(), i)
  {
    newLastBlock := lastBlock;
    if IsTopLevelPost(raw, norm) {
      UpsertPost(mongo, PostIdentifier(raw.author, raw.permlink), up);
    }
    if IsAccountCreation(raw) {
      ok := UpdateAccount(mongo, up, raw.newAccountName, clock(i));
      if !ok {
        return;
      }
    }
    var op := norm.typify(raw);
    var inserted := mongo.InsertOperation(op);
    if op.blockNum != newLastBlock {
      newLastBlock := op.blockNum;
      mongo.UpdateLastBlock(newLastBlock - 1);
    }
    ok := true;
  }

  /**
   * `scrape_operations` over the finite prefix `history` of the replayed
   * stream, from the stored checkpoint on. Returns the position of the
   * operation that raised, if any.
   */
  method ScrapeOperations(mongo: Store, history: seq<RawOp>, norm: Normalizer, up: Upstream, clock: nat -> Time)
    returns (halted: Option<nat>)
    requires mongo.Valid()
    modifies mongo
    ensures mongo.Valid()
    ensures var r := Ingest(old(mongo.Snapshot()), history, |history|, norm, Env(mongo.ix, up, clock));
            && mongo.Snapshot() == r.db
            && halted == if r.Halted? then Some(r.at) else None
  {
    ghost var env := Env(mongo.ix, up, clock);
    ghost var db0 := mongo.Snapshot();
    var lastBlock := mongo.lastBlock;
    var i := 0;
    while i < |history|
      invariant 0 <= i <= |history|
      invariant mongo.Valid()
      invariant Ingest(db0, history, i, norm, env) == Running(mongo.Snapshot(), lastBlock)
    {
      var ok;
      ok, lastBlock := ProcessOperation(mongo, history[i], i, lastBlock, norm, up, clock);
      if !ok {
        IngestHaltIsFinal(db0, history, i + 1, |history|, norm, env);
        return Some(i);
      }
      i := i + 1;
    }
    return None;
  }

  /** The body of the loop of `scrape_all_users` for the `i`-th username. */
  method ScanUsername(mongo: Store, username: string, i: nat, up: Upstream, clock: nat -> Time) returns (ok: bool)
    requires mongo.Valid()
    modifies mongo
    ensures mongo.Valid()
    ensures ScanStep(old(mongo.Snapshot()), username, i, Env(mongo.ix, up, clock))
            == if ok then Scanning(mongo.Snapshot()) else Stopped(mongo.Snapshot(), i)
  {
    ok := UpdateAccount(mongo, up, username, clock(i));
    if !ok {
      return;
    }
    ok := UpdateAccountOps(mongo, up, username, true);
    if !ok {
      return;
    }
    mongo.SetAccountCheckpoint(After(username));
  }

  /**
   * `scrape_all_users`: refresh every account of the batch the stored
   * checkpoint selects, moving the checkpoint past each one, and reset it
   * to -1 after a short batch that resumed from a checkpoint.
   * Returns the position of the username that raised, if any.
   */
  method ScrapeAllUsers(mongo: Store, up: Upstream, clock: nat -> Time) returns (failedAt: Option<nat>)
    requires mongo.Valid()
    modifies mongo
    ensures mongo.Valid()
    ensures var r := ScrapeAllUsersSpec(old(mongo.Snapshot()), Env(mongo.ix, up, clock));
            && mongo.Snapshot() == r.db
            && failedAt == if r.Stopped? then Some(r.at) else None
  {
    ghost var env := Env(mongo.ix, up, clock);
    ghost var db0 := mongo.Snapshot();
    var checkpoint := mongo.accountCheckpoint;
    var usernames := if Truthy(checkpoint) then up.usernames(checkpoint) else up.usernames(None);
    assert usernames == Batch(up, db0.accountCheckpoint);
    var i := 0;
    while i < |usernames|
      invariant 0 <= i <= |usernames|
      invariant mongo.Valid()
      invariant ScanBatch(db0, usernames, i, env) == Scanning(mongo.Snapshot())
    {
      var ok := ScanUsername(mongo, usernames[i], i, up, clock);
      if !ok {
        ScrapeAllUsersStopped(db0, env, i);
        return Some(i);
      }
      i := i + 1;
    }
    ScrapeAllUsersScanned(db0, env, mongo.Snapshot());
    if Truthy(checkpoint) && |usernames| < PageSize {
      mongo.SetAccountCheckpoint(MinusOne);
    }
    return None;
  }
}
