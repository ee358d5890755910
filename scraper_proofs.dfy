/**
 * Properties of the scraper's jobs, proved about the specification
 * functions that the methods of module Scraper are shown to follow.
 */
module ScraperProofs {
  import opened Records
  import opened Storage
  import opened ScraperSpec

  // ---------------------------------------------------------------------------
  // Nothing is ever deleted

  lemma {:induction false} RetainsTransitive(a: Db, b: Db, c: Db)
    requires Retains(a, b) && Retains(b, c)
    ensures Retains(a, c)
  {
  }

  /** Each upsert, insert and checkpoint write only adds or replaces documents. */
  lemma {:induction false} IngestStepRetains(db: Db, tracked: int, raw: RawOp, i: nat, norm: Normalizer, env: Env)
    ensures Retains(db, IngestStep(db, tracked, raw, i, norm, env).db)
  {
    var db1 := if IsTopLevelPost(raw, norm)
      then UpsertPostSpec(db, env.up, PostIdentifier(raw.author, raw.permlink))
      else db;
    assert Retains(db, db1);
    var created := if IsAccountCreation(raw)
      then UpdateAccountSpec(db1, env.up, raw.newAccountName, env.clock(i))
      else Some(db1);
    if created.Some? {
      var db2 := created.value;
      assert Retains(db1, db2);
      RetainsTransitive(db, db1, db2);
      var ops := InsertUnique(db2.operations, env.ix.op, norm.typify(raw));
      assert Retains(db2, db2.(operations := ops));
      RetainsTransitive(db, db2, db2.(operations := ops));
    }
  }

  /** The account `raw` creates and the top-level post it opens are stored, whenever they exist upstream. */
  ghost predicate DerivedStored(raw: RawOp, norm: Normalizer, up: Upstream, db: Db)
  {
    && (IsAccountCreation(raw) ==>
          up.account(raw.newAccountName).Some? && up.account(raw.newAccountName).value.name in db.accounts)
    && (IsTopLevelPost(raw, norm) && up.post(PostIdentifier(raw.author, raw.permlink)).Some? ==>
          up.post(PostIdentifier(raw.author, raw.permlink)).value.identifier in db.posts)
  }

  /**
   * The documents the triggers of the `i`-th operation `raw` wrote hold
   * what was just fetched: the created account stamped with the clock at
   * that step, the opened post with an empty `replies` list.
   */
  ghost predicate Refreshed(raw: RawOp, i: nat, norm: Normalizer, env: Env, db: Db)
  {
    && (IsAccountCreation(raw) && env.up.account(raw.newAccountName).Some? ==>
          var a := env.up.account(raw.newAccountName).value;
          a.name in db.accounts && db.accounts[a.name] == AccountDoc(a, env.clock(i)))
    && (IsTopLevelPost(raw, norm) && env.up.post(PostIdentifier(raw.author, raw.permlink)).Some? ==>
          var p := env.up.post(PostIdentifier(raw.author, raw.permlink)).value;
          p.identifier in db.posts && db.posts[p.identifier] == PostDoc(p, []))
  }

  /**
   * A step that completes stores its operation, and replaces the documents
   * of the account it creates and of the top-level post it opens with their
   * freshly fetched state, whenever those exist upstream.
   */
  lemma {:induction false} IngestStepStores(db: Db, tracked: int, raw: RawOp, i: nat, norm: Normalizer, env: Env)
    requires IngestStep(db, tracked, raw, i, norm, env).Running?
    ensures var after := IngestStep(db, tracked, raw, i, norm, env).db;
      && env.ix.op(norm.typify(raw)) in after.operations
      && DerivedStored(raw, norm, env.up, after)
      && Refreshed(raw, i, norm, env, after)
  {
  }

  /** One more operation of the stream: what the step adds to the run so far. */
  lemma {:induction false} IngestNext(db0: Db, history: seq<RawOp>, n: nat, norm: Normalizer, env: Env)
    requires 0 < n <= |history|
    ensures var prev := Ingest(db0, history, n - 1, norm, env);
      var r := Ingest(db0, history, n, norm, env);
      && (prev.Halted? ==> r == prev)
      && (prev.Running? && r.Halted? ==> r.at == n - 1)
      && Retains(prev.db, r.db)
      && (r.Running? ==> prev.Running?)
      && (r.Running? ==> env.ix.op(norm.typify(history[n - 1])) in r.db.operations)
      && (r.Running? ==> DerivedStored(history[n - 1], norm, env.up, r.db))
  {
    var prev := Ingest(db0, history, n - 1, norm, env);
    if prev.Running? {
      IngestStepRetains(prev.db, prev.tracked, history[n - 1], n - 1, norm, env);
      if IngestStep(prev.db, prev.tracked, history[n - 1], n - 1, norm, env).Running? {
        IngestStepStores(prev.db, prev.tracked, history[n - 1], n - 1, norm, env);
      }
    }
  }

  /** A run still going after the `n`-th operation holds what that operation's triggers just fetched. */
  lemma {:induction false} IngestNextRefreshed(db0: Db, history: seq<RawOp>, n: nat, norm: Normalizer, env: Env)
    requires 0 < n <= |history|
    requires Ingest(db0, history, n, norm, env).Running?
    ensures Refreshed(history[n - 1], n - 1, norm, env, Ingest(db0, history, n, norm, env).db)
  {
    var prev := Ingest(db0, history, n - 1, norm, env);
    assert prev.Running?;
    IngestStepStores(prev.db, prev.tracked, history[n - 1], n - 1, norm, env);
  }

  /** `scrape_operations` never loses a record of Operations, Accounts or Posts. */
  lemma {:induction false} IngestRetains(db0: Db, history: seq<RawOp>, n: nat, norm: Normalizer, env: Env)
    requires n <= |history|
    ensures Retains(db0, Ingest(db0, history, n, norm, env).db)
  {
    if n > 0 {
      IngestRetains(db0, history, n - 1, norm, env);
      IngestNext(db0, history, n, norm, env);
      RetainsTransitive(db0, Ingest(db0, history, n - 1, norm, env).db, Ingest(db0, history, n, norm, env).db);
    }
  }

  /** `update_account_ops` never loses or rewrites an AccountOperations record. */
  lemma {:induction false} UpdateAccountOpsRetains(db: Db, ix: Indexes, up: Upstream, username: string, fromLastIndex: bool)
    requires UpdateAccountOpsSpec(db, ix, up, username, fromLastIndex).Some?
    ensures Retains(db, UpdateAccountOpsSpec(db, ix, up, username, fromLastIndex).value)
  {
    InsertAllGrows(db.accountOps, ix.event, up.history(username, StartIndex(db.accountOps, username, fromLastIndex)));
  }

  lemma {:induction false} ScanStepRetains(db: Db, username: string, i: nat, env: Env)
    ensures Retains(db, ScanStep(db, username, i, env).db)
  {
    match UpdateAccountSpec(db, env.up, username, env.clock(i))
    case None =>
    case Some(db1) =>
      match UpdateAccountOpsSpec(db1, env.ix, env.up, username, true)
      case None =>
      case Some(db2) =>
        UpdateAccountOpsRetains(db1, env.ix, env.up, username, true);
        RetainsTransitive(db, db1, db2);
  }

  /** One more username of the batch: what the step adds to the scan so far. */
  lemma {:induction false} ScanNext(db0: Db, batch: seq<string>, n: nat, env: Env)
    requires 0 < n <= |batch|
    ensures var prev := ScanBatch(db0, batch, n - 1, env);
      var r := ScanBatch(db0, batch, n, env);
      && (prev.Stopped? ==> r == prev)
      && (prev.Scanning? ==> r == ScanStep(prev.db, batch[n - 1], n - 1, env))
      && Retains(prev.db, r.db)
      && (r.Scanning? ==> prev.Scanning?)
      && (r.Scanning? ==> r.db.accountCheckpoint == Some(After(batch[n - 1])))
      && (prev.Scanning? && r.Stopped? ==> r.at == n - 1 && r.db.accountCheckpoint == prev.db.accountCheckpoint)
      && (r.Scanning? ==>
            && env.up.account(batch[n - 1]).Some?
            && r.db.accounts == PutAccount(prev.db.accounts, env.up.account(batch[n - 1]).value, env.clock(n - 1)))
  {
    var prev := ScanBatch(db0, batch, n - 1, env);
    if prev.Scanning? {
      ScanStepRetains(prev.db, batch[n - 1], n - 1, env);
    }
  }

  /** `scrape_all_users` never loses a record. */
  lemma {:induction false} ScanRetains(db0: Db, batch: seq<string>, n: nat, env: Env)
    requires n <= |batch|
    ensures Retains(db0, ScanBatch(db0, batch, n, env).db)
  {
    if n > 0 {
      ScanRetains(db0, batch, n - 1, env);
      ScanNext(db0, batch, n, env);
      RetainsTransitive(db0, ScanBatch(db0, batch, n - 1, env).db, ScanBatch(db0, batch, n, env).db);
    }
  }

  // ---------------------------------------------------------------------------
  // The ingestion loop

  /**
   * The operation that raised was the account trigger of an account_create
   * operation whose account does not exist, and the run stopped before that
   * operation was inserted or the checkpoint moved: the store is exactly
   * as the preceding operations left it.
   */
  lemma {:induction false} HaltedBeforeInsert(db0: Db, history: seq<RawOp>, n: nat, norm: Normalizer, env: Env)
    requires n <= |history|
    requires Ingest(db0, history, n, norm, env).Halted?
    ensures var r := Ingest(db0, history, n, norm, env);
      && r.at < n
      && IsAccountCreation(history[r.at])
      && env.up.account(history[r.at].newAccountName).None?
      && Ingest(db0, history, r.at, norm, env).Running?
      && Ingest(db0, history, r.at, norm, env).db == r.db
      && Ingest(db0, history, r.at + 1, norm, env) == r
  {
    var prev := Ingest(db0, history, n - 1, norm, env);
    if prev.Halted? {
      HaltedBeforeInsert(db0, history, n - 1, norm, env);
    } else {
      var raw := history[n - 1];
      assert IsAccountCreation(raw) ==> !IsTopLevelPost(raw, norm);
    }
  }

  /**
   * The triggers fire only on their own operations: Posts changes only for
   * a top-level comment, Accounts only for an account creation, and only
   * an account creation can stop the run. No step touches the account
   * history or the account scan cursor.
   */
  lemma {:induction false} TriggersOnlyWhenMatched(db: Db, tracked: int, raw: RawOp, i: nat, norm: Normalizer, env: Env)
    ensures var r := IngestStep(db, tracked, raw, i, norm, env);
      && (!IsTopLevelPost(raw, norm) ==> r.db.posts == db.posts)
      && (!IsAccountCreation(raw) ==> r.Running? && r.db.accounts == db.accounts)
      && (IsAccountCreation(raw) ==> !IsTopLevelPost(raw, norm))
      && r.db.accountOps == db.accountOps
      && r.db.accountCheckpoint == db.accountCheckpoint
  {
  }

  /** The stream is replayed in block order, from the stored checkpoint on. */
  ghost predicate ReplayOrder(norm: Normalizer, history: seq<RawOp>, start: int)
  {
    && (forall i, j :: 0 <= i <= j < |history| ==> BlockOf(norm, history[i]) <= BlockOf(norm, history[j]))
    && (forall i :: 0 <= i < |history| ==> start <= BlockOf(norm, history[i]))
  }

  /** A run that has not raised by `m` had not raised at any earlier point. */
  lemma {:induction false} RunningBefore(db0: Db, history: seq<RawOp>, n: nat, m: nat, norm: Normalizer, env: Env)
    requires n <= m <= |history|
    requires Ingest(db0, history, m, norm, env).Running?
    ensures Ingest(db0, history, n, norm, env).Running?
  {
    if Ingest(db0, history, n, norm, env).Halted? {
      IngestHaltIsFinal(db0, history, n, m, norm, env);
    }
  }

  /**
   * The checkpoint lags one block behind: after the `n`-th operation, at
   * block b, the tracked block is b and the stored checkpoint is b - 1,
   * unless b is still the block the run started from, which is never
   * written.
   */
  lemma {:induction false} CheckpointTrailsBlock(db0: Db, history: seq<RawOp>, n: nat, norm: Normalizer, env: Env)
    requires ReplayOrder(norm, history, db0.lastBlock)
    requires 0 < n <= |history|
    requires Ingest(db0, history, n, norm, env).Running?
    ensures var r := Ingest(db0, history, n, norm, env);
      var b := BlockOf(norm, history[n - 1]);
      && r.tracked == b
      && r.db.lastBlock == if b == db0.lastBlock then b else b - 1
  {
    RunningBefore(db0, history, n - 1, n, norm, env);
    if n > 1 {
      CheckpointTrailsBlock(db0, history, n - 1, norm, env);
      assert BlockOf(norm, history[n - 2]) <= BlockOf(norm, history[n - 1]);
    }
  }

  /** Between two points of a run that has not raised, the stored checkpoint does not decrease. */
  lemma {:induction false} CheckpointMonotoneWhileRunning(db0: Db, history: seq<RawOp>, i: nat, j: nat, norm: Normalizer, env: Env)
    requires ReplayOrder(norm, history, db0.lastBlock)
    requires i <= j <= |history|
    requires Ingest(db0, history, j, norm, env).Running?
    ensures Ingest(db0, history, i, norm, env).db.lastBlock <= Ingest(db0, history, j, norm, env).db.lastBlock
  {
    RunningBefore(db0, history, i, j, norm, env);
    if j > 0 {
      CheckpointTrailsBlock(db0, history, j, norm, env);
      if i > 0 {
        CheckpointTrailsBlock(db0, history, i, norm, env);
        assert BlockOf(norm, history[i - 1]) <= BlockOf(norm, history[j - 1]);
      } else {
        assert db0.lastBlock <= BlockOf(norm, history[j - 1]);
      }
    }
  }

  /** A point of a run at which it had not raised lies at or before the operation that raised. */
  lemma {:induction false} RunningUntilHalt(db0: Db, history: seq<RawOp>, i: nat, j: nat, norm: Normalizer, env: Env)
    requires i <= j <= |history|
    requires Ingest(db0, history, i, norm, env).Running?
    requires Ingest(db0, history, j, norm, env).Halted?
    ensures i <= Ingest(db0, history, j, norm, env).at
  {
    IngestNext(db0, history, j, norm, env);
    if Ingest(db0, history, j - 1, norm, env).Halted? {
      RunningUntilHalt(db0, history, i, j - 1, norm, env);
    }
  }

  /**
   * With the stream in block order the stored checkpoint never decreases
   * along a run, whether or not the run raised.
   */
  lemma {:induction false} CheckpointNeverDecreases(db0: Db, history: seq<RawOp>, i: nat, j: nat, norm: Normalizer, env: Env)
    requires ReplayOrder(norm, history, db0.lastBlock)
    requires i <= j <= |history|
    ensures Ingest(db0, history, i, norm, env).db.lastBlock <= Ingest(db0, history, j, norm, env).db.lastBlock
  {
    var ri, rj := Ingest(db0, history, i, norm, env), Ingest(db0, history, j, norm, env);
    if ri.Halted? {
      IngestHaltIsFinal(db0, history, i, j, norm, env);
    } else if rj.Running? {
      CheckpointMonotoneWhileRunning(db0, history, i, j, norm, env);
    } else {
      RunningUntilHalt(db0, history, i, j, norm, env);
      HaltedBeforeInsert(db0, history, j, norm, env);
      CheckpointMonotoneWhileRunning(db0, history, i, rj.at, norm, env);
    }
  }

  /** Every operation processed by a run that has not raised is stored. */
  lemma {:induction false} ProcessedOpsStored(db0: Db, history: seq<RawOp>, n: nat, norm: Normalizer, env: Env)
    requires n <= |history|
    requires Ingest(db0, history, n, norm, env).Running?
    ensures forall j :: 0 <= j < n ==> env.ix.op(norm.typify(history[j])) in Ingest(db0, history, n, norm, env).db.operations
  {
    if n > 0 {
      IngestNext(db0, history, n, norm, env);
      ProcessedOpsStored(db0, history, n - 1, norm, env);
    }
  }

  /**
   * No gap: whenever the run stops, by raising or at the end of the input,
   * every operation of the stream whose block lies below the stored
   * checkpoint is already in Operations, so a restart that replays from
   * the checkpoint misses nothing.
   */
  lemma {:induction false} NoGapBelowCheckpoint(db0: Db, history: seq<RawOp>, n: nat, norm: Normalizer, env: Env)
    requires ReplayOrder(norm, history, db0.lastBlock)
    requires n <= |history|
    ensures var r := Ingest(db0, history, n, norm, env);
      forall j :: 0 <= j < |history| && BlockOf(norm, history[j]) < r.db.lastBlock ==>
        env.ix.op(norm.typify(history[j])) in r.db.operations
  {
    var r := Ingest(db0, history, n, norm, env);
    var p := n;
    if r.Halted? {
      HaltedBeforeInsert(db0, history, n, norm, env);
      p := r.at;
    }
    assert Ingest(db0, history, p, norm, env) == Running(r.db, Ingest(db0, history, p, norm, env).tracked);
    ProcessedOpsStored(db0, history, p, norm, env);
    if p > 0 {
      CheckpointTrailsBlock(db0, history, p, norm, env);
    }
  }

  /** A step with no trigger inserts the operation and moves the checkpoint on a block change. */
  lemma {:induction false} PlainStep(db: Db, tracked: int, raw: RawOp, i: nat, norm: Normalizer, env: Env)
    requires !IsTopLevelPost(raw, norm) && !IsAccountCreation(raw)
    ensures var b := BlockOf(norm, raw);
      var ops := InsertUnique(db.operations, env.ix.op, norm.typify(raw));
      IngestStep(db, tracked, raw, i, norm, env) ==
        if b != tracked then Running(db.(operations := ops, lastBlock := b - 1), b)
        else Running(db.(operations := ops), tracked)
  {
  }

  /**
   * From checkpoint 99, the stream [100, 100, 101, 102] in which block 100
   * is delivered twice stores three operations and leaves the checkpoint at 101.
   */
  lemma {:induction false} ReplayScenario(db0: Db, a: RawOp, b: RawOp, c: RawOp, norm: Normalizer, env: Env)
    requires db0.lastBlock == 99 && db0.operations == map[]
    requires !IsTopLevelPost(a, norm) && !IsTopLevelPost(b, norm) && !IsTopLevelPost(c, norm)
    requires !IsAccountCreation(a) && !IsAccountCreation(b) && !IsAccountCreation(c)
    requires BlockOf(norm, a) == 100 && BlockOf(norm, b) == 101 && BlockOf(norm, c) == 102
    requires var ka, kb, kc := env.ix.op(norm.typify(a)), env.ix.op(norm.typify(b)), env.ix.op(norm.typify(c));
      ka != kb && kb != kc && ka != kc
    ensures var r := Ingest(db0, [a, a, b, c], 4, norm, env);
      && r.Running?
      && |r.db.operations| == 3
      && r.db.lastBlock == 101
  {
    var h := [a, a, b, c];
    var oa, ob, oc := norm.typify(a), norm.typify(b), norm.typify(c);
    var ka, kb, kc := env.ix.op(oa), env.ix.op(ob), env.ix.op(oc);
    var ops1 := map[ka := oa];
    var ops3 := ops1[kb := ob];
    var ops4 := ops3[kc := oc];
    PlainStep(db0, 99, a, 0, norm, env);
    assert Ingest(db0, h, 1, norm, env) == Running(db0.(operations := ops1), 100);
    PlainStep(db0.(operations := ops1), 100, a, 1, norm, env);
    assert Ingest(db0, h, 2, norm, env) == Running(db0.(operations := ops1), 100);
    PlainStep(db0.(operations := ops1), 100, b, 2, norm, env);
    assert Ingest(db0, h, 3, norm, env) == Running(db0.(operations := ops3, lastBlock := 100), 101);
    PlainStep(db0.(operations := ops3, lastBlock := 100), 101, c, 3, norm, env);
    assert Ingest(db0, h, 4, norm, env) == Running(db0.(operations := ops4, lastBlock := 101), 102);
    assert ops4.Keys == {ka, kb, kc};
  }

  /**
   * The derived entities follow the log: after the run, every created
   * account that exists upstream has an Accounts document, and every
   * top-level post that exists upstream has a Posts document.
   */
  lemma {:induction false} DerivedEntitiesPresent(db0: Db, history: seq<RawOp>, n: nat, norm: Normalizer, env: Env)
    requires n <= |history|
    requires Ingest(db0, history, n, norm, env).Running?
    ensures forall j :: 0 <= j < n ==> DerivedStored(history[j], norm, env.up, Ingest(db0, history, n, norm, env).db)
  {
    if n > 0 {
      IngestNext(db0, history, n, norm, env);
      DerivedEntitiesPresent(db0, history, n - 1, norm, env);
      var prev := Ingest(db0, history, n - 1, norm, env).db;
      var db := Ingest(db0, history, n, norm, env).db;
      forall j | 0 <= j < n - 1
        ensures DerivedStored(history[j], norm, env.up, db)
      {
        assert DerivedStored(history[j], norm, env.up, prev);
      }
    }
  }

  // ---------------------------------------------------------------------------
  // Upserts are full replacements

  /**
   * Upserting a post is a full replace by identifier: a post missing
   * upstream changes nothing, and a second upsert of the same post leaves
   * one document holding the state fetched last.
   */
  lemma {:induction false} UpsertPostLastWins(db: Db, first: Upstream, second: Upstream, identifier: string)
    requires first.post(identifier).Some? && second.post(identifier).Some? ==>
      first.post(identifier).value.identifier == second.post(identifier).value.identifier
    ensures second.post(identifier).None? ==>
      UpsertPostSpec(UpsertPostSpec(db, first, identifier), second, identifier) == UpsertPostSpec(db, first, identifier)
    ensures second.post(identifier).Some? ==>
      UpsertPostSpec(UpsertPostSpec(db, first, identifier), second, identifier) == UpsertPostSpec(db, second, identifier)
    ensures UpsertPostSpec(UpsertPostSpec(db, first, identifier), first, identifier) == UpsertPostSpec(db, first, identifier)
  {
  }

  /**
   * Upserting an account twice leaves one document for that name, holding
   * the state and time of the second fetch; the collection grows by at
   * most that one name.
   */
  lemma {:induction false} UpdateAccountLastWins(db: Db, first: Upstream, second: Upstream, username: string, t1: Time, t2: Time)
    requires first.account(username).Some? && second.account(username).Some?
    requires first.account(username).value.name == second.account(username).value.name
    ensures var once := UpdateAccountSpec(db, first, username, t1).value;
      var twice := UpdateAccountSpec(once, second, username, t2).value;
      && twice == UpdateAccountSpec(db, second, username, t2).value
      && twice.accounts[second.account(username).value.name] == AccountDoc(second.account(username).value, t2)
      && twice.accounts.Keys == db.accounts.Keys + {second.account(username).value.name}
  {
  }

  // ---------------------------------------------------------------------------
  // Account history

  /** Inserting documents whose keys are all stored already changes nothing. */
  lemma {:induction false} InsertAllAbsorbsStored<V>(m: map<Key, V>, key: V -> Key, vs: seq<V>)
    requires KeysOf(vs, key) <= m.Keys
    ensures InsertAll(m, key, vs) == m
    decreases |vs|
  {
    if vs != [] {
      var front := vs[..|vs| - 1];
      assert KeysOf(front, key) <= KeysOf(vs, key);
      InsertAllAbsorbsStored(m, key, front);
    }
  }

  /** Re-inserting the same history is a no-op. */
  lemma {:induction false} InsertAllIdempotent<V>(m: map<Key, V>, key: V -> Key, vs: seq<V>)
    ensures InsertAll(InsertAll(m, key, vs), key, vs) == InsertAll(m, key, vs)
  {
    InsertAllGrows(m, key, vs);
    InsertAllAbsorbsStored(InsertAll(m, key, vs), key, vs);
  }

  /** The AccountOperations key is determined by the account and the history index. */
  ghost predicate KeyedByAccountIndex(key: AccountOp -> Key)
  {
    forall a: AccountOp, b: AccountOp :: a.account == b.account && a.index == b.index ==> key(a) == key(b)
  }

  /** Some stored history document has this account and index. */
  ghost predicate Present(accountOps: map<Key, AccountOp>, account: string, index: Option<int>)
  {
    exists k :: k in accountOps && accountOps[k].account == account && accountOps[k].index == index
  }

  /**
   * `update_account_ops` adds no record for an (account, index) already
   * stored, and leaves every stored record as it was.
   */
  lemma {:induction false} UpdateAccountOpsAddsOnlyNew(db: Db, ix: Indexes, up: Upstream, username: string, fromLastIndex: bool)
    requires Consistent(db, ix) && KeyedByAccountIndex(ix.event)
    requires UpdateAccountOpsSpec(db, ix, up, username, fromLastIndex).Some?
    ensures var after := UpdateAccountOpsSpec(db, ix, up, username, fromLastIndex).value.accountOps;
      && (forall k :: k in db.accountOps ==> k in after && after[k] == db.accountOps[k])
      && (forall k :: k in after && k !in db.accountOps ==> !Present(db.accountOps, after[k].account, after[k].index))
  {
    var events := up.history(username, StartIndex(db.accountOps, username, fromLastIndex));
    InsertAllGrows(db.accountOps, ix.event, events);
  }

  /**
   * Resuming at the highest stored index re-fetches that event; its key is
   * already stored, so the duplicate is absorbed and the stored document kept.
   */
  lemma {:induction false} ResumeOverlapAbsorbed(db: Db, ix: Indexes, up: Upstream, username: string, e: AccountOp)
    requires Consistent(db, ix) && KeyedByAccountIndex(ix.event)
    requires StoredIndexes(db.accountOps, username) != {}
    requires up.account(username).Some?
    requires e.account == username && e.index == Some(StartIndex(db.accountOps, username, true))
    ensures ix.event(e) in db.accountOps
    ensures var after := UpdateAccountOpsSpec(db, ix, up, username, true).value.accountOps;
      ix.event(e) in after && after[ix.event(e)] == db.accountOps[ix.event(e)]
  {
    var start := StartIndex(db.accountOps, username, true);
    StartIndexIsHighest(db.accountOps, username, true);
    InsertAllGrows(db.accountOps, ix.event, up.history(username, start));
    assert start in StoredIndexes(db.accountOps, username);
    var k :| k in db.accountOps && db.accountOps[k].account == username
             && db.accountOps[k].index.Some? && db.accountOps[k].index.value == start;
    assert ix.event(db.accountOps[k]) == ix.event(e);
  }

  // ---------------------------------------------------------------------------
  // The account scan cursor

  /**
   * While scanning, the stored cursor is the last username processed; a
   * username that raised leaves the cursor at the one before it.
   */
  lemma {:induction false} ScanCursorFollowsBatch(db0: Db, batch: seq<string>, n: nat, env: Env)
    requires n <= |batch|
    ensures var r := ScanBatch(db0, batch, n, env);
      && (r.Scanning? ==> r.db.accountCheckpoint == if n == 0 then db0.accountCheckpoint else Some(After(batch[n - 1])))
      && (r.Stopped? ==> r.at < n && r.db.accountCheckpoint == if r.at == 0 then db0.accountCheckpoint else Some(After(batch[r.at - 1])))
  {
    if n > 0 {
      ScanNext(db0, batch, n, env);
      ScanCursorFollowsBatch(db0, batch, n - 1, env);
    }
  }

  /**
   * `scrape_all_users` leaves the cursor at the last username of the
   * batch, except that a resumed run (a checkpoint was set) whose batch is
   * shorter than a page resets it to -1; a first run never resets it, and
   * a run that raised never does.
   */
  lemma {:induction false} ScrapeAllUsersCursor(db0: Db, env: Env)
    ensures var batch := Batch(env.up, db0.accountCheckpoint);
      var r := ScrapeAllUsersSpec(db0, env);
      var cp := db0.accountCheckpoint;
      && (r.Scanning? ==>
            r.db.accountCheckpoint ==
              (if Truthy(cp) && |batch| < PageSize then Some(MinusOne)
               else if batch == [] then cp
               else Some(After(batch[|batch| - 1]))))
      && (r.Stopped? ==>
            && r.at < |batch|
            && r.db.accountCheckpoint == (if r.at == 0 then cp else Some(After(batch[r.at - 1]))))
      && (!Truthy(cp) ==> r.db.accountCheckpoint != Some(MinusOne))
  {
    var batch := Batch(env.up, db0.accountCheckpoint);
    ScanCursorFollowsBatch(db0, batch, |batch|, env);
  }

  /**
   * When every upstream account carries the name it was fetched by, a
   * scan leaves each processed username with an Accounts document holding
   * its fetched state.
   */
  lemma {:induction false} ScanRefreshesAccounts(db0: Db, batch: seq<string>, n: nat, env: Env)
    requires n <= |batch|
    requires forall u :: env.up.account(u).Some? ==> env.up.account(u).value.name == u
    requires ScanBatch(db0, batch, n, env).Scanning?
    ensures var db := ScanBatch(db0, batch, n, env).db;
      forall j :: 0 <= j < n ==>
        && env.up.account(batch[j]).Some?
        && batch[j] in db.accounts
        && db.accounts[batch[j]].state == env.up.account(batch[j]).value
  {
    if n > 0 {
      ScanNext(db0, batch, n, env);
      ScanRefreshesAccounts(db0, batch, n - 1, env);
    }
  }
}
