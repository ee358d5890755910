/**
 * The MongoDB collections and the Settings document the scraper writes,
 * held in memory. A collection with a unique index is a map from the
 * index key to the document; an insert whose key is already present is
 * the DuplicateKeyError the scraper suppresses, so it changes nothing.
 */
module Storage {
  import opened Records

  /** Every document is stored under the key its unique index computes from it. */
  ghost predicate WellKeyed<V>(m: map<Key, V>, key: V -> Key)
  {
    forall k :: k in m ==> key(m[k]) == k
  }

  /**
   * `insert_one(v)` inside `suppress(DuplicateKeyError)`: a fresh key adds
   * exactly one document, a present key leaves the collection as it was.
   */
  function InsertUnique<V>(m: map<Key, V>, key: V -> Key, v: V): (r: map<Key, V>)
    ensures r.Keys == m.Keys + {key(v)}
    ensures forall k :: k in m ==> r[k] == m[k]
    ensures key(v) !in m ==> r[key(v)] == v
  {
    if key(v) in m then m else m[key(v) := v]
  }

  /** An insert keeps every document under the key its unique index computes. */
  lemma InsertUniqueWellKeyed<V>(m: map<Key, V>, key: V -> Key, v: V)
    requires WellKeyed(m, key)
    ensures WellKeyed(InsertUnique(m, key, v), key)
  {
  }

  /** A duplicate leaves the document count as it was; a fresh key adds exactly one. */
  lemma InsertUniqueCount<V>(m: map<Key, V>, key: V -> Key, v: V)
    ensures |InsertUnique(m, key, v)| == if key(v) in m then |m| else |m| + 1
  {
    var r := InsertUnique(m, key, v);
    if key(v) !in m {
      assert r.Keys == m.Keys + {key(v)};
      assert |r.Keys| == |m.Keys| + 1;
    }
  }

  /** The keys of a sequence of documents. */
  ghost function KeysOf<V>(vs: seq<V>, key: V -> Key): (ks: set<Key>)
    ensures forall i :: 0 <= i < |vs| ==> key(vs[i]) in ks
    ensures forall k :: k in ks ==> exists i :: 0 <= i < |vs| && key(vs[i]) == k
    decreases |vs|
  {
    if vs == [] then {} else KeysOf(vs[..|vs| - 1], key) + {key(vs[|vs| - 1])}
  }

  /** Inserting the documents of `vs` one after the other, each under duplicate-key suppression. */
  function InsertAll<V>(m: map<Key, V>, key: V -> Key, vs: seq<V>): map<Key, V>
    decreases |vs|
  {
    if vs == [] then m
    else InsertUnique(InsertAll(m, key, vs[..|vs| - 1]), key, vs[|vs| - 1])
  }

  /**
   * The keys grow by exactly those of `vs`, no stored document is
   * replaced, and every new document is one of `vs`.
   */
  lemma {:induction false} InsertAllGrows<V>(m: map<Key, V>, key: V -> Key, vs: seq<V>)
    ensures InsertAll(m, key, vs).Keys == m.Keys + KeysOf(vs, key)
    ensures forall k :: k in m ==> InsertAll(m, key, vs)[k] == m[k]
    ensures forall k :: k in InsertAll(m, key, vs) && k !in m ==>
      InsertAll(m, key, vs)[k] in vs && key(InsertAll(m, key, vs)[k]) == k
    decreases |vs|
  {
    if vs != [] {
      var front := vs[..|vs| - 1];
      InsertAllGrows(m, key, front);
      var rest := InsertAll(m, key, front);
      var r := InsertAll(m, key, vs);
      assert r == InsertUnique(rest, key, vs[|vs| - 1]);
      forall k | k in r && k !in m
        ensures r[k] in vs && key(r[k]) == k
      {
        if k in rest {
          assert rest[k] in front;
        }
      }
    }
  }

  /**
   * Of several documents of `vs` sharing a key not yet stored, the first
   * is the one kept: every later insert under that key is a suppressed
   * duplicate.
   */
  lemma {:induction false} InsertAllFirst<V>(m: map<Key, V>, key: V -> Key, vs: seq<V>, j: nat)
    requires j < |vs| && key(vs[j]) !in m
    requires forall i :: 0 <= i < j ==> key(vs[i]) != key(vs[j])
    ensures key(vs[j]) in InsertAll(m, key, vs) && InsertAll(m, key, vs)[key(vs[j])] == vs[j]
    decreases |vs|
  {
    var front := vs[..|vs| - 1];
    var rest := InsertAll(m, key, front);
    assert InsertAll(m, key, vs) == InsertUnique(rest, key, vs[|vs| - 1]);
    if j == |vs| - 1 {
      InsertAllGrows(m, key, front);
    } else {
      assert front[j] == vs[j];
      InsertAllFirst(m, key, front, j);
    }
  }

  /** Inserting a sequence keeps every document under the key its unique index computes. */
  lemma {:induction false} InsertAllWellKeyed<V>(m: map<Key, V>, key: V -> Key, vs: seq<V>)
    requires WellKeyed(m, key)
    ensures WellKeyed(InsertAll(m, key, vs), key)
    decreases |vs|
  {
    if vs != [] {
      InsertAllWellKeyed(m, key, vs[..|vs| - 1]);
      InsertUniqueWellKeyed(InsertAll(m, key, vs[..|vs| - 1]), key, vs[|vs| - 1]);
    }
  }

  /** A snapshot of everything the scraper stores. */
  datatype Db = Db(
    operations: map<Key, Op>,            // Operations
    accountOps: map<Key, AccountOp>,     // AccountOperations
    accounts: map<string, AccountDoc>,   // Accounts, keyed by 'name'
    posts: map<string, PostDoc>,         // Posts, keyed by 'identifier'
    lastBlock: int,                      // Settings: last_block
    accountCheckpoint: Option<Cursor>)   // Settings: account_checkpoint

  /** Each collection holds its documents under their own keys. */
  ghost predicate Consistent(db: Db, ix: Indexes)
  {
    && WellKeyed(db.operations, ix.op)
    && WellKeyed(db.accountOps, ix.event)
    && (forall n :: n in db.accounts ==> db.accounts[n].state.name == n)
    && (forall id :: id in db.posts ==> db.posts[id].post.identifier == id)
  }

  /**
   * No record is lost from `db` to `db'`: Operations and AccountOperations
   * keep every document unchanged, Accounts and Posts keep every key.
   */
  ghost predicate Retains(db: Db, db': Db)
  {
    && (forall k :: k in db.operations ==> k in db'.operations && db'.operations[k] == db.operations[k])
    && (forall k :: k in db.accountOps ==> k in db'.accountOps && db'.accountOps[k] == db.accountOps[k])
    && db.accounts.Keys <= db'.accounts.Keys
    && db.posts.Keys <= db'.posts.Keys
  }

  /** MongoStorage together with the Settings document it holds. */
  class Store {
    const ix: Indexes
    var operations: map<Key, Op>
    var accountOps: map<Key, AccountOp>
    var accounts: map<string, AccountDoc>
    var posts: map<string, PostDoc>
    var lastBlock: int
    var accountCheckpoint: Option<Cursor>

    ghost function Snapshot(): Db
      reads this
    {
      Db(operations, accountOps, accounts, posts, lastBlock, accountCheckpoint)
    }

    ghost predicate Valid()
      reads this
    {
      Consistent(Snapshot(), ix)
    }

    /** A store whose unique indexes are `ix`, holding `db`. */
    constructor (ix: Indexes, db: Db)
      requires Consistent(db, ix)
      ensures Valid() && this.ix == ix && Snapshot() == db
    {
      this.ix := ix;
      operations, accountOps, accounts, posts := db.operations, db.accountOps, db.accounts, db.posts;
      lastBlock, accountCheckpoint := db.lastBlock, db.accountCheckpoint;
    }

    /** `Operations.insert_one(op)` with DuplicateKeyError suppressed. */
    method InsertOperation(op: Op) returns (inserted: bool)
      requires Valid()
      modifies this`operations
      ensures Valid()
      ensures inserted == (ix.op(op) !in old(operations))
      ensures operations == InsertUnique(old(operations), ix.op, op)
    {
      InsertUniqueWellKeyed(operations, ix.op, op);
      inserted := ix.op(op) !in operations;
      if inserted {
        operations := operations[ix.op(op) := op];
      }
    }

    /** `AccountOperations.insert_one(e)` with DuplicateKeyError suppressed. */
    method InsertAccountOp(e: AccountOp) returns (inserted: bool)
      requires Valid()
      modifies this`accountOps
      ensures Valid()
      ensures inserted == (ix.event(e) !in old(accountOps))
      ensures accountOps == InsertUnique(old(accountOps), ix.event, e)
    {
      InsertUniqueWellKeyed(accountOps, ix.event, e);
      inserted := ix.event(e) !in accountOps;
      if inserted {
        accountOps := accountOps[ix.event(e) := e];
      }
    }

    /** `Posts.update({'identifier': ...}, doc, upsert=True)`: full replace by identifier. */
    method ReplacePost(doc: PostDoc)
      requires Valid()
      modifies this`posts
      ensures Valid()
      ensures posts == old(posts)[doc.post.identifier := doc]
    {
      posts := posts[doc.post.identifier := doc];
    }

    /** `Accounts.update({'name': ...}, doc, upsert=True)`: full replace by name. */
    method ReplaceAccount(doc: AccountDoc)
      requires Valid()
      modifies this`accounts
      ensures Valid()
      ensures accounts == old(accounts)[doc.state.name := doc]
    {
      accounts := accounts[doc.state.name := doc];
    }

    /** `Settings.update_last_block(b)`. */
    method UpdateLastBlock(b: int)
      requires Valid()
      modifies this`lastBlock
      ensures Valid() && lastBlock == b
    {
      lastBlock := b;
    }

    /** `Settings.set_account_checkpoint(c)`. */
    method SetAccountCheckpoint(c: Cursor)
      requires Valid()
      modifies this`accountCheckpoint
      ensures Valid() && accountCheckpoint == Some(c)
    {
      accountCheckpoint := Some(c);
    }
  }
}
