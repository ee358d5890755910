/**
 * Value types of the scraper: the raw operation records of the Steem
 * operation stream, the normalised documents stored in the MongoDB
 * collections, the settings values, and the collaborators the scraper
 * calls but whose internals are not part of this model.
 */
module Records {

  datatype Option<+T> = None | Some(value: T)

  /** A wall-clock instant as returned by `datetime.utcnow()`; opaque here. */
  type Time = int

  /** The values of the fields a unique MongoDB index is declared on, in index order. */
  datatype Key = Key(values: seq<string>)

  /**
   * An operation as the blockchain replay yields it, before `typify`.
   * Only the fields the scraper itself reads are named; everything else is `payload`.
   */
  datatype RawOp = RawOp(
    kind: string,            // operation['type']
    parentAuthor: string,    // operation['parent_author'] (comment operations)
    author: string,          // operation['author'] (comment operations)
    permlink: string,        // operation['permlink'] (comment operations)
    newAccountName: string,  // operation['new_account_name'] (account_create operations)
    payload: map<string, string>)

  /** An operation after `typify`: the document inserted into the Operations collection. */
  datatype Op = Op(blockNum: int, timestamp: string, payload: map<string, string>)

  /** `Post(identifier).export()`: the full current state of a post upstream. */
  datatype PostExport = PostExport(identifier: string, payload: map<string, string>)

  /** A Posts document: the exported post with its `replies` list (always written empty). */
  datatype PostDoc = PostDoc(post: PostExport, replies: seq<PostExport>)

  /** `typify(Account(name).export())`: the normalised current state of an account upstream. */
  datatype AccountState = AccountState(name: string, payload: map<string, string>)

  /** An Accounts document: the account state plus its `updatedAt` stamp. */
  datatype AccountDoc = AccountDoc(state: AccountState, updatedAt: Time)

  /** A typified account-history event: a document of the AccountOperations collection. */
  datatype AccountOp = AccountOp(account: string, index: Option<int>, payload: map<string, string>)

  /**
   * The value of the account scan checkpoint setting: the last username
   * scanned, or the -1 written after the last batch. -1 is truthy, so the
   * next run hands it to `get_usernames_batch` as a cursor like any other.
   */
  datatype Cursor = After(username: string) | MinusOne

  /** Python truthiness of the stored account checkpoint: None and "" are false, -1 is true. */
  predicate Truthy(c: Option<Cursor>)
    ensures Truthy(c) ==> c.Some?
    ensures c == Some(MinusOne) ==> Truthy(c)
    ensures c == Some(After("")) ==> !Truthy(c)
  {
    match c
    case None => false
    case Some(After(u)) => u != ""
    case Some(MinusOne) => true
  }

  /** The page size of `get_usernames_batch`: a shorter batch is the last one. */
  const PageSize: nat := 1000

  /** The unique indexes of the Operations and AccountOperations collections, as key functions. */
  datatype Indexes = Indexes(op: Op -> Key, event: AccountOp -> Key)

  /** `typify` on stream operations and the reply heuristic `is_comment`. */
  datatype Normalizer = Normalizer(typify: RawOp -> Op, isComment: RawOp -> bool)

  /**
   * The Steem client and helpers as seen at the time of a run.
   *  - post(identifier): `Post(identifier).export()`, or None for PostDoesNotExist;
   *  - account(name): `typify(Account(name).export())`, or None when the account does not exist;
   *  - history(name, start): the typified events of `Account(name).history(start=start)`;
   *  - usernames(c): `get_usernames_batch(c)` for a checkpoint, `get_usernames_batch()` for None.
   */
  datatype Upstream = Upstream(
    post: string -> Option<PostExport>,
    account: string -> Option<AccountState>,
    history: (string, int) -> seq<AccountOp>,
    usernames: Option<Cursor> -> seq<string>)

  lemma NonEmptyHasMember(s: set<int>)
    requires s != {}
    ensures exists x :: x in s
  {
    if forall x :: x !in s {
      assert false;
    }
  }

  /** Every finite non-empty set of integers has a greatest element. */
  lemma {:induction false} MaxExists(s: set<int>)
    requires s != {}
    ensures exists x :: x in s && forall y :: y in s ==> y <= x
    decreases |s|
  {
    NonEmptyHasMember(s);
    var a :| a in s;
    if s == {a} {
      assert forall y :: y in s ==> y <= a;
    } else {
      var rest := s - {a};
      MaxExists(rest);
      var b :| b in rest && forall y :: y in rest ==> y <= b;
      var x := if a <= b then b else a;
      forall y | y in s ensures y <= x {
        if y != a { assert y in rest; }
      }
      assert x in s;
    }
  }
}
