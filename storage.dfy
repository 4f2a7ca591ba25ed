/** The storage layer: the users and transactions tables, the lookups and
    ordered queries over them, and a `Store` whose methods change rows in
    place. Balances and amounts are integer cents, so storing a balance
    "to two decimal places" keeps it as it is. */
module Storage {
  import opened Wrappers
  import opened Schema

  // ---------------------------------------------------------------------
  // Rows

  /** A bcrypt hash, standing for the secret it was computed from: checking a
      candidate against it succeeds for that secret and no other. */
  datatype PasswordHash = Bcrypt(secret: string)

  function HashPassword(plain: string): (h: PasswordHash)
    ensures forall candidate :: VerifyPassword(candidate, h) <==> candidate == plain
  {
    Bcrypt(plain)
  }

  /** `bcrypt.compare`: a candidate verifies exactly against the hash made from it. */
  predicate VerifyPassword(candidate: string, h: PasswordHash)
    ensures VerifyPassword(candidate, h) <==> h == Bcrypt(candidate)
  {
    h.secret == candidate
  }

  /** The recipient-info column: null, free text supplied by an admin, or the
      descriptor a transfer builds for its method. */
  datatype RecipientInfo =
    | NoInfo
    | Raw(text: string)
    | DirectInfo(email: string, username: string, memo: string)
    | WireInfo(swiftCode: string, bankName: string, accountNumber: string, country: string, memo: string)
    | BankInfo(routingNumber: string, accountNumber: string, bankName: string, accountType: string, memo: string)
    | CardInfo(cardNumber: string, cardholderName: string, memo: string)
    | P2PInfo(phoneNumber: string, platform: string, memo: string)

  datatype User = User(
    id: nat,
    username: string,
    password: PasswordHash,
    pin: string,
    email: string,
    balance: int,
    role: Role,
    status: Status,
    lastLogin: Option<nat>,
    createdAt: nat,
    avatar: Option<string>,
    authToken: Option<string>,
    tokenIssuedAt: Option<nat>)

  datatype Transaction = Transaction(
    id: nat,
    userId: nat,
    txType: TxType,
    amount: int,
    recipientInfo: RecipientInfo,
    timestamp: nat,
    createdBy: nat,
    receipt: Option<string>)

  /** The whole database as a value: both tables and the next serial ids. */
  datatype Db = Db(users: seq<User>, transactions: seq<Transaction>, nextUserId: nat, nextTxId: nat)

  /** Serial ids: every row's id is below the next one to hand out, and ids
      increase along each table, so no id occurs twice. */
  ghost predicate WellFormed(db: Db) {
    && (forall i :: 0 <= i < |db.users| ==> db.users[i].id < db.nextUserId)
    && (forall i, j :: 0 <= i < j < |db.users| ==> UserIdsIncrease(db.users, i, j))
    && (forall i :: 0 <= i < |db.transactions| ==> db.transactions[i].id < db.nextTxId)
    && (forall i, j :: 0 <= i < j < |db.transactions| ==> TxIdsIncrease(db.transactions, i, j))
  }

  /** Row `i` of the users table has a smaller id than row `j`. Naming the
      comparison keeps the pairwise ordering out of proofs that do not ask
      for it. */
  ghost predicate UserIdsIncrease(users: seq<User>, i: int, j: int) {
    0 <= i < |users| && 0 <= j < |users| && users[i].id < users[j].id
  }

  /** The same for the transactions table. */
  ghost predicate TxIdsIncrease(txs: seq<Transaction>, i: int, j: int) {
    0 <= i < |txs| && 0 <= j < |txs| && txs[i].id < txs[j].id
  }

  // ---------------------------------------------------------------------
  // Case-insensitive comparison (ASCII letters)

  function LowerChar(c: char): char {
    if 'A' <= c <= 'Z' then (c as int + 32) as char else c
  }

  function ToLower(s: string): (r: string)
    ensures |r| == |s|
    ensures forall i :: 0 <= i < |s| ==> r[i] == LowerChar(s[i])
  {
    seq(|s|, i requires 0 <= i < |s| => LowerChar(s[i]))
  }

  predicate SameIgnoringCase(a: string, b: string) {
    ToLower(a) == ToLower(b)
  }

  lemma ToLowerIdempotent(s: string)
    ensures ToLower(ToLower(s)) == ToLower(s)
  {
  }

  // ---------------------------------------------------------------------
  // Lookups

  /** The position of the first row satisfying `p`, if any. */
  function FirstIndex(users: seq<User>, p: User -> bool): (r: Option<nat>)
    ensures r.Some? ==> r.value < |users| && p(users[r.value])
    ensures r.Some? ==> forall j :: 0 <= j < r.value ==> !p(users[j])
    ensures r.None? <==> forall j :: 0 <= j < |users| ==> !p(users[j])
  {
    if |users| == 0 then None
    else if p(users[0]) then Some(0)
    else match FirstIndex(users[1..], p)
      case None => None
      case Some(k) => Some(k + 1)
  }

  /** Two predicates that agree on every row find the same first row. */
  lemma FirstIndexExtensional(users: seq<User>, p: User -> bool, q: User -> bool)
    requires forall u :: p(u) == q(u)
    ensures FirstIndex(users, p) == FirstIndex(users, q)
  {
    var a, b := FirstIndex(users, p), FirstIndex(users, q);
    if a.Some? && b.Some? {
      assert !(a.value < b.value) && !(b.value < a.value);
    }
  }

  /** The first row with that id, if any. Its full contract is the lemma
      `GetUserFinds`, kept apart so that proofs that only rewrite lookups do
      not pay for it. */
  function GetUser(users: seq<User>, id: int): (r: Option<User>)
    ensures r.Some? ==> r.value.id == id
    ensures |users| == 0 ==> r.None?
  {
    if |users| == 0 then None
    else if users[0].id == id then Some(users[0])
    else GetUser(users[1..], id)
  }

  /** A lookup by id finds nothing exactly when no row has the id; what it
      finds is a row of the table with that id, the first such row. */
  lemma {:induction false} GetUserFinds(users: seq<User>, id: int)
    ensures GetUser(users, id).None? <==> forall i :: 0 <= i < |users| ==> users[i].id != id
    ensures GetUser(users, id).Some? ==>
              exists i :: && 0 <= i < |users| && users[i] == GetUser(users, id).value && users[i].id == id
                          && forall k :: 0 <= k < i ==> users[k].id != id
  {
    if |users| > 0 && users[0].id != id {
      var rest := users[1..];
      GetUserFinds(rest, id);
      assert forall i :: 0 < i < |users| ==> users[i] == rest[i - 1];
      if GetUser(rest, id).Some? {
        var i :| && 0 <= i < |rest| && rest[i] == GetUser(rest, id).value && rest[i].id == id
                 && forall k :: 0 <= k < i ==> rest[k].id != id;
        assert users[i + 1] == rest[i];
      }
    }
  }

  /** The position of the row a successful lookup finds. */
  lemma GetUserIndex(users: seq<User>, id: int) returns (i: nat)
    requires GetUser(users, id).Some?
    ensures i < |users| && users[i] == GetUser(users, id).value && users[i].id == id
  {
    GetUserFinds(users, id);
    i :| 0 <= i < |users| && users[i] == GetUser(users, id).value && users[i].id == id;
  }

  /** The first user whose username equals `username` ignoring case, deleted
      accounts included. */
  function GetUserByUsername(users: seq<User>, username: string): (r: Option<User>)
    ensures r.None? <==> forall i :: 0 <= i < |users| ==> !SameIgnoringCase(users[i].username, username)
    ensures r.Some? ==> exists i :: && 0 <= i < |users| && users[i] == r.value
                                    && SameIgnoringCase(users[i].username, username)
                                    && forall j :: 0 <= j < i ==> !SameIgnoringCase(users[j].username, username)
  {
    match FirstIndex(users, (u: User) => SameIgnoringCase(u.username, username))
    case None => None
    case Some(i) => Some(users[i])
  }

  /** The first user whose email equals `email` ignoring case, deleted
      accounts included. */
  function GetUserByEmail(users: seq<User>, email: string): (r: Option<User>)
    ensures r.None? <==> forall i :: 0 <= i < |users| ==> !SameIgnoringCase(users[i].email, email)
    ensures r.Some? ==> exists i :: && 0 <= i < |users| && users[i] == r.value
                                    && SameIgnoringCase(users[i].email, email)
                                    && forall j :: 0 <= j < i ==> !SameIgnoringCase(users[j].email, email)
  {
    match FirstIndex(users, (u: User) => SameIgnoringCase(u.email, email))
    case None => None
    case Some(i) => Some(users[i])
  }

  /** Looking a name up and looking up its lower-case form find the same user. */
  lemma UsernameLookupIgnoresCase(users: seq<User>, username: string)
    ensures GetUserByUsername(users, ToLower(username)) == GetUserByUsername(users, username)
  {
    ToLowerIdempotent(username);
    FirstIndexExtensional(users, (u: User) => SameIgnoringCase(u.username, ToLower(username)),
                          (u: User) => SameIgnoringCase(u.username, username));
  }

  /** With distinct ids, the row a lookup by id finds is the one at that id's position. */
  lemma GetUserAt(db: Db, i: nat)
    requires WellFormed(db) && i < |db.users|
    ensures GetUser(db.users, db.users[i].id) == Some(db.users[i])
  {
    forall k | 0 <= k < i
      ensures db.users[k].id != db.users[i].id
    {
      assert UserIdsIncrease(db.users, k, i);
    }
    GetUserFinds(db.users, db.users[i].id);
  }

  // ---------------------------------------------------------------------
  // Single-field updates

  /** The one field an update sets. */
  datatype UserPatch =
    | SetStatus(status: Status)
    | SetBalance(balance: int)
    | SetAvatar(avatar: string)
    | SetLastLogin(at: nat)
    | SetToken(token: string, issuedAt: nat)

  function ApplyPatch(u: User, patch: UserPatch): (r: User)
    ensures && r.id == u.id && r.username == u.username && r.email == u.email
            && r.password == u.password && r.pin == u.pin && r.role == u.role && r.createdAt == u.createdAt
    ensures !patch.SetBalance? ==> r.balance == u.balance
    ensures !patch.SetStatus? ==> r.status == u.status
  {
    match patch
    case SetStatus(s) => u.(status := s)
    case SetBalance(b) => u.(balance := b)
    case SetAvatar(a) => u.(avatar := Some(a))
    case SetLastLogin(t) => u.(lastLogin := Some(t))
    case SetToken(tok, at) => u.(authToken := Some(tok), tokenIssuedAt := Some(at))
  }

  /** The users table after `UPDATE users SET <patch> WHERE id = <id>`. */
  function PatchUsers(users: seq<User>, id: int, patch: UserPatch): (r: seq<User>)
    ensures |r| == |users|
    ensures forall i :: 0 <= i < |users| && users[i].id != id ==> r[i] == users[i]
    ensures forall i :: 0 <= i < |users| && users[i].id == id ==> r[i] == ApplyPatch(users[i], patch)
  {
    seq(|users|, i requires 0 <= i < |users| => if users[i].id == id then ApplyPatch(users[i], patch) else users[i])
  }

  /** An `UPDATE users ... WHERE id = <id>`: only the users table changes, and it keeps its length. */
  function PatchDb(db: Db, id: int, patch: UserPatch): (r: Db)
    ensures r.transactions == db.transactions && r.nextUserId == db.nextUserId && r.nextTxId == db.nextTxId
    ensures |r.users| == |db.users|
  {
    db.(users := PatchUsers(db.users, id, patch))
  }

  /** The row an update returns: the changed row, or nothing for an unknown id. */
  function PatchedRow(users: seq<User>, id: int, patch: UserPatch): (r: Option<User>)
    ensures r.None? <==> GetUser(users, id).None?
    ensures r.Some? ==> r.value.id == id && r.value == ApplyPatch(GetUser(users, id).value, patch)
  {
    GetUserFinds(users, id);
    match GetUser(users, id)
    case None => None
    case Some(u) => Some(ApplyPatch(u, patch))
  }

  lemma PatchKeepsWellFormed(db: Db, id: int, patch: UserPatch)
    requires WellFormed(db)
    ensures WellFormed(PatchDb(db, id, patch))
  {
    var after := PatchDb(db, id, patch).users;
    forall i, j | 0 <= i < j < |after|
      ensures UserIdsIncrease(after, i, j)
    {
      assert UserIdsIncrease(db.users, i, j);
    }
  }

  /** Updating a row leaves every other row as it was; with distinct ids the
      updated row is the one a lookup finds afterwards. */
  lemma {:induction false} PatchedLookup(db: Db, id: int, patch: UserPatch, other: int)
    requires WellFormed(db)
    ensures other != id ==> GetUser(PatchDb(db, id, patch).users, other) == GetUser(db.users, other)
    ensures other == id ==> GetUser(PatchDb(db, id, patch).users, other) == PatchedRow(db.users, id, patch)
  {
    var after := PatchDb(db, id, patch);
    PatchKeepsWellFormed(db, id, patch);
    GetUserFinds(db.users, other);
    GetUserFinds(after.users, other);
    if GetUser(db.users, other).Some? {
      var i := GetUserIndex(db.users, other);
      GetUserAt(db, i);
      GetUserAt(after, i);
    }
  }

  // ---------------------------------------------------------------------
  // Inserts

  /** The row `createUser` inserts: serial id, hashed password, balance 0
      unless one is supplied, last login and creation time `now`. */
  function NewUserRow(id: nat, nu: NewUser, now: nat): (r: User)
    ensures r.id == id && r.username == nu.username && r.email == nu.email && r.pin == nu.pin
    ensures nu.balance.None? ==> r.balance == DefaultBalance
    ensures nu.balance.Some? ==> r.balance == nu.balance.value
    ensures forall candidate :: VerifyPassword(candidate, r.password) <==> candidate == nu.password
    ensures r.role == nu.role && r.status == nu.status && r.lastLogin == Some(now) && r.createdAt == now
    ensures r.authToken == nu.authToken && r.tokenIssuedAt == nu.tokenIssuedAt && r.avatar == nu.avatar
  {
    User(id, nu.username, HashPassword(nu.password), nu.pin, nu.email,
         nu.balance.GetOr(DefaultBalance), nu.role, nu.status, Some(now), now,
         nu.avatar, nu.authToken, nu.tokenIssuedAt)
  }

  /** `createUser`: one row appended with the next serial id; every existing
      row and the transactions are kept. */
  function InsertUser(db: Db, nu: NewUser, now: nat): (r: Db)
    ensures |r.users| == |db.users| + 1 && r.users[..|db.users|] == db.users
    ensures r.users[|db.users|].id == db.nextUserId && r.nextUserId == db.nextUserId + 1
    ensures r.transactions == db.transactions && r.nextTxId == db.nextTxId
  {
    db.(users := db.users + [NewUserRow(db.nextUserId, nu, now)], nextUserId := db.nextUserId + 1)
  }

  lemma InsertUserKeepsWellFormed(db: Db, nu: NewUser, now: nat)
    requires WellFormed(db)
    ensures WellFormed(InsertUser(db, nu, now))
  {
    var after := InsertUser(db, nu, now).users;
    forall i, j | 0 <= i < j < |after|
      ensures UserIdsIncrease(after, i, j)
    {
      if j < |db.users| { assert UserIdsIncrease(db.users, i, j); }
    }
  }

  function NewTransactionRow(id: nat, userId: nat, txType: TxType, amount: int,
                             info: RecipientInfo, timestamp: nat, createdBy: nat): (t: Transaction)
    ensures t.receipt.None?
    ensures && t.id == id && t.userId == userId && t.txType == txType && t.amount == amount
            && t.recipientInfo == info && t.timestamp == timestamp && t.createdBy == createdBy
  {
    Transaction(id, userId, txType, amount, info, timestamp, createdBy, None)
  }

  /** `createTransaction`: one entry appended with the next serial id and no
      receipt; every existing entry and the users are kept. */
  function InsertTransaction(db: Db, userId: nat, txType: TxType, amount: int,
                             info: RecipientInfo, timestamp: nat, createdBy: nat): (r: Db)
    ensures |r.transactions| == |db.transactions| + 1 && r.transactions[..|db.transactions|] == db.transactions
    ensures var t := r.transactions[|db.transactions|];
            && t.id == db.nextTxId && t.userId == userId && t.txType == txType && t.amount == amount
            && t.recipientInfo == info && t.timestamp == timestamp && t.createdBy == createdBy && t.receipt.None?
    ensures r.nextTxId == db.nextTxId + 1 && r.users == db.users && r.nextUserId == db.nextUserId
  {
    db.(transactions := db.transactions + [NewTransactionRow(db.nextTxId, userId, txType, amount, info, timestamp, createdBy)],
        nextTxId := db.nextTxId + 1)
  }

  lemma InsertTransactionKeepsWellFormed(db: Db, userId: nat, txType: TxType, amount: int,
                                         info: RecipientInfo, timestamp: nat, createdBy: nat)
    requires WellFormed(db)
    ensures WellFormed(InsertTransaction(db, userId, txType, amount, info, timestamp, createdBy))
  {
    var after := InsertTransaction(db, userId, txType, amount, info, timestamp, createdBy).transactions;
    forall i, j | 0 <= i < j < |after|
      ensures TxIdsIncrease(after, i, j)
    {
      if j < |db.transactions| { assert TxIdsIncrease(db.transactions, i, j); }
    }
  }

  // ---------------------------------------------------------------------
  // Receipts and tokens

  /** The transactions table after `UPDATE transactions SET receipt = ... WHERE id = <id>`. */
  function SetReceiptRows(txs: seq<Transaction>, id: int, receipt: string): (r: seq<Transaction>)
    ensures |r| == |txs|
    ensures forall i :: 0 <= i < |txs| && txs[i].id != id ==> r[i] == txs[i]
    ensures forall i :: 0 <= i < |txs| && txs[i].id == id ==> r[i] == txs[i].(receipt := Some(receipt))
  {
    seq(|txs|, i requires 0 <= i < |txs| => if txs[i].id == id then txs[i].(receipt := Some(receipt)) else txs[i])
  }

  lemma SetReceiptKeepsWellFormed(db: Db, id: int, receipt: string)
    requires WellFormed(db)
    ensures WellFormed(db.(transactions := SetReceiptRows(db.transactions, id, receipt)))
  {
    var after := SetReceiptRows(db.transactions, id, receipt);
    forall i, j | 0 <= i < j < |after|
      ensures TxIdsIncrease(after, i, j)
    {
      assert TxIdsIncrease(db.transactions, i, j);
    }
  }

  /** The users table after `UPDATE users SET auth_token = NULL WHERE auth_token = <token>`. */
  function ClearTokenRows(users: seq<User>, token: string): (r: seq<User>)
    ensures |r| == |users|
    ensures forall i :: 0 <= i < |users| ==> r[i].authToken != Some(token)
    ensures forall i :: 0 <= i < |users| && users[i].authToken != Some(token) ==> r[i] == users[i]
    ensures forall i :: 0 <= i < |users| && users[i].authToken == Some(token) ==> r[i] == users[i].(authToken := None)
  {
    seq(|users|, i requires 0 <= i < |users| => if users[i].authToken == Some(token) then users[i].(authToken := None) else users[i])
  }

  lemma ClearTokenKeepsWellFormed(db: Db, token: string)
    requires WellFormed(db)
    ensures WellFormed(db.(users := ClearTokenRows(db.users, token)))
  {
    var after := ClearTokenRows(db.users, token);
    forall i, j | 0 <= i < j < |after|
      ensures UserIdsIncrease(after, i, j)
    {
      assert UserIdsIncrease(db.users, i, j);
    }
  }

  // ---------------------------------------------------------------------
  // Queries

  /** Every user whose status is not deleted, in table order. */
  function GetAllUsers(users: seq<User>): (r: seq<User>)
    ensures forall u :: u in r <==> u in users && u.status != Deleted
    ensures forall u :: multiset(r)[u] == if u.status != Deleted then multiset(users)[u] else 0
    ensures |r| <= |users|
  {
    if |users| == 0 then []
    else
      assert users == [users[0]] + users[1..];
      if users[0].status == Deleted then GetAllUsers(users[1..])
      else [users[0]] + GetAllUsers(users[1..])
  }

  /** The transactions owned by `userId`, in log order. */
  function OwnedBy(txs: seq<Transaction>, userId: int): (r: seq<Transaction>)
    ensures forall t :: multiset(r)[t] == if t.userId == userId then multiset(txs)[t] else 0
  {
    if |txs| == 0 then []
    else
      assert txs == [txs[0]] + txs[1..];
      if txs[0].userId == userId then [txs[0]] + OwnedBy(txs[1..], userId)
      else OwnedBy(txs[1..], userId)
  }

  predicate NewestFirst(txs: seq<Transaction>) {
    forall i, j :: 0 <= i < j < |txs| ==> txs[i].timestamp >= txs[j].timestamp
  }

  /** Inserts `t` before the first entry that is strictly older. */
  function InsertNewestFirst(t: Transaction, txs: seq<Transaction>): (r: seq<Transaction>)
    requires NewestFirst(txs)
    ensures NewestFirst(r)
    ensures multiset(r) == multiset(txs) + multiset{t}
    ensures |r| == |txs| + 1
  {
    if |txs| == 0 || t.timestamp >= txs[0].timestamp then [t] + txs
    else
      var rest := InsertNewestFirst(t, txs[1..]);
      assert txs == [txs[0]] + txs[1..];
      assert forall k :: 0 <= k < |rest| ==> txs[0].timestamp >= rest[k].timestamp by {
        forall k | 0 <= k < |rest| ensures txs[0].timestamp >= rest[k].timestamp {
          assert rest[k] in multiset(rest);
        }
      }
      [txs[0]] + rest
  }

  /** `ORDER BY timestamp DESC`: a reordering of `txs`, newest first; entries
      with equal timestamps keep their log order. */
  function SortNewestFirst(txs: seq<Transaction>): (r: seq<Transaction>)
    ensures NewestFirst(r)
    ensures multiset(r) == multiset(txs)
    ensures |r| == |txs|
  {
    if |txs| == 0 then []
    else
      assert txs == [txs[0]] + txs[1..];
      InsertNewestFirst(txs[0], SortNewestFirst(txs[1..]))
  }

  /** A user's history: exactly that user's transactions, newest first. */
  function GetUserTransactions(txs: seq<Transaction>, userId: int): (r: seq<Transaction>)
    ensures NewestFirst(r)
    ensures forall t :: multiset(r)[t] == if t.userId == userId then multiset(txs)[t] else 0
    ensures forall t :: t in r <==> t in txs && t.userId == userId
  {
    var r := SortNewestFirst(OwnedBy(txs, userId));
    assert forall t :: t in r <==> multiset(r)[t] > 0;
    assert forall t :: t in txs <==> multiset(txs)[t] > 0;
    r
  }

  /** The first `limit` entries of a user's history (all of it when shorter). */
  function GetRecentTransactions(txs: seq<Transaction>, userId: int, limit: nat): (r: seq<Transaction>)
    ensures |r| == if limit < |GetUserTransactions(txs, userId)| then limit else |GetUserTransactions(txs, userId)|
    ensures r == GetUserTransactions(txs, userId)[..|r|]
    ensures NewestFirst(r)
    ensures forall t :: t in r ==> t in txs && t.userId == userId
  {
    var all := GetUserTransactions(txs, userId);
    var n := if limit < |all| then limit else |all|;
    assert forall k :: 0 <= k < n ==> all[..n][k] == all[k];
    all[..n]
  }

  /** Among a user's transactions, none left out of the recent list is newer
      than one on it. */
  lemma RecentAreNewest(txs: seq<Transaction>, userId: int, limit: nat, t: Transaction)
    requires t in txs && t.userId == userId && t !in GetRecentTransactions(txs, userId, limit)
    ensures forall k :: 0 <= k < |GetRecentTransactions(txs, userId, limit)| ==>
              GetRecentTransactions(txs, userId, limit)[k].timestamp >= t.timestamp
  {
    var all := GetUserTransactions(txs, userId);
    var recent := GetRecentTransactions(txs, userId, limit);
    assert t in all;
    var j :| 0 <= j < |all| && all[j] == t;
    assert forall k :: 0 <= k < |recent| ==> recent[k] == all[k];
    assert j >= |recent|;
  }

  /** Every transaction, newest first. */
  function GetAllTransactions(txs: seq<Transaction>): (r: seq<Transaction>)
    ensures NewestFirst(r)
    ensures multiset(r) == multiset(txs)
  {
    SortNewestFirst(txs)
  }

  // ---------------------------------------------------------------------
  // Money held in the accounts

  function TotalBalance(users: seq<User>): int {
    if |users| == 0 then 0 else users[0].balance + TotalBalance(users[1..])
  }

  /** Setting the balance of the one row with a given id changes the total by
      the difference. */
  lemma {:induction false} PatchBalanceTotal(users: seq<User>, i: nat, b: int)
    requires i < |users|
    requires forall j :: 0 <= j < |users| && j != i ==> users[j].id != users[i].id
    ensures TotalBalance(PatchUsers(users, users[i].id, SetBalance(b))) == TotalBalance(users) - users[i].balance + b
  {
    var after := PatchUsers(users, users[i].id, SetBalance(b));
    if i == 0 {
      assert after[1..] == users[1..];
    } else {
      assert PatchUsers(users[1..], users[i].id, SetBalance(b)) == after[1..];
      PatchBalanceTotal(users[1..], i - 1, b);
    }
  }

  /** An update of any other field leaves the total unchanged. */
  lemma {:induction false} PatchOtherTotal(users: seq<User>, id: int, patch: UserPatch)
    requires !patch.SetBalance?
    ensures TotalBalance(PatchUsers(users, id, patch)) == TotalBalance(users)
  {
    if |users| > 0 {
      assert PatchUsers(users[1..], id, patch) == PatchUsers(users, id, patch)[1..];
      PatchOtherTotal(users[1..], id, patch);
    }
  }

  // ---------------------------------------------------------------------
  // The store

  class Store {
    var users: seq<User>
    var transactions: seq<Transaction>
    var nextUserId: nat
    var nextTxId: nat

    function Snapshot(): Db
      reads this
    {
      Db(users, transactions, nextUserId, nextTxId)
    }

    ghost predicate Valid()
      reads this
    {
      WellFormed(Snapshot())
    }

    constructor ()
      ensures Valid() && Snapshot() == Db([], [], 1, 1)
    {
      users, transactions := [], [];
      nextUserId, nextTxId := 1, 1;
    }

    /** `createUser`: inserts the row with the next serial id. */
    method CreateUser(nu: NewUser, now: nat) returns (u: User)
      requires Valid()
      modifies this
      ensures Valid()
      ensures u == NewUserRow(old(nextUserId), nu, now)
      ensures Snapshot() == InsertUser(old(Snapshot()), nu, now)
      ensures users == old(users) + [u] && transactions == old(transactions)
    {
      InsertUserKeepsWellFormed(Snapshot(), nu, now);
      u := NewUserRow(nextUserId, nu, now);
      users := users + [u];
      nextUserId := nextUserId + 1;
    }

    /** `updateUser` with the fields of one patch; returns the updated row or
        nothing for an unknown id. */
    method UpdateUser(id: int, patch: UserPatch) returns (r: Option<User>)
      requires Valid()
      modifies this
      ensures Valid()
      ensures Snapshot() == PatchDb(old(Snapshot()), id, patch)
      ensures r == PatchedRow(old(users), id, patch)
      ensures r.None? ==> users == old(users)
    {
      PatchKeepsWellFormed(Snapshot(), id, patch);
      r := PatchedRow(users, id, patch);
      if r.None? {
        GetUserFinds(users, id);
        assert PatchUsers(users, id, patch) == users;
      }
      users := PatchUsers(users, id, patch);
    }

    method UpdateUserStatus(id: int, status: Status) returns (r: Option<User>)
      requires Valid()
      modifies this
      ensures Valid()
      ensures Snapshot() == PatchDb(old(Snapshot()), id, SetStatus(status))
      ensures r.None? ==> Snapshot() == old(Snapshot())
      ensures r.None? <==> GetUser(old(users), id).None?
      ensures r.Some? ==> r.value == GetUser(old(users), id).value.(status := status)
    {
      r := UpdateUser(id, SetStatus(status));
    }

    /** Stores the new balance, kept to two decimal places (whole cents). */
    method UpdateUserBalance(id: int, newBalance: int) returns (r: Option<User>)
      requires Valid()
      modifies this
      ensures Valid()
      ensures Snapshot() == PatchDb(old(Snapshot()), id, SetBalance(newBalance))
      ensures r.None? ==> Snapshot() == old(Snapshot())
      ensures r.None? <==> GetUser(old(users), id).None?
      ensures r.Some? ==> r.value == GetUser(old(users), id).value.(balance := newBalance)
    {
      r := UpdateUser(id, SetBalance(newBalance));
    }

    method UpdateUserAvatar(id: int, avatar: string) returns (r: Option<User>)
      requires Valid()
      modifies this
      ensures Valid()
      ensures Snapshot() == PatchDb(old(Snapshot()), id, SetAvatar(avatar))
      ensures r.None? ==> Snapshot() == old(Snapshot())
      ensures r.None? <==> GetUser(old(users), id).None?
      ensures r.Some? ==> r.value == GetUser(old(users), id).value.(avatar := Some(avatar))
    {
      r := UpdateUser(id, SetAvatar(avatar));
    }

    /** `createTransaction`: appends the row with the next serial id and no receipt. */
    method CreateTransaction(userId: nat, txType: TxType, amount: int, info: RecipientInfo,
                             timestamp: nat, createdBy: nat) returns (t: Transaction)
      requires Valid()
      modifies this
      ensures Valid()
      ensures t == NewTransactionRow(old(nextTxId), userId, txType, amount, info, timestamp, createdBy)
      ensures Snapshot() == InsertTransaction(old(Snapshot()), userId, txType, amount, info, timestamp, createdBy)
      ensures transactions == old(transactions) + [t] && users == old(users)
    {
      InsertTransactionKeepsWellFormed(Snapshot(), userId, txType, amount, info, timestamp, createdBy);
      t := NewTransactionRow(nextTxId, userId, txType, amount, info, timestamp, createdBy);
      transactions := transactions + [t];
      nextTxId := nextTxId + 1;
    }

    /** Sets the receipt of the transaction with that id; other rows and the
        users table are untouched. */
    method UpdateTransactionReceipt(id: int, receipt: string)
      requires Valid()
      modifies this
      ensures Valid()
      ensures Snapshot() == old(Snapshot()).(transactions := SetReceiptRows(old(transactions), id, receipt))
    {
      SetReceiptKeepsWellFormed(Snapshot(), id, receipt);
      transactions := SetReceiptRows(transactions, id, receipt);
    }

    /** Nulls the token of every account holding it. */
    method RevokeToken(token: string)
      requires Valid()
      modifies this
      ensures Valid()
      ensures Snapshot() == old(Snapshot()).(users := ClearTokenRows(old(users), token))
    {
      ClearTokenKeepsWellFormed(Snapshot(), token);
      users := ClearTokenRows(users, token);
    }
  }
}
