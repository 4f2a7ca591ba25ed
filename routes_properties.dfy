/** What the handlers promise, proved about the functions that specify them:
    where money goes in a transfer or an admin transaction, which requests
    leave the database as it was, that login issues a token that then
    authenticates, that logout revokes it, and that account creation keeps
    usernames and emails unique ignoring case. */
module RouteProperties {
  import opened Wrappers
  import opened Schema
  import opened Storage
  import opened Routes

  /** Under serial ids, no other row shares a row's id. */
  lemma DistinctIds(db: Db, i: nat)
    requires WellFormed(db) && i < |db.users|
    ensures forall j :: 0 <= j < |db.users| && j != i ==> db.users[j].id != db.users[i].id
  {
    forall j | 0 <= j < |db.users| && j != i
      ensures db.users[j].id != db.users[i].id
    {
      if j < i { assert UserIdsIncrease(db.users, j, i); } else { assert UserIdsIncrease(db.users, i, j); }
    }
  }

  /** Updating the row at position `i` of a well-formed database changes that
      row alone. */
  lemma PatchAt(db: Db, i: nat, patch: UserPatch)
    requires WellFormed(db) && i < |db.users|
    ensures var after := PatchDb(db, db.users[i].id, patch);
            && WellFormed(after) && |after.users| == |db.users|
            && after.users[i] == ApplyPatch(db.users[i], patch)
            && (forall k :: 0 <= k < |db.users| && k != i ==> after.users[k] == db.users[k])
  {
    DistinctIds(db, i);
    PatchKeepsWellFormed(db, db.users[i].id, patch);
  }

  /** Setting the balance of the account `u`, found by its id: a lookup of
      that id then finds `u` with the new balance, and every other lookup is
      as before. */
  lemma SetBalanceLookup(db: Db, u: User, b: int, other: int)
    requires WellFormed(db) && GetUser(db.users, u.id) == Some(u)
    ensures GetUser(PatchDb(db, u.id, SetBalance(b)).users, other)
            == if other == u.id then Some(u.(balance := b)) else GetUser(db.users, other)
  {
    PatchedLookup(db, u.id, SetBalance(b), other);
  }

  /** Setting the balance of the account `u` changes the total held by all
      accounts by the difference. */
  lemma SetBalanceTotal(db: Db, u: User, b: int)
    requires WellFormed(db) && GetUser(db.users, u.id) == Some(u)
    ensures TotalBalance(PatchDb(db, u.id, SetBalance(b)).users) == TotalBalance(db.users) - u.balance + b
  {
    var i := GetUserIndex(db.users, u.id);
    DistinctIds(db, i);
    PatchBalanceTotal(db.users, i, b);
  }

  /** Appending a log entry leaves the accounts as they are. */
  lemma LogKeepsUsers(db: Db, userId: nat, txType: TxType, amount: int, info: RecipientInfo, timestamp: nat, createdBy: nat)
    requires WellFormed(db)
    ensures var logged := InsertTransaction(db, userId, txType, amount, info, timestamp, createdBy);
            WellFormed(logged) && logged.users == db.users
  {
    InsertTransactionKeepsWellFormed(db, userId, txType, amount, info, timestamp, createdBy);
  }

  // ---------------------------------------------------------------------
  // Transfer

  /** The writes of a successful direct transfer, in order. */
  lemma DirectTransferWrites(db: Db, sender: User, recipient: User, req: TransferRequest, now: nat)
    ensures DirectTransfer(db, sender, recipient, req, now).1 ==
            PatchDb(InsertTransaction(PatchDb(db, recipient.id, SetBalance(recipient.balance + req.amount)),
                                      sender.id, Transfer, req.amount,
                                      DirectInfo(recipient.email, recipient.username, MemoText(req.memo)),
                                      now, sender.id),
                    sender.id, SetBalance(sender.balance - req.amount))
  {
  }

  /** The position of a row in a table. */
  lemma RowIndex(users: seq<User>, u: User) returns (i: nat)
    requires u in users
    ensures i < |users| && users[i] == u
  {
    i :| 0 <= i < |users| && users[i] == u;
  }

  /** An accepted direct transfer goes from the caller's account to the
      resolved recipient's, and a lookup by id finds each of them. */
  lemma AcceptedDirectTransfer(db: Db, senderId: nat, req: TransferRequest, now: nat)
    requires WellFormed(db)
    requires req.transferMethod == Direct
    requires TransferOutcome(db, senderId, req, now).0.status == 200
    ensures var sender := GetUser(db.users, senderId).value;
            var recipient := ResolveRecipient(db.users, req).value;
            && sender.id == senderId && GetUser(db.users, recipient.id) == Some(recipient)
            && TransferOutcome(db, senderId, req, now) == DirectTransfer(db, sender, recipient, req, now)
  {
    GetUserFinds(db.users, senderId);
    var j := RowIndex(db.users, ResolveRecipient(db.users, req).value);
    GetUserAt(db, j);
  }

  /** The accounts after a direct transfer between two different accounts:
      the sender loses the amount, the recipient gains it, every other account
      is untouched. */
  lemma {:induction false} DirectTransferLookup(db: Db, sender: User, recipient: User, req: TransferRequest, now: nat,
                                                other: int)
    requires WellFormed(db) && sender.id != recipient.id
    requires GetUser(db.users, sender.id) == Some(sender) && GetUser(db.users, recipient.id) == Some(recipient)
    ensures GetUser(DirectTransfer(db, sender, recipient, req, now).1.users, other) ==
              if other == sender.id then Some(sender.(balance := sender.balance - req.amount))
              else if other == recipient.id then Some(recipient.(balance := recipient.balance + req.amount))
              else GetUser(db.users, other)
  {
    var info := DirectInfo(recipient.email, recipient.username, MemoText(req.memo));
    var credited := PatchDb(db, recipient.id, SetBalance(recipient.balance + req.amount));
    PatchKeepsWellFormed(db, recipient.id, SetBalance(recipient.balance + req.amount));
    SetBalanceLookup(db, recipient, recipient.balance + req.amount, other);
    SetBalanceLookup(db, recipient, recipient.balance + req.amount, sender.id);
    LogKeepsUsers(credited, sender.id, Transfer, req.amount, info, now, sender.id);
    var logged := InsertTransaction(credited, sender.id, Transfer, req.amount, info, now, sender.id);
    SetBalanceLookup(logged, sender, sender.balance - req.amount, other);
    DirectTransferWrites(db, sender, recipient, req, now);
  }

  /** The three lookups of a direct transfer between two different
      accounts, together. */
  lemma DirectTransferAccounts(db: Db, sender: User, recipient: User, req: TransferRequest, now: nat)
    requires WellFormed(db) && sender.id != recipient.id
    requires GetUser(db.users, sender.id) == Some(sender) && GetUser(db.users, recipient.id) == Some(recipient)
    ensures var after := DirectTransfer(db, sender, recipient, req, now).1.users;
            && GetUser(after, sender.id) == Some(sender.(balance := sender.balance - req.amount))
            && GetUser(after, recipient.id) == Some(recipient.(balance := recipient.balance + req.amount))
            && (forall id :: id != sender.id && id != recipient.id ==> GetUser(after, id) == GetUser(db.users, id))
  {
    forall id | id != sender.id && id != recipient.id
      ensures GetUser(DirectTransfer(db, sender, recipient, req, now).1.users, id) == GetUser(db.users, id)
    {
      DirectTransferLookup(db, sender, recipient, req, now, id);
    }
    DirectTransferLookup(db, sender, recipient, req, now, sender.id);
    DirectTransferLookup(db, sender, recipient, req, now, recipient.id);
  }

  /** A direct transfer between two different accounts keeps the total held
      by all accounts. */
  lemma {:induction false} DirectTransferTotal(db: Db, sender: User, recipient: User, req: TransferRequest, now: nat)
    requires WellFormed(db) && sender.id != recipient.id
    requires GetUser(db.users, sender.id) == Some(sender) && GetUser(db.users, recipient.id) == Some(recipient)
    ensures TotalBalance(DirectTransfer(db, sender, recipient, req, now).1.users) == TotalBalance(db.users)
  {
    var info := DirectInfo(recipient.email, recipient.username, MemoText(req.memo));
    var credited := PatchDb(db, recipient.id, SetBalance(recipient.balance + req.amount));
    PatchKeepsWellFormed(db, recipient.id, SetBalance(recipient.balance + req.amount));
    SetBalanceTotal(db, recipient, recipient.balance + req.amount);
    SetBalanceLookup(db, recipient, recipient.balance + req.amount, sender.id);
    LogKeepsUsers(credited, sender.id, Transfer, req.amount, info, now, sender.id);
    var logged := InsertTransaction(credited, sender.id, Transfer, req.amount, info, now, sender.id);
    SetBalanceTotal(logged, sender, sender.balance - req.amount);
    DirectTransferWrites(db, sender, recipient, req, now);
  }

  /** A direct transfer between two different accounts debits the sender,
      credits the recipient, leaves every other account as it was and keeps
      the total held by all accounts: no money is made or lost. */
  lemma {:induction false} DirectTransferMovesMoney(db: Db, senderId: nat, req: TransferRequest, now: nat,
                                                    sender: User, recipient: User)
    requires WellFormed(db)
    requires req.transferMethod == Direct
    requires TransferOutcome(db, senderId, req, now).0.status == 200
    requires GetUser(db.users, senderId) == Some(sender)
    requires ResolveRecipient(db.users, req) == Some(recipient) && recipient.id != senderId
    ensures var after := TransferOutcome(db, senderId, req, now).1.users;
            && GetUser(after, senderId) == Some(sender.(balance := sender.balance - req.amount))
            && GetUser(after, recipient.id) == Some(recipient.(balance := recipient.balance + req.amount))
            && (forall id :: id != senderId && id != recipient.id ==> GetUser(after, id) == GetUser(db.users, id))
            && TotalBalance(after) == TotalBalance(db.users)
  {
    AcceptedDirectTransfer(db, senderId, req, now);
    DirectTransferAccounts(db, sender, recipient, req, now);
    DirectTransferTotal(db, sender, recipient, req, now);
  }

  /** The accounts after a direct transfer from an account to itself: the
      credit is overwritten by the debit computed from the balance read before
      it, and no other account changes. */
  lemma {:induction false} SelfTransferLookup(db: Db, sender: User, req: TransferRequest, now: nat, other: int)
    requires WellFormed(db) && GetUser(db.users, sender.id) == Some(sender)
    ensures GetUser(DirectTransfer(db, sender, sender, req, now).1.users, other) ==
              if other == sender.id then Some(sender.(balance := sender.balance - req.amount))
              else GetUser(db.users, other)
  {
    var credit := sender.balance + req.amount;
    var info := DirectInfo(sender.email, sender.username, MemoText(req.memo));
    var credited := PatchDb(db, sender.id, SetBalance(credit));
    PatchKeepsWellFormed(db, sender.id, SetBalance(credit));
    SetBalanceLookup(db, sender, credit, other);
    SetBalanceLookup(db, sender, credit, sender.id);
    LogKeepsUsers(credited, sender.id, Transfer, req.amount, info, now, sender.id);
    var logged := InsertTransaction(credited, sender.id, Transfer, req.amount, info, now, sender.id);
    SetBalanceLookup(logged, sender.(balance := credit), sender.balance - req.amount, other);
    DirectTransferWrites(db, sender, sender, req, now);
  }

  /** The lookups after a transfer from an account to itself, together. */
  lemma SelfTransferAccounts(db: Db, sender: User, req: TransferRequest, now: nat)
    requires WellFormed(db) && GetUser(db.users, sender.id) == Some(sender)
    ensures var after := DirectTransfer(db, sender, sender, req, now).1.users;
            && GetUser(after, sender.id) == Some(sender.(balance := sender.balance - req.amount))
            && (forall id :: id != sender.id ==> GetUser(after, id) == GetUser(db.users, id))
  {
    forall id | id != sender.id
      ensures GetUser(DirectTransfer(db, sender, sender, req, now).1.users, id) == GetUser(db.users, id)
    {
      SelfTransferLookup(db, sender, req, now, id);
    }
    SelfTransferLookup(db, sender, req, now, sender.id);
  }

  /** A direct transfer from an account to itself lowers the total by the amount. */
  lemma {:induction false} SelfTransferTotal(db: Db, sender: User, req: TransferRequest, now: nat)
    requires WellFormed(db) && GetUser(db.users, sender.id) == Some(sender)
    ensures TotalBalance(DirectTransfer(db, sender, sender, req, now).1.users) == TotalBalance(db.users) - req.amount
  {
    var credit := sender.balance + req.amount;
    var info := DirectInfo(sender.email, sender.username, MemoText(req.memo));
    var credited := PatchDb(db, sender.id, SetBalance(credit));
    PatchKeepsWellFormed(db, sender.id, SetBalance(credit));
    SetBalanceTotal(db, sender, credit);
    SetBalanceLookup(db, sender, credit, sender.id);
    LogKeepsUsers(credited, sender.id, Transfer, req.amount, info, now, sender.id);
    var logged := InsertTransaction(credited, sender.id, Transfer, req.amount, info, now, sender.id);
    SetBalanceTotal(logged, sender.(balance := credit), sender.balance - req.amount);
    DirectTransferWrites(db, sender, sender, req, now);
  }

  /** An accepted direct transfer whose recipient is the caller goes from
      the caller's account to that same account. */
  lemma AcceptedSelfTransfer(db: Db, senderId: nat, req: TransferRequest, now: nat)
    requires WellFormed(db)
    requires req.transferMethod == Direct
    requires TransferOutcome(db, senderId, req, now).0.status == 200
    requires ResolveRecipient(db.users, req).value.id == senderId
    ensures var sender := GetUser(db.users, senderId).value;
            && sender.id == senderId
            && TransferOutcome(db, senderId, req, now) == DirectTransfer(db, sender, sender, req, now)
  {
    AcceptedDirectTransfer(db, senderId, req, now);
  }

  /** A direct transfer to oneself is accepted, and because the sender's new
      balance is computed from the balance read before the credit, the
      account ends up debited by the amount: the credit is lost, and so is
      the amount from the total. No other account changes. */
  lemma {:induction false} SelfTransferLosesCredit(db: Db, senderId: nat, req: TransferRequest, now: nat, sender: User)
    requires WellFormed(db)
    requires req.transferMethod == Direct
    requires TransferOutcome(db, senderId, req, now).0.status == 200
    requires GetUser(db.users, senderId) == Some(sender)
    requires ResolveRecipient(db.users, req).value.id == senderId
    ensures var after := TransferOutcome(db, senderId, req, now).1.users;
            && GetUser(after, senderId) == Some(sender.(balance := sender.balance - req.amount))
            && (forall id :: id != senderId ==> GetUser(after, id) == GetUser(db.users, id))
            && TotalBalance(after) == TotalBalance(db.users) - req.amount
  {
    AcceptedSelfTransfer(db, senderId, req, now);
    SelfTransferAccounts(db, sender, req, now);
    SelfTransferTotal(db, sender, req, now);
  }

  /** The writes of a successful external transfer, in order. */
  lemma ExternalTransferWrites(db: Db, sender: User, req: TransferRequest, now: nat)
    requires req.transferMethod != Direct
    ensures ExternalTransfer(db, sender, req, now).1 ==
            PatchDb(InsertTransaction(db, sender.id, Transfer, req.amount,
                                      ExternalRecipientInfo(req.transferMethod, req.memo, req.additionalData),
                                      now, sender.id),
                    sender.id, SetBalance(sender.balance - req.amount))
  {
  }

  /** An accepted external transfer comes from the caller's account. */
  lemma AcceptedExternalTransfer(db: Db, senderId: nat, req: TransferRequest, now: nat)
    requires req.transferMethod != Direct
    requires TransferOutcome(db, senderId, req, now).0.status == 200
    ensures var sender := GetUser(db.users, senderId).value;
            && sender.id == senderId
            && TransferOutcome(db, senderId, req, now) == ExternalTransfer(db, sender, req, now)
  {
    GetUserFinds(db.users, senderId);
  }

  /** The accounts after an external transfer: the sender loses the amount,
      every other account is untouched. */
  lemma {:induction false} ExternalTransferLookup(db: Db, sender: User, req: TransferRequest, now: nat, other: int)
    requires WellFormed(db) && GetUser(db.users, sender.id) == Some(sender) && req.transferMethod != Direct
    ensures GetUser(ExternalTransfer(db, sender, req, now).1.users, other) ==
              if other == sender.id then Some(sender.(balance := sender.balance - req.amount))
              else GetUser(db.users, other)
  {
    var info := ExternalRecipientInfo(req.transferMethod, req.memo, req.additionalData);
    LogKeepsUsers(db, sender.id, Transfer, req.amount, info, now, sender.id);
    var logged := InsertTransaction(db, sender.id, Transfer, req.amount, info, now, sender.id);
    SetBalanceLookup(logged, sender, sender.balance - req.amount, other);
    ExternalTransferWrites(db, sender, req, now);
  }

  /** An external transfer lowers the total by the amount. */
  lemma {:induction false} ExternalTransferTotal(db: Db, sender: User, req: TransferRequest, now: nat)
    requires WellFormed(db) && GetUser(db.users, sender.id) == Some(sender) && req.transferMethod != Direct
    ensures TotalBalance(ExternalTransfer(db, sender, req, now).1.users) == TotalBalance(db.users) - req.amount
  {
    var info := ExternalRecipientInfo(req.transferMethod, req.memo, req.additionalData);
    LogKeepsUsers(db, sender.id, Transfer, req.amount, info, now, sender.id);
    var logged := InsertTransaction(db, sender.id, Transfer, req.amount, info, now, sender.id);
    SetBalanceTotal(logged, sender, sender.balance - req.amount);
    ExternalTransferWrites(db, sender, req, now);
  }

  /** The lookups after an external transfer, together. */
  lemma ExternalTransferAccounts(db: Db, sender: User, req: TransferRequest, now: nat)
    requires WellFormed(db) && GetUser(db.users, sender.id) == Some(sender) && req.transferMethod != Direct
    ensures var after := ExternalTransfer(db, sender, req, now).1.users;
            && GetUser(after, sender.id) == Some(sender.(balance := sender.balance - req.amount))
            && (forall id :: id != sender.id ==> GetUser(after, id) == GetUser(db.users, id))
  {
    forall id | id != sender.id
      ensures GetUser(ExternalTransfer(db, sender, req, now).1.users, id) == GetUser(db.users, id)
    {
      ExternalTransferLookup(db, sender, req, now, id);
    }
    ExternalTransferLookup(db, sender, req, now, sender.id);
  }

  /** A wire, bank, card or peer-to-peer transfer debits the sender and no
      one else: the money leaves the ledger. */
  lemma {:induction false} ExternalTransferDebitsSender(db: Db, senderId: nat, req: TransferRequest, now: nat, sender: User)
    requires WellFormed(db)
    requires req.transferMethod != Direct
    requires TransferOutcome(db, senderId, req, now).0.status == 200
    requires GetUser(db.users, senderId) == Some(sender)
    ensures var after := TransferOutcome(db, senderId, req, now).1.users;
            && GetUser(after, senderId) == Some(sender.(balance := sender.balance - req.amount))
            && (forall id :: id != senderId ==> GetUser(after, id) == GetUser(db.users, id))
            && TotalBalance(after) == TotalBalance(db.users) - req.amount
  {
    AcceptedExternalTransfer(db, senderId, req, now);
    ExternalTransferAccounts(db, sender, req, now);
    ExternalTransferTotal(db, sender, req, now);
  }

  /** The funds check is strict: a sender may transfer the whole balance. */
  lemma WholeBalanceMayBeTransferred(db: Db, senderId: nat, req: TransferRequest, now: nat)
    requires GetUser(db.users, senderId).Some?
    requires GetUser(db.users, senderId).value.pin == req.pin
    requires GetUser(db.users, senderId).value.balance == req.amount
    requires req.transferMethod != Direct
    ensures TransferOutcome(db, senderId, req, now).0.status == 200
  {
  }

  // ---------------------------------------------------------------------
  // Admin transaction

  /** An accepted admin transaction names an existing account, logs its
      entry, then sets that account's balance to the old one plus `delta`:
      the amount for a deposit, minus the amount (which the balance covered)
      for a withdrawal or transfer. */
  lemma AcceptedAdminTransaction(db: Db, adminId: nat, input: AdminTxInput) returns (delta: int)
    requires AdminTransactionOutcome(db, adminId, input).0.status == 200
    ensures !MissingRequired(input) && ParseTxType(input.txType.value).Some?
    ensures GetUser(db.users, input.userId.value).Some?
    ensures var user := GetUser(db.users, input.userId.value).value;
            && user.id == input.userId.value
            && (ParseTxType(input.txType.value) == Some(Deposit) ==> delta == input.amount.value)
            && (ParseTxType(input.txType.value) != Some(Deposit) ==>
                  delta == -input.amount.value && user.balance >= input.amount.value)
            && AdminTransactionOutcome(db, adminId, input).1 ==
               PatchDb(InsertTransaction(db, user.id, ParseTxType(input.txType.value).value, input.amount.value,
                                         AdminRecipientInfo(input.recipientInfo), input.timestamp.value, adminId),
                       user.id, SetBalance(user.balance + delta))
  {
    delta := if ParseTxType(input.txType.value) == Some(Deposit) then input.amount.value else -input.amount.value;
  }

  /** The accounts after an admin transaction that logs its entry and then
      moves the balance of `user`, found by its id, by `delta`: that account
      moved by `delta`, every other account as it was, and the total moved by
      `delta` too. */
  lemma {:induction false} AdminTransactionAccounts(db: Db, adminId: nat, user: User, txType: TxType, amount: int,
                                                    info: RecipientInfo, timestamp: nat, delta: int)
    requires WellFormed(db) && GetUser(db.users, user.id) == Some(user)
    ensures var after := PatchDb(InsertTransaction(db, user.id, txType, amount, info, timestamp, adminId),
                                 user.id, SetBalance(user.balance + delta)).users;
            && GetUser(after, user.id) == Some(user.(balance := user.balance + delta))
            && (forall id :: id != user.id ==> GetUser(after, id) == GetUser(db.users, id))
            && TotalBalance(after) == TotalBalance(db.users) + delta
  {
    LogKeepsUsers(db, user.id, txType, amount, info, timestamp, adminId);
    var logged := InsertTransaction(db, user.id, txType, amount, info, timestamp, adminId);
    forall id | id != user.id
      ensures GetUser(PatchDb(logged, user.id, SetBalance(user.balance + delta)).users, id) == GetUser(db.users, id)
    {
      SetBalanceLookup(logged, user, user.balance + delta, id);
    }
    SetBalanceLookup(logged, user, user.balance + delta, user.id);
    SetBalanceTotal(logged, user, user.balance + delta);
  }

  /** An accepted admin deposit credits the account by the amount (whatever
      its sign), changes no other account, and moves the total by the amount. */
  lemma {:induction false} AdminDepositCredits(db: Db, adminId: nat, input: AdminTxInput, user: User)
    requires WellFormed(db)
    requires AdminTransactionOutcome(db, adminId, input).0.status == 200
    requires ParseTxType(input.txType.value) == Some(Deposit)
    requires GetUser(db.users, input.userId.value) == Some(user)
    ensures var after := AdminTransactionOutcome(db, adminId, input).1.users;
            && GetUser(after, input.userId.value) == Some(user.(balance := user.balance + input.amount.value))
            && (forall id :: id != input.userId.value ==> GetUser(after, id) == GetUser(db.users, id))
            && TotalBalance(after) == TotalBalance(db.users) + input.amount.value
  {
    var delta := AcceptedAdminTransaction(db, adminId, input);
    AdminTransactionAccounts(db, adminId, user, Deposit, input.amount.value, AdminRecipientInfo(input.recipientInfo),
                             input.timestamp.value, delta);
  }

  /** An accepted admin withdrawal or transfer needed a balance of at least
      the amount, and debits the account by it; no other account changes and
      the total drops by the amount. */
  lemma {:induction false} AdminWithdrawalDebits(db: Db, adminId: nat, input: AdminTxInput, user: User)
    requires WellFormed(db)
    requires AdminTransactionOutcome(db, adminId, input).0.status == 200
    requires ParseTxType(input.txType.value) != Some(Deposit)
    requires GetUser(db.users, input.userId.value) == Some(user)
    ensures var after := AdminTransactionOutcome(db, adminId, input).1.users;
            && user.balance >= input.amount.value
            && GetUser(after, input.userId.value) == Some(user.(balance := user.balance - input.amount.value))
            && (forall id :: id != input.userId.value ==> GetUser(after, id) == GetUser(db.users, id))
            && TotalBalance(after) == TotalBalance(db.users) - input.amount.value
  {
    var delta := AcceptedAdminTransaction(db, adminId, input);
    AdminTransactionAccounts(db, adminId, user, ParseTxType(input.txType.value).value, input.amount.value,
                             AdminRecipientInfo(input.recipientInfo), input.timestamp.value, delta);
  }

  /** The log entry of an accepted admin transaction: for the named account,
      of the requested type and amount, stamped with the given time, created
      by the admin. */
  lemma {:induction false} AdminTransactionEntry(db: Db, adminId: nat, input: AdminTxInput)
    requires AdminTransactionOutcome(db, adminId, input).0.status == 200
    ensures var after := AdminTransactionOutcome(db, adminId, input).1.transactions;
            && GetUser(db.users, input.userId.value).Some?
            && |after| == |db.transactions| + 1 && after[..|db.transactions|] == db.transactions
            && after[|db.transactions|] == NewTransactionRow(db.nextTxId, GetUser(db.users, input.userId.value).value.id,
                                                             ParseTxType(input.txType.value).value, input.amount.value,
                                                             AdminRecipientInfo(input.recipientInfo),
                                                             input.timestamp.value, adminId)
            && after[|db.transactions|].userId == input.userId.value
  {
    var _ := AcceptedAdminTransaction(db, adminId, input);
  }

  /** A withdrawal or transfer the account cannot cover is refused, but only
      after its log entry was written: the balances stay, the entry remains. */
  lemma AdminShortfallLeavesOrphanEntry(db: Db, adminId: nat, input: AdminTxInput)
    requires !MissingRequired(input)
    requires ParseTxType(input.txType.value).Some? && ParseTxType(input.txType.value) != Some(Deposit)
    requires GetUser(db.users, input.userId.value).Some?
    requires GetUser(db.users, input.userId.value).value.balance < input.amount.value
    ensures var r := AdminTransactionOutcome(db, adminId, input);
            && r.0 == Reject(400, InsufficientFunds)
            && r.1.users == db.users
            && r.1.transactions == db.transactions + [NewTransactionRow(db.nextTxId, GetUser(db.users, input.userId.value).value.id,
                                                        ParseTxType(input.txType.value).value, input.amount.value,
                                                        AdminRecipientInfo(input.recipientInfo),
                                                        input.timestamp.value, adminId)]
  {
  }

  /** A worked case: an admin deposit of 50.00 into an account holding 10.00
      leaves it holding 60.00 and logs one entry (amounts in cents). */
  lemma AdminDepositExample()
    ensures var holder := User(2, "alice", Bcrypt("password1"), "1234", "alice@example.com", 1000,
                               UserRole, Active, None, 0, None, None, None);
            var db := Db([holder], [], 3, 1);
            var input := AdminTxInput(Some(2), Some("deposit"), Some(5000), Some(7), None);
            var after := AdminTransactionOutcome(db, 1, input).1;
            after.users[0].balance == 6000 && |after.transactions| == 1
  {
    var holder := User(2, "alice", Bcrypt("password1"), "1234", "alice@example.com", 1000,
                       UserRole, Active, None, 0, None, None, None);
    var db := Db([holder], [], 3, 1);
    assert GetUser(db.users, 2) == Some(holder);
    assert ParseTxType("deposit") == Some(Deposit);
  }

  // ---------------------------------------------------------------------
  // Account creation

  /** No two accounts share a username or an email, ignoring case. */
  ghost predicate UniqueNames(users: seq<User>) {
    forall i, j :: 0 <= i < j < |users| ==>
      !SameIgnoringCase(users[i].username, users[j].username) && !SameIgnoringCase(users[i].email, users[j].email)
  }

  /** Appending a row whose username and email no existing row matches keeps
      the names unique. */
  lemma {:induction false} AppendKeepsNamesUnique(users: seq<User>, u: User)
    requires UniqueNames(users)
    requires GetUserByUsername(users, u.username).None? && GetUserByEmail(users, u.email).None?
    ensures UniqueNames(users + [u])
  {
    var all := users + [u];
    forall i, j | 0 <= i < j < |all|
      ensures !SameIgnoringCase(all[i].username, all[j].username) && !SameIgnoringCase(all[i].email, all[j].email)
    {
      if j == |users| {
        assert all[j] == u && all[i] == users[i];
        assert !SameIgnoringCase(users[i].username, u.username);
        assert !SameIgnoringCase(users[i].email, u.email);
      } else {
        assert all[i] == users[i] && all[j] == users[j];
      }
    }
  }

  lemma {:induction false} SignupKeepsNamesUnique(db: Db, input: UserInput, now: nat)
    requires UniqueNames(db.users)
    ensures UniqueNames(SignupSpec(db, input, now).1.users)
  {
    var r := SignupSpec(db, input, now);
    if r.1 != db {
      var nu := ParseInsertUser(input).value.(role := UserRole, balance := Some(0));
      AppendKeepsNamesUnique(db.users, NewUserRow(db.nextUserId, nu, now));
    }
  }

  lemma {:induction false} AdminCreateKeepsNamesUnique(db: Db, header: Option<string>, query: Option<string>,
                                                       input: UserInput, now: nat)
    requires UniqueNames(db.users)
    ensures UniqueNames(AdminCreateUserSpec(db, header, query, input, now).1.users)
  {
    var r := AdminCreateUserSpec(db, header, query, input, now);
    if r.1 != db {
      var nu := ParseInsertUser(input).value;
      AppendKeepsNamesUnique(db.users, NewUserRow(db.nextUserId, nu, now));
    }
  }

  /** A signup whose username differs from an existing one only in case is
      refused, and nothing is written. */
  lemma {:induction false} SignupRefusesCaseVariant(db: Db, input: UserInput, now: nat, i: nat)
    requires ValidUserInput(input)
    requires i < |db.users| && SameIgnoringCase(db.users[i].username, input.username)
    ensures SignupSpec(db, input, now) == (Reject(400, UsernameTaken), db)
  {
    assert GetUserByUsername(db.users, input.username).Some?;
  }

  /** Signup creates an ordinary account with no money, whatever the body
      says about role and balance, but keeps the status the body gives. */
  lemma {:induction false} SignupForcesRoleAndBalance(db: Db, input: UserInput, now: nat)
    requires SignupSpec(db, input, now).0.status == 201
    ensures var row := SignupSpec(db, input, now).1.users[|db.users|];
            && row.role == UserRole && row.balance == 0 && row.id == db.nextUserId
            && (input.status.None? ==> row.status == Active)
            && (input.status.Some? ==> StatusName(row.status) == input.status.value)
            && forall candidate :: VerifyPassword(candidate, row.password) <==> candidate == input.password
  {
    var nu := ParseInsertUser(input).value;
    assert SignupSpec(db, input, now).1 == InsertUser(db, nu.(role := UserRole, balance := Some(0)), now);
  }

  /** Updating a row never touches usernames or emails. */
  lemma PatchKeepsNamesUnique(users: seq<User>, id: int, patch: UserPatch)
    requires UniqueNames(users)
    ensures UniqueNames(PatchUsers(users, id, patch))
  {
    var after := PatchUsers(users, id, patch);
    assert forall i :: 0 <= i < |users| ==> after[i].username == users[i].username && after[i].email == users[i].email;
  }

  // ---------------------------------------------------------------------
  // Login and logout

  /** Login looks the name up ignoring case: a differently cased name gives
      the same outcome. */
  lemma {:induction false} LoginIgnoresUsernameCase(db: Db, input: LoginInput, newToken: string, now: nat)
    ensures LoginSpec(db, input, newToken, now) == LoginSpec(db, input.(username := ToLower(input.username)), newToken, now)
  {
    ToLowerIdempotent(input.username);
  }

  /** After a successful login, a request bearing the new token authenticates
      as the account that logged in, provided no other account held that
      token. */
  lemma {:induction false} LoginTokenAuthenticates(db: Db, input: LoginInput, newToken: string, now: nat,
                                                   query: Option<string>)
    requires WellFormed(db)
    requires newToken != ""
    requires forall i :: 0 <= i < |db.users| ==> db.users[i].authToken != Some(newToken)
    requires LoginSpec(db, input, newToken, now).0.status == 200
    ensures var r := LoginSpec(db, input, newToken, now);
            var auth := Authenticate(r.1.users, Some(BearerPrefix + newToken), query);
            && auth.Ok? && auth.value.id == r.0.body.id
            && auth.value.lastLogin == Some(now) && auth.value.tokenIssuedAt == Some(now)
  {
    var i := AcceptedLogin(db, input, newToken, now);
    var u := db.users[i];
    var stamped := PatchDb(db, u.id, SetLastLogin(now));
    PatchAt(db, i, SetLastLogin(now));
    PatchAt(stamped, i, SetToken(newToken, now));
    var after := PatchDb(stamped, u.id, SetToken(newToken, now)).users;
    assert LoginSpec(db, input, newToken, now).1.users == after;
    assert after[i].authToken == Some(newToken) && after[i].lastLogin == Some(now);
    BearerTokenRoundTrip(newToken);
    OnlyHolder(after, i, newToken);
  }

  /** A successful login is the active account whose name matches the
      requested one ignoring case and whose password verifies, at position `i`,
      stamped with the login time and then given the new token. */
  lemma AcceptedLogin(db: Db, input: LoginInput, newToken: string, now: nat) returns (i: nat)
    requires LoginSpec(db, input, newToken, now).0.status == 200
    ensures i < |db.users|
    ensures GetUserByUsername(db.users, ToLower(input.username)) == Some(db.users[i])
    ensures SameIgnoringCase(db.users[i].username, input.username)
    ensures db.users[i].status == Active && VerifyPassword(input.password, db.users[i].password)
    ensures LoginSpec(db, input, newToken, now).0.body.LoginBody? && LoginSpec(db, input, newToken, now).0.body.id == db.users[i].id
    ensures LoginSpec(db, input, newToken, now).1
            == PatchDb(PatchDb(db, db.users[i].id, SetLastLogin(now)), db.users[i].id, SetToken(newToken, now))
  {
    i := RowIndex(db.users, GetUserByUsername(db.users, ToLower(input.username)).value);
    ToLowerIdempotent(input.username);
  }

  /** When only the row at position `i` holds a token, the token lookup finds it. */
  lemma {:induction false} OnlyHolder(users: seq<User>, i: nat, token: string)
    requires i < |users| && users[i].authToken == Some(token)
    requires forall k :: 0 <= k < |users| && k != i ==> users[k].authToken != Some(token)
    ensures GetUserByToken(users, token) == Some(users[i])
  {
    var found := GetUserByToken(users, token);
    assert found.Some?;
    var k :| 0 <= k < |users| && users[k] == found.value;
    assert k == i;
  }

  /** After logout, the header that was used no longer authenticates, with
      whatever query parameter. */
  lemma {:induction false} LogoutRevokesToken(db: Db, header: Option<string>, query: Option<string>,
                                              laterQuery: Option<string>)
    requires LogoutSpec(db, header, query).0.status == 200
    ensures Authenticate(LogoutSpec(db, header, query).1.users, header, laterQuery).Err?
  {
    var token := BearerToken(header).value;
    var after := ClearTokenRows(db.users, token);
    assert RequestToken(header, laterQuery) == Some(token);
    assert GetUserByToken(after, token).None?;
  }

  // ---------------------------------------------------------------------
  // Status, avatar and receipt

  /** An accepted status update sets that account's status to the requested
      one and changes nothing else, in that account or any other. */
  lemma {:induction false} StatusUpdateSetsStatus(db: Db, header: Option<string>, query: Option<string>,
                                                  id: int, status: Option<string>)
    requires WellFormed(db)
    requires UpdateStatusSpec(db, header, query, id, status).0.status == 200
    ensures var after := UpdateStatusSpec(db, header, query, id, status).1.users;
            && status.Some? && GetUser(db.users, id).Some? && GetUser(after, id).Some?
            && StatusName(GetUser(after, id).value.status) == status.value
            && GetUser(after, id).value == GetUser(db.users, id).value.(status := GetUser(after, id).value.status)
            && (forall other :: other != id ==> GetUser(after, other) == GetUser(db.users, other))
            && TotalBalance(after) == TotalBalance(db.users)
  {
    var st := ParseStatus(status.value).value;
    assert UpdateStatusSpec(db, header, query, id, status).1 == PatchDb(db, id, SetStatus(st));
    PatchedLookup(db, id, SetStatus(st), id);
    forall other | other != id
      ensures GetUser(PatchDb(db, id, SetStatus(st)).users, other) == GetUser(db.users, other)
    {
      PatchedLookup(db, id, SetStatus(st), other);
    }
    PatchOtherTotal(db.users, id, SetStatus(st));
  }

  /** An accepted avatar upload changes the caller's avatar and nothing else. */
  lemma {:induction false} AvatarUpdateTouchesOnlyCaller(db: Db, header: Option<string>, query: Option<string>,
                                                         avatar: Option<string>)
    requires WellFormed(db)
    requires UpdateAvatarSpec(db, header, query, avatar).0.status == 200
    ensures var caller := AuthenticateActive(db.users, header, query).value;
            var after := UpdateAvatarSpec(db, header, query, avatar).1.users;
            && GetUser(after, caller.id) == Some(caller.(avatar := avatar))
            && (forall other :: other != caller.id ==> GetUser(after, other) == GetUser(db.users, other))
            && TotalBalance(after) == TotalBalance(db.users)
  {
    var caller := AuthenticateActive(db.users, header, query).value;
    var patch := SetAvatar(avatar.value);
    assert UpdateAvatarSpec(db, header, query, avatar).1 == PatchDb(db, caller.id, patch);
    var i :| 0 <= i < |db.users| && db.users[i] == caller;
    GetUserAt(db, i);
    PatchedLookup(db, caller.id, patch, caller.id);
    forall other | other != caller.id
      ensures GetUser(PatchDb(db, caller.id, patch).users, other) == GetUser(db.users, other)
    {
      PatchedLookup(db, caller.id, patch, other);
    }
    PatchOtherTotal(db.users, caller.id, patch);
  }

  /** A receipt for a transaction id that does not exist is answered with
      success and writes nothing. */
  lemma {:induction false} ReceiptForUnknownIdSucceeds(db: Db, header: Option<string>, query: Option<string>,
                                                       txId: int, receipt: Option<string>)
    requires AuthenticateActive(db.users, header, query).Ok? && Present(receipt)
    requires forall i :: 0 <= i < |db.transactions| ==> db.transactions[i].id != txId
    ensures AttachReceiptSpec(db, header, query, txId, receipt) == (Response(200, "Receipt saved successfully", NoBody), db)
  {
    assert SetReceiptRows(db.transactions, txId, receipt.value) == db.transactions;
  }

  /** Any active account may attach a receipt to another account's
      transaction: ownership is not checked. */
  lemma {:induction false} ReceiptIgnoresOwnership(db: Db, header: Option<string>, query: Option<string>,
                                                   i: nat, receipt: Option<string>)
    requires WellFormed(db)
    requires AuthenticateActive(db.users, header, query).Ok? && Present(receipt)
    requires i < |db.transactions| && db.transactions[i].userId != AuthenticateActive(db.users, header, query).value.id
    ensures var r := AttachReceiptSpec(db, header, query, db.transactions[i].id, receipt);
            r.0.status == 200 && r.1.transactions[i].receipt == receipt
  {
  }
}
