/** The route handlers of the banking API. Each handler that changes the
    database is a method over a `Store` that performs the handler's reads,
    checks and writes in the handler's order; its postcondition ties the
    response and the new database to a function of the old database and the
    request, and the properties of the handlers are proved about those
    functions (module RouteProperties). Token generation and the clock are
    parameters: `newToken` and `now`. */
module Routes {
  import opened Wrappers
  import opened Schema
  import opened Storage

  // ---------------------------------------------------------------------
  // Responses

  datatype Body =
    | NoBody
    | LoginBody(id: nat, username: string, email: string, role: Role, token: string)
    | SignupBody(id: nat, username: string, email: string)
    | CreatedUserBody(id: nat, username: string, email: string, role: Role, balance: int)
    | ProfileBody(id: nat, username: string, email: string, balance: int, avatar: Option<string>,
                  role: Role, recentTransactions: seq<Transaction>)
    | TransferBody(txId: nat, amount: int, timestamp: nat, memo: string, transferMethod: TransferMethod,
                   recipient: string, recipientEmail: Option<string>, recipientInfo: Option<RecipientInfo>)
    | UserBody(user: User)
    | UsersBody(users: seq<User>)
    | TransactionBody(transaction: Transaction)
    | TransactionsBody(transactions: seq<Transaction>)

  datatype Response = Response(status: int, message: string, body: Body)

  function Reject(status: int, message: string): Response {
    Response(status, message, NoBody)
  }

  const NoTokenMessage := "Unauthorized. No authentication token provided."
  const BadTokenMessage := "Unauthorized. Invalid or expired token."
  const NotAdminMessage := "Access denied. Admin privileges required."
  const InactiveCallerMessage := "Your account is inactive or has been deleted."
  const InvalidCredentials := "Invalid credentials"
  const InactiveLoginMessage := "Account is inactive or deleted"
  const UsernameTaken := "Username already exists"
  const EmailTaken := "Email already exists"
  const InvalidPin := "Invalid PIN"
  const InsufficientFunds := "Insufficient funds"
  const RecipientNotFound := "Recipient not found"
  const RecipientInactive := "Recipient account is inactive or deleted"
  const UserNotFound := "User not found"
  const MissingFieldsMessage := "Missing required fields"
  const InvalidTxType := "Invalid transaction type"
  const InvalidStatus := "Invalid status"
  const InvalidTransferData := "Invalid transfer data"
  const InvalidUserData := "Invalid user data"
  const InvalidRequestData := "Invalid request data"
  const NoTokenProvided := "No token provided"
  const AvatarRequired := "Avatar is required"
  const ReceiptRequired := "Receipt content is required"

  /** A string field a JavaScript `||` treats as present: given and not empty. */
  predicate Present(s: Option<string>) {
    s.Some? && s.value != ""
  }

  // ---------------------------------------------------------------------
  // Tokens

  const BearerPrefix := "Bearer "

  /** The token of an `Authorization: Bearer <token>` header. */
  function BearerToken(header: Option<string>): (r: Option<string>)
    ensures r.Some? <==> header.Some? && |header.value| >= 7 && header.value[..7] == BearerPrefix
    ensures r.Some? ==> header.value == BearerPrefix + r.value
  {
    match header
    case None => None
    case Some(h) =>
      if |h| >= 7 && h[..7] == BearerPrefix
      then assert h == h[..7] + h[7..]; Some(h[7..])
      else None
  }

  lemma BearerTokenRoundTrip(token: string)
    ensures BearerToken(Some(BearerPrefix + token)) == Some(token)
  {
    assert (BearerPrefix + token)[..7] == BearerPrefix;
    assert (BearerPrefix + token)[7..] == token;
  }

  /** The token a request authenticates with: the header's when it is
      non-empty, otherwise the `token` query parameter; an empty token is no
      token. */
  function RequestToken(header: Option<string>, query: Option<string>): (r: Option<string>)
    ensures r.Some? ==> r.value != "" && (r == BearerToken(header) || r == query)
    ensures Present(BearerToken(header)) ==> r == BearerToken(header)
    ensures r.None? <==> !Present(BearerToken(header)) && !Present(query)
  {
    var bearer := BearerToken(header);
    if Present(bearer) then bearer
    else if Present(query) then query
    else None
  }

  /** `SELECT * FROM users WHERE auth_token = <token> LIMIT 1`. */
  function GetUserByToken(users: seq<User>, token: string): (r: Option<User>)
    ensures r.None? <==> forall i :: 0 <= i < |users| ==> users[i].authToken != Some(token)
    ensures r.Some? ==> r.value in users && r.value.authToken == Some(token)
  {
    match FirstIndex(users, (u: User) => u.authToken == Some(token))
    case None => None
    case Some(i) => Some(users[i])
  }

  /** The authentication middleware: 401 without a token or with a token no
      account holds; otherwise the account holding it, whatever its status. */
  function Authenticate(users: seq<User>, header: Option<string>, query: Option<string>): (r: Result<User, Response>)
    ensures r.Err? ==> r.error.status == 401 && r.error.body == NoBody
    ensures r.Ok? <==> RequestToken(header, query).Some? && GetUserByToken(users, RequestToken(header, query).value).Some?
    ensures r.Ok? ==> r.value in users && r.value.authToken == RequestToken(header, query)
  {
    match RequestToken(header, query)
    case None => Err(Reject(401, NoTokenMessage))
    case Some(token) =>
      match GetUserByToken(users, token)
      case None => Err(Reject(401, BadTokenMessage))
      case Some(u) => Ok(u)
  }

  /** Authentication followed by the active-account middleware. */
  function AuthenticateActive(users: seq<User>, header: Option<string>, query: Option<string>): (r: Result<User, Response>)
    ensures r.Ok? ==> r.value.status == Active && r.value in users
    ensures r.Ok? <==> Authenticate(users, header, query).Ok? && Authenticate(users, header, query).value.status == Active
    ensures Authenticate(users, header, query).Err? ==> r == Authenticate(users, header, query)
    ensures r.Err? && Authenticate(users, header, query).Ok? ==> r.error == Reject(403, InactiveCallerMessage)
  {
    match Authenticate(users, header, query)
    case Err(e) => Err(e)
    case Ok(u) => if u.status != Active then Err(Reject(403, InactiveCallerMessage)) else Ok(u)
  }

  /** Authentication followed by the admin middleware (which does not look at
      the account's status). */
  function AuthenticateAdmin(users: seq<User>, header: Option<string>, query: Option<string>): (r: Result<User, Response>)
    ensures r.Ok? ==> r.value.role == AdminRole && r.value in users
    ensures r.Ok? <==> Authenticate(users, header, query).Ok? && Authenticate(users, header, query).value.role == AdminRole
    ensures Authenticate(users, header, query).Err? ==> r == Authenticate(users, header, query)
    ensures r.Err? && Authenticate(users, header, query).Ok? ==> r.error == Reject(403, NotAdminMessage)
  {
    match Authenticate(users, header, query)
    case Err(e) => Err(e)
    case Ok(u) => if u.role != AdminRole then Err(Reject(403, NotAdminMessage)) else Ok(u)
  }

  // ---------------------------------------------------------------------
  // Recipient descriptors

  /** A descriptor field: the supplied value, or "N/A" when absent or empty. */
  function Field(data: map<string, string>, key: string): (r: string)
    ensures key in data && data[key] != "" ==> r == data[key]
    ensures !(key in data && data[key] != "") ==> r == "N/A"
  {
    if key in data && data[key] != "" then data[key] else "N/A"
  }

  /** The memo, or "" when absent or empty. */
  function MemoText(memo: Option<string>): (r: string)
    ensures Present(memo) ==> r == memo.value
    ensures !Present(memo) ==> r == ""
  {
    if Present(memo) then memo.value else ""
  }

  /** `s.slice(-4)`: the last four characters, or all of a shorter string. */
  function Last4(s: string): (r: string)
    ensures |r| == if |s| < 4 then |s| else 4
    ensures r == s[|s| - |r|..]
  {
    if |s| <= 4 then s else s[|s| - 4..]
  }

  const CardMask := "xxxx-xxxx-xxxx-"

  /** The card number as stored: masked to its last four characters, or
      "N/A" when none is given. */
  function MaskedCardNumber(data: map<string, string>): (r: string)
    ensures Present(if "cardNumber" in data then Some(data["cardNumber"]) else None) ==>
              |CardMask| <= |r| <= |CardMask| + 4 && r[..|CardMask|] == CardMask
              && r[|CardMask|..] == Last4(data["cardNumber"])
    ensures !Present(if "cardNumber" in data then Some(data["cardNumber"]) else None) ==> r == "N/A"
  {
    if "cardNumber" in data && data["cardNumber"] != "" then CardMask + Last4(data["cardNumber"]) else "N/A"
  }

  /** The descriptor of a wire, bank, card or peer-to-peer transfer. */
  function ExternalRecipientInfo(m: TransferMethod, memo: Option<string>, data: map<string, string>): (r: RecipientInfo)
    requires m != Direct
    ensures r.WireInfo? <==> m == Wire
    ensures r.BankInfo? <==> m == Bank
    ensures r.CardInfo? <==> m == Card
    ensures r.P2PInfo? <==> m == P2P
    ensures (r.WireInfo? || r.BankInfo? || r.CardInfo? || r.P2PInfo?) && r.memo == MemoText(memo)
    ensures r.CardInfo? ==> r.cardNumber == MaskedCardNumber(data) && r.cardholderName == Field(data, "cardholderName")
    ensures r.WireInfo? ==> && r.swiftCode == Field(data, "swiftCode") && r.bankName == Field(data, "bankName")
                            && r.accountNumber == Field(data, "accountNumber") && r.country == Field(data, "country")
    ensures r.BankInfo? ==> && r.routingNumber == Field(data, "routingNumber") && r.accountNumber == Field(data, "accountNumber")
                            && r.bankName == Field(data, "bankName") && r.accountType == Field(data, "accountType")
    ensures r.P2PInfo? ==> r.phoneNumber == Field(data, "phoneNumber") && r.platform == Field(data, "platform")
  {
    match m
    case Wire => WireInfo(Field(data, "swiftCode"), Field(data, "bankName"), Field(data, "accountNumber"),
                          Field(data, "country"), MemoText(memo))
    case Bank => BankInfo(Field(data, "routingNumber"), Field(data, "accountNumber"), Field(data, "bankName"),
                          Field(data, "accountType"), MemoText(memo))
    case Card => CardInfo(MaskedCardNumber(data), Field(data, "cardholderName"), MemoText(memo))
    case P2P => P2PInfo(Field(data, "phoneNumber"), Field(data, "platform"), MemoText(memo))
  }

  /** A direct transfer finds its recipient by email or by username. */
  function ResolveRecipient(users: seq<User>, req: TransferRequest): (r: Option<User>)
    ensures req.recipientType == ByEmail ==> r == GetUserByEmail(users, req.recipient)
    ensures req.recipientType == ByUsername ==> r == GetUserByUsername(users, req.recipient)
  {
    if req.recipientType == ByEmail then GetUserByEmail(users, req.recipient)
    else GetUserByUsername(users, req.recipient)
  }

  // ---------------------------------------------------------------------
  // Transfer

  /** A successful direct transfer: credit the recipient from the balance read
      at the start, append the log entry, then write the sender's balance read
      before the credit. */
  function DirectTransfer(db: Db, sender: User, recipient: User, req: TransferRequest, now: nat): (r: (Response, Db))
    ensures r.0.status == 200 && r.0.body.TransferBody? && r.0.body.txId == db.nextTxId
    ensures r.0.body.recipient == recipient.username && r.0.body.recipientEmail == Some(recipient.email)
    ensures r.1.transactions == db.transactions + [NewTransactionRow(db.nextTxId, sender.id, Transfer, req.amount,
                                                     DirectInfo(recipient.email, recipient.username, MemoText(req.memo)),
                                                     now, sender.id)]
    ensures r.1.nextTxId == db.nextTxId + 1 && r.1.nextUserId == db.nextUserId
  {
    var info := DirectInfo(recipient.email, recipient.username, MemoText(req.memo));
    var credited := PatchDb(db, recipient.id, SetBalance(recipient.balance + req.amount));
    var logged := InsertTransaction(credited, sender.id, Transfer, req.amount, info, now, sender.id);
    var debited := PatchDb(logged, sender.id, SetBalance(sender.balance - req.amount));
    (Response(200, "Transfer successful",
              TransferBody(db.nextTxId, req.amount, now, MemoText(req.memo), Direct,
                           recipient.username, Some(recipient.email), None)),
     debited)
  }

  /** A successful external transfer: append the log entry, debit the sender. */
  function ExternalTransfer(db: Db, sender: User, req: TransferRequest, now: nat): (r: (Response, Db))
    requires req.transferMethod != Direct
    ensures r.0.status == 200 && r.0.body.TransferBody? && r.0.body.txId == db.nextTxId
    ensures r.0.body.recipient == "External Recipient" && r.0.body.recipientEmail.None?
    ensures r.0.body.recipientInfo == Some(ExternalRecipientInfo(req.transferMethod, req.memo, req.additionalData))
    ensures r.1.transactions == db.transactions + [NewTransactionRow(db.nextTxId, sender.id, Transfer, req.amount,
                                                     ExternalRecipientInfo(req.transferMethod, req.memo, req.additionalData),
                                                     now, sender.id)]
    ensures r.1.nextTxId == db.nextTxId + 1 && r.1.nextUserId == db.nextUserId
  {
    var info := ExternalRecipientInfo(req.transferMethod, req.memo, req.additionalData);
    var logged := InsertTransaction(db, sender.id, Transfer, req.amount, info, now, sender.id);
    var debited := PatchDb(logged, sender.id, SetBalance(sender.balance - req.amount));
    (Response(200, "Transfer successful",
              TransferBody(db.nextTxId, req.amount, now, MemoText(req.memo), req.transferMethod,
                           "External Recipient", None, Some(info))),
     debited)
  }

  /** The log entry of a transfer: owned and created by the sender, of type
      transfer, for the amount, stamped `now`, with no receipt yet. */
  predicate IsTransferEntry(t: Transaction, id: nat, senderId: nat, amount: int, now: nat) {
    && t.id == id && t.userId == senderId && t.createdBy == senderId
    && t.txType == Transfer && t.amount == amount && t.timestamp == now && t.receipt.None?
  }

  /** The transfer handler after the middleware and the schema: sender, PIN,
      funds, then recipient. */
  function TransferOutcome(db: Db, senderId: nat, req: TransferRequest, now: nat): (r: (Response, Db))
    ensures r.0.status != 200 ==> r.1 == db
    ensures r.0.status == 200 <==>
              && GetUser(db.users, senderId).Some?
              && GetUser(db.users, senderId).value.pin == req.pin
              && GetUser(db.users, senderId).value.balance >= req.amount
              && (req.transferMethod == Direct ==>
                    ResolveRecipient(db.users, req).Some? && ResolveRecipient(db.users, req).value.status == Active)
    ensures r.0.status == 200 ==>
              && |r.1.transactions| == |db.transactions| + 1
              && r.1.transactions[..|db.transactions|] == db.transactions
              && IsTransferEntry(r.1.transactions[|db.transactions|], db.nextTxId, senderId, req.amount, now)
              && r.1.nextTxId == db.nextTxId + 1 && r.1.nextUserId == db.nextUserId
    // The rejections, each in the order the handler checks them.
    ensures GetUser(db.users, senderId).None? ==> r.0 == Reject(404, UserNotFound)
    ensures var s := GetUser(db.users, senderId);
            s.Some? && s.value.pin != req.pin ==> r.0 == Reject(400, InvalidPin)
    ensures var s := GetUser(db.users, senderId);
            s.Some? && s.value.pin == req.pin && s.value.balance < req.amount ==> r.0 == Reject(400, InsufficientFunds)
    ensures var s := GetUser(db.users, senderId);
            (&& s.Some? && s.value.pin == req.pin && s.value.balance >= req.amount && req.transferMethod == Direct
             && ResolveRecipient(db.users, req).None?) ==> r.0 == Reject(404, RecipientNotFound)
    ensures var s := GetUser(db.users, senderId);
            var t := ResolveRecipient(db.users, req);
            (&& s.Some? && s.value.pin == req.pin && s.value.balance >= req.amount && req.transferMethod == Direct
             && t.Some? && t.value.status != Active) ==> r.0 == Reject(400, RecipientInactive)
  {
    GetUserFinds(db.users, senderId);
    match GetUser(db.users, senderId)
    case None => (Reject(404, UserNotFound), db)
    case Some(sender) =>
      if sender.pin != req.pin then (Reject(400, InvalidPin), db)
      else if sender.balance < req.amount then (Reject(400, InsufficientFunds), db)
      else if req.transferMethod == Direct then
        match ResolveRecipient(db.users, req)
        case None => (Reject(404, RecipientNotFound), db)
        case Some(recipient) =>
          if recipient.status != Active then (Reject(400, RecipientInactive), db)
          else DirectTransfer(db, sender, recipient, req, now)
      else ExternalTransfer(db, sender, req, now)
  }

  /** POST /api/transfer. */
  function TransferSpec(db: Db, header: Option<string>, query: Option<string>, input: TransferInput, now: nat): (r: (Response, Db))
    ensures r.0.status != 200 ==> r.1 == db
    ensures AuthenticateActive(db.users, header, query).Err? ==> r == (AuthenticateActive(db.users, header, query).error, db)
    ensures AuthenticateActive(db.users, header, query).Ok? && ParseTransfer(input).None? ==>
              r == (Reject(400, InvalidTransferData), db)
    ensures AuthenticateActive(db.users, header, query).Ok? && ParseTransfer(input).Some? ==>
              r == TransferOutcome(db, AuthenticateActive(db.users, header, query).value.id, ParseTransfer(input).value, now)
  {
    match AuthenticateActive(db.users, header, query)
    case Err(e) => (e, db)
    case Ok(caller) =>
      match ParseTransfer(input)
      case None => (Reject(400, InvalidTransferData), db)
      case Some(req) => TransferOutcome(db, caller.id, req, now)
  }

  method HandleTransfer(store: Store, header: Option<string>, query: Option<string>, input: TransferInput, now: nat)
    returns (resp: Response)
    requires store.Valid()
    modifies store
    ensures store.Valid()
    ensures (resp, store.Snapshot()) == TransferSpec(old(store.Snapshot()), header, query, input, now)
  {
    var caller := AuthenticateActive(store.users, header, query);
    if caller.Err? {
      return caller.error;
    }
    var parsed := ParseTransfer(input);
    if parsed.None? {
      return Reject(400, InvalidTransferData);
    }
    resp := ExecuteTransfer(store, caller.value.id, parsed.value, now);
  }

  /** The checks of the transfer handler, in order, then the writes. */
  method ExecuteTransfer(store: Store, senderId: nat, req: TransferRequest, now: nat) returns (resp: Response)
    requires store.Valid()
    modifies store
    ensures store.Valid()
    ensures (resp, store.Snapshot()) == TransferOutcome(old(store.Snapshot()), senderId, req, now)
  {
    var found := GetUser(store.users, senderId);
    if found.None? {
      return Reject(404, UserNotFound);
    }
    var sender := found.value;
    if sender.pin != req.pin {
      return Reject(400, InvalidPin);
    }
    if sender.balance < req.amount {
      return Reject(400, InsufficientFunds);
    }
    if req.transferMethod == Direct {
      var resolved := ResolveRecipient(store.users, req);
      if resolved.None? {
        return Reject(404, RecipientNotFound);
      }
      if resolved.value.status != Active {
        return Reject(400, RecipientInactive);
      }
      resp := PerformDirectTransfer(store, sender, resolved.value, req, now);
    } else {
      resp := PerformExternalTransfer(store, sender, req, now);
    }
  }

  /** The writes of a direct transfer. The sender's new balance is computed
      from `sender`, the row as read before the recipient was credited. */
  method PerformDirectTransfer(store: Store, sender: User, recipient: User, req: TransferRequest, now: nat)
    returns (resp: Response)
    requires store.Valid()
    modifies store
    ensures store.Valid()
    ensures (resp, store.Snapshot()) == DirectTransfer(old(store.Snapshot()), sender, recipient, req, now)
  {
    var amount := req.amount;
    var senderBalance := sender.balance;
    var info := DirectInfo(recipient.email, recipient.username, MemoText(req.memo));
    var _ := store.UpdateUserBalance(recipient.id, recipient.balance + amount);
    var tx := store.CreateTransaction(sender.id, Transfer, amount, info, now, sender.id);
    var _ := store.UpdateUserBalance(sender.id, senderBalance - amount);
    resp := Response(200, "Transfer successful",
                     TransferBody(tx.id, amount, tx.timestamp, MemoText(req.memo), Direct,
                                  recipient.username, Some(recipient.email), None));
  }

  /** The writes of a wire, bank, card or peer-to-peer transfer. */
  method PerformExternalTransfer(store: Store, sender: User, req: TransferRequest, now: nat)
    returns (resp: Response)
    requires store.Valid() && req.transferMethod != Direct
    modifies store
    ensures store.Valid()
    ensures (resp, store.Snapshot()) == ExternalTransfer(old(store.Snapshot()), sender, req, now)
  {
    var amount := req.amount;
    var senderBalance := sender.balance;
    var info := ExternalRecipientInfo(req.transferMethod, req.memo, req.additionalData);
    var tx := store.CreateTransaction(sender.id, Transfer, amount, info, now, sender.id);
    var _ := store.UpdateUserBalance(sender.id, senderBalance - amount);
    resp := Response(200, "Transfer successful",
                     TransferBody(tx.id, amount, tx.timestamp, MemoText(req.memo), req.transferMethod,
                                  "External Recipient", None, Some(info)));
  }

  // ---------------------------------------------------------------------
  // Admin transaction

  /** The body of POST /api/admin/transactions. A field is missing when absent
      or falsy: an empty string, or a zero number. */
  datatype AdminTxInput = AdminTxInput(
    userId: Option<int>,
    txType: Option<string>,
    amount: Option<int>,
    timestamp: Option<nat>,
    recipientInfo: Option<string>)

  /** `!userId || !type || !amount || !timestamp`: a field that is absent or
      falsy counts as missing, so a zero amount or an empty type is refused. */
  predicate MissingRequired(input: AdminTxInput)
    ensures input.amount == Some(0) || input.txType == Some("") || input.userId == Some(0) ==> MissingRequired(input)
    ensures !MissingRequired(input) ==>
              input.userId.Some? && input.txType.Some? && input.amount.Some? && input.timestamp.Some?
  {
    || input.userId.None? || input.userId.value == 0
    || !Present(input.txType)
    || input.amount.None? || input.amount.value == 0
    || input.timestamp.None? || input.timestamp.value == 0
  }

  /** `recipientInfo || null`: the admin's text, or no descriptor when it is absent or empty. */
  function AdminRecipientInfo(text: Option<string>): (r: RecipientInfo)
    ensures r == NoInfo <==> !Present(text)
    ensures Present(text) ==> r == Raw(text.value)
  {
    if Present(text) then Raw(text.value) else NoInfo
  }

  /** The admin-transaction handler after the middleware: field, type and user
      checks, then the log entry, then the balance rule of the type. The amount
      is not checked to be positive. */
  function AdminTransactionOutcome(db: Db, adminId: nat, input: AdminTxInput): (r: (Response, Db))
    ensures r.0.status != 200 && r.0.message != InsufficientFunds ==> r.1 == db
    ensures r.0.status == 200 || r.0.message == InsufficientFunds ==>
              && !MissingRequired(input)
              && |r.1.transactions| == |db.transactions| + 1
              && r.1.transactions[..|db.transactions|] == db.transactions
              && r.1.transactions[|db.transactions|].createdBy == adminId
              && r.1.transactions[|db.transactions|].amount == input.amount.value
    // The rejections, in the order the handler checks them.
    ensures MissingRequired(input) ==> r == (Reject(400, MissingFieldsMessage), db)
    ensures !MissingRequired(input) && ParseTxType(input.txType.value).None? ==> r == (Reject(400, InvalidTxType), db)
    ensures (&& !MissingRequired(input) && ParseTxType(input.txType.value).Some?
             && GetUser(db.users, input.userId.value).None?) ==> r == (Reject(404, UserNotFound), db)
    // An entry is written only for a valid type and an existing user, and
    // records that user and type.
    ensures r.0.status == 200 || r.0.message == InsufficientFunds ==>
              && ParseTxType(input.txType.value).Some? && GetUser(db.users, input.userId.value).Some?
              && r.1.transactions[|db.transactions|].userId == GetUser(db.users, input.userId.value).value.id
              && r.1.transactions[|db.transactions|].txType == ParseTxType(input.txType.value).value
    // Success exactly when the checks pass and a debit is covered.
    ensures r.0.status == 200 <==>
              && !MissingRequired(input) && ParseTxType(input.txType.value).Some?
              && GetUser(db.users, input.userId.value).Some?
              && (ParseTxType(input.txType.value).value == Deposit
                  || GetUser(db.users, input.userId.value).value.balance >= input.amount.value)
  {
    if MissingRequired(input) then (Reject(400, MissingFieldsMessage), db)
    else match ParseTxType(input.txType.value)
      case None => (Reject(400, InvalidTxType), db)
      case Some(txType) =>
        match GetUser(db.users, input.userId.value)
        case None => (Reject(404, UserNotFound), db)
        case Some(user) =>
          var amount := input.amount.value;
          var logged := InsertTransaction(db, user.id, txType, amount, AdminRecipientInfo(input.recipientInfo),
                                          input.timestamp.value, adminId);
          var tx := logged.transactions[|db.transactions|];
          var ok := Response(200, "Transaction created successfully", TransactionBody(tx));
          if txType == Deposit then (ok, PatchDb(logged, user.id, SetBalance(user.balance + amount)))
          else if user.balance < amount then (Reject(400, InsufficientFunds), logged)
          else (ok, PatchDb(logged, user.id, SetBalance(user.balance - amount)))
  }

  /** POST /api/admin/transactions. */
  function AdminTransactionSpec(db: Db, header: Option<string>, query: Option<string>, input: AdminTxInput): (r: (Response, Db))
    ensures AuthenticateAdmin(db.users, header, query).Err? ==> r == (AuthenticateAdmin(db.users, header, query).error, db)
    ensures AuthenticateAdmin(db.users, header, query).Ok? ==>
              r == AdminTransactionOutcome(db, AuthenticateAdmin(db.users, header, query).value.id, input)
  {
    match AuthenticateAdmin(db.users, header, query)
    case Err(e) => (e, db)
    case Ok(admin) => AdminTransactionOutcome(db, admin.id, input)
  }

  method HandleAdminTransaction(store: Store, header: Option<string>, query: Option<string>, input: AdminTxInput)
    returns (resp: Response)
    requires store.Valid()
    modifies store
    ensures store.Valid()
    ensures (resp, store.Snapshot()) == AdminTransactionSpec(old(store.Snapshot()), header, query, input)
  {
    var caller := AuthenticateAdmin(store.users, header, query);
    if caller.Err? {
      return caller.error;
    }
    resp := ExecuteAdminTransaction(store, caller.value.id, input);
  }

  method ExecuteAdminTransaction(store: Store, adminId: nat, input: AdminTxInput) returns (resp: Response)
    requires store.Valid()
    modifies store
    ensures store.Valid()
    ensures (resp, store.Snapshot()) == AdminTransactionOutcome(old(store.Snapshot()), adminId, input)
  {
    if MissingRequired(input) {
      return Reject(400, MissingFieldsMessage);
    }
    var txType := ParseTxType(input.txType.value);
    if txType.None? {
      return Reject(400, InvalidTxType);
    }
    var found := GetUser(store.users, input.userId.value);
    if found.None? {
      return Reject(404, UserNotFound);
    }
    var user := found.value;
    var amount := input.amount.value;
    var tx := store.CreateTransaction(user.id, txType.value, amount, AdminRecipientInfo(input.recipientInfo),
                                      input.timestamp.value, adminId);
    var newBalance := user.balance;
    if txType.value == Deposit {
      newBalance := newBalance + amount;
    } else {
      if newBalance < amount {
        return Reject(400, InsufficientFunds);
      }
      newBalance := newBalance - amount;
    }
    var _ := store.UpdateUserBalance(user.id, newBalance);
    resp := Response(200, "Transaction created successfully", TransactionBody(tx));
  }

  // ---------------------------------------------------------------------
  // Account creation

  /** The duplicate checks and insert shared by signup and admin-create. */
  function CreateAccount(db: Db, nu: NewUser, now: nat): (r: Result<(User, Db), Response>)
    ensures r.Err? ==> r.error.status == 400
    ensures r.Err? <==> GetUserByUsername(db.users, nu.username).Some? || GetUserByEmail(db.users, nu.email).Some?
    ensures r.Ok? ==> r.value.1.users == db.users + [r.value.0] && r.value.1.transactions == db.transactions
    ensures r.Ok? ==> r.value.0.id == db.nextUserId && VerifyPassword(nu.password, r.value.0.password)
    ensures GetUserByUsername(db.users, nu.username).Some? ==> r == Err(Reject(400, UsernameTaken))
    ensures GetUserByUsername(db.users, nu.username).None? && GetUserByEmail(db.users, nu.email).Some? ==>
              r == Err(Reject(400, EmailTaken))
    // The stored row is the one createUser builds from the validated input.
    ensures r.Ok? ==> r.value.0 == NewUserRow(db.nextUserId, nu, now) && r.value.1 == InsertUser(db, nu, now)
  {
    if GetUserByUsername(db.users, nu.username).Some? then Err(Reject(400, UsernameTaken))
    else if GetUserByEmail(db.users, nu.email).Some? then Err(Reject(400, EmailTaken))
    else Ok((NewUserRow(db.nextUserId, nu, now), InsertUser(db, nu, now)))
  }

  /** POST /api/signup: role forced to user and balance to 0. */
  function SignupSpec(db: Db, input: UserInput, now: nat): (r: (Response, Db))
    ensures r.0.status != 201 ==> r.1 == db
    ensures r.0.status == 201 ==> |r.1.users| == |db.users| + 1 && r.1.users[..|db.users|] == db.users
    ensures r.0.status == 201 ==> r.1.users[|db.users|].role == UserRole && r.1.users[|db.users|].balance == 0
    ensures ParseInsertUser(input).None? ==> r == (Reject(400, InvalidUserData), db)
    ensures ParseInsertUser(input).Some? ==>
              var nu := ParseInsertUser(input).value.(role := UserRole, balance := Some(0));
              && (CreateAccount(db, nu, now).Err? ==> r == (CreateAccount(db, nu, now).error, db))
              && (CreateAccount(db, nu, now).Ok? ==> r.0.status == 201 && r.1 == InsertUser(db, nu, now))
    // A valid signup succeeds exactly when neither the username nor the
    // email is taken, ignoring case.
    ensures r.0.status == 201 <==>
              && ParseInsertUser(input).Some?
              && GetUserByUsername(db.users, input.username).None? && GetUserByEmail(db.users, input.email).None?
    // The new row holds the submitted name, email, PIN and status.
    ensures r.0.status == 201 ==>
              var row := r.1.users[|db.users|];
              && row.id == db.nextUserId && row.username == input.username && row.email == input.email
              && row.pin == input.pin && VerifyPassword(input.password, row.password)
              && (if input.status.None? then row.status == Active else StatusName(row.status) == input.status.value)
  {
    match ParseInsertUser(input)
    case None => (Reject(400, InvalidUserData), db)
    case Some(nu) =>
      match CreateAccount(db, nu.(role := UserRole, balance := Some(0)), now)
      case Err(e) => (e, db)
      case Ok((u, db')) => (Response(201, "User created successfully", SignupBody(u.id, u.username, u.email)), db')
  }

  method HandleSignup(store: Store, input: UserInput, now: nat) returns (resp: Response)
    requires store.Valid()
    modifies store
    ensures store.Valid()
    ensures (resp, store.Snapshot()) == SignupSpec(old(store.Snapshot()), input, now)
  {
    var parsed := ParseInsertUser(input);
    if parsed.None? {
      return Reject(400, InvalidUserData);
    }
    var nu := parsed.value;
    if GetUserByUsername(store.users, nu.username).Some? {
      return Reject(400, UsernameTaken);
    }
    if GetUserByEmail(store.users, nu.email).Some? {
      return Reject(400, EmailTaken);
    }
    var u := store.CreateUser(nu.(role := UserRole, balance := Some(0)), now);
    resp := Response(201, "User created successfully", SignupBody(u.id, u.username, u.email));
  }

  /** POST /api/admin/users: role and balance as the admin gives them. */
  function AdminCreateUserSpec(db: Db, header: Option<string>, query: Option<string>, input: UserInput, now: nat): (r: (Response, Db))
    ensures r.0.status != 201 ==> r.1 == db
    ensures r.0.status == 201 ==> |r.1.users| == |db.users| + 1 && r.1.users[..|db.users|] == db.users
    ensures AuthenticateAdmin(db.users, header, query).Err? ==> r == (AuthenticateAdmin(db.users, header, query).error, db)
    ensures AuthenticateAdmin(db.users, header, query).Ok? && ParseInsertUser(input).None? ==>
              r == (Reject(400, InvalidUserData), db)
    ensures AuthenticateAdmin(db.users, header, query).Ok? && ParseInsertUser(input).Some? ==>
              var nu := ParseInsertUser(input).value;
              && (CreateAccount(db, nu, now).Err? ==> r == (CreateAccount(db, nu, now).error, db))
              && (CreateAccount(db, nu, now).Ok? ==> r.0.status == 201 && r.1 == InsertUser(db, nu, now))
    ensures r.0.status == 201 <==>
              && AuthenticateAdmin(db.users, header, query).Ok? && ParseInsertUser(input).Some?
              && GetUserByUsername(db.users, input.username).None? && GetUserByEmail(db.users, input.email).None?
    // The new row holds the submitted fields, with the role and balance the admin gives.
    ensures r.0.status == 201 ==>
              var row := r.1.users[|db.users|];
              && row.id == db.nextUserId && row.username == input.username && row.email == input.email
              && row.pin == input.pin && VerifyPassword(input.password, row.password)
              && (if input.role.None? then row.role == UserRole else RoleName(row.role) == input.role.value)
              && (if input.status.None? then row.status == Active else StatusName(row.status) == input.status.value)
              && (if input.balance.None? then row.balance == DefaultBalance else row.balance == input.balance.value)
  {
    match AuthenticateAdmin(db.users, header, query)
    case Err(e) => (e, db)
    case Ok(_) =>
      match ParseInsertUser(input)
      case None => (Reject(400, InvalidUserData), db)
      case Some(nu) =>
        match CreateAccount(db, nu, now)
        case Err(e) => (e, db)
        case Ok((u, db')) =>
          (Response(201, "User created successfully", CreatedUserBody(u.id, u.username, u.email, u.role, u.balance)), db')
  }

  method HandleAdminCreateUser(store: Store, header: Option<string>, query: Option<string>, input: UserInput, now: nat)
    returns (resp: Response)
    requires store.Valid()
    modifies store
    ensures store.Valid()
    ensures (resp, store.Snapshot()) == AdminCreateUserSpec(old(store.Snapshot()), header, query, input, now)
  {
    var caller := AuthenticateAdmin(store.users, header, query);
    if caller.Err? {
      return caller.error;
    }
    var parsed := ParseInsertUser(input);
    if parsed.None? {
      return Reject(400, InvalidUserData);
    }
    var nu := parsed.value;
    if GetUserByUsername(store.users, nu.username).Some? {
      return Reject(400, UsernameTaken);
    }
    if GetUserByEmail(store.users, nu.email).Some? {
      return Reject(400, EmailTaken);
    }
    var u := store.CreateUser(nu, now);
    resp := Response(201, "User created successfully", CreatedUserBody(u.id, u.username, u.email, u.role, u.balance));
  }

  // ---------------------------------------------------------------------
  // Status update

  /** PUT /api/admin/users/:id. */
  function UpdateStatusSpec(db: Db, header: Option<string>, query: Option<string>, id: int, status: Option<string>): (r: (Response, Db))
    ensures r.0.status != 200 ==> r.1 == db
    ensures AuthenticateAdmin(db.users, header, query).Ok? && (status.None? || ParseStatus(status.value).None?) ==>
              r.0 == Reject(400, InvalidStatus)
    ensures (&& AuthenticateAdmin(db.users, header, query).Ok? && status.Some?
             && ParseStatus(status.value).Some? && GetUser(db.users, id).None?) ==> r.0 == Reject(404, UserNotFound)
    ensures r.0.status == 200 ==> r.0.body.UserBody? && status.Some? && StatusName(r.0.body.user.status) == status.value
    // Only an authenticated admin gets past the middleware.
    ensures AuthenticateAdmin(db.users, header, query).Err? ==> r == (AuthenticateAdmin(db.users, header, query).error, db)
    ensures r.0.status == 200 <==>
              && AuthenticateAdmin(db.users, header, query).Ok? && status.Some?
              && ParseStatus(status.value).Some? && GetUser(db.users, id).Some?
    ensures r.0.status == 200 ==>
              && r.0.body.user.id == id
              && r.1 == PatchDb(db, id, SetStatus(ParseStatus(status.value).value))
  {
    match AuthenticateAdmin(db.users, header, query)
    case Err(e) => (e, db)
    case Ok(_) =>
      if status.None? || ParseStatus(status.value).None? then (Reject(400, InvalidStatus), db)
      else
        var st := ParseStatus(status.value).value;
        match PatchedRow(db.users, id, SetStatus(st))
        case None => (Reject(404, UserNotFound), db)
        case Some(u) => (Response(200, "User status updated successfully", UserBody(u)), PatchDb(db, id, SetStatus(st)))
  }

  method HandleUpdateStatus(store: Store, header: Option<string>, query: Option<string>, id: int, status: Option<string>)
    returns (resp: Response)
    requires store.Valid()
    modifies store
    ensures store.Valid()
    ensures (resp, store.Snapshot()) == UpdateStatusSpec(old(store.Snapshot()), header, query, id, status)
  {
    var caller := AuthenticateAdmin(store.users, header, query);
    if caller.Err? {
      return caller.error;
    }
    if status.None? || ParseStatus(status.value).None? {
      return Reject(400, InvalidStatus);
    }
    var updated := store.UpdateUserStatus(id, ParseStatus(status.value).value);
    if updated.None? {
      return Reject(404, UserNotFound);
    }
    resp := Response(200, "User status updated successfully", UserBody(updated.value));
  }

  // ---------------------------------------------------------------------
  // Login and logout

  /** POST /api/login: the account is looked up by name ignoring case; a
      missing account is 401, an account that is not active is 403 before the
      password is checked, a wrong password is 401. */
  function LoginSpec(db: Db, input: LoginInput, newToken: string, now: nat): (r: (Response, Db))
    ensures r.0.status != 200 ==> r.1 == db
    ensures r.0.status == 200 ==> r.0.body.LoginBody? && r.0.body.token == newToken
    ensures r.0.status == 200 ==> exists u :: u in db.users && u.status == Active && VerifyPassword(input.password, u.password)
    // The checks in order: the schema, the account named, its status, then the password.
    ensures ParseLogin(input).None? ==> r.0 == Reject(400, InvalidRequestData)
    ensures var found := GetUserByUsername(db.users, ToLower(input.username));
            ParseLogin(input).Some? && found.None? ==> r.0 == Reject(401, InvalidCredentials)
    ensures var found := GetUserByUsername(db.users, ToLower(input.username));
            ParseLogin(input).Some? && found.Some? && found.value.status != Active ==> r.0 == Reject(403, InactiveLoginMessage)
    ensures var found := GetUserByUsername(db.users, ToLower(input.username));
            (&& ParseLogin(input).Some? && found.Some? && found.value.status == Active
             && !VerifyPassword(input.password, found.value.password)) ==> r.0 == Reject(401, InvalidCredentials)
    ensures var found := GetUserByUsername(db.users, ToLower(input.username));
            r.0.status == 200 <==>
              && ParseLogin(input).Some? && found.Some? && found.value.status == Active
              && VerifyPassword(input.password, found.value.password)
    ensures var found := GetUserByUsername(db.users, ToLower(input.username));
            r.0.status == 200 ==>
              && r.0.body.id == found.value.id && r.0.body.username == found.value.username
              && r.1 == PatchDb(PatchDb(db, found.value.id, SetLastLogin(now)), found.value.id, SetToken(newToken, now))
  {
    match ParseLogin(input)
    case None => (Reject(400, InvalidRequestData), db)
    case Some(l) =>
      match GetUserByUsername(db.users, ToLower(l.username))
      case None => (Reject(401, InvalidCredentials), db)
      case Some(u) =>
        if u.status != Active then (Reject(403, InactiveLoginMessage), db)
        else if !VerifyPassword(l.password, u.password) then (Reject(401, InvalidCredentials), db)
        else
          var stamped := PatchDb(db, u.id, SetLastLogin(now));
          var issued := PatchDb(stamped, u.id, SetToken(newToken, now));
          (Response(200, "", LoginBody(u.id, u.username, u.email, u.role, newToken)), issued)
  }

  method HandleLogin(store: Store, input: LoginInput, newToken: string, now: nat) returns (resp: Response)
    requires store.Valid()
    modifies store
    ensures store.Valid()
    ensures (resp, store.Snapshot()) == LoginSpec(old(store.Snapshot()), input, newToken, now)
  {
    var parsed := ParseLogin(input);
    if parsed.None? {
      return Reject(400, InvalidRequestData);
    }
    var found := GetUserByUsername(store.users, ToLower(parsed.value.username));
    if found.None? {
      return Reject(401, InvalidCredentials);
    }
    var user := found.value;
    if user.status != Active {
      return Reject(403, InactiveLoginMessage);
    }
    if !VerifyPassword(parsed.value.password, user.password) {
      return Reject(401, InvalidCredentials);
    }
    var _ := store.UpdateUser(user.id, SetLastLogin(now));
    var _ := store.UpdateUser(user.id, SetToken(newToken, now));
    resp := Response(200, "", LoginBody(user.id, user.username, user.email, user.role, newToken));
  }

  /** POST /api/logout: after authentication, the header's token (not the
      query's) is cleared from every account holding it. */
  function LogoutSpec(db: Db, header: Option<string>, query: Option<string>): (r: (Response, Db))
    ensures r.0.status != 200 ==> r.1 == db
    ensures r.0.status == 200 ==> Present(BearerToken(header))
    ensures r.0.status == 200 ==> r.1 == db.(users := ClearTokenRows(db.users, BearerToken(header).value))
    ensures Authenticate(db.users, header, query).Err? ==> r == (Authenticate(db.users, header, query).error, db)
    ensures Authenticate(db.users, header, query).Ok? && !Present(BearerToken(header)) ==>
              r == (Reject(400, NoTokenProvided), db)
    ensures r.0.status == 200 <==> Authenticate(db.users, header, query).Ok? && Present(BearerToken(header))
  {
    match Authenticate(db.users, header, query)
    case Err(e) => (e, db)
    case Ok(_) =>
      var token := BearerToken(header);
      if !Present(token) then (Reject(400, NoTokenProvided), db)
      else (Response(200, "Logged out successfully", NoBody), db.(users := ClearTokenRows(db.users, token.value)))
  }

  method HandleLogout(store: Store, header: Option<string>, query: Option<string>) returns (resp: Response)
    requires store.Valid()
    modifies store
    ensures store.Valid()
    ensures (resp, store.Snapshot()) == LogoutSpec(old(store.Snapshot()), header, query)
  {
    var caller := Authenticate(store.users, header, query);
    if caller.Err? {
      return caller.error;
    }
    var token := BearerToken(header);
    if !Present(token) {
      return Reject(400, NoTokenProvided);
    }
    store.RevokeToken(token.value);
    resp := Response(200, "Logged out successfully", NoBody);
  }

  // ---------------------------------------------------------------------
  // Avatar and receipt

  /** POST /api/user/avatar. */
  function UpdateAvatarSpec(db: Db, header: Option<string>, query: Option<string>, avatar: Option<string>): (r: (Response, Db))
    ensures r.0.status != 200 ==> r.1 == db
    ensures r.0.status == 200 ==> Present(avatar) && r.1.transactions == db.transactions
    ensures AuthenticateActive(db.users, header, query).Err? ==> r == (AuthenticateActive(db.users, header, query).error, db)
    ensures AuthenticateActive(db.users, header, query).Ok? && !Present(avatar) ==> r == (Reject(400, AvatarRequired), db)
    ensures r.0.status == 200 <==> AuthenticateActive(db.users, header, query).Ok? && Present(avatar)
    ensures r.0.status == 200 ==>
              r.1 == PatchDb(db, AuthenticateActive(db.users, header, query).value.id, SetAvatar(avatar.value))
  {
    match AuthenticateActive(db.users, header, query)
    case Err(e) => (e, db)
    case Ok(caller) =>
      if !Present(avatar) then (Reject(400, AvatarRequired), db)
      else (Response(200, "Avatar updated successfully", NoBody), PatchDb(db, caller.id, SetAvatar(avatar.value)))
  }

  method HandleUpdateAvatar(store: Store, header: Option<string>, query: Option<string>, avatar: Option<string>)
    returns (resp: Response)
    requires store.Valid()
    modifies store
    ensures store.Valid()
    ensures (resp, store.Snapshot()) == UpdateAvatarSpec(old(store.Snapshot()), header, query, avatar)
  {
    var caller := AuthenticateActive(store.users, header, query);
    if caller.Err? {
      return caller.error;
    }
    if !Present(avatar) {
      return Reject(400, AvatarRequired);
    }
    var _ := store.UpdateUserAvatar(caller.value.id, avatar.value);
    resp := Response(200, "Avatar updated successfully", NoBody);
  }

  /** POST /api/transaction/:id/receipt: any active caller may set the receipt
      of any transaction; an unknown id is still answered with success. */
  function AttachReceiptSpec(db: Db, header: Option<string>, query: Option<string>, txId: int, receipt: Option<string>): (r: (Response, Db))
    ensures r.0.status != 200 ==> r.1 == db
    ensures r.0.status == 200 ==> Present(receipt) && r.1.users == db.users
    ensures r.0.status == 200 ==> r.1.transactions == SetReceiptRows(db.transactions, txId, receipt.value)
    ensures AuthenticateActive(db.users, header, query).Err? ==> r == (AuthenticateActive(db.users, header, query).error, db)
    ensures AuthenticateActive(db.users, header, query).Ok? && !Present(receipt) ==> r == (Reject(400, ReceiptRequired), db)
    ensures r.0.status == 200 <==> AuthenticateActive(db.users, header, query).Ok? && Present(receipt)
  {
    match AuthenticateActive(db.users, header, query)
    case Err(e) => (e, db)
    case Ok(_) =>
      if !Present(receipt) then (Reject(400, ReceiptRequired), db)
      else (Response(200, "Receipt saved successfully", NoBody),
            db.(transactions := SetReceiptRows(db.transactions, txId, receipt.value)))
  }

  method HandleAttachReceipt(store: Store, header: Option<string>, query: Option<string>, txId: int, receipt: Option<string>)
    returns (resp: Response)
    requires store.Valid()
    modifies store
    ensures store.Valid()
    ensures (resp, store.Snapshot()) == AttachReceiptSpec(old(store.Snapshot()), header, query, txId, receipt)
  {
    var caller := AuthenticateActive(store.users, header, query);
    if caller.Err? {
      return caller.error;
    }
    if !Present(receipt) {
      return Reject(400, ReceiptRequired);
    }
    store.UpdateTransactionReceipt(txId, receipt.value);
    resp := Response(200, "Receipt saved successfully", NoBody);
  }

  // ---------------------------------------------------------------------
  // Read-only routes

  /** The profile of the account with that id and its five most recent transactions. */
  function ProfileResponse(db: Db, id: nat): (r: Response)
    ensures r.status == 200 <==> GetUser(db.users, id).Some?
    ensures r.status == 200 ==> r.body.ProfileBody? && r.body.id == id && |r.body.recentTransactions| <= 5
    ensures r.status == 200 ==> forall t :: t in r.body.recentTransactions ==> t in db.transactions && t.userId == id
    ensures r.status != 200 ==> r == Reject(404, UserNotFound)
    ensures r.status == 200 ==>
              var u := GetUser(db.users, id).value;
              r.body == ProfileBody(u.id, u.username, u.email, u.balance, u.avatar, u.role,
                                    GetRecentTransactions(db.transactions, id, 5))
  {
    GetUserFinds(db.users, id);
    match GetUser(db.users, id)
    case None => Reject(404, UserNotFound)
    case Some(u) =>
      Response(200, "", ProfileBody(u.id, u.username, u.email, u.balance, u.avatar, u.role,
                                    GetRecentTransactions(db.transactions, u.id, 5)))
  }

  /** GET /api/user: the caller's profile with the five most recent transactions. */
  function CurrentUserResponse(db: Db, header: Option<string>, query: Option<string>): (r: Response)
    ensures r.status == 200 ==> r.body.ProfileBody? && |r.body.recentTransactions| <= 5
    ensures r.status == 200 ==> forall t :: t in r.body.recentTransactions ==> t in db.transactions && t.userId == r.body.id
    ensures r.status == 200 <==> AuthenticateActive(db.users, header, query).Ok?
    ensures AuthenticateActive(db.users, header, query).Err? ==> r == AuthenticateActive(db.users, header, query).error
    ensures AuthenticateActive(db.users, header, query).Ok? ==>
              r == ProfileResponse(db, AuthenticateActive(db.users, header, query).value.id)
  {
    match AuthenticateActive(db.users, header, query)
    case Err(e) => e
    case Ok(caller) =>
      GetUserFinds(db.users, caller.id);
      ProfileResponse(db, caller.id)
  }

  /** GET /api/history: the caller's transactions, newest first. */
  function HistoryResponse(db: Db, header: Option<string>, query: Option<string>): (r: Response)
    ensures r.status == 200 <==> AuthenticateActive(db.users, header, query).Ok?
    ensures r.status == 200 ==> r.body.TransactionsBody? && NewestFirst(r.body.transactions)
    ensures r.status == 200 ==> forall t :: t in r.body.transactions <==>
              t in db.transactions && t.userId == AuthenticateActive(db.users, header, query).value.id
    ensures r.status == 200 ==>
              r.body.transactions == GetUserTransactions(db.transactions, AuthenticateActive(db.users, header, query).value.id)
  {
    match AuthenticateActive(db.users, header, query)
    case Err(e) => e
    case Ok(caller) => Response(200, "", TransactionsBody(GetUserTransactions(db.transactions, caller.id)))
  }

  /** GET /api/admin/users: every account that is not deleted. */
  function AdminUsersResponse(db: Db, header: Option<string>, query: Option<string>): (r: Response)
    ensures r.status == 200 <==> AuthenticateAdmin(db.users, header, query).Ok?
    ensures r.status == 200 ==> r.body.UsersBody? && forall u :: u in r.body.users <==> u in db.users && u.status != Deleted
    ensures r.status == 200 ==> r.body.users == GetAllUsers(db.users)
  {
    match AuthenticateAdmin(db.users, header, query)
    case Err(e) => e
    case Ok(_) => Response(200, "", UsersBody(GetAllUsers(db.users)))
  }

  /** GET /api/admin/transactions: every transaction, newest first. */
  function AdminTransactionsResponse(db: Db, header: Option<string>, query: Option<string>): (r: Response)
    ensures r.status == 200 <==> AuthenticateAdmin(db.users, header, query).Ok?
    ensures r.status == 200 ==> r.body.TransactionsBody? && NewestFirst(r.body.transactions)
                                && multiset(r.body.transactions) == multiset(db.transactions)
  {
    match AuthenticateAdmin(db.users, header, query)
    case Err(e) => e
    case Ok(_) => Response(200, "", TransactionsBody(GetAllTransactions(db.transactions)))
  }
}
