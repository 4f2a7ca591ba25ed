/** The shared schema: the enumerations stored in the database and the
    validators that request bodies pass through before a handler uses them.
    Money is counted in integer cents, so a decimal(15, 2) column is an `int`. */
module Schema {
  import opened Wrappers

  datatype Role = UserRole | AdminRole
  datatype Status = Active | Inactive | Deleted
  datatype TxType = Deposit | Withdrawal | Transfer
  datatype TransferMethod = Direct | Wire | Bank | Card | P2P
  datatype RecipientType = ByEmail | ByUsername

  /** The balance column's default, "0.00". */
  const DefaultBalance: int := 0

  // ---------------------------------------------------------------------
  // Enumeration names, as stored and as sent in request bodies

  function ParseRole(s: string): (r: Option<Role>)
    ensures r.Some? <==> s == "user" || s == "admin"
  {
    if s == "user" then Some(UserRole)
    else if s == "admin" then Some(AdminRole)
    else None
  }

  function RoleName(role: Role): (s: string)
    ensures ParseRole(s) == Some(role)
  {
    match role
    case UserRole => "user"
    case AdminRole => "admin"
  }

  function ParseStatus(s: string): (r: Option<Status>)
    ensures r.Some? <==> s == "active" || s == "inactive" || s == "deleted"
  {
    if s == "active" then Some(Active)
    else if s == "inactive" then Some(Inactive)
    else if s == "deleted" then Some(Deleted)
    else None
  }

  function StatusName(status: Status): (s: string)
    ensures ParseStatus(s) == Some(status)
  {
    match status
    case Active => "active"
    case Inactive => "inactive"
    case Deleted => "deleted"
  }

  function ParseTxType(s: string): (r: Option<TxType>)
    ensures r.Some? <==> s == "deposit" || s == "withdrawal" || s == "transfer"
  {
    if s == "deposit" then Some(Deposit)
    else if s == "withdrawal" then Some(Withdrawal)
    else if s == "transfer" then Some(Transfer)
    else None
  }

  function TxTypeName(t: TxType): (s: string)
    ensures ParseTxType(s) == Some(t)
  {
    match t
    case Deposit => "deposit"
    case Withdrawal => "withdrawal"
    case Transfer => "transfer"
  }

  function ParseTransferMethod(s: string): (r: Option<TransferMethod>)
    ensures r.Some? <==> s in ["direct", "wire", "bank", "card", "p2p"]
  {
    if s == "direct" then Some(Direct)
    else if s == "wire" then Some(Wire)
    else if s == "bank" then Some(Bank)
    else if s == "card" then Some(Card)
    else if s == "p2p" then Some(P2P)
    else None
  }

  function TransferMethodName(m: TransferMethod): (s: string)
    ensures ParseTransferMethod(s) == Some(m)
  {
    match m
    case Direct => "direct"
    case Wire => "wire"
    case Bank => "bank"
    case Card => "card"
    case P2P => "p2p"
  }

  function ParseRecipientType(s: string): (r: Option<RecipientType>)
    ensures r.Some? <==> s == "email" || s == "username"
    ensures r == Some(ByEmail) <==> s == "email"
  {
    if s == "email" then Some(ByEmail)
    else if s == "username" then Some(ByUsername)
    else None
  }

  // ---------------------------------------------------------------------
  // Character classes (ASCII; the patterns below are ASCII-only)

  predicate IsDigit(c: char) { '0' <= c <= '9' }
  predicate IsLetter(c: char) { 'a' <= c <= 'z' || 'A' <= c <= 'Z' }
  predicate IsAlnum(c: char) { IsLetter(c) || IsDigit(c) }

  /** The characters allowed anywhere in the local part of an address. */
  predicate IsLocalChar(c: char) {
    IsAlnum(c) || c == '_' || c == '\'' || c == '+' || c == '-' || c == '.'
  }

  /** The characters allowed as the last character of the local part. */
  predicate IsLocalEndChar(c: char) {
    IsAlnum(c) || c == '_' || c == '+' || c == '-'
  }

  /** The first position of `c` in `s`, if any. */
  function IndexOf(s: string, c: char): (r: Option<nat>)
    ensures r.Some? ==> r.value < |s| && s[r.value] == c
    ensures r.Some? ==> forall j :: 0 <= j < r.value ==> s[j] != c
    ensures r.None? <==> forall j :: 0 <= j < |s| ==> s[j] != c
  {
    if |s| == 0 then None
    else if s[0] == c then Some(0)
    else match IndexOf(s[1..], c)
      case None => None
      case Some(k) => Some(k + 1)
  }

  /** The last position of `c` in `s`, if any. */
  function LastIndexOf(s: string, c: char): (r: Option<nat>)
    ensures r.Some? ==> r.value < |s| && s[r.value] == c
    ensures r.Some? ==> forall j :: r.value < j < |s| ==> s[j] != c
    ensures r.None? <==> forall j :: 0 <= j < |s| ==> s[j] != c
  {
    if |s| == 0 then None
    else if s[|s| - 1] == c then Some(|s| - 1)
    else LastIndexOf(s[..|s| - 1], c)
  }

  // ---------------------------------------------------------------------
  // Field validators

  /** A PIN is exactly four decimal digits. */
  predicate ValidPin(pin: string)
    ensures ValidPin(pin) <==> |pin| == 4 && IsDigit(pin[0]) && IsDigit(pin[1]) && IsDigit(pin[2]) && IsDigit(pin[3])
  {
    |pin| == 4 && forall i :: 0 <= i < |pin| ==> IsDigit(pin[i])
  }

  /** A username of 3 to 50 characters; any such name is long enough to be
      named as a transfer recipient and is never empty at login. */
  predicate ValidUsername(username: string)
    ensures ValidUsername(username) ==> |username| >= 3
  {
    3 <= |username| <= 50
  }

  /** A password of at least 8 characters, never empty at login. */
  predicate ValidPassword(password: string)
    ensures ValidPassword(password) ==> |password| >= 1
  {
    |password| >= 8
  }

  predicate HasDoubleDot(s: string) {
    exists i :: 0 <= i < |s| - 1 && s[i] == '.' && s[i + 1] == '.'
  }

  predicate ValidLocalPart(local: string) {
    && |local| >= 1
    && local[0] != '.'
    && (forall i :: 0 <= i < |local| ==> IsLocalChar(local[i]))
    && IsLocalEndChar(local[|local| - 1])
  }

  /** Dot-separated labels, each starting with a letter or digit and made of
      letters, digits and hyphens. */
  predicate ValidHost(host: string) {
    && |host| >= 1
    && IsAlnum(host[0])
    && host[|host| - 1] != '.'
    && (forall i :: 0 <= i < |host| ==> IsAlnum(host[i]) || host[i] == '-' || host[i] == '.')
    && (forall i :: 0 <= i < |host| - 1 && host[i] == '.' ==> IsAlnum(host[i + 1]))
  }

  predicate ValidTld(tld: string) {
    |tld| >= 2 && forall i :: 0 <= i < |tld| ==> IsLetter(tld[i])
  }

  predicate ValidDomain(domain: string) {
    match LastIndexOf(domain, '.')
    case None => false
    case Some(j) => ValidHost(domain[..j]) && ValidTld(domain[j + 1..])
  }

  /** A well-formed address: local part, one '@', host labels, a top-level
      domain of two or more letters, and no ".." anywhere. */
  predicate ValidEmail(email: string)
    // A non-empty local part before the '@', and after it at least a label,
    // a dot and a two-letter top-level domain.
    ensures ValidEmail(email) ==>
              IndexOf(email, '@').Some? && 1 <= IndexOf(email, '@').value && IndexOf(email, '@').value + 5 <= |email|
  {
    match IndexOf(email, '@')
    case None => false
    case Some(k) => ValidLocalPart(email[..k]) && ValidDomain(email[k + 1..]) && !HasDoubleDot(email)
  }

  /** No '@' occurs in a well-formed domain. */
  lemma DomainHasNoAt(domain: string)
    requires ValidDomain(domain)
    ensures forall p :: 0 <= p < |domain| ==> domain[p] != '@'
  {
    var j := LastIndexOf(domain, '.').value;
    assert domain == domain[..j] + [domain[j]] + domain[j + 1..];
  }

  /** A well-formed address holds exactly one '@'. */
  lemma {:induction false} ValidEmailHasOneAt(email: string, k: nat)
    requires ValidEmail(email)
    requires k < |email| && email[k] == '@'
    ensures IndexOf(email, '@') == Some(k)
  {
    var i := IndexOf(email, '@').value;
    DomainHasNoAt(email[i + 1..]);
    forall p | i < p < |email| ensures email[p] != '@' {
      assert email[p] == email[i + 1..][p - i - 1];
    }
  }

  // ---------------------------------------------------------------------
  // insertUserSchema

  /** The body of a signup or admin create-user request, after number coercion.
      `auth_token` and `token_issued_at` are not omitted by the schema, so a
      body may carry them. */
  datatype UserInput = UserInput(
    username: string,
    password: string,
    pin: string,
    email: string,
    balance: Option<int>,
    avatar: Option<string>,
    role: Option<string>,
    status: Option<string>,
    authToken: Option<string>,
    tokenIssuedAt: Option<nat>)

  /** A validated user: role and status have their defaults applied. */
  datatype NewUser = NewUser(
    username: string,
    password: string,
    pin: string,
    email: string,
    balance: Option<int>,
    avatar: Option<string>,
    role: Role,
    status: Status,
    authToken: Option<string>,
    tokenIssuedAt: Option<nat>)

  function RoleOrDefault(role: Option<string>): (r: Option<Role>)
    ensures role.None? ==> r == Some(UserRole)
    ensures role.Some? ==> r == ParseRole(role.value)
  {
    match role
    case None => Some(UserRole)
    case Some(s) => ParseRole(s)
  }

  function StatusOrDefault(status: Option<string>): (r: Option<Status>)
    ensures status.None? ==> r == Some(Active)
    ensures status.Some? ==> r == ParseStatus(status.value)
  {
    match status
    case None => Some(Active)
    case Some(s) => ParseStatus(s)
  }

  /** The account schema; an account it accepts always passes the login
      schema with its own credentials. */
  predicate ValidUserInput(u: UserInput)
    ensures ValidUserInput(u) ==> ParseLogin(LoginInput(u.username, u.password)).Some?
    ensures ValidUserInput(u) ==> |u.pin| == 4
  {
    && ValidUsername(u.username)
    && ValidPassword(u.password)
    && ValidPin(u.pin)
    && ValidEmail(u.email)
    && (u.balance.Some? ==> u.balance.value >= 0)
    && (u.role.Some? ==> ParseRole(u.role.value).Some?)
    && (u.status.Some? ==> ParseStatus(u.status.value).Some?)
  }

  function ParseInsertUser(u: UserInput): (r: Option<NewUser>)
    ensures r.Some? <==> ValidUserInput(u)
    ensures r.Some? ==> ValidPin(r.value.pin) && 3 <= |r.value.username| <= 50
    ensures r.Some? ==> && r.value.username == u.username && r.value.password == u.password
                        && r.value.pin == u.pin && r.value.email == u.email
                        && r.value.balance == u.balance && r.value.avatar == u.avatar
                        && r.value.authToken == u.authToken && r.value.tokenIssuedAt == u.tokenIssuedAt
    ensures r.Some? ==> (if u.role.None? then r.value.role == UserRole else RoleName(r.value.role) == u.role.value)
    ensures r.Some? ==> (if u.status.None? then r.value.status == Active else StatusName(r.value.status) == u.status.value)
    ensures r.Some? && r.value.balance.Some? ==> r.value.balance.value >= 0
  {
    var role := RoleOrDefault(u.role);
    var status := StatusOrDefault(u.status);
    if ValidUsername(u.username) && ValidPassword(u.password) && ValidPin(u.pin) && ValidEmail(u.email)
       && (u.balance.Some? ==> u.balance.value >= 0) && role.Some? && status.Some?
    then
      Some(NewUser(u.username, u.password, u.pin, u.email, u.balance, u.avatar,
                   role.value, status.value, u.authToken, u.tokenIssuedAt))
    else None
  }

  // ---------------------------------------------------------------------
  // insertTransactionSchema

  datatype TransactionInput = TransactionInput(
    userId: nat,
    txType: string,
    amount: int,
    recipientInfo: Option<string>,
    timestamp: nat,
    createdBy: Option<nat>,
    receipt: Option<string>)

  datatype NewTransaction = NewTransaction(
    userId: nat,
    txType: TxType,
    amount: int,
    recipientInfo: Option<string>,
    timestamp: nat,
    createdBy: Option<nat>,
    receipt: Option<string>)

  function ParseInsertTransaction(t: TransactionInput): (r: Option<NewTransaction>)
    ensures r.Some? <==> t.amount > 0 && ParseTxType(t.txType).Some?
    ensures r.Some? ==> r.value.amount == t.amount && TxTypeName(r.value.txType) == t.txType
    ensures r.Some? ==> && r.value.userId == t.userId && r.value.recipientInfo == t.recipientInfo
                        && r.value.timestamp == t.timestamp && r.value.createdBy == t.createdBy
                        && r.value.receipt == t.receipt
  {
    match ParseTxType(t.txType)
    case None => None
    case Some(ty) =>
      if t.amount > 0
      then Some(NewTransaction(t.userId, ty, t.amount, t.recipientInfo, t.timestamp, t.createdBy, t.receipt))
      else None
  }

  // ---------------------------------------------------------------------
  // loginSchema

  datatype LoginInput = LoginInput(username: string, password: string)

  function ParseLogin(l: LoginInput): (r: Option<LoginInput>)
    ensures r.Some? <==> |l.username| >= 1 && |l.password| >= 1
    ensures r.Some? ==> r.value == l
  {
    if |l.username| >= 1 && |l.password| >= 1 then Some(l) else None
  }

  // ---------------------------------------------------------------------
  // transferSchema

  /** The body of a transfer request, after number coercion. `additionalData`
      holds the method-specific descriptor fields. */
  datatype TransferInput = TransferInput(
    recipient: string,
    recipientType: string,
    amount: int,
    memo: Option<string>,
    pin: string,
    transferMethod: Option<string>,
    additionalData: map<string, string>)

  datatype TransferRequest = TransferRequest(
    recipient: string,
    recipientType: RecipientType,
    amount: int,
    memo: Option<string>,
    pin: string,
    transferMethod: TransferMethod,
    additionalData: map<string, string>)

  /** The transfer schema: a recipient of 3 or more characters, a positive
      amount and a PIN of exactly 4 characters, whatever they contain. */
  predicate ValidTransferInput(t: TransferInput)
    ensures ValidTransferInput(t) ==> |t.recipient| >= 3 && t.amount > 0 && |t.pin| == 4
  {
    && |t.recipient| >= 3
    && ParseRecipientType(t.recipientType).Some?
    && t.amount > 0
    && |t.pin| == 4
    && (t.transferMethod.Some? ==> ParseTransferMethod(t.transferMethod.value).Some?)
  }

  /** Validates a transfer body. The PIN is only length-checked here; the
      method defaults to a direct transfer. */
  function ParseTransfer(t: TransferInput): (r: Option<TransferRequest>)
    ensures r.Some? <==> ValidTransferInput(t)
    ensures r.Some? ==> r.value.amount > 0 && r.value.amount == t.amount
    ensures r.Some? ==> |r.value.pin| == 4 && r.value.pin == t.pin
    ensures r.Some? ==> && r.value.recipient == t.recipient && |r.value.recipient| >= 3
                        && r.value.memo == t.memo && r.value.additionalData == t.additionalData
    ensures r.Some? ==> (r.value.recipientType == ByEmail <==> t.recipientType == "email")
    ensures r.Some? ==> (if t.transferMethod.None? then r.value.transferMethod == Direct
                         else TransferMethodName(r.value.transferMethod) == t.transferMethod.value)
  {
    var rt := ParseRecipientType(t.recipientType);
    var transferMethod := match t.transferMethod
      case None => Some(Direct)
      case Some(s) => ParseTransferMethod(s);
    if |t.recipient| >= 3 && rt.Some? && t.amount > 0 && |t.pin| == 4 && transferMethod.Some?
    then Some(TransferRequest(t.recipient, rt.value, t.amount, t.memo, t.pin, transferMethod.value, t.additionalData))
    else None
  }

  /** A transfer PIN is not digit-checked: "12ab" passes the transfer schema
      although no account could have been created with it. */
  lemma TransferPinIsLengthCheckedOnly()
    ensures ParseTransfer(TransferInput("bob", "username", 100, None, "12ab", None, map[])).Some?
    ensures !ValidPin("12ab")
  {
    assert !IsDigit("12ab"[2]);
  }

  /** The memo and the method-specific data never decide whether a transfer
      body is accepted. */
  lemma TransferExtrasUnchecked(t: TransferInput, memo: Option<string>, data: map<string, string>)
    ensures ParseTransfer(t).Some? <==> ParseTransfer(t.(memo := memo, additionalData := data)).Some?
  {
  }
}
