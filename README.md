# Banking ledger core, modelled in Dafny

This project models the ledger core of a small online-banking backend. It
keeps two tables:

- `users`: username, bcrypt password hash, 4-digit PIN, email, balance, role
  (`user` or `admin`), status (`active`, `inactive` or `deleted`), avatar and
  login token;
- `transactions`: owner, type (`deposit`, `withdrawal` or `transfer`), amount,
  recipient details, timestamp, the admin who created it, and a receipt.

The HTTP routes read and write these tables through a storage class. The
model has six modules:

- `Wrappers`: `Option` and `Result`.
- `Schema` (`shared/schema.ts`): the enums and the input validators for a new
  user, a new transaction, a login and a transfer. Each parser returns `None`
  exactly when the input is rejected.
- `Storage` (`api/storage.ts`): the rows, the database value `Db`, and the
  queries as pure functions:
  - lookup by id;
  - case-insensitive lookup by username and by email;
  - the non-deleted users;
  - one user's transactions, all transactions and the recent ones, newest
    first.

  It also holds the class `Store`, whose fields are the two tables and the
  two id counters. Its methods insert and patch rows in place, and each
  method's postcondition gives the new `Snapshot()` as a function of the old
  one. Ids are serial, so the invariant `WellFormed` says they increase with
  the row index.
- `Routes` (`api/routes.ts`): the routes and their checks.
  - Middleware: bearer or query token, then the active-account check or the
    admin check.
  - Routes: login, signup, logout, current user, avatar, transfer (direct and
    the four external methods), receipt, history, and the admin routes to
    create a user, list users, set a status, record a deposit or withdrawal,
    and list all transactions.
  - Each route that writes is a `Store` method that makes the route's reads,
    checks and writes in the route's order. Its postcondition equates the
    response and the new database with a spec function of the old database
    and the request.
- `RouteProperties`: what those spec functions guarantee:
  - a direct transfer debits the sender, credits the recipient, leaves every
    other account alone and keeps the total;
  - a transfer to oneself destroys the amount;
  - an external transfer only debits;
  - admin deposits and withdrawals, including the log entry a shortfall
    leaves behind;
  - signup and admin creation keep usernames and emails unique without regard
    to case;
  - a login token authenticates its holder, and logging out revokes it;
  - status, avatar and receipt updates touch only what they name.
- `AdminUsersPage` (`client/src/pages/admin/Users.tsx`): which status
  buttons an account's row shows, the status each sends, and the
  confirmation dialog.

Modelling conventions:

- Money is integer cents, and every amount the model accepts is a whole
  number of cents. The program itself does not guarantee that: the amount
  validators accept any positive number, such as 0.005, and balances are
  written back through `toFixed(2)` of a floating-point sum (see "## Left
  out").
- The clock (`now`) and the generated login token (`newToken`) are
  parameters.
- The bcrypt hash is the datatype value `Bcrypt(secret)`. Comparing a
  candidate password is secret equality.

Behaviour of the routes worth knowing, as the code has it:

- `POST /api/transaction/:id/receipt` answers 200 "Receipt saved successfully"
  for an id that matches no transaction, and also for another user's
  transaction (`api/routes.ts:564-584`). For an active caller it never
  answers 404 or 403; an inactive caller gets the middleware's 403
  (`api/routes.ts:176-178`).
- A transfer whose recipient resolves to the sender is accepted. The sender's
  balance is first set to balance + amount, then overwritten with the
  original balance − amount (`api/routes.ts:460-521`). The net effect is a
  pure debit, and the transaction log records a transfer to oneself.
- An admin withdrawal larger than the balance is answered 400 "Insufficient
  funds". The withdrawal row has already been written at that point
  (`api/routes.ts:702,718`).
- Signup forces the role to `user` and the balance to 0 but keeps a `status`
  sent in the body (`api/routes.ts:294-328`).

## Model

| member | source | states |
|---|---|---|
| Schema.ParseRole | shared/schema.ts:6 | accepts exactly "user" and "admin" |
| Schema.RoleName | shared/schema.ts:6 | each role's name parses back to that role |
| Schema.ParseStatus | shared/schema.ts:7 | accepts exactly "active", "inactive" and "deleted" |
| Schema.StatusName | shared/schema.ts:7 | each status's name parses back to that status |
| Schema.ParseTxType | shared/schema.ts:8 | accepts exactly "deposit", "withdrawal" and "transfer" |
| Schema.TxTypeName | shared/schema.ts:8 | each transaction type's name parses back to that type |
| Schema.ParseTransferMethod | shared/schema.ts:71 | accepts exactly the five transfer methods |
| Schema.TransferMethodName | shared/schema.ts:71 | each method's name parses back to that method |
| Schema.ParseRecipientType | shared/schema.ts:67 | accepts exactly "email" and "username"; "email" selects lookup by email |
| Schema.IndexOf | shared/schema.ts:44 | returns the first position of the character, or None exactly when it does not occur |
| Schema.LastIndexOf | shared/schema.ts:44 | returns the last position of the character, or None exactly when it does not occur |
| Schema.DomainHasNoAt | shared/schema.ts:44 | a domain the email check accepts contains no '@' |
| Schema.ValidEmailHasOneAt | shared/schema.ts:44 | an accepted email has exactly one '@', which splits it into its local part and domain |
| Schema.ValidEmail | shared/schema.ts:44 | an accepted email has a non-empty local part before its first '@' and at least a label, a dot and a two-letter top-level domain after it |
| Schema.RoleOrDefault | shared/schema.ts:47 | a missing role defaults to `user`; a given one must parse |
| Schema.StatusOrDefault | shared/schema.ts:48 | a missing status defaults to `active`; a given one must parse |
| Schema.ValidUsername | shared/schema.ts:41 | a username the account schema accepts has at least 3 characters, so it can be named as a transfer recipient and is never empty at login |
| Schema.ValidPassword | shared/schema.ts:42 | a password the account schema accepts is never empty, so it passes the login schema |
| Schema.ValidPin | shared/schema.ts:43 | a PIN is accepted exactly when it has 4 characters and each of them is a decimal digit |
| Schema.ValidUserInput | shared/schema.ts:40-49 | an account the schema accepts passes the login schema with its own username and password, and its PIN has the 4 characters a transfer asks for |
| Schema.ParseInsertUser | shared/schema.ts:40-49 | accepts exactly the inputs with a 3-50 character username, a password of at least 8 characters, a 4-digit PIN, a valid email, a non-negative balance and a valid role and status; the result carries the input's fields and the defaults |
| Schema.ParseInsertTransaction | shared/schema.ts:51-56 | accepts exactly a positive amount and a known type, and keeps the input's fields |
| Schema.ParseLogin | shared/schema.ts:59-62 | accepts exactly a non-empty username and password, unchanged |
| Schema.ValidTransferInput | shared/schema.ts:65-73 | an accepted transfer body has a recipient of at least 3 characters, a positive amount and a 4-character PIN |
| Schema.ParseTransfer | shared/schema.ts:65-73 | accepts exactly a 3+ character recipient, a known recipient type, a positive amount, a 4-character PIN and a known method (default direct), and keeps each field |
| Schema.TransferPinIsLengthCheckedOnly | shared/schema.ts:70 | the transfer parser accepts a PIN with letters that the account PIN rule (shared/schema.ts:43) refuses |
| Schema.TransferExtrasUnchecked | shared/schema.ts:65-73 | whether a transfer body is accepted never depends on its memo or its method-specific data |
| Storage.HashPassword | api/storage.ts:68 | the stored hash verifies exactly the password it was made from |
| Storage.VerifyPassword | api/routes.ts:247 | `bcrypt.compare` accepts a candidate exactly against the hash made from that candidate |
| Storage.ToLower | api/storage.ts:42 | lower-casing keeps the length and maps each character |
| Storage.ToLowerIdempotent | api/storage.ts:42 | lower-casing twice equals lower-casing once |
| Storage.FirstIndex | api/storage.ts:46 | returns the first row satisfying the predicate, or None exactly when no row does |
| Storage.GetUserFinds | api/storage.ts:34-37 | the id lookup fails exactly when no row has the id, and otherwise returns the first row with it |
| Storage.GetUser | api/storage.ts:34-37 | a lookup by id returns only a row with that id, and nothing in an empty table (the rest is Storage.GetUserFinds) |
| Storage.GetUserIndex | api/storage.ts:34-37 | a found user is a row of the table with the requested id |
| Storage.GetUserAt | api/storage.ts:34-37 | in a well-formed table every row is found by its own id |
| Storage.GetUserByUsername | api/storage.ts:39-51 | finds a row whose username equals the argument ignoring case, and fails exactly when none does |
| Storage.GetUserByEmail | api/storage.ts:53-65 | finds a row whose email equals the argument ignoring case, and fails exactly when none does |
| Storage.UsernameLookupIgnoresCase | api/storage.ts:39-51 | looking up the lower-cased username gives the same row as the username itself |
| Storage.ApplyPatch | api/storage.ts:87-99 | a patch never changes id, username or email, and leaves balance and status alone unless it sets them |
| Storage.PatchUsers | api/storage.ts:87-99 | only the rows with the id change, each by the patch |
| Storage.PatchDb | api/storage.ts:87-128 | a user update changes only the users table, keeps its length and leaves the log and both id counters alone |
| Storage.PatchedRow | api/storage.ts:87-99 | the update returns nothing exactly when no row has the id, otherwise the patched row |
| Storage.PatchKeepsWellFormed | api/storage.ts:87-99 | an update keeps the ids increasing |
| Storage.PatchedLookup | api/storage.ts:87-99 | after an update every other id still finds its old row, and the id finds the patched row |
| Storage.NewUserRow | api/storage.ts:67-85 | a new row takes the input's fields, hashes the password, defaults the balance to 0.00 and records the creation and login time |
| Storage.InsertUser | api/storage.ts:67-85 | an insert keeps every existing user and the transactions, and appends one row with the next serial id |
| Storage.InsertUserKeepsWellFormed | api/storage.ts:67-85 | appending a user with the next serial id keeps the ids increasing |
| Storage.InsertTransactionKeepsWellFormed | api/storage.ts:139-157 | appending a transaction with the next serial id keeps the ids increasing |
| Storage.NewTransactionRow | api/storage.ts:139-157 | a new log entry carries the given id, owner, type, amount, descriptor, time and creator, and no receipt |
| Storage.InsertTransaction | api/storage.ts:139-157 | an insert keeps every existing entry and the users, and appends one entry with the next serial id, the given fields and no receipt |
| Storage.SetReceiptRows | api/routes.ts:574-578 | only the transactions with the id get the receipt |
| Storage.SetReceiptKeepsWellFormed | api/routes.ts:574-578 | attaching a receipt keeps the ids increasing |
| Storage.ClearTokenRows | api/routes.ts:343-346 | no row holds the token afterwards, and only the rows that held it change |
| Storage.ClearTokenKeepsWellFormed | api/routes.ts:343-346 | revoking a token keeps the ids increasing |
| Storage.GetAllUsers | api/storage.ts:131-136 | lists exactly the users whose status is not deleted, each as often as it occurs in the table (multiset) |
| Storage.OwnedBy | api/storage.ts:159-165 | keeps each of the user's transactions as often as it occurs, and no other transaction |
| Storage.InsertNewestFirst | api/storage.ts:159-165 | inserting into a newest-first list keeps it newest-first and adds exactly the one transaction |
| Storage.SortNewestFirst | api/storage.ts:159-165 | the result is newest first and a permutation of the input |
| Storage.GetUserTransactions | api/storage.ts:159-165 | exactly the user's transactions, newest first |
| Storage.GetRecentTransactions | api/storage.ts:167-174 | the first `limit` of the user's newest-first transactions, or all of them when fewer |
| Storage.RecentAreNewest | api/storage.ts:167-174 | no transaction of the user left out of the recent list is newer than one in it |
| Storage.GetAllTransactions | api/storage.ts:176-181 | every transaction, newest first |
| Storage.PatchBalanceTotal | api/storage.ts:111-119 | setting one account's balance changes the sum of balances by the difference |
| Storage.PatchOtherTotal | api/storage.ts:101-109 | an update that does not set a balance keeps the sum of balances |
| Storage.Store.constructor | api/storage.ts:32 | a new store is empty and its serial counters start at 1 |
| Storage.Store.CreateUser | api/storage.ts:67-85 | appends the new row with the next id and returns it |
| Storage.Store.UpdateUser | api/storage.ts:87-99 | patches the row in place and returns it, or changes nothing when the id is unknown |
| Storage.Store.UpdateUserStatus | api/storage.ts:101-109 | sets only that account's status, and fails exactly when the id is unknown |
| Storage.Store.UpdateUserBalance | api/storage.ts:111-119 | sets only that account's balance, and fails exactly when the id is unknown |
| Storage.Store.UpdateUserAvatar | api/storage.ts:121-129 | sets only that account's avatar, and fails exactly when the id is unknown |
| Storage.Store.CreateTransaction | api/storage.ts:139-157 | appends the transaction with the next id and returns it |
| Storage.Store.UpdateTransactionReceipt | api/routes.ts:574-578 | sets the receipt on the transactions with the id and changes nothing else |
| Storage.Store.RevokeToken | api/routes.ts:343-346 | clears the token from every row holding it and changes nothing else |
| Routes.BearerToken | api/routes.ts:111-115 | a header gives a token exactly when it starts with "Bearer ", and the token is the rest |
| Routes.BearerTokenRoundTrip | api/routes.ts:111-115 | prefixing "Bearer " and reading the header back gives the token |
| Routes.RequestToken | api/routes.ts:117-121 | a non-empty bearer token wins, otherwise a non-empty query token; None exactly when neither is present |
| Routes.GetUserByToken | api/routes.ts:136-144 | finds a user holding the token, and fails exactly when nobody holds it |
| Routes.Authenticate | api/routes.ts:109-159 | admits exactly a request whose token some user holds, and rejects the rest with 401 |
| Routes.AuthenticateActive | api/routes.ts:170-181 | passes the authentication failure (401) through unchanged; admits exactly an authenticated active user; an authenticated inactive or deleted one gets 403 |
| Routes.AuthenticateAdmin | api/routes.ts:161-167 | passes the authentication failure (401) through unchanged; admits exactly an authenticated admin, whatever its status; other authenticated users get 403 |
| Routes.Field | api/routes.ts:467-498 | a missing or empty field of the transfer details reads "N/A" |
| Routes.MemoText | api/routes.ts:455-505 | a missing or empty memo reads as "" |
| Routes.Last4 | api/routes.ts:488 | the last four characters, or the whole string when it is shorter |
| Routes.MaskedCardNumber | api/routes.ts:487-489 | a card number is masked to "xxxx-xxxx-xxxx-" followed by its last four characters, and "N/A" when missing |
| Routes.ExternalRecipientInfo | api/routes.ts:463-508 | each external method records its own kind of recipient details; every field is the submitted value, or "N/A" when missing or empty; the card number is masked; the memo defaults to "" |
| Routes.ResolveRecipient | api/routes.ts:435-439 | the recipient is looked up by email or by username, as the request says |
| Routes.TransferOutcome | api/routes.ts:411-561 | the rejections in order: 404 unknown sender, 400 wrong PIN, 400 insufficient funds, then for a direct transfer 404 unknown recipient and 400 inactive recipient; a rejection changes nothing; a transfer succeeds exactly when none applies, and a success logs one transfer entry |
| Routes.TransferSpec | api/routes.ts:409-561 | a caller who is not an authenticated active user gets the middleware's 401 or 403, invalid transfer data gets 400, and otherwise the transfer outcome for the caller applies; nothing changes unless the answer is 200 |
| Routes.HandleTransfer | api/routes.ts:409-561 | the handler's response and new database are those of the transfer specification |
| Routes.ExecuteTransfer | api/routes.ts:411-561 | the checks and writes after authentication give the transfer outcome |
| Routes.PerformDirectTransfer | api/routes.ts:460-524 | credit the recipient, log the transfer, debit the sender, in that order |
| Routes.PerformExternalTransfer | api/routes.ts:463-524 | log the external transfer with its details, then debit the sender |
| Routes.DirectTransfer | api/routes.ts:460-557 | a direct transfer answers 200 with the new entry's id and the recipient, and appends exactly one entry: a transfer by the sender recording the recipient's email, username and memo |
| Routes.ExternalTransfer | api/routes.ts:463-557 | an external transfer answers 200 with the new entry's id and the method's recipient details, and appends exactly one entry recording those details |
| Routes.MissingRequired | api/routes.ts:686 | a falsy user id, type or amount counts as missing; an input that is not missing has all four fields |
| Routes.AdminRecipientInfo | api/routes.ts:706 | the entry's descriptor is the admin's text, and there is none exactly when the text is absent or empty |
| Routes.AdminTransactionOutcome | api/routes.ts:683-734 | the rejections in order: 400 missing fields, 400 invalid type, 404 unknown user, with no change; an entry is written only for a valid type and an existing user, and records them; success exactly when those checks pass and a withdrawal or transfer is covered by the balance |
| Routes.AdminTransactionSpec | api/routes.ts:681-734 | a caller who is not an authenticated admin gets the middleware's rejection with no change; an admin gets the admin transaction outcome |
| Routes.HandleAdminTransaction | api/routes.ts:681-734 | the handler's response and new database are those of the admin transaction specification |
| Routes.ExecuteAdminTransaction | api/routes.ts:683-734 | the checks and writes after authentication give the admin transaction outcome |
| Routes.CreateAccount | api/routes.ts:298-315 | a taken username gives 400 "Username already exists", otherwise a taken email gives 400 "Email already exists", both ignoring case; otherwise the row createUser builds from the input is appended with the next id |
| Routes.SignupSpec | api/routes.ts:294-328 | invalid data gives 400; a valid signup succeeds exactly when neither username nor email is taken; a refusal changes nothing; the new row holds the submitted username, email, PIN, password and status, with role `user` and balance 0 |
| Routes.HandleSignup | api/routes.ts:294-328 | the handler's response and new database are those of the signup specification |
| Routes.AdminCreateUserSpec | api/routes.ts:611-643 | a non-admin caller gets the middleware's 401 or 403, invalid data 400, a taken name or email 400, with no change; otherwise the new row holds the submitted fields with the role and balance the admin gives, defaulting to `user` and 0 |
| Routes.HandleAdminCreateUser | api/routes.ts:611-643 | the handler's response and new database are those of the admin creation specification |
| Routes.UpdateStatusSpec | api/routes.ts:656-678 | a caller the admin middleware rejects gets its 401/403 with no change; an admin with a missing or unknown status gets 400 and with an unknown id 404; the update succeeds exactly for an admin, a known status and an existing id, and then sets only that account's status and returns it |
| Routes.HandleUpdateStatus | api/routes.ts:656-678 | the handler's response and new database are those of the status specification |
| Routes.LoginSpec | api/routes.ts:219-291 | the checks in order: 400 invalid data, 401 for no account with that username ignoring case, 403 for an account that is not active, 401 for a wrong password; a refusal changes nothing; success exactly when none applies, and then that account is stamped with the login time and given the new token |
| Routes.HandleLogin | api/routes.ts:219-291 | the handler's response and new database are those of the login specification |
| Routes.LogoutSpec | api/routes.ts:331-361 | an unauthenticated caller gets 401 with no change; an authenticated one without a bearer token gets 400 "No token provided"; logout succeeds exactly when the caller is authenticated and sent a bearer token, and then clears that token from every row |
| Routes.HandleLogout | api/routes.ts:331-361 | the handler's response and new database are those of the logout specification |
| Routes.UpdateAvatarSpec | api/routes.ts:392-406 | the middleware's 401/403 and a missing avatar's 400 change nothing; the update succeeds exactly for an active caller with a non-empty avatar, and then sets the caller's avatar and nothing else |
| Routes.HandleUpdateAvatar | api/routes.ts:392-406 | the handler's response and new database are those of the avatar specification |
| Routes.AttachReceiptSpec | api/routes.ts:564-584 | the middleware's 401/403 and a missing receipt's 400 change nothing; the route succeeds exactly for an active caller with a non-empty receipt, whoever owns the transaction, and then only the transactions with the id get it |
| Routes.HandleAttachReceipt | api/routes.ts:564-584 | the handler's response and new database are those of the receipt specification |
| Routes.ProfileResponse | api/routes.ts:368-385 | a profile is answered exactly for an existing id, otherwise 404; it carries that row's username, email, balance, avatar and role and the user's 5 most recent transactions, all of them the user's |
| Routes.CurrentUserResponse | api/routes.ts:366-389 | the middleware's 401/403 is passed through; otherwise the answer is the caller's own profile, and it is 200 exactly for an active authenticated caller |
| Routes.HistoryResponse | api/routes.ts:587-594 | answered 200 exactly for an active caller, with the caller's transaction history: each of the caller's entries once, newest first |
| Routes.AdminUsersResponse | api/routes.ts:646-653 | answered 200 exactly for an admin, with the table's non-deleted users, each as often as in the table |
| Routes.AdminTransactionsResponse | api/routes.ts:737-744 | answered 200 exactly for an admin, with every transaction newest first |
| RouteProperties.SetBalanceLookup | api/storage.ts:111-119 | after a balance update only that account reads differently, with the new balance |
| RouteProperties.SetBalanceTotal | api/storage.ts:111-119 | a balance update changes the total by the difference |
| RouteProperties.LogKeepsUsers | api/storage.ts:139-157 | logging a transaction leaves the users table alone and keeps the invariant |
| RouteProperties.DirectTransferWrites | api/routes.ts:460-521 | a direct transfer is the credit, the log entry and the debit, composed |
| RouteProperties.AcceptedDirectTransfer | api/routes.ts:411-449 | an accepted direct transfer had a sender with that id and a recipient found in the table |
| RouteProperties.DirectTransferLookup | api/routes.ts:460-521 | after a direct transfer the sender reads debited, the recipient credited, and every other id as before |
| RouteProperties.DirectTransferAccounts | api/routes.ts:460-521 | the same, stated for the sender, the recipient and all other accounts |
| RouteProperties.DirectTransferTotal | api/routes.ts:460-521 | a direct transfer between two accounts keeps the sum of all balances |
| RouteProperties.DirectTransferMovesMoney | api/routes.ts:409-561 | an accepted direct transfer between two accounts moves exactly the amount from sender to recipient, leaves every other account and the total as they were |
| RouteProperties.SelfTransferLookup | api/routes.ts:460-521 | a transfer to oneself leaves the account at its old balance minus the amount |
| RouteProperties.SelfTransferAccounts | api/routes.ts:460-521 | the same, with every other account unchanged |
| RouteProperties.SelfTransferTotal | api/routes.ts:460-521 | a transfer to oneself lowers the total by the amount |
| RouteProperties.AcceptedSelfTransfer | api/routes.ts:411-449 | an accepted transfer to oneself is the direct transfer with the sender on both sides |
| RouteProperties.SelfTransferLosesCredit | api/routes.ts:409-561 | an accepted transfer to oneself debits the account and credits nobody, so the total drops by the amount |
| RouteProperties.ExternalTransferWrites | api/routes.ts:511-521 | an external transfer is the log entry followed by the debit |
| RouteProperties.AcceptedExternalTransfer | api/routes.ts:411-429 | an accepted external transfer had a sender with the right PIN and enough balance |
| RouteProperties.ExternalTransferLookup | api/routes.ts:521 | after an external transfer only the sender reads differently, debited by the amount |
| RouteProperties.ExternalTransferTotal | api/routes.ts:521 | an external transfer lowers the total by the amount |
| RouteProperties.ExternalTransferAccounts | api/routes.ts:521 | the same, stated for the sender and all other accounts |
| RouteProperties.ExternalTransferDebitsSender | api/routes.ts:409-561 | an accepted external transfer only debits the sender, and the total drops by the amount |
| RouteProperties.WholeBalanceMayBeTransferred | api/routes.ts:424-429 | an amount equal to the balance is accepted, since only a strictly larger one is refused |
| RouteProperties.AcceptedAdminTransaction | api/routes.ts:683-734 | an accepted admin transaction had its fields, a known type and an existing user; it logs the entry and then sets the balance to the old balance plus or minus the amount |
| RouteProperties.AdminTransactionAccounts | api/routes.ts:702-730 | logging and then setting one balance changes only that account and moves the total by the delta |
| RouteProperties.AdminDepositCredits | api/routes.ts:681-734 | an accepted deposit credits the user by the amount and leaves every other account alone |
| RouteProperties.AdminWithdrawalDebits | api/routes.ts:681-734 | an accepted withdrawal debits the user by the amount and leaves every other account alone |
| RouteProperties.AdminTransactionEntry | api/routes.ts:702-709 | an accepted admin transaction appends one entry for the user, made by the admin |
| RouteProperties.AdminShortfallLeavesOrphanEntry | api/routes.ts:702-720 | a withdrawal above the balance is refused with 400 yet leaves its log entry, with no balance changed |
| RouteProperties.AdminDepositExample | api/routes.ts:681-734 | a worked example, kept as documentation of RouteProperties.AdminDepositCredits: a deposit of 5000 cents onto a balance of 1000 leaves 6000 and logs one entry |
| RouteProperties.AppendKeepsNamesUnique | api/storage.ts:39-65 | appending a user whose username and email are not taken keeps names unique ignoring case |
| RouteProperties.SignupKeepsNamesUnique | api/routes.ts:298-315 | signup keeps usernames and emails unique ignoring case |
| RouteProperties.AdminCreateKeepsNamesUnique | api/routes.ts:615-628 | admin creation keeps usernames and emails unique ignoring case |
| RouteProperties.SignupRefusesCaseVariant | api/routes.ts:298-302 | a valid signup whose username differs from a taken one only in case is refused with 400 and changes nothing |
| RouteProperties.SignupForcesRoleAndBalance | api/routes.ts:311-315 | an accepted signup creates a `user` with balance 0, whatever the body asked |
| RouteProperties.PatchKeepsNamesUnique | api/storage.ts:87-99 | updates never break name uniqueness |
| RouteProperties.LoginIgnoresUsernameCase | api/routes.ts:225-228 | logging in with any capitalisation of the username gives the same result |
| RouteProperties.LoginTokenAuthenticates | api/routes.ts:255-275 | after a login with a fresh token, that token authenticates the user who logged in |
| RouteProperties.AcceptedLogin | api/routes.ts:228-275 | an accepted login names the active row whose username matches the requested one ignoring case and whose password verifies, and that row gets the login time and the token |
| RouteProperties.OnlyHolder | api/routes.ts:136-146 | a token held by exactly one user finds that user |
| RouteProperties.LogoutRevokesToken | api/routes.ts:331-361 | after a logout the same bearer header no longer authenticates, whatever query token comes with it |
| RouteProperties.StatusUpdateSetsStatus | api/routes.ts:656-678 | an accepted status update sets that account's status and leaves every other account alone |
| RouteProperties.AvatarUpdateTouchesOnlyCaller | api/routes.ts:392-406 | an avatar update changes only the caller's avatar |
| RouteProperties.ReceiptForUnknownIdSucceeds | api/routes.ts:564-584 | a receipt for an id that matches no transaction is still answered 200, with no change |
| RouteProperties.ReceiptIgnoresOwnership | api/routes.ts:564-584 | a caller can attach a receipt to another user's transaction |
| AdminUsersPage.NewStatus | client/src/pages/admin/Users.tsx:61-81 | each action sends a status the server accepts: activate sends active, deactivate inactive and delete deleted |
| AdminUsersPage.OfferedActions | client/src/pages/admin/Users.tsx:189-209 | activate is shown exactly for an account that is not active, deactivate exactly for an active one, delete exactly for one that is neither deleted nor an admin |
| AdminUsersPage.CloseDialog | client/src/pages/admin/Users.tsx:88-91 | after closing, confirming sends nothing |
| AdminUsersPage.OpenDialog | client/src/pages/admin/Users.tsx:83-86 | opening the dialog for an account and an action makes confirming send that account's id with the action's status |
| AdminUsersPage.OnUpdateSuccess | client/src/pages/admin/Users.tsx:49-50 | after a successful update, confirming sends nothing |
| AdminUsersPage.ConfirmAction | client/src/pages/admin/Users.tsx:61-81 | sends nothing exactly when no account or no action is selected, otherwise the account's id with a valid status |
| AdminUsersPage.ActionsAskForDistinctStatuses | client/src/pages/admin/Users.tsx:66-77 | different actions ask for different statuses |
| AdminUsersPage.OneToggleOffered | client/src/pages/admin/Users.tsx:189-199 | exactly one of activate and deactivate is shown |
| AdminUsersPage.OfferedActionChangesStatus | client/src/pages/admin/Users.tsx:189-209 | every button shown asks for a status the account does not have |
| AdminUsersPage.DeletedAccountOffersOnlyActivate | client/src/pages/admin/Users.tsx:189-209 | a deleted account shows only the activate button |
| AdminUsersPage.AdminIsNeverOfferedDelete | client/src/pages/admin/Users.tsx:209 | an admin's row never shows delete |
| AdminUsersPage.ConfirmedActionIsApplied | client/src/pages/admin/Users.tsx:61-86 | a confirmed action, sent by an admin for an existing account, is accepted by the status route and gives the account the action's status |

## Left out

- Sessions, CORS and the other Express plumbing are not modelled. Only the token in the `Authorization` header or the `token` query parameter identifies a caller.
- `POST /api/admin/maintenance/clear-sessions` (`api/routes.ts:599`) is not modelled. It only touches the session store.
- The admin account created at start-up (`api/routes.ts:186-214`) is not modelled. It runs on a timer and is an ordinary `createUser` call.
- `api/index.ts`, `api/db.ts` and `api/reset-admin.ts` are not part of this model. They are server start-up, the connection pool and a maintenance script.
- Storage.HashPassword: bcrypt's salt and one-wayness are not modelled. A hash is `Bcrypt(secret)`, and comparing a password is equality.
- Storage.HashPassword: bcrypt reads only the first 72 bytes of a password, and nothing caps the password length (`shared/schema.ts:42`). Two passwords that share their first 72 bytes therefore verify against each other's hash in the program. The contract promises that only the exact password verifies, which is stronger than bcrypt.
- Login tokens: the SHA-256 hash of the user id, role, time and secret is a parameter `newToken`. Token uniqueness is a precondition of RouteProperties.LoginTokenAuthenticates.
- Clocks (`new Date()`, `Date.now()`) are a parameter `now`.
- Concurrency is not modelled. Each handler runs alone, and the non-atomic read-then-write of balances is not captured.
- Floating-point `Number` arithmetic on amounts is modelled as exact integer cents.
- Sub-cent amounts are not modelled. `transferSchema.amount` and `insertTransactionSchema.amount` accept any positive number (`shared/schema.ts:52,68`). The log column `decimal(15,2)` rounds such an amount to cents, and each balance is rounded on its own by `toFixed(2)` of a floating-point sum (`api/routes.ts:460,521`, `api/storage.ts:114`). A transfer of 0.005 can therefore debit and credit different whole-cent amounts. The totals lemmas RouteProperties.DirectTransferTotal, RouteProperties.DirectTransferMovesMoney, RouteProperties.SelfTransferTotal, RouteProperties.ExternalTransferTotal, RouteProperties.SetBalanceTotal and RouteProperties.AdminTransactionAccounts hold only for whole-cent amounts, which is all the model admits.
- Storage.ToLower lower-cases ASCII letters only. JavaScript's Unicode case mapping is not modelled.
- Schema.ParseInsertUser: the email check follows zod's email pattern only approximately. The `varchar` length limits of the password, email and token columns are not checked.
- Schema.ParseTransfer: `additionalData` values are strings. Non-string values in the record are not modelled.
- The password-rehashing branch of `updateUser` (`api/storage.ts:88-90`) is not modelled, because no modelled route updates a password.
- Storage.Store.CreateTransaction: a falsy `created_by` such as 0 becomes `undefined` (`api/storage.ts:148`). The `created_by` column is `serial` (`shared/schema.ts:35`), so the database then fills in the next value of that column's own sequence. The model stores the value as given. Every caller passes the id of an authenticated user, and ids start at 1, so the difference never arises on the modelled routes.
- Schema.ParseInsertTransaction: the model requires a `userId`. In `insertTransactionSchema` the `user_id` field is optional, because the column is `serial` (`shared/schema.ts:30,51-56`). A transaction input without a user id is not modelled, and no route sends one.
- Every route's catch-all error reply is not modelled: 500, or 400 for a parse failure that is not a validator rejection. The same goes for database errors.
- Routes.AdminTransactionOutcome: the `decimal(15,2)` columns (`shared/schema.ts:17`, `shared/schema.ts:32`) hold less than 10^13, while balances and amounts are unbounded integers in the model. An admin deposit that takes a balance to 10^13 or more fails in `updateUserBalance` after `createTransaction` has already logged the entry (`api/routes.ts:702-725`). The program then answers 500 and keeps that orphan entry, where the model answers 200 with the new balance.
- Routes.TransferOutcome: for the same `decimal(15,2)` bound, a direct transfer that would take the recipient to 10^13 or more fails at the credit (`api/routes.ts:460`), its first write. The program answers 500 with nothing changed, where the model answers 200.
- The `default` branch of the transfer-method switch is not modelled. The transfer parser never lets another method through.
- The 404 of `GET /api/user` for an authenticated caller whose row has vanished is unreachable in this single-threaded model. It is kept in Routes.ProfileResponse but never reached from Routes.CurrentUserResponse.
- The admin page's React query cache, toasts, search box and loading states are not modelled. Only the buttons, the dialog state and the request it sends are.
