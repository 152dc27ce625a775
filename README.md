# Bank simulation: ledger and sessions in Dafny

A model of the core of a small banking web application. It covers:

- the SQLite store of accounts, session tokens and ledger entries;
- the HTTP handlers that register, log in and out, report the balance, profile and history, and move
  money (deposit, withdraw, send);
- the session layer that signs a token at login, stores it, and checks it on every protected request;
- three pure helpers of the browser client: the spending chart's window, the sign and counterparty
  cells of the history table, and the truncated error text.

The store is the class `Server.Bank`. Its fields are the three tables:

- `users` is a sequence whose element `i` has the AUTOINCREMENT key `i + 1`;
- `tokens` maps each token string to its owner; the token column is UNIQUE;
- `transactions` is the entry log in insertion order.

A fourth field, `journal`, is the snapshot an open `BEGIN` will restore on `ROLLBACK`. Each handler
is a method that runs to completion before the next one starts. The handlers that write money run
their statements through the `Begin`, `AddToBalance`, `Record`, `Commit` and `Rollback` methods. A
`fault` parameter names the statement between `BEGIN` and `COMMIT` that throws, if any. Such a throw
rolls the whole transaction back, and the reply is then the framework's 500. Storage failures outside
a transaction are not modelled (see "## Left out").

Every committed state satisfies `Ledger.WellFormed`:

- keys are dense;
- emails are non-empty and unique;
- tokens belong to existing accounts;
- every entry is shaped the way a handler writes it;
- every transfer entry names the email of an account other than its owner;
- the log is in `created_at` order;
- every balance is non-negative and equals the seed of 1000 plus what the account's entries add up to.

Each state-changing handler keeps this invariant. Conservation of money, the error order of each
handler, the history query's guarantees and the middleware's stages are stated as contracts and lemmas.

Money is exact (`real`). The two libraries are opaque values handed to the handlers: the password
hasher is `Server.Crypt` and the token signer is `Auth.Jwt`. `Sound` says what the model relies on
from the signer. Other inputs are parameters: the clock in milliseconds, the random nonce, the salt,
and which statement of a money transaction fails.

Two behaviours of the code differ from what a reader might expect, and the model follows the code:

- One might expect logout to revoke the session token. It only clears the cookie and leaves the token
  row in place, so a kept token still opens the session until it expires
  (`Scenarios.SessionSurvivesLogout`).
- One might expect the balance check of withdraw and send-money to need row locking, since it runs
  before `BEGIN`. The handlers use a synchronous database in one process and never yield inside a
  handler, so each request is one atomic step and the check cannot read a stale balance
  (`Scenarios.NoDoubleSpend`).

Files:
- `wrappers.dfy`: `Option`.
- `seqs.dfy`: `Min`, `Reversed`, `Filter` and lemmas about order.
- `jstext.dfy`: JavaScript truthiness and `String.prototype.trim`.
- `schema.dfy`: the table rows.
- `ledger.dfy`: derived balances, account lookup, the history query and the store invariant.
- `auth.dfy`: tokens and the middleware.
- `server.dfy`: the store and the handlers.
- `front.dfy`: the client helpers.
- `scenarios.dfy`: short sessions with fixed expected replies.

## Model

| member | source | states |
|---|---|---|
| Ledger.LedgerBalanceByKind | index.js:39 | The balance derived from the log equals 1000 plus the deposits and receipts minus the withdrawals and payments of that account. |
| Ledger.LedgerBalanceAppend | index.js:108-109 | Appending an entry moves its owner's derived balance by exactly the entry's effect and no other account's. |
| Ledger.LedgerBalanceAbsent | index.js:39 | An account without entries has exactly the seed balance 1000. |
| Ledger.CreditTotal | index.js:103 | `balance = balance + delta` on one row moves the total of all balances by exactly `delta`. |
| Ledger.TotalAppend | index.js:38-41 | Inserting an account adds its balance to the total. |
| Ledger.FindUser | index.js:62 | The lookup by email returns an index holding that email, or reports that no account has it. |
| Ledger.FindUserFindsOwner | server/db.js:18 | With UNIQUE emails, looking up an account's email finds that very account. |
| Ledger.CreditWithEntry | index.js:106-114 | A balance update committed with its log entry keeps the store invariant, if the balance stays non-negative and a counterparty, if any, is another account's email. |
| Ledger.TransferWellFormed | index.js:177-190 | Both legs of a transfer committed together keep the store invariant and leave the total of all balances unchanged. |
| Ledger.AddAccount | index.js:38-41 | Inserting a new account with a fresh email, the next key and the seed balance keeps the store invariant. |
| Ledger.OwnEntries | index.js:152 | `WHERE user_id = ?` keeps exactly the caller's entries, as values. |
| Ledger.OwnEntriesCount | index.js:152 | Each of the caller's entries is kept as often as the log holds it, and every other entry is dropped, so equal entries are never merged. |
| Seqs.FilterCount | public/app.js:135 | `filter` keeps every accepted value as often as it occurs in the input and drops every other value. |
| Ledger.History | index.js:151-153 | The history query returns at most 50 rows. |
| Ledger.CreditFrame | index.js:103 | `balance = balance + delta WHERE id = ?` changes that row's balance by `delta` and leaves every other column and every other row as it was. |
| Ledger.HistoryIsNewestOwn | index.js:151-153 | The history has `min(50, n)` rows for `n` own entries; row `i` is the `i`-th newest own entry. |
| Ledger.HistoryOwnerOnly | index.js:152 | Every history row is one of the caller's own entries. |
| Ledger.HistoryNewestFirst | index.js:152 | Over a chronological log the history is in non-increasing `created_at` order. |
| Ledger.HistoryKeepsMostRecent | index.js:152 | No own entry left off the 50-row page is newer than a row on it. |
| JsText.Trim | index.js:41 | The trimmed name has no white space at either end and is no longer than the input. |
| JsText.TrimOfPadded | index.js:45 | Trimming a white-space-padded string gives back exactly its core. |
| JsText.TrimSplits | index.js:41 | The trimmed name is a slice of the input with only white space cut away on either side. |
| JsText.TrimIdempotent | index.js:45 | Trimming twice is trimming once. |
| Auth.GenerateToken | server/auth.js:7-16 | With a sound signer, the token is non-empty and decodes to the user id, the issue second, the nonce and an expiry 604800 seconds later. |
| Auth.VerifyToken | server/auth.js:19-26 | Claims come back exactly when the signature checks and the current second is before `exp`, and they are the signed claims; every failure is `None`. |
| Auth.FindTokenInDb | server/auth.js:35-38 | An owner is found exactly when the token has a row, and it is the stored owner. |
| Auth.AuthMiddleware | server/auth.js:40-55 | Every rejection is a 401. A request handed on carries the id stored for its cookie's token. |
| Auth.MiddlewareStages | server/auth.js:40-52 | Missing or empty cookie gives 401 "Not authenticated". A bad or expired signature gives 401 "Invalid or expired token". A missing row or a different stored owner gives 401 "Token not found". |
| Auth.MiddlewareAccepts | server/auth.js:40-55 | A request passes exactly when the cookie holds a signed, unexpired token stored for the id it claims, and that id is what the handler sees. |
| Auth.StoreThenFind | server/auth.js:28-38 | A newly stored token is found with its owner, and every other token lookup is unchanged. |
| Auth.IssuedTokenLifetime | server/auth.js:19-26 | A stored issued token is accepted for its owner before `iat + 7 days` and rejected as expired from then on. |
| Server.Bank.constructor | server/db.js:15-46 | A fresh store has three empty tables and satisfies the invariant. |
| Server.Bank.Begin | index.js:107 | `BEGIN` records the current tables for a later rollback. |
| Server.Bank.Commit | index.js:110 | `COMMIT` closes the transaction unless it throws. |
| Server.Bank.Rollback | index.js:112 | `ROLLBACK` restores the tables recorded at `BEGIN`. |
| Server.Bank.AddToBalance | index.js:103 | The balance update changes one row by `delta`, or nothing when it throws. |
| Server.Bank.Record | index.js:104 | The insert appends one entry, or nothing when it throws. |
| Server.Bank.StoreToken | server/auth.js:28-33 | The insert adds the token with its owner unless the UNIQUE token already exists, and the token is then found with that owner. |
| Server.Bank.Post | index.js:106-114 | Update and insert in one transaction: both effects happen, or, when any of the three statements throws, neither. |
| Server.Bank.Book | index.js:135-143 | A checked deposit or withdrawal keeps the invariant, moves the total by the entry's effect, and changes nothing on a throw. |
| Server.Bank.PostTransfer | index.js:177-190 | Both updates and both inserts happen, or, when any of the five statements throws, none. |
| Server.Bank.Register | index.js:31-54 | A missing field gives 400, a taken email 409, and both leave the store unchanged. Otherwise one account is appended with the next id, the trimmed name and 1000, the reply is 201, the new email resolves to it, and the total grows by 1000. |
| Server.Bank.Login | index.js:57-81 | A missing field gives 400. An unknown email and a wrong password give the same 401. Neither stores a token. Otherwise exactly one token for the user is stored and set as the cookie with a 7-day max-age, or the reply is 500 when that token already exists. |
| Server.Bank.Logout | index.js:84-87 | Replies 200 with the cookie cleared and does not touch the store, so no token is revoked. |
| Server.Bank.BalanceOf | index.js:90-94 | The reported balance is the one the log implies, and it is non-negative. |
| Server.Bank.Me | index.js:242-250 | A 200 with no cookie whose body is the caller's id, email and full name; the email looks up to the caller. |
| Server.Bank.Transactions | index.js:150-155 | Read-only; at most 50 rows, newest first, row `i` the `i`-th newest of the caller's own entries. |
| Server.Bank.Deposit | index.js:97-118 | No positive amount gives 400, unchanged. A throw gives 500, unchanged. Otherwise the balance grows by exactly the amount, one `deposit` entry without counterparty is appended, and the new balance is returned. |
| Server.Bank.Withdraw | index.js:121-147 | Error order: 400 bad amount, then 400 "Insufficient balance", then 500 on a throw, each with the store unchanged. Otherwise the balance falls by exactly the amount, one `withdraw` entry is appended, and the result is still non-negative. |
| Server.RegisterCatch | index.js:48-52 | The catch of register as written: 409 exactly for the code `SQLITE_CONSTRAINT_UNIQUE`, and 500 for any other error code. |
| Server.DuplicateEmailRethrown | index.js:49-52 | With the code the `node:sqlite` driver reports, the duplicate-email error is thrown on and answered 500, not 409. |
| Server.SendMoneyCheck | index.js:159-172 | The refusals in the handler's order: 400 bad input, 404 unknown recipient, 400 self-transfer, 400 insufficient balance. A request that passes all four checks proceeds with the account holding that email, and proceeding means a different existing recipient with that email and enough money. |
| Server.Bank.SendMoney | index.js:158-194 | Any refusal, or a throw inside the transaction, leaves the store unchanged. On success the sender loses and the recipient gains exactly the amount, the two entries `sent` and `received` with each other's email are appended, the total is conserved, and the sender's new balance is returned. |
| Server.Bank.Transfer | index.js:174-193 | The checked transfer keeps the invariant: both legs or none, total conserved, other accounts untouched. |
| Server.AcceptsOnlyAccounts | server/auth.js:49-53 | Over a well-formed store, every id the middleware hands on is an existing account. |
| Front.SpendingRows | public/app.js:134-137 | The window holds `min(7, n)` rows for `n` spending rows. |
| Front.SpendingSeries | public/app.js:134-141 | At most seven points, each the time and amount of one of the input's withdrawals or payments. |
| Front.SpendingWindowShape | public/app.js:134-141 | The chart has `min(7, n)` points for `n` spending rows, all withdrawals or payments from the input, and they are the first seven spending rows in reverse. |
| Front.ChartOldestFirst | public/app.js:136-137 | A newest-first input gives an oldest-first chart. |
| Front.ChartOfHistory | public/app.js:134-137 | Over the history of a chronological log the chart has at most 7 points, runs oldest first, and shows only the caller's own withdrawals and payments. |
| Front.SignOf | public/app.js:159-163 | The sign is `+` exactly for deposits and receipts and `-` exactly for the other kinds. |
| Front.ToneOf | public/app.js:159-163 | The amount cell is coloured `txt-success` exactly where the sign is `+` and `txt-error` exactly where it is `-`. |
| Front.CounterpartyCell | public/app.js:164 | The cell is never empty: a truthy counterparty is shown as it is, and NULL or "" shows as `-`. |
| JsText.FalsyValues | index.js:33 | A field fails the `!x` test exactly when it is missing, null or "". |
| Front.SignMatchesLedger | public/app.js:159-163 | `+` appears exactly for the entries that raised the balance and `-` exactly for those that lowered it. The success colour goes with `+`. |
| Front.CounterpartyOfHistory | public/app.js:164 | In a well-formed history, deposits and withdrawals show `-`, and a transfer shows its stored counterparty, which is the email of an account other than the caller. |
| Front.Truncate | public/app.js:21 | Text of at most 50 characters is unchanged. Longer text becomes its first 50 characters plus `...`. Either way the result has at most 53 characters. |
| Front.TruncateIdempotent | public/app.js:21 | Truncating truncated text changes nothing. |
| Front.ErrorText | public/app.js:20-21 | From the result of reading the body as text: a failed read gives "Request failed", a successful one its truncated text. |
| Front.TextAfterJson | public/app.js:18-20 | `res.text()` after `res.json()` has read the body fails for every reply with a body, and gives "" for a reply without one. |
| Front.ErrorTextAsWritten | public/app.js:17-21 | As the client is written, the error text of a reply that is not JSON is "Request failed", or "" without a body, and never more than 50 characters. |
| Scenarios.SessionSurvivesLogout | index.js:84-87 | After register, login and logout, the logged-in token is still accepted for the same account. |
| Scenarios.NoDoubleSpend | index.js:127-130 | Withdrawing the whole balance twice: the first succeeds with 0 left, the second gets "Insufficient balance". |

## Left out

- The AI chat proxy (`/api/chat`) is not modelled. It is a network call that touches no store state.
- Express wiring is not modelled: CORS, static files, JSON body parsing, startup and port retry. The
  request body is given to each handler as optional typed fields.
- The internals of bcrypt and of JSON Web Tokens are not modelled, and neither is the secret. Each
  library is an opaque pair of functions. `Sound` and `Matches` are the only facts assumed about them.
- JavaScript coercion of request fields is not modelled. Examples are an amount sent as a string or
  `Number(...)` of arbitrary input. Amounts are optional exact numbers, and a present amount is a
  number.
- Floating point: SQLite's REAL balance and rounding are not modelled; the model's money is exact.
- Concurrency between requests is not modelled. Handlers run one at a time, in the order of the calls.
- Among entries with the same `created_at` second, the history takes later insertions first. SQLite
  leaves the order of such ties unspecified.
- Cookie attributes other than name, value and max-age are not modelled: `httpOnly`, `secure`,
  `sameSite`, `path`. Neither is the cookie parsing in the browser.
- The `created_at` columns of `users` and `tokens` are not modelled, nor the `id` column of
  `tokens` and `transactions`. No handler reads them.
- The 404 "User not found" branches of `/api/balance` and `/api/me` are not modelled. They can only be
  reached with an id that no account has, which `Server.AcceptsOnlyAccounts` rules out over a
  well-formed store. The handlers therefore require `IsUser`.
- Storage failures are modelled only for the statements between `BEGIN` and `COMMIT` (`fault`). These
  failures are not modelled:
  - a throw by `BEGIN` itself;
  - the register INSERT failing for a reason other than the UNIQUE email (index.js:38-41);
  - `storeToken` failing for a reason other than a duplicate token (server/auth.js:32);
  - the SELECTs before `BEGIN` (index.js:127, 163-164) and those of the read-only handlers
    (index.js:91, 151-153, 243);
  - the SELECT of the new balance after `COMMIT` (index.js:116, 145, 192).

  A throw at that last SELECT answers 500 after the money has moved. In the code, then, a 500 from
  deposit, withdraw or send-money does not always mean the store is unchanged; in the model it does.
- Date formatting (`toLocaleDateString`, `toLocaleString`), the DOM, the chart library, toasts and the
  dashboard's calls to `/api/stats` and `/api/profile/update` are not modelled. Those two endpoints
  have no handler. `refreshDashboard` (public/app.js:114-119) awaits `/api/stats` in the same
  `Promise.all` as `/api/transactions`, so the 404 there rejects the whole batch; as the client is
  written, the history table and the spending chart are never drawn on the dashboard. The model
  states what those helpers compute when they are given the history.
- Front.Truncate: counts characters as code points, while JavaScript's `length` and `slice` count
  UTF-16 code units, so text with characters outside the Basic Multilingual Plane is cut at a
  different place.
- JsText.Trim: strips the Unicode space and line-terminator characters of ECMAScript listed in
  `IsJsSpace`; an engine's Unicode version could add others.
- Server.Bank.Register: hashes with `(password, salt)`, the salt being a parameter in place of
  bcrypt's random salt with cost 10.
- Auth.GenerateToken: the nonce is a parameter in place of `Math.random().toString(36).substring(7)`.
- Server.Bank.Register: answers a duplicate email with 409, the behaviour the catch at index.js:48-51
  intends. As written, that catch depends on the driver's error `code`, and with `node:sqlite` the
  error is thrown on and answered 500 (see "## Findings").
- Front.ErrorText: as the client is written, its truncation branch is never reached, because the text
  read that feeds it always fails after `res.json()` (see "## Findings").
- Server.Bank.Transfer: stamps both legs with the same second. The `created_at` default of the table
  is evaluated per INSERT (index.js:181 and 185), so the `received` leg can fall one second later.
  `Ledger.TransferWellFormed` allows a later second for it.

## Findings

| source | as written | input that shows it | evidently intended | confidence | as-written member | corrected member |
|---|---|---|---|---|---|---|
| index.js:49 | The 409 branch tests `e.code === 'SQLITE_CONSTRAINT_UNIQUE'`. The store is opened with `node:sqlite` (server/db.js:1, 13), whose errors carry `code: 'ERR_SQLITE_ERROR'` and put the SQLite code in `errcode`/`errstr`. A UNIQUE violation is therefore thrown on. | Registering an email that already has an account: the reply is 500, with the store unchanged. | 409 "Email already registered", with the store unchanged. | medium; not executed; rests on the driver's error shape, which is not part of this repository | Server.DuplicateEmailRethrown | Server.Bank.Register |
| public/app.js:20 | `res.text()` runs after `res.json()` has read the body (line 18). A read body cannot be read again, so `text()` rejects and the error becomes "Request failed". | Any reply whose body is not JSON, such as a plain-text 500 page: the error shown is "Request failed", not the page's text. | The first 50 characters of the body text, then `...`. | high; not executed | Front.ErrorTextAsWritten | Front.ErrorText |
