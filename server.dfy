/** The HTTP handlers as operations on one in-memory store. Each handler runs to completion before
    the next starts, so a handler is one atomic step on the store. */
module Server {
  import opened Wrappers
  import opened Seqs
  import opened JsText
  import opened Schema
  import opened Ledger
  import opened Auth

  /** `maxAge` of the session cookie: seven days in milliseconds. */
  const CookieMaxAgeMs: int := 7 * 24 * 60 * 60 * 1000

  /** The JSON bodies the handlers send. */
  datatype Body =
    | Error(error: string)
    | Account(id: nat, email: string, fullName: string, message: string)
    | Profile(id: nat, email: string, fullName: string)
    | Balance(balance: real)
    | Moved(message: string, balance: real)
    | Rows(rows: seq<Row>)
    | Message(message: string)
    | InternalError  // what the framework sends when a handler throws

  datatype Cookie = NoCookie | SetCookie(name: string, value: string, maxAgeMs: int) | ClearCookie(name: string)

  datatype Response = Response(status: nat, body: Body, cookie: Cookie)

  function Fail(status: nat, error: string): Response {
    Response(status, Error(error), NoCookie)
  }

  function Ok(body: Body): Response {
    Response(200, body, NoCookie)
  }

  const Crash: Response := Response(500, InternalError, NoCookie)

  /** The `code` that the catch of `POST /api/register` compares with to recognise a duplicate email. */
  const UniqueViolationCode: string := "SQLITE_CONSTRAINT_UNIQUE"

  /** The `code` the `node:sqlite` driver sets on every error SQLite reports; the SQLite result
      code itself goes into `errcode` and `errstr`. */
  const DriverErrorCode: string := "ERR_SQLITE_ERROR"

  /** The catch of `POST /api/register` as written: 409 for the one code it tests, otherwise the
      error is thrown on and the framework answers 500. */
  function RegisterCatch(code: string): (r: Response)
    ensures code == UniqueViolationCode ==> r == Fail(409, "Email already registered")
    ensures code != UniqueViolationCode ==> r == Crash
  {
    if code == UniqueViolationCode then Fail(409, "Email already registered") else Crash
  }

  /** With the driver's error shape, the UNIQUE violation of a duplicate email reaches `throw e`. */
  lemma DuplicateEmailRethrown()
    ensures RegisterCatch(DriverErrorCode) == Crash
    ensures RegisterCatch(DriverErrorCode) != Fail(409, "Email already registered")
  {
  }

  /** The password hashing library as an opaque pair: `hashSync` with a random salt, and `compareSync`. */
  datatype Crypt = Crypt(hash: (string, nat) -> string, compare: (string, string) -> bool)

  /** A password matches every hash made from it. */
  ghost predicate Matches(crypt: Crypt) {
    forall pw, salt :: crypt.compare(pw, crypt.hash(pw, salt))
  }

  /** The `amount` check of the ledger handlers, `amount == null || amount <= 0`, negated. */
  predicate Positive(amount: Option<real>) {
    amount.Some? && amount.value > 0.0
  }

  /** Whether the injected storage failure hits one of statements `0..last` of a transaction. */
  predicate FaultWithin(fault: Option<nat>, last: nat) {
    fault.Some? && fault.value <= last
  }

  /** What ROLLBACK restores. */
  datatype Snapshot = Snapshot(users: seq<User>, tokens: map<string, nat>, transactions: seq<Entry>)

  class Bank {
    /** The `users`, `tokens` and `transactions` tables. */
    var users: seq<User>
    var tokens: map<string, nat>
    var transactions: seq<Entry>
    /** The state as of the open BEGIN, if a transaction is open. */
    var journal: Option<Snapshot>

    ghost predicate Valid()
      reads this
    {
      journal.None? && WellFormed(users, tokens, transactions)
    }

    /** `id` is the key of an account. The middleware only hands on such ids (`AcceptsOnlyAccounts`). */
    predicate IsUser(id: nat)
      reads this
    {
      1 <= id <= |users|
    }

    /** The clock has not gone back behind the newest entry. */
    predicate ClockAt(nowMs: nat)
      reads this
    {
      transactions == [] || transactions[|transactions| - 1].createdAt <= nowMs / 1000
    }

    /** The three tables are as they were before the call. */
    twostate predicate Untouched()
      reads this
    {
      users == old(users) && tokens == old(tokens) && transactions == old(transactions) && journal == old(journal)
    }

    constructor ()
      ensures Valid()
      ensures users == [] && tokens == map[] && transactions == []
    {
      users, tokens, transactions, journal := [], map[], [], None;
    }

    // ---- Statements of the store ----

    method Begin()
      requires journal.None?
      modifies this`journal
      ensures journal == Some(Snapshot(users, tokens, transactions))
    {
      journal := Some(Snapshot(users, tokens, transactions));
    }

    method Commit(fails: bool) returns (ok: bool)
      requires journal.Some?
      modifies this`journal
      ensures ok == !fails
      ensures journal == if ok then None else old(journal)
    {
      ok := !fails;
      if ok {
        journal := None;
      }
    }

    method Rollback()
      requires journal.Some?
      modifies this
      ensures users == old(journal.value.users) && tokens == old(journal.value.tokens)
      ensures transactions == old(journal.value.transactions) && journal.None?
    {
      users, tokens, transactions := journal.value.users, journal.value.tokens, journal.value.transactions;
      journal := None;
    }

    /** `UPDATE users SET balance = balance + ? WHERE id = ?`; a failing statement changes nothing. */
    method AddToBalance(id: nat, delta: real, fails: bool) returns (ok: bool)
      requires IsUser(id)
      modifies this`users
      ensures ok == !fails
      ensures users == if ok then Credit(old(users), id, delta) else old(users)
    {
      ok := !fails;
      if ok {
        users := Credit(users, id, delta);
      }
    }

    /** `INSERT INTO transactions ...`; a failing statement changes nothing. */
    method Record(e: Entry, fails: bool) returns (ok: bool)
      modifies this`transactions
      ensures ok == !fails
      ensures transactions == if ok then old(transactions) + [e] else old(transactions)
    {
      ok := !fails;
      if ok {
        transactions := transactions + [e];
      }
    }

    /** `storeToken`: `INSERT INTO tokens`; the UNIQUE constraint on `token` refuses a duplicate. */
    method StoreToken(userId: nat, token: string) returns (ok: bool)
      modifies this`tokens
      ensures ok == (token !in old(tokens))
      ensures tokens == if ok then old(tokens)[token := userId] else old(tokens)
      ensures ok ==> FindTokenInDb(tokens, token) == Some(userId)
    {
      ok := token !in tokens;
      if ok {
        tokens := tokens[token := userId];
      }
    }

    /** `BEGIN; UPDATE users ...; INSERT INTO transactions ...; COMMIT`, with `ROLLBACK` when one of
        the three statements throws (`fault` names it). Both effects happen or neither does. */
    method Post(e: Entry, fault: Option<nat>) returns (ok: bool)
      requires journal.None? && IsUser(e.userId)
      modifies this
      ensures ok == !FaultWithin(fault, 2)
      ensures journal.None? && tokens == old(tokens)
      ensures ok ==> users == Credit(old(users), e.userId, Effect(e)) && transactions == old(transactions) + [e]
      ensures !ok ==> users == old(users) && transactions == old(transactions)
    {
      Begin();
      ghost var begun := journal;
      ok := AddToBalance(e.userId, Effect(e), fault == Some(0));
      if ok { ok := Record(e, fault == Some(1)); }
      if ok { ok := Commit(fault == Some(2)); }
      if !ok {
        assert journal == begun;
        Rollback();
      }
    }

    /** One entry booked with its balance update, for a deposit or a withdrawal that has passed its
        checks: the store stays well formed, and the total moves by the entry's effect. */
    method Book(e: Entry, fault: Option<nat>) returns (ok: bool)
      requires Valid() && IsUser(e.userId) && EntryShaped(e, |users|) && e.otherParty.None?
      requires transactions == [] || transactions[|transactions| - 1].createdAt <= e.createdAt
      requires users[e.userId - 1].balance + Effect(e) >= 0.0
      modifies this
      ensures Valid()
      ensures ok == !FaultWithin(fault, 2)
      ensures tokens == old(tokens)
      ensures !ok ==> Untouched()
      ensures ok ==> && users == Credit(old(users), e.userId, Effect(e))
                     && transactions == old(transactions) + [e]
                     && TotalBalance(users) == TotalBalance(old(users)) + Effect(e)
    {
      CreditWithEntry(users, tokens, transactions, e);
      CreditTotal(users, e.userId, Effect(e));
      ok := Post(e, fault);
    }

    /** The transfer's transaction: debit the sender and log `sent`, credit the recipient and log
        `received`, then COMMIT; a throw at any of the five statements (`fault`) rolls all back. */
    method PostTransfer(sent: Entry, received: Entry, fault: Option<nat>) returns (ok: bool)
      requires journal.None? && IsUser(sent.userId) && IsUser(received.userId)
      modifies this
      ensures ok == !FaultWithin(fault, 4)
      ensures journal.None? && tokens == old(tokens)
      ensures ok ==> && users == Credit(Credit(old(users), sent.userId, Effect(sent)), received.userId, Effect(received))
                     && transactions == old(transactions) + [sent, received]
      ensures !ok ==> users == old(users) && transactions == old(transactions)
    {
      Begin();
      ghost var begun := journal;
      ok := AddToBalance(sent.userId, Effect(sent), fault == Some(0));
      if ok { ok := Record(sent, fault == Some(1)); }
      if ok { ok := AddToBalance(received.userId, Effect(received), fault == Some(2)); }
      if ok { ok := Record(received, fault == Some(3)); }
      if ok { ok := Commit(fault == Some(4)); }
      if !ok {
        assert journal == begun;
        Rollback();
      } else {
        assert old(transactions) + [sent] + [received] == old(transactions) + [sent, received];
      }
    }

    // ---- Handlers ----

    /** `POST /api/register`. */
    method Register(email: Option<string>, password: Option<string>, fullName: Option<string>, crypt: Crypt, salt: nat)
      returns (r: Response)
      requires Valid()
      modifies this
      ensures Valid()
      ensures tokens == old(tokens) && transactions == old(transactions)
      ensures !(Truthy(email) && Truthy(password) && Truthy(fullName)) ==>
                r == Fail(400, "Email, password and full name required") && users == old(users)
      ensures Truthy(email) && Truthy(password) && Truthy(fullName) && FindUser(old(users), email.value).Some? ==>
                r == Fail(409, "Email already registered") && users == old(users)
      ensures Truthy(email) && Truthy(password) && Truthy(fullName) && FindUser(old(users), email.value).None? ==>
                var id := |old(users)| + 1;
                && users == old(users) + [User(id, email.value, crypt.hash(password.value, salt), Trim(fullName.value), Seed)]
                && r == Response(201, Account(id, email.value, Trim(fullName.value), "Registration successful"), NoCookie)
                && FindUser(users, email.value) == Some(id - 1)
                && TotalBalance(users) == TotalBalance(old(users)) + Seed
    {
      if !Truthy(email) || !Truthy(password) || !Truthy(fullName) {
        r := Fail(400, "Email, password and full name required");
        return;
      }
      var hash := crypt.hash(password.value, salt);
      if FindUser(users, email.value).Some? {
        // the UNIQUE constraint on users.email
        r := Fail(409, "Email already registered");
        return;
      }
      var id := |users| + 1;
      var name := Trim(fullName.value);
      var account := User(id, email.value, hash, name, Seed);
      AddAccount(users, tokens, transactions, account);
      TotalAppend(users, account);
      users := users + [account];
      FindUserFindsOwner(users, id - 1);
      r := Response(201, Account(id, email.value, name, "Registration successful"), NoCookie);
    }

    /** `POST /api/login`: an unknown email and a wrong password get the same answer. */
    method Login(email: Option<string>, password: Option<string>, crypt: Crypt, jwt: Jwt, nowMs: nat, nonce: string)
      returns (r: Response)
      requires Valid()
      modifies this
      ensures Valid()
      ensures users == old(users) && transactions == old(transactions)
      ensures !(Truthy(email) && Truthy(password)) ==>
                r == Fail(400, "Email and password required") && tokens == old(tokens)
      ensures Truthy(email) && Truthy(password) && FindUser(users, email.value).None? ==>
                r == Fail(401, "Invalid email or password") && tokens == old(tokens)
      ensures Truthy(email) && Truthy(password) && FindUser(users, email.value).Some?
              && !crypt.compare(password.value, users[FindUser(users, email.value).value].passwordHash) ==>
                r == Fail(401, "Invalid email or password") && tokens == old(tokens)
      ensures Truthy(email) && Truthy(password) && FindUser(users, email.value).Some?
              && crypt.compare(password.value, users[FindUser(users, email.value).value].passwordHash) ==>
                var u := users[FindUser(users, email.value).value];
                var token := GenerateToken(jwt, u.id, nowMs, nonce);
                if token in old(tokens) then
                  r == Crash && tokens == old(tokens)
                else
                  && tokens == old(tokens)[token := u.id]
                  && r == Response(200, Account(u.id, u.email, u.fullName, "Login successful"),
                                   SetCookie(CookieName, token, CookieMaxAgeMs))
    {
      if !Truthy(email) || !Truthy(password) {
        r := Fail(400, "Email and password required");
        return;
      }
      var found := FindUser(users, email.value);
      if found.None? || !crypt.compare(password.value, users[found.value].passwordHash) {
        r := Fail(401, "Invalid email or password");
        return;
      }
      var user := users[found.value];
      var token := GenerateToken(jwt, user.id, nowMs, nonce);
      var stored := StoreToken(user.id, token);
      if !stored {
        r := Crash;
        return;
      }
      r := Response(200, Account(user.id, user.email, user.fullName, "Login successful"),
                    SetCookie(CookieName, token, CookieMaxAgeMs));
    }

    /** `POST /api/logout`: clears the cookie only; the token row stays, so the token stays valid. */
    method Logout() returns (r: Response)
      ensures r == Response(200, Message("Logged out"), ClearCookie(CookieName))
    {
      r := Response(200, Message("Logged out"), ClearCookie(CookieName));
    }

    /** `GET /api/balance`: the balance reported is the one the log implies. */
    function BalanceOf(userId: nat): (r: Response)
      reads this
      requires Valid() && IsUser(userId)
      ensures r == Ok(Balance(LedgerBalance(transactions, userId)))
      ensures r.body.balance >= 0.0
    {
      Ok(Balance(users[userId - 1].balance))
    }

    /** `GET /api/me`: the caller's profile; looking its email up again finds the caller. */
    function Me(userId: nat): (r: Response)
      reads this
      requires Valid() && IsUser(userId)
      ensures r == Ok(Profile(userId, users[userId - 1].email, users[userId - 1].fullName))
      ensures FindUser(users, r.body.email) == Some(userId - 1)
    {
      FindUserFindsOwner(users, userId - 1);
      var u := users[userId - 1];
      Ok(Profile(u.id, u.email, u.fullName))
    }

    /** `GET /api/transactions`: the caller's newest entries, newest first, at most fifty. */
    function Transactions(userId: nat): (r: Response)
      reads this
      requires Valid()
      ensures r.status == 200 && r.body.Rows?
      ensures |r.body.rows| == Min(HistoryLimit, |OwnEntries(transactions, userId)|)
      ensures Descending(RowTime, r.body.rows)
      ensures var own := OwnEntries(transactions, userId);
              forall i :: 0 <= i < |r.body.rows| ==> r.body.rows[i] == RowOf(own[|own| - 1 - i])
    {
      HistoryIsNewestOwn(transactions, userId);
      HistoryNewestFirst(transactions, userId);
      Ok(Rows(History(transactions, userId)))
    }

    /** `POST /api/deposit`. */
    method Deposit(userId: nat, amount: Option<real>, nowMs: nat, fault: Option<nat>) returns (r: Response)
      requires Valid() && IsUser(userId) && ClockAt(nowMs)
      modifies this
      ensures Valid()
      ensures tokens == old(tokens)
      ensures !Positive(amount) ==> r == Fail(400, "Positive amount required") && Untouched()
      ensures Positive(amount) && FaultWithin(fault, 2) ==> r == Crash && Untouched()
      ensures Positive(amount) && !FaultWithin(fault, 2) ==>
                && users == Credit(old(users), userId, amount.value)
                && transactions == old(transactions) + [Entry(userId, Kind.Deposit, amount.value, None, nowMs / 1000)]
                && r == Ok(Moved("Deposit successful", users[userId - 1].balance))
                && TotalBalance(users) == TotalBalance(old(users)) + amount.value
    {
      if amount.None? || amount.value <= 0.0 {
        r := Fail(400, "Positive amount required");
        return;
      }
      var amt := amount.value;
      var e := Entry(userId, Kind.Deposit, amt, None, nowMs / 1000);
      assert Effect(e) == amt;
      var ok := Book(e, fault);
      if !ok {
        r := Crash;
        return;
      }
      r := Ok(Moved("Deposit successful", users[userId - 1].balance));
    }

    /** `POST /api/withdraw`: a non-negative balance stays non-negative. */
    method Withdraw(userId: nat, amount: Option<real>, nowMs: nat, fault: Option<nat>) returns (r: Response)
      requires Valid() && IsUser(userId) && ClockAt(nowMs)
      modifies this
      ensures Valid()
      ensures tokens == old(tokens)
      ensures !Positive(amount) ==> r == Fail(400, "Positive amount required") && Untouched()
      ensures Positive(amount) && old(users[userId - 1].balance) < amount.value ==>
                r == Fail(400, "Insufficient balance") && Untouched()
      ensures Positive(amount) && old(users[userId - 1].balance) >= amount.value && FaultWithin(fault, 2) ==>
                r == Crash && Untouched()
      ensures Positive(amount) && old(users[userId - 1].balance) >= amount.value && !FaultWithin(fault, 2) ==>
                && users == Credit(old(users), userId, -amount.value)
                && transactions == old(transactions) + [Entry(userId, Kind.Withdraw, amount.value, None, nowMs / 1000)]
                && r == Ok(Moved("Withdrawal successful", users[userId - 1].balance))
                && TotalBalance(users) == TotalBalance(old(users)) - amount.value
    {
      if amount.None? || amount.value <= 0.0 {
        r := Fail(400, "Positive amount required");
        return;
      }
      var amt := amount.value;
      var user := users[userId - 1];
      if user.balance < amt {
        r := Fail(400, "Insufficient balance");
        return;
      }
      var e := Entry(userId, Kind.Withdraw, amt, None, nowMs / 1000);
      assert Effect(e) == -amt;
      var ok := Book(e, fault);
      if !ok {
        r := Crash;
        return;
      }
      r := Ok(Moved("Withdrawal successful", users[userId - 1].balance));
    }

    /** `POST /api/send-money`: the checks of `SendMoneyCheck`, then both legs of the transfer
        commit together or not at all. */
    method SendMoney(userId: nat, toEmail: Option<string>, amount: Option<real>, nowMs: nat, fault: Option<nat>)
      returns (r: Response)
      requires Valid() && IsUser(userId) && ClockAt(nowMs)
      modifies this
      ensures Valid()
      ensures tokens == old(tokens)
      ensures var d := SendMoneyCheck(old(users), userId, toEmail, amount);
              d.Refuse? ==> r == d.response && Untouched()
      ensures var d := SendMoneyCheck(old(users), userId, toEmail, amount);
              d.Proceed? && FaultWithin(fault, 4) ==> r == Crash && Untouched()
      ensures var d := SendMoneyCheck(old(users), userId, toEmail, amount);
              d.Proceed? && !FaultWithin(fault, 4) ==>
                var to := d.to + 1;
                var amt := amount.value;
                && users == Credit(Credit(old(users), userId, -amt), to, amt)
                && transactions == old(transactions)
                   + [Entry(userId, Sent, amt, Some(old(users)[to - 1].email), nowMs / 1000),
                      Entry(to, Received, amt, Some(old(users)[userId - 1].email), nowMs / 1000)]
                && r == Ok(Moved("Transfer successful", users[userId - 1].balance))
                && TotalBalance(users) == TotalBalance(old(users))
    {
      var check := SendMoneyCheck(users, userId, toEmail, amount);
      if check.Refuse? {
        r := check.response;
        return;
      }
      var to := check.to + 1;
      var ok := Transfer(userId, to, amount.value, nowMs, fault);
      if !ok {
        r := Crash;
        return;
      }
      r := Ok(Moved("Transfer successful", users[userId - 1].balance));
    }

    /** The transaction of `POST /api/send-money` once its checks have passed: debit the sender,
        log the debit, credit the recipient, log the credit, commit; any failing statement rolls
        back the whole transaction. */
    method Transfer(from: nat, to: nat, amt: real, nowMs: nat, fault: Option<nat>) returns (ok: bool)
      requires Valid() && IsUser(from) && IsUser(to) && from != to && ClockAt(nowMs)
      requires amt > 0.0 && users[from - 1].balance >= amt
      modifies this
      ensures Valid()
      ensures ok == !FaultWithin(fault, 4)
      ensures tokens == old(tokens) && |users| == |old(users)|
      ensures !ok ==> Untouched()
      ensures ok ==> && users == Credit(Credit(old(users), from, -amt), to, amt)
                     && transactions == old(transactions)
                        + [Entry(from, Sent, amt, Some(old(users)[to - 1].email), nowMs / 1000),
                           Entry(to, Received, amt, Some(old(users)[from - 1].email), nowMs / 1000)]
                     && TotalBalance(users) == TotalBalance(old(users))
    {
      var sent := Entry(from, Sent, amt, Some(users[to - 1].email), nowMs / 1000);
      var received := Entry(to, Received, amt, Some(users[from - 1].email), nowMs / 1000);
      TransferWellFormed(users, tokens, transactions, sent, received);
      ok := PostTransfer(sent, received, fault);
      assert Effect(sent) == -amt && Effect(received) == amt;
    }
  }

  /** What the send-money handler decides before it touches the store: refuse with this response,
      or go ahead with the recipient at index `to`. */
  datatype Decision = Refuse(response: Response) | Proceed(to: nat)

  /** The checks of `POST /api/send-money`, in the order the handler makes them: bad input,
      unknown recipient, sending to oneself, insufficient balance. */
  function SendMoneyCheck(users: seq<User>, userId: nat, toEmail: Option<string>, amount: Option<real>): (d: Decision)
    requires 1 <= userId <= |users|
    ensures !(Truthy(toEmail) && Positive(amount)) ==>
              d == Refuse(Fail(400, "Valid toEmail and positive amount required"))
    ensures Truthy(toEmail) && Positive(amount) && FindUser(users, toEmail.value).None? ==>
              d == Refuse(Fail(404, "Recipient not found"))
    ensures Truthy(toEmail) && Positive(amount) && FindUser(users, toEmail.value).Some?
            && users[FindUser(users, toEmail.value).value].id == users[userId - 1].id ==>
              d == Refuse(Fail(400, "Cannot send to yourself"))
    ensures Truthy(toEmail) && Positive(amount) && FindUser(users, toEmail.value).Some?
            && users[FindUser(users, toEmail.value).value].id != users[userId - 1].id
            && users[userId - 1].balance < amount.value ==>
              d == Refuse(Fail(400, "Insufficient balance"))
    ensures Truthy(toEmail) && Positive(amount) && FindUser(users, toEmail.value).Some?
            && users[FindUser(users, toEmail.value).value].id != users[userId - 1].id
            && users[userId - 1].balance >= amount.value ==>
              d == Proceed(FindUser(users, toEmail.value).value)
    ensures d.Proceed? ==> && Truthy(toEmail) && Positive(amount)
                           && d.to < |users| && users[d.to].email == toEmail.value
                           && users[d.to].id != users[userId - 1].id && d.to != userId - 1
                           && users[userId - 1].balance >= amount.value
  {
    if !Truthy(toEmail) || amount.None? || amount.value <= 0.0 then
      Refuse(Fail(400, "Valid toEmail and positive amount required"))
    else
      var sender := users[userId - 1];
      match FindUser(users, toEmail.value)
      case None => Refuse(Fail(404, "Recipient not found"))
      case Some(j) =>
        if users[j].id == sender.id then Refuse(Fail(400, "Cannot send to yourself"))
        else if sender.balance < amount.value then Refuse(Fail(400, "Insufficient balance"))
        else Proceed(j)
  }

  /** Whatever session the middleware accepts names an existing account. */
  lemma AcceptsOnlyAccounts(users: seq<User>, tokens: map<string, nat>, log: seq<Entry>,
                            cookies: map<string, string>, jwt: Jwt, nowMs: nat)
    requires WellFormed(users, tokens, log)
    requires AuthMiddleware(cookies, jwt, tokens, nowMs).Next?
    ensures 1 <= AuthMiddleware(cookies, jwt, tokens, nowMs).userId <= |users|
  {
    MiddlewareAccepts(cookies, jwt, tokens, nowMs);
  }
}
