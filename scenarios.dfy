/** Short sessions against a fresh store, with what each reply must be. */
module Scenarios {
  import opened Wrappers
  import opened Seqs
  import opened JsText
  import opened Schema
  import opened Ledger
  import opened Auth
  import opened Server

  /** Logging out clears the cookie but leaves the token row: a client that kept the token is
      still let in afterwards. */
  method SessionSurvivesLogout(crypt: Crypt, jwt: Jwt, salt: nat, nonce: string, t0: nat)
    returns (before: Outcome, bye: Response, after: Outcome)
    requires Matches(crypt) && Sound(jwt)
    ensures before == Next(1)
    ensures bye.cookie == ClearCookie(CookieName)
    ensures after == Next(1)
  {
    var bank := new Bank();
    var reg := bank.Register(Some("ann@bank.test"), Some("pw"), Some("Ann"), crypt, salt);
    assert bank.users[0].passwordHash == crypt.hash("pw", salt);
    var login := bank.Login(Some("ann@bank.test"), Some("pw"), crypt, jwt, t0, nonce);
    var token := GenerateToken(jwt, 1, t0, nonce);
    assert bank.tokens == map[token := 1];
    var cookies := map[CookieName := token];
    IssuedTokenLifetime(jwt, bank.tokens, 1, t0, nonce, cookies, t0);
    before := AuthMiddleware(cookies, jwt, bank.tokens, t0);
    bye := bank.Logout();
    IssuedTokenLifetime(jwt, bank.tokens, 1, t0, nonce, cookies, t0 + 1000);
    after := AuthMiddleware(cookies, jwt, bank.tokens, t0 + 1000);
  }

  /** A fresh store after one registration: one account with the seed balance and no entries. */
  method OneAccount(crypt: Crypt, salt: nat) returns (bank: Bank)
    ensures fresh(bank) && bank.Valid()
    ensures |bank.users| == 1 && bank.users[0].balance == Seed && bank.transactions == []
  {
    bank := new Bank();
    var reg := bank.Register(Some("bob@bank.test"), Some("pw"), Some("Bob"), crypt, salt);
  }

  /** Withdrawing the whole balance twice: the second attempt finds nothing left. */
  method NoDoubleSpend(crypt: Crypt, salt: nat, t0: nat) returns (first: Response, second: Response, left: real)
    ensures first == Ok(Moved("Withdrawal successful", 0.0))
    ensures second == Fail(400, "Insufficient balance")
    ensures left == 0.0
  {
    var bank := OneAccount(crypt, salt);
    first := bank.Withdraw(1, Some(Seed), t0, None);
    second := bank.Withdraw(1, Some(Seed), t0 + 1000, None);
    left := bank.BalanceOf(1).body.balance;
  }
}
