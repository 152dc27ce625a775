/** What the store's contents mean: balances derived from the entry log, account lookup,
    the history query, and the invariant every committed state satisfies. */
module Ledger {
  import opened Wrappers
  import opened Seqs
  import opened Schema

  /** `LIMIT 50` of the history query. */
  const HistoryLimit: nat := 50

  /** What an entry does to its owner's balance. */
  function Effect(e: Entry): real {
    if e.kind == Deposit || e.kind == Received then e.amount else -e.amount
  }

  /** What `uid`'s entries in the log add up to. */
  function Net(log: seq<Entry>, uid: nat): real {
    if log == [] then 0.0
    else
      var e := log[|log| - 1];
      Net(log[..|log| - 1], uid) + (if e.userId == uid then Effect(e) else 0.0)
  }

  /** The balance the log implies for the account with key `uid`. */
  function LedgerBalance(log: seq<Entry>, uid: nat): real {
    Seed + Net(log, uid)
  }

  /** The sum of the amounts of `uid`'s entries of kind `k`. */
  function KindTotal(log: seq<Entry>, uid: nat, k: Kind): real {
    if log == [] then 0.0
    else
      var e := log[|log| - 1];
      KindTotal(log[..|log| - 1], uid, k) + (if e.userId == uid && e.kind == k then e.amount else 0.0)
  }

  /** The derived balance is the seed plus deposits and receipts minus withdrawals and payments. */
  lemma {:induction false} LedgerBalanceByKind(log: seq<Entry>, uid: nat)
    ensures LedgerBalance(log, uid)
            == Seed + KindTotal(log, uid, Deposit) + KindTotal(log, uid, Received)
                    - KindTotal(log, uid, Withdraw) - KindTotal(log, uid, Sent)
  {
    if log != [] {
      LedgerBalanceByKind(log[..|log| - 1], uid);
    }
  }

  /** Appending an entry moves its owner's derived balance by its effect and no one else's. */
  lemma LedgerBalanceAppend(log: seq<Entry>, e: Entry, uid: nat)
    ensures LedgerBalance(log + [e], uid) == LedgerBalance(log, uid) + (if e.userId == uid then Effect(e) else 0.0)
  {
    assert (log + [e])[..|log|] == log;
  }

  /** An account with no entries has exactly the seed balance. */
  lemma {:induction false} LedgerBalanceAbsent(log: seq<Entry>, uid: nat)
    requires forall j :: 0 <= j < |log| ==> log[j].userId != uid
    ensures LedgerBalance(log, uid) == Seed
  {
    if log != [] {
      LedgerBalanceAbsent(log[..|log| - 1], uid);
    }
  }

  /** `UPDATE users SET balance = balance + delta WHERE id = id`: the row with key `id` sits at index `id - 1`. */
  function Credit(users: seq<User>, id: nat, delta: real): (r: seq<User>)
    requires 1 <= id <= |users|
  {
    users[id - 1 := users[id - 1].(balance := users[id - 1].balance + delta)]
  }

  /** The update changes the balance of row `id` by `delta` and nothing else in any row. */
  lemma CreditFrame(users: seq<User>, id: nat, delta: real)
    requires 1 <= id <= |users|
    ensures var r := Credit(users, id, delta);
            && |r| == |users| && r[id - 1].balance == users[id - 1].balance + delta
            && r[id - 1].(balance := users[id - 1].balance) == users[id - 1]
            && forall j :: 0 <= j < |users| && j != id - 1 ==> r[j] == users[j]
  {
  }

  /** The money held by all accounts together. */
  function TotalBalance(users: seq<User>): real {
    if users == [] then 0.0 else TotalBalance(users[..|users| - 1]) + users[|users| - 1].balance
  }

  /** Crediting one account moves the total by exactly the amount credited. */
  lemma {:induction false} CreditTotal(users: seq<User>, id: nat, delta: real)
    requires 1 <= id <= |users|
    ensures TotalBalance(Credit(users, id, delta)) == TotalBalance(users) + delta
  {
    var c := Credit(users, id, delta);
    var n := |users|;
    if id == n {
      assert c[..n - 1] == users[..n - 1];
    } else {
      assert c[..n - 1] == Credit(users[..n - 1], id, delta);
      CreditTotal(users[..n - 1], id, delta);
    }
  }

  /** A new account adds its balance to the total. */
  lemma TotalAppend(users: seq<User>, u: User)
    ensures TotalBalance(users + [u]) == TotalBalance(users) + u.balance
  {
    assert (users + [u])[..|users|] == users;
  }

  /** The log is in order of creation time: rows are appended with a clock that does not go back. */
  ghost predicate Chronological(log: seq<Entry>) {
    Ascending(EntryTime, log)
  }

  /** `SELECT ... FROM users WHERE email = ?`: the index of the account with that email. */
  function FindUser(users: seq<User>, email: string): (r: Option<nat>)
    ensures r.Some? ==> r.value < |users| && users[r.value].email == email
    ensures r.None? ==> forall i :: 0 <= i < |users| ==> users[i].email != email
  {
    if users == [] then None
    else if users[0].email == email then Some(0)
    else match FindUser(users[1..], email)
      case None => None
      case Some(i) => Some(i + 1)
  }

  ghost predicate EmailsUnique(users: seq<User>) {
    forall i, j :: 0 <= i < j < |users| ==> users[i].email != users[j].email
  }

  /** With unique emails, looking up an account's email finds that account. */
  lemma FindUserFindsOwner(users: seq<User>, i: nat)
    requires EmailsUnique(users) && i < |users|
    ensures FindUser(users, users[i].email) == Some(i)
  {
  }

  /** What every entry the handlers write looks like: owned by an existing account, a positive amount,
      and a non-empty counterparty email exactly on transfer entries. */
  predicate EntryShaped(e: Entry, accounts: nat) {
    && 1 <= e.userId <= accounts
    && e.amount > 0.0
    && (e.otherParty.Some? <==> (e.kind == Sent || e.kind == Received))
    && (e.otherParty.Some? ==> e.otherParty.value != "")
  }

  /** The emails of the accounts, in key order. */
  function Emails(users: seq<User>): seq<string> {
    seq(|users|, i requires 0 <= i < |users| => users[i].email)
  }

  /** A transfer entry names the email of an account, and not its owner's own. */
  ghost predicate NamesOtherAccount(e: Entry, users: seq<User>) {
    e.otherParty.Some? ==>
      && e.otherParty.value in Emails(users)
      && (1 <= e.userId <= |users| ==> e.otherParty.value != users[e.userId - 1].email)
  }

  /** A balance update leaves every email where it was. */
  lemma CreditKeepsEmails(users: seq<User>, id: nat, delta: real)
    requires 1 <= id <= |users|
    ensures Emails(Credit(users, id, delta)) == Emails(users)
  {
  }

  /** The invariant of every committed state of the store. */
  ghost predicate WellFormed(users: seq<User>, tokens: map<string, nat>, log: seq<Entry>) {
    && (forall i :: 0 <= i < |users| ==> users[i].id == i + 1 && users[i].email != "")
    && EmailsUnique(users)
    && (forall t :: t in tokens ==> 1 <= tokens[t] <= |users|)
    && (forall j :: 0 <= j < |log| ==> EntryShaped(log[j], |users|))
    && (forall j :: 0 <= j < |log| ==> NamesOtherAccount(log[j], users))
    && Chronological(log)
    && (forall id {:trigger LedgerBalance(log, id)} :: 1 <= id <= |users| ==> users[id - 1].balance == LedgerBalance(log, id))
    && (forall i :: 0 <= i < |users| ==> users[i].balance >= 0.0)
  }

  /** One balance update paired with its log entry, committed together, keeps the store well formed
      as long as the balance stays non-negative. */
  lemma CreditWithEntry(users: seq<User>, tokens: map<string, nat>, log: seq<Entry>, e: Entry)
    requires WellFormed(users, tokens, log)
    requires EntryShaped(e, |users|) && NamesOtherAccount(e, users)
    requires log == [] || log[|log| - 1].createdAt <= e.createdAt
    requires users[e.userId - 1].balance + Effect(e) >= 0.0
    ensures WellFormed(Credit(users, e.userId, Effect(e)), tokens, log + [e])
  {
    var users' := Credit(users, e.userId, Effect(e));
    var log' := log + [e];
    CreditKeepsEmails(users, e.userId, Effect(e));
    forall j | 0 <= j < |log'| ensures NamesOtherAccount(log'[j], users') {
      assert EntryShaped(log'[j], |users|) && NamesOtherAccount(log'[j], users);
    }
    forall id | 1 <= id <= |users'| ensures users'[id - 1].balance == LedgerBalance(log', id) {
      LedgerBalanceAppend(log, e, id);
    }
    forall i, j | 0 <= i < j < |log'| ensures EntryTime(log'[i]) <= EntryTime(log'[j]) {
      if j == |log| && i < |log| - 1 {
        assert EntryTime(log[i]) <= EntryTime(log[|log| - 1]);
      }
    }
  }

  /** Both legs of a transfer committed together keep the store well formed and the total unchanged. */
  lemma {:induction false} TransferWellFormed(users: seq<User>, tokens: map<string, nat>, log: seq<Entry>, sent: Entry, received: Entry)
    requires WellFormed(users, tokens, log)
    requires sent.kind == Sent && received.kind == Received
    requires 1 <= sent.userId <= |users| && 1 <= received.userId <= |users| && sent.userId != received.userId
    requires sent.amount == received.amount && sent.amount > 0.0
    requires users[sent.userId - 1].balance >= sent.amount
    requires sent.otherParty == Some(users[received.userId - 1].email)
    requires received.otherParty == Some(users[sent.userId - 1].email)
    requires sent.createdAt <= received.createdAt
    requires log == [] || log[|log| - 1].createdAt <= sent.createdAt
    ensures var after := Credit(Credit(users, sent.userId, Effect(sent)), received.userId, Effect(received));
            && WellFormed(after, tokens, log + [sent, received])
            && TotalBalance(after) == TotalBalance(users)
  {
    var halfway := Credit(users, sent.userId, Effect(sent));
    assert Emails(users)[received.userId - 1] == users[received.userId - 1].email;
    assert NamesOtherAccount(sent, users);
    CreditWithEntry(users, tokens, log, sent);
    CreditKeepsEmails(users, sent.userId, Effect(sent));
    assert Emails(halfway)[sent.userId - 1] == halfway[sent.userId - 1].email;
    assert NamesOtherAccount(received, halfway);
    assert halfway[received.userId - 1] == users[received.userId - 1];
    assert EntryShaped(received, |halfway|);
    assert log + [sent] + [received] == log + [sent, received];
    CreditWithEntry(halfway, tokens, log + [sent], received);
    CreditTotal(users, sent.userId, Effect(sent));
    CreditTotal(halfway, received.userId, Effect(received));
  }

  /** A new account with the seed balance keeps the store well formed when its email is new. */
  lemma AddAccount(users: seq<User>, tokens: map<string, nat>, log: seq<Entry>, u: User)
    requires WellFormed(users, tokens, log)
    requires u.id == |users| + 1 && u.email != "" && u.balance == Seed
    requires FindUser(users, u.email).None?
    ensures WellFormed(users + [u], tokens, log)
  {
    LedgerBalanceAbsent(log, u.id);
    var users' := users + [u];
    EntriesSurviveNewAccount(users, log, u);
    forall id | 1 <= id <= |users'| ensures users'[id - 1].balance == LedgerBalance(log, id) {
      if id <= |users| {
        assert users'[id - 1] == users[id - 1];
      }
    }
  }

  /** A new account leaves every logged entry well shaped, and every counterparty still an account. */
  lemma EntriesSurviveNewAccount(users: seq<User>, log: seq<Entry>, u: User)
    requires forall j :: 0 <= j < |log| ==> EntryShaped(log[j], |users|)
    requires forall j :: 0 <= j < |log| ==> NamesOtherAccount(log[j], users)
    ensures forall j :: 0 <= j < |log| ==> EntryShaped(log[j], |users + [u]|)
    ensures forall j :: 0 <= j < |log| ==> NamesOtherAccount(log[j], users + [u])
  {
    var users' := users + [u];
    assert Emails(users') == Emails(users) + [u.email];
    forall j | 0 <= j < |log| ensures EntryShaped(log[j], |users'|) && NamesOtherAccount(log[j], users') {
      assert EntryShaped(log[j], |users|) && NamesOtherAccount(log[j], users);
    }
  }

  /** `SELECT type, amount, other_party, created_at FROM transactions WHERE user_id = ?
      ORDER BY created_at DESC LIMIT 50`. Rows appended later come first among equal times. */
  function History(log: seq<Entry>, uid: nat): (rows: seq<Row>)
    ensures |rows| <= HistoryLimit
  {
    var newest := Reversed(OwnEntries(log, uid));
    var page := newest[..Min(HistoryLimit, |newest|)];
    seq(|page|, i requires 0 <= i < |page| => RowOf(page[i]))
  }

  /** The condition `user_id = uid`. */
  function OwnedBy(uid: nat): Entry -> bool {
    (e: Entry) => e.userId == uid
  }

  /** `WHERE user_id = uid`, in the order the rows were appended. */
  function OwnEntries(log: seq<Entry>, uid: nat): (r: seq<Entry>)
    ensures forall e :: e in r <==> e in log && e.userId == uid
  {
    Filter(OwnedBy(uid), log)
  }

  /** `WHERE user_id = uid` keeps each of the caller's entries as often as the log holds it, and no other. */
  lemma OwnEntriesCount(log: seq<Entry>, uid: nat)
    ensures var own := OwnEntries(log, uid);
            forall e :: multiset(own)[e] == if e.userId == uid then multiset(log)[e] else 0
  {
    FilterCount(OwnedBy(uid), log);
  }

  /** The history is the caller's newest entries, newest first, at most fifty of them. */
  lemma HistoryIsNewestOwn(log: seq<Entry>, uid: nat)
    ensures var own := OwnEntries(log, uid);
            var h := History(log, uid);
            && |h| == Min(HistoryLimit, |own|)
            && forall i :: 0 <= i < |h| ==> h[i] == RowOf(own[|own| - 1 - i]) && own[|own| - 1 - i] in log
  {
    var own := OwnEntries(log, uid);
    forall i | 0 <= i < |own| ensures own[i] in log {
      assert own[i] in own;
    }
  }

  /** Every row of the history is one of the caller's own entries. */
  lemma HistoryOwnerOnly(log: seq<Entry>, uid: nat)
    ensures forall r :: r in History(log, uid) ==> exists e :: e in log && e.userId == uid && RowOf(e) == r
  {
    var h := History(log, uid);
    var own := OwnEntries(log, uid);
    HistoryIsNewestOwn(log, uid);
    forall r | r in h ensures exists e :: e in log && e.userId == uid && RowOf(e) == r {
      var i :| 0 <= i < |h| && h[i] == r;
      var e := own[|own| - 1 - i];
      assert e in own;
      assert e in log && e.userId == uid && RowOf(e) == r;
    }
  }

  /** Over a chronological log the history comes out in non-increasing `created_at` order. */
  lemma {:induction false} HistoryNewestFirst(log: seq<Entry>, uid: nat)
    requires Chronological(log)
    ensures Descending(RowTime, History(log, uid))
  {
    var own := OwnEntries(log, uid);
    FilterAscending(OwnedBy(uid), EntryTime, log);
    ReversedAscending(EntryTime, own);
    var newest := Reversed(own);
    var h := History(log, uid);
    forall i, j | 0 <= i < j < |h| ensures RowTime(h[i]) >= RowTime(h[j]) {
      assert h[i] == RowOf(newest[i]) && h[j] == RowOf(newest[j]);
      assert EntryTime(newest[i]) >= EntryTime(newest[j]);
    }
  }

  /** No entry of the caller left off the page is newer than an entry on it. */
  lemma {:induction false} HistoryKeepsMostRecent(log: seq<Entry>, uid: nat)
    requires Chronological(log)
    ensures var own := OwnEntries(log, uid);
            var h := History(log, uid);
            forall k, i :: 0 <= k < |own| - |h| && 0 <= i < |h| ==> own[k].createdAt <= h[i].createdAt
  {
    var own := OwnEntries(log, uid);
    FilterAscending(OwnedBy(uid), EntryTime, log);
    HistoryIsNewestOwn(log, uid);
    var h := History(log, uid);
    forall k, i | 0 <= k < |own| - |h| && 0 <= i < |h| ensures own[k].createdAt <= h[i].createdAt {
      assert h[i] == RowOf(own[|own| - 1 - i]);
      assert EntryTime(own[k]) <= EntryTime(own[|own| - 1 - i]);
    }
  }
}
