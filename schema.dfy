/** The rows of the three tables of the store: `users`, `tokens`, `transactions`. */
module Schema {
  import opened Wrappers

  /** The balance `INSERT INTO users` gives every new account. */
  const Seed: real := 1000.0

  /** A `users` row; `id` is the AUTOINCREMENT key, `email` is UNIQUE. Money is exact. */
  datatype User = User(id: nat, email: string, passwordHash: string, fullName: string, balance: real)

  /** The four values the handlers write into `transactions.type`. */
  datatype Kind = Deposit | Withdraw | Sent | Received

  /** A `transactions` row; `otherParty` is the counterparty's email, NULL outside transfers;
      `createdAt` is `datetime('now')`, in whole seconds. */
  datatype Entry = Entry(userId: nat, kind: Kind, amount: real, otherParty: Option<string>, createdAt: int)

  /** One element of the JSON array `/api/transactions` returns: the selected columns of an entry. */
  datatype Row = Row(kind: Kind, amount: real, otherParty: Option<string>, createdAt: int)

  function RowOf(e: Entry): Row {
    Row(e.kind, e.amount, e.otherParty, e.createdAt)
  }

  function EntryTime(e: Entry): int {
    e.createdAt
  }

  function RowTime(r: Row): int {
    r.createdAt
  }
}
