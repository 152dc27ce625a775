/** The pure helpers of the browser client: the spending chart's window over the history, the sign
    and counterparty cells of the history table, and the truncated text of an error reply. */
module Front {
  import opened Wrappers
  import opened Seqs
  import opened Schema
  import opened Ledger
  import opened JsText

  /** `slice(0, 7)`: the chart shows at most this many points. */
  const ChartPoints: nat := 7

  /** Error text longer than this is cut. */
  const ErrorTextLimit: nat := 50

  /** What reading the reply body as text yields when even that fails. */
  const RequestFailed: string := "Request failed"

  /** One point of the chart: when, and how much. The date label's formatting is not modelled. */
  datatype Point = Point(createdAt: int, amount: real)

  /** `tx.type === 'withdraw' || tx.type === 'sent'`. */
  predicate IsSpending(r: Row) {
    r.kind == Withdraw || r.kind == Sent
  }

  function PointOf(r: Row): Point {
    Point(r.createdAt, r.amount)
  }

  /** `filter(...).slice(0, 7).reverse()` over the rows as `/api/transactions` returns them. */
  function SpendingRows(rows: seq<Row>): (w: seq<Row>)
    ensures |w| == Min(ChartPoints, |Filter(IsSpending, rows)|) && |w| <= ChartPoints
  {
    var spending := Filter(IsSpending, rows);
    Reversed(spending[..Min(ChartPoints, |spending|)])
  }

  /** The data handed to the chart: the window above, one point per row. */
  function SpendingSeries(rows: seq<Row>): (p: seq<Point>)
    ensures |p| <= ChartPoints
    ensures forall i :: 0 <= i < |p| ==> exists r :: r in rows && IsSpending(r) && p[i] == PointOf(r)
  {
    var w := SpendingRows(rows);
    SpendingWindowShape(rows);
    var p := seq(|w|, i requires 0 <= i < |w| => PointOf(w[i]));
    assert forall i :: 0 <= i < |p| ==> w[i] in w && p[i] == PointOf(w[i]);
    p
  }

  /** The chart has at most seven points, drawn only from spending rows, and they are the first
      seven spending rows of the input, last one first. */
  lemma SpendingWindowShape(rows: seq<Row>)
    ensures var spending := Filter(IsSpending, rows);
            var w := SpendingRows(rows);
            && |w| == Min(ChartPoints, |spending|) && |w| <= ChartPoints
            && (forall i :: 0 <= i < |w| ==> w[i] == spending[|w| - 1 - i])
            && (forall r :: r in w ==> r in rows && IsSpending(r))
  {
    var spending := Filter(IsSpending, rows);
    var w := SpendingRows(rows);
    forall r | r in w ensures r in rows && IsSpending(r) {
      var i :| 0 <= i < |w| && w[i] == r;
      assert r == spending[|w| - 1 - i];
      assert r in spending;
    }
  }

  /** A newest-first input gives an oldest-first chart. */
  lemma ChartOldestFirst(rows: seq<Row>)
    requires Descending(RowTime, rows)
    ensures Ascending(RowTime, SpendingRows(rows))
  {
    var spending := Filter(IsSpending, rows);
    FilterDescending(IsSpending, RowTime, rows);
    var page := spending[..Min(ChartPoints, |spending|)];
    forall i, j | 0 <= i < j < |page| ensures RowTime(page[i]) >= RowTime(page[j]) {
      assert page[i] == spending[i] && page[j] == spending[j];
    }
    ReversedDescending(RowTime, page);
  }

  /** The chart drawn from what `/api/transactions` returns over a chronological log runs oldest
      first, and every point is one of the caller's own withdrawals or payments. */
  lemma {:induction false} ChartOfHistory(log: seq<Entry>, uid: nat)
    requires Chronological(log)
    ensures var w := SpendingRows(History(log, uid));
            && |w| <= ChartPoints
            && Ascending(RowTime, w)
            && forall r :: r in w ==> IsSpending(r) && exists e :: e in log && e.userId == uid && RowOf(e) == r
  {
    var h := History(log, uid);
    HistoryNewestFirst(log, uid);
    HistoryOwnerOnly(log, uid);
    ChartOldestFirst(h);
    SpendingWindowShape(h);
  }

  /** `isPositive`: `tx.type === 'deposit' || tx.type === 'received'`. */
  predicate IsPositive(r: Row) {
    r.kind == Deposit || r.kind == Received
  }

  /** The sign printed before the amount. */
  function SignOf(r: Row): (sign: string)
    ensures sign == "+" <==> IsPositive(r)
    ensures sign == "-" <==> !IsPositive(r)
  {
    if IsPositive(r) then "+" else "-"
  }

  /** The class of the amount cell. */
  function ToneOf(r: Row): (tone: string)
    ensures tone == "txt-success" <==> SignOf(r) == "+"
    ensures tone == "txt-error" <==> SignOf(r) == "-"
  {
    if IsPositive(r) then "txt-success" else "txt-error"
  }

  /** The sign shown agrees with what the entry did to the balance: `+` exactly for the entries that
      raised it, `-` exactly for those that lowered it, and the cell's colour goes with the sign. */
  lemma SignMatchesLedger(e: Entry)
    requires e.amount > 0.0
    ensures SignOf(RowOf(e)) == "+" <==> Effect(e) > 0.0
    ensures SignOf(RowOf(e)) == "-" <==> Effect(e) < 0.0
    ensures ToneOf(RowOf(e)) == "txt-success" <==> SignOf(RowOf(e)) == "+"
  {
    if IsPositive(RowOf(e)) {
      assert Effect(e) == e.amount;
    } else {
      assert Effect(e) == -e.amount;
    }
  }

  /** `tx.other_party || '-'`: NULL and the empty string both show as `-`. */
  function CounterpartyCell(otherParty: Option<string>): (cell: string)
    ensures cell != ""
    ensures Truthy(otherParty) ==> cell == otherParty.value
    ensures !Truthy(otherParty) ==> cell == "-"
  {
    if Truthy(otherParty) then otherParty.value else "-"
  }

  /** In the history of a well-formed store, a deposit or withdrawal shows `-` as its counterparty,
      and a transfer shows the email of an account other than the caller's. */
  lemma CounterpartyOfHistory(users: seq<User>, tokens: map<string, nat>, log: seq<Entry>, uid: nat)
    requires WellFormed(users, tokens, log)
    ensures var h := History(log, uid);
            forall i :: 0 <= i < |h| ==>
              if h[i].kind == Deposit || h[i].kind == Withdraw then CounterpartyCell(h[i].otherParty) == "-"
              else && h[i].otherParty.Some? && CounterpartyCell(h[i].otherParty) == h[i].otherParty.value
                   && exists k :: 0 <= k < |users| && users[k].id != uid && users[k].email == h[i].otherParty.value
  {
    var h := History(log, uid);
    var own := OwnEntries(log, uid);
    HistoryIsNewestOwn(log, uid);
    forall i | 0 <= i < |h|
      ensures if h[i].kind == Deposit || h[i].kind == Withdraw then CounterpartyCell(h[i].otherParty) == "-"
              else && h[i].otherParty.Some? && CounterpartyCell(h[i].otherParty) == h[i].otherParty.value
                   && exists k :: 0 <= k < |users| && users[k].id != uid && users[k].email == h[i].otherParty.value
    {
      var e := own[|own| - 1 - i];
      assert e in log;
      var j :| 0 <= j < |log| && log[j] == e;
      assert EntryShaped(log[j], |users|) && NamesOtherAccount(log[j], users);
      if e.otherParty.Some? {
        var k :| 0 <= k < |users| && Emails(users)[k] == e.otherParty.value;
        assert users[k].id != uid;
      }
    }
  }

  /** `text.length > 50 ? text.slice(0, 50) + '...' : text`. */
  function Truncate(text: string): (r: string)
    ensures |r| <= ErrorTextLimit + 3
    ensures |text| <= ErrorTextLimit ==> r == text
    ensures |text| > ErrorTextLimit ==>
              |r| == ErrorTextLimit + 3 && r[..ErrorTextLimit] == text[..ErrorTextLimit] && r[ErrorTextLimit..] == "..."
  {
    if |text| > ErrorTextLimit then text[..ErrorTextLimit] + "..." else text
  }

  /** Cutting an already cut text changes nothing. */
  lemma TruncateIdempotent(text: string)
    ensures Truncate(Truncate(text)) == Truncate(text)
  {
    var r := Truncate(text);
    if |text| > ErrorTextLimit {
      assert r == r[..ErrorTextLimit] + r[ErrorTextLimit..];
    }
  }

  /** The `error` field `api` builds when the reply is not JSON, from what reading the body as
      text gave: the text cut to fifty characters, or `Request failed` when that read failed. */
  function ErrorText(text: Option<string>): (r: string)
    ensures text.None? ==> r == RequestFailed
    ensures text.Some? ==> r == Truncate(text.value)
  {
    Truncate(text.GetOr(RequestFailed))
  }

  /** `res.text()` called after `res.json()` has read the body. A body that has been read cannot
      be read again, so the call fails; only a reply without a body (`None`) reads as "". */
  function TextAfterJson(body: Option<string>): (text: Option<string>)
    ensures body.None? ==> text == Some("")
    ensures body.Some? ==> text.None?
  {
    if body.None? then Some("") else None
  }

  /** As the client is written, the error text of a reply that is not JSON never shows the body:
      it is `Request failed`, or "" for a reply without a body, and never cut. */
  lemma ErrorTextAsWritten(body: Option<string>)
    ensures ErrorText(TextAfterJson(body)) == if body.None? then "" else RequestFailed
    ensures |ErrorText(TextAfterJson(body))| <= ErrorTextLimit
  {
  }
}
