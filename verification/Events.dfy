/**
 The event contracts carried by the outbox, Kafka and the read model. A payload keeps the fields that
 the read model or an idempotency rule depends on.
 */
module Events {
  import opened Wrappers
  import opened Ledger

  /** `publish_event` draws a fresh UUID4; the backfill derives a UUID5 from kind and entity. Both are
      taken as injective, and as never meeting. */
  datatype EventId = Fresh(n: nat) | Derived(kind: EntityKind, entity: nat)

  datatype EntityKind = AccountOpenedKind | TransferCompletedKind | TransferFailedKind | SeedCompletedKind

  datatype Payload =
    | AccountOpened(account: AccountId)
    | TransferCompleted(transfer: nat, source: AccountId, target: AccountId, amount: int)
    | TransferFailed(transfer: nat)
    | SeedCompleted(account: AccountId, amount: int)
    | DepositCompleted(deposit: nat, account: AccountId, amount: int)
    | DepositRejected(deposit: nat)
    | WithdrawalInitiated(withdrawal: nat, account: AccountId, amount: int)
    | WithdrawalCompleted(withdrawal: nat)
    | WithdrawalFailed(withdrawal: nat, account: AccountId, amount: int)
    | OtherPayload

  datatype Event = Event(id: EventId, payload: Payload)

  /** A row of `transaction_activity`. */
  datatype ActivityRow = ActivityRow(
    event: EventId,
    account: AccountId,
    direction: Direction,
    amount: int,
    entry: EntryType,
    reference: Option<nat>)

  /** The rows one event stands for: two for a transfer, one for a seed, deposit, withdrawal or reversal. */
  function RowsOf(e: Event): seq<ActivityRow> {
    match e.payload
    case TransferCompleted(t, source, target, amount) =>
      [ActivityRow(e.id, source, Debit, amount, TransferEntry, Some(t)),
       ActivityRow(e.id, target, Credit, amount, TransferEntry, Some(t))]
    case SeedCompleted(a, amount) => [ActivityRow(e.id, a, Credit, amount, SeedEntry, None)]
    case DepositCompleted(d, a, amount) => [ActivityRow(e.id, a, Credit, amount, DepositEntry, Some(d))]
    case WithdrawalInitiated(w, a, amount) => [ActivityRow(e.id, a, Debit, amount, WithdrawalEntry, Some(w))]
    case WithdrawalFailed(w, a, amount) => [ActivityRow(e.id, a, Credit, amount, ReversalEntry, Some(w))]
    case _ => []
  }

  /** No two rows of the event fall on one account, so the unique (event, account) constraint admits them together. */
  ghost predicate Insertable(e: Event) {
    forall i, j :: 0 <= i < j < |RowsOf(e)| ==> RowsOf(e)[i].account != RowsOf(e)[j].account
  }

  function SignedRow(r: ActivityRow): int {
    if r.direction.Credit? then r.amount else -r.amount
  }

  /** Signed sum of the rows of one account. */
  function RowsBalance(rows: seq<ActivityRow>, a: AccountId): int {
    if rows == [] then 0
    else
      RowsBalance(rows[..|rows| - 1], a)
      + (if rows[|rows| - 1].account == a then SignedRow(rows[|rows| - 1]) else 0)
  }

  /** What processing the event adds to the account's activity total. */
  function Contribution(e: Event, a: AccountId): int {
    RowsBalance(RowsOf(e), a)
  }

  lemma {:induction false} RowsBalanceAppend(xs: seq<ActivityRow>, ys: seq<ActivityRow>, a: AccountId)
    ensures RowsBalance(xs + ys, a) == RowsBalance(xs, a) + RowsBalance(ys, a)
  {
    if ys == [] {
      assert xs + ys == xs;
    } else {
      assert (xs + ys)[..|xs + ys| - 1] == xs + ys[..|ys| - 1];
      RowsBalanceAppend(xs, ys[..|ys| - 1], a);
    }
  }

  lemma RowsBalanceSmall(r: ActivityRow, q: ActivityRow, a: AccountId)
    ensures RowsBalance([], a) == 0
    ensures RowsBalance([r], a) == if r.account == a then SignedRow(r) else 0
    ensures RowsBalance([r, q], a)
            == (if r.account == a then SignedRow(r) else 0) + (if q.account == a then SignedRow(q) else 0)
  {
    assert [r, q][..1] == [r];
    assert [r][..0] == [];
  }

  /* ---- Rows and legs ---- */

  /** The rows on one account, in order. */
  function RowsOn(rows: seq<ActivityRow>, a: AccountId): seq<ActivityRow> {
    if rows == [] then []
    else
      var last := rows[|rows| - 1];
      RowsOn(rows[..|rows| - 1], a) + (if last.account == a then [last] else [])
  }

  /** The read model's row for a leg, under the event that told it. */
  function RowFor(id: EventId, leg: Leg): ActivityRow {
    ActivityRow(id, leg.account, leg.direction, leg.amount, leg.entry, leg.reference)
  }

  function RowsFor(id: EventId, legs: seq<Leg>): seq<ActivityRow> {
    seq(|legs|, i requires 0 <= i < |legs| => RowFor(id, legs[i]))
  }

  lemma RowsOnSmall(r: ActivityRow, q: ActivityRow, a: AccountId)
    ensures RowsOn([], a) == []
    ensures RowsOn([r], a) == if r.account == a then [r] else []
    ensures RowsOn([r, q], a) == (if r.account == a then [r] else []) + (if q.account == a then [q] else [])
  {
    assert [r, q][..1] == [r];
    assert [r][..0] == [];
  }

  lemma {:induction false} RowsOnMember(rows: seq<ActivityRow>, a: AccountId, r: ActivityRow)
    ensures r in RowsOn(rows, a) <==> r in rows && r.account == a
  {
    if rows != [] {
      assert rows == rows[..|rows| - 1] + [rows[|rows| - 1]];
      RowsOnMember(rows[..|rows| - 1], a, r);
    }
  }

  lemma {:induction false} RowsOnBalance(rows: seq<ActivityRow>, a: AccountId)
    ensures RowsBalance(RowsOn(rows, a), a) == RowsBalance(rows, a)
  {
    if rows != [] {
      var before, last := rows[..|rows| - 1], rows[|rows| - 1];
      RowsOnBalance(before, a);
      if last.account == a {
        RowsBalanceAppend(RowsOn(before, a), [last], a);
        RowsBalanceSmall(last, last, a);
        assert RowsOn(rows, a) == RowsOn(before, a) + [last];
      } else {
        assert RowsOn(rows, a) == RowsOn(before, a);
      }
    }
  }

  lemma {:induction false} RowsForBalance(id: EventId, legs: seq<Leg>, a: AccountId)
    requires forall leg :: leg in legs ==> leg.account == a
    ensures RowsBalance(RowsFor(id, legs), a) == Sum(legs)
  {
    if legs != [] {
      var before, last := legs[..|legs| - 1], legs[|legs| - 1];
      RowsForBalance(id, before, a);
      assert RowsFor(id, legs)[..|legs| - 1] == RowsFor(id, before);
      assert last in legs;
    }
  }
}
