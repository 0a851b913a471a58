/**
 The backfill command: one synthetic event per account, finished transfer and seed, under an id derived from
 the entity, so that repeating it repeats the same ids.
 */
module Backfill {
  import opened Wrappers
  import opened Ledger
  import opened Events
  import opened Postings

  datatype BackfillError = AlreadyRun(count: nat)

  /** `backfill_event_id`. */
  function BackfillId(kind: EntityKind, entity: nat): EventId { Derived(kind, entity) }

  function AccountEvent(a: AccountId): Event {
    Event(BackfillId(AccountOpenedKind, a), AccountOpened(a))
  }

  function TransferEvents(row: TransferRow): seq<Event> {
    match row.status
    case RecordCompleted =>
      [Event(BackfillId(TransferCompletedKind, row.id), TransferCompleted(row.id, row.source, row.target, row.amount))]
    case RecordFailed => [Event(BackfillId(TransferFailedKind, row.id), TransferFailed(row.id))]
    case RecordPending => []
  }

  /** `entry_type = 'seed' AND direction = 'credit'`. */
  predicate IsSeedCredit(leg: Leg) { leg.entry.SeedEntry? && leg.direction.Credit? }

  /** A transaction has one seed credit leg, so its transaction id stands for the leg's id. */
  function SeedEvent(leg: Leg): Event {
    Event(BackfillId(SeedCompletedKind, leg.txn), SeedCompleted(leg.account, leg.amount))
  }

  function AccountEvents(accounts: seq<AccountId>): seq<Event> {
    if accounts == [] then []
    else AccountEvents(accounts[..|accounts| - 1]) + [AccountEvent(accounts[|accounts| - 1])]
  }

  function AllTransferEvents(rows: seq<TransferRow>): seq<Event> {
    if rows == [] then []
    else AllTransferEvents(rows[..|rows| - 1]) + TransferEvents(rows[|rows| - 1])
  }

  function SeedEvents(legs: seq<Leg>): seq<Event> {
    if legs == [] then []
    else SeedEvents(legs[..|legs| - 1]) + (if IsSeedCredit(legs[|legs| - 1]) then [SeedEvent(legs[|legs| - 1])] else [])
  }

  /** Everything one run publishes. */
  function Emitted(userAccounts: seq<AccountId>, transfers: seq<TransferRow>, legs: seq<Leg>): seq<Event> {
    AccountEvents(userAccounts) + AllTransferEvents(transfers) + SeedEvents(legs)
  }

  function CountOpened(outbox: seq<Event>): nat {
    if outbox == [] then 0
    else CountOpened(outbox[..|outbox| - 1]) + (if outbox[|outbox| - 1].payload.AccountOpened? then 1 else 0)
  }

  /** The tables the command reads, in `created_at` order, and the outbox it appends to. */
  class Store {
    var userAccounts: seq<AccountId>
    var transfers: seq<TransferRow>
    var legs: seq<Leg>
    var outbox: seq<Event>

    constructor (userAccounts: seq<AccountId>, transfers: seq<TransferRow>, legs: seq<Leg>)
      ensures this.userAccounts == userAccounts && this.transfers == transfers && this.legs == legs && outbox == []
    {
      this.userAccounts, this.transfers, this.legs, outbox := userAccounts, transfers, legs, [];
    }

    method PublishEvent(e: Event)
      modifies this`outbox
      ensures outbox == old(outbox) + [e]
    {
      outbox := outbox + [e];
    }

    method BackfillAccounts()
      modifies this`outbox
      ensures outbox == old(outbox) + AccountEvents(userAccounts)
    {
      for i := 0 to |userAccounts|
        invariant outbox == old(outbox) + AccountEvents(userAccounts[..i])
      {
        assert userAccounts[..i + 1][..i] == userAccounts[..i];
        PublishEvent(AccountEvent(userAccounts[i]));
      }
      assert userAccounts[..|userAccounts|] == userAccounts;
    }

    method BackfillTransfers()
      modifies this`outbox
      ensures outbox == old(outbox) + AllTransferEvents(transfers)
    {
      for i := 0 to |transfers|
        invariant outbox == old(outbox) + AllTransferEvents(transfers[..i])
      {
        assert transfers[..i + 1][..i] == transfers[..i];
        var row := transfers[i];
        if row.status.RecordCompleted? {
          PublishEvent(Event(BackfillId(TransferCompletedKind, row.id),
                             TransferCompleted(row.id, row.source, row.target, row.amount)));
        } else if row.status.RecordFailed? {
          PublishEvent(Event(BackfillId(TransferFailedKind, row.id), TransferFailed(row.id)));
        }
      }
      assert transfers[..|transfers|] == transfers;
    }

    method BackfillSeeds()
      modifies this`outbox
      ensures outbox == old(outbox) + SeedEvents(legs)
    {
      for i := 0 to |legs|
        invariant outbox == old(outbox) + SeedEvents(legs[..i])
      {
        assert legs[..i + 1][..i] == legs[..i];
        if IsSeedCredit(legs[i]) {
          PublishEvent(SeedEvent(legs[i]));
        }
      }
      assert legs[..|legs|] == legs;
    }

    method Backfill(force: bool) returns (result: Result<(), BackfillError>)
      modifies this`outbox
      ensures result.Err? <==> !force && CountOpened(old(outbox)) > 0
      ensures result.Err? ==> result.error.count == CountOpened(old(outbox)) && outbox == old(outbox)
      ensures result.Ok? ==> outbox == old(outbox) + Emitted(userAccounts, transfers, legs)
    {
      hide AccountEvents, AllTransferEvents, SeedEvents, CountOpened;
      if !force {
        var count := CountOpened(outbox);
        if count > 0 {
          return Err(AlreadyRun(count));
        }
      }
      BackfillAccounts();
      BackfillTransfers();
      BackfillSeeds();
      return Ok(());
    }

    /** The guard stops a second run exactly when the outbox held an account event before the first, or there was an
        account to open: a run over no user accounts is not recognised. */
    method BackfillTwice() returns (first: Result<(), BackfillError>, second: Result<(), BackfillError>)
      modifies this`outbox
      ensures first.Err? <==> CountOpened(old(outbox)) > 0
      ensures second.Err? <==> CountOpened(old(outbox)) > 0 || userAccounts != []
      ensures outbox == old(outbox) + (if first.Err? then [] else Emitted(userAccounts, transfers, legs))
                        + (if second.Err? then [] else Emitted(userAccounts, transfers, legs))
    {
      first := Backfill(false);
      CountEmitted(userAccounts, transfers, legs);
      CountOpenedAppend(old(outbox), Emitted(userAccounts, transfers, legs));
      second := Backfill(false);
    }
  }

  lemma {:induction false} CountOpenedAppend(xs: seq<Event>, ys: seq<Event>)
    ensures CountOpened(xs + ys) == CountOpened(xs) + CountOpened(ys)
  {
    if ys == [] {
      assert xs + ys == xs;
    } else {
      assert (xs + ys)[..|xs + ys| - 1] == xs + ys[..|ys| - 1];
      CountOpenedAppend(xs, ys[..|ys| - 1]);
    }
  }

  lemma {:induction false} CountAccountEvents(accounts: seq<AccountId>)
    ensures CountOpened(AccountEvents(accounts)) == |accounts|
  {
    if accounts != [] {
      CountAccountEvents(accounts[..|accounts| - 1]);
    }
  }

  lemma {:induction false} CountNone(events: seq<Event>)
    requires forall e :: e in events ==> !e.payload.AccountOpened?
    ensures CountOpened(events) == 0
  {
    if events != [] {
      assert events == events[..|events| - 1] + [events[|events| - 1]];
      CountNone(events[..|events| - 1]);
    }
  }

  /** A run publishes one account.opened event per user account. */
  lemma CountEmitted(userAccounts: seq<AccountId>, transfers: seq<TransferRow>, legs: seq<Leg>)
    ensures CountOpened(Emitted(userAccounts, transfers, legs)) == |userAccounts|
  {
    hide AccountEvents, AllTransferEvents, SeedEvents, CountOpened;
    CountOpenedAppend(AccountEvents(userAccounts) + AllTransferEvents(transfers), SeedEvents(legs));
    CountOpenedAppend(AccountEvents(userAccounts), AllTransferEvents(transfers));
    CountAccountEvents(userAccounts);
    forall e | e in AllTransferEvents(transfers)
      ensures !e.payload.AccountOpened? { TransferEventMember(transfers, e); }
    forall e | e in SeedEvents(legs) ensures !e.payload.AccountOpened? { SeedEventMember(legs, e); }
    CountNone(AllTransferEvents(transfers));
    CountNone(SeedEvents(legs));
  }

  /* ---- Which events a run publishes ---- */

  lemma {:induction false} AccountEventMember(accounts: seq<AccountId>, e: Event)
    ensures e in AccountEvents(accounts) <==> exists a :: a in accounts && e == AccountEvent(a)
  {
    if accounts != [] {
      var n := |accounts| - 1;
      assert accounts == accounts[..n] + [accounts[n]];
      AccountEventMember(accounts[..n], e);
    }
  }

  lemma {:induction false} TransferEventMember(rows: seq<TransferRow>, e: Event)
    ensures e in AllTransferEvents(rows) <==> exists row :: row in rows && e in TransferEvents(row)
  {
    if rows != [] {
      var n := |rows| - 1;
      assert rows == rows[..n] + [rows[n]];
      TransferEventMember(rows[..n], e);
    }
  }

  lemma {:induction false} SeedEventMember(legs: seq<Leg>, e: Event)
    ensures e in SeedEvents(legs) <==> exists leg :: leg in legs && IsSeedCredit(leg) && e == SeedEvent(leg)
  {
    if legs != [] {
      var n := |legs| - 1;
      assert legs == legs[..n] + [legs[n]];
      SeedEventMember(legs[..n], e);
    }
  }
}
