/**
 Every committed transaction keeps the database good: double entry, one posting per external key,
 outbox rows that tell the ledger. `txn` below is the fresh transaction id of the commit.
 */
module PostingInvariants {
  import opened Wrappers
  import opened Ledger
  import opened Events
  import opened Postings

  /* ---- What new legs do to the ledger's views ---- */

  /** Filtered views grow by exactly the new legs that match. */
  lemma GrowFilter(legs: seq<Leg>, p: Posting, txn: nat, q: Leg -> bool)
    ensures
      var added := LegsFor(p, txn);
      Filter(legs + added, q)
      == Filter(legs, q)
         + (if p.Posting? && q(added[0]) then [added[0]] else [])
         + (if p.Posting? && q(added[1]) then [added[1]] else [])
  {
    if p.Posting? {
      FilterPosting(legs, txn, p.debit, p.credit, p.amount, p.entry, p.reference, p.key, q);
    } else {
      assert legs + [] == legs;
    }
  }

  lemma GrowConserves(legs: seq<Leg>, p: Posting, txn: nat)
    requires Conserved(legs)
    ensures Conserved(legs + LegsFor(p, txn))
  {
    if p.Posting? {
      PostingMovesMoney(legs, txn, p.debit, p.credit, p.amount, p.entry, p.reference, p.key);
    } else {
      assert legs + [] == legs;
    }
  }

  lemma GrowBalance(legs: seq<Leg>, p: Posting, txn: nat, a: AccountId)
    ensures Balance(legs + LegsFor(p, txn), a)
            == Balance(legs, a)
               - (if p.Posting? && a == p.debit then p.amount else 0)
               + (if p.Posting? && a == p.credit then p.amount else 0)
  {
    if p.Posting? {
      PostingMovesMoney(legs, txn, p.debit, p.credit, p.amount, p.entry, p.reference, p.key);
    } else {
      assert legs + [] == legs;
    }
  }

  lemma GrowBelow(legs: seq<Leg>, p: Posting, n: nat)
    requires LegsBelow(legs, n) && (p.Posting? && p.reference.Some? ==> p.reference.value <= n)
    ensures LegsBelow(legs + LegsFor(p, n + 1), n + 3)
  {
  }

  lemma GrowPairs(legs: seq<Leg>, p: Posting, txn: nat)
    requires LegsBelow(legs, txn) && TxnPairs(legs)
    ensures TxnPairs(legs + LegsFor(p, txn))
  {
    hide TxnPaired;
    var legs' := legs + LegsFor(p, txn);
    forall leg | leg in legs' ensures TxnPaired(Filter(legs', InTxn(leg.txn))) {
      GrowFilter(legs, p, txn, InTxn(leg.txn));
      if leg in legs {
        assert Filter(legs', InTxn(leg.txn)) == Filter(legs, InTxn(leg.txn));
      } else {
        FilterEmpty(legs, InTxn(txn));
        assert Filter(legs', InTxn(leg.txn)) == LegsFor(p, txn);
        PostingPaired(p, txn);
      }
    }
  }

  lemma PostingPaired(p: Posting, txn: nat)
    requires p.Posting?
    ensures TxnPaired(LegsFor(p, txn))
  {
  }

  lemma BelowMore(legs: seq<Leg>, n: nat, m: nat)
    requires LegsBelow(legs, n) && n <= m
    ensures LegsBelow(legs, m)
  {
  }

  /* ---- What no commit disturbs ---- */

  lemma TransfersUndisturbed(legs: seq<Leg>, transfers: map<string, TransferRow>, p: Posting, txn: nat)
    requires TransfersPosted(legs, transfers)
    requires p.Posting? && p.reference.Some? ==> forall k :: k in transfers ==> transfers[k].id != p.reference.value
    ensures TransfersPosted(legs + LegsFor(p, txn), transfers)
  {
    forall k | k in transfers ensures TransferPosted(legs + LegsFor(p, txn), transfers[k]) {
      GrowFilter(legs, p, txn, ByReference(transfers[k].id));
    }
  }

  lemma DepositsUndisturbed(legs: seq<Leg>, deposits: map<string, DepositRow>, p: Posting, txn: nat)
    requires DepositsPosted(legs, deposits)
    requires p.Posting? && p.reference.Some? ==> forall k :: k in deposits ==> deposits[k].id != p.reference.value
    ensures DepositsPosted(legs + LegsFor(p, txn), deposits)
  {
    forall k | k in deposits ensures DepositPosted(legs + LegsFor(p, txn), deposits[k]) {
      GrowFilter(legs, p, txn, ByReference(deposits[k].id));
    }
  }

  lemma WithdrawalUndisturbed(legs: seq<Leg>, key: string, row: WithdrawalRow, p: Posting, txn: nat)
    requires WithdrawalPosted(legs, key, row)
    requires p.Posting? ==> p.reference != Some(row.id) && p.key != Some(ReversalKey(key))
    ensures WithdrawalPosted(legs + LegsFor(p, txn), key, row)
  {
    GrowFilter(legs, p, txn, ByReference(row.id));
    GrowFilter(legs, p, txn, ByKey(ReversalKey(key)));
    assert Filter(legs + LegsFor(p, txn), ByReference(row.id)) == Filter(legs, ByReference(row.id));
    assert Filter(legs + LegsFor(p, txn), ByKey(ReversalKey(key))) == Filter(legs, ByKey(ReversalKey(key)));
  }

  lemma WithdrawalsUndisturbed(legs: seq<Leg>, withdrawals: map<string, WithdrawalRow>, p: Posting, txn: nat)
    requires WithdrawalsPosted(legs, withdrawals)
    requires p.Posting? && p.reference.Some? ==> forall k :: k in withdrawals ==> withdrawals[k].id != p.reference.value
    requires p.Posting? && p.key.Some? ==> p.key.value.SeedKey?
    ensures WithdrawalsPosted(legs + LegsFor(p, txn), withdrawals)
  {
    hide WithdrawalPosted;
    forall k | k in withdrawals ensures WithdrawalPosted(legs + LegsFor(p, txn), k, withdrawals[k]) {
      WithdrawalUndisturbed(legs, k, withdrawals[k], p, txn);
    }
    forall k | k !in withdrawals ensures Filter(legs + LegsFor(p, txn), ByKey(ReversalKey(k))) == [] {
      GrowFilter(legs, p, txn, ByKey(ReversalKey(k)));
    }
  }

  lemma SeedUndisturbed(legs: seq<Leg>, k: string, p: Posting, txn: nat)
    requires SeedPosted(legs, k) && LegsBelow(legs, txn)
    requires p.Posting? ==> p.key != Some(SeedKey(k))
    ensures SeedPosted(legs + LegsFor(p, txn), k)
  {
    GrowFilter(legs, p, txn, ByKey(SeedKey(k)));
    var named := Filter(legs, ByKey(SeedKey(k)));
    if named != [] {
      FilterMember(legs, ByKey(SeedKey(k)), named[0]);
      GrowFilter(legs, p, txn, InTxn(named[0].txn));
    }
  }

  lemma SeedsGrow(legs: seq<Leg>, p: Posting, txn: nat)
    requires SeedsPosted(legs) && LegsBelow(legs, txn)
    requires p.Posting? && p.key.Some? && p.key.value.SeedKey? ==> SeedPosted(legs + LegsFor(p, txn), p.key.value.key)
    ensures SeedsPosted(legs + LegsFor(p, txn))
  {
    hide SeedPosted;
    forall k ensures SeedPosted(legs + LegsFor(p, txn), k) {
      if !(p.Posting? && p.key == Some(SeedKey(k))) {
        SeedUndisturbed(legs, k, p, txn);
      }
    }
  }

  /* ---- Outbox rows tell the ledger ---- */

  /** The rows that report a posting to an account. */
  function PostedRows(id: EventId, p: Posting, a: AccountId): seq<ActivityRow> {
    match p
    case NoPosting => []
    case Posting(debit, credit, amount, entry, reference, _) =>
      (if debit == a then [ActivityRow(id, a, Debit, amount, entry, reference)] else [])
      + (if credit == a then [ActivityRow(id, a, Credit, amount, entry, reference)] else [])
  }

  /** The payload reports the posting to every account but the system's. */
  ghost predicate Reports(e: Event, p: Posting) {
    forall a :: a != SYSTEM_ACCOUNT ==> RowsOn(RowsOf(e), a) == PostedRows(e.id, p, a)
  }

  lemma PostingRows(legs: seq<Leg>, p: Posting, txn: nat, id: EventId, a: AccountId)
    requires LegsBelow(legs, txn)
    ensures RowsFor(id, Filter(legs + LegsFor(p, txn), InTxnOf(txn, a))) == PostedRows(id, p, a)
  {
    var q := InTxnOf(txn, a);
    GrowFilter(legs, p, txn, q);
    FilterEmpty(legs, q);
    if p.Posting? {
      var added := LegsFor(p, txn);
      assert Filter(legs + added, q)
          == if a == p.debit then if a == p.credit then [added[0], added[1]] else [added[0]]
             else if a == p.credit then [added[1]] else [];
    }
  }

  lemma LatestTells(legs: seq<Leg>, p: Posting, latest: Entry)
    requires LegsBelow(legs, latest.txn) && Reports(latest.event, p)
    ensures Tells(legs + LegsFor(p, latest.txn), latest)
  {
    hide LegsBelow, RowsOf, RowsOn, RowsFor, Filter, LegsFor, PostedRows;
    forall a | a != SYSTEM_ACCOUNT
      ensures RowsOn(RowsOf(latest.event), a)
              == RowsFor(latest.event.id, Filter(legs + LegsFor(p, latest.txn), InTxnOf(latest.txn, a)))
    {
      PostingRows(legs, p, latest.txn, latest.event.id, a);
    }
  }

  lemma OlderTells(legs: seq<Leg>, p: Posting, txn: nat, e: Entry)
    requires Tells(legs, e) && e.txn != txn
    ensures Tells(legs + LegsFor(p, txn), e)
  {
    forall a | a != SYSTEM_ACCOUNT
      ensures Filter(legs + LegsFor(p, txn), InTxnOf(e.txn, a)) == Filter(legs, InTxnOf(e.txn, a))
    {
      GrowFilter(legs, p, txn, InTxnOf(e.txn, a));
    }
  }

  lemma GrowTells(legs: seq<Leg>, outbox: seq<Entry>, accounts: map<AccountId, bool>, p: Posting, payload: Payload,
                  n: nat)
    requires LegsBelow(legs, n) && EntriesBelow(outbox, n) && EventsTellLedger(legs, outbox, accounts)
    requires Reports(Event(Fresh(n + 2), payload), p)
    requires forall r :: r in RowsOf(Event(Fresh(n + 2), payload)) ==> r.account in accounts
    requires Insertable(Event(Fresh(n + 2), payload))
    ensures
      var latest := Entry(Event(Fresh(n + 2), payload), n + 1);
      EventsTellLedger(legs + LegsFor(p, n + 1), outbox + [latest], accounts)
  {
    var latest := Entry(Event(Fresh(n + 2), payload), n + 1);
    var legs', outbox' := legs + LegsFor(p, n + 1), outbox + [latest];
    forall e | e in outbox' ensures Tells(legs', e) {
      if e == latest {
        LatestTells(legs, p, latest);
      } else {
        OlderTells(legs, p, n + 1, e);
      }
    }
    forall leg | leg in legs' ensures exists e :: e in outbox' && e.txn == leg.txn {
      if leg in legs {
        var e :| e in outbox && e.txn == leg.txn;
        assert e in outbox';
      } else {
        assert latest in outbox';
      }
    }
    forall i, j | 0 <= i < j < |outbox'|
      ensures outbox'[i].event.id != outbox'[j].event.id && outbox'[i].txn != outbox'[j].txn
    {
      assert outbox'[i] == outbox[i] && outbox[i] in outbox;
    }
  }

  lemma SingleRowReports(e: Event, p: Posting, r: ActivityRow)
    requires RowsOf(e) == [r] && p.Posting?
    requires r == ActivityRow(e.id, r.account, r.direction, p.amount, p.entry, p.reference)
    requires (p.credit == SYSTEM_ACCOUNT && p.debit == r.account && r.direction.Debit?)
          || (p.debit == SYSTEM_ACCOUNT && p.credit == r.account && r.direction.Credit?)
    ensures Reports(e, p)
  {
    forall a | a != SYSTEM_ACCOUNT ensures RowsOn(RowsOf(e), a) == PostedRows(e.id, p, a) {
      RowsOnSmall(r, r, a);
    }
  }

  lemma TransferReports(e: Event, p: Posting)
    requires e.payload.TransferCompleted? && p.Posting?
    requires p.debit == e.payload.source && p.credit == e.payload.target && p.amount == e.payload.amount
    requires p.entry == TransferEntry && p.reference == Some(e.payload.transfer)
    ensures Reports(e, p)
  {
    forall a | a != SYSTEM_ACCOUNT ensures RowsOn(RowsOf(e), a) == PostedRows(e.id, p, a) {
      RowsOnSmall(RowsOf(e)[0], RowsOf(e)[1], a);
    }
  }

  /* ---- The effects keep the database good ---- */

  /** The ledger half of a commit. */
  lemma LedgerGrows(db: Db, p: Posting, payload: Payload)
    requires GoodLedger(db.legs, db.outbox, db.accounts, db.nextId)
    requires p.Posting? ==> p.debit in db.accounts && p.credit in db.accounts
    requires p.Posting? && p.reference.Some? ==> p.reference.value <= db.nextId
    requires p.Posting? && p.key.Some? && p.key.value.SeedKey? ==>
               SeedPosted(db.legs + LegsFor(p, db.nextId + 1), p.key.value.key)
    requires Reports(Event(Fresh(db.nextId + 2), payload), p)
    requires forall r :: r in RowsOf(Event(Fresh(db.nextId + 2), payload)) ==> r.account in db.accounts
    requires Insertable(Event(Fresh(db.nextId + 2), payload))
    ensures
      var db' := Append(db, p, payload);
      GoodLedger(db'.legs, db'.outbox, db'.accounts, db'.nextId)
  {
    hide Conserved, LegsBelow, SeedsPosted, SeedPosted, EventsTellLedger, Reports, TxnPairs, Insertable;
    var txn := db.nextId + 1;
    GrowConserves(db.legs, p, txn);
    GrowBelow(db.legs, p, db.nextId);
    GrowTells(db.legs, db.outbox, db.accounts, p, payload, db.nextId);
    BelowMore(db.legs, db.nextId, txn);
    SeedsGrow(db.legs, p, txn);
    GrowPairs(db.legs, p, txn);
  }

  lemma IdsAdvance(transfers: map<string, TransferRow>, withdrawals: map<string, WithdrawalRow>,
                   deposits: map<string, DepositRow>, n: nat)
    requires RecordIds(transfers, withdrawals, deposits, n)
    ensures RecordIds(transfers, withdrawals, deposits, n + 3)
    ensures NoRecord(transfers, withdrawals, deposits, n)
  {
  }

  /** The records half, when the posting refers at most to a record still to be written. */
  lemma RecordsUndisturbed(db: Db, p: Posting, payload: Payload)
    requires GoodRecords(db)
    requires p.Posting? ==> p.reference == None || p.reference == Some(db.nextId)
    requires p.Posting? ==> p.key == None || p.key.value.SeedKey?
    ensures GoodRecords(Append(db, p, payload)) && UnusedId(Append(db, p, payload), db.nextId)
  {
    hide TransfersPosted, DepositsPosted, WithdrawalsPosted, RecordIds, WithdrawalAccounts;
    var txn := db.nextId + 1;
    IdsAdvance(db.transfers, db.withdrawals, db.deposits, db.nextId);
    TransfersUndisturbed(db.legs, db.transfers, p, txn);
    DepositsUndisturbed(db.legs, db.deposits, p, txn);
    WithdrawalsUndisturbed(db.legs, db.withdrawals, p, txn);
  }

  ghost predicate UnusedId(db: Db, id: nat) {
    && id < db.nextId
    && NoRecord(db.transfers, db.withdrawals, db.deposits, id)
  }

  ghost predicate NoRecord(transfers: map<string, TransferRow>, withdrawals: map<string, WithdrawalRow>,
                           deposits: map<string, DepositRow>, id: nat) {
    && (forall k :: k in transfers ==> transfers[k].id != id)
    && (forall k :: k in withdrawals ==> withdrawals[k].id != id)
    && (forall k :: k in deposits ==> deposits[k].id != id)
  }

  lemma RecordIdsAddTransfer(transfers: map<string, TransferRow>, withdrawals: map<string, WithdrawalRow>,
                     deposits: map<string, DepositRow>, n: nat, key: string, row: TransferRow)
    requires RecordIds(transfers, withdrawals, deposits, n) && key !in transfers && row.id < n
    requires NoRecord(transfers, withdrawals, deposits, row.id)
    ensures RecordIds(transfers[key := row], withdrawals, deposits, n)
  {
  }

  lemma RecordIdsAddWithdrawal(transfers: map<string, TransferRow>, withdrawals: map<string, WithdrawalRow>,
                     deposits: map<string, DepositRow>, n: nat, key: string, row: WithdrawalRow)
    requires RecordIds(transfers, withdrawals, deposits, n) && key !in withdrawals && row.id < n
    requires NoRecord(transfers, withdrawals, deposits, row.id)
    ensures RecordIds(transfers, withdrawals[key := row], deposits, n)
  {
  }

  lemma RecordIdsAddDeposit(transfers: map<string, TransferRow>, withdrawals: map<string, WithdrawalRow>,
                     deposits: map<string, DepositRow>, n: nat, key: string, row: DepositRow)
    requires RecordIds(transfers, withdrawals, deposits, n) && key !in deposits && row.id < n
    requires NoRecord(transfers, withdrawals, deposits, row.id)
    ensures RecordIds(transfers, withdrawals, deposits[key := row], n)
  {
  }


  /** A posting under a fresh reference is all that the reference selects. */
  lemma FreshReference(legs: seq<Leg>, n: nat, p: Posting)
    requires LegsBelow(legs, n)
    requires p.Posting? ==> p.reference == Some(n)
    ensures Filter(legs + LegsFor(p, n + 1), ByReference(n)) == LegsFor(p, n + 1)
  {
    GrowFilter(legs, p, n + 1, ByReference(n));
    FilterEmpty(legs, ByReference(n));
  }

  lemma TransferPostedNow(legs: seq<Leg>, n: nat, row: TransferRow)
    requires LegsBelow(legs, n) && row.id == n && !row.status.RecordPending? && row.source != row.target
    ensures
      var p := if row.status.RecordFailed? then NoPosting
               else Posting(row.source, row.target, row.amount, TransferEntry, Some(n), None);
      TransferPosted(legs + LegsFor(p, n + 1), row)
  {
    var p := if row.status.RecordFailed? then NoPosting
             else Posting(row.source, row.target, row.amount, TransferEntry, Some(n), None);
    FreshReference(legs, n, p);
  }

  lemma TransferGood(db: Db, source: AccountId, target: AccountId, amount: int, key: string, balance: int)
    requires GoodDb(db) && key !in db.transfers && source in db.accounts && target in db.accounts
    ensures TransferEffect(db, source, target, amount, key, balance).Some? ==>
              GoodDb(TransferEffect(db, source, target, amount, key, balance).value)
  {
    if amount > 0 && source != target {
      if balance < amount {
        RefusedTransferGood(db, key, TransferRow(db.nextId, source, target, amount, RecordFailed));
      } else {
        CompletedTransferGood(db, key, TransferRow(db.nextId, source, target, amount, RecordCompleted));
      }
    }
  }

  lemma RefusedTransferGood(db: Db, key: string, row: TransferRow)
    requires GoodDb(db) && key !in db.transfers && row.id == db.nextId && row.status.RecordFailed?
             && row.source != row.target
    ensures GoodDb(Append(db, NoPosting, TransferFailed(row.id)).(transfers := db.transfers[key := row]))
  {
    hide Conserved, LegsBelow, EntriesBelow, SeedsPosted, EventsTellLedger, TxnPairs, LegAccounts, GoodRecords,
         UnusedId, TransferPosted;
    LedgerGrows(db, NoPosting, TransferFailed(row.id));
    RecordsUndisturbed(db, NoPosting, TransferFailed(row.id));
    TransferPostedNow(db.legs, db.nextId, row);
    AddedTransfer(Append(db, NoPosting, TransferFailed(row.id)), key, row);
  }

  lemma CompletedTransferGood(db: Db, key: string, row: TransferRow)
    requires GoodDb(db) && key !in db.transfers && row.id == db.nextId && row.status.RecordCompleted?
             && row.source != row.target
    requires row.source in db.accounts && row.target in db.accounts
    ensures
      var p := Posting(row.source, row.target, row.amount, TransferEntry, Some(row.id), None);
      var payload := TransferCompleted(row.id, row.source, row.target, row.amount);
      GoodDb(Append(db, p, payload).(transfers := db.transfers[key := row]))
  {
    hide Conserved, LegsBelow, EntriesBelow, SeedsPosted, EventsTellLedger, TxnPairs, LegAccounts, GoodRecords,
         UnusedId, TransferPosted;
    var p := Posting(row.source, row.target, row.amount, TransferEntry, Some(row.id), None);
    var payload := TransferCompleted(row.id, row.source, row.target, row.amount);
    TransferReports(Event(Fresh(db.nextId + 2), payload), p);
    LedgerGrows(db, p, payload);
    RecordsUndisturbed(db, p, payload);
    TransferPostedNow(db.legs, db.nextId, row);
    AddedTransfer(Append(db, p, payload), key, row);
  }

  lemma AddedTransfer(db: Db, key: string, row: TransferRow)
    requires GoodRecords(db) && key !in db.transfers
    requires UnusedId(db, row.id) && TransferPosted(db.legs, row)
    ensures GoodRecords(db.(transfers := db.transfers[key := row]))
  {
    hide WithdrawalsPosted, DepositsPosted, TransferPosted, RecordIds, NoRecord;
    assert TransfersPosted(db.legs, db.transfers[key := row]);
    RecordIdsAddTransfer(db.transfers, db.withdrawals, db.deposits, db.nextId, key, row);
  }

  lemma AddedDeposit(db: Db, reference: string, row: DepositRow)
    requires GoodRecords(db) && reference !in db.deposits
    requires UnusedId(db, row.id) && DepositPosted(db.legs, row)
    ensures GoodRecords(db.(deposits := db.deposits[reference := row]))
  {
    hide WithdrawalsPosted, TransfersPosted, DepositPosted, RecordIds, NoRecord;
    assert DepositsPosted(db.legs, db.deposits[reference := row]);
    RecordIdsAddDeposit(db.transfers, db.withdrawals, db.deposits, db.nextId, reference, row);
  }

  lemma AddedWithdrawalPosted(legs: seq<Leg>, withdrawals: map<string, WithdrawalRow>, key: string, row: WithdrawalRow)
    requires WithdrawalsPosted(legs, withdrawals) && WithdrawalPosted(legs, key, row)
    ensures WithdrawalsPosted(legs, withdrawals[key := row])
  {
    hide WithdrawalPosted;
    var withdrawals' := withdrawals[key := row];
    forall k | k in withdrawals' ensures WithdrawalPosted(legs, k, withdrawals'[k]) {
      assert k != key ==> k in withdrawals && withdrawals'[k] == withdrawals[k];
    }
  }

  lemma AddedWithdrawal(db: Db, key: string, row: WithdrawalRow)
    requires GoodRecords(db) && key !in db.withdrawals
    requires UnusedId(db, row.id) && WithdrawalPosted(db.legs, key, row)
    requires row.account in db.accounts && row.account != SYSTEM_ACCOUNT && row.amount > 0
    ensures GoodRecords(db.(withdrawals := db.withdrawals[key := row]))
  {
    hide WithdrawalsPosted, TransfersPosted, DepositsPosted, WithdrawalPosted, RecordIds, NoRecord;
    AddedWithdrawalPosted(db.legs, db.withdrawals, key, row);
    RecordIdsAddWithdrawal(db.transfers, db.withdrawals, db.deposits, db.nextId, key, row);
  }

  lemma ReservationPosted(legs: seq<Leg>, n: nat, key: string, row: WithdrawalRow)
    requires LegsBelow(legs, n) && row.id == n && Filter(legs, ByKey(ReversalKey(key))) == []
    ensures WithdrawalPosted(
              legs + LegsFor(Posting(row.account, SYSTEM_ACCOUNT, row.amount, WithdrawalEntry, Some(n), None), n + 1),
              key, row)
  {
    var p := Posting(row.account, SYSTEM_ACCOUNT, row.amount, WithdrawalEntry, Some(n), None);
    FreshReference(legs, n, p);
    GrowFilter(legs, p, n + 1, ByKey(ReversalKey(key)));
    var own := Filter(legs + LegsFor(p, n + 1), ByReference(n));
    assert own[..2] == own;
  }

  lemma ReserveGood(db: Db, account: AccountId, amount: int, key: string)
    requires GoodDb(db) && key !in db.withdrawals && account in db.accounts && account != SYSTEM_ACCOUNT
    ensures ReserveEffect(db, account, amount, key).Some? ==> GoodDb(ReserveEffect(db, account, amount, key).value)
  {
    hide Conserved, LegsBelow, EntriesBelow, SeedsPosted, EventsTellLedger, TxnPairs, LegAccounts, UnusedId,
         TransfersPosted, DepositsPosted, RecordIds, WithdrawalPosted, WithdrawalAccounts;
    if amount > 0 {
      var p := Posting(account, SYSTEM_ACCOUNT, amount, WithdrawalEntry, Some(db.nextId), None);
      var payload := WithdrawalInitiated(db.nextId, account, amount);
      var row := WithdrawalRow(db.nextId, account, amount);
      SingleRowReports(Event(Fresh(db.nextId + 2), payload), p,
                       ActivityRow(Fresh(db.nextId + 2), account, Debit, amount, WithdrawalEntry, Some(db.nextId)));
      LedgerGrows(db, p, payload);
      RecordsUndisturbed(db, p, payload);
      ReservationPosted(db.legs, db.nextId, key, row);
      AddedWithdrawal(Append(db, p, payload), key, row);
    }
  }

  lemma DepositGood(db: Db, account: AccountId, amount: int, reference: string, accepted: bool)
    requires GoodDb(db) && reference !in db.deposits && (accepted ==> account in db.accounts)
    ensures DepositEffect(db, account, amount, reference, accepted).Some? ==>
              GoodDb(DepositEffect(db, account, amount, reference, accepted).value)
  {
    hide Conserved, LegsBelow, EntriesBelow, SeedsPosted, EventsTellLedger, TxnPairs, LegAccounts, GoodRecords,
         UnusedId;
    if amount > 0 {
      var p :=
        if accepted then Posting(SYSTEM_ACCOUNT, account, amount, DepositEntry, Some(db.nextId), None) else NoPosting;
      var payload := if accepted then DepositCompleted(db.nextId, account, amount) else DepositRejected(db.nextId);
      if accepted {
        SingleRowReports(Event(Fresh(db.nextId + 2), payload), p,
                         ActivityRow(Fresh(db.nextId + 2), account, Credit, amount, DepositEntry, Some(db.nextId)));
      }
      LedgerGrows(db, p, payload);
      RecordsUndisturbed(db, p, payload);
      FreshReference(db.legs, db.nextId, p);
      var db1 := Append(db, p, payload);
      var row := DepositRow(db.nextId, account, amount, if accepted then RecordCompleted else RecordFailed);
      AddedDeposit(db1, reference, row);
      assert DepositEffect(db, account, amount, reference, accepted).value
          == db1.(deposits := db1.deposits[reference := row]);
    }
  }

  lemma SeedGood(db: Db, account: AccountId, amount: int, key: string)
    requires GoodDb(db) && Filter(db.legs, ByKey(SeedKey(key))) == [] && account in db.accounts
    ensures SeedEffect(db, account, amount, key).Some? ==> GoodDb(SeedEffect(db, account, amount, key).value)
  {
    hide Conserved, EntriesBelow, SeedsPosted, EventsTellLedger, TxnPairs, LegAccounts, GoodRecords, UnusedId;
    if amount > 0 {
      var p := Posting(SYSTEM_ACCOUNT, account, amount, SeedEntry, None, Some(SeedKey(key)));
      var payload := SeedCompleted(account, amount);
      var txn := db.nextId + 1;
      SingleRowReports(Event(Fresh(db.nextId + 2), payload), p,
                       ActivityRow(Fresh(db.nextId + 2), account, Credit, amount, SeedEntry, None));
      GrowFilter(db.legs, p, txn, ByKey(SeedKey(key)));
      GrowFilter(db.legs, p, txn, InTxn(txn));
      FilterEmpty(db.legs, InTxn(txn));
      assert Filter(db.legs + LegsFor(p, txn), InTxn(txn)) == LegsFor(p, txn);
      LedgerGrows(db, p, payload);
      RecordsUndisturbed(db, p, payload);
    }
  }

  lemma WithdrawalReversed(legs: seq<Leg>, key: string, w: WithdrawalRow, txn: nat)
    requires WithdrawalPosted(legs, key, w) && Filter(legs, ByKey(ReversalKey(key))) == []
    ensures WithdrawalPosted(
              legs + LegsFor(Posting(SYSTEM_ACCOUNT, w.account, w.amount, ReversalEntry, Some(w.id),
                                     Some(ReversalKey(key))), txn),
              key, w)
  {
    var p := Posting(SYSTEM_ACCOUNT, w.account, w.amount, ReversalEntry, Some(w.id), Some(ReversalKey(key)));
    GrowFilter(legs, p, txn, ByReference(w.id));
    GrowFilter(legs, p, txn, ByKey(ReversalKey(key)));
    var own := Filter(legs, ByReference(w.id));
    var own' := Filter(legs + LegsFor(p, txn), ByReference(w.id));
    assert own' == own + LegsFor(p, txn);
    assert own'[..2] == own[..2] && own'[2..] == LegsFor(p, txn);
  }

  lemma WithdrawalsReversed(legs: seq<Leg>, withdrawals: map<string, WithdrawalRow>, key: string, txn: nat)
    requires WithdrawalsPosted(legs, withdrawals)
    requires key in withdrawals && Filter(legs, ByKey(ReversalKey(key))) == []
    requires forall k :: k in withdrawals && withdrawals[k].id == withdrawals[key].id ==> k == key
    ensures
      var w := withdrawals[key];
      var p := Posting(SYSTEM_ACCOUNT, w.account, w.amount, ReversalEntry, Some(w.id), Some(ReversalKey(key)));
      WithdrawalsPosted(legs + LegsFor(p, txn), withdrawals)
  {
    hide WithdrawalPosted;
    var w := withdrawals[key];
    var p := Posting(SYSTEM_ACCOUNT, w.account, w.amount, ReversalEntry, Some(w.id), Some(ReversalKey(key)));
    var legs' := legs + LegsFor(p, txn);
    forall k | k in withdrawals ensures WithdrawalPosted(legs', k, withdrawals[k]) {
      if k == key {
        WithdrawalReversed(legs, key, w, txn);
      } else {
        WithdrawalUndisturbed(legs, k, withdrawals[k], p, txn);
      }
    }
    forall k | k !in withdrawals ensures Filter(legs', ByKey(ReversalKey(k))) == [] {
      GrowFilter(legs, p, txn, ByKey(ReversalKey(k)));
    }
  }

  lemma ReverseRecords(db: Db, key: string)
    requires GoodRecords(db) && key in db.withdrawals && Filter(db.legs, ByKey(ReversalKey(key))) == []
    ensures GoodRecords(ReverseEffect(db, key).value)
  {
    hide TransfersPosted, DepositsPosted, WithdrawalsPosted;
    var w := db.withdrawals[key];
    var p := Posting(SYSTEM_ACCOUNT, w.account, w.amount, ReversalEntry, Some(w.id), Some(ReversalKey(key)));
    var txn := db.nextId + 1;
    TransfersUndisturbed(db.legs, db.transfers, p, txn);
    DepositsUndisturbed(db.legs, db.deposits, p, txn);
    WithdrawalsReversed(db.legs, db.withdrawals, key, txn);
  }

  lemma ReverseGood(db: Db, key: string)
    requires GoodDb(db) && Filter(db.legs, ByKey(ReversalKey(key))) == []
    ensures ReverseEffect(db, key).Some? ==> GoodDb(ReverseEffect(db, key).value)
  {
    hide Conserved, LegsBelow, EntriesBelow, SeedsPosted, EventsTellLedger, TxnPairs, LegAccounts, TransfersPosted,
         DepositsPosted, WithdrawalPosted, WithdrawalsPosted;
    if key in db.withdrawals {
      var w := db.withdrawals[key];
      var p := Posting(SYSTEM_ACCOUNT, w.account, w.amount, ReversalEntry, Some(w.id), Some(ReversalKey(key)));
      var payload := WithdrawalFailed(w.id, w.account, w.amount);
      SingleRowReports(Event(Fresh(db.nextId + 2), payload), p,
                       ActivityRow(Fresh(db.nextId + 2), w.account, Credit, w.amount, ReversalEntry, Some(w.id)));
      LedgerGrows(db, p, payload);
      ReverseRecords(db, key);
    }
  }
}
