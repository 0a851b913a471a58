/**
 The committed database and the atomic effect of each committed transaction: one posting pair (or none),
 one record, and one outbox row, written together.
 */
module Postings {
  import opened Wrappers
  import opened Ledger
  import opened Events

  datatype RecordStatus = RecordPending | RecordCompleted | RecordFailed

  datatype TransferRow = TransferRow(id: nat, source: AccountId, target: AccountId, amount: int, status: RecordStatus)

  datatype DepositRow = DepositRow(id: nat, account: AccountId, amount: int, status: RecordStatus)

  /** The columns of a withdrawal that never change after the reservation; its status is the saga's concern. */
  datatype WithdrawalRow = WithdrawalRow(id: nat, account: AccountId, amount: int)

  /** An outbox row: the event, and the ledger transaction it was committed with. */
  datatype Entry = Entry(event: Event, txn: nat)

  /** Committed state. `accounts` maps an account to whether its status is 'active'; `nextId` supplies fresh UUID4s. */
  datatype Db = Db(
    accounts: map<AccountId, bool>,
    legs: seq<Leg>,
    transfers: map<string, TransferRow>,
    withdrawals: map<string, WithdrawalRow>,
    deposits: map<string, DepositRow>,
    outbox: seq<Entry>,
    nextId: nat)

  datatype Posting =
    | NoPosting
    | Posting(debit: AccountId, credit: AccountId, amount: int, entry: EntryType,
              reference: Option<nat>, key: Option<LedgerKey>)

  function LegsFor(p: Posting, txn: nat): seq<Leg> {
    match p
    case NoPosting => []
    case Posting(debit, credit, amount, entry, reference, key) =>
      Pair(txn, debit, credit, amount, entry, reference, key)
  }

  /** One commit: the legs under a fresh transaction id, and one outbox row under a fresh event id.
      `db.nextId` itself is left for the record that the transaction writes. */
  function Append(db: Db, p: Posting, payload: Payload): Db {
    db.(legs := db.legs + LegsFor(p, db.nextId + 1),
        outbox := db.outbox + [Entry(Event(Fresh(db.nextId + 2), payload), db.nextId + 1)],
        nextId := db.nextId + 3)
  }

  /* ---- The effect of each transaction at its commit; None is an aborting constraint violation. ---- */

  /** `transfer`, after the key was found free: `balance` is what was read under the sender's lock. */
  function TransferEffect(db: Db, source: AccountId, target: AccountId, amount: int, key: string, balance: int)
    : Option<Db>
  {
    if amount <= 0 || source == target then None
    else if balance < amount then
      Some(Append(db, NoPosting, TransferFailed(db.nextId))
           .(transfers := db.transfers[key := TransferRow(db.nextId, source, target, amount, RecordFailed)]))
    else
      Some(Append(db, Posting(source, target, amount, TransferEntry, Some(db.nextId), None),
                  TransferCompleted(db.nextId, source, target, amount))
           .(transfers := db.transfers[key := TransferRow(db.nextId, source, target, amount, RecordCompleted)]))
  }

  /** TX 1 of `create_withdrawal`: the reservation. */
  function ReserveEffect(db: Db, account: AccountId, amount: int, key: string): Option<Db> {
    if amount <= 0 then None
    else
      Some(Append(db, Posting(account, SYSTEM_ACCOUNT, amount, WithdrawalEntry, Some(db.nextId), None),
                  WithdrawalInitiated(db.nextId, account, amount))
           .(withdrawals := db.withdrawals[key := WithdrawalRow(db.nextId, account, amount)]))
  }

  /** The completion of a withdrawal: an event, and no leg. */
  function CompleteEffect(db: Db, key: string): Option<Db> {
    if key !in db.withdrawals then None
    else Some(Append(db, NoPosting, WithdrawalCompleted(db.withdrawals[key].id)))
  }

  /** The compensation of a withdrawal. */
  function ReverseEffect(db: Db, key: string): Option<Db>
  {
    if key !in db.withdrawals then None
    else
      var w := db.withdrawals[key];
      Some(Append(db, Posting(SYSTEM_ACCOUNT, w.account, w.amount, ReversalEntry, Some(w.id), Some(ReversalKey(key))),
                  WithdrawalFailed(w.id, w.account, w.amount)))
  }

  /** `simulate_deposit`; `accepted` is the outcome of its validation. */
  function DepositEffect(db: Db, account: AccountId, amount: int, reference: string, accepted: bool): Option<Db> {
    if amount <= 0 then None
    else if !accepted then
      Some(Append(db, NoPosting, DepositRejected(db.nextId))
           .(deposits := db.deposits[reference := DepositRow(db.nextId, account, amount, RecordFailed)]))
    else
      Some(Append(db, Posting(SYSTEM_ACCOUNT, account, amount, DepositEntry, Some(db.nextId), None),
                  DepositCompleted(db.nextId, account, amount))
           .(deposits := db.deposits[reference := DepositRow(db.nextId, account, amount, RecordCompleted)]))
  }

  function SeedEffect(db: Db, account: AccountId, amount: int, key: string): Option<Db> {
    if amount <= 0 then None
    else
      Some(Append(db, Posting(SYSTEM_ACCOUNT, account, amount, SeedEntry, None, Some(SeedKey(key))),
                  SeedCompleted(account, amount)))
  }

  /* ---- What every committed state satisfies, table by table ---- */

  /** Double entry: every transaction group sums to zero, and so does the whole ledger. */
  ghost predicate Conserved(legs: seq<Leg>) {
    && Sum(legs) == 0
    && forall t :: Sum(Filter(legs, InTxn(t))) == 0
  }

  ghost predicate Solvent(legs: seq<Leg>) {
    forall a :: a != SYSTEM_ACCOUNT ==> Balance(legs, a) >= 0
  }

  ghost predicate LegsBelow(legs: seq<Leg>, n: nat) {
    forall leg :: leg in legs ==> leg.txn < n && (leg.reference.Some? ==> leg.reference.value < n)
  }

  ghost predicate EntriesBelow(outbox: seq<Entry>, n: nat) {
    forall e :: e in outbox ==> e.txn < n && e.event.id.Fresh? && e.event.id.n < n
  }

  /** Record ids come from the supply, and no two records share one. */
  ghost predicate RecordIds(transfers: map<string, TransferRow>, withdrawals: map<string, WithdrawalRow>,
                            deposits: map<string, DepositRow>, n: nat) {
    && (forall k :: k in transfers ==> transfers[k].id < n)
    && (forall k :: k in withdrawals ==> withdrawals[k].id < n)
    && (forall k :: k in deposits ==> deposits[k].id < n)
    && (forall k, l :: k in transfers && l in transfers && transfers[k].id == transfers[l].id ==> k == l)
    && (forall k, l :: k in withdrawals && l in withdrawals && withdrawals[k].id == withdrawals[l].id ==> k == l)
    && (forall k, l :: k in deposits && l in deposits && deposits[k].id == deposits[l].id ==> k == l)
    && (forall k, l :: k in transfers && l in withdrawals ==> transfers[k].id != withdrawals[l].id)
    && (forall k, l :: k in transfers && l in deposits ==> transfers[k].id != deposits[l].id)
    && (forall k, l :: k in withdrawals && l in deposits ==> withdrawals[k].id != deposits[l].id)
  }

  /** A transfer joins two accounts; a completed one owns exactly its pair, a failed one no leg. */
  ghost predicate TransferPosted(legs: seq<Leg>, row: TransferRow) {
    var own := Filter(legs, ByReference(row.id));
    row.source != row.target &&
    match row.status
    case RecordCompleted => IsPair(own, row.source, row.target, row.amount, TransferEntry, Some(row.id), None)
    case RecordFailed => own == []
    case RecordPending => false
  }

  ghost predicate TransfersPosted(legs: seq<Leg>, transfers: map<string, TransferRow>) {
    forall k :: k in transfers ==> TransferPosted(legs, transfers[k])
  }

  ghost predicate DepositPosted(legs: seq<Leg>, row: DepositRow) {
    var own := Filter(legs, ByReference(row.id));
    match row.status
    case RecordCompleted => IsPair(own, SYSTEM_ACCOUNT, row.account, row.amount, DepositEntry, Some(row.id), None)
    case RecordFailed => own == []
    case RecordPending => false
  }

  ghost predicate DepositsPosted(legs: seq<Leg>, deposits: map<string, DepositRow>) {
    forall k :: k in deposits ==> DepositPosted(legs, deposits[k])
  }

  /** A withdrawal owns its reservation pair, and one reversal pair exactly when its reversal key is taken. */
  ghost predicate WithdrawalPosted(legs: seq<Leg>, key: string, row: WithdrawalRow) {
    var own := Filter(legs, ByReference(row.id));
    var reversal := Filter(legs, ByKey(ReversalKey(key)));
    && |own| >= 2
    && IsPair(own[..2], row.account, SYSTEM_ACCOUNT, row.amount, WithdrawalEntry, Some(row.id), None)
    && (if reversal == [] then |own| == 2
        else
          && IsPair(own[2..], SYSTEM_ACCOUNT, row.account, row.amount, ReversalEntry, Some(row.id),
                    Some(ReversalKey(key)))
          && reversal == [own[3]])
  }

  ghost predicate WithdrawalsPosted(legs: seq<Leg>, withdrawals: map<string, WithdrawalRow>) {
    && (forall k :: k in withdrawals ==> WithdrawalPosted(legs, k, withdrawals[k]))
    && (forall k :: k !in withdrawals ==> Filter(legs, ByKey(ReversalKey(k))) == [])
  }

  /** A seed key names at most one leg, and that leg closes one pair. */
  ghost predicate SeedPosted(legs: seq<Leg>, key: string) {
    var named := Filter(legs, ByKey(SeedKey(key)));
    named == [] ||
    (&& |named| == 1
     && IsPair(Filter(legs, InTxn(named[0].txn)), SYSTEM_ACCOUNT, named[0].account, named[0].amount,
               SeedEntry, None, Some(SeedKey(key))))
  }

  ghost predicate SeedsPosted(legs: seq<Leg>) {
    forall k :: SeedPosted(legs, k)
  }

  /** The legs of one transaction on one account. */
  function InTxnOf(t: nat, a: AccountId): Leg -> bool { (leg: Leg) => leg.txn == t && leg.account == a }

  /** An outbox row says, for every account but the system's, what its ledger transaction did: its rows on the account
      are the transaction's legs there, with their direction, amount, entry type and reference. */
  ghost predicate Tells(legs: seq<Leg>, e: Entry) {
    forall a :: a != SYSTEM_ACCOUNT ==>
      RowsOn(RowsOf(e.event), a) == RowsFor(e.event.id, Filter(legs, InTxnOf(e.txn, a)))
  }

  ghost predicate EventsTellLedger(legs: seq<Leg>, outbox: seq<Entry>, accounts: map<AccountId, bool>) {
    && (forall e :: e in outbox ==> Tells(legs, e))
    && (forall leg :: leg in legs ==> exists e :: e in outbox && e.txn == leg.txn)
    && (forall i, j :: 0 <= i < j < |outbox| ==>
        outbox[i].event.id != outbox[j].event.id && outbox[i].txn != outbox[j].txn)
    && (forall e, r :: e in outbox && r in RowsOf(e.event) ==> r.account in accounts)
    && (forall e :: e in outbox ==> Insertable(e.event))
  }

  /** Each transaction is one debit and one credit of one amount, for one record. */
  ghost predicate TxnPairs(legs: seq<Leg>) {
    forall leg :: leg in legs ==> TxnPaired(Filter(legs, InTxn(leg.txn)))
  }

  ghost predicate TxnPaired(own: seq<Leg>) {
    && |own| == 2 && own[0].direction.Debit? && own[1].direction.Credit?
    && own[0].amount == own[1].amount && own[0].entry == own[1].entry && own[0].reference == own[1].reference
  }

  /** `ledger_entries.account_id REFERENCES accounts(id)`. */
  ghost predicate LegAccounts(legs: seq<Leg>, accounts: map<AccountId, bool>) {
    forall leg :: leg in legs ==> leg.account in accounts
  }

  ghost predicate WithdrawalAccounts(withdrawals: map<string, WithdrawalRow>, accounts: map<AccountId, bool>) {
    forall k :: k in withdrawals ==>
      withdrawals[k].account in accounts && withdrawals[k].account != SYSTEM_ACCOUNT && withdrawals[k].amount > 0
  }

  /** Every leg was posted for a record, or under a seed key. */
  ghost predicate Owned(leg: Leg, db: Db) {
    match leg.entry
    case TransferEntry => exists k :: k in db.transfers && leg.reference == Some(db.transfers[k].id)
    case DepositEntry => exists k :: k in db.deposits && leg.reference == Some(db.deposits[k].id)
    case WithdrawalEntry => exists k :: k in db.withdrawals && leg.reference == Some(db.withdrawals[k].id)
    case ReversalEntry => exists k :: k in db.withdrawals && leg.reference == Some(db.withdrawals[k].id)
    case SeedEntry => leg.direction.Credit? ==> leg.key.Some? && leg.key.value.SeedKey?
  }

  ghost predicate AllOwned(db: Db) {
    forall leg :: leg in db.legs ==> Owned(leg, db)
  }

  /** The ledger and its outbox. */
  ghost predicate GoodLedger(legs: seq<Leg>, outbox: seq<Entry>, accounts: map<AccountId, bool>, n: nat) {
    && Conserved(legs)
    && LegsBelow(legs, n)
    && EntriesBelow(outbox, n)
    && SeedsPosted(legs)
    && EventsTellLedger(legs, outbox, accounts)
    && TxnPairs(legs)
    && LegAccounts(legs, accounts)
    && SYSTEM_ACCOUNT in accounts
  }

  /** The records and the legs they own. */
  ghost predicate GoodRecords(db: Db) {
    && RecordIds(db.transfers, db.withdrawals, db.deposits, db.nextId)
    && TransfersPosted(db.legs, db.transfers)
    && DepositsPosted(db.legs, db.deposits)
    && WithdrawalsPosted(db.legs, db.withdrawals)
    && WithdrawalAccounts(db.withdrawals, db.accounts)
  }

  ghost predicate GoodDb(db: Db) {
    GoodLedger(db.legs, db.outbox, db.accounts, db.nextId) && GoodRecords(db)
  }
}
