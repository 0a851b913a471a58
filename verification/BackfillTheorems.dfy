/**
 On a ledger of seeds and transfers whose live events are not delivered, the backfill alone rebuilds the
 read model, however often it is run and in whatever order its events arrive.
 */
module BackfillTheorems {
  import opened Wrappers
  import opened Ledger
  import opened Events
  import opened Postings
  import opened ActivityReadModel
  import opened Backfill

  /** A quiescent ledger of seeds and transfers, and the transfers table as the query returns it. */
  ghost predicate Quiescent(db: Db, rows: seq<TransferRow>) {
    && GoodDb(db) && AllOwned(db) && db.withdrawals == map[] && db.deposits == map[]
    && (forall k :: k in db.transfers ==> db.transfers[k] in rows)
    && (forall row :: row in rows ==> exists k :: k in db.transfers && db.transfers[k] == row)
  }

  /** The transaction that paid a completed transfer. */
  function PaidBy(legs: seq<Leg>, row: TransferRow): nat {
    var own := Filter(legs, ByReference(row.id));
    if own == [] then 0 else own[0].txn
  }

  function TransferEntries(legs: seq<Leg>, rows: seq<TransferRow>): set<Entry> {
    set row | row in rows && row.status.RecordCompleted? ::
      Entry(Event(BackfillId(TransferCompletedKind, row.id),
                  TransferCompleted(row.id, row.source, row.target, row.amount)),
            PaidBy(legs, row))
  }

  function SeedEntries(legs: seq<Leg>): set<Entry> {
    set leg | leg in legs && IsSeedCredit(leg) :: Entry(SeedEvent(leg), leg.txn)
  }

  function BackfillEntries(legs: seq<Leg>, rows: seq<TransferRow>): set<Entry> {
    TransferEntries(legs, rows) + SeedEntries(legs)
  }

  /* ---- The backfilled events account for the ledger ---- */

  /** A transaction's legs on one account, when the transaction is known. */
  lemma {:induction false} FilterTwice(legs: seq<Leg>, t: nat, a: AccountId)
    ensures Filter(legs, InTxnOf(t, a)) == Filter(Filter(legs, InTxn(t)), OfAccount(a))
  {
    if legs != [] {
      var n := |legs| - 1;
      FilterTwice(legs[..n], t, a);
      if InTxn(t)(legs[n]) {
        FilterAppend(Filter(legs[..n], InTxn(t)), [legs[n]], OfAccount(a));
        assert [legs[n]][..0] == [];
      }
    }
  }

  lemma PairTells(legs: seq<Leg>, e: Entry, d: Leg, c: Leg)
    requires Filter(legs, InTxn(e.txn)) == [d, c]
    requires forall a :: a != SYSTEM_ACCOUNT ==>
               RowsOn(RowsOf(e.event), a)
               == (if a == d.account then [RowFor(e.event.id, d)] else [])
                  + (if a == c.account then [RowFor(e.event.id, c)] else [])
    ensures Tells(legs, e)
  {
    hide RowsOn, RowsOf, Filter;
    forall a | a != SYSTEM_ACCOUNT
      ensures RowsOn(RowsOf(e.event), a) == RowsFor(e.event.id, Filter(legs, InTxnOf(e.txn, a)))
    {
      FilterTwice(legs, e.txn, a);
      FilterPair(d, c, OfAccount(a));
      assert Filter(legs, InTxnOf(e.txn, a))
          == if a == d.account then if a == c.account then [d, c] else [d] else if a == c.account then [c] else [];
    }
  }

  /** In a good ledger a paid transfer's transaction is exactly the pair that refers to it. */
  lemma PaidTransfer(db: Db, rows: seq<TransferRow>, row: TransferRow)
    requires Quiescent(db, rows) && row in rows && row.status.RecordCompleted?
    ensures
      var t := PaidBy(db.legs, row);
      && Filter(db.legs, InTxn(t)) == Pair(t, row.source, row.target, row.amount, TransferEntry, Some(row.id), None)
      && (forall leg :: leg in Filter(db.legs, InTxn(t)) ==> leg in db.legs)
  {
    hide GoodLedger, RecordIds, WithdrawalsPosted, DepositsPosted, AllOwned;
    var k :| k in db.transfers && db.transfers[k] == row;
    assert TransferPosted(db.legs, row);
    var own := Filter(db.legs, ByReference(row.id));
    var t := PaidBy(db.legs, row);
    FilterMember(db.legs, ByReference(row.id), own[0]);
    FilterMember(db.legs, ByReference(row.id), own[1]);
    FilterMember(db.legs, InTxn(t), own[0]);
    FilterMember(db.legs, InTxn(t), own[1]);
    TxnIsPair(db, own[0]);
    var g := Filter(db.legs, InTxn(t));
    assert g == own;
    forall leg | leg in g ensures leg in db.legs { FilterMember(db.legs, InTxn(t), leg); }
  }

  lemma TxnIsPair(db: Db, leg: Leg)
    requires GoodDb(db) && leg in db.legs
    ensures TxnPaired(Filter(db.legs, InTxn(leg.txn)))
    ensures leg in Filter(db.legs, InTxn(leg.txn))
    ensures forall l :: l in Filter(db.legs, InTxn(leg.txn)) ==>
            l.txn == leg.txn && l in db.legs && l.account in db.accounts
  {
    hide GoodRecords, EventsTellLedger, SeedsPosted, Conserved, EntriesBelow, LegsBelow;
    FilterMember(db.legs, InTxn(leg.txn), leg);
    forall l | l in Filter(db.legs, InTxn(leg.txn)) ensures l.txn == leg.txn && l in db.legs {
      FilterMember(db.legs, InTxn(leg.txn), l);
    }
  }

  lemma TransferRows(e: Event, a: AccountId)
    requires e.payload.TransferCompleted?
    ensures
      var p := e.payload;
      RowsOn(RowsOf(e), a)
      == (if a == p.source then [ActivityRow(e.id, a, Debit, p.amount, TransferEntry, Some(p.transfer))] else [])
         + (if a == p.target then [ActivityRow(e.id, a, Credit, p.amount, TransferEntry, Some(p.transfer))] else [])
    ensures e.payload.source != e.payload.target ==> Insertable(e)
    ensures forall r :: r in RowsOf(e) ==> r.account == e.payload.source || r.account == e.payload.target
  {
    RowsOnSmall(RowsOf(e)[0], RowsOf(e)[1], a);
  }

  lemma TransferEntryTells(db: Db, rows: seq<TransferRow>, e: Entry)
    requires Quiescent(db, rows) && e in TransferEntries(db.legs, rows)
    ensures Tells(db.legs, e) && Insertable(e.event)
    ensures forall r :: r in RowsOf(e.event) ==> r.account in db.accounts
    ensures exists leg ::
              && leg in db.legs && leg.txn == e.txn && leg.entry.TransferEntry?
              && leg.reference == Some(e.event.payload.transfer)
  {
    hide GoodDb, AllOwned, RowsOn, RowsOf, Filter, Insertable, Tells;
    var row :| row in rows && row.status.RecordCompleted?
      && e.event.payload == TransferCompleted(row.id, row.source, row.target, row.amount)
               && e.txn == PaidBy(db.legs, row);
    PaidTransfer(db, rows, row);
    TransferDistinct(db, rows, row);
    var g := Filter(db.legs, InTxn(e.txn));
    assert g[0] in g && g[1] in g;
    TxnIsPair(db, g[0]);
    hide Quiescent, TransferEntries, PaidBy;
    TransferRows(e.event, 0);
    forall a | a != SYSTEM_ACCOUNT
      ensures RowsOn(RowsOf(e.event), a)
              == (if a == g[0].account then [RowFor(e.event.id, g[0])] else [])
                 + (if a == g[1].account then [RowFor(e.event.id, g[1])] else [])
    {
      TransferRows(e.event, a);
    }
    PairTells(db.legs, e, g[0], g[1]);
  }

  /** A paid transfer joins two different accounts. */
  lemma TransferDistinct(db: Db, rows: seq<TransferRow>, row: TransferRow)
    requires Quiescent(db, rows) && row in rows && row.status.RecordCompleted?
    ensures row.source != row.target
  {
    hide GoodLedger, RecordIds, WithdrawalsPosted, DepositsPosted, AllOwned, WithdrawalAccounts;
    var k :| k in db.transfers && db.transfers[k] == row;
    assert TransferPosted(db.legs, row);
  }

  lemma SeedDebitsSystem(db: Db, leg: Leg)
    requires GoodDb(db) && AllOwned(db) && leg in db.legs && IsSeedCredit(leg)
    ensures
      var g := Filter(db.legs, InTxn(leg.txn));
      |g| == 2 && g[0].account == SYSTEM_ACCOUNT && g[1] == leg && leg.reference.None?
  {
    hide GoodRecords, EventsTellLedger, Conserved, EntriesBelow, LegsBelow, TxnPairs, LegAccounts;
    assert Owned(leg, db);
    var k := leg.key.value.key;
    assert SeedPosted(db.legs, k);
    FilterMember(db.legs, ByKey(SeedKey(k)), leg);
    FilterMember(db.legs, InTxn(leg.txn), leg);
  }

  lemma SeedRow(e: Event, a: AccountId)
    requires e.payload.SeedCompleted?
    ensures RowsOn(RowsOf(e), a)
            == if a == e.payload.account then [ActivityRow(e.id, a, Credit, e.payload.amount, SeedEntry, None)] else []
    ensures Insertable(e) && forall r :: r in RowsOf(e) ==> r.account == e.payload.account
  {
    RowsOnSmall(RowsOf(e)[0], RowsOf(e)[0], a);
  }

  lemma SeedEntryTells(db: Db, e: Entry)
    requires GoodDb(db) && AllOwned(db) && e in SeedEntries(db.legs)
    ensures Tells(db.legs, e) && Insertable(e.event)
    ensures forall r :: r in RowsOf(e.event) ==> r.account in db.accounts
  {
    hide GoodDb, AllOwned, RowsOn, RowsOf, Filter, Insertable, Tells;
    var leg :| leg in db.legs && IsSeedCredit(leg) && e == Entry(SeedEvent(leg), leg.txn);
    hide SeedEntries;
    TxnIsPair(db, leg);
    SeedDebitsSystem(db, leg);
    var g := Filter(db.legs, InTxn(e.txn));
    assert g == [g[0], g[1]] && leg == g[1];
    SeedRow(e.event, 0);
    forall a | a != SYSTEM_ACCOUNT
      ensures RowsOn(RowsOf(e.event), a)
              == (if a == g[0].account then [RowFor(e.event.id, g[0])] else [])
                 + (if a == g[1].account then [RowFor(e.event.id, g[1])] else [])
    {
      SeedRow(e.event, a);
    }
    PairTells(db.legs, e, g[0], g[1]);
  }

  lemma OneBackfillEventPerTxn(db: Db, rows: seq<TransferRow>)
    requires Quiescent(db, rows)
    ensures OneEventPerTxn(BackfillEntries(db.legs, rows))
  {
    hide Quiescent;
    forall d, e | d in BackfillEntries(db.legs, rows) && e in BackfillEntries(db.legs, rows)
                  && (d.txn == e.txn || d.event.id == e.event.id)
      ensures d == e
    {
      if d in TransferEntries(db.legs, rows) && e in TransferEntries(db.legs, rows) {
        TwoTransferEntries(db, rows, d, e);
      } else if d in SeedEntries(db.legs) && e in SeedEntries(db.legs) {
        TwoSeedEntries(db, rows, d, e);
      } else if d in TransferEntries(db.legs, rows) {
        MixedEntries(db, rows, d, e);
      } else {
        MixedEntries(db, rows, e, d);
      }
    }
  }

  lemma QuiescentGood(db: Db, rows: seq<TransferRow>)
    requires Quiescent(db, rows)
    ensures GoodDb(db) && AllOwned(db)
  {
    hide GoodDb, AllOwned;
  }

  lemma SameTxnSameRecord(db: Db, l: Leg, m: Leg)
    requires GoodDb(db) && l in db.legs && m in db.legs && l.txn == m.txn
    ensures l.reference == m.reference && l.entry == m.entry && (l.direction == m.direction ==> l == m)
  {
    hide GoodDb;
    TxnIsPair(db, l);
    TxnIsPair(db, m);
  }

  lemma TwoTransferEntries(db: Db, rows: seq<TransferRow>, d: Entry, e: Entry)
    requires Quiescent(db, rows) && d in TransferEntries(db.legs, rows) && e in TransferEntries(db.legs, rows)
    requires d.txn == e.txn || d.event.id == e.event.id
    ensures d == e
  {
    TransferEntryTells(db, rows, d);
    TransferEntryTells(db, rows, e);
    QuiescentGood(db, rows);
    if d.txn == e.txn {
      hide Quiescent, GoodDb, AllOwned;
      var l :| l in db.legs && l.txn == d.txn && l.reference == Some(d.event.payload.transfer);
      var m :| m in db.legs && m.txn == e.txn && m.reference == Some(e.event.payload.transfer);
      SameTxnSameRecord(db, l, m);
    }
    RowsUnique(db, rows);
  }

  lemma RowsUnique(db: Db, rows: seq<TransferRow>)
    requires Quiescent(db, rows)
    ensures forall r, q :: r in rows && q in rows && r.id == q.id ==> r == q
  {
    hide GoodLedger, TransfersPosted, WithdrawalsPosted, DepositsPosted, AllOwned, WithdrawalAccounts;
    forall r, q | r in rows && q in rows && r.id == q.id ensures r == q {
      var k :| k in db.transfers && db.transfers[k] == r;
      var l :| l in db.transfers && db.transfers[l] == q;
    }
  }

  lemma TwoSeedEntries(db: Db, rows: seq<TransferRow>, d: Entry, e: Entry)
    requires Quiescent(db, rows) && d in SeedEntries(db.legs) && e in SeedEntries(db.legs)
    requires d.txn == e.txn || d.event.id == e.event.id
    ensures d == e
  {
    QuiescentGood(db, rows);
    hide Quiescent, GoodDb, AllOwned;
    var l :| l in db.legs && IsSeedCredit(l) && d == Entry(SeedEvent(l), l.txn);
    var m :| m in db.legs && IsSeedCredit(m) && e == Entry(SeedEvent(m), m.txn);
    SameTxnSameRecord(db, l, m);
  }

  lemma MixedEntries(db: Db, rows: seq<TransferRow>, d: Entry, e: Entry)
    requires Quiescent(db, rows) && d in TransferEntries(db.legs, rows) && e in SeedEntries(db.legs)
    ensures d.txn != e.txn && d.event.id != e.event.id
  {
    TransferEntryTells(db, rows, d);
    QuiescentGood(db, rows);
    hide Quiescent, GoodDb, AllOwned;
    var l :| l in db.legs && l.txn == d.txn && l.entry.TransferEntry?;
    var m :| m in db.legs && IsSeedCredit(m) && e == Entry(SeedEvent(m), m.txn);
    if d.txn == e.txn { SameTxnSameRecord(db, l, m); }
  }

  /** Every leg was posted by a completed transfer or under a seed. */
  lemma EveryLegBackfilled(db: Db, rows: seq<TransferRow>, leg: Leg)
    requires Quiescent(db, rows) && leg in db.legs
    ensures exists e :: e in BackfillEntries(db.legs, rows) && e.txn == leg.txn
  {
    assert Owned(leg, db);
    QuiescentGood(db, rows);
    if leg.entry.SeedEntry? {
      TxnIsPair(db, leg);
      var c := Filter(db.legs, InTxn(leg.txn))[1];
      assert c in Filter(db.legs, InTxn(leg.txn));
      hide Quiescent, GoodDb, AllOwned;
      SameTxnSameRecord(db, leg, c);
      assert IsSeedCredit(c);
      assert Entry(SeedEvent(c), c.txn) in SeedEntries(db.legs);
    } else {
      assert leg.entry.TransferEntry?;
      var k :| k in db.transfers && leg.reference == Some(db.transfers[k].id);
      TransferLegBackfilled(db, rows, leg, db.transfers[k]);
    }
  }

  lemma TransferLegBackfilled(db: Db, rows: seq<TransferRow>, leg: Leg, row: TransferRow)
    requires Quiescent(db, rows) && leg in db.legs && leg.reference == Some(row.id) && row in rows
    ensures exists e :: e in BackfillEntries(db.legs, rows) && e.txn == leg.txn
  {
    hide GoodLedger, RecordIds, WithdrawalsPosted, DepositsPosted, AllOwned, WithdrawalAccounts;
    var k :| k in db.transfers && db.transfers[k] == row;
    assert TransferPosted(db.legs, row);
    FilterMember(db.legs, ByReference(row.id), leg);
    assert Entry(Event(BackfillId(TransferCompletedKind, row.id),
                       TransferCompleted(row.id, row.source, row.target, row.amount)),
                 PaidBy(db.legs, row)) in TransferEntries(db.legs, rows);
  }

  lemma BackfillAccountsForLedger(db: Db, rows: seq<TransferRow>)
    requires Quiescent(db, rows)
    ensures Accounting(db.legs, BackfillEntries(db.legs, rows), db.accounts)
  {
    QuiescentGood(db, rows);
    OneBackfillEventPerTxn(db, rows);
    hide Quiescent, GoodDb, AllOwned, Tells, Insertable, OneEventPerTxn;
    forall e | e in BackfillEntries(db.legs, rows)
      ensures Tells(db.legs, e) && Insertable(e.event)
      ensures forall r :: r in RowsOf(e.event) ==> r.account in db.accounts
    {
      if e in TransferEntries(db.legs, rows) {
        TransferEntryTells(db, rows, e);
      } else {
        SeedEntryTells(db, e);
      }
    }
    forall leg | leg in db.legs ensures exists e :: e in BackfillEntries(db.legs, rows) && e.txn == leg.txn {
      EveryLegBackfilled(db, rows, leg);
    }
  }

  /* ---- Deliveries of backfilled and live events ---- */

  /** Events without rows are invisible to the read model. */
  function Visible(history: seq<Event>): seq<Event> {
    if history == [] then []
    else
      var e := history[|history| - 1];
      Visible(history[..|history| - 1]) + (if RowsOf(e) == [] then [] else [e])
  }

  lemma {:induction false} VisibleMember(history: seq<Event>, e: Event)
    ensures e in Visible(history) <==> e in history && RowsOf(e) != []
  {
    if history != [] {
      var n := |history| - 1;
      assert history == history[..n] + [history[n]];
      VisibleMember(history[..n], e);
    }
  }

  lemma {:induction false} OnlyVisibleMatters(accounts: set<AccountId>, history: seq<Event>)
    ensures Deliver(accounts, history) == Deliver(accounts, Visible(history))
  {
    if history != [] {
      var n := |history| - 1;
      var e := history[n];
      OnlyVisibleMatters(accounts, history[..n]);
      if RowsOf(e) == [] {
        assert Visible(history) == Visible(history[..n]);
        assert Deliver(accounts, history[..n]) + [] == Deliver(accounts, history[..n]);
      } else {
        assert Visible(history)[..|Visible(history)| - 1] == Visible(history[..n]);
      }
    }
  }

  lemma EmittedMember(userAccounts: seq<AccountId>, rows: seq<TransferRow>, legs: seq<Leg>, e: Event)
    ensures e in Emitted(userAccounts, rows, legs) <==>
              || (exists a :: a in userAccounts && e == AccountEvent(a))
              || (exists row :: row in rows && e in TransferEvents(row))
              || (exists leg :: leg in legs && IsSeedCredit(leg) && e == SeedEvent(leg))
  {
    AccountEventMember(userAccounts, e);
    TransferEventMember(rows, e);
    SeedEventMember(legs, e);
  }

  /** What a run of the command publishes, and no more: an opening per user account, a completion or a failure per
      finished transfer, and a seed per credit leg of a seed, each under the id derived from its kind and entity. */
  lemma EmittedExactly(userAccounts: seq<AccountId>, rows: seq<TransferRow>, legs: seq<Leg>, e: Event)
    ensures e in Emitted(userAccounts, rows, legs) <==>
              || (exists a :: a in userAccounts && e == Event(Derived(AccountOpenedKind, a), AccountOpened(a)))
              || (exists row :: row in rows && row.status.RecordCompleted?
                                && e == Event(Derived(TransferCompletedKind, row.id),
                                              TransferCompleted(row.id, row.source, row.target, row.amount)))
              || (exists row :: row in rows && row.status.RecordFailed?
                                && e == Event(Derived(TransferFailedKind, row.id), TransferFailed(row.id)))
              || (exists leg :: leg in legs && leg.entry.SeedEntry? && leg.direction.Credit?
                                && e == Event(Derived(SeedCompletedKind, leg.txn),
                                              SeedCompleted(leg.account, leg.amount)))
  {
    EmittedMember(userAccounts, rows, legs, e);
    hide Emitted;
    if e in Emitted(userAccounts, rows, legs) {
      if row :| row in rows && e in TransferEvents(row) {
        assert row.status.RecordCompleted? || row.status.RecordFailed?;
      }
    }
    if row :| row in rows && row.status.RecordCompleted?
              && e == Event(Derived(TransferCompletedKind, row.id),
                            TransferCompleted(row.id, row.source, row.target, row.amount))
    {
      assert e in TransferEvents(row);
    }
    if row :| row in rows && row.status.RecordFailed?
              && e == Event(Derived(TransferFailedKind, row.id), TransferFailed(row.id))
    {
      assert e in TransferEvents(row);
    }
    if leg :| leg in legs && leg.entry.SeedEntry? && leg.direction.Credit?
              && e == Event(Derived(SeedCompletedKind, leg.txn), SeedCompleted(leg.account, leg.amount))
    {
      assert IsSeedCredit(leg) && e == SeedEvent(leg);
    }
  }

  /** The visible events of a run of the command are those of the completed transfers and the seeds. */
  lemma EmittedVisible(userAccounts: seq<AccountId>, db: Db, rows: seq<TransferRow>, e: Event)
    ensures e in Emitted(userAccounts, rows, db.legs) && RowsOf(e) != []
            <==> exists entry :: entry in BackfillEntries(db.legs, rows) && entry.event == e
  {
    hide Emitted, PaidBy;
    EmittedMember(userAccounts, rows, db.legs, e);
    if e in Emitted(userAccounts, rows, db.legs) && RowsOf(e) != [] {
      if row :| row in rows && e in TransferEvents(row) {
        assert Entry(e, PaidBy(db.legs, row)) in TransferEntries(db.legs, rows);
      } else {
        var leg :| leg in db.legs && IsSeedCredit(leg) && e == SeedEvent(leg);
        assert Entry(e, leg.txn) in SeedEntries(db.legs);
      }
    }
    if entry :| entry in BackfillEntries(db.legs, rows) && entry.event == e {
      if entry in TransferEntries(db.legs, rows) {
        var row :| row in rows && row.status.RecordCompleted? && e in TransferEvents(row);
      } else {
        var leg :| leg in db.legs && IsSeedCredit(leg) && e == SeedEvent(leg);
      }
    }
  }

  /** Any history made of everything the command emitted, run once or many times and delivered in any order,
      gives each user account its balance. */
  lemma BackfillRebuildsReadModel(userAccounts: seq<AccountId>, db: Db, rows: seq<TransferRow>, history: seq<Event>,
                                  a: AccountId)
    requires Quiescent(db, rows) && a != SYSTEM_ACCOUNT
    requires forall e :: e in history <==> e in Emitted(userAccounts, rows, db.legs)
    ensures RowsBalance(Deliver(db.accounts.Keys, history), a) == Balance(db.legs, a)
  {
    hide Quiescent, Emitted;
    var entries := BackfillEntries(db.legs, rows);
    BackfillAccountsForLedger(db, rows);
    OnlyVisibleMatters(db.accounts.Keys, history);
    forall e ensures e in Visible(history) <==> exists entry :: entry in entries && entry.event == e {
      VisibleMember(history, e);
      EmittedVisible(userAccounts, db, rows, e);
    }
    hide BackfillEntries, Accounting;
    ActivityIsBalance(db.legs, entries, db.accounts, Visible(history), a);
  }

  function Backfilled(history: seq<Event>): seq<Event> {
    if history == [] then []
    else
      var e := history[|history| - 1];
      Backfilled(history[..|history| - 1]) + (if e.id.Derived? then [e] else [])
  }

  function Live(history: seq<Event>): seq<Event> {
    if history == [] then []
    else
      var e := history[|history| - 1];
      Live(history[..|history| - 1]) + (if e.id.Fresh? then [e] else [])
  }

  lemma {:induction false} PartsMember(history: seq<Event>, e: Event)
    ensures e in Backfilled(history) <==> e in history && e.id.Derived?
    ensures e in Live(history) <==> e in history && e.id.Fresh?
  {
    if history != [] {
      var n := |history| - 1;
      assert history == history[..n] + [history[n]];
      PartsMember(history[..n], e);
    }
  }

  lemma DeliverOneMore(accounts: set<AccountId>, earlier: seq<Event>, e: Event, a: AccountId)
    requires Proper(accounts, earlier + [e])
    ensures RowsBalance(Deliver(accounts, earlier + [e]), a)
            == RowsBalance(Deliver(accounts, earlier), a) + (if e in earlier then 0 else Contribution(e, a))
  {
    assert (earlier + [e])[..|earlier + [e]| - 1] == earlier;
    assert forall d :: d in earlier ==> d in earlier + [e];
    TableIsFunctionOfSet(accounts, earlier);
    var rows := Deliver(accounts, earlier);
    if e in earlier {
      RepeatChangesNothing(rows, accounts, earlier, e);
    } else {
      FirstGoesIn(rows, accounts, earlier, e);
      RowsBalanceAppend(rows, RowsOf(e), a);
    }
  }

  lemma ProperPart(accounts: set<AccountId>, history: seq<Event>, part: seq<Event>)
    requires Proper(accounts, history) && forall e :: e in part ==> e in history
    ensures Proper(accounts, part)
  {
    hide Insertable;
  }

  /** Live and backfilled events never deduplicate one another: their contributions add up. */
  lemma {:induction false} OriginsAdd(accounts: set<AccountId>, history: seq<Event>, a: AccountId)
    requires Proper(accounts, history)
    ensures RowsBalance(Deliver(accounts, history), a)
            == RowsBalance(Deliver(accounts, Live(history)), a) + RowsBalance(Deliver(accounts, Backfilled(history)), a)
  {
    if history != [] {
      var n := |history| - 1;
      var earlier, e := history[..n], history[n];
      assert history == earlier + [e];
      hide Proper;
      assert forall d :: d in earlier ==> d in history;
      ProperPart(accounts, history, earlier);
      OriginsAdd(accounts, earlier, a);
      DeliverOneMore(accounts, earlier, e, a);
      PartsMember(earlier, e);
      var part := if e.id.Fresh? then Live(earlier) else Backfilled(earlier);
      forall d | d in part + [e] ensures d in history { PartsMember(earlier, d); }
      ProperPart(accounts, history, part + [e]);
      DeliverOneMore(accounts, part, e, a);
      if e.id.Fresh? {
        assert Backfilled(history) == Backfilled(earlier);
      } else {
        assert Live(history) == Live(earlier);
      }
    }
  }

  /** When the live events of such a ledger are delivered as well, every activity total doubles: the read model
      agrees with an account's balance only if that balance is zero. */
  lemma BackfillBesideLiveEventsDoubles(
    userAccounts: seq<AccountId>, db: Db, rows: seq<TransferRow>, history: seq<Event>, a: AccountId)
    requires Quiescent(db, rows) && a != SYSTEM_ACCOUNT
    requires forall e :: e in history <==>
               e in Emitted(userAccounts, rows, db.legs) || exists entry :: entry in db.outbox && entry.event == e
    ensures RowsBalance(Deliver(db.accounts.Keys, history), a) == 2 * Balance(db.legs, a)
    ensures RowsBalance(Deliver(db.accounts.Keys, history), a) == Balance(db.legs, a) <==> Balance(db.legs, a) == 0
  {
    hide Quiescent, Emitted, Deliver, RowsBalance, Balance, Proper;
    forall e
      ensures e in Live(history) <==> exists entry :: entry in db.outbox && entry.event == e
      ensures e in Backfilled(history) <==> e in Emitted(userAccounts, rows, db.legs)
    {
      PartsOfBoth(userAccounts, db, rows, history, e);
    }
    hide Live, Backfilled;
    BackfillRebuildsReadModel(userAccounts, db, rows, Backfilled(history), a);
    LiveRebuildsReadModel(db, rows, Live(history), a);
    MixedProper(userAccounts, db, rows, history);
    OriginsAdd(db.accounts.Keys, history, a);
  }

  lemma PartsOfBoth(userAccounts: seq<AccountId>, db: Db, rows: seq<TransferRow>, history: seq<Event>, e: Event)
    requires Quiescent(db, rows)
    requires e in history <==>
             e in Emitted(userAccounts, rows, db.legs) || exists entry :: entry in db.outbox && entry.event == e
    ensures e in Live(history) <==> exists entry :: entry in db.outbox && entry.event == e
    ensures e in Backfilled(history) <==> e in Emitted(userAccounts, rows, db.legs)
  {
    hide Quiescent, Emitted, Live, Backfilled;
    PartsMember(history, e);
    if e in Emitted(userAccounts, rows, db.legs) { EmittedDerived(userAccounts, db, rows, e); }
    if exists entry :: entry in db.outbox && entry.event == e { OutboxFresh(db, rows, e); }
  }

  lemma OutboxFresh(db: Db, rows: seq<TransferRow>, e: Event)
    requires Quiescent(db, rows) && exists entry :: entry in db.outbox && entry.event == e
    ensures e.id.Fresh?
  {
    QuiescentGood(db, rows);
    hide Quiescent, AllOwned, GoodRecords, LegsBelow, SeedsPosted, EventsTellLedger, TxnPairs, LegAccounts;
  }

  lemma LiveAccounts(db: Db, rows: seq<TransferRow>)
    requires Quiescent(db, rows)
    ensures Accounting(db.legs, Entries(db.outbox), db.accounts)
  {
    QuiescentGood(db, rows);
    hide Quiescent, AllOwned, GoodRecords, LegsBelow, SeedsPosted, EventsTellLedger, TxnPairs, LegAccounts, Accounting;
    OutboxAccounts(db.legs, db.outbox, db.accounts);
  }

  lemma LiveRebuildsReadModel(db: Db, rows: seq<TransferRow>, live: seq<Event>, a: AccountId)
    requires Quiescent(db, rows) && a != SYSTEM_ACCOUNT
    requires forall e :: e in live <==> exists entry :: entry in db.outbox && entry.event == e
    ensures RowsBalance(Deliver(db.accounts.Keys, live), a) == Balance(db.legs, a)
  {
    hide Quiescent, Accounting;
    LiveAccounts(db, rows);
    forall e | e in live ensures exists entry :: entry in Entries(db.outbox) && entry.event == e {
      var entry :| entry in db.outbox && entry.event == e;
      assert entry in Entries(db.outbox);
    }
    ActivityIsBalance(db.legs, Entries(db.outbox), db.accounts, live, a);
  }

  /** A derived id determines the event. */
  lemma EmittedIdDetermines(userAccounts: seq<AccountId>, db: Db, rows: seq<TransferRow>, d: Event, e: Event)
    requires Quiescent(db, rows) && d in Emitted(userAccounts, rows, db.legs)
             && e in Emitted(userAccounts, rows, db.legs)
    requires d.id == e.id
    ensures d == e
  {
    OneBackfillEventPerTxn(db, rows);
    hide Quiescent;
    EmittedKind(userAccounts, db, rows, d);
    EmittedKind(userAccounts, db, rows, e);
    if RowsOf(d) != [] {
      EmittedVisible(userAccounts, db, rows, d);
      EmittedVisible(userAccounts, db, rows, e);
    }
  }

  lemma EmittedKind(userAccounts: seq<AccountId>, db: Db, rows: seq<TransferRow>, e: Event)
    requires e in Emitted(userAccounts, rows, db.legs)
    ensures e.id.Derived?
    ensures
      match e.id.kind
      case AccountOpenedKind => e == AccountEvent(e.id.entity)
      case TransferFailedKind => e.payload == TransferFailed(e.id.entity)
      case TransferCompletedKind => e.payload.TransferCompleted?
      case SeedCompletedKind => e.payload.SeedCompleted?
  {
    AccountEventMember(userAccounts, e);
    TransferEventMember(rows, e);
    SeedEventMember(db.legs, e);
  }

  lemma MixedProper(userAccounts: seq<AccountId>, db: Db, rows: seq<TransferRow>, history: seq<Event>)
    requires Quiescent(db, rows)
    requires forall e :: e in history ==>
               e in Emitted(userAccounts, rows, db.legs) || exists entry :: entry in db.outbox && entry.event == e
    ensures Proper(db.accounts.Keys, history)
  {
    LiveAccounts(db, rows);
    BackfillAccountsForLedger(db, rows);
    hide Quiescent, Emitted, Tells, BackfillEntries;
    forall d, e | d in history && e in history && d.id == e.id ensures d == e {
      if d in Emitted(userAccounts, rows, db.legs) {
        EmittedDerived(userAccounts, db, rows, d);
        if exists entry :: entry in db.outbox && entry.event == e { OutboxFresh(db, rows, e); }
        EmittedIdDetermines(userAccounts, db, rows, d, e);
      } else {
        OutboxFresh(db, rows, d);
        if e in Emitted(userAccounts, rows, db.legs) { EmittedDerived(userAccounts, db, rows, e); }
        var x :| x in db.outbox && x.event == d;
        var y :| y in db.outbox && y.event == e;
        assert x in Entries(db.outbox) && y in Entries(db.outbox);
      }
    }
    forall e | e in history ensures Insertable(e) && forall r :: r in RowsOf(e) ==> r.account in db.accounts {
      if RowsOf(e) != [] {
        if e in Emitted(userAccounts, rows, db.legs) {
          EmittedVisible(userAccounts, db, rows, e);
        } else {
          var x :| x in db.outbox && x.event == e;
          assert x in Entries(db.outbox);
        }
      }
    }
  }

  lemma EmittedDerived(userAccounts: seq<AccountId>, db: Db, rows: seq<TransferRow>, e: Event)
    requires e in Emitted(userAccounts, rows, db.legs)
    ensures e.id.Derived?
  {
    AccountEventMember(userAccounts, e);
    TransferEventMember(rows, e);
    SeedEventMember(db.legs, e);
  }

  /** One run, or any number of forced runs delivered in any order: the same rows in the read model. */
  lemma BackfillRowsRepeat(
    userAccounts: seq<AccountId>, db: Db, rows: seq<TransferRow>, one: seq<Event>, many: seq<Event>)
    requires Quiescent(db, rows)
    requires forall e :: e in one <==> e in Emitted(userAccounts, rows, db.legs)
    requires forall e :: e in many <==> e in Emitted(userAccounts, rows, db.legs)
    ensures multiset(Deliver(db.accounts.Keys, one)) == multiset(Deliver(db.accounts.Keys, many))
  {
    hide Quiescent, Emitted, Deliver, Proper;
    MixedProper(userAccounts, db, rows, one);
    Convergence(db.accounts.Keys, one, many);
  }
}
