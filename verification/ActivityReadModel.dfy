/**
 The activity consumer and its read model `transaction_activity`: whatever is delivered, in whatever
 order and however often, the table is a function of the set of events processed, and agrees with the ledger.
 */
module ActivityReadModel {
  import opened Wrappers
  import opened Ledger
  import opened Events
  import opened Postings

  /** What a Kafka message decodes to: `parse_event` rejects an envelope or payload of the wrong shape. */
  datatype RawEvent = Malformed | WellFormed(event: Event)

  datatype ProcessError = ValidationError

  /** The constraints of the table: UNIQUE(event_id, account_id), and the foreign key to accounts. */
  ghost predicate Admits(rows: seq<ActivityRow>, accounts: set<AccountId>, added: seq<ActivityRow>) {
    && (forall i :: 0 <= i < |added| ==> added[i].account in accounts)
    && (forall i, j :: 0 <= i < j < |added| ==>
        added[i].event != added[j].event || added[i].account != added[j].account)
    && (forall i, j :: 0 <= i < |rows| && 0 <= j < |added| ==>
          rows[i].event != added[j].event || rows[i].account != added[j].account)
  }

  /** One processed event: its rows all go in, or none does. */
  ghost function Projected(rows: seq<ActivityRow>, accounts: set<AccountId>, e: Event): seq<ActivityRow> {
    if Admits(rows, accounts, RowsOf(e)) then rows + RowsOf(e) else rows
  }

  class ActivityTable {
    var rows: seq<ActivityRow>
    /** Keys of the accounts table, which the foreign key refers to. */
    var accounts: set<AccountId>

    constructor (accounts: set<AccountId>)
      ensures rows == [] && this.accounts == accounts
    {
      rows, this.accounts := [], accounts;
    }

    /** The INSERTs of one transaction; an IntegrityError leaves the table as it was. */
    method Insert(added: seq<ActivityRow>) returns (integrityError: bool)
      modifies this`rows
      ensures integrityError == !Admits(old(rows), accounts, added)
      ensures rows == if integrityError then old(rows) else old(rows) + added
    {
      var before := rows;
      for k := 0 to |added|
        invariant rows == before + added[..k]
        invariant Admits(before, accounts, added[..k])
      {
        var row := added[k];
        if row.account !in accounts || exists r :: r in rows && r.event == row.event && r.account == row.account {
          ghost var i := if row.account in accounts then IndexOf(rows, row) else 0;
          if row.account in accounts {
            assert rows[i].event == row.event && rows[i].account == row.account;
            if i < |before| { assert before[i] == rows[i]; } else { assert added[i - |before|] == rows[i]; }
          }
          rows := before;
          return true;
        }
        forall i | 0 <= i < |rows| ensures rows[i].event != row.event || rows[i].account != row.account {
          assert rows[i] in rows;
        }
        forall i, j | 0 <= i < j < |added[..k + 1]|
          ensures added[i].event != added[j].event || added[i].account != added[j].account
        {
          assert j == k ==> rows[|before| + i] == added[i];
        }
        forall i, j | 0 <= i < |before| && 0 <= j < |added[..k + 1]|
          ensures before[i].event != added[j].event || before[i].account != added[j].account
        {
          assert j == k ==> rows[i] == before[i];
        }
        rows := rows + [row];
        assert added[..k + 1] == added[..k] + [row];
      }
      assert added[..|added|] == added;
      integrityError := false;
    }

    /** `ActivityConsumer.process`: an IntegrityError, whatever its cause, is taken for a duplicate and swallowed. */
    method Process(raw: RawEvent) returns (result: Result<(), ProcessError>)
      modifies this`rows
      ensures result == if raw.Malformed? then Err(ValidationError) else Ok(())
      ensures rows == if raw.Malformed? then old(rows) else Projected(old(rows), accounts, raw.event)
    {
      if raw.Malformed? {
        return Err(ValidationError);
      }
      var id := raw.event.id;
      var added: seq<ActivityRow> := [];
      match raw.event.payload {
        case TransferCompleted(transfer, source, target, amount) =>
          added := added + [ActivityRow(id, source, Debit, amount, TransferEntry, Some(transfer))];
          added := added + [ActivityRow(id, target, Credit, amount, TransferEntry, Some(transfer))];
        case SeedCompleted(account, amount) =>
          added := added + [ActivityRow(id, account, Credit, amount, SeedEntry, None)];
        case DepositCompleted(deposit, account, amount) =>
          added := added + [ActivityRow(id, account, Credit, amount, DepositEntry, Some(deposit))];
        case WithdrawalInitiated(withdrawal, account, amount) =>
          added := added + [ActivityRow(id, account, Debit, amount, WithdrawalEntry, Some(withdrawal))];
        case WithdrawalFailed(withdrawal, account, amount) =>
          added := added + [ActivityRow(id, account, Credit, amount, ReversalEntry, Some(withdrawal))];
        case _ =>
      }
      assert added == RowsOf(raw.event);
      var integrityError := Insert(added);
      return Ok(());
    }
  }

  ghost function IndexOf(rows: seq<ActivityRow>, row: ActivityRow): (i: nat)
    requires exists r :: r in rows && r.event == row.event && r.account == row.account
    ensures i < |rows| && rows[i].event == row.event && rows[i].account == row.account
  {
    var r :| r in rows && r.event == row.event && r.account == row.account;
    var i :| 0 <= i < |rows| && rows[i] == r;
    i
  }

  /* ---- Histories of deliveries ---- */

  /** The table after a history of processed events. A delivery whose process died before its commit, or
      failed to parse, leaves no trace and so is not in the history. */
  ghost function Deliver(accounts: set<AccountId>, history: seq<Event>): seq<ActivityRow> {
    if history == [] then []
    else Projected(Deliver(accounts, history[..|history| - 1]), accounts, history[|history| - 1])
  }

  /** Events drawn from the outbox: an id determines its event, and its rows can be inserted together. */
  ghost predicate Proper(accounts: set<AccountId>, history: seq<Event>) {
    && (forall d, e :: d in history && e in history && d.id == e.id ==> d == e)
    && (forall e :: e in history ==> Insertable(e))
    && (forall e, r :: e in history && r in RowsOf(e) ==> r.account in accounts)
  }

  ghost predicate NoDuplicates(rows: seq<ActivityRow>) {
    forall i, j :: 0 <= i < j < |rows| ==> rows[i].event != rows[j].event || rows[i].account != rows[j].account
  }

  lemma RowsCarryId(e: Event, r: ActivityRow)
    requires r in RowsOf(e)
    ensures r.event == e.id
  {
  }

  /** Processing is idempotent: a first delivery inserts every row of the event, a repeated one none. */
  lemma {:induction false} TableIsFunctionOfSet(accounts: set<AccountId>, history: seq<Event>)
    requires Proper(accounts, history)
    ensures forall r :: r in Deliver(accounts, history) <==> exists e :: e in history && r in RowsOf(e)
    ensures NoDuplicates(Deliver(accounts, history))
  {
    if history != [] {
      var n := |history| - 1;
      var earlier, e := history[..n], history[n];
      assert history == earlier + [e];
      TableIsFunctionOfSet(accounts, earlier);
      var rows := Deliver(accounts, earlier);
      if e in earlier {
        RepeatChangesNothing(rows, accounts, earlier, e);
      } else {
        FirstGoesIn(rows, accounts, earlier, e);
        NoDuplicatesGrows(rows, RowsOf(e), accounts);
      }
      forall r ensures r in Deliver(accounts, history) <==> exists d :: d in history && r in RowsOf(d) {
        if r in rows {
          var d :| d in earlier && r in RowsOf(d);
          assert d in history;
        }
        if r in RowsOf(e) { assert e in history; }
        if d :| d in history && r in RowsOf(d) {
          assert d == e || d in earlier;
        }
      }
    }
  }

  lemma NoDuplicatesGrows(rows: seq<ActivityRow>, added: seq<ActivityRow>, accounts: set<AccountId>)
    requires NoDuplicates(rows) && Admits(rows, accounts, added)
    ensures NoDuplicates(rows + added)
  {
  }

  /** Whatever is delivered, proper or not: every row came from a processed event and belongs to an existing account,
      and no event has two rows on one account. */
  lemma {:induction false} ConstraintsHold(accounts: set<AccountId>, history: seq<Event>)
    ensures NoDuplicates(Deliver(accounts, history))
    ensures forall r :: r in Deliver(accounts, history) ==>
              r.account in accounts && exists e :: e in history && r in RowsOf(e) && r.event == e.id
  {
    if history != [] {
      var n := |history| - 1;
      var earlier, e := history[..n], history[n];
      assert history == earlier + [e];
      ConstraintsHold(accounts, earlier);
      var rows := Deliver(accounts, earlier);
      if Admits(rows, accounts, RowsOf(e)) { NoDuplicatesGrows(rows, RowsOf(e), accounts); }
      hide NoDuplicates;
      forall r | r in Deliver(accounts, history)
        ensures r.account in accounts && exists d :: d in history && r in RowsOf(d) && r.event == d.id
      {
        if r in rows {
          var d :| d in earlier && r in RowsOf(d) && r.event == d.id;
          assert d in history;
        } else {
          assert Admits(rows, accounts, RowsOf(e)) && r in RowsOf(e);
          RowsCarryId(e, r);
          assert e in history;
        }
      }
    }
  }

  lemma RepeatChangesNothing(rows: seq<ActivityRow>, accounts: set<AccountId>, earlier: seq<Event>, e: Event)
    requires forall r :: r in rows <==> exists d :: d in earlier && r in RowsOf(d)
    requires e in earlier
    ensures Projected(rows, accounts, e) == rows
  {
    if RowsOf(e) != [] {
      var r := RowsOf(e)[0];
      assert r in RowsOf(e);
      assert r in rows;
      var i :| 0 <= i < |rows| && rows[i] == r;
      assert rows[i].event == RowsOf(e)[0].event && rows[i].account == RowsOf(e)[0].account;
    } else {
      assert rows + [] == rows;
    }
  }

  lemma FirstGoesIn(rows: seq<ActivityRow>, accounts: set<AccountId>, earlier: seq<Event>, e: Event)
    requires Proper(accounts, earlier + [e]) && e !in earlier
    requires forall r :: r in rows <==> exists d :: d in earlier && r in RowsOf(d)
    ensures Admits(rows, accounts, RowsOf(e))
  {
    assert e in earlier + [e];
    forall i, j | 0 <= i < |rows| && 0 <= j < |RowsOf(e)| ensures rows[i].event != RowsOf(e)[j].event {
      assert rows[i] in rows;
      var d :| d in earlier && rows[i] in RowsOf(d);
      assert d in earlier + [e];
      RowsCarryId(d, rows[i]);
      RowsCarryId(e, RowsOf(e)[j]);
    }
    forall i | 0 <= i < |RowsOf(e)| ensures RowsOf(e)[i].account in accounts {
      assert RowsOf(e)[i] in RowsOf(e);
    }
  }

  /** Two histories over the same events, in any orders and with any repetitions, give the same rows. */
  lemma Convergence(accounts: set<AccountId>, one: seq<Event>, two: seq<Event>)
    requires Proper(accounts, one) && forall e :: e in one <==> e in two
    ensures multiset(Deliver(accounts, one)) == multiset(Deliver(accounts, two))
  {
    TableIsFunctionOfSet(accounts, one);
    TableIsFunctionOfSet(accounts, two);
    var left, right := Deliver(accounts, one), Deliver(accounts, two);
    forall r ensures multiset(left)[r] == multiset(right)[r] {
      assert r in left <==> r in right by {
        if e :| e in one && r in RowsOf(e) { assert e in two; }
        if e :| e in two && r in RowsOf(e) { assert e in one; }
      }
      OccursOnce(left, r);
      OccursOnce(right, r);
    }
  }

  lemma {:induction false} OccursOnce(rows: seq<ActivityRow>, r: ActivityRow)
    requires NoDuplicates(rows)
    ensures multiset(rows)[r] == if r in rows then 1 else 0
  {
    if rows != [] {
      var n := |rows| - 1;
      assert rows == rows[..n] + [rows[n]];
      OccursOnce(rows[..n], r);
      if r in rows[..n] {
        var i :| 0 <= i < n && rows[i] == r;
        assert rows[i] != rows[n];
      }
    }
  }

  /* ---- Agreement with the ledger ---- */

  ghost predicate FromEntries(entries: set<Entry>, history: seq<Event>) {
    forall e :: e in history ==> exists entry :: entry in entries && entry.event == e
  }

  /** The account's legs in transactions whose event was processed. */
  ghost function Processed(entries: set<Entry>, history: seq<Event>, a: AccountId): Leg -> bool {
    (leg: Leg) => leg.account == a && exists entry :: entry in entries && entry.txn == leg.txn && entry.event in history
  }

  /** Entries that jointly account for the ledger, repeated or not. */
  ghost predicate Accounting(legs: seq<Leg>, entries: set<Entry>, accounts: map<AccountId, bool>) {
    && (forall e :: e in entries ==> Tells(legs, e))
    && (forall leg :: leg in legs ==> exists e :: e in entries && e.txn == leg.txn)
    && OneEventPerTxn(entries)
    && (forall e, r :: e in entries && r in RowsOf(e.event) ==> r.account in accounts)
    && (forall e :: e in entries ==> Insertable(e.event))
  }

  ghost predicate OneEventPerTxn(entries: set<Entry>) {
    forall d, e :: d in entries && e in entries && (d.txn == e.txn || d.event.id == e.event.id) ==> d == e
  }

  function Entries(outbox: seq<Entry>): set<Entry> { set e | e in outbox }

  /** The outbox of the posting services accounts for the ledger. */
  lemma OutboxAccounts(legs: seq<Leg>, outbox: seq<Entry>, accounts: map<AccountId, bool>)
    requires EventsTellLedger(legs, outbox, accounts)
    ensures Accounting(legs, Entries(outbox), accounts)
  {
    hide Tells, Insertable;
    forall leg | leg in legs ensures exists e :: e in Entries(outbox) && e.txn == leg.txn {
      var e :| e in outbox && e.txn == leg.txn;
      assert e in Entries(outbox);
    }
    forall d, e | d in outbox && e in outbox && (d.txn == e.txn || d.event.id == e.event.id) ensures d == e {
      var i :| 0 <= i < |outbox| && outbox[i] == d;
      var j :| 0 <= j < |outbox| && outbox[j] == e;
    }
  }

  lemma AccountingHistoryProper(legs: seq<Leg>, entries: set<Entry>, accounts: map<AccountId, bool>,
                                history: seq<Event>)
    requires Accounting(legs, entries, accounts) && FromEntries(entries, history)
    ensures Proper(accounts.Keys, history)
  {
    hide Tells, Insertable;
    forall d, e | d in history && e in history && d.id == e.id ensures d == e {
      var x :| x in entries && x.event == d;
      var y :| y in entries && y.event == e;
    }
  }

  lemma {:induction false} FilterSplits(legs: seq<Leg>, p: Leg -> bool, q: Leg -> bool, r: Leg -> bool)
    requires forall leg :: leg in legs ==> (p(leg) <==> q(leg) || r(leg)) && !(q(leg) && r(leg))
    ensures Sum(Filter(legs, p)) == Sum(Filter(legs, q)) + Sum(Filter(legs, r))
  {
    if legs != [] {
      var n := |legs| - 1;
      var last := legs[n];
      assert legs == legs[..n] + [last];
      FilterSplits(legs[..n], p, q, r);
      if p(last) { SumAppend(Filter(legs[..n], p), [last]); }
      if q(last) { SumAppend(Filter(legs[..n], q), [last]); }
      if r(last) { SumAppend(Filter(legs[..n], r), [last]); }
    }
  }

  lemma {:induction false} FilterAgrees(legs: seq<Leg>, p: Leg -> bool, q: Leg -> bool)
    requires forall leg :: leg in legs ==> (p(leg) <==> q(leg))
    ensures Filter(legs, p) == Filter(legs, q)
  {
    if legs != [] {
      var n := |legs| - 1;
      assert legs == legs[..n] + [legs[n]];
      FilterAgrees(legs[..n], p, q);
    }
  }

  /** One more distinct event adds exactly its own transaction to what is processed. */
  lemma ProcessedGrows(legs: seq<Leg>, entries: set<Entry>, accounts: map<AccountId, bool>, earlier: seq<Event>,
                       e: Event, a: AccountId)
    requires Accounting(legs, entries, accounts) && FromEntries(entries, earlier + [e]) && e !in earlier
    requires a != SYSTEM_ACCOUNT
    ensures Sum(Filter(legs, Processed(entries, earlier + [e], a)))
            == Sum(Filter(legs, Processed(entries, earlier, a))) + Contribution(e, a)
  {
    hide Tells;
    assert e in earlier + [e];
    var entry :| entry in entries && entry.event == e;
    forall leg | leg in legs
      ensures Processed(entries, earlier + [e], a)(leg) <==>
              Processed(entries, earlier, a)(leg) || InTxnOf(entry.txn, a)(leg)
      ensures !(Processed(entries, earlier, a)(leg) && InTxnOf(entry.txn, a)(leg))
    {
      assert forall d :: d in earlier + [e] <==> d in earlier || d == e;
    }
    FilterSplits(legs, Processed(entries, earlier + [e], a), Processed(entries, earlier, a), InTxnOf(entry.txn, a));
    TellsOf(legs, entry, a);
  }

  lemma TellsOf(legs: seq<Leg>, e: Entry, a: AccountId)
    requires Tells(legs, e) && a != SYSTEM_ACCOUNT
    ensures Sum(Filter(legs, InTxnOf(e.txn, a))) == Contribution(e.event, a)
  {
    var own := Filter(legs, InTxnOf(e.txn, a));
    forall leg | leg in own ensures leg.account == a { FilterMember(legs, InTxnOf(e.txn, a), leg); }
    assert RowsOn(RowsOf(e.event), a) == RowsFor(e.event.id, own);
    hide Filter, RowsOn, RowsOf, RowsFor, RowsBalance, Sum;
    RowsOnBalance(RowsOf(e.event), a);
    RowsForBalance(e.event.id, own, a);
  }

  /** After any deliveries, an account's activity total is its balance restricted to processed transactions. */
  lemma {:induction false} ActivityMatchesLedger(
    legs: seq<Leg>, entries: set<Entry>, accounts: map<AccountId, bool>, history: seq<Event>, a: AccountId)
    requires Accounting(legs, entries, accounts) && FromEntries(entries, history) && a != SYSTEM_ACCOUNT
    ensures RowsBalance(Deliver(accounts.Keys, history), a) == Sum(Filter(legs, Processed(entries, history, a)))
  {
    hide Accounting;
    if history == [] {
      FilterEmpty(legs, Processed(entries, [], a));
    } else {
      var n := |history| - 1;
      var earlier, e := history[..n], history[n];
      assert history == earlier + [e];
      assert forall d :: d in earlier ==> d in history;
      ActivityMatchesLedger(legs, entries, accounts, earlier, a);
      AccountingHistoryProper(legs, entries, accounts, history);
      TableIsFunctionOfSet(accounts.Keys, earlier);
      var rows := Deliver(accounts.Keys, earlier);
      if e in earlier {
        RepeatChangesNothing(rows, accounts.Keys, earlier, e);
        FilterAgrees(legs, Processed(entries, history, a), Processed(entries, earlier, a));
      } else {
        FirstGoesIn(rows, accounts.Keys, earlier, e);
        RowsBalanceAppend(rows, RowsOf(e), a);
        ProcessedGrows(legs, entries, accounts, earlier, e, a);
      }
    }
  }

  /** Once every event told was processed at least once, the activity total is `get_balance`. */
  lemma ActivityIsBalance(
    legs: seq<Leg>, entries: set<Entry>, accounts: map<AccountId, bool>, history: seq<Event>, a: AccountId)
    requires Accounting(legs, entries, accounts) && FromEntries(entries, history) && a != SYSTEM_ACCOUNT
    requires forall entry :: entry in entries ==> entry.event in history
    ensures RowsBalance(Deliver(accounts.Keys, history), a) == Balance(legs, a)
  {
    hide Tells;
    ActivityMatchesLedger(legs, entries, accounts, history, a);
    FilterAgrees(legs, Processed(entries, history, a), OfAccount(a));
  }

  lemma RowsOfEntry(legs: seq<Leg>, e: Entry, r: ActivityRow)
    requires Tells(legs, e) && r.account != SYSTEM_ACCOUNT
    ensures r in RowsOf(e.event) <==> exists leg :: leg in legs && leg.txn == e.txn && r == RowFor(e.event.id, leg)
  {
    var own := Filter(legs, InTxnOf(e.txn, r.account));
    RowsOnMember(RowsOf(e.event), r.account, r);
    assert RowsOn(RowsOf(e.event), r.account) == RowsFor(e.event.id, own);
    hide Filter, RowsOn, RowsOf;
    if r in RowsOf(e.event) {
      var i :| 0 <= i < |own| && RowsFor(e.event.id, own)[i] == r;
      FilterMember(legs, InTxnOf(e.txn, r.account), own[i]);
    }
    if leg :| leg in legs && leg.txn == e.txn && r == RowFor(e.event.id, leg) {
      FilterMember(legs, InTxnOf(e.txn, r.account), leg);
      var i :| 0 <= i < |own| && own[i] == leg;
      assert RowsFor(e.event.id, own)[i] == r;
    }
  }

  /** The rows themselves: on every user account the table holds, once each, exactly the ledger's legs of the
      transactions whose event was processed, with their direction, amount, entry type and reference. */
  lemma RowsAreLegs(legs: seq<Leg>, entries: set<Entry>, accounts: map<AccountId, bool>, history: seq<Event>,
                    r: ActivityRow)
    requires Accounting(legs, entries, accounts) && FromEntries(entries, history) && r.account != SYSTEM_ACCOUNT
    ensures
      r in Deliver(accounts.Keys, history) <==>
      exists e, leg ::
        && e in entries && e.event in history && leg in legs && leg.txn == e.txn
        && r == ActivityRow(e.event.id, leg.account, leg.direction, leg.amount, leg.entry, leg.reference)
    ensures multiset(Deliver(accounts.Keys, history))[r] <= 1
  {
    AccountingHistoryProper(legs, entries, accounts, history);
    TableIsFunctionOfSet(accounts.Keys, history);
    OccursOnce(Deliver(accounts.Keys, history), r);
    hide Tells, RowsOf, Deliver, Insertable, NoDuplicates;
    if r in Deliver(accounts.Keys, history) {
      var event :| event in history && r in RowsOf(event);
      var e :| e in entries && e.event == event;
      RowsOfEntry(legs, e, r);
      var leg :| leg in legs && leg.txn == e.txn && r == RowFor(e.event.id, leg);
      assert e in entries && leg in legs;
    }
    if e, leg :|
      && e in entries && e.event in history && leg in legs && leg.txn == e.txn
      && r == ActivityRow(e.event.id, leg.account, leg.direction, leg.amount, leg.entry, leg.reference)
    {
      assert r == RowFor(e.event.id, leg);
      RowsOfEntry(legs, e, r);
    }
  }

  /** Once every event told was processed, every leg of a user account has its row. */
  lemma EveryLegHasItsRow(legs: seq<Leg>, entries: set<Entry>, accounts: map<AccountId, bool>, history: seq<Event>,
                          leg: Leg)
    requires Accounting(legs, entries, accounts) && FromEntries(entries, history)
    requires forall entry :: entry in entries ==> entry.event in history
    requires leg in legs && leg.account != SYSTEM_ACCOUNT
    ensures exists e :: e in entries && e.txn == leg.txn
                        && ActivityRow(e.event.id, leg.account, leg.direction, leg.amount, leg.entry, leg.reference)
                           in Deliver(accounts.Keys, history)
  {
    hide Tells, Insertable, Deliver;
    var e :| e in entries && e.txn == leg.txn;
    RowsAreLegs(legs, entries, accounts, history,
                ActivityRow(e.event.id, leg.account, leg.direction, leg.amount, leg.entry, leg.reference));
  }
}
