/**
 The pipeline end to end: concurrent postings fill the outbox, relays carry it to Kafka, the activity consumer
 processes what it is delivered.
 */
module Pipeline {
  import opened Ledger
  import opened Events
  import opened Postings
  import opened PostingProtocol
  import opened ActivityReadModel
  import Relays = Outbox
  import Consumers = RetryOffsets

  lemma OutboxTells(run: seq<State>, k: nat)
    requires Run(run) && k < |run|
    ensures
      var db := run[k].db;
      EventsTellLedger(db.legs, db.outbox, db.accounts) && Accounting(db.legs, Entries(db.outbox), db.accounts)
  {
    hide Run, GoodRecords, AllOwned, Exclusive, AllSound, Solvent, EventsTellLedger, SeedsPosted, Conserved;
    RunInv(run, k);
    OutboxAccounts(run[k].db.legs, run[k].db.outbox, run[k].db.accounts);
  }

  /** In any state of any run of the postings, after the consumer processed any of the outbox's events in any order and
      with any repetitions: each user's activity total is the balance restricted to what was processed, and no other
      sequence of deliveries of the same events gives another table. */
  lemma ReadModelConverges(run: seq<State>, k: nat, one: seq<Event>, two: seq<Event>, a: AccountId)
    requires Run(run) && k < |run| && a != SYSTEM_ACCOUNT
    requires FromEntries(Entries(run[k].db.outbox), one) && forall e :: e in one <==> e in two
    ensures
      var db := run[k].db;
      && multiset(Deliver(db.accounts.Keys, one)) == multiset(Deliver(db.accounts.Keys, two))
      && RowsBalance(Deliver(db.accounts.Keys, one), a)
         == Sum(Filter(db.legs, Processed(Entries(db.outbox), one, a)))
  {
    var db := run[k].db;
    OutboxTells(run, k);
    hide Run, Accounting, EventsTellLedger;
    AccountingHistoryProper(db.legs, Entries(db.outbox), db.accounts, one);
    Convergence(db.accounts.Keys, one, two);
    ActivityMatchesLedger(db.legs, Entries(db.outbox), db.accounts, one, a);
  }

  /** The same of the rows: in any state of any run, what the table holds on user accounts is exactly the legs of the
      ledger whose transaction's event was processed, under that event's id, with their own columns. */
  lemma RowsAreTheLedgers(run: seq<State>, k: nat, history: seq<Event>, r: ActivityRow)
    requires Run(run) && k < |run| && r.account != SYSTEM_ACCOUNT
    requires FromEntries(Entries(run[k].db.outbox), history)
    ensures
      var db := run[k].db;
      r in Deliver(db.accounts.Keys, history) <==>
      exists e, leg ::
        && e in db.outbox && e.event in history && leg in db.legs && leg.txn == e.txn
        && r == ActivityRow(e.event.id, leg.account, leg.direction, leg.amount, leg.entry, leg.reference)
  {
    var db := run[k].db;
    OutboxTells(run, k);
    hide Run, Accounting, EventsTellLedger, Deliver;
    RowsAreLegs(db.legs, Entries(db.outbox), db.accounts, history, r);
    assert forall e :: e in Entries(db.outbox) <==> e in db.outbox;
  }

  /** The relays' rows are the outbox of the postings, and none is left to send. */
  ghost predicate Ended(outbox: seq<Entry>, relays: Relays.State) {
    && (forall i: nat :: i in relays.failures <==> i < |outbox|)
    && (forall i :: i in relays.table ==> relays.table[i].status.Published? || relays.table[i].status.Failed?)
  }

  ghost predicate NoneGivenUp(relays: Relays.State) {
    forall i :: i in relays.failures ==> relays.failures[i] < 10
  }

  /** The topic of the consumer groups has copies of exactly the rows that the relays delivered. */
  ghost predicate Fed(log: seq<nat>, consumers: Consumers.State) {
    forall i: nat :: i in log <==> Consumers.CopyFrom(consumers.topic, 0, i)
  }

  /** The group has committed past every copy of every message, and began early enough to see each. */
  ghost predicate Finished(consumers: Consumers.State, g: nat) {
    && g < |consumers.groups|
    && forall i: nat :: Consumers.CopyFrom(consumers.topic, 0, i) ==>
         Consumers.PastAll(consumers, g, i) && Consumers.CopyFrom(consumers.topic, consumers.groups[g].base, i)
  }

  /** The history of the read model is what the group processed, in whatever order and however often. */
  ghost predicate ProcessedBy(outbox: seq<Entry>, processed: set<nat>, history: seq<Event>) {
    forall e :: e in history <==> exists i :: i in processed && i < |outbox| && outbox[i].event == e
  }

  /** The account's legs in transactions whose event was not processed. */
  ghost function Unprocessed(entries: set<Entry>, history: seq<Event>, a: AccountId): Leg -> bool {
    (leg: Leg) => leg.account == a && !Processed(entries, history, a)(leg)
  }

  lemma ProcessedEvents(outbox: seq<Entry>, processed: set<nat>, history: seq<Event>)
    requires ProcessedBy(outbox, processed, history)
    ensures FromEntries(Entries(outbox), history)
  {
    forall e | e in history ensures exists entry :: entry in Entries(outbox) && entry.event == e {
      var i :| i in processed && i < |outbox| && outbox[i].event == e;
      assert outbox[i] in Entries(outbox);
    }
  }

  /** In any state of the three machines, whatever was lost or is still on its way: a user's activity total falls short
      of the balance by exactly the transactions whose event the group has not processed. */
  lemma ShortByUnprocessed(run: seq<State>, k: nat, processed: set<nat>, history: seq<Event>, a: AccountId)
    requires Run(run) && k < |run| && a != SYSTEM_ACCOUNT
    requires ProcessedBy(run[k].db.outbox, processed, history)
    ensures
      var db := run[k].db;
      RowsBalance(Deliver(db.accounts.Keys, history), a)
      == Balance(db.legs, a) - Sum(Filter(db.legs, Unprocessed(Entries(db.outbox), history, a)))
  {
    var db, entries := run[k].db, Entries(run[k].db.outbox);
    OutboxTells(run, k);
    ProcessedEvents(db.outbox, processed, history);
    hide Run, Accounting, EventsTellLedger, Deliver, RowsBalance;
    ActivityMatchesLedger(db.legs, entries, db.accounts, history, a);
    FilterSplits(db.legs, OfAccount(a), Processed(entries, history, a), Unprocessed(entries, history, a));
  }

  /** A group that has finished handled exactly what the relays delivered. */
  lemma HandledExactly(groups: nat, actions: seq<Consumers.Action>, g: nat, log: seq<nat>, i: nat)
    requires
      var consumers := Consumers.Steps(Consumers.Initial(groups), actions);
      Finished(consumers, g) && Fed(log, consumers)
    ensures Consumers.Handled(Consumers.Steps(Consumers.Initial(groups), actions).groups[g], i) <==> i in log
  {
    var consumers := Consumers.Steps(Consumers.Initial(groups), actions);
    if Consumers.CopyFrom(consumers.topic, 0, i) {
      Consumers.FinishedMeansHandled(groups, actions, g, i);
    }
    if Consumers.Handled(consumers.groups[g], i) {
      Consumers.HandledIsPublished(groups, actions, g, i);
    }
  }

  /** Once the relays have nothing left to send and the group has finished with the topic, an event that the group has
      not processed was given up after ten failed sends, or lies in the group's dead-letter topic. */
  lemma UnprocessedWasGivenUp(
    outbox: seq<Entry>, relayCount: nat, sends: seq<Relays.Action>,
    groups: nat, deliveries: seq<Consumers.Action>, g: nat, history: seq<Event>, i: nat)
    requires Ended(outbox, Relays.Steps(Relays.Initial(relayCount), sends))
    requires
      var consumers := Consumers.Steps(Consumers.Initial(groups), deliveries);
      && Fed(Relays.Steps(Relays.Initial(relayCount), sends).log, consumers)
      && Finished(consumers, g)
      && ProcessedBy(outbox, consumers.groups[g].processed, history)
    requires i < |outbox| && outbox[i].event !in history
    ensures
      var relays := Relays.Steps(Relays.Initial(relayCount), sends);
      || (i in relays.failures && relays.failures[i] >= 10)
      || i in Consumers.Steps(Consumers.Initial(groups), deliveries).groups[g].deadLetters
  {
    Relays.OutboxLosesNothing(relayCount, sends, i);
    HandledExactly(groups, deliveries, g, Relays.Steps(Relays.Initial(relayCount), sends).log, i);
  }

  /** Once relays, crashed and stale as they may have been, have nothing left to send and gave nothing up, and the
      activity group, crashed and restarted as it may have been, has finished with the topic and dead-lettered nothing,
      every user's activity total is `get_balance`, and is not negative. */
  lemma EndToEnd(run: seq<State>, k: nat, relayCount: nat, sends: seq<Relays.Action>,
                 groups: nat, deliveries: seq<Consumers.Action>, g: nat, history: seq<Event>, a: AccountId)
    requires Run(run) && k < |run| && a != SYSTEM_ACCOUNT
    requires
      var relays := Relays.Steps(Relays.Initial(relayCount), sends);
      Ended(run[k].db.outbox, relays) && NoneGivenUp(relays)
    requires
      var consumers := Consumers.Steps(Consumers.Initial(groups), deliveries);
      && Fed(Relays.Steps(Relays.Initial(relayCount), sends).log, consumers)
      && Finished(consumers, g) && consumers.groups[g].deadLetters == {}
      && ProcessedBy(run[k].db.outbox, consumers.groups[g].processed, history)
    ensures
      var db := run[k].db;
      RowsBalance(Deliver(db.accounts.Keys, history), a) == Balance(db.legs, a) >= 0
    ensures
      var db := run[k].db;
      forall leg :: leg in db.legs && leg.account == a ==>
        exists e :: e in Entries(db.outbox) && e.txn == leg.txn
                    && ActivityRow(e.event.id, a, leg.direction, leg.amount, leg.entry, leg.reference)
                       in Deliver(db.accounts.Keys, history)
  {
    var db := run[k].db;
    OutboxTells(run, k);
    NoOverdraft(run, k, a);
    var consumers := Consumers.Steps(Consumers.Initial(groups), deliveries);
    ProcessedEvents(db.outbox, consumers.groups[g].processed, history);
    hide Run, Accounting, EventsTellLedger, Deliver, RowsBalance, Balance, Fed, Finished, ProcessedBy, Ended,
         FromEntries,
         Consumers.Steps, Relays.Steps;
    forall entry | entry in Entries(db.outbox) ensures entry.event in history {
      var i: nat :| i < |db.outbox| && db.outbox[i] == entry;
      if entry.event !in history {
        UnprocessedWasGivenUp(db.outbox, relayCount, sends, groups, deliveries, g, history, i);
        assert false;
      }
    }
    ActivityIsBalance(db.legs, Entries(db.outbox), db.accounts, history, a);
    forall leg | leg in db.legs && leg.account == a
      ensures exists e :: e in Entries(db.outbox) && e.txn == leg.txn
                          && ActivityRow(e.event.id, a, leg.direction, leg.amount, leg.entry, leg.reference)
                             in Deliver(db.accounts.Keys, history)
    {
      EveryLegHasItsRow(db.legs, Entries(db.outbox), db.accounts, history, leg);
    }
  }

  lemma NoOverdraft(run: seq<State>, k: nat, a: AccountId)
    requires Run(run) && k < |run| && a != SYSTEM_ACCOUNT
    ensures Balance(run[k].db.legs, a) >= 0
  {
    hide Run, GoodDb, AllOwned, Exclusive, AllSound;
    RunInv(run, k);
  }
}
