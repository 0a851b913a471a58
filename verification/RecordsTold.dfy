/**
 Records and events: along every run of the postings, whatever is committed is told by an outbox event with its own
 columns, and whatever is told was committed.
 */
module RecordsTold {
  import opened Wrappers
  import opened Ledger
  import opened Events
  import opened Postings
  import opened PostingInvariants
  import opened PostingProtocol
  import opened PostingTheorems

  function Reversals(db: Db, key: string): seq<Leg> { Filter(db.legs, ByKey(ReversalKey(key))) }

  function Seeds(db: Db, key: string): seq<Leg> { Filter(db.legs, ByKey(SeedKey(key))) }

  /** What the payload says is committed. */
  ghost predicate True(db: Db, p: Payload) {
    match p
    case AccountOpened(a) => a in db.accounts
    case TransferCompleted(t, source, target, amount) =>
      exists k :: k in db.transfers && db.transfers[k] == TransferRow(t, source, target, amount, RecordCompleted)
    case TransferFailed(t) =>
      exists k :: k in db.transfers && db.transfers[k].id == t && db.transfers[k].status.RecordFailed?
    case SeedCompleted(a, amount) =>
      exists k :: Seeds(db, k) != [] && Seeds(db, k)[0].account == a && Seeds(db, k)[0].amount == amount
    case DepositCompleted(d, a, amount) =>
      exists k :: k in db.deposits && db.deposits[k] == DepositRow(d, a, amount, RecordCompleted)
    case DepositRejected(d) =>
      exists k :: k in db.deposits && db.deposits[k].id == d && db.deposits[k].status.RecordFailed?
    case WithdrawalInitiated(w, a, amount) =>
      exists k :: k in db.withdrawals && db.withdrawals[k] == WithdrawalRow(w, a, amount)
    case WithdrawalCompleted(w) => exists k :: k in db.withdrawals && db.withdrawals[k].id == w
    case WithdrawalFailed(w, a, amount) =>
      exists k :: k in db.withdrawals && db.withdrawals[k] == WithdrawalRow(w, a, amount) && Reversals(db, k) != []
    case OtherPayload => false
  }

  /** The event that a record calls for. */
  function TransferEvent(row: TransferRow): Payload {
    if row.status.RecordCompleted? then TransferCompleted(row.id, row.source, row.target, row.amount)
    else TransferFailed(row.id)
  }

  function DepositEvent(row: DepositRow): Payload {
    if row.status.RecordCompleted? then DepositCompleted(row.id, row.account, row.amount) else DepositRejected(row.id)
  }

  function ReserveEvent(row: WithdrawalRow): Payload { WithdrawalInitiated(row.id, row.account, row.amount) }

  function ReverseEvent(row: WithdrawalRow): Payload { WithdrawalFailed(row.id, row.account, row.amount) }

  ghost predicate Told(outbox: seq<Entry>, from: nat, p: Payload) {
    exists i :: from <= i < |outbox| && outbox[i].event.payload == p
  }

  ghost predicate RecordNewsTold(db0: Db, db: Db, from: nat) {
    && (forall a :: a in db.accounts && a !in db0.accounts ==> Told(db.outbox, from, AccountOpened(a)))
    && (forall k :: k in db.transfers && k !in db0.transfers ==>
          Told(db.outbox, from, TransferEvent(db.transfers[k])))
    && (forall k :: k in db.deposits && k !in db0.deposits ==> Told(db.outbox, from, DepositEvent(db.deposits[k])))
    && (forall k :: k in db.withdrawals && k !in db0.withdrawals ==>
          Told(db.outbox, from, ReserveEvent(db.withdrawals[k])))
  }

  ghost predicate LegNewsTold(db0: Db, db: Db, from: nat) {
    && (forall k :: k in db.withdrawals && Reversals(db, k) != [] && Reversals(db0, k) == [] ==>
          Told(db.outbox, from, ReverseEvent(db.withdrawals[k])))
    && (forall k :: Seeds(db, k) != [] && Seeds(db0, k) == [] ==>
          Told(db.outbox, from, SeedCompleted(Seeds(db, k)[0].account, Seeds(db, k)[0].amount)))
  }

  /** Everything in db that was not yet in db0 has its event after the first `from` rows of the outbox. */
  ghost predicate NewsTold(db0: Db, db: Db, from: nat) {
    RecordNewsTold(db0, db, from) && LegNewsTold(db0, db, from)
  }

  /** What is told from there on is true, and told once; only equal seeds, and completions of one withdrawal, may repeat
      a payload. */
  ghost predicate TellsTruth(db: Db, from: nat) {
    && (forall i :: from <= i < |db.outbox| ==> True(db, db.outbox[i].event.payload))
    && (forall i, j :: from <= i < j < |db.outbox| && db.outbox[i].event.payload == db.outbox[j].event.payload ==>
          db.outbox[i].event.payload.SeedCompleted? || db.outbox[i].event.payload.WithdrawalCompleted?)
  }

  /* ---- One commit ---- */

  function PayloadOf(db: Db, p: Proc): Payload {
    match p.req
    case OpenAccount(a) => AccountOpened(a)
    case Transfer(source, target, amount, _) =>
      if p.balance < amount then TransferFailed(db.nextId) else TransferCompleted(db.nextId, source, target, amount)
    case Withdraw(account, amount, _) => WithdrawalInitiated(db.nextId, account, amount)
    case Deposit(account, amount, supported, _) =>
      if account != SYSTEM_ACCOUNT && supported && p.view.Active? then DepositCompleted(db.nextId, account, amount)
      else DepositRejected(db.nextId)
    case Seed(account, amount, _) => SeedCompleted(account, amount)
    case Complete(key) => if key in db.withdrawals then WithdrawalCompleted(db.withdrawals[key].id) else OtherPayload
    case Reverse(key, _) =>
      if key in db.withdrawals then
        var w := db.withdrawals[key];
        WithdrawalFailed(w.id, w.account, w.amount)
      else OtherPayload
  }

  lemma CommitOutbox(db: Db, p: Proc)
    requires Effect(db, p).Some?
    ensures
      Effect(db, p).value.outbox == db.outbox + [Entry(Event(Fresh(db.nextId + 2), PayloadOf(db, p)), db.nextId + 1)]
  {
    hide LegsFor;
  }

  /** What the commit adds under ledger keys. */
  lemma CommitLedgerKeys(db: Db, p: Proc, k: LedgerKey)
    requires Effect(db, p).Some?
    ensures
      var posting := PostingOf(db, p);
      Filter(Effect(db, p).value.legs, ByKey(k))
      == Filter(db.legs, ByKey(k))
         + (if posting.Posting? && posting.key == Some(k) then [LegsFor(posting, db.nextId + 1)[1]] else [])
  {
    EffectPosts(db, p);
    GrowFilter(db.legs, PostingOf(db, p), db.nextId + 1, ByKey(k));
    hide Filter, Effect;
  }

  /** Nothing has the keys that the commit is about to take. */
  ghost predicate Unclaimed(db: Db, req: Request) {
    && KeyFree(db, req)
    && (req.Seed? ==> Seeds(db, req.key) == [])
    && (req.Reverse? ==> Reversals(db, req.key) == [])
  }

  lemma HeldIsFree(db: Db, p: Proc, r: Resource)
    requires Sound(db, p) && p.phase.Running? && p.pc <= |Program(p.req)| && Holds(p, r)
    ensures !Taken(db, r)
  {
    hide Holds, Taken, Program, Balance;
  }

  lemma AtCommit(s: State, i: nat)
    requires Inv(s) && Enabled(s, i) && Next(s, i).Commit?
    ensures
      var p := s.procs[i];
      && p.phase.Running? && p.pc < |Program(p.req)| && Program(p.req)[p.pc].Commit?
      && Sound(s.db, p) && GoodDb(s.db)
  {
    hide GoodDb, AllOwned, Solvent, Exclusive, Sound, Waits, Program;
  }

  lemma HoldsItsKeys(db: Db, p: Proc)
    requires Sound(db, p) && p.phase.Running? && p.pc < |Program(p.req)| && Program(p.req)[p.pc].Commit?
    requires KeyFree(db, p.req)
    ensures Unclaimed(db, p.req)
  {
    hide Sound, Balance, Filter, Holds, KeyFree, Program;
    AskedForKey(p);
    match p.req {
      case Seed(_, _, key) => HeldIsFree(db, p, LedgerUnique(SeedKey(key)));
      case Reverse(key, _) => HeldIsFree(db, p, LedgerUnique(ReversalKey(key)));
      case _ =>
    }
  }

  lemma CommitUnclaimed(s: State, i: nat)
    requires Inv(s) && Enabled(s, i) && Next(s, i).Commit? && Effect(s.db, s.procs[i]).Some?
    ensures Unclaimed(s.db, s.procs[i].req)
  {
    CommitKeyFree(s, i);
    AtCommit(s, i);
    hide *;
    HoldsItsKeys(s.db, s.procs[i]);
  }

  lemma CommitIsTrue(db: Db, p: Proc)
    requires Effect(db, p).Some? && Unclaimed(db, p.req)
    ensures True(Effect(db, p).value, PayloadOf(db, p))
  {
    var db' := Effect(db, p).value;
    match p.req {
      case Transfer(_, _, _, key) => assert key in db'.transfers;
      case Withdraw(_, _, key) => assert key in db'.withdrawals;
      case Deposit(_, _, _, reference) => assert reference in db'.deposits;
      case Seed(account, amount, key) =>
        CommitLedgerKeys(db, p, SeedKey(key));
        assert Seeds(db', key)[0].account == account && Seeds(db', key)[0].amount == amount;
      case Complete(key) => assert key in db'.withdrawals;
      case Reverse(key, _) =>
        CommitLedgerKeys(db, p, ReversalKey(key));
        assert key in db'.withdrawals;
      case OpenAccount(_) =>
    }
    hide LegsFor, Filter;
  }

  /** It was not true before, so nobody had told it; except that a seed may repeat an earlier one's account and amount,
      and a completion an earlier completion. */
  lemma CommitIsNews(db: Db, p: Proc)
    requires GoodDb(db) && Effect(db, p).Some? && Unclaimed(db, p.req)
    requires !p.req.Seed? && !p.req.Complete?
    ensures !True(db, PayloadOf(db, p))
  {
    hide GoodLedger, TransfersPosted, DepositsPosted, WithdrawalsPosted, WithdrawalAccounts, Append, LegsFor, Filter,
         Balance;
  }

  lemma StaysTrue(db: Db, db': Db, p: Payload)
    requires True(db, p) && Extends(db, db')
    ensures True(db', p)
  {
    match p {
      case SeedCompleted(a, amount) =>
        var k :| Seeds(db, k) != [] && Seeds(db, k)[0].account == a && Seeds(db, k)[0].amount == amount;
        KeyStays(db, db', SeedKey(k));
        assert Seeds(db', k)[0] == Seeds(db, k)[0];
      case WithdrawalFailed(w, a, amount) =>
        var k :| k in db.withdrawals && db.withdrawals[k] == WithdrawalRow(w, a, amount) && Reversals(db, k) != [];
        KeyStays(db, db', ReversalKey(k));
        assert k in db'.withdrawals;
      case TransferCompleted(t, source, target, amount) =>
        var k :| k in db.transfers && db.transfers[k] == TransferRow(t, source, target, amount, RecordCompleted);
        assert k in db'.transfers;
      case TransferFailed(t) =>
        var k :| k in db.transfers && db.transfers[k].id == t && db.transfers[k].status.RecordFailed?;
        assert k in db'.transfers;
      case DepositCompleted(d, a, amount) =>
        var k :| k in db.deposits && db.deposits[k] == DepositRow(d, a, amount, RecordCompleted);
        assert k in db'.deposits;
      case DepositRejected(d) =>
        var k :| k in db.deposits && db.deposits[k].id == d && db.deposits[k].status.RecordFailed?;
        assert k in db'.deposits;
      case WithdrawalInitiated(w, a, amount) =>
        var k :| k in db.withdrawals && db.withdrawals[k] == WithdrawalRow(w, a, amount);
        assert k in db'.withdrawals;
      case WithdrawalCompleted(w) =>
        var k :| k in db.withdrawals && db.withdrawals[k].id == w;
        assert k in db'.withdrawals;
      case AccountOpened(_) =>
    }
  }

  lemma KeyStays(db: Db, db': Db, k: LedgerKey)
    requires Extends(db, db')
    ensures Filter(db.legs, ByKey(k)) <= Filter(db'.legs, ByKey(k))
  {
    assert db'.legs == db.legs + db'.legs[|db.legs|..];
    FilterAppend(db.legs, db'.legs[|db.legs|..], ByKey(k));
  }

  /* ---- Along a run ---- */

  lemma CommitTellsTruth(db: Db, p: Proc, from: nat)
    requires TellsTruth(db, from) && from <= |db.outbox|
    requires GoodDb(db) && Effect(db, p).Some? && Unclaimed(db, p.req)
    ensures TellsTruth(Effect(db, p).value, from)
  {
    hide GoodDb, Effect, Unclaimed, Extends, True;
    var db', payload := Effect(db, p).value, PayloadOf(db, p);
    CommitOutbox(db, p);
    CommitIsTrue(db, p);
    CommitExtendsDb(db, p);
    if !p.req.Seed? && !p.req.Complete? { CommitIsNews(db, p); }
    forall i | from <= i < |db'.outbox| ensures True(db', db'.outbox[i].event.payload) {
      if i < |db.outbox| { StaysTrue(db, db', db.outbox[i].event.payload); }
    }
    RepeatedPayload(db, p);
    hide PayloadOf;
  }

  lemma RepeatedPayload(db: Db, p: Proc)
    requires Effect(db, p).Some?
    ensures p.req.Seed? || p.req.Complete? ==> PayloadOf(db, p).SeedCompleted? || PayloadOf(db, p).WithdrawalCompleted?
  {
  }

  lemma CommitExtendsDb(db: Db, p: Proc)
    requires Effect(db, p).Some? && Unclaimed(db, p.req)
    ensures Extends(db, Effect(db, p).value)
  {
    hide Effect, Extends, KeyFree;
    EffectExtends(db, p);
  }

  lemma TellMore(db: Db, p: Proc, from: nat, payload: Payload)
    requires Effect(db, p).Some? && from <= |db.outbox|
    requires Told(db.outbox, from, payload) || payload == PayloadOf(db, p)
    ensures Told(Effect(db, p).value.outbox, from, payload)
  {
    CommitOutbox(db, p);
    var outbox' := Effect(db, p).value.outbox;
    hide Effect, PayloadOf;
    if i :| from <= i < |db.outbox| && db.outbox[i].event.payload == payload {
      assert outbox'[i].event.payload == payload;
    }
    assert outbox'[|db.outbox|].event.payload == PayloadOf(db, p);
  }

  lemma NewRecords(db: Db, p: Proc)
    requires Effect(db, p).Some?
    ensures
      var db', payload := Effect(db, p).value, PayloadOf(db, p);
      && (forall a :: a in db'.accounts && a !in db.accounts ==> payload == AccountOpened(a))
      && (forall k :: k in db'.transfers ==>
            (k in db.transfers && db'.transfers[k] == db.transfers[k]) || payload == TransferEvent(db'.transfers[k]))
      && (forall k :: k in db'.deposits ==>
            (k in db.deposits && db'.deposits[k] == db.deposits[k]) || payload == DepositEvent(db'.deposits[k]))
      && (forall k :: k in db'.withdrawals ==>
            (k in db.withdrawals && db'.withdrawals[k] == db.withdrawals[k])
            || payload == ReserveEvent(db'.withdrawals[k]))
  {
    hide LegsFor;
    match p.req {
      case Transfer(_, _, _, _) =>
      case Deposit(_, _, _, _) =>
      case _ =>
    }
  }

  lemma NewKeys(db: Db, p: Proc, k: string)
    requires Effect(db, p).Some? && Unclaimed(db, p.req)
    ensures
      var db', payload := Effect(db, p).value, PayloadOf(db, p);
      && (Reversals(db', k) != Reversals(db, k) ==>
            k in db'.withdrawals && payload == ReverseEvent(db'.withdrawals[k]))
      && (Seeds(db', k) != Seeds(db, k) ==>
            && Seeds(db', k) != []
            && payload == SeedCompleted(Seeds(db', k)[0].account, Seeds(db', k)[0].amount))
  {
    CommitLedgerKeys(db, p, ReversalKey(k));
    CommitLedgerKeys(db, p, SeedKey(k));
    hide Filter;
  }

  lemma CommitTellsRecords(db0: Db, db: Db, p: Proc, from: nat)
    requires RecordNewsTold(db0, db, from) && from <= |db.outbox| && Effect(db, p).Some?
    ensures RecordNewsTold(db0, Effect(db, p).value, from)
  {
    var db' := Effect(db, p).value;
    NewRecords(db, p);
    hide Effect, Told, PayloadOf, TransferEvent, DepositEvent, ReserveEvent;
    forall payload | Told(db.outbox, from, payload) ensures Told(db'.outbox, from, payload) {
      TellMore(db, p, from, payload);
    }
    TellMore(db, p, from, PayloadOf(db, p));
  }

  lemma CommitTellsLegs(db0: Db, db: Db, p: Proc, from: nat)
    requires LegNewsTold(db0, db, from) && from <= |db.outbox|
    requires Effect(db, p).Some? && Unclaimed(db, p.req)
    requires forall k :: k !in db.withdrawals ==> Reversals(db, k) == []
    ensures LegNewsTold(db0, Effect(db, p).value, from)
  {
    var db' := Effect(db, p).value;
    CommitExtendsDb(db, p);
    hide Effect, Unclaimed, Told, Filter, PayloadOf, Reversals, Seeds, ReverseEvent;
    forall payload | Told(db.outbox, from, payload) ensures Told(db'.outbox, from, payload) {
      TellMore(db, p, from, payload);
    }
    TellMore(db, p, from, PayloadOf(db, p));
    forall k
      ensures Reversals(db', k) != Reversals(db, k) ==>
                k in db'.withdrawals && PayloadOf(db, p) == ReverseEvent(db'.withdrawals[k])
      ensures Seeds(db', k) != Seeds(db, k) ==>
                && Seeds(db', k) != []
                && PayloadOf(db, p) == SeedCompleted(Seeds(db', k)[0].account, Seeds(db', k)[0].amount)
    {
      NewKeys(db, p, k);
    }
  }

  lemma GoodReversals(db: Db)
    requires GoodDb(db)
    ensures forall k :: k !in db.withdrawals ==> Reversals(db, k) == []
  {
    hide GoodLedger, RecordIds, TransfersPosted, DepositsPosted, WithdrawalAccounts, WithdrawalPosted, Filter;
  }

  lemma TransitionTells(db0: Db, s: State, s': State, from: nat)
    requires Inv(s) && Transition(s, s') && from <= |s.db.outbox|
    requires TellsTruth(s.db, from) && NewsTold(db0, s.db, from)
    ensures TellsTruth(s'.db, from) && NewsTold(db0, s'.db, from)
  {
    hide Inv, Enabled, GoodDb, TellsTruth, RecordNewsTold, LegNewsTold, Effect, Unclaimed, Program;
    if i: nat :| Enabled(s, i) && s' == Step(s, i) {
      StepCommits(s, i);
      if s'.db != s.db {
        CommitUnclaimed(s, i);
        AtCommit(s, i);
        GoodReversals(s.db);
        hide Reversals, Step;
        CommitTellsTruth(s.db, s.procs[i], from);
        CommitTellsRecords(db0, s.db, s.procs[i], from);
        CommitTellsLegs(db0, s.db, s.procs[i], from);
      }
    }
  }

  /** Only a commit changes the database. */
  lemma StepCommits(s: State, i: nat)
    requires Enabled(s, i)
    ensures i < |s.procs|
    ensures Step(s, i).db == s.db ||
            (Next(s, i).Commit? && Effect(s.db, s.procs[i]).Some? && Step(s, i).db == Effect(s.db, s.procs[i]).value)
  {
    hide Effect, Waits, Taken, Balance, Program;
  }

  lemma OutboxGrows(db: Db, db': Db)
    requires Extends(db, db')
    ensures |db.outbox| <= |db'.outbox|
  {
  }

  lemma NothingNew(db: Db)
    ensures TellsTruth(db, |db.outbox|) && NewsTold(db, db, |db.outbox|)
  {
    hide Filter;
  }

  /** Along every run, from whatever good database it starts: each new outbox row tells what is committed, with the
      record's own id, accounts and amount, and no two tell the same; and every account, transfer, deposit, withdrawal,
      reversal and seed that is new has its event, a failed transfer and a rejected deposit included. */
  lemma {:induction false} RecordsAreTold(run: seq<State>, k: nat)
    requires Run(run) && k < |run|
    ensures |run[0].db.outbox| <= |run[k].db.outbox|
    ensures TellsTruth(run[k].db, |run[0].db.outbox|)
    ensures NewsTold(run[0].db, run[k].db, |run[0].db.outbox|)
  {
    hide Inv, Transition, Init, TellsTruth, NewsTold, Extends;
    HistoryOnlyGrows(run, 0, k);
    OutboxGrows(run[0].db, run[k].db);
    if k == 0 {
      NothingNew(run[0].db);
    } else {
      RecordsAreTold(run, k - 1);
      RunInv(run, k - 1);
      assert Transition(run[k - 1], run[k]);
      TransitionTells(run[0].db, run[k - 1], run[k], |run[0].db.outbox|);
    }
  }
}
