/**
 Any number of posting transactions running concurrently under READ COMMITTED, interleaved at every row
 lock, unique-key insertion, balance read and commit. A request that was answered from Redis starts no
 transaction, so every pattern of cache hits and cache losses is a choice of which transactions run.
 */
module PostingProtocol {
  import opened Wrappers
  import opened Ledger
  import opened Events
  import opened Postings
  import opened PostingInvariants

  /** What a transaction holds until it ends: row locks, and unique-index entries not yet committed. */
  datatype Resource =
    | DepositRef(reference: string)
    | AccountRow(account: AccountId)
    | TransferKey(key: string)
    | WithdrawalKey(key: string)
    | LedgerUnique(unique: LedgerKey)
    | WithdrawalLock(key: string)

  datatype Request =
    | OpenAccount(account: AccountId)
    | Transfer(source: AccountId, target: AccountId, amount: int, key: string)
    | Withdraw(account: AccountId, amount: int, key: string)
    | Deposit(account: AccountId, amount: int, supported: bool, reference: string)
    | Seed(account: AccountId, amount: int, key: string)
    | Complete(key: string)
    | Reverse(key: string, rowFirst: bool)

  datatype Instr =
    | Acquire(r: Resource)
    | FindAccount(a: AccountId)
    | ReadBalance(a: AccountId)
    | Commit
    | Refuse

  /** The database operations of each service function, in the order they reach the database. Recovery locks the
      withdrawal's row before it inserts the reversal; the handler's flush writes both in one go, in either order. */
  function Program(req: Request): seq<Instr> {
    match req
    case OpenAccount(_) => [Commit]
    case Transfer(source, target, _, key) =>
      var first := if source <= target then source else target;
      var second := if source <= target then target else source;
      [Acquire(AccountRow(first)), Acquire(AccountRow(second)), ReadBalance(source), Acquire(TransferKey(key)), Commit]
    case Withdraw(account, _, key) =>
      if account == SYSTEM_ACCOUNT then [Refuse]
      else [Acquire(AccountRow(account)), ReadBalance(account), Acquire(WithdrawalKey(key)), Commit]
    case Deposit(account, _, supported, reference) =>
      if account == SYSTEM_ACCOUNT || !supported then [Acquire(DepositRef(reference)), Commit]
      else [Acquire(DepositRef(reference)), Acquire(AccountRow(account)), Commit]
    case Seed(account, _, key) => [FindAccount(account), Acquire(LedgerUnique(SeedKey(key))), Commit]
    case Complete(key) => [Acquire(WithdrawalLock(key)), Commit]
    case Reverse(key, rowFirst) =>
      if rowFirst then [Acquire(WithdrawalLock(key)), Acquire(LedgerUnique(ReversalKey(key))), Commit]
      else [Acquire(LedgerUnique(ReversalKey(key))), Acquire(WithdrawalLock(key)), Commit]
  }

  datatype Phase = Running | Committed | Aborted

  /** What the last account row lookup showed. */
  datatype AccountView = Missing | Inactive | Active

  datatype Proc = Proc(req: Request, pc: nat, view: AccountView, balance: int, phase: Phase)

  datatype State = State(db: Db, procs: seq<Proc>)

  function Done(p: Proc): seq<Instr>
    requires p.pc <= |Program(p.req)|
  {
    Program(p.req)[..p.pc]
  }

  ghost predicate Holds(p: Proc, r: Resource) {
    && p.phase.Running? && p.pc <= |Program(p.req)|
    && Acquire(r) in Done(p)
    && (r.AccountRow? ==> !p.view.Missing?)
  }

  /** The unique index already has the value in a committed row. */
  ghost predicate Taken(db: Db, r: Resource) {
    match r
    case DepositRef(reference) => reference in db.deposits
    case AccountRow(_) => false
    case TransferKey(key) => key in db.transfers
    case WithdrawalKey(key) => key in db.withdrawals
    case LedgerUnique(k) => Filter(db.legs, ByKey(k)) != []
    case WithdrawalLock(_) => false
  }

  ghost predicate Unfinished(s: State, i: nat) {
    i < |s.procs| && s.procs[i].phase.Running? && s.procs[i].pc < |Program(s.procs[i].req)|
  }

  function Next(s: State, i: nat): Instr
    requires i < |s.procs| && s.procs[i].pc < |Program(s.procs[i].req)|
  {
    Program(s.procs[i].req)[s.procs[i].pc]
  }

  /** Process i waits for j: j holds what i wants next. */
  ghost predicate Waits(s: State, i: nat, j: nat) {
    && Unfinished(s, i) && j < |s.procs| && i != j
    && Next(s, i).Acquire? && Holds(s.procs[j], Next(s, i).r)
  }

  ghost predicate Enabled(s: State, i: nat) {
    Unfinished(s, i) && forall j :: !Waits(s, i, j)
  }

  /** The commit of a process that reached it. */
  function Effect(db: Db, p: Proc): Option<Db> {
    match p.req
    case OpenAccount(a) =>
      if a in db.accounts then None
      else Some(Append(db, NoPosting, AccountOpened(a)).(accounts := db.accounts[a := true]))
    case Transfer(source, target, amount, key) => TransferEffect(db, source, target, amount, key, p.balance)
    case Withdraw(account, amount, key) => ReserveEffect(db, account, amount, key)
    case Deposit(account, amount, supported, reference) =>
      DepositEffect(db, account, amount, reference, account != SYSTEM_ACCOUNT && supported && p.view.Active?)
    case Seed(account, amount, key) => SeedEffect(db, account, amount, key)
    case Complete(key) => CompleteEffect(db, key)
    case Reverse(key, _) => ReverseEffect(db, key)
  }

  /** One database operation of process p. */
  ghost function Exec(db: Db, p: Proc): (Db, Proc)
    requires p.pc < |Program(p.req)|
  {
    var on := p.(pc := p.pc + 1);
    var off := p.(phase := Aborted);
    match Program(p.req)[p.pc]
    case Acquire(r) =>
      if Taken(db, r) then (db, off)
      else if !r.AccountRow? then (db, on)
      else if r.account in db.accounts then (db, on.(view := if db.accounts[r.account] then Active else Inactive))
      else if p.req.Deposit? then (db, on.(view := Missing))
      else (db, off)
    case FindAccount(a) => (db, if a in db.accounts then on else off)
    case ReadBalance(a) =>
      var balance := Balance(db.legs, a);
      (db, if p.req.Withdraw? && balance < p.req.amount then off else on.(balance := balance))
    case Commit =>
      (match Effect(db, p)
       case Some(db') => (db', on.(phase := Committed))
       case None => (db, off))
    case Refuse => (db, off)
  }

  ghost function Step(s: State, i: nat): State
    requires Enabled(s, i)
  {
    var (db, p) := Exec(s.db, s.procs[i]);
    State(db, s.procs[i := p])
  }

  /** A process dies; its transaction rolls back. */
  function Crash(s: State, i: nat): State
    requires i < |s.procs|
  {
    s.(procs := s.procs[i := s.procs[i].(phase := Aborted)])
  }

  ghost predicate Transition(s: State, s': State) {
    || (exists i :: Enabled(s, i) && s' == Step(s, i))
    || (exists i :: Unfinished(s, i) && s' == Crash(s, i))
  }

  ghost predicate Init(s: State) {
    && GoodDb(s.db) && AllOwned(s.db) && Solvent(s.db.legs)
    && forall i :: 0 <= i < |s.procs| ==>
         s.procs[i].pc == 0 && s.procs[i].phase.Running? && s.procs[i].view.Missing?
  }

  /** A run is a sequence of states, each following from the one before. */
  ghost predicate Run(run: seq<State>) {
    && |run| > 0 && Init(run[0])
    && forall k :: 0 <= k < |run| - 1 ==> Transition(run[k], run[k + 1])
  }

  /* ---- The invariant ---- */

  ghost predicate PcsInRange(s: State) {
    forall i :: 0 <= i < |s.procs| && s.procs[i].phase.Running? ==> s.procs[i].pc < |Program(s.procs[i].req)|
  }

  ghost predicate Exclusive(s: State) {
    forall i, j, r :: 0 <= i < j < |s.procs| && Holds(s.procs[i], r) ==> !Holds(s.procs[j], r)
  }

  /** What process p knows and still may rely on. */
  ghost predicate Sound(db: Db, p: Proc) {
    p.phase.Running? && p.pc <= |Program(p.req)| ==>
      && (forall r :: Holds(p, r) ==> !Taken(db, r))
      && (forall a :: Holds(p, AccountRow(a)) ==> a in db.accounts)
      && (forall a :: Acquire(AccountRow(a)) in Done(p) && !p.req.Deposit? ==> !p.view.Missing?)
      && (forall a :: FindAccount(a) in Done(p) ==> a in db.accounts)
      && (forall a :: ReadBalance(a) in Done(p) && a != SYSTEM_ACCOUNT ==> p.balance <= Balance(db.legs, a))
      && (forall a :: ReadBalance(a) in Done(p) && p.req.Withdraw? ==> p.req.amount <= p.balance)
  }

  ghost predicate AllSound(s: State) {
    forall i :: 0 <= i < |s.procs| ==> Sound(s.db, s.procs[i])
  }

  ghost predicate Inv(s: State) {
    PcsInRange(s) && Exclusive(s) && AllSound(s) && GoodDb(s.db) && AllOwned(s.db) && Solvent(s.db.legs)
  }

  /* ---- What a commit posts ---- */

  function PostingOf(db: Db, p: Proc): Posting {
    match p.req
    case OpenAccount(_) => NoPosting
    case Transfer(source, target, amount, _) =>
      if p.balance < amount then NoPosting
      else Posting(source, target, amount, TransferEntry, Some(db.nextId), None)
    case Withdraw(account, amount, _) =>
      Posting(account, SYSTEM_ACCOUNT, amount, WithdrawalEntry, Some(db.nextId), None)
    case Deposit(account, amount, supported, _) =>
      if account != SYSTEM_ACCOUNT && supported && p.view.Active? then
        Posting(SYSTEM_ACCOUNT, account, amount, DepositEntry, Some(db.nextId), None)
      else NoPosting
    case Seed(account, amount, key) => Posting(SYSTEM_ACCOUNT, account, amount, SeedEntry, None, Some(SeedKey(key)))
    case Complete(_) => NoPosting
    case Reverse(key, _) =>
      if key in db.withdrawals then
        var w := db.withdrawals[key];
        Posting(SYSTEM_ACCOUNT, w.account, w.amount, ReversalEntry, Some(w.id), Some(ReversalKey(key)))
      else NoPosting
  }

  lemma EffectPosts(db: Db, p: Proc)
    requires Effect(db, p).Some?
    ensures Effect(db, p).value.legs == db.legs + LegsFor(PostingOf(db, p), db.nextId + 1)
  {
  }

  /** A process at its commit has acquired everything it needs, so its effect keeps the database good. */
  lemma CommitGood(s: State, i: nat)
    requires Inv(s) && Enabled(s, i) && Next(s, i).Commit? && Effect(s.db, s.procs[i]).Some?
    ensures GoodDb(Effect(s.db, s.procs[i]).value)
  {
    hide GoodLedger, AllOwned, GoodRecords, Exclusive, Solvent, TransferEffect, ReserveEffect, DepositEffect,
         SeedEffect, ReverseEffect;
    var p, db := s.procs[i], s.db;
    assert Sound(db, p);
    match p.req {
      case OpenAccount(a) => OpenGood(db, a);
      case Transfer(source, target, amount, key) =>
        assert Holds(p, TransferKey(key)) && Holds(p, AccountRow(source)) && Holds(p, AccountRow(target)) by {
          assert Done(p)[0] == Program(p.req)[0] && Done(p)[1] == Program(p.req)[1] && Done(p)[3] == Program(p.req)[3];
        }
        assert !Taken(db, TransferKey(key));
        TransferGood(db, source, target, amount, key, p.balance);
      case Withdraw(account, amount, key) =>
        assert Holds(p, WithdrawalKey(key)) && Holds(p, AccountRow(account)) by {
          assert Done(p)[0] == Program(p.req)[0] && Done(p)[2] == Program(p.req)[2];
        }
        assert !Taken(db, WithdrawalKey(key));
        ReserveGood(db, account, amount, key);
      case Deposit(account, amount, supported, reference) =>
        assert Holds(p, DepositRef(reference)) by { assert Done(p)[0] == Program(p.req)[0]; }
        assert !Taken(db, DepositRef(reference));
        if account != SYSTEM_ACCOUNT && supported && p.view.Active? {
          assert Holds(p, AccountRow(account)) by { assert Done(p)[1] == Program(p.req)[1]; }
        }
        DepositGood(db, account, amount, reference, account != SYSTEM_ACCOUNT && supported && p.view.Active?);
      case Seed(account, amount, key) =>
        assert Done(p)[0] == FindAccount(account);
        assert Holds(p, LedgerUnique(SeedKey(key))) by { assert Done(p)[1] == Program(p.req)[1]; }
        assert !Taken(db, LedgerUnique(SeedKey(key)));
        SeedGood(db, account, amount, key);
      case Complete(key) => CompleteGood(db, key);
      case Reverse(key, rowFirst) =>
        assert Holds(p, LedgerUnique(ReversalKey(key))) by {
          assert Done(p)[0] == Program(p.req)[0] && Done(p)[1] == Program(p.req)[1];
        }
        assert !Taken(db, LedgerUnique(ReversalKey(key)));
        ReverseGood(db, key);
    }
  }

  /** One more event without a posting, about a withdrawal. */
  lemma CompleteGood(db: Db, key: string)
    requires GoodDb(db) && key in db.withdrawals
    ensures GoodDb(CompleteEffect(db, key).value)
  {
    hide Conserved, LegsBelow, EntriesBelow, SeedsPosted, GoodRecords, Tells, TxnPairs, Insertable;
    var payload := WithdrawalCompleted(db.withdrawals[key].id);
    assert Insertable(Event(Fresh(db.nextId + 2), payload)) by {
      NoRowsInsertable(Event(Fresh(db.nextId + 2), payload));
    }
    LedgerGrows(db, NoPosting, payload);
    RecordsUndisturbed(db, NoPosting, payload);
  }

  lemma OpenGood(db: Db, a: AccountId)
    requires GoodDb(db) && a !in db.accounts
    ensures GoodDb(Append(db, NoPosting, AccountOpened(a)).(accounts := db.accounts[a := true]))
  {
    hide Conserved, LegsBelow, EntriesBelow, SeedsPosted, GoodRecords, Tells, TxnPairs, Insertable;
    assert Insertable(Event(Fresh(db.nextId + 2), AccountOpened(a))) by {
      NoRowsInsertable(Event(Fresh(db.nextId + 2), AccountOpened(a)));
    }
    LedgerGrows(db, NoPosting, AccountOpened(a));
    RecordsUndisturbed(db, NoPosting, AccountOpened(a));
    OpenRecords(Append(db, NoPosting, AccountOpened(a)), a);
  }

  lemma NoRowsInsertable(e: Event)
    requires RowsOf(e) == []
    ensures Insertable(e)
  {
  }

  lemma OpenRecords(db: Db, a: AccountId)
    requires GoodRecords(db)
    ensures GoodRecords(db.(accounts := db.accounts[a := true]))
  {
    hide RecordIds, TransfersPosted, DepositsPosted, WithdrawalsPosted;
  }

  /** Records are never changed or removed, and the ledger and the outbox only grow. */
  ghost predicate Extends(db: Db, db': Db) {
    && db.legs <= db'.legs && db.outbox <= db'.outbox
    && (forall a :: a in db.accounts ==> a in db'.accounts && db'.accounts[a] == db.accounts[a])
    && (forall k :: k in db.transfers ==> k in db'.transfers && db'.transfers[k] == db.transfers[k])
    && (forall k :: k in db.withdrawals ==> k in db'.withdrawals && db'.withdrawals[k] == db.withdrawals[k])
    && (forall k :: k in db.deposits ==> k in db'.deposits && db'.deposits[k] == db.deposits[k])
  }

  ghost predicate KeyFree(db: Db, req: Request) {
    match req
    case OpenAccount(a) => a !in db.accounts
    case Transfer(_, _, _, key) => key !in db.transfers
    case Withdraw(_, _, key) => key !in db.withdrawals
    case Deposit(_, _, _, reference) => reference !in db.deposits
    case Seed(_, _, _) => true
    case Complete(_) => true
    case Reverse(_, _) => true
  }

  lemma CommitKeyFree(s: State, i: nat)
    requires Inv(s) && Enabled(s, i) && Next(s, i).Commit? && Effect(s.db, s.procs[i]).Some?
    ensures KeyFree(s.db, s.procs[i].req)
  {
    hide GoodDb, AllOwned, Solvent, Exclusive, Balance, Filter, LegsFor, Holds;
    assert Sound(s.db, s.procs[i]);
    AskedForKey(s.procs[i]);
  }

  lemma ExtendsTransitive(a: Db, b: Db, c: Db)
    requires Extends(a, b) && Extends(b, c)
    ensures Extends(a, c)
  {
  }

  lemma AppendExtends(db: Db, p: Posting, payload: Payload)
    ensures Extends(db, Append(db, p, payload))
  {
    hide LegsFor;
  }

  lemma TransferExtends(db: Db, source: AccountId, target: AccountId, amount: int, key: string, balance: int)
    requires key !in db.transfers
    ensures var effect := TransferEffect(db, source, target, amount, key, balance);
            effect.Some? ==> Extends(db, effect.value)
  {
    hide LegsFor;
  }

  lemma ReserveExtends(db: Db, account: AccountId, amount: int, key: string)
    requires key !in db.withdrawals
    ensures var effect := ReserveEffect(db, account, amount, key); effect.Some? ==> Extends(db, effect.value)
  {
    hide LegsFor;
  }

  lemma DepositExtends(db: Db, account: AccountId, amount: int, reference: string, accepted: bool)
    requires reference !in db.deposits
    ensures var effect := DepositEffect(db, account, amount, reference, accepted);
            effect.Some? ==> Extends(db, effect.value)
  {
    hide LegsFor;
  }

  lemma EffectExtends(db: Db, p: Proc)
    requires Effect(db, p).Some? && KeyFree(db, p.req)
    ensures Extends(db, Effect(db, p).value)
  {
    hide LegsFor, TransferEffect, ReserveEffect, DepositEffect;
    match p.req {
      case Transfer(source, target, amount, key) => TransferExtends(db, source, target, amount, key, p.balance);
      case Withdraw(account, amount, key) => ReserveExtends(db, account, amount, key);
      case Deposit(account, amount, supported, reference) =>
        DepositExtends(db, account, amount, reference, account != SYSTEM_ACCOUNT && supported && p.view.Active?);
      case OpenAccount(a) => AppendExtends(db, NoPosting, AccountOpened(a));
      case Seed(account, amount, key) => AppendExtends(db, PostingOf(db, p), SeedCompleted(account, amount));
      case Complete(key) => AppendExtends(db, NoPosting, WithdrawalCompleted(db.withdrawals[key].id));
      case Reverse(key, _) =>
        var w := db.withdrawals[key];
        AppendExtends(db, PostingOf(db, p), WithdrawalFailed(w.id, w.account, w.amount));
    }
  }

  lemma CommitExtends(s: State, i: nat)
    requires Inv(s) && Enabled(s, i) && Next(s, i).Commit? && Effect(s.db, s.procs[i]).Some?
    ensures Extends(s.db, Effect(s.db, s.procs[i]).value)
  {
    hide GoodDb, AllOwned, Solvent, Exclusive, AllSound, Effect, Extends;
    CommitKeyFree(s, i);
    EffectExtends(s.db, s.procs[i]);
  }

  lemma CommitOwned(s: State, i: nat)
    requires Inv(s) && Enabled(s, i) && Next(s, i).Commit? && Effect(s.db, s.procs[i]).Some?
    ensures AllOwned(Effect(s.db, s.procs[i]).value)
  {
    hide GoodDb, Solvent, Exclusive, Sound;
    var p, db := s.procs[i], s.db;
    var db' := Effect(db, p).value;
    CommitExtends(s, i);
    EffectPosts(db, p);
    forall leg | leg in db'.legs ensures Owned(leg, db') {
      if leg in db.legs {
        OwnedStays(leg, db, db');
      } else {
        assert leg in LegsFor(PostingOf(db, p), db.nextId + 1);
        match p.req {
          case Transfer(_, _, _, key) => assert key in db'.transfers;
          case Withdraw(_, _, key) => assert key in db'.withdrawals;
          case Deposit(_, _, _, reference) => assert reference in db'.deposits;
          case Reverse(key, _) => assert key in db'.withdrawals;
          case _ =>
        }
      }
    }
  }

  lemma OwnedStays(leg: Leg, db: Db, db': Db)
    requires Owned(leg, db) && Extends(db, db')
    ensures Owned(leg, db')
  {
    match leg.entry
    case TransferEntry =>
      var k :| k in db.transfers && leg.reference == Some(db.transfers[k].id);
      assert k in db'.transfers;
    case DepositEntry =>
      var k :| k in db.deposits && leg.reference == Some(db.deposits[k].id);
      assert k in db'.deposits;
    case SeedEntry =>
    case _ =>
      var k :| k in db.withdrawals && leg.reference == Some(db.withdrawals[k].id);
      assert k in db'.withdrawals;
  }

  /** The debited account is the system's, or its row lock is held and the amount was covered. */
  lemma DebitCovered(s: State, i: nat)
    requires Inv(s) && Enabled(s, i) && Next(s, i).Commit? && Effect(s.db, s.procs[i]).Some?
    ensures
      var p := PostingOf(s.db, s.procs[i]);
      p.Posting? ==>
        && p.amount > 0
        && (p.debit == SYSTEM_ACCOUNT
            || (Holds(s.procs[i], AccountRow(p.debit)) && p.amount <= Balance(s.db.legs, p.debit)))
  {
    hide GoodLedger, AllOwned, Exclusive, Solvent, RecordIds, TransfersPosted, DepositsPosted, WithdrawalsPosted;
    var p, db := s.procs[i], s.db;
    assert Sound(db, p);
    match p.req {
      case Transfer(source, target, amount, key) =>
        if p.balance >= amount && source != SYSTEM_ACCOUNT {
          assert Done(p)[0] == Program(p.req)[0] && Done(p)[1] == Program(p.req)[1] && Done(p)[2] == Program(p.req)[2];
          assert Holds(p, AccountRow(source));
          assert ReadBalance(source) in Done(p);
        }
      case Withdraw(account, amount, key) =>
        assert Done(p)[0] == Program(p.req)[0] && Done(p)[1] == Program(p.req)[1];
        assert Holds(p, AccountRow(account));
        assert ReadBalance(account) in Done(p);
      case _ =>
    }
  }

  /* ---- Each step keeps the invariant ---- */

  lemma DoneGrows(p: Proc)
    requires p.pc < |Program(p.req)|
    ensures Done(p.(pc := p.pc + 1)) == Done(p) + [Program(p.req)[p.pc]]
  {
  }

  /** A step acquires at most the resource it names. */
  lemma HoldsAfter(db: Db, p: Proc, r: Resource)
    requires Sound(db, p) && p.pc < |Program(p.req)|
    requires Holds(Exec(db, p).1, r)
    ensures p.phase.Running? && (Holds(p, r) || Program(p.req)[p.pc] == Acquire(r))
  {
    hide Taken, Effect, Balance;
    DoneGrows(p);
    var p' := Exec(db, p).1;
    assert Done(p') == Done(p) + [Program(p.req)[p.pc]];
  }

  lemma StepExclusive(s: State, i: nat)
    requires Inv(s) && Enabled(s, i)
    ensures Exclusive(Step(s, i))
  {
    hide GoodDb, AllOwned, Solvent, Effect, Sound, Holds, Exec;
    var s' := Step(s, i);
    forall j, k, r | 0 <= j < k < |s'.procs| && Holds(s'.procs[j], r) ensures !Holds(s'.procs[k], r) {
      if j == i || k == i {
        var other := if j == i then k else j;
        if Holds(s'.procs[i], r) && Holds(s'.procs[other], r) {
          assert Sound(s.db, s.procs[i]);
          HoldsAfter(s.db, s.procs[i], r);
          assert s'.procs[other] == s.procs[other];
          var waits := Waits(s, i, other);
          assert false;
        }
      } else {
        assert s'.procs[j] == s.procs[j] && s'.procs[k] == s.procs[k];
      }
    }
  }

  /** What a committing process has asked for, by request. */
  lemma AskedForKey(p: Proc)
    requires p.phase.Running? && p.pc < |Program(p.req)| && Program(p.req)[p.pc].Commit?
    ensures
      match p.req
      case OpenAccount(_) => true
      case Transfer(_, _, _, key) => Holds(p, TransferKey(key))
      case Withdraw(_, _, key) => Holds(p, WithdrawalKey(key))
      case Deposit(_, _, _, reference) => Holds(p, DepositRef(reference))
      case Seed(_, _, key) => Holds(p, LedgerUnique(SeedKey(key)))
      case Complete(key) => Holds(p, WithdrawalLock(key))
      case Reverse(key, _) => Holds(p, LedgerUnique(ReversalKey(key))) && Holds(p, WithdrawalLock(key))
  {
    match p.req {
      case Transfer(_, _, _, key) => assert Done(p)[3] == Acquire(TransferKey(key));
      case Withdraw(_, _, key) => assert Done(p)[2] == Acquire(WithdrawalKey(key));
      case Deposit(_, _, _, reference) => assert Done(p)[0] == Acquire(DepositRef(reference));
      case Seed(_, _, key) => assert Done(p)[1] == Acquire(LedgerUnique(SeedKey(key)));
      case Complete(key) => assert Done(p)[0] == Acquire(WithdrawalLock(key));
      case Reverse(key, rowFirst) =>
        assert Done(p)[if rowFirst then 1 else 0] == Acquire(LedgerUnique(ReversalKey(key)));
        assert Done(p)[if rowFirst then 0 else 1] == Acquire(WithdrawalLock(key));
      case OpenAccount(_) =>
    }
  }

  /** A commit takes only keys that its process held. */
  lemma NewlyTaken(s: State, i: nat, r: Resource)
    requires Inv(s) && Enabled(s, i) && Next(s, i).Commit? && Effect(s.db, s.procs[i]).Some?
    requires Taken(Effect(s.db, s.procs[i]).value, r) && !Taken(s.db, r)
    ensures Holds(s.procs[i], r)
  {
    hide GoodDb, AllOwned, Solvent, Exclusive, Sound, Holds, Waits, Filter, Balance;
    var p, db := s.procs[i], s.db;
    AskedForKey(p);
    if r.LedgerUnique? {
      EffectPosts(db, p);
      GrowFilter(db.legs, PostingOf(db, p), db.nextId + 1, ByKey(r.unique));
    }
  }

  lemma CommitBalance(s: State, i: nat, a: AccountId)
    requires Inv(s) && Enabled(s, i) && Next(s, i).Commit? && Effect(s.db, s.procs[i]).Some?
    requires a != SYSTEM_ACCOUNT
    ensures
      var legs' := Effect(s.db, s.procs[i]).value.legs;
      && (!Holds(s.procs[i], AccountRow(a)) ==> Balance(s.db.legs, a) <= Balance(legs', a))
      && Balance(legs', a) >= 0
  {
    hide GoodDb, AllOwned, Exclusive, Sound, Holds, Effect, PostingOf, LegsFor, Balance;
    DebitCovered(s, i);
    EffectPosts(s.db, s.procs[i]);
    GrowBalance(s.db.legs, PostingOf(s.db, s.procs[i]), s.db.nextId + 1, a);
    assert Balance(s.db.legs, a) >= 0;
  }

  /** A bystander keeps what it knows while another process commits. */
  lemma BystanderSound(s: State, i: nat, j: nat)
    requires Inv(s) && Enabled(s, i) && j < |s.procs| && j != i
    ensures Sound(Step(s, i).db, s.procs[j])
  {
    hide GoodDb, AllOwned, Solvent;
    var p, q, db := s.procs[i], s.procs[j], s.db;
    assert Sound(db, q);
    if Next(s, i).Commit? && Effect(db, p).Some? && q.phase.Running? && q.pc <= |Program(q.req)| {
      var db' := Effect(db, p).value;
      forall r | Holds(q, r) ensures !Taken(db', r) {
        if Taken(db', r) {
          NewlyTaken(s, i, r);
          assert false;
        }
      }
      assert forall a :: a in db.accounts ==> a in db'.accounts;
      forall a | ReadBalance(a) in Done(q) && a != SYSTEM_ACCOUNT ensures q.balance <= Balance(db'.legs, a) {
        ReaderHoldsRow(db, q, a);
        assert !Holds(p, AccountRow(a));
        CommitBalance(s, i, a);
      }
    }
  }

  /** Whoever read a balance to act on still holds that account's row. */
  lemma ReaderHoldsRow(db: Db, p: Proc, a: AccountId)
    requires Sound(db, p) && p.phase.Running? && p.pc <= |Program(p.req)| && ReadBalance(a) in Done(p)
    ensures Holds(p, AccountRow(a))
  {
    hide Taken, Balance;
    match p.req {
      case Transfer(source, target, _, _) =>
        assert p.pc >= 3;
        assert Done(p)[0] == Program(p.req)[0] && Done(p)[1] == Program(p.req)[1];
        assert Acquire(AccountRow(source)) in Done(p);
      case Withdraw(account, _, _) =>
        if account != SYSTEM_ACCOUNT {
          assert p.pc >= 2;
          assert Done(p)[0] == Program(p.req)[0];
        }
      case _ =>
    }
  }

  lemma ActorBalances(db: Db, p: Proc, p': Proc, a: AccountId)
    requires Sound(db, p) && p.phase.Running? && p.pc < |Program(p.req)| && p' == Exec(db, p).1
    requires p'.phase.Running? && ReadBalance(a) in Done(p')
    ensures a != SYSTEM_ACCOUNT ==> p'.balance <= Balance(db.legs, a)
    ensures p'.req.Withdraw? ==> p'.req.amount <= p'.balance
  {
    hide Effect, Taken, Holds, Balance;
    DoneGrows(p);
    if ReadBalance(a) in Done(p) {
      OneBalanceRead(p, a);
    }
  }

  lemma ActorRows(db: Db, p: Proc, p': Proc)
    requires Sound(db, p) && p.phase.Running? && p.pc < |Program(p.req)| && p' == Exec(db, p).1
    requires p'.phase.Running?
    ensures forall a :: Acquire(AccountRow(a)) in Done(p') && !p'.req.Deposit? ==> !p'.view.Missing?
    ensures forall a :: FindAccount(a) in Done(p') ==> a in db.accounts
  {
    hide Effect, Taken, Holds, Balance;
    DoneGrows(p);
  }

  lemma ActorHolds(db: Db, p: Proc, p': Proc, r: Resource)
    requires Sound(db, p) && p.phase.Running? && p.pc < |Program(p.req)| && p' == Exec(db, p).1
    requires p'.phase.Running? && Holds(p', r)
    ensures !Taken(db, r) && (r.AccountRow? ==> r.account in db.accounts)
  {
    hide Effect, Balance, Filter;
    HoldsAfter(db, p, r);
  }

  lemma ActorSound(s: State, i: nat)
    requires Inv(s) && Enabled(s, i)
    ensures Sound(Step(s, i).db, Step(s, i).procs[i])
  {
    hide GoodDb, AllOwned, Solvent, Exclusive, Effect, Holds, Taken, Balance;
    var db, p := s.db, s.procs[i];
    assert Sound(db, p);
    var p' := Exec(db, p).1;
    if p'.phase.Running? {
      ActorRows(db, p, p');
      forall r | Holds(p', r) ensures !Taken(db, r) && (r.AccountRow? ==> r.account in db.accounts) {
        ActorHolds(db, p, p', r);
      }
      forall a | ReadBalance(a) in Done(p')
        ensures (a != SYSTEM_ACCOUNT ==> p'.balance <= Balance(db.legs, a))
                && (p'.req.Withdraw? ==> p'.req.amount <= p'.balance)
      {
        ActorBalances(db, p, p', a);
      }
    }
  }

  /** A program reads one balance. */
  lemma OneBalanceRead(p: Proc, a: AccountId)
    requires p.pc < |Program(p.req)| && ReadBalance(a) in Done(p)
    ensures !Program(p.req)[p.pc].ReadBalance?
  {
  }

  lemma StepKeeps(s: State, i: nat)
    requires Inv(s) && Enabled(s, i)
    ensures Inv(Step(s, i))
  {
    hide Exclusive, Sound, GoodDb, Effect, AllOwned;
    var s' := Step(s, i);
    StepExclusive(s, i);
    forall j | 0 <= j < |s'.procs| ensures Sound(s'.db, s'.procs[j]) {
      if j == i { ActorSound(s, i); } else { BystanderSound(s, i, j); }
    }
    if Next(s, i).Commit? && Effect(s.db, s.procs[i]).Some? {
      CommitGood(s, i);
      CommitOwned(s, i);
      forall a | a != SYSTEM_ACCOUNT ensures Balance(s'.db.legs, a) >= 0 {
        CommitBalance(s, i, a);
      }
    }
    ProgramEndsWithCommit(s.procs[i].req);
  }

  lemma ProgramEndsWithCommit(req: Request)
    ensures forall k :: 0 <= k < |Program(req)| ==>
            (k == |Program(req)| - 1 <==> Program(req)[k].Commit? || Program(req)[k].Refuse?)
  {
  }

  lemma CrashKeeps(s: State, i: nat)
    requires Inv(s) && Unfinished(s, i)
    ensures Inv(Crash(s, i))
  {
    hide GoodDb, AllOwned, Solvent;
    var s' := Crash(s, i);
    forall j, k, r | 0 <= j < k < |s'.procs| && Holds(s'.procs[j], r) ensures !Holds(s'.procs[k], r) {
      assert Holds(s.procs[j], r);
    }
  }

  lemma InitInv(s: State)
    requires Init(s)
    ensures Inv(s)
  {
    hide GoodDb, AllOwned, Solvent;
  }

  /** Every state of every run: double entry, no overdraft, one posting per external key, exclusive locks. */
  lemma {:induction false} RunInv(run: seq<State>, k: nat)
    requires Run(run) && k < |run|
    ensures Inv(run[k])
  {
    hide Inv, Enabled, Program, Effect, Balance;
    if k == 0 {
      InitInv(run[0]);
    } else {
      RunInv(run, k - 1);
      assert Transition(run[k - 1], run[k]);
      var s, s' := run[k - 1], run[k];
      if i: nat :| Enabled(s, i) && s' == Step(s, i) {
        StepKeeps(s, i);
      } else {
        var i: nat :| Unfinished(s, i) && s' == Crash(s, i);
        CrashKeeps(s, i);
      }
    }
  }
}
