/**
 What holds in every reachable state of the posting protocol, and of every run as a whole.
 */
module PostingTheorems {
  import opened Wrappers
  import opened Ledger
  import opened Postings
  import opened PostingProtocol

  /** Double entry and no overdraft, at every committed state of every interleaving. */
  lemma ConservationAndSolvency(run: seq<State>, k: nat)
    requires Run(run) && k < |run|
    ensures Sum(run[k].db.legs) == 0
    ensures forall t :: Sum(Filter(run[k].db.legs, InTxn(t))) == 0
    ensures forall leg :: leg in run[k].db.legs ==> TxnPaired(Filter(run[k].db.legs, InTxn(leg.txn)))
    ensures forall a :: a != SYSTEM_ACCOUNT ==> Balance(run[k].db.legs, a) >= 0
  {
    hide Run, SeedsPosted, EventsTellLedger, GoodRecords, AllOwned, Exclusive, AllSound;
    RunInv(run, k);
  }

  /** A transfer key has its posting pair exactly when its record is completed, and no other leg refers to it. */
  lemma TransferPaidOnce(run: seq<State>, k: nat, key: string)
    requires Run(run) && k < |run| && key in run[k].db.transfers
    ensures
      var row := run[k].db.transfers[key];
      var own := Filter(run[k].db.legs, ByReference(row.id));
      && !row.status.RecordPending?
      && (row.status.RecordCompleted? <==> own != [])
      && (own != [] ==> IsPair(own, row.source, row.target, row.amount, TransferEntry, Some(row.id), None))
  {
    hide Run, GoodLedger, WithdrawalsPosted, DepositsPosted, RecordIds, AllOwned, Exclusive, AllSound, Solvent;
    RunInv(run, k);
    assert TransferPosted(run[k].db.legs, run[k].db.transfers[key]);
  }

  /** A deposit reference has its pair exactly when it is completed; no committed deposit is pending. */
  lemma DepositPaidOnce(run: seq<State>, k: nat, reference: string)
    requires Run(run) && k < |run| && reference in run[k].db.deposits
    ensures
      var row := run[k].db.deposits[reference];
      var own := Filter(run[k].db.legs, ByReference(row.id));
      && !row.status.RecordPending?
      && (row.status.RecordCompleted? <==> own != [])
      && (own != [] ==> IsPair(own, SYSTEM_ACCOUNT, row.account, row.amount, DepositEntry, Some(row.id), None))
  {
    hide Run, GoodLedger, WithdrawalsPosted, TransfersPosted, RecordIds, AllOwned, Exclusive, AllSound, Solvent;
    RunInv(run, k);
    assert DepositPosted(run[k].db.legs, run[k].db.deposits[reference]);
  }

  /** A withdrawal key has one reservation pair, and at most one reversal pair, whoever raced to compensate it. */
  lemma WithdrawalPaidOnce(run: seq<State>, k: nat, key: string)
    requires Run(run) && k < |run| && key in run[k].db.withdrawals
    ensures
      var row := run[k].db.withdrawals[key];
      var own := Filter(run[k].db.legs, ByReference(row.id));
      && (|own| == 2 || |own| == 4)
      && IsPair(own[..2], row.account, SYSTEM_ACCOUNT, row.amount, WithdrawalEntry, Some(row.id), None)
      && (|own| == 4 ==>
            IsPair(own[2..], SYSTEM_ACCOUNT, row.account, row.amount, ReversalEntry, Some(row.id),
                   Some(ReversalKey(key))))
  {
    hide Run, GoodLedger, DepositsPosted, TransfersPosted, RecordIds, AllOwned, Exclusive, AllSound, Solvent;
    RunInv(run, k);
    assert WithdrawalPosted(run[k].db.legs, key, run[k].db.withdrawals[key]);
  }

  /** A seed key is on at most one leg, and that leg's transaction is one pair. */
  lemma SeedPaidOnce(run: seq<State>, k: nat, key: string)
    requires Run(run) && k < |run|
    ensures
      var named := Filter(run[k].db.legs, ByKey(SeedKey(key)));
      named == [] ||
      (|named| == 1 && IsPair(Filter(run[k].db.legs, InTxn(named[0].txn)), SYSTEM_ACCOUNT, named[0].account,
                              named[0].amount, SeedEntry, None, Some(SeedKey(key))))
  {
    hide Run, GoodRecords, EventsTellLedger, Conserved, AllOwned, Exclusive, AllSound, Solvent;
    RunInv(run, k);
    assert SeedPosted(run[k].db.legs, key);
  }

  /** No leg exists outside the records and seed keys above; the debit leg of a seed stands beside the credit leg that
      carries its key. */
  lemma NoStrayLegs(run: seq<State>, k: nat, leg: Leg)
    requires Run(run) && k < |run| && leg in run[k].db.legs
    ensures Owned(leg, run[k].db)
    ensures leg.entry.SeedEntry? ==>
              exists credit :: credit in run[k].db.legs && credit.txn == leg.txn && credit.amount == leg.amount
                               && credit.key.Some? && credit.key.value.SeedKey?
  {
    hide Run, GoodRecords, Exclusive, AllSound, Solvent, Conserved, SeedsPosted, EventsTellLedger;
    RunInv(run, k);
    var legs := run[k].db.legs;
    if leg.entry.SeedEntry? {
      var own := Filter(legs, InTxn(leg.txn));
      assert TxnPaired(own);
      FilterMember(legs, InTxn(leg.txn), leg);
      FilterMember(legs, InTxn(leg.txn), own[1]);
      assert own[1] in own && own[1] in legs && own[1].txn == leg.txn;
      assert leg == own[0] || leg == own[1];
      assert Owned(own[1], run[k].db);
    }
  }

  lemma TransitionExtends(s: State, s': State)
    requires Inv(s) && Transition(s, s')
    ensures Extends(s.db, s'.db) && |s'.procs| == |s.procs|
  {
    hide Inv, Effect;
    if i: nat :| Enabled(s, i) && s' == Step(s, i) {
      if Next(s, i).Commit? && Effect(s.db, s.procs[i]).Some? {
        CommitExtends(s, i);
      }
    }
  }

  lemma ExtendsMeans(db: Db, later: Db)
    requires Extends(db, later)
    ensures db.legs <= later.legs && db.outbox <= later.outbox
    ensures forall key :: key in db.transfers ==> key in later.transfers && later.transfers[key] == db.transfers[key]
    ensures forall key :: key in db.deposits ==> key in later.deposits && later.deposits[key] == db.deposits[key]
    ensures forall key :: key in db.withdrawals ==>
              key in later.withdrawals && later.withdrawals[key] == db.withdrawals[key]
  {
  }

  /** Committed records, legs and outbox rows are never changed or withdrawn later in the run. */
  lemma {:induction false} HistoryOnlyGrows(run: seq<State>, j: nat, k: nat)
    requires Run(run) && j <= k < |run|
    ensures Extends(run[j].db, run[k].db)
    ensures
      var db, later := run[j].db, run[k].db;
      && db.legs <= later.legs && db.outbox <= later.outbox
      && (forall key :: key in db.transfers ==> key in later.transfers && later.transfers[key] == db.transfers[key])
      && (forall key :: key in db.deposits ==> key in later.deposits && later.deposits[key] == db.deposits[key])
      && (forall key :: key in db.withdrawals ==>
            key in later.withdrawals && later.withdrawals[key] == db.withdrawals[key])
    decreases k
  {
    hide Inv, Transition, Init;
    if j < k {
      HistoryOnlyGrows(run, j, k - 1);
      RunInv(run, k - 1);
      assert Transition(run[k - 1], run[k]);
      TransitionExtends(run[k - 1], run[k]);
      hide Extends;
      ExtendsTransitive(run[j].db, run[k - 1].db, run[k].db);
    }
    ExtendsMeans(run[j].db, run[k].db);
  }

  /* ---- Locks ---- */

  /** Two compensations of one withdrawal, one taking its row first and one its reversal key, while the key is free. */
  ghost predicate Opposed(s: State, i: nat, j: nat) {
    && i < |s.procs| && j < |s.procs|
    && s.procs[i].req.Reverse? && s.procs[i].req.rowFirst
    && s.procs[j].req == Reverse(s.procs[i].req.key, false)
    && !Taken(s.db, LedgerUnique(ReversalKey(s.procs[i].req.key)))
  }

  ghost predicate NoneOpposed(s: State) {
    forall i: nat, j: nat :: !Opposed(s, i, j)
  }

  /** The total order in which the programs ask for resources; for the withdrawals in `flip` the reversal key comes
      before the row. */
  ghost predicate Below(r: Resource, q: Resource, flip: set<string>) {
    match r
    case DepositRef(_) => !q.DepositRef?
    case AccountRow(a) => (q.AccountRow? && a < q.account) || !(q.AccountRow? || q.DepositRef?)
    case WithdrawalLock(key) => q == LedgerUnique(ReversalKey(key)) && key !in flip
    case LedgerUnique(unique) =>
      unique.ReversalKey? && q == WithdrawalLock(unique.withdrawal) && unique.withdrawal in flip
    case _ => false
  }

  /** Who takes the row first is not flipped; who takes the key first is, or finds the key taken. */
  ghost predicate Ordered(s: State, flip: set<string>) {
    forall i :: 0 <= i < |s.procs| && s.procs[i].req.Reverse? ==>
      if s.procs[i].req.rowFirst then s.procs[i].req.key !in flip
      else s.procs[i].req.key in flip || Taken(s.db, LedgerUnique(ReversalKey(s.procs[i].req.key)))
  }

  lemma OrderExists(s: State) returns (flip: set<string>)
    requires NoneOpposed(s)
    ensures Ordered(s, flip)
  {
    flip := set i | 0 <= i < |s.procs| && s.procs[i].req.Reverse? && !s.procs[i].req.rowFirst
                    && !Taken(s.db, LedgerUnique(ReversalKey(s.procs[i].req.key))) :: s.procs[i].req.key;
    forall i: nat | i < |s.procs| && s.procs[i].req.Reverse? && s.procs[i].req.rowFirst
      ensures s.procs[i].req.key !in flip
    {
      if s.procs[i].req.key in flip {
        var j: nat :| j < |s.procs| && s.procs[j].req.Reverse? && !s.procs[j].req.rowFirst
                      && !Taken(s.db, LedgerUnique(ReversalKey(s.procs[j].req.key)))
                      && s.procs[j].req.key == s.procs[i].req.key;
        assert Opposed(s, i, j);
      }
    }
  }

  lemma StillTaken(db: Db, db': Db, k: LedgerKey)
    requires Extends(db, db') && Taken(db, LedgerUnique(k))
    ensures Taken(db', LedgerUnique(k))
  {
    assert db'.legs == db.legs + db'.legs[|db.legs|..];
    FilterAppend(db.legs, db'.legs[|db.legs|..], ByKey(k));
  }

  lemma TransitionSameRequests(s: State, s': State)
    requires Transition(s, s')
    ensures |s'.procs| == |s.procs| && forall i :: 0 <= i < |s.procs| ==> s'.procs[i].req == s.procs[i].req
  {
    hide Effect, Waits, Taken, Balance, Program;
  }

  lemma {:induction false} SameRequests(run: seq<State>, k: nat)
    requires Run(run) && k < |run|
    ensures |run[k].procs| == |run[0].procs|
    ensures forall i :: 0 <= i < |run[0].procs| ==> run[k].procs[i].req == run[0].procs[i].req
  {
    hide Init, Transition;
    if k > 0 {
      SameRequests(run, k - 1);
      assert Transition(run[k - 1], run[k]);
      TransitionSameRequests(run[k - 1], run[k]);
    }
  }

  lemma OrderedStays(run: seq<State>, k: nat, flip: set<string>)
    requires Run(run) && k < |run| && Ordered(run[0], flip)
    ensures Ordered(run[k], flip)
  {
    SameRequests(run, k);
    HistoryOnlyGrows(run, 0, k);
    hide Run, Taken, Extends;
    forall i: nat | i < |run[k].procs| && run[k].procs[i].req.Reverse? && !run[k].procs[i].req.rowFirst
      && run[k].procs[i].req.key !in flip
      ensures Taken(run[k].db, LedgerUnique(ReversalKey(run[k].procs[i].req.key)))
    {
      StillTaken(run[0].db, run[k].db, ReversalKey(run[k].procs[i].req.key));
    }
  }

  /** What a process holds lies below what it wants. */
  lemma AsksUpwards(s: State, i: nat, r: Resource, flip: set<string>)
    requires Unfinished(s, i) && Next(s, i).Acquire? && Holds(s.procs[i], r) && r != Next(s, i).r
    requires Ordered(s, flip) && !Taken(s.db, r)
    ensures Below(r, Next(s, i).r, flip)
  {
    hide Taken;
    var p := s.procs[i];
    assert Acquire(r) in Done(p);
  }

  lemma WaitsUpwards(s: State, i: nat, j: nat, flip: set<string>)
    requires Inv(s) && Ordered(s, flip) && Waits(s, i, j) && Unfinished(s, j) && Next(s, j).Acquire?
    requires !Holds(s.procs[j], Next(s, j).r)
    ensures Below(Next(s, i).r, Next(s, j).r, flip)
  {
    assert Sound(s.db, s.procs[j]);
    assert !Taken(s.db, Next(s, i).r);
    hide Inv, Holds, Sound, Taken, Ordered;
    AsksUpwards(s, j, Next(s, i).r, flip);
  }

  /** A process never holds what it waits for another to release. */
  lemma WaitsForOthers(s: State, i: nat, j: nat)
    requires Inv(s) && Waits(s, i, j)
    ensures !Holds(s.procs[i], Next(s, i).r)
  {
    hide GoodDb, AllOwned, Solvent, Sound, Holds;
    assert Exclusive(s);
  }

  ghost predicate Cycle(s: State, cycle: seq<nat>) {
    |cycle| > 0 && forall m :: 0 <= m < |cycle| ==> Waits(s, cycle[m], cycle[if m + 1 < |cycle| then m + 1 else 0])
  }

  /** No reachable state has a cycle of waiters, unless two compensations of one withdrawal take row and key in
      opposite orders. */
  lemma NoDeadlock(run: seq<State>, k: nat, cycle: seq<nat>)
    requires Run(run) && k < |run| && NoneOpposed(run[0])
    ensures !Cycle(run[k], cycle)
  {
    hide Inv, Run, Waits, Ordered, NoneOpposed;
    var s := run[k];
    RunInv(run, k);
    var flip := OrderExists(run[0]);
    OrderedStays(run, k, flip);
    if Cycle(s, cycle) {
      assert Waits(s, cycle[0], cycle[if 1 < |cycle| then 1 else 0]);
      NoSelfWait(s, cycle[0]);
      ChainAscends(s, cycle, |cycle| - 1, flip);
      WaitStep(s, cycle[|cycle| - 1], cycle[0], cycle[1], flip);
      BelowIsStrict(Next(s, cycle[0]).r, Next(s, cycle[|cycle| - 1]).r, flip);
      assert false;
    }
  }

  lemma NoSelfWait(s: State, i: nat)
    ensures !Waits(s, i, i)
  {
  }

  lemma BelowIsStrict(r: Resource, q: Resource, flip: set<string>)
    ensures !(Below(r, q, flip) && Below(q, r, flip))
  {
  }

  lemma BelowTransitive(r: Resource, q: Resource, t: Resource, flip: set<string>)
    requires Below(r, q, flip) && Below(q, t, flip)
    ensures Below(r, t, flip)
  {
  }

  lemma WaitStep(s: State, i: nat, j: nat, l: nat, flip: set<string>)
    requires Inv(s) && Ordered(s, flip) && Waits(s, i, j) && Waits(s, j, l)
    ensures Unfinished(s, i) && Unfinished(s, j) && Next(s, i).Acquire? && Next(s, j).Acquire?
    ensures Below(Next(s, i).r, Next(s, j).r, flip)
  {
    hide Inv, Ordered;
    WaitsForOthers(s, j, l);
    WaitsUpwards(s, i, j, flip);
  }

  lemma {:induction false} ChainAscends(s: State, chain: seq<nat>, m: nat, flip: set<string>)
    requires Inv(s) && Ordered(s, flip) && 1 <= m < |chain| && Cycle(s, chain)
    ensures Unfinished(s, chain[0]) && Unfinished(s, chain[m]) && Next(s, chain[0]).Acquire?
            && Next(s, chain[m]).Acquire?
    ensures Below(Next(s, chain[0]).r, Next(s, chain[m]).r, flip)
    decreases m
  {
    hide Inv, Waits, Ordered;
    var after := chain[if m + 1 < |chain| then m + 1 else 0];
    assert Waits(s, chain[m - 1], chain[m]) && Waits(s, chain[m], after);
    WaitStep(s, chain[m - 1], chain[m], after, flip);
    if m > 1 {
      ChainAscends(s, chain, m - 1, flip);
      BelowTransitive(Next(s, chain[0]).r, Next(s, chain[m - 1]).r, Next(s, chain[m]).r, flip);
    }
  }

  /** While any transaction is unfinished, some transaction can take its next step. */
  lemma SomeoneCanStep(run: seq<State>, k: nat, i: nat)
    requires Run(run) && k < |run| && Unfinished(run[k], i) && NoneOpposed(run[0])
    ensures exists j :: Enabled(run[k], j)
  {
    hide Inv, Run, Enabled, Ordered, NoneOpposed;
    var s := run[k];
    RunInv(run, k);
    var flip := OrderExists(run[0]);
    OrderedStays(run, k, flip);
    if forall j :: !Enabled(s, j) {
      var m := HighestWaiter(s, i, |s.procs|, flip);
      var l := Blocker(s, m);
      assert Waits(s, m, l);
      HolderUnfinished(s, m, l);
      var l2 := Blocker(s, l);
      WaitStep(s, m, l, l2, flip);
      assert false;
    }
  }

  lemma Blocker(s: State, i: nat) returns (j: nat)
    requires Unfinished(s, i) && !Enabled(s, i)
    ensures Waits(s, i, j) && Next(s, i).Acquire?
  {
    j :| Waits(s, i, j);
  }

  lemma HolderUnfinished(s: State, i: nat, j: nat)
    requires Inv(s) && Waits(s, i, j)
    ensures Unfinished(s, j)
  {
    hide GoodDb, AllOwned, Solvent, Sound, Exclusive;
    assert PcsInRange(s);
  }

  /** Among the first n processes, an unfinished one that wants a resource no other one's want lies above. */
  lemma {:induction false} HighestWaiter(s: State, i: nat, n: nat, flip: set<string>) returns (m: nat)
    requires i < |s.procs| && n <= |s.procs| && Unfinished(s, i)
    requires forall j :: !Enabled(s, j)
    ensures Unfinished(s, m) && Next(s, m).Acquire?
    ensures forall j :: 0 <= j < n && Unfinished(s, j) ==>
            Next(s, j).Acquire? && !Below(Next(s, m).r, Next(s, j).r, flip)
    decreases n
  {
    hide Below, Waits, Enabled, Next, Program, Holds;
    if n == 0 {
      var j := Blocker(s, i);
      m := i;
    } else {
      m := HighestWaiter(s, i, n - 1, flip);
      if Unfinished(s, n - 1) {
        var j := Blocker(s, n - 1);
        BelowIsStrict(Next(s, n - 1).r, Next(s, n - 1).r, flip);
        if Below(Next(s, m).r, Next(s, n - 1).r, flip) {
          forall l | 0 <= l < n && Unfinished(s, l)
            ensures Next(s, l).Acquire? && !Below(Next(s, n - 1).r, Next(s, l).r, flip)
          {
            if l < n - 1 && Below(Next(s, n - 1).r, Next(s, l).r, flip) {
              BelowTransitive(Next(s, m).r, Next(s, n - 1).r, Next(s, l).r, flip);
            }
          }
          m := n - 1;
        }
      }
    }
  }

  /* ---- Opposed compensations ---- */

  lemma FirstAcquire(s: State, i: nat)
    requires Init(s) && i < |s.procs| && |Program(s.procs[i].req)| > 0
    ensures Enabled(s, i)
  {
  }

  /** Each takes its first resource, and waits for the other's. */
  lemma OpposedDeadlock(s: State, i: nat, j: nat) returns (run: seq<State>)
    requires Init(s) && Opposed(s, i, j)
    ensures Run(run) && run[0] == s && Cycle(run[|run| - 1], [i, j])
  {
    hide GoodDb, AllOwned, Solvent, Filter, Effect;
    var key := s.procs[i].req.key;
    var lock, unique := WithdrawalLock(key), LedgerUnique(ReversalKey(key));
    FirstAcquire(s, i);
    var s1 := Step(s, i);
    assert s1 == State(s.db, s.procs[i := s.procs[i].(pc := 1)]);
    assert Holds(s1.procs[i], lock) by { assert Done(s1.procs[i])[0] == Acquire(lock); }
    assert Enabled(s1, j) by {
      forall l: nat ensures !Waits(s1, j, l) {
        assert Done(s1.procs[i]) == [Acquire(lock)];
        if l < |s1.procs| && l != i {
          assert s1.procs[l] == s.procs[l] && s.procs[l].pc == 0;
          assert Done(s1.procs[l]) == [];
        }
      }
    }
    var s2 := Step(s1, j);
    assert s2 == State(s.db, s1.procs[j := s.procs[j].(pc := 1)]);
    assert Holds(s2.procs[j], unique) by { assert Done(s2.procs[j])[0] == Acquire(unique); }
    assert Waits(s2, i, j) && Waits(s2, j, i);
    run := [s, s1, s2];
    assert Transition(s, s1) && Transition(s1, s2);
  }

  /** The run leads from s to a cycle of waiters. */
  ghost predicate Deadlocks(s: State, run: seq<State>, cycle: seq<nat>) {
    Run(run) && run[0] == s && Cycle(run[|run| - 1], cycle)
  }

  /** Exactly when a set of transactions can deadlock. */
  lemma DeadlockExactly(s: State)
    requires Init(s)
    ensures (exists run, cycle :: Deadlocks(s, run, cycle)) <==> !NoneOpposed(s)
  {
    hide Init, Run, Cycle, Opposed;
    if i: nat, j: nat :| Opposed(s, i, j) {
      var run := OpposedDeadlock(s, i, j);
      NotEmpty(run);
      assert Deadlocks(s, run, [i, j]);
    } else {
      forall run, cycle ensures !Deadlocks(s, run, cycle) {
        if Run(run) {
          NotEmpty(run);
          if run[0] == s { NoDeadlock(run, |run| - 1, cycle); }
        }
      }
    }
  }

  lemma NotEmpty(run: seq<State>)
    requires Run(run)
    ensures |run| > 0
  {
  }

  /** Operations still to run. */
  function Remaining(p: Proc): nat {
    if p.phase.Running? && p.pc <= |Program(p.req)| then |Program(p.req)| - p.pc else 0
  }

  function Work(procs: seq<Proc>): nat {
    if procs == [] then 0 else Work(procs[..|procs| - 1]) + Remaining(procs[|procs| - 1])
  }

  lemma {:induction false} WorkUpdate(procs: seq<Proc>, i: nat, p: Proc)
    requires i < |procs|
    ensures Work(procs[i := p]) == Work(procs) - Remaining(procs[i]) + Remaining(p)
    decreases |procs|
  {
    var n := |procs| - 1;
    if i == n {
      assert procs[i := p][..n] == procs[..n];
    } else {
      assert procs[i := p][..n] == procs[..n][i := p];
      WorkUpdate(procs[..n], i, p);
    }
  }

  lemma WorkShrinks(s: State, s': State)
    requires Inv(s) && Transition(s, s')
    ensures Work(s'.procs) < Work(s.procs)
  {
    hide Inv, Effect, Balance, Filter;
    if i: nat :| Enabled(s, i) && s' == Step(s, i) {
      WorkUpdate(s.procs, i, s'.procs[i]);
    } else {
      var i: nat :| Unfinished(s, i) && s' == Crash(s, i);
      WorkUpdate(s.procs, i, s'.procs[i]);
    }
  }

  /** No schedule of finitely many transactions goes on forever: its length is bounded by the operations to run. */
  lemma {:induction false} EveryScheduleEnds(run: seq<State>, k: nat)
    requires Run(run) && k < |run|
    ensures k + Work(run[k].procs) <= Work(run[0].procs)
  {
    hide Inv, Transition, Init, Work;
    if k > 0 {
      EveryScheduleEnds(run, k - 1);
      assert Transition(run[k - 1], run[k]);
      RunInv(run, k - 1);
      WorkShrinks(run[k - 1], run[k]);
    }
  }
}
