/**
 The service functions, called alone, are runs of the concurrent posting protocol: what the protocol interleaves is
 what the services do.
 */
module ServicesInProtocol {
  import opened Ledger
  import opened Postings
  import opened PostingProtocol
  import Transfers = TransferService
  import Payments = PaymentServices

  predicate Stopped(p: Proc) { !p.phase.Running? || p.pc >= |Program(p.req)| }

  /** The states of one process with nobody beside it, for at most n operations. */
  ghost function AloneRun(db: Db, p: Proc, n: nat): seq<State>
    decreases n
  {
    [State(db, [p])] + (if n == 0 || Stopped(p) then [] else AloneRun(Exec(db, p).0, Exec(db, p).1, n - 1))
  }

  function Start(req: Request): Proc { Proc(req, 0, Missing, 0, Running) }

  lemma {:induction false} AloneSteps(db: Db, p: Proc, n: nat)
    ensures AloneRun(db, p, n)[0] == State(db, [p])
    ensures forall k :: 0 <= k < |AloneRun(db, p, n)| - 1 ==>
            Transition(AloneRun(db, p, n)[k], AloneRun(db, p, n)[k + 1])
    decreases n
  {
    hide Exec, Transition;
    if n > 0 && !Stopped(p) {
      var rest := AloneRun(Exec(db, p).0, Exec(db, p).1, n - 1);
      AloneSteps(Exec(db, p).0, Exec(db, p).1, n - 1);
      var run := AloneRun(db, p, n);
      assert run == [State(db, [p])] + rest;
      FirstStep(db, p);
      forall k | 0 <= k < |run| - 1 ensures Transition(run[k], run[k + 1]) {
        if k > 0 { assert Transition(rest[k - 1], rest[k]); }
      }
    }
  }

  lemma FirstStep(db: Db, p: Proc)
    requires !Stopped(p)
    ensures Transition(State(db, [p]), State(Exec(db, p).0, [Exec(db, p).1]))
  {
    hide Exec;
    var s := State(db, [p]);
    assert Enabled(s, 0);
    assert [p][0 := Exec(db, p).1] == [Exec(db, p).1];
  }

  ghost function Final(db: Db, p: Proc, n: nat): State {
    AloneRun(db, p, n)[|AloneRun(db, p, n)| - 1]
  }

  /** Everything the process does up to where it stops. */
  lemma Unroll(db: Db, p: Proc, n: nat)
    ensures n == 0 || Stopped(p) ==> Final(db, p, n) == State(db, [p])
    ensures n > 0 && !Stopped(p) ==> Final(db, p, n) == Final(Exec(db, p).0, Exec(db, p).1, n - 1)
  {
    hide Exec;
  }

  lemma IsRun(db: Db, req: Request, n: nat)
    requires GoodDb(db) && AllOwned(db) && Solvent(db.legs)
    ensures Run(AloneRun(db, Start(req), n))
  {
    AloneSteps(db, Start(req), n);
    hide GoodDb, AllOwned, Solvent, Transition, Exec;
  }

  /** Up to the key, then the key, then the commit: where a process that got this far stops. */
  lemma LastTwo(db: Db, p: Proc, r: Resource)
    requires p.phase.Running? && p.pc + 2 == |Program(p.req)| && Program(p.req)[p.pc] == Acquire(r) && !r.AccountRow?
    requires Program(p.req)[p.pc + 1] == Commit
    ensures
      Final(db, p, 2).db
      == if Taken(db, r) then db
         else var after := Effect(db, p.(pc := p.pc + 1)); if after.Some? then after.value else db
  {
    Unroll(db, p, 2);
    var (d, q) := Exec(db, p);
    Unroll(d, q, 1);
    hide Effect, Taken;
    if !Stopped(q) {
      var (e, o) := Exec(d, q);
      Unroll(e, o, 0);
    }
  }

  /** Locking an account row with nobody in the way. */
  lemma LockStep(db: Db, p: Proc, n: nat, a: AccountId)
    requires n > 0 && p.phase.Running? && p.pc < |Program(p.req)| && Program(p.req)[p.pc] == Acquire(AccountRow(a))
             && !p.req.Deposit?
    ensures
      if a in db.accounts then
        Final(db, p, n) == Final(db, p.(pc := p.pc + 1, view := if db.accounts[a] then Active else Inactive), n - 1)
      else Final(db, p, n).db == db
  {
    Unroll(db, p, n);
    hide Program, Effect, Balance, Final;
    Unroll(db, Exec(db, p).1, n - 1);
  }

  function ViewOf(db: Db, a: AccountId): AccountView
    requires a in db.accounts
  {
    if db.accounts[a] then Active else Inactive
  }

  /** Two rows in turn. */
  lemma LockBoth(db: Db, req: PostingProtocol.Request, first: AccountId, second: AccountId)
    requires req.Transfer? && |Program(req)| == 5
    requires Program(req)[0] == Acquire(AccountRow(first)) && Program(req)[1] == Acquire(AccountRow(second))
    ensures
      if first in db.accounts && second in db.accounts then
        Final(db, Start(req), 5) == Final(db, Proc(req, 2, ViewOf(db, second), 0, Running), 3)
      else Final(db, Start(req), 5).db == db
  {
    hide Program, Final, Exec;
    LockStep(db, Start(req), 5, first);
    if first in db.accounts {
      LockStep(db, Proc(req, 1, ViewOf(db, first), 0, Running), 4, second);
    }
  }

  lemma TransferRun(db: Db, source: AccountId, target: AccountId, amount: int, key: string)
    ensures
      Final(db, Start(Transfer(source, target, amount, key)), 5).db
      == Transfers.TransferDb(db, Transfers.Request(source, target, amount), key).0
  {
    var req := Transfer(source, target, amount, key);
    assert |Program(req)| == 5;
    if source <= target {
      assert Program(req)[0] == Acquire(AccountRow(source)) && Program(req)[1] == Acquire(AccountRow(target));
      LockBoth(db, req, source, target);
    } else {
      assert Program(req)[0] == Acquire(AccountRow(target)) && Program(req)[1] == Acquire(AccountRow(source));
      LockBoth(db, req, target, source);
    }
    MissingAccount(db, Transfers.Request(source, target, amount), key);
    hide *;
    if source in db.accounts && target in db.accounts {
      var last := if source <= target then target else source;
      TransferTail(db, source, target, amount, key, Proc(req, 2, ViewOf(db, last), 0, Running));
    }
  }

  lemma MissingAccount(db: Db, req: Transfers.Request, key: string)
    ensures req.source !in db.accounts || req.target !in db.accounts ==> Transfers.TransferDb(db, req, key).0 == db
  {
  }

  /** With both rows locked: balance, key, commit. */
  lemma TransferTail(db: Db, source: AccountId, target: AccountId, amount: int, key: string, p: Proc)
    requires p.req == Transfer(source, target, amount, key) && p.pc == 2 && p.phase.Running?
    requires source in db.accounts && target in db.accounts
    ensures Final(db, p, 3).db == Transfers.TransferDb(db, Transfers.Request(source, target, amount), key).0
  {
    assert |Program(p.req)| == 5 && Program(p.req)[2] == ReadBalance(source)
           && Program(p.req)[3] == Acquire(TransferKey(key)) && Program(p.req)[4] == PostingProtocol.Commit;
    hide Balance, TransferEffect, Program, Final;
    Unroll(db, p, 3);
    var balance := Balance(db.legs, source);
    assert Exec(db, p) == (db, p.(pc := 3, balance := balance));
    LastTwo(db, p.(pc := 3, balance := balance), TransferKey(key));
    TransferAborts(db, source, target, amount, key, balance);
    hide Exec;
  }

  lemma TransferAborts(db: Db, source: AccountId, target: AccountId, amount: int, key: string, balance: int)
    ensures TransferEffect(db, source, target, amount, key, balance).None? <==> amount <= 0 || source == target
  {
  }

  lemma FindStep(db: Db, p: Proc, n: nat, a: AccountId)
    requires n > 0 && p.phase.Running? && p.pc < |Program(p.req)| && Program(p.req)[p.pc] == FindAccount(a)
    ensures
      if a in db.accounts then Final(db, p, n) == Final(db, p.(pc := p.pc + 1), n - 1)
      else Final(db, p, n).db == db
  {
    Unroll(db, p, n);
    hide Program, Effect, Balance, Final;
    Unroll(db, Exec(db, p).1, n - 1);
  }

  lemma SeedProgram(account: AccountId, amount: int, key: string)
    ensures
      var program := Program(Seed(account, amount, key));
      && |program| == 3 && program[0] == FindAccount(account) && program[1] == Acquire(LedgerUnique(SeedKey(key)))
      && program[2] == PostingProtocol.Commit
  {
  }

  lemma SeedRun(db: Db, account: AccountId, amount: int, key: string)
    ensures Final(db, Start(Seed(account, amount, key)), 3).db == Payments.SeedDb(db, account, amount, key).0
  {
    var req := Seed(account, amount, key);
    SeedProgram(account, amount, key);
    hide Balance, Program, Final, Append, Filter, Exec;
    FindStep(db, Proc(req, 0, Missing, 0, Running), 3, account);
    if account in db.accounts {
      LastTwo(db, Proc(req, 1, Missing, 0, Running), LedgerUnique(SeedKey(key)));
    }
  }

  lemma DepositRun(db: Db, account: AccountId, amount: int, supported: bool, reference: string)
    ensures
      Final(db, Start(Deposit(account, amount, supported, reference)), 3).db
      == Payments.DepositDb(db, account, amount, supported, reference).0
  {
    var req, ref := Deposit(account, amount, supported, reference), DepositRef(reference);
    var p0 := Start(req);
    hide Balance, Program, Final, Append, Filter;
    if account == SYSTEM_ACCOUNT || !supported {
      assert Program(req) == [Acquire(ref), PostingProtocol.Commit] by {
        ShortDeposit(account, amount, supported, reference);
      }
      LastTwo(db, p0, ref);
      Unroll(db, p0, 3);
      Unroll(db, p0, 2);
      var (d, q) := Exec(db, p0);
      Unroll(d, q, 2);
      Unroll(d, q, 1);
      var (e, o) := if Stopped(q) then (d, q) else Exec(d, q);
      Unroll(e, o, 1);
      Unroll(e, o, 0);
    } else {
      assert Program(req) == [Acquire(ref), Acquire(AccountRow(account)), PostingProtocol.Commit] by {
        LongDeposit(account, amount, supported, reference);
      }
      Unroll(db, p0, 3);
      var p1 := Exec(db, p0).1;
      Unroll(db, p1, 2);
      if reference !in db.deposits {
        var p2 := Exec(db, p1).1;
        Unroll(db, p2, 1);
        var (e, o) := Exec(db, p2);
        Unroll(e, o, 0);
      }
    }
  }

  lemma ShortDeposit(account: AccountId, amount: int, supported: bool, reference: string)
    requires account == SYSTEM_ACCOUNT || !supported
    ensures Program(Deposit(account, amount, supported, reference))
            == [Acquire(DepositRef(reference)), PostingProtocol.Commit]
  {
  }

  lemma LongDeposit(account: AccountId, amount: int, supported: bool, reference: string)
    requires account != SYSTEM_ACCOUNT && supported
    ensures Program(Deposit(account, amount, supported, reference))
            == [Acquire(DepositRef(reference)), Acquire(AccountRow(account)), PostingProtocol.Commit]
  {
  }

  /** The reservation of a withdrawal that nothing has cached. */
  lemma WithdrawRun(st: Payments.WithdrawalTables, req: Payments.Request, key: string, t: Payments.Times)
    requires st.rows.Keys == st.db.withdrawals.Keys && key !in st.cache
    ensures
      Final(st.db, Start(Withdraw(req.account, req.amount, key)), 4).db
      == if req.account != SYSTEM_ACCOUNT && req.account in st.db.accounts && key !in st.db.withdrawals
            && 0 < req.amount <= Balance(st.db.legs, req.account)
         then Payments.ReserveTables(st, req, key, t).db
         else st.db
  {
    var db, r := st.db, Withdraw(req.account, req.amount, key);
    var p0 := Start(r);
    hide Balance, Final, Append, Filter;
    Unroll(db, p0, 4);
    var p1 := Exec(db, p0).1;
    Unroll(db, p1, 3);
    if req.account != SYSTEM_ACCOUNT && req.account in db.accounts {
      assert Program(r) == [Acquire(AccountRow(req.account)), ReadBalance(req.account), Acquire(WithdrawalKey(key)),
                            PostingProtocol.Commit];
      hide Program;
      var p2 := Exec(db, p1).1;
      Unroll(db, p2, 2);
      if req.amount <= Balance(db.legs, req.account) {
        LastTwo(db, p2, WithdrawalKey(key));
      }
    }
  }

  /** From a good database the service calls are runs that end in the database the service leaves. */
  lemma ServicesAreRuns(db: Db, source: AccountId, target: AccountId, amount: int, supported: bool, key: string)
    requires GoodDb(db) && AllOwned(db) && Solvent(db.legs)
    ensures
      var run := AloneRun(db, Start(Transfer(source, target, amount, key)), 5);
      Run(run) && run[|run| - 1].db == Transfers.TransferDb(db, Transfers.Request(source, target, amount), key).0
    ensures
      var run := AloneRun(db, Start(Seed(target, amount, key)), 3);
      Run(run) && run[|run| - 1].db == Payments.SeedDb(db, target, amount, key).0
    ensures
      var run := AloneRun(db, Start(Deposit(target, amount, supported, key)), 3);
      Run(run) && run[|run| - 1].db == Payments.DepositDb(db, target, amount, supported, key).0
  {
    hide AloneRun, Run, GoodDb, AllOwned, Solvent, Transfers.TransferDb, Payments.SeedDb, Payments.DepositDb;
    IsRun(db, Transfer(source, target, amount, key), 5);
    IsRun(db, Seed(target, amount, key), 3);
    IsRun(db, Deposit(target, amount, supported, key), 3);
    TransferRun(db, source, target, amount, key);
    SeedRun(db, target, amount, key);
    DepositRun(db, target, amount, supported, key);
  }
}
