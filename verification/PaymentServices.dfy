/**
 Deposits, seeds and withdrawals as their callers see them, one call at a time.
 */
module PaymentServices {
  import opened Wrappers
  import opened Ledger
  import opened Events
  import opened Postings
  import Saga = WithdrawalSaga

  datatype Error = AccountNotFound | InsufficientBalance | IdempotencyConflict | ConstraintViolated

  /* ---- What one call does to the database ---- */

  /** The duplicate of a reference gets the existing row, whatever it asks for. */
  function DepositDb(db: Db, account: AccountId, amount: int, supported: bool, reference: string)
    : (Db, Result<DepositRow, Error>)
  {
    if amount <= 0 then (db, Err(ConstraintViolated))
    else if reference in db.deposits then (db, Ok(db.deposits[reference]))
    else
      var accepted := account != SYSTEM_ACCOUNT && supported && account in db.accounts && db.accounts[account];
      var after := DepositEffect(db, account, amount, reference, accepted).value;
      (after, Ok(after.deposits[reference]))
  }

  /** Replies with the new balance. Any violated constraint is first looked up as a taken key, and raised only if the
      key is free. */
  function SeedDb(db: Db, account: AccountId, amount: int, key: string): (Db, Result<int, Error>) {
    var named := Filter(db.legs, ByKey(SeedKey(key)));
    if account !in db.accounts then (db, Err(AccountNotFound))
    else if named != [] then
      (db, if named[0].account != account || named[0].amount != amount then Err(IdempotencyConflict)
           else Ok(Balance(db.legs, account)))
    else if amount <= 0 then (db, Err(ConstraintViolated))
    else
      var after := SeedEffect(db, account, amount, key).value;
      (after, Ok(Balance(after.legs, account)))
  }

  /** A withdrawal request; the destination stands for its type and details. */
  datatype Request = Request(account: AccountId, amount: int, destination: nat)

  datatype Response = Response(withdrawal: nat, account: AccountId, amount: int, row: Saga.Row)

  datatype CacheEntry = CacheEntry(request: Request, response: Response)

  /** Times of the reservation, the mark and the last commit. */
  datatype Times = Times(reserved: nat, marked: nat, ended: nat)

  datatype WithdrawalTables = WithdrawalTables(db: Db, rows: map<string, Saga.Row>, cache: map<string, CacheEntry>)

  function ResponseFor(st: WithdrawalTables, key: string): Response
    requires key in st.db.withdrawals && key in st.rows
  {
    var w := st.db.withdrawals[key];
    Response(w.id, w.account, w.amount, st.rows[key])
  }

  /** TX 1 and the cache write after it: what is cached is the pending response. */
  function ReserveTables(st: WithdrawalTables, req: Request, key: string, t: Times): WithdrawalTables
    requires req.amount > 0
  {
    var reserved := WithdrawalTables(
      ReserveEffect(st.db, req.account, req.amount, key).value,
      st.rows[key := Saga.Row(Saga.Pending, None, None, None, None, t.reserved)],
      st.cache);
    reserved.(cache := st.cache[key := CacheEntry(req, ResponseFor(reserved, key))])
  }

  /** TX 2, the rail, and TX 3a or 3b. */
  function FinishTables(st: WithdrawalTables, key: string, outcome: Saga.SendOutcome, t: Times): WithdrawalTables
    requires key in st.db.withdrawals && key in st.rows
  {
    var marked := Saga.SubmittedRow(st.rows[key], t.marked);
    match outcome
    case Accepted(reference) =>
      st.(db := Append(st.db, NoPosting, WithdrawalCompleted(st.db.withdrawals[key].id)),
          rows := st.rows[key := Saga.CompletedRow(marked, reference, t.ended)])
    case Refused(code) =>
      st.(db := ReverseEffect(st.db, key).value, rows := st.rows[key := Saga.FailedRow(marked, code, t.ended)])
  }

  function WithdrawTables(st: WithdrawalTables, req: Request, key: string, outcome: Saga.SendOutcome, t: Times)
    : (WithdrawalTables, Result<Response, Error>)
    requires st.rows.Keys == st.db.withdrawals.Keys
  {
    if key in st.cache then
      (st, if st.cache[key].request != req then Err(IdempotencyConflict) else Ok(st.cache[key].response))
    else if req.account == SYSTEM_ACCOUNT || req.account !in st.db.accounts then (st, Err(AccountNotFound))
    else if Balance(st.db.legs, req.account) < req.amount then (st, Err(InsufficientBalance))
    else if key in st.db.withdrawals then (st, Ok(ResponseFor(st, key)))
    else if req.amount <= 0 then (st, Err(ConstraintViolated))
    else
      var done := FinishTables(ReserveTables(st, req, key, t), key, outcome, t);
      (done, Ok(ResponseFor(done, key)))
  }

  /* ---- The services ---- */

  class Services {
    var db: Db
    var rows: map<string, Saga.Row>
    var cache: map<string, CacheEntry>

    ghost function Tables(): WithdrawalTables
      reads this
    {
      WithdrawalTables(db, rows, cache)
    }

    method SimulateDeposit(account: AccountId, amount: int, supported: bool, reference: string)
      returns (reply: Result<DepositRow, Error>)
      modifies this`db
      ensures (db, reply) == DepositDb(old(db), account, amount, supported, reference)
    {
      if amount <= 0 {
        return Err(ConstraintViolated);
      }
      if reference in db.deposits {
        return Ok(db.deposits[reference]);
      }
      var deposit := DepositRow(db.nextId, account, amount, RecordPending);
      var rejected := false;
      if account == SYSTEM_ACCOUNT {
        rejected := true;
      } else if !supported {
        rejected := true;
      }
      if !rejected {
        if account !in db.accounts {
          rejected := true;
        } else if !db.accounts[account] {
          rejected := true;
        }
      }
      if rejected {
        deposit := deposit.(status := RecordFailed);
        db := Append(db, NoPosting, DepositRejected(deposit.id)).(deposits := db.deposits[reference := deposit]);
        return Ok(deposit);
      }
      deposit := deposit.(status := RecordCompleted);
      db := Append(db, Posting(SYSTEM_ACCOUNT, account, amount, DepositEntry, Some(deposit.id), None),
                   DepositCompleted(deposit.id, account, amount))
            .(deposits := db.deposits[reference := deposit]);
      return Ok(deposit);
    }

    method SeedAccount(account: AccountId, amount: int, key: string) returns (reply: Result<int, Error>)
      modifies this`db
      ensures (db, reply) == SeedDb(old(db), account, amount, key)
    {
      if account !in db.accounts {
        return Err(AccountNotFound);
      }
      var named := Filter(db.legs, ByKey(SeedKey(key)));
      if named != [] {
        if named[0].account != account || named[0].amount != amount {
          return Err(IdempotencyConflict);
        }
      } else if amount <= 0 {
        return Err(ConstraintViolated);
      } else {
        db := Append(db, Posting(SYSTEM_ACCOUNT, account, amount, SeedEntry, None, Some(SeedKey(key))),
                     SeedCompleted(account, amount));
      }
      return Ok(Balance(db.legs, account));
    }

    /** `create_withdrawal` in a process that survives to its end, with the rail (or the breaker) answering
        `outcome`. */
    method CreateWithdrawal(req: Request, key: string, outcome: Saga.SendOutcome, t: Times)
      returns (reply: Result<Response, Error>)
      requires rows.Keys == db.withdrawals.Keys
      modifies this
      ensures (Tables(), reply) == WithdrawTables(old(Tables()), req, key, outcome, t)
    {
      if key in cache {
        if cache[key].request != req {
          return Err(IdempotencyConflict);
        }
        return Ok(cache[key].response);
      }
      if req.account == SYSTEM_ACCOUNT || req.account !in db.accounts {
        return Err(AccountNotFound);
      }
      var balance := Balance(db.legs, req.account);
      if balance < req.amount {
        return Err(InsufficientBalance);
      }
      if key in db.withdrawals {
        var w := db.withdrawals[key];
        return Ok(Response(w.id, w.account, w.amount, rows[key]));
      }
      if req.amount <= 0 {
        return Err(ConstraintViolated);
      }
      Reserve(req, key, t);
      Drive(key, outcome, t);
      var w := db.withdrawals[key];
      return Ok(Response(w.id, w.account, w.amount, rows[key]));
    }

    /** TX 1, and the cached pending response. */
    method Reserve(req: Request, key: string, t: Times)
      requires req.amount > 0 && rows.Keys == db.withdrawals.Keys
      modifies this
      ensures Tables() == ReserveTables(old(Tables()), req, key, t) && rows.Keys == db.withdrawals.Keys
    {
      var id := db.nextId;
      var row := Saga.Row(Saga.Pending, None, None, None, None, t.reserved);
      db := Append(db, Posting(req.account, SYSTEM_ACCOUNT, req.amount, WithdrawalEntry, Some(id), None),
                   WithdrawalInitiated(id, req.account, req.amount))
            .(withdrawals := db.withdrawals[key := WithdrawalRow(id, req.account, req.amount)]);
      rows := rows[key := row];
      cache := cache[key := CacheEntry(req, Response(id, req.account, req.amount, row))];
    }

    /** TX 2, the rail call, and what it leads to. */
    method Drive(key: string, outcome: Saga.SendOutcome, t: Times)
      requires key in rows && key in db.withdrawals
      modifies this`db, this`rows
      ensures Tables() == FinishTables(old(Tables()), key, outcome, t)
    {
      var row := rows[key];
      rows := rows[key := row.(status := Saga.Submitted, submittedAt := Some(t.marked), updatedAt := t.marked)];
      match outcome {
        case Accepted(reference) => Complete(key, reference, t.ended);
        case Refused(code) => Compensate(key, code, t.ended);
      }
      assert old(rows)[key := rows[key]] == rows;
    }

    /** TX 3a. */
    method Complete(key: string, reference: nat, now: nat)
      requires key in rows && key in db.withdrawals
      modifies this`db, this`rows
      ensures db == Append(old(db), NoPosting, WithdrawalCompleted(old(db).withdrawals[key].id))
      ensures rows == old(rows)[key := Saga.CompletedRow(old(rows)[key], reference, now)]
    {
      var row := rows[key];
      rows := rows[key := row.(status := Saga.Completed, externalReference := Some(reference), completedAt := Some(now),
                               updatedAt := now)];
      db := Append(db, NoPosting, WithdrawalCompleted(db.withdrawals[key].id));
    }

    /** TX 3b. */
    method Compensate(key: string, code: Saga.FailureCode, now: nat)
      requires key in rows && key in db.withdrawals
      modifies this`db, this`rows
      ensures db == ReverseEffect(old(db), key).value
      ensures rows == old(rows)[key := Saga.FailedRow(old(rows)[key], code, now)]
    {
      var w, txn := db.withdrawals[key], db.nextId + 1;
      db := db.(legs := db.legs
                        + [Leg(txn, SYSTEM_ACCOUNT, Debit, w.amount, ReversalEntry, Some(w.id), None),
                           Leg(txn, w.account, Credit, w.amount, ReversalEntry, Some(w.id), Some(ReversalKey(key)))]);
      var row := rows[key];
      rows := rows[key := row.(status := Saga.Failed, failureCode := Some(code), completedAt := Some(now),
                               updatedAt := now)];
      var event := Event(Fresh(db.nextId + 2), WithdrawalFailed(w.id, w.account, w.amount));
      db := db.(outbox := db.outbox + [Postings.Entry(event, txn)],
                nextId := db.nextId + 3);
    }
  }

  /* ---- What callers get ---- */

  /** A deposit reference is decided once: whatever a later call with it asks for, it changes nothing and gets that
      row (or, for an amount that no row may have, an error); and the money moved was the first call's, if it was
      accepted. */
  lemma DepositOnce(db: Db, account: AccountId, amount: int, supported: bool, reference: string, a: AccountId,
                    later: Db, account': AccountId, amount': int, supported': bool)
    requires amount > 0 && a != SYSTEM_ACCOUNT
    requires reference !in db.deposits
    requires reference in later.deposits
             && later.deposits[reference] == DepositDb(db, account, amount, supported, reference).0.deposits[reference]
    ensures
      var (after, reply) := DepositDb(db, account, amount, supported, reference);
      && (reply.value.status.RecordCompleted? || reply.value.status.RecordFailed?)
      && reply == Ok(DepositRow(db.nextId, account, amount, reply.value.status))
      && DepositDb(later, account', amount', supported', reference)
         == (later, if amount' > 0 then reply else Err(ConstraintViolated))
      && Balance(after.legs, a)
         == Balance(db.legs, a) + (if a == account && reply.value.status.RecordCompleted? then amount else 0)
      && (reply.value.status.RecordCompleted? <==>
            account != SYSTEM_ACCOUNT && supported && account in db.accounts && db.accounts[account])
  {
    PostingMovesMoney(db.legs, db.nextId + 1, SYSTEM_ACCOUNT, account, amount, DepositEntry, Some(db.nextId), None);
    assert db.legs + [] == db.legs;
    hide Balance;
  }

  lemma SeedLeg(db: Db, account: AccountId, amount: int, key: string)
    requires account in db.accounts && amount > 0 && Filter(db.legs, ByKey(SeedKey(key))) == []
    ensures
      var after := SeedDb(db, account, amount, key).0;
      && |Filter(after.legs, ByKey(SeedKey(key)))| == 1
      && Filter(after.legs, ByKey(SeedKey(key)))[0].account == account
      && Filter(after.legs, ByKey(SeedKey(key)))[0].amount == amount
  {
    FilterPosting(db.legs, db.nextId + 1, SYSTEM_ACCOUNT, account, amount, SeedEntry, None, Some(SeedKey(key)),
                  ByKey(SeedKey(key)));
    hide Balance, Filter;
  }

  lemma FirstSeed(db: Db, account: AccountId, amount: int, key: string)
    requires account in db.accounts && amount > 0 && account != SYSTEM_ACCOUNT
    requires Filter(db.legs, ByKey(SeedKey(key))) == []
    ensures
      var (after, reply) := SeedDb(db, account, amount, key);
      && reply == Ok(Balance(db.legs, account) + amount) && Balance(after.legs, account) == reply.value
      && |Filter(after.legs, ByKey(SeedKey(key)))| == 1
      && Filter(after.legs, ByKey(SeedKey(key)))[0].account == account
      && Filter(after.legs, ByKey(SeedKey(key)))[0].amount == amount
  {
    SeedLeg(db, account, amount, key);
    PairMovesBalance(db.legs, db.nextId + 1, SYSTEM_ACCOUNT, account, amount, SeedEntry, None, Some(SeedKey(key)),
                     account);
    hide Balance, Filter;
  }

  /** A seed key credits once: no later call with it moves anything; the same request gets the balance of the day. */
  lemma SeedOnce(db: Db, account: AccountId, amount: int, key: string, later: Db, account': AccountId, amount': int)
    requires account in db.accounts && amount > 0 && account != SYSTEM_ACCOUNT
    requires Filter(db.legs, ByKey(SeedKey(key))) == []
    requires Filter(later.legs, ByKey(SeedKey(key)))
             == Filter(SeedDb(db, account, amount, key).0.legs, ByKey(SeedKey(key)))
    ensures
      var (after, reply) := SeedDb(db, account, amount, key);
      && reply == Ok(Balance(db.legs, account) + amount) && Balance(after.legs, account) == reply.value
      && SeedDb(later, account', amount', key)
         == (later, if account' !in later.accounts then Err(AccountNotFound)
                    else if account' == account && amount' == amount then Ok(Balance(later.legs, account))
                    else Err(IdempotencyConflict))
  {
    FirstSeed(db, account, amount, key);
    SeedAgain(later, account', amount', key);
    hide Balance, Filter, SeedDb;
  }

  lemma SeedAgain(later: Db, account: AccountId, amount: int, key: string)
    requires Filter(later.legs, ByKey(SeedKey(key))) != []
    ensures
      var leg := Filter(later.legs, ByKey(SeedKey(key)))[0];
      SeedDb(later, account, amount, key)
      == (later, if account !in later.accounts then Err(AccountNotFound)
                 else if leg.account == account && leg.amount == amount then Ok(Balance(later.legs, account))
                 else Err(IdempotencyConflict))
  {
    hide Balance, Filter;
  }

  /** A deposit under a new reference is refused only for an amount that no row may have, a seed under a free key for a
      missing account or such an amount, and a refusal changes nothing; otherwise one event tells what was decided, and
      a rejected deposit writes its row and posts no leg. */
  lemma CreditFirstUse(db: Db, account: AccountId, amount: int, supported: bool, key: string)
    requires key !in db.deposits && Filter(db.legs, ByKey(SeedKey(key))) == []
    ensures
      var (after, reply) := DepositDb(db, account, amount, supported, key);
      var n := db.nextId;
      var accepted := account in db.accounts && db.accounts[account] && account != SYSTEM_ACCOUNT && supported;
      var row := DepositRow(n, account, amount, if accepted then RecordCompleted else RecordFailed);
      var told := if accepted then DepositCompleted(n, account, amount) else DepositRejected(n);
      if amount <= 0 then after == db && reply == Err(ConstraintViolated)
      else
        && reply == Ok(row) && after.deposits == db.deposits[key := row]
        && after.outbox == db.outbox + [Postings.Entry(Event(Fresh(n + 2), told), n + 1)]
        && (!accepted ==> after.legs == db.legs)
    ensures
      var (after, reply) := SeedDb(db, account, amount, key);
      var n := db.nextId;
      if account !in db.accounts then after == db && reply == Err(AccountNotFound)
      else if amount <= 0 then after == db && reply == Err(ConstraintViolated)
      else
        && reply.Ok?
        && after.outbox == db.outbox + [Postings.Entry(Event(Fresh(n + 2), SeedCompleted(account, amount)), n + 1)]
  {
    hide Balance, Filter, Pair;
    assert db.legs + [] == db.legs;
  }

  /** A withdrawal under a key that neither Redis nor the table knows goes through if and only if its account is an
      existing user account whose balance covers a positive amount; refused, it changes nothing, and the first failing
      check names the error. */
  lemma WithdrawalRefused(st: WithdrawalTables, req: Request, key: string, outcome: Saga.SendOutcome, t: Times)
    requires st.rows.Keys == st.db.withdrawals.Keys && key !in st.cache && key !in st.db.withdrawals
    ensures
      var (after, reply) := WithdrawTables(st, req, key, outcome, t);
      var user := req.account in st.db.accounts && req.account != SYSTEM_ACCOUNT;
      && (reply.Ok? <==> user && 0 < req.amount <= Balance(st.db.legs, req.account))
      && (key in after.db.withdrawals <==> reply.Ok?)
      && (reply.Err? ==> after == st)
      && (!user ==> reply == Err(AccountNotFound))
      && (user && Balance(st.db.legs, req.account) < req.amount ==> reply == Err(InsufficientBalance))
      && (user && req.amount <= 0 && req.amount <= Balance(st.db.legs, req.account) ==>
            reply == Err(ConstraintViolated))
  {
    hide Balance;
  }

  /** What the two commits of a new withdrawal write beside the ledger. */
  lemma WithdrawalWrites(st: WithdrawalTables, req: Request, key: string, outcome: Saga.SendOutcome, t: Times)
    requires req.amount > 0
    ensures
      var after := FinishTables(ReserveTables(st, req, key, t), key, outcome, t);
      var n := st.db.nextId;
      var row :=
        match outcome
        case Accepted(reference) =>
          Saga.Row(Saga.Completed, Some(reference), None, Some(t.marked), Some(t.ended), t.ended)
        case Refused(code) => Saga.Row(Saga.Failed, None, Some(code), Some(t.marked), Some(t.ended), t.ended);
      var ended :=
        if outcome.Accepted? then WithdrawalCompleted(n) else WithdrawalFailed(n, req.account, req.amount);
      && key in after.rows && key in after.db.withdrawals
      && after.rows == st.rows[key := row]
      && after.db.withdrawals == st.db.withdrawals[key := WithdrawalRow(n, req.account, req.amount)]
      && after.db.outbox
         == st.db.outbox
            + [Postings.Entry(Event(Fresh(n + 2), WithdrawalInitiated(n, req.account, req.amount)), n + 1),
               Postings.Entry(Event(Fresh(n + 5), ended), n + 4)]
  {
    var reserved := ReserveTables(st, req, key, t);
    assert reserved.rows[key] == Saga.Row(Saga.Pending, None, None, None, None, t.reserved);
    var after := FinishTables(reserved, key, outcome, t);
    assert after.rows == st.rows[key := after.rows[key]];
    hide LegsFor;
  }

  /** A new withdrawal leaves its account down by the amount if the rail accepted, and as it was if not; no other user
      account moves; the record is the request's, the row says which way it went, and one event tells each half. */
  lemma WithdrawalMovesMoney(st: WithdrawalTables, req: Request, key: string, outcome: Saga.SendOutcome, t: Times,
                             a: AccountId)
    requires st.rows.Keys == st.db.withdrawals.Keys && key !in st.cache && key !in st.db.withdrawals
    requires req.account in st.db.accounts && req.account != SYSTEM_ACCOUNT && a != SYSTEM_ACCOUNT
    requires 0 < req.amount <= Balance(st.db.legs, req.account)
    ensures
      var (after, reply) := WithdrawTables(st, req, key, outcome, t);
      var n := st.db.nextId;
      var row :=
        match outcome
        case Accepted(reference) =>
          Saga.Row(Saga.Completed, Some(reference), None, Some(t.marked), Some(t.ended), t.ended)
        case Refused(code) => Saga.Row(Saga.Failed, None, Some(code), Some(t.marked), Some(t.ended), t.ended);
      var ended :=
        if outcome.Accepted? then WithdrawalCompleted(n) else WithdrawalFailed(n, req.account, req.amount);
      && reply == Ok(Response(n, req.account, req.amount, row))
      && after.rows == st.rows[key := row]
      && after.db.withdrawals == st.db.withdrawals[key := WithdrawalRow(n, req.account, req.amount)]
      && after.db.outbox
         == st.db.outbox
            + [Postings.Entry(Event(Fresh(n + 2), WithdrawalInitiated(n, req.account, req.amount)), n + 1),
               Postings.Entry(Event(Fresh(n + 5), ended), n + 4)]
      && Balance(after.db.legs, a)
         == Balance(st.db.legs, a) - (if a == req.account && outcome.Accepted? then req.amount else 0)
  {
    WithdrawalWrites(st, req, key, outcome, t);
    WithdrawalBalances(st, req, key, outcome, t, a);
    hide Balance, Append, ReserveTables, FinishTables;
  }

  lemma WithdrawalBalances(st: WithdrawalTables, req: Request, key: string, outcome: Saga.SendOutcome, t: Times,
                           a: AccountId)
    requires req.amount > 0 && a != SYSTEM_ACCOUNT
    ensures
      Balance(FinishTables(ReserveTables(st, req, key, t), key, outcome, t).db.legs, a)
      == Balance(st.db.legs, a) - (if a == req.account && outcome.Accepted? then req.amount else 0)
  {
    hide Balance, Pair;
    PairMovesBalance(st.db.legs, st.db.nextId + 1, req.account, SYSTEM_ACCOUNT, req.amount, WithdrawalEntry,
                     Some(st.db.nextId), None, a);
    var reserved := ReserveTables(st, req, key, t);
    PairMovesBalance(reserved.db.legs, reserved.db.nextId + 1, SYSTEM_ACCOUNT, req.account, req.amount, ReversalEntry,
                     Some(st.db.nextId), Some(ReversalKey(key)), a);
    assert reserved.db.legs + [] == reserved.db.legs;
  }

  /** No call overdraws a user account, whatever it asks for. */
  lemma WithdrawalSolvent(st: WithdrawalTables, req: Request, key: string, outcome: Saga.SendOutcome, t: Times)
    requires st.rows.Keys == st.db.withdrawals.Keys && Solvent(st.db.legs)
    ensures Solvent(WithdrawTables(st, req, key, outcome, t).0.db.legs)
  {
    var (after, reply) := WithdrawTables(st, req, key, outcome, t);
    forall a | a != SYSTEM_ACCOUNT ensures Balance(after.db.legs, a) >= 0 {
      if key !in st.cache && key !in st.db.withdrawals {
        WithdrawalRefused(st, req, key, outcome, t);
        if reply.Ok? { WithdrawalMovesMoney(st, req, key, outcome, t, a); }
      }
      hide WithdrawTables, Balance;
    }
  }

  /** Neither does a deposit or a seed. */
  lemma CreditsSolvent(db: Db, account: AccountId, amount: int, supported: bool, key: string)
    requires Solvent(db.legs)
    ensures Solvent(DepositDb(db, account, amount, supported, key).0.legs)
    ensures Solvent(SeedDb(db, account, amount, key).0.legs)
  {
    hide Balance, Filter, Pair;
    assert db.legs + [] == db.legs;
    forall a | a != SYSTEM_ACCOUNT
      ensures Balance(DepositDb(db, account, amount, supported, key).0.legs, a) >= 0
      ensures Balance(SeedDb(db, account, amount, key).0.legs, a) >= 0
    {
      PairMovesBalance(db.legs, db.nextId + 1, SYSTEM_ACCOUNT, account, amount, DepositEntry, Some(db.nextId), None, a);
      PairMovesBalance(db.legs, db.nextId + 1, SYSTEM_ACCOUNT, account, amount, SeedEntry, None, Some(SeedKey(key)), a);
      assert Balance(db.legs, a) >= 0;
    }
  }

  /* ---- Histories of withdrawal calls ---- */

  /** Calls with any keys, and entries lost from Redis. */
  datatype Op =
    | Withdraw(req: Request, key: string, outcome: Saga.SendOutcome, t: Times)
    | Lose(keys: set<string>)

  /** Row for row and row id for row id, the tables fit together. */
  ghost predicate Tidy(st: WithdrawalTables) {
    && st.rows.Keys == st.db.withdrawals.Keys
    && forall k :: k in st.db.withdrawals ==> st.db.withdrawals[k].id < st.db.nextId
  }

  ghost function After(st: WithdrawalTables, ops: seq<Op>): (after: WithdrawalTables)
    requires Tidy(st)
    ensures Tidy(after)
  {
    if ops == [] then st
    else
      var before := After(st, ops[..|ops| - 1]);
      match ops[|ops| - 1]
      case Withdraw(req, key, outcome, t) =>
        CallKeepsTidy(before, req, key, outcome, t);
        WithdrawTables(before, req, key, outcome, t).0
      case Lose(keys) => before.(cache := before.cache - keys)
  }

  lemma CallKeepsTidy(st: WithdrawalTables, req: Request, key: string, outcome: Saga.SendOutcome, t: Times)
    requires Tidy(st)
    ensures Tidy(WithdrawTables(st, req, key, outcome, t).0)
  {
    hide Balance, Saga.CompletedRow, Saga.FailedRow, Saga.SubmittedRow;
  }

  /** What is committed for the key: its record, the saga's columns, and the legs that refer to it. */
  ghost predicate SameWithdrawal(st: WithdrawalTables, after: WithdrawalTables, key: string)
    requires key in st.db.withdrawals && key in st.rows
  {
    && key in after.db.withdrawals && after.db.withdrawals[key] == st.db.withdrawals[key]
    && key in after.rows && after.rows[key] == st.rows[key]
    && Filter(after.db.legs, ByReference(st.db.withdrawals[key].id))
      == Filter(st.db.legs, ByReference(st.db.withdrawals[key].id))
  }

  lemma ReserveLeaves(st: WithdrawalTables, req: Request, other: string, t: Times, key: string)
    requires Tidy(st) && key in st.db.withdrawals && other !in st.db.withdrawals && req.amount > 0
    ensures SameWithdrawal(st, ReserveTables(st, req, other, t), key)
  {
    FilterPosting(st.db.legs, st.db.nextId + 1, req.account, SYSTEM_ACCOUNT, req.amount, WithdrawalEntry,
                  Some(st.db.nextId), None,
                  ByReference(st.db.withdrawals[key].id));
    hide Filter;
  }

  lemma FinishLeaves(st: WithdrawalTables, other: string, outcome: Saga.SendOutcome, t: Times, key: string)
    requires key in st.db.withdrawals && key in st.rows && other in st.db.withdrawals && other in st.rows
             && other != key
    requires st.db.withdrawals[other].id != st.db.withdrawals[key].id
    ensures SameWithdrawal(st, FinishTables(st, other, outcome, t), key)
  {
    var w := st.db.withdrawals[other];
    FilterPosting(st.db.legs, st.db.nextId + 1, SYSTEM_ACCOUNT, w.account, w.amount, ReversalEntry, Some(w.id),
                  Some(ReversalKey(other)), ByReference(st.db.withdrawals[key].id));
    assert st.db.legs + [] == st.db.legs;
    hide Filter, Saga.CompletedRow, Saga.FailedRow, Saga.SubmittedRow;
  }

  /** One call, with this key or another, cached or not. */
  lemma CallLeaves(st: WithdrawalTables, req: Request, other: string, outcome: Saga.SendOutcome, t: Times, key: string)
    requires Tidy(st) && key in st.db.withdrawals
    ensures SameWithdrawal(st, WithdrawTables(st, req, other, outcome, t).0, key)
    ensures other == key ==> WithdrawTables(st, req, other, outcome, t).0 == st
  {
    if other !in st.db.withdrawals && req.amount > 0 {
      ReserveLeaves(st, req, other, t, key);
      var reserved := ReserveTables(st, req, other, t);
      assert reserved.db.withdrawals[other].id == st.db.nextId;
      FinishLeaves(reserved, other, outcome, t, key);
    }
    hide ReserveTables, FinishTables, Balance, Filter;
  }

  /** One debit per key: once the key is in the table, no history of calls, with this key or others, changes its record,
      its row or its legs. */
  lemma {:induction false} WithdrawalOnce(st: WithdrawalTables, ops: seq<Op>, key: string)
    requires Tidy(st) && key in st.db.withdrawals
    ensures SameWithdrawal(st, After(st, ops), key)
  {
    hide WithdrawTables, Filter;
    if ops != [] {
      var before, op := ops[..|ops| - 1], ops[|ops| - 1];
      WithdrawalOnce(st, before, key);
      if op.Withdraw? { CallLeaves(After(st, before), op.req, op.key, op.outcome, op.t, key); }
    }
  }

  /** Nobody is overdrawn after any history of calls. */
  lemma {:induction false} HistorySolvent(st: WithdrawalTables, ops: seq<Op>)
    requires Tidy(st) && Solvent(st.db.legs)
    ensures Solvent(After(st, ops).db.legs)
  {
    hide WithdrawTables, Solvent;
    if ops != [] {
      var before, op := ops[..|ops| - 1], ops[|ops| - 1];
      HistorySolvent(st, before);
      if op.Withdraw? { WithdrawalSolvent(After(st, before), op.req, op.key, op.outcome, op.t); }
    }
  }

  lemma CallLeavesEntry(st: WithdrawalTables, req: Request, other: string, outcome: Saga.SendOutcome, t: Times,
                        key: string)
    requires Tidy(st) && key in st.db.withdrawals
    ensures
      var after := WithdrawTables(st, req, other, outcome, t).0;
      (key in after.cache <==> key in st.cache) && (key in st.cache ==> after.cache[key] == st.cache[key])
  {
    hide Balance;
  }

  /** What is cached for a key in the table is never replaced, only lost. */
  lemma {:induction false} EntryStays(st: WithdrawalTables, ops: seq<Op>, key: string)
    requires Tidy(st) && key in st.db.withdrawals
    ensures key in After(st, ops).cache ==> key in st.cache && After(st, ops).cache[key] == st.cache[key]
  {
    hide WithdrawTables, Filter;
    if ops != [] {
      var before, op := ops[..|ops| - 1], ops[|ops| - 1];
      EntryStays(st, before, key);
      WithdrawalOnce(st, before, key);
      if op.Withdraw? { CallLeavesEntry(After(st, before), op.req, op.key, op.outcome, op.t, key); }
    }
  }

  /** After a first use and any history, the key moves nothing more. While its entry lives, the same request gets the
      response of the reservation and any other a conflict; once it is lost, any request that names a user account and
      no more than its balance gets the row as the first call left it, whatever it asks for. */
  lemma WithdrawalReplay(st: WithdrawalTables, req: Request, key: string, outcome: Saga.SendOutcome, t: Times,
                         ops: seq<Op>, other: Request, outcome': Saga.SendOutcome, t': Times)
    requires Tidy(st) && key !in st.cache && key !in st.db.withdrawals
    requires WithdrawTables(st, req, key, outcome, t).1.Ok?
    ensures Tidy(WithdrawTables(st, req, key, outcome, t).0)
    ensures
      var (first, reply) := WithdrawTables(st, req, key, outcome, t);
      var later := After(first, ops);
      var (after, answer) := WithdrawTables(later, other, key, outcome', t');
      && after == later
      && (key in later.cache ==>
            answer == if other == req then
                        Ok(Response(st.db.nextId, req.account, req.amount,
                                    Saga.Row(Saga.Pending, None, None, None, None, t.reserved)))
                      else Err(IdempotencyConflict))
      && (key !in later.cache ==>
            answer == if other.account == SYSTEM_ACCOUNT || other.account !in later.db.accounts then
                        Err(AccountNotFound)
                      else if Balance(later.db.legs, other.account) < other.amount then Err(InsufficientBalance)
                      else Ok(Response(st.db.nextId, req.account, req.amount, reply.value.row)))
  {
    CallKeepsTidy(st, req, key, outcome, t);
    var (first, reply) := WithdrawTables(st, req, key, outcome, t);
    FirstEntry(st, req, key, outcome, t);
    EntryStays(first, ops, key);
    WithdrawalOnce(first, ops, key);
    hide Balance, Filter, After, ReserveTables, FinishTables;
  }

  lemma FirstEntry(st: WithdrawalTables, req: Request, key: string, outcome: Saga.SendOutcome, t: Times)
    requires Tidy(st) && key !in st.cache && key !in st.db.withdrawals
    requires WithdrawTables(st, req, key, outcome, t).1.Ok?
    ensures
      var (first, reply) := WithdrawTables(st, req, key, outcome, t);
      && key in first.db.withdrawals && key in first.rows && first.rows[key] == reply.value.row
      && first.db.withdrawals[key] == WithdrawalRow(st.db.nextId, req.account, req.amount)
      && key in first.cache
      && first.cache[key]
         == CacheEntry(req, Response(st.db.nextId, req.account, req.amount,
                                     Saga.Row(Saga.Pending, None, None, None, None, t.reserved)))
  {
    hide Balance;
  }
}
