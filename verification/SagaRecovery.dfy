/**
 The recovery worker over the whole withdrawals table: claim a batch, then resolve each withdrawal in its own
 transaction.
 */
module SagaRecovery {
  import opened Wrappers
  import opened Ledger
  import opened Events
  import opened Postings
  import opened WithdrawalSaga

  const BATCH_LIMIT: nat := 20

  /** The committed tables the worker reads and writes; `rows` has the changing columns of `db.withdrawals`. */
  datatype Tables = Tables(db: Db, rows: map<string, Row>)

  /** What breaker, rail and clock answer while one withdrawal is resolved; Raises is any other exception. */
  datatype Answer =
    | Answer(allowed: bool, send: SendOutcome, query: QueryOutcome, started: nat, finished: nat)
    | Raises

  function TermsOf(db: Db, key: string): Terms
    requires key in db.withdrawals
  {
    Terms(db.withdrawals[key].id, key, db.withdrawals[key].account, db.withdrawals[key].amount)
  }

  ghost predicate Valid(st: Tables) {
    && st.rows.Keys == st.db.withdrawals.Keys
    && forall k :: |Filter(st.db.legs, ByKey(ReversalKey(k)))| <= 1
  }

  /* ---- What one resolution commits ---- */

  function CompleteTables(st: Tables, key: string, row: Row, reference: nat, now: nat): Tables
    requires key in st.db.withdrawals
  {
    Tables(Append(st.db, NoPosting, WithdrawalCompleted(st.db.withdrawals[key].id)),
           st.rows[key := RecoveredRow(row, reference, now)])
  }

  /** None: rolled back by the unique reversal key. */
  function CompensateTables(st: Tables, key: string, row: Row, code: FailureCode, now: nat): Option<Tables>
    requires key in st.db.withdrawals
  {
    if Filter(st.db.legs, ByKey(ReversalKey(key))) != [] then None
    else Some(Tables(ReverseEffect(st.db, key).value, st.rows[key := FailedRow(row, code, now)]))
  }

  predicate TimedOut(row: Row, a: Answer)
    requires a.Answer?
  {
    row.updatedAt + HARD_TIMEOUT < a.started
  }

  function ResolvePending(st: Tables, key: string, a: Answer): Option<Tables>
    requires key in st.rows && key in st.db.withdrawals && a.Answer?
  {
    if !a.allowed then CompensateTables(st, key, st.rows[key], CircuitOpen, a.finished)
    else
      var marked := SubmittedRow(st.rows[key], a.started);
      match a.send
      case Accepted(reference) => Some(CompleteTables(st, key, marked, reference, a.finished))
      case Refused(code) => CompensateTables(st, key, marked, code, a.finished)
  }

  function ResolveSubmitted(st: Tables, key: string, a: Answer): Option<Tables>
    requires key in st.rows && key in st.db.withdrawals && a.Answer?
  {
    var row := st.rows[key];
    var giveUp := if TimedOut(row, a) then CompensateTables(st, key, row, Timeout, a.finished) else Some(st);
    if row.externalReference.None? then giveUp
    else
      match a.query
      case ReportsCompleted => Some(CompleteTables(st, key, row, row.externalReference.value, a.finished))
      case ReportsFailed(code) => CompensateTables(st, key, row, code, a.finished)
      case ReportsOther => Some(st)
      case QueryRaises => giveUp
  }

  function Resolve(st: Tables, key: string, a: Answer): Tables {
    if key !in st.rows || key !in st.db.withdrawals || Terminal(st.rows[key]) || a.Raises? then st
    else
      var result := if st.rows[key].status.Pending? then ResolvePending(st, key, a) else ResolveSubmitted(st, key, a);
      if result.Some? then result.value else st
  }

  function ResolveAll(st: Tables, claimed: seq<string>, answers: string -> Answer): Tables {
    if claimed == [] then st
    else
      var last := claimed[|claimed| - 1];
      Resolve(ResolveAll(st, claimed[..|claimed| - 1], answers), last, answers(last))
  }

  function Stuck(rows: map<string, Row>, now: nat): set<string> {
    set k | k in rows && !Terminal(rows[k]) && rows[k].updatedAt + STUCK_THRESHOLD < now
  }

  /** Any batch the unordered, limited query may pick. */
  ghost predicate Batch(rows: map<string, Row>, now: nat, claimed: seq<string>) {
    && (forall k :: k in claimed ==> k in Stuck(rows, now))
    && (forall i, j :: 0 <= i < j < |claimed| ==> claimed[i] != claimed[j])
    && |claimed| == if |Stuck(rows, now)| < BATCH_LIMIT then |Stuck(rows, now)| else BATCH_LIMIT
  }

  /* ---- The unique constraint at commit ---- */

  lemma ReversalCount(db: Db, key: string, other: string)
    requires key in db.withdrawals
    ensures
      var after := ReverseEffect(db, key).value;
      Filter(after.legs, ByKey(ReversalKey(other)))
      == Filter(db.legs, ByKey(ReversalKey(other))) + (if other == key then [after.legs[|after.legs| - 1]] else [])
  {
    var w := db.withdrawals[key];
    FilterPosting(db.legs, db.nextId + 1, SYSTEM_ACCOUNT, w.account, w.amount, ReversalEntry, Some(w.id),
                  Some(ReversalKey(key)), ByKey(ReversalKey(other)));
  }

  lemma ResolveCount(st: Tables, key: string, a: Answer, other: string)
    requires Valid(st) && key in st.rows
    ensures |Filter(Resolve(st, key, a).db.legs, ByKey(ReversalKey(other)))| <= 1
  {
    ReversalCount(st.db, key, other);
    NoPostingLegs(st.db, key);
    assert |Filter(st.db.legs, ByKey(ReversalKey(other)))| <= 1;
    assert key in st.db.withdrawals;
    hide ReverseEffect, Append, Filter, Valid, RecoveredRow, FailedRow, SubmittedRow;
  }

  lemma ResolveValid(st: Tables, key: string, a: Answer)
    requires Valid(st)
    ensures Valid(Resolve(st, key, a))
  {
    if key in st.rows {
      forall other ensures |Filter(Resolve(st, key, a).db.legs, ByKey(ReversalKey(other)))| <= 1 {
        ResolveCount(st, key, a, other);
      }
      NoPostingLegs(st.db, key);
      hide Filter, ReverseEffect, Append, RecoveredRow, FailedRow, SubmittedRow;
    }
  }

  lemma NoPostingLegs(db: Db, key: string)
    requires key in db.withdrawals
    ensures Append(db, NoPosting, WithdrawalCompleted(db.withdrawals[key].id)).legs == db.legs
    ensures Append(db, NoPosting, WithdrawalCompleted(db.withdrawals[key].id)).withdrawals == db.withdrawals
    ensures ReverseEffect(db, key).value.withdrawals == db.withdrawals
  {
    assert db.legs + [] == db.legs;
  }

  /* ---- The worker ---- */

  /** Before commit: what the transaction holds is its result, or breaks the unique reversal key. */
  ghost predicate Pends(before: Tables, after: Tables, key: string, result: Option<Tables>) {
    match result
    case Some(st) => after == st && |Filter(st.db.legs, ByKey(ReversalKey(key)))| <= 1
    case None => |Filter(after.db.legs, ByKey(ReversalKey(key)))| > 1
  }

  class RecoveryWorker {
    var db: Db
    var rows: map<string, Row>

    ghost function Now(): Tables
      reads this
    {
      Tables(db, rows)
    }

    /** Writes the reversal and marks the row failed; the unique key is checked at commit. */
    method Compensate(key: string, code: FailureCode, now: nat)
      requires key in rows && key in db.withdrawals
      modifies this
      ensures db == ReverseEffect(old(db), key).value
      ensures rows == old(rows)[key := FailedRow(old(rows)[key], code, now)]
    {
      var w, txn, event := db.withdrawals[key], db.nextId + 1, Fresh(db.nextId + 2);
      db := db.(legs := db.legs
                        + [Leg(txn, SYSTEM_ACCOUNT, Debit, w.amount, ReversalEntry, Some(w.id), None),
                           Leg(txn, w.account, Credit, w.amount, ReversalEntry, Some(w.id), Some(ReversalKey(key)))]);
      var row := rows[key];
      rows := rows[key := row.(status := Failed, failureCode := Some(code), completedAt := Some(now),
                               updatedAt := now)];
      db := db.(outbox := db.outbox + [Entry(Event(event, WithdrawalFailed(w.id, w.account, w.amount)), txn)],
                nextId := db.nextId + 3);
    }

    method Complete(key: string, reference: nat, now: nat)
      requires key in rows && key in db.withdrawals
      modifies this
      ensures Now() == CompleteTables(old(Now()), key, old(rows)[key], reference, now)
    {
      var row := rows[key];
      row := row.(status := Completed, externalReference := Some(reference), completedAt := Some(now),
                  updatedAt := now);
      if row.submittedAt.None? {
        row := row.(submittedAt := Some(now));
      }
      rows := rows[key := row];
      db := Append(db, NoPosting, WithdrawalCompleted(db.withdrawals[key].id));
    }

    method RecoverPending(key: string, a: Answer)
      requires key in rows && key in db.withdrawals && a.Answer? && Valid(Now())
      modifies this
      ensures Pends(old(Now()), Now(), key, ResolvePending(old(Now()), key, a))
    {
      if !a.allowed {
        Compensate(key, CircuitOpen, a.finished);
        ReversalCount(old(db), key, key);
        return;
      }
      rows := rows[key := SubmittedRow(rows[key], a.started)];
      assert old(rows)[key := rows[key]] == rows;
      match a.send {
        case Accepted(reference) =>
          Complete(key, reference, a.finished);
          NoPostingLegs(old(db), key);
        case Refused(code) =>
          Compensate(key, code, a.finished);
          ReversalCount(old(db), key, key);
      }
    }

    method RecoverSubmitted(key: string, a: Answer)
      requires key in rows && key in db.withdrawals && a.Answer? && Valid(Now())
      modifies this
      ensures Pends(old(Now()), Now(), key, ResolveSubmitted(old(Now()), key, a))
    {
      var row := rows[key];
      ReversalCount(old(db), key, key);
      NoPostingLegs(old(db), key);
      if row.externalReference.Some? {
        match a.query {
          case ReportsCompleted => Complete(key, row.externalReference.value, a.finished);
          case ReportsFailed(code) => Compensate(key, code, a.finished);
          case ReportsOther =>
          case QueryRaises =>
            if TimedOut(row, a) { Compensate(key, Timeout, a.finished); }
        }
      } else if TimedOut(row, a) {
        Compensate(key, Timeout, a.finished);
      }
    }

    /** One transaction: everything it wrote stands, or nothing does. */
    method ResolveOne(key: string, a: Answer)
      requires Valid(Now())
      modifies this
      ensures Now() == Resolve(old(Now()), key, a) && Valid(Now())
    {
      ResolveValid(Now(), key, a);
      if key !in rows || Terminal(rows[key]) || a.Raises? {
        return;
      }
      var dbBefore, rowsBefore := db, rows;
      if rows[key].status.Pending? {
        RecoverPending(key, a);
      } else {
        RecoverSubmitted(key, a);
      }
      if |Filter(db.legs, ByKey(ReversalKey(key)))| > 1 {
        db, rows := dbBefore, rowsBefore;
      }
    }

    /** The whole pass. Which stuck rows fill the batch is open; the rest is determined by the answers. */
    method RecoverStuckWithdrawals(now: nat, answers: string -> Answer) returns (claimed: seq<string>)
      requires Valid(Now())
      modifies this
      ensures Batch(old(rows), now, claimed)
      ensures Now() == ResolveAll(old(Now()), claimed, answers) && Valid(Now())
    {
      hide Valid, Resolve, Terminal;
      claimed := [];
      var left := Stuck(rows, now);
      while left != {} && |claimed| < BATCH_LIMIT
        invariant Now() == old(Now())
        invariant left <= Stuck(rows, now) && |claimed| + |left| == |Stuck(rows, now)| && |claimed| <= BATCH_LIMIT
        invariant forall k :: k in claimed ==> k in Stuck(rows, now) && k !in left
        invariant forall i, j :: 0 <= i < j < |claimed| ==> claimed[i] != claimed[j]
        decreases left
      {
        var k :| k in left;
        claimed, left := claimed + [k], left - {k};
      }
      var i := 0;
      while i < |claimed|
        invariant 0 <= i <= |claimed|
        invariant Now() == ResolveAll(old(Now()), claimed[..i], answers) && Valid(Now())
      {
        ResolveOne(claimed[i], answers(claimed[i]));
        i := i + 1;
        assert claimed[..i][..i - 1] == claimed[..i - 1];
      }
      assert claimed[..|claimed|] == claimed;
    }
  }
}
