/**
 What a pass of the recovery worker does to one withdrawal is a run of the saga machine; and passes drain the table.
 */
module SagaRecoveryTheorems {
  import opened Wrappers
  import opened Ledger
  import opened Events
  import opened Postings
  import opened WithdrawalSaga
  import opened WithdrawalSagaTheorems
  import opened SagaRecovery

  /* ---- One withdrawal's share of the tables ---- */

  predicate IsAbout(p: Payload, id: nat) {
    match p
    case WithdrawalInitiated(w, _, _) => w == id
    case WithdrawalCompleted(w) => w == id
    case WithdrawalFailed(w, _, _) => w == id
    case _ => false
  }

  function About(outbox: seq<Entry>, id: nat): seq<Payload> {
    if outbox == [] then []
    else
      var last := outbox[|outbox| - 1].event.payload;
      About(outbox[..|outbox| - 1], id) + (if IsAbout(last, id) then [last] else [])
  }

  function RecordOf(st: Tables, key: string): Record
    requires key in st.rows && key in st.db.withdrawals
  {
    var id := st.db.withdrawals[key].id;
    Record(st.rows[key], Filter(st.db.legs, ByReference(id)), About(st.db.outbox, id))
  }

  function ResolvePendingRecord(rec: Record, t: Terms, a: Answer, txn: nat): Option<Record>
    requires a.Answer?
  {
    if !a.allowed then Compensate(rec, t, CircuitOpen, txn, a.finished)
    else RecordOutcome(MarkSubmitted(rec, a.started), t, a.send, txn, a.finished)
  }

  /** The saga's view of what one resolution commits. */
  function ResolveRecord(rec: Record, t: Terms, a: Answer, txn: nat): Record {
    if Terminal(rec.row) || a.Raises? then rec
    else
      var result :=
        if rec.row.status.Pending? then ResolvePendingRecord(rec, t, a, txn)
        else RecoverSubmitted(rec, t, a.query, a.started, txn, a.finished);
      if result.Some? then result.value else rec
  }

  /** The tables' result for the withdrawal is the saga's result, rolled back together. */
  ghost predicate Projects(st: Tables, key: string, table: Option<Tables>, single: Option<Record>)
    requires key in st.db.withdrawals
  {
    && (table.Some? <==> single.Some?)
    && (table.Some? ==>
          && table.value.db.withdrawals == st.db.withdrawals && key in table.value.rows
          && RecordOf(table.value, key) == single.value)
  }

  lemma AboutAppend(db: Db, p: Posting, payload: Payload, id: nat)
    ensures About(Append(db, p, payload).outbox, id)
            == About(db.outbox, id) + (if IsAbout(payload, id) then [payload] else [])
  {
    var outbox := Append(db, p, payload).outbox;
    assert outbox[..|outbox| - 1] == db.outbox;
  }

  /** The whole ledger has the reversal key exactly when the withdrawal's own legs have it. */
  lemma KeyIsOwn(legs: seq<Leg>, key: string, row: WithdrawalRow)
    requires WithdrawalPosted(legs, key, row)
    ensures
      Filter(legs, ByKey(ReversalKey(key))) == Filter(Filter(legs, ByReference(row.id)), ByKey(ReversalKey(key)))
  {
    ShapeNamed(Filter(legs, ByReference(row.id)), Terms(row.id, key, row.account, row.amount));
  }

  lemma CompensateProjects(st: Tables, key: string, row: Row, code: FailureCode, now: nat)
    requires key in st.rows && key in st.db.withdrawals && WithdrawalPosted(st.db.legs, key, st.db.withdrawals[key])
    ensures
      var t, rec := TermsOf(st.db, key), RecordOf(st, key).(row := row);
      Projects(st, key, CompensateTables(st, key, row, code, now), Compensate(rec, t, code, st.db.nextId + 1, now))
  {
    var w := st.db.withdrawals[key];
    KeyIsOwn(st.db.legs, key, w);
    FilterPosting(st.db.legs, st.db.nextId + 1, SYSTEM_ACCOUNT, w.account, w.amount, ReversalEntry, Some(w.id),
                  Some(ReversalKey(key)), ByReference(w.id));
    AboutAppend(st.db, Posting(SYSTEM_ACCOUNT, w.account, w.amount, ReversalEntry, Some(w.id), Some(ReversalKey(key))),
                WithdrawalFailed(w.id, w.account, w.amount), w.id);
    hide Filter, About, WithdrawalPosted, FailedRow;
  }

  lemma CompleteProjects(st: Tables, key: string, row: Row, reference: nat, now: nat)
    requires key in st.rows && key in st.db.withdrawals
    ensures
      var t, rec := TermsOf(st.db, key), RecordOf(st, key).(row := row);
      Projects(st, key, Some(CompleteTables(st, key, row, reference, now)),
               Some(RecoveryComplete(rec, t, reference, now)))
  {
    NoPostingLegs(st.db, key);
    AboutAppend(st.db, NoPosting, WithdrawalCompleted(st.db.withdrawals[key].id), st.db.withdrawals[key].id);
    hide Filter, About, RecoveredRow;
  }

  lemma PendingProjects(st: Tables, key: string, a: Answer)
    requires key in st.rows && key in st.db.withdrawals && WithdrawalPosted(st.db.legs, key, st.db.withdrawals[key])
    requires a.Answer?
    ensures Projects(st, key, ResolvePending(st, key, a),
                     ResolvePendingRecord(RecordOf(st, key), TermsOf(st.db, key), a, st.db.nextId + 1))
  {
    hide Projects, WithdrawalPosted, CompensateTables, CompleteTables, Compensate, RecoveryComplete, About, Filter,
         SubmittedRow;
    if !a.allowed {
      CompensateProjects(st, key, st.rows[key], CircuitOpen, a.finished);
    } else {
      var marked := SubmittedRow(st.rows[key], a.started);
      assert MarkSubmitted(RecordOf(st, key), a.started) == RecordOf(st, key).(row := marked);
      match a.send {
        case Accepted(reference) => CompleteProjects(st, key, marked, reference, a.finished);
        case Refused(code) => CompensateProjects(st, key, marked, code, a.finished);
      }
    }
  }

  lemma NothingProjects(st: Tables, key: string)
    requires key in st.rows && key in st.db.withdrawals
    ensures Projects(st, key, Some(st), Some(RecordOf(st, key)))
  {
    hide About, Filter;
  }

  lemma SubmittedProjects(st: Tables, key: string, a: Answer)
    requires key in st.rows && key in st.db.withdrawals && WithdrawalPosted(st.db.legs, key, st.db.withdrawals[key])
    requires a.Answer?
    ensures Projects(st, key, ResolveSubmitted(st, key, a),
                     RecoverSubmitted(RecordOf(st, key), TermsOf(st.db, key), a.query, a.started,
                                      st.db.nextId + 1, a.finished))
  {
    hide Projects, WithdrawalPosted, CompensateTables, CompleteTables, Compensate, RecoveryComplete, About, Filter,
         Append;
    var row := st.rows[key];
    assert RecordOf(st, key).(row := row) == RecordOf(st, key);
    CompensateProjects(st, key, row, Timeout, a.finished);
    NothingProjects(st, key);
    if row.externalReference.Some? {
      if a.query.ReportsFailed? { CompensateProjects(st, key, row, a.query.code, a.finished); }
      CompleteProjects(st, key, row, row.externalReference.value, a.finished);
    }
  }

  /** Resolving a withdrawal on the tables is resolving its record. */
  lemma ResolveProjects(st: Tables, key: string, a: Answer)
    requires key in st.rows && key in st.db.withdrawals && WithdrawalPosted(st.db.legs, key, st.db.withdrawals[key])
    ensures
      var after := Resolve(st, key, a);
      && key in after.rows && key in after.db.withdrawals
      && RecordOf(after, key) == ResolveRecord(RecordOf(st, key), TermsOf(st.db, key), a, st.db.nextId + 1)
  {
    if a.Answer? {
      PendingProjects(st, key, a);
      SubmittedProjects(st, key, a);
    }
    hide WithdrawalPosted, ResolvePending, ResolveSubmitted, ResolvePendingRecord, RecoverSubmitted, About, Filter;
  }

  lemma CompensateLeavesOthers(st: Tables, key: string, row: Row, code: FailureCode, now: nat, other: string)
    requires key in st.db.withdrawals && other in st.db.withdrawals && other in st.rows && other != key
    requires st.db.withdrawals[key].id != st.db.withdrawals[other].id
    requires CompensateTables(st, key, row, code, now).Some?
    ensures SameRecord(st, CompensateTables(st, key, row, code, now).value, other)
  {
    hide About, FailedRow;
    var w, id := st.db.withdrawals[key], st.db.withdrawals[other].id;
    FilterPosting(st.db.legs, st.db.nextId + 1, SYSTEM_ACCOUNT, w.account, w.amount, ReversalEntry, Some(w.id),
                  Some(ReversalKey(key)), ByReference(id));
    AboutAppend(st.db, Posting(SYSTEM_ACCOUNT, w.account, w.amount, ReversalEntry, Some(w.id), Some(ReversalKey(key))),
                WithdrawalFailed(w.id, w.account, w.amount), id);
    hide Filter;
  }

  lemma CompleteLeavesOthers(st: Tables, key: string, row: Row, reference: nat, now: nat, other: string)
    requires key in st.db.withdrawals && other in st.db.withdrawals && other in st.rows && other != key
    requires st.db.withdrawals[key].id != st.db.withdrawals[other].id
    ensures SameRecord(st, CompleteTables(st, key, row, reference, now), other)
  {
    AboutAppend(st.db, NoPosting, WithdrawalCompleted(st.db.withdrawals[key].id), st.db.withdrawals[other].id);
    NoPostingLegs(st.db, key);
    hide Filter, About, RecoveredRow;
  }

  ghost predicate SameRecord(st: Tables, after: Tables, key: string)
    requires key in st.db.withdrawals && key in st.rows
  {
    key in after.rows && key in after.db.withdrawals && RecordOf(after, key) == RecordOf(st, key)
  }

  /** No other withdrawal's record moves. */
  lemma ResolveLeavesOthers(st: Tables, key: string, a: Answer, other: string)
    requires key in st.db.withdrawals && other in st.db.withdrawals && other in st.rows && other != key
    requires st.db.withdrawals[key].id != st.db.withdrawals[other].id
    ensures
      var after := Resolve(st, key, a);
      other in after.rows && other in after.db.withdrawals && RecordOf(after, other) == RecordOf(st, other)
  {
    hide CompensateTables, CompleteTables, About, Filter;
    forall row, code, now: nat | CompensateTables(st, key, row, code, now).Some?
      ensures SameRecord(st, CompensateTables(st, key, row, code, now).value, other)
    {
      CompensateLeavesOthers(st, key, row, code, now, other);
    }
    forall row, reference: nat, now: nat ensures SameRecord(st, CompleteTables(st, key, row, reference, now), other) {
      CompleteLeavesOthers(st, key, row, reference, now, other);
    }
    assert SameRecord(st, st, other);
  }

  /* ---- One resolution is a run of the machine ---- */

  /** The worker's steps for one resolution that does not raise. */
  function ResolutionRun(s: State, i: nat, a: Answer, txn: nat): seq<Action>
    requires a.Answer? && a.started <= a.finished
  {
    var wait := Tick(a.finished - a.started);
    if s.rec.row.status.Submitted? then [LockRow(i), wait, Decide(i, a.query, txn)]
    else if !s.rec.row.status.Pending? then [LockRow(i)]
    else if !a.allowed then [LockRow(i), wait, Preflight(i, false, txn)]
    else [LockRow(i), Preflight(i, true, txn), WorkerSend(i, a.send), wait, WorkerFinish(i, txn)]
  }

  lemma StepsThree(s: State, a: Action, b: Action, c: Action)
    ensures Steps(s, [a]) == Step(s, a)
    ensures Steps(s, [a, b, c]) == Step(Step(Step(s, a), b), c)
  {
    hide Step, Steps;
    assert [] + [a] == [a];
    assert [a] + [b] == [a, b];
    assert [a, b] + [c] == [a, b, c];
    StepsSnoc(s, [], a);
    StepsSnoc(s, [a], b);
    StepsSnoc(s, [a, b], c);
  }

  lemma StepsFive(s: State, a: Action, b: Action, c: Action, d: Action, e: Action)
    ensures Steps(s, [a, b, c, d, e]) == Step(Step(Step(Step(Step(s, a), b), c), d), e)
  {
    StepsThree(s, a, b, c);
    hide Step, Steps;
    assert [a, b, c] + [d] == [a, b, c, d];
    assert [a, b, c, d] + [e] == [a, b, c, d, e];
    StepsSnoc(s, [a, b, c], d);
    StepsSnoc(s, [a, b, c, d], e);
  }

  lemma RefusedIsARun(s: State, i: nat, a: Answer, txn: nat)
    requires i < |s.workers| && s.workers[i].Claimed? && s.lock.None? && s.rec.row.status.Pending?
    requires a.Answer? && !a.allowed && a.started == s.now && s.now <= a.finished
    ensures
      Steps(s, [LockRow(i), Tick(a.finished - a.started), Preflight(i, false, txn)])
      == Ended(s, i, a, ResolvePendingRecord(s.rec, s.terms, a, txn), s.accepted)
  {
    var wait := Tick(a.finished - a.started);
    StepsThree(s, LockRow(i), wait, Preflight(i, false, txn));
    hide Compensate, Steps;
    var s1 := Step(s, LockRow(i));
    assert s1 == s.(workers := s.workers[i := SawPending], lock := Some(i));
    var s2 := Step(s1, wait);
    assert s2 == s1.(now := a.finished);
    assert s1.workers[i := Idle] == s.workers[i := Idle];
  }

  lemma SubmittedIsARun(s: State, i: nat, a: Answer, txn: nat)
    requires i < |s.workers| && s.workers[i].Claimed? && s.lock.None? && s.rec.row.status.Submitted?
    requires a.Answer? && a.started == s.now && s.now <= a.finished
    ensures
      Steps(s, [LockRow(i), Tick(a.finished - a.started), Decide(i, a.query, txn)])
      == Ended(s, i, a, RecoverSubmitted(s.rec, s.terms, a.query, a.started, txn, a.finished), s.accepted)
  {
    var wait := Tick(a.finished - a.started);
    StepsThree(s, LockRow(i), wait, Decide(i, a.query, txn));
    hide RecoverSubmitted, Steps;
    var s1 := Step(s, LockRow(i));
    assert s1 == s.(workers := s.workers[i := SawSubmitted(s.now)], lock := Some(i));
    var s2 := Step(s1, wait);
    assert s2 == s1.(now := a.finished);
    assert s1.workers[i := Idle] == s.workers[i := Idle];
  }

  function AfterSend(now: nat, outcome: SendOutcome): Worker {
    if outcome.Accepted? then SendAccepted(now, outcome.reference) else SendRefused(now, outcome.code)
  }

  lemma SentPrefix(s: State, i: nat, outcome: SendOutcome, txn: nat)
    requires i < |s.workers| && s.workers[i].Claimed? && s.lock.None? && s.rec.row.status.Pending?
    ensures
      Step(Step(Step(s, LockRow(i)), Preflight(i, true, txn)), WorkerSend(i, outcome))
      == s.(workers := s.workers[i := AfterSend(s.now, outcome)], lock := Some(i),
            accepted := s.accepted + if outcome.Accepted? then 1 else 0)
  {
    hide RecordOutcome, MarkSubmitted, Compensate;
    var s1 := Step(s, LockRow(i));
    assert s1 == s.(workers := s.workers[i := SawPending], lock := Some(i));
    var s2 := Step(s1, Preflight(i, true, txn));
    assert s2 == s1.(workers := s1.workers[i := Sending(s.now)]);
    assert s2.workers[i := AfterSend(s.now, outcome)] == s.workers[i := AfterSend(s.now, outcome)];
  }

  lemma SentSuffix(s: State, i: nat, a: Answer, txn: nat, s3: State)
    requires i < |s.workers| && a.Answer? && a.allowed && a.started == s.now && s.now <= a.finished
    requires s3 == s.(workers := s.workers[i := AfterSend(s.now, a.send)], lock := Some(i), accepted := s3.accepted)
    requires s.lock.None?
    ensures
      Step(Step(s3, Tick(a.finished - a.started)), WorkerFinish(i, txn))
      == Ended(s, i, a, ResolvePendingRecord(s.rec, s.terms, a, txn), s3.accepted)
  {
    hide RecordOutcome, MarkSubmitted;
    assert s3.workers[i := Idle] == s.workers[i := Idle];
  }

  lemma SentIsARun(s: State, i: nat, a: Answer, txn: nat)
    requires i < |s.workers| && s.workers[i].Claimed? && s.lock.None? && s.rec.row.status.Pending?
    requires a.Answer? && a.allowed && a.started == s.now && s.now <= a.finished
    ensures
      Steps(s, [LockRow(i), Preflight(i, true, txn), WorkerSend(i, a.send), Tick(a.finished - a.started),
                WorkerFinish(i, txn)])
      == Ended(s, i, a, ResolvePendingRecord(s.rec, s.terms, a, txn), s.accepted + if a.send.Accepted? then 1 else 0)
  {
    hide Steps, Step, ResolvePendingRecord;
    StepsFive(s, LockRow(i), Preflight(i, true, txn), WorkerSend(i, a.send), Tick(a.finished - a.started),
              WorkerFinish(i, txn));
    SentPrefix(s, i, a.send, txn);
    SentSuffix(s, i, a, txn, Step(Step(Step(s, LockRow(i)), Preflight(i, true, txn)), WorkerSend(i, a.send)));
  }

  /** The state in which the worker's transaction has ended with the given result. */
  function Ended(s: State, i: nat, a: Answer, result: Option<Record>, accepted: nat): State
    requires i < |s.workers| && a.Answer?
  {
    s.(workers := s.workers[i := Idle], now := a.finished, accepted := accepted,
       rec := if result.Some? then result.value else s.rec)
  }

  /** From a claimed row whose lock is free, the machine reaches exactly what the worker's method commits. */
  lemma ResolveIsARun(s: State, i: nat, a: Answer, txn: nat)
    requires i < |s.workers| && s.workers[i].Claimed? && s.lock.None?
    requires a.Answer? && a.started == s.now && s.now <= a.finished
    ensures
      var after := Steps(s, ResolutionRun(s, i, a, txn));
      && after.rec == ResolveRecord(s.rec, s.terms, a, txn)
      && after.lock.None? && after.workers == s.workers[i := Idle] && after.handler == s.handler
  {
    hide Steps, ResolvePendingRecord, RecoverSubmitted;
    if s.rec.row.status.Submitted? {
      SubmittedIsARun(s, i, a, txn);
    } else if !s.rec.row.status.Pending? {
      StepsThree(s, LockRow(i), LockRow(i), LockRow(i));
    } else if !a.allowed {
      RefusedIsARun(s, i, a, txn);
    } else {
      SentIsARun(s, i, a, txn);
    }
  }

  /* ---- Draining ---- */

  function Open(rows: map<string, Row>): set<string> {
    set k | k in rows && !Terminal(rows[k])
  }

  /** Every open withdrawal is past the hard timeout, carries no rail reference and has not been reversed. */
  ghost predicate Drainable(st: Tables, t0: nat) {
    && st.rows.Keys == st.db.withdrawals.Keys
    && forall k :: k in Open(st.rows) ==>
         && st.rows[k].updatedAt + HARD_TIMEOUT < t0
         && st.rows[k].externalReference.None?
         && Filter(st.db.legs, ByKey(ReversalKey(k))) == []
  }

  /** A table whose every withdrawal is as the saga leaves it needs only to be old enough. */
  lemma AgreementDrains(st: Tables, t0: nat)
    requires st.rows.Keys == st.db.withdrawals.Keys
    requires forall k :: k in st.rows ==> WithdrawalPosted(st.db.legs, k, st.db.withdrawals[k])
    requires forall k :: k in st.rows ==> Agreement(RecordOf(st, k), TermsOf(st.db, k))
    requires forall k :: k in Open(st.rows) ==> st.rows[k].updatedAt + HARD_TIMEOUT < t0
    ensures Drainable(st, t0)
  {
    forall k | k in Open(st.rows)
      ensures st.rows[k].externalReference.None? && Filter(st.db.legs, ByKey(ReversalKey(k))) == []
    {
      KeyIsOwn(st.db.legs, k, st.db.withdrawals[k]);
      assert Agreement(RecordOf(st, k), TermsOf(st.db, k));
      ShapeNamed(RecordOf(st, k).legs, TermsOf(st.db, k));
    }
  }

  lemma ResolveEnds(st: Tables, key: string, a: Answer, t0: nat)
    requires Drainable(st, t0) && key in Open(st.rows) && a.Answer? && t0 <= a.started
    ensures
      var after := Resolve(st, key, a);
      && after.rows.Keys == st.rows.Keys && after.db.withdrawals == st.db.withdrawals
      && Terminal(after.rows[key])
      && (forall other :: other in st.rows && other != key ==> after.rows[other] == st.rows[other])
      && (after.db.legs == st.db.legs || after.db.legs == ReverseEffect(st.db, key).value.legs)
  {
    NoPostingLegs(st.db, key);
    hide Filter;
  }

  lemma ResolveDrains(st: Tables, key: string, a: Answer, t0: nat)
    requires Drainable(st, t0) && key in Open(st.rows) && a.Answer? && t0 <= a.started
    ensures Drainable(Resolve(st, key, a), t0) && Open(Resolve(st, key, a).rows) == Open(st.rows) - {key}
  {
    ResolveEnds(st, key, a, t0);
    var after := Resolve(st, key, a);
    hide Resolve, Terminal, ReverseEffect, Filter;
    forall k | k in Open(after.rows) ensures Filter(after.db.legs, ByKey(ReversalKey(k))) == [] {
      ReversalCount(st.db, key, k);
    }
  }

  lemma {:induction false} ResolveAllDrains(st: Tables, claimed: seq<string>, answers: string -> Answer, t0: nat)
    requires Drainable(st, t0)
    requires forall k :: k in claimed ==> k in Open(st.rows) && answers(k).Answer? && t0 <= answers(k).started
    requires forall i, j :: 0 <= i < j < |claimed| ==> claimed[i] != claimed[j]
    ensures Drainable(ResolveAll(st, claimed, answers), t0)
    ensures Open(ResolveAll(st, claimed, answers).rows) == Open(st.rows) - (set k | k in claimed)
    ensures |Open(ResolveAll(st, claimed, answers).rows)| == |Open(st.rows)| - |claimed|
  {
    hide Drainable, Open, Resolve;
    if claimed != [] {
      var before, last := claimed[..|claimed| - 1], claimed[|claimed| - 1];
      assert claimed == before + [last];
      ResolveAllDrains(st, before, answers, t0);
      ResolveDrains(ResolveAll(st, before, answers), last, answers(last), t0);
    }
  }

  /** One pass at some time from `t0` on, whatever batch the query picks and whatever breaker and rail answer. */
  ghost predicate Pass(st: Tables, after: Tables, t0: nat) {
    exists now: nat, claimed: seq<string>, answers: string -> Answer ::
      && t0 <= now && Batch(st.rows, now, claimed)
      && (forall k :: k in claimed ==> answers(k).Answer? && t0 <= answers(k).started)
      && after == ResolveAll(st, claimed, answers)
  }

  lemma PassDrains(st: Tables, after: Tables, t0: nat)
    requires Drainable(st, t0) && Pass(st, after, t0)
    ensures Drainable(after, t0)
    ensures |Open(after.rows)| == if |Open(st.rows)| < 20 then 0 else |Open(st.rows)| - 20
  {
    var now: nat, claimed: seq<string>, answers: string -> Answer :|
      && t0 <= now && Batch(st.rows, now, claimed)
      && (forall k :: k in claimed ==> answers(k).Answer? && t0 <= answers(k).started)
      && after == ResolveAll(st, claimed, answers);
    assert Stuck(st.rows, now) == Open(st.rows);
    ResolveAllDrains(st, claimed, answers, t0);
  }

  /** Each pass ends twenty withdrawals, or all that are left: n of them take exactly ⌈n/20⌉ passes. */
  lemma {:induction false} RecoveryDrains(states: seq<Tables>, t0: nat)
    requires |states| > 0 && Drainable(states[0], t0)
    requires forall i :: 0 <= i < |states| - 1 ==> Pass(states[i], states[i + 1], t0)
    ensures
      var n, done := |Open(states[0].rows)|, 20 * (|states| - 1);
      |Open(states[|states| - 1].rows)| == if n < done then 0 else n - done
    ensures Drainable(states[|states| - 1], t0)
  {
    hide Drainable, Pass, Open;
    if |states| > 1 {
      var before := states[..|states| - 1];
      RecoveryDrains(before, t0);
      assert Pass(states[|states| - 2], states[|states| - 1], t0);
      PassDrains(before[|before| - 1], states[|states| - 1], t0);
    }
  }

  /** The background loop: with no withdrawals arriving, enough rounds leave every one completed or failed. */
  method RecoveryLoop(worker: RecoveryWorker, rounds: nat, clock: nat -> nat, answers: (nat, string) -> Answer,
                      ghost t0: nat)
    requires Valid(worker.Now()) && Drainable(worker.Now(), t0)
    requires forall i :: 0 <= i < rounds ==> t0 <= clock(i)
    requires forall i: nat, k :: i < rounds ==> answers(i, k).Answer? && t0 <= answers(i, k).started
    requires 20 * rounds >= |Open(worker.rows)|
    modifies worker
    ensures forall k :: k in worker.rows ==> Terminal(worker.rows[k])
  {
    hide Valid, Drainable, ResolveAll, Batch, Pass, Open;
    ghost var states := [worker.Now()];
    var i: nat := 0;
    while i < rounds
      invariant i <= rounds && |states| == i + 1
      invariant states[0] == old(worker.Now()) && states[i] == worker.Now() && Valid(worker.Now())
      invariant forall j :: 0 <= j < i ==> Pass(states[j], states[j + 1], t0)
    {
      ghost var before := worker.Now();
      var now, round := clock(i), i;
      var mine := k => answers(round, k);
      var claimed := worker.RecoverStuckWithdrawals(now, mine);
      IsPass(before, worker.Now(), t0, now, claimed, mine);
      states := states + [worker.Now()];
      i := i + 1;
    }
    RecoveryDrains(states, t0);
    AllEnded(worker.rows);
  }

  lemma IsPass(st: Tables, after: Tables, t0: nat, now: nat, claimed: seq<string>, answers: string -> Answer)
    requires t0 <= now && Batch(st.rows, now, claimed) && after == ResolveAll(st, claimed, answers)
    requires forall k :: answers(k).Answer? && t0 <= answers(k).started
    ensures Pass(st, after, t0)
  {
  }

  lemma AllEnded(rows: map<string, Row>)
    requires |Open(rows)| == 0
    ensures forall k :: k in rows ==> Terminal(rows[k])
  {
    forall k | k in rows ensures Terminal(rows[k]) {
      assert k !in Open(rows);
    }
  }
}
