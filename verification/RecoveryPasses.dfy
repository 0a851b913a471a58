/**
 A whole pass of the recovery worker, seen from one withdrawal: left alone while it is young, claimed exactly when the
 saga machine lets a worker claim it, and then resolved as the machine's worker resolves it.
 */
module RecoveryPasses {
  import opened Wrappers
  import opened Ledger
  import opened Events
  import opened Postings
  import opened WithdrawalSaga
  import opened WithdrawalSagaTheorems
  import opened SagaRecovery
  import opened SagaRecoveryTheorems

  /** Primary keys. */
  ghost predicate DistinctIds(db: Db) {
    forall k, l :: k in db.withdrawals && l in db.withdrawals && db.withdrawals[k].id == db.withdrawals[l].id ==> k == l
  }

  /* ---- What a resolution writes ---- */

  /** The row after a resolution that nothing aborts, column by column; times in microseconds. */
  function ResolvedRow(row: Row, a: Answer): Row
    requires a.Answer?
  {
    var late := row.updatedAt + 1_800_000_000 < a.started;
    if row.status.Pending? && !a.allowed then
      Row(Failed, row.externalReference, Some(CircuitOpen), row.submittedAt, Some(a.finished), a.finished)
    else if row.status.Pending? then
      match a.send
      case Accepted(reference) =>
        Row(Completed, Some(reference), row.failureCode, Some(a.started), Some(a.finished), a.finished)
      case Refused(code) =>
        Row(Failed, row.externalReference, Some(code), Some(a.started), Some(a.finished), a.finished)
    else if !row.status.Submitted? then row
    else if row.externalReference.Some? && a.query.ReportsCompleted? then
      var submitted := if row.submittedAt.Some? then row.submittedAt else Some(a.finished);
      Row(Completed, row.externalReference, row.failureCode, submitted, Some(a.finished), a.finished)
    else if row.externalReference.Some? && a.query.ReportsFailed? then
      Row(Failed, row.externalReference, Some(a.query.code), row.submittedAt, Some(a.finished), a.finished)
    else if late && (row.externalReference.None? || a.query.QueryRaises?) then
      Row(Failed, row.externalReference, Some(Timeout), row.submittedAt, Some(a.finished), a.finished)
    else row
  }

  /** While its reversal key is free, resolving a withdrawal writes that row; a row that becomes failed takes the
      reversal pair and its event with it, one that becomes completed its event, and otherwise nothing is written. */
  lemma ResolutionWrites(st: Tables, key: string, a: Answer)
    requires key in st.rows && key in st.db.withdrawals && a.Answer?
    requires Filter(st.db.legs, ByKey(ReversalKey(key))) == []
    ensures
      var after, w, n := Resolve(st, key, a), st.db.withdrawals[key], st.db.nextId;
      var row := ResolvedRow(st.rows[key], a);
      var reversal :=
        [Leg(n + 1, SYSTEM_ACCOUNT, Debit, w.amount, ReversalEntry, Some(w.id), None),
         Leg(n + 1, w.account, Credit, w.amount, ReversalEntry, Some(w.id), Some(ReversalKey(key)))];
      var told := if row.status.Failed? then WithdrawalFailed(w.id, w.account, w.amount) else WithdrawalCompleted(w.id);
      && after.rows == st.rows[key := row]
      && (if row == st.rows[key] then after.db == st.db
          else
            && Terminal(row)
            && after.db.legs == st.db.legs + (if row.status.Failed? then reversal else [])
            && after.db.outbox == st.db.outbox + [Entry(Event(Fresh(n + 2), told), n + 1)])
  {
    assert st.rows[key := st.rows[key]] == st.rows;
    assert st.db.legs + [] == st.db.legs;
    hide Filter;
  }

  /** A submitted row without a rail reference is left alone if and only if it is not older than thirty minutes when
      the worker looks at it. */
  lemma TimedOutExactly(st: Tables, key: string, a: Answer)
    requires key in st.rows && key in st.db.withdrawals && a.Answer?
    requires st.rows[key].status.Submitted? && st.rows[key].externalReference.None?
    requires Filter(st.db.legs, ByKey(ReversalKey(key))) == []
    ensures Resolve(st, key, a) == st <==> a.started <= st.rows[key].updatedAt + 1_800_000_000
  {
    ResolutionWrites(st, key, a);
    assert a.started <= st.rows[key].updatedAt + 1_800_000_000 ==> st.rows[key := st.rows[key]] == st.rows;
    assert a.started > st.rows[key].updatedAt + 1_800_000_000 ==> Resolve(st, key, a).rows[key].status.Failed?;
    hide Resolve, Filter;
  }

  /* ---- A pass leaves everything outside its batch ---- */

  lemma ResolveFrame(st: Tables, key: string, a: Answer)
    requires st.rows.Keys == st.db.withdrawals.Keys
    ensures
      var after := Resolve(st, key, a);
      after.db.withdrawals == st.db.withdrawals && after.rows.Keys == st.rows.Keys
  {
    if key in st.rows { NoPostingLegs(st.db, key); }
    hide Filter, ReverseEffect, Append, RecoveredRow, FailedRow, SubmittedRow;
  }

  lemma ResolveKey(st: Tables, key: string, a: Answer, other: string)
    requires st.rows.Keys == st.db.withdrawals.Keys && other != key
    ensures
      Filter(Resolve(st, key, a).db.legs, ByKey(ReversalKey(other))) == Filter(st.db.legs, ByKey(ReversalKey(other)))
  {
    if key in st.rows {
      NoPostingLegs(st.db, key);
      ReversalCount(st.db, key, other);
    }
    hide Filter, ReverseEffect, Append, RecoveredRow, FailedRow, SubmittedRow;
  }

  /** Terms, row, legs and events of the withdrawal, and who holds its reversal key. */
  ghost predicate LeftAlone(st: Tables, after: Tables, key: string)
    requires key in st.rows && key in st.db.withdrawals
  {
    && after.rows.Keys == st.rows.Keys && after.db.withdrawals == st.db.withdrawals
    && key in after.rows && RecordOf(after, key) == RecordOf(st, key)
    && Filter(after.db.legs, ByKey(ReversalKey(key))) == Filter(st.db.legs, ByKey(ReversalKey(key)))
  }

  lemma {:induction false} OthersLeave(st: Tables, claimed: seq<string>, answers: string -> Answer, key: string)
    requires st.rows.Keys == st.db.withdrawals.Keys && DistinctIds(st.db)
    requires key in st.rows && key !in claimed
    ensures LeftAlone(st, ResolveAll(st, claimed, answers), key)
  {
    hide RecordOf, Filter, Resolve;
    if claimed != [] {
      var before, last := claimed[..|claimed| - 1], claimed[|claimed| - 1];
      assert last in claimed;
      OthersLeave(st, before, answers, key);
      var mid := ResolveAll(st, before, answers);
      ResolveFrame(mid, last, answers(last));
      ResolveKey(mid, last, answers(last), key);
      if last in mid.rows {
        ResolveLeavesOthers(mid, last, answers(last), key);
      } else {
        NotThere(mid, last, answers(last));
      }
    }
  }

  lemma NotThere(st: Tables, key: string, a: Answer)
    requires key !in st.rows
    ensures Resolve(st, key, a) == st
  {
  }

  /** No pass touches a withdrawal that changed within the last five minutes, or one that has ended: its row, its legs
      and its events stay, whatever else is in the batch. */
  lemma YoungAreLeftAlone(st: Tables, now: nat, claimed: seq<string>, answers: string -> Answer, key: string)
    requires st.rows.Keys == st.db.withdrawals.Keys && DistinctIds(st.db) && Batch(st.rows, now, claimed)
    requires key in st.rows
    requires now <= st.rows[key].updatedAt + 300_000_000 || Terminal(st.rows[key])
    ensures LeftAlone(st, ResolveAll(st, claimed, answers), key)
  {
    OthersLeave(st, claimed, answers, key);
  }

  /* ---- A claimed withdrawal ---- */

  /** The query's condition is the machine's: the row is pending or submitted and was last changed more than five
      minutes ago. */
  lemma ClaimedExactly(st: Tables, now: nat, key: string, s: State, i: nat)
    requires key in st.rows && key in st.db.withdrawals
    requires s.rec == RecordOf(st, key) && s.now == now
    requires s.lock.None? && i < |s.workers| && s.workers[i].Idle?
    ensures Step(s, Claim(i)) == if key in Stuck(st.rows, now) then s.(workers := s.workers[i := Claimed]) else s
    ensures key in Stuck(st.rows, now) <==>
              && (st.rows[key].status.Pending? || st.rows[key].status.Submitted?)
              && st.rows[key].updatedAt + 300_000_000 < now
  {
    hide Filter, About;
  }

  /** What the pass leaves of a withdrawal in its batch is what resolving it alone leaves. */
  lemma {:induction false} PassResolves(st: Tables, claimed: seq<string>, answers: string -> Answer, key: string)
    returns (txn: nat)
    requires st.rows.Keys == st.db.withdrawals.Keys && DistinctIds(st.db)
    requires key in st.rows && key in claimed
    requires forall i, j :: 0 <= i < j < |claimed| ==> claimed[i] != claimed[j]
    requires WithdrawalPosted(st.db.legs, key, st.db.withdrawals[key])
    ensures
      var after := ResolveAll(st, claimed, answers);
      && after.rows.Keys == st.rows.Keys && after.db.withdrawals == st.db.withdrawals
      && RecordOf(after, key) == ResolveRecord(RecordOf(st, key), TermsOf(st.db, key), answers(key), txn)
  {
    var before, last := claimed[..|claimed| - 1], claimed[|claimed| - 1];
    assert claimed == before + [last];
    var mid := ResolveAll(st, before, answers);
    if last == key {
      OthersLeave(st, before, answers, key);
      StillPosted(st, mid, key);
      ResolveFrame(mid, key, answers(key));
      ResolveProjects(mid, key, answers(key));
      txn := mid.db.nextId + 1;
    } else {
      hide RecordOf, Filter, Resolve, WithdrawalPosted, ResolveRecord;
      txn := PassResolves(st, before, answers, key);
      assert [last][0] == last && last in claimed;
      ResolveFrame(mid, last, answers(last));
      if last in mid.rows {
        ResolveLeavesOthers(mid, last, answers(last), key);
      } else {
        NotThere(mid, last, answers(last));
      }
    }
  }

  lemma StillPosted(st: Tables, after: Tables, key: string)
    requires key in st.rows && key in st.db.withdrawals && LeftAlone(st, after, key)
    requires WithdrawalPosted(st.db.legs, key, st.db.withdrawals[key])
    ensures WithdrawalPosted(after.db.legs, key, after.db.withdrawals[key])
  {
    hide Filter, About;
  }

  /** A pass on a claimed withdrawal is a run of a worker of the saga machine: claim at the time of the query, lock,
      resolve; so what the machine's theorems say of every run, they say of every pass. */
  lemma PassIsARun(st: Tables, now: nat, claimed: seq<string>, answers: string -> Answer, key: string, s: State,
                   i: nat) returns (run: seq<Action>)
    requires st.rows.Keys == st.db.withdrawals.Keys && DistinctIds(st.db)
    requires Batch(st.rows, now, claimed) && key in claimed
    requires WithdrawalPosted(st.db.legs, key, st.db.withdrawals[key])
    requires s.terms == TermsOf(st.db, key) && s.rec == RecordOf(st, key) && s.now == now
    requires s.lock.None? && i < |s.workers| && s.workers[i].Idle?
    requires answers(key).Answer? && now <= answers(key).started <= answers(key).finished
    ensures
      var after := ResolveAll(st, claimed, answers);
      && key in after.rows && key in after.db.withdrawals
      && |run| > 0 && run[0] == Claim(i)
      && Steps(s, run).rec == RecordOf(after, key)
      && Steps(s, run).lock.None? && Steps(s, run).workers == s.workers && Steps(s, run).handler == s.handler
  {
    var a := answers(key);
    ClaimedExactly(st, now, key, s, i);
    var txn := PassResolves(st, claimed, answers, key);
    hide Resolve, ResolveAll, WithdrawalPosted, Stuck, RecordOf, Steps, ResolutionRun, ResolveRecord;
    var wait := Tick(a.started - now);
    var claim := [Claim(i), wait];
    var s1 := Step(s, Claim(i));
    var s2 := Step(s1, wait);
    assert s2 == s.(workers := s.workers[i := Claimed], now := a.started);
    StepsPair(s, Claim(i), wait);
    ResolveIsARun(s2, i, a, txn);
    StepsJoin(s, claim, ResolutionRun(s2, i, a, txn));
    run := claim + ResolutionRun(s2, i, a, txn);
    assert s2.workers[i := Idle] == s.workers;
  }

  lemma StepsPair(s: State, a: Action, b: Action)
    ensures Steps(s, [a, b]) == Step(Step(s, a), b)
  {
    hide Step, Steps;
    assert [] + [a] == [a];
    assert [a] + [b] == [a, b];
    StepsSnoc(s, [], a);
    StepsSnoc(s, [a], b);
  }
}
