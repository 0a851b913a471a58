/**
 What the columns of a withdrawal say about the run that wrote them: references and codes were heard from the rail, and
 every change is stamped with its time.
 */
module SagaColumns {
  import opened Wrappers
  import opened Ledger
  import opened WithdrawalSaga

  /** The rail accepted a send and named the reference. */
  ghost predicate SaidAccepted(actions: seq<Action>, reference: nat) {
    exists a :: a in actions && (a.HandlerSend? || a.WorkerSend?) && a.outcome == Accepted(reference)
  }

  ghost predicate SaidRefused(actions: seq<Action>, code: FailureCode) {
    exists a :: a in actions && (a.HandlerSend? || a.WorkerSend?) && a.outcome == Refused(code)
  }

  /** Where a failure code can come from: a refused send, a query that reports it, a pre-flight check that the open
      circuit refused, or a decision on a row past the hard timeout. */
  ghost predicate Named(actions: seq<Action>, code: FailureCode) {
    || SaidRefused(actions, code)
    || (exists a :: a in actions && a.Decide? && a.query == ReportsFailed(code))
    || (code.CircuitOpen? && exists a :: a in actions && a.Preflight? && !a.allowed)
    || (code.Timeout? && exists a :: a in actions && a.Decide?)
  }

  ghost predicate RowHeard(row: Row, actions: seq<Action>) {
    && (row.externalReference.Some? ==> SaidAccepted(actions, row.externalReference.value))
    && (row.failureCode.Some? ==> Named(actions, row.failureCode.value))
  }

  ghost predicate HandlerHeard(h: Handler, actions: seq<Action>) {
    && (h.HandlerAccepted? ==> SaidAccepted(actions, h.reference))
    && (h.HandlerRefused? ==> SaidRefused(actions, h.code))
  }

  ghost predicate WorkerHeard(w: Worker, actions: seq<Action>) {
    && (w.SendAccepted? ==> SaidAccepted(actions, w.reference))
    && (w.SendRefused? ==> SaidRefused(actions, w.code))
  }

  ghost predicate Heard(s: State, actions: seq<Action>) {
    && RowHeard(s.rec.row, actions)
    && HandlerHeard(s.handler, actions)
    && forall i :: 0 <= i < |s.workers| ==> WorkerHeard(s.workers[i], actions)
  }

  lemma SaidMore(actions: seq<Action>, last: Action, reference: nat, code: FailureCode)
    ensures SaidAccepted(actions, reference) ==> SaidAccepted(actions + [last], reference)
    ensures SaidRefused(actions, code) ==> SaidRefused(actions + [last], code)
    ensures Named(actions, code) ==> Named(actions + [last], code)
  {
    if SaidAccepted(actions, reference) {
      var a :| a in actions && (a.HandlerSend? || a.WorkerSend?) && a.outcome == Accepted(reference);
      assert a in actions + [last];
    }
    if SaidRefused(actions, code) {
      var a :| a in actions && (a.HandlerSend? || a.WorkerSend?) && a.outcome == Refused(code);
      assert a in actions + [last];
    }
    if a :| a in actions && a.Decide? && a.query == ReportsFailed(code) { assert a in actions + [last]; }
    if a :| a in actions && a.Preflight? && !a.allowed { assert a in actions + [last]; }
    if a :| a in actions && a.Decide? { assert a in actions + [last]; }
  }

  lemma HeardMore(s: State, actions: seq<Action>, last: Action)
    requires Heard(s, actions)
    ensures Heard(s, actions + [last])
  {
    hide SaidAccepted, SaidRefused, Named;
    forall reference: nat | SaidAccepted(actions, reference) ensures SaidAccepted(actions + [last], reference) {
      SaidMore(actions, last, reference, Timeout);
    }
    forall code | SaidRefused(actions, code) ensures SaidRefused(actions + [last], code) {
      SaidMore(actions, last, 0, code);
    }
    forall code | Named(actions, code) ensures Named(actions + [last], code) {
      SaidMore(actions, last, 0, code);
    }
  }

  lemma JustSaid(actions: seq<Action>, last: Action)
    ensures last in actions + [last]
    ensures (last.HandlerSend? || last.WorkerSend?) && last.outcome.Accepted? ==>
              SaidAccepted(actions + [last], last.outcome.reference)
    ensures (last.HandlerSend? || last.WorkerSend?) && last.outcome.Refused? ==>
              SaidRefused(actions + [last], last.outcome.code)
    ensures last.Decide? && last.query.ReportsFailed? ==> Named(actions + [last], last.query.code)
    ensures last.Decide? ==> Named(actions + [last], Timeout)
    ensures last.Preflight? && !last.allowed ==> Named(actions + [last], CircuitOpen)
  {
    assert (actions + [last])[|actions|] == last;
  }

  lemma EndsHeard(rec: Record, t: Terms, heard: seq<Action>, reference: nat, code: FailureCode, at: nat, txn: nat,
                  now: nat)
    requires RowHeard(rec.row, heard)
    ensures RowHeard(MarkSubmitted(rec, at).row, heard)
    ensures SaidAccepted(heard, reference) ==> RowHeard(Complete(rec, t, reference, now).row, heard)
    ensures SaidAccepted(heard, reference) ==> RowHeard(RecoveryComplete(rec, t, reference, now).row, heard)
    ensures Named(heard, code) && Compensate(rec, t, code, txn, now).Some? ==>
              RowHeard(Compensate(rec, t, code, txn, now).value.row, heard)
  {
    hide SaidAccepted, Named;
  }

  lemma HandlerStepHeard(s: State, a: Action, heard: seq<Action>)
    requires Heard(s, heard)
    requires a.HandlerSend? && a.outcome.Accepted? ==> SaidAccepted(heard, a.outcome.reference)
    requires a.HandlerSend? && a.outcome.Refused? ==> SaidRefused(heard, a.outcome.code)
    ensures Heard(HandlerStep(s, a), heard)
  {
    var reference := if s.handler.HandlerAccepted? then s.handler.reference else 0;
    var code := if s.handler.HandlerRefused? then s.handler.code else Timeout;
    var txn := if a.HandlerFinish? then a.txn else 0;
    EndsHeard(s.rec, s.terms, heard, reference, code, s.now, txn, s.now);
    hide SaidAccepted, SaidRefused, RowHeard, Compensate, Complete, MarkSubmitted;
  }

  lemma WorkerStepHeard(s: State, i: nat, a: Action, heard: seq<Action>)
    requires Heard(s, heard) && i < |s.workers|
    requires a.WorkerSend? && a.outcome.Accepted? ==> SaidAccepted(heard, a.outcome.reference)
    requires a.WorkerSend? && a.outcome.Refused? ==> SaidRefused(heard, a.outcome.code)
    requires a.Decide? && a.query.ReportsFailed? ==> Named(heard, a.query.code)
    requires a.Decide? ==> Named(heard, Timeout)
    requires a.Preflight? && !a.allowed ==> Named(heard, CircuitOpen)
    ensures Heard(WorkerStep(s, i, a), heard)
  {
    var w := s.workers[i];
    assert WorkerHeard(w, heard);
    match a {
      case Preflight(_, _, txn) =>
        EndsHeard(s.rec, s.terms, heard, 0, CircuitOpen, s.now, txn, s.now);
      case WorkerFinish(_, txn) =>
        if w.SendAccepted? {
          EndsHeard(s.rec, s.terms, heard, w.reference, Timeout, w.since, txn, s.now);
          EndsHeard(MarkSubmitted(s.rec, w.since), s.terms, heard, w.reference, Timeout, w.since, txn, s.now);
        } else if w.SendRefused? {
          EndsHeard(s.rec, s.terms, heard, 0, w.code, w.since, txn, s.now);
          EndsHeard(MarkSubmitted(s.rec, w.since), s.terms, heard, 0, w.code, w.since, txn, s.now);
        }
      case Decide(_, query, txn) =>
        var reference := if s.rec.row.externalReference.Some? then s.rec.row.externalReference.value else 0;
        EndsHeard(s.rec, s.terms, heard, reference, if query.ReportsFailed? then query.code else Timeout, s.now, txn,
                  s.now);
        EndsHeard(s.rec, s.terms, heard, reference, Timeout, s.now, txn, s.now);
        assert s.rec.row.externalReference.Some? ==> SaidAccepted(heard, reference);
      case _ =>
    }
    hide SaidAccepted, SaidRefused, RowHeard, Compensate, RecoveryComplete, MarkSubmitted;
  }

  lemma StepHeard(s: State, actions: seq<Action>, a: Action)
    requires Heard(s, actions)
    ensures Heard(Step(s, a), actions + [a])
  {
    HeardMore(s, actions, a);
    JustSaid(actions, a);
    hide Heard, SaidAccepted, SaidRefused, Named;
    if a.HandlerMark? || a.HandlerSend? || a.HandlerFinish? || a.HandlerDie? {
      HandlerStepHeard(s, a, actions + [a]);
    } else if a.Tick? {
      TickHeard(s, a, actions + [a]);
    } else if a.i < |s.workers| {
      WorkerStepHeard(s, a.i, a, actions + [a]);
    }
  }

  lemma TickHeard(s: State, a: Action, heard: seq<Action>)
    requires Heard(s, heard) && a.Tick?
    ensures Heard(Step(s, a), heard)
  {
    hide SaidAccepted, SaidRefused, RowHeard;
  }

  lemma InitialHeard(t: Terms, workers: nat, txn: nat, now: nat)
    ensures Heard(Initial(t, workers, txn, now), [])
  {
  }

  /** In every run, prompt or not, a row's reference is one that the rail gave with an accepted send of that run, and
      its failure code one that a refused send or a query named, or the mark of an open circuit or of the hard
      timeout. */
  lemma {:induction false} ColumnsWereHeard(t: Terms, workers: nat, txn: nat, now: nat, actions: seq<Action>)
    ensures Heard(Steps(Initial(t, workers, txn, now), actions), actions)
    ensures
      var row := Steps(Initial(t, workers, txn, now), actions).rec.row;
      && (row.externalReference.Some? ==>
            exists a :: a in actions && (a.HandlerSend? || a.WorkerSend?)
                        && a.outcome == Accepted(row.externalReference.value))
      && (row.failureCode.Some? && row.failureCode.value.RailCode? ==>
            exists a :: a in actions
                        && (if a.HandlerSend? || a.WorkerSend? then a.outcome == Refused(row.failureCode.value)
                            else a.Decide? && a.query == ReportsFailed(row.failureCode.value)))
  {
    InitialHeard(t, workers, txn, now);
    hide Step, WorkerHeard, HandlerHeard;
    if actions != [] {
      var before, last := actions[..|actions| - 1], actions[|actions| - 1];
      assert actions == before + [last];
      ColumnsWereHeard(t, workers, txn, now, before);
      StepHeard(Steps(Initial(t, workers, txn, now), before), before, last);
    }
  }

  /** A step that changes the row stamps `updated_at` with its time; a row marked submitted is dated by the mark, whose
      time a worker read before its send, and a row that ends is dated by the commit that ends it. */
  lemma ChangesAreStamped(s: State, a: Action)
    ensures
      var row, row' := s.rec.row, Step(s, a).rec.row;
      row' != row ==>
        && row'.updatedAt == s.now
        && (row'.status.Submitted? ==> a.HandlerMark? && row' == row.(status := Submitted, submittedAt := Some(s.now),
                                                                    updatedAt := s.now))
        && (!row'.status.Submitted? ==> Terminal(row') && row'.completedAt == Some(s.now))
        && (a.WorkerFinish? && s.workers[a.i].SendAccepted? ==> row'.submittedAt == Some(s.workers[a.i].since))
  {
    hide Filter, ReversalLegs;
  }
}
