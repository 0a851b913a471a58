/**
 What the withdrawal saga keeps: with no assumption on time, at most one reversal; with live handlers that act within
 five minutes of the row's last update, agreement between the row, the ledger, the events and the rail.
 */
module WithdrawalSagaTheorems {
  import opened Wrappers
  import opened Ledger
  import opened Events
  import opened WithdrawalSaga

  /* ---- Without any timing assumption ---- */

  ghost predicate Safe(rec: Record, t: Terms) {
    Shape(rec.legs, t) && (rec.row.status.Failed? ==> Reversed(rec))
  }

  lemma EffectsAreSafe(rec: Record, t: Terms, code: FailureCode, query: QueryOutcome, at: nat, txn: nat, now: nat)
    requires Safe(rec, t)
    ensures Safe(MarkSubmitted(rec, at), t)
    ensures forall ref: nat :: Safe(Complete(rec, t, ref, now), t) && Safe(RecoveryComplete(rec, t, ref, now), t)
    ensures Compensate(rec, t, code, txn, now).Some? ==> Safe(Compensate(rec, t, code, txn, now).value, t)
    ensures RecoverSubmitted(rec, t, query, at, txn, now).Some? ==>
            Safe(RecoverSubmitted(rec, t, query, at, txn, now).value, t)
  {
    CompensateShape(rec, t, code, txn, now);
    CompensateShape(rec, t, Timeout, txn, now);
    if query.ReportsFailed? { CompensateShape(rec, t, query.code, txn, now); }
    hide Shape;
  }

  lemma HandlerStepSafe(s: State, a: Action)
    requires Safe(s.rec, s.terms)
    ensures Safe(HandlerStep(s, a).rec, s.terms)
  {
    var code := if s.handler.HandlerRefused? then s.handler.code else Timeout;
    var txn := if a.HandlerFinish? then a.txn else 0;
    EffectsAreSafe(s.rec, s.terms, code, QueryRaises, s.now, txn, s.now);
    hide Safe, Compensate, Complete, MarkSubmitted;
  }

  lemma WorkerStepSafe(s: State, i: nat, a: Action)
    requires Safe(s.rec, s.terms) && i < |s.workers|
    ensures Safe(WorkerStep(s, i, a).rec, s.terms)
  {
    var w := s.workers[i];
    match a {
      case Preflight(_, _, txn) =>
        EffectsAreSafe(s.rec, s.terms, CircuitOpen, QueryRaises, s.now, txn, s.now);
        hide Safe, Compensate;
      case WorkerFinish(_, txn) =>
        var since := if w.SendAccepted? || w.SendRefused? then w.since else 0;
        var code := if w.SendRefused? then w.code else Timeout;
        EffectsAreSafe(s.rec, s.terms, code, QueryRaises, since, txn, s.now);
        EffectsAreSafe(MarkSubmitted(s.rec, since), s.terms, code, QueryRaises, since, txn, s.now);
        hide Safe, Compensate, RecoveryComplete, MarkSubmitted;
      case Decide(_, query, txn) =>
        var asOf := if w.SawSubmitted? then w.asOf else 0;
        EffectsAreSafe(s.rec, s.terms, Timeout, query, asOf, txn, s.now);
        hide Safe, RecoverSubmitted;
      case _ =>
    }
  }

  lemma StepSafe(s: State, a: Action)
    requires Safe(s.rec, s.terms)
    ensures Step(s, a).terms == s.terms && Safe(Step(s, a).rec, s.terms)
  {
    HandlerStepSafe(s, a);
    if !a.Tick? && !a.HandlerMark? && !a.HandlerSend? && !a.HandlerFinish? && !a.HandlerDie? && a.i < |s.workers| {
      WorkerStepSafe(s, a.i, a);
    }
    hide Safe, Compensate, RecoverSubmitted, RecordOutcome, Complete;
  }

  lemma {:induction false} StepsSafe(s: State, actions: seq<Action>)
    requires Safe(s.rec, s.terms)
    ensures Steps(s, actions).terms == s.terms && Safe(Steps(s, actions).rec, s.terms)
  {
    hide Safe, Step;
    if actions != [] {
      StepsSafe(s, actions[..|actions| - 1]);
      StepSafe(Steps(s, actions[..|actions| - 1]), actions[|actions| - 1]);
    }
  }

  lemma ReservedSafe(t: Terms, txn: nat, now: nat)
    ensures Safe(Reserved(t, txn, now), t) && |Reserved(t, txn, now).legs| == 2
  {
    var legs := Reserved(t, txn, now).legs;
    assert legs[..2] == legs;
  }

  /** However a handler and any number of recovery workers race, die and stall: at most one reversal, a failed
      withdrawal has one, and the user is down by the amount or by nothing. */
  lemma ReversalSafety(t: Terms, workers: nat, txn: nat, now: nat, actions: seq<Action>)
    requires t.account != SYSTEM_ACCOUNT
    ensures
      var rec := Steps(Initial(t, workers, txn, now), actions).rec;
      var reversals := Filter(rec.legs, ByKey(ReversalKey(t.key)));
      && |reversals| <= 1
      && (rec.row.status.Failed? ==> |reversals| == 1)
      && Balance(rec.legs, t.account) == (if reversals == [] then -t.amount else 0)
  {
    ReservedSafe(t, txn, now);
    StepsSafe(Initial(t, workers, txn, now), actions);
    var rec := Steps(Initial(t, workers, txn, now), actions).rec;
    ShapeNamed(rec.legs, t);
    ShapeNet(rec.legs, t);
  }

  predicate InTransaction(w: Worker) { !w.Idle? && !w.Claimed? }

  /** A worker inside its transaction is the one that holds the row lock. */
  ghost predicate LockNames(workers: seq<Worker>, lock: Option<nat>) {
    forall i: nat :: i < |workers| && InTransaction(workers[i]) ==> lock == Some(i)
  }

  lemma StepLocks(s: State, a: Action)
    requires LockNames(s.workers, s.lock)
    ensures LockNames(Step(s, a).workers, Step(s, a).lock) && |Step(s, a).workers| == |s.workers|
  {
    hide Compensate, RecoverSubmitted, RecordOutcome, Complete, MarkSubmitted;
  }

  lemma {:induction false} StepsLock(s: State, actions: seq<Action>)
    requires LockNames(s.workers, s.lock)
    ensures LockNames(Steps(s, actions).workers, Steps(s, actions).lock) && |Steps(s, actions).workers| == |s.workers|
  {
    hide LockNames, Step;
    if actions != [] {
      StepsLock(s, actions[..|actions| - 1]);
      StepLocks(Steps(s, actions[..|actions| - 1]), actions[|actions| - 1]);
    }
  }

  /** No two workers are inside their transactions at once, whatever the handler does and however time passes. */
  lemma WorkersExclude(t: Terms, workers: nat, txn: nat, now: nat, actions: seq<Action>, i: nat, j: nat)
    requires i < workers && j < workers
    ensures
      var s := Steps(Initial(t, workers, txn, now), actions);
      && |s.workers| == workers
      && (InTransaction(s.workers[i]) && InTransaction(s.workers[j]) ==> i == j)
  {
    StepsLock(Initial(t, workers, txn, now), actions);
    hide Steps;
  }

  /* ---- Agreement, and exactly when it survives ---- */

  /** The row, the ledger and the published events tell one story. */
  ghost predicate Agreement(rec: Record, t: Terms) {
    && Shape(rec.legs, t)
    && (Reversed(rec) <==> rec.row.status.Failed?)
    && (rec.row.externalReference.Some? <==> rec.row.status.Completed?)
    && (rec.row.failureCode.Some? <==> rec.row.status.Failed?)
    && (rec.row.completedAt.Some? <==> Terminal(rec.row))
    && (rec.row.status.Submitted? || rec.row.status.Completed? ==> rec.row.submittedAt.Some?)
    && rec.events == [WithdrawalInitiated(t.id, t.account, t.amount)]
                     + (if rec.row.status.Completed? then [WithdrawalCompleted(t.id)]
                        else if rec.row.status.Failed? then [WithdrawalFailed(t.id, t.account, t.amount)] else [])
  }

  /** The lock names the one worker inside a transaction, and the row is still as that worker read it. */
  ghost predicate WorkersAgree(workers: seq<Worker>, lock: Option<nat>, status: Status) {
    && LockNames(workers, lock)
    && (lock.Some? ==>
          && lock.value < |workers|
          && InTransaction(workers[lock.value])
          && (if workers[lock.value].SawSubmitted? then status.Submitted? else status.Pending?))
  }

  /** Only the handler commits 'submitted', and nobody commits 'pending'. */
  ghost predicate HandlerOrder(h: Handler, status: Status) {
    && (h.AfterReservation? ==> !status.Submitted?)
    && (h.AfterMark? || h.HandlerAccepted? || h.HandlerRefused? ==> !status.Pending?)
  }

  ghost predicate Core(s: State) {
    && Agreement(s.rec, s.terms)
    && WorkersAgree(s.workers, s.lock, s.rec.row.status)
    && HandlerOrder(s.handler, s.rec.row.status)
  }

  /** A handler commit over a row that a worker has already ended. (A second compensation of a failed row is
      stopped by the reversal key, and changes nothing.) */
  predicate Stale(s: State, a: Action) {
    && s.lock.None? && Terminal(s.rec.row)
    && (|| (a.HandlerMark? && s.handler.AfterReservation?)
        || (a.HandlerFinish? && s.handler.HandlerAccepted?)
        || (a.HandlerFinish? && s.handler.HandlerRefused? && !s.rec.row.status.Failed?))
  }

  lemma EffectsAgree(rec: Record, t: Terms, code: FailureCode, at: nat, txn: nat, now: nat, ref: nat)
    requires Agreement(rec, t)
    ensures Agreement(MarkSubmitted(rec, at), t) <==> !Terminal(rec.row)
    ensures Agreement(Complete(rec, t, ref, now), t) ==> !Terminal(rec.row)
    ensures rec.row.status.Submitted? ==> Agreement(Complete(rec, t, ref, now), t)
    ensures !Terminal(rec.row) ==> Agreement(RecoveryComplete(rec, t, ref, now), t)
    ensures Compensate(rec, t, code, txn, now).None? <==> rec.row.status.Failed?
    ensures !rec.row.status.Failed? ==>
              var failed := Compensate(rec, t, code, txn, now).value;
              failed.row.status.Failed? && (Agreement(failed, t) <==> !Terminal(rec.row))
  {
    CompensateShape(rec, t, code, txn, now);
    hide Shape;
  }

  lemma HandlerMarkCore(s: State)
    requires Core(s)
    ensures Agreement(HandlerStep(s, HandlerMark).rec, s.terms) <==> !Stale(s, HandlerMark)
    ensures !Stale(s, HandlerMark) ==> Core(HandlerStep(s, HandlerMark))
  {
    EffectsAgree(s.rec, s.terms, Timeout, s.now, 0, s.now, 0);
    hide Agreement, Compensate, Complete;
  }

  lemma HandlerFinishCore(s: State, txn: nat)
    requires Core(s)
    ensures Agreement(HandlerStep(s, HandlerFinish(txn)).rec, s.terms) <==> !Stale(s, HandlerFinish(txn))
    ensures !Stale(s, HandlerFinish(txn)) ==> Core(HandlerStep(s, HandlerFinish(txn)))
  {
    var code := if s.handler.HandlerRefused? then s.handler.code else Timeout;
    var ref := if s.handler.HandlerAccepted? then s.handler.reference else 0;
    EffectsAgree(s.rec, s.terms, code, s.now, txn, s.now, ref);
    hide Agreement, Compensate, MarkSubmitted;
  }

  lemma HandlerStepCore(s: State, a: Action)
    requires Core(s)
    ensures Agreement(HandlerStep(s, a).rec, s.terms) <==> !Stale(s, a)
    ensures !Stale(s, a) ==> Core(HandlerStep(s, a))
  {
    hide Agreement, Compensate, Complete, MarkSubmitted;
    match a {
      case HandlerMark =>
        hide Core, HandlerStep, Stale;
        HandlerMarkCore(s);
      case HandlerFinish(txn) =>
        hide Core, HandlerStep, Stale;
        HandlerFinishCore(s, txn);
      case _ =>
    }
  }

  lemma LeaveCore(s: State, i: nat, result: Option<Record>)
    requires Core(s) && i < |s.workers| && s.lock == Some(i)
    requires result.Some? ==> result.value == s.rec || (Agreement(result.value, s.terms) && Terminal(result.value.row))
    ensures Core(Leave(s, i, result))
  {
    hide Agreement;
  }

  lemma WorkerFinishCore(s: State, i: nat, txn: nat)
    requires Core(s) && i < |s.workers|
    ensures Core(WorkerStep(s, i, WorkerFinish(i, txn)))
  {
    var w := s.workers[i];
    if w.SendAccepted? || w.SendRefused? {
      var marked := MarkSubmitted(s.rec, w.since);
      assert s.lock == Some(i) && s.rec.row.status.Pending?;
      EffectsAgree(s.rec, s.terms, Timeout, w.since, txn, s.now, 0);
      if w.SendAccepted? {
        EffectsAgree(marked, s.terms, Timeout, w.since, txn, s.now, w.reference);
        hide Core, Agreement, Compensate;
        LeaveCore(s, i, Some(RecoveryComplete(marked, s.terms, w.reference, s.now)));
      } else {
        EffectsAgree(marked, s.terms, w.code, w.since, txn, s.now, 0);
        hide Core, Agreement, Compensate;
        LeaveCore(s, i, Compensate(marked, s.terms, w.code, txn, s.now));
      }
    }
  }

  lemma PreflightCore(s: State, i: nat, allowed: bool, txn: nat)
    requires Core(s) && i < |s.workers|
    ensures Core(WorkerStep(s, i, Preflight(i, allowed, txn)))
  {
    if s.workers[i].SawPending? {
      assert s.lock == Some(i) && s.rec.row.status.Pending?;
      EffectsAgree(s.rec, s.terms, CircuitOpen, s.now, txn, s.now, 0);
      hide Agreement, Compensate;
      if !allowed {
        hide Core;
        LeaveCore(s, i, Compensate(s.rec, s.terms, CircuitOpen, txn, s.now));
      }
    }
  }

  lemma DecideCore(s: State, i: nat, query: QueryOutcome, txn: nat)
    requires Core(s) && i < |s.workers|
    ensures Core(WorkerStep(s, i, Decide(i, query, txn)))
  {
    if s.workers[i].SawSubmitted? {
      assert s.lock == Some(i) && s.rec.row.status.Submitted?;
      EffectsAgree(s.rec, s.terms, Timeout, s.now, txn, s.now, 0);
      assert s.rec.row.externalReference.None?;
      hide Core, Agreement, Compensate;
      LeaveCore(s, i, RecoverSubmitted(s.rec, s.terms, query, s.workers[i].asOf, txn, s.now));
    }
  }

  lemma StepCore(s: State, a: Action)
    requires Core(s)
    ensures Agreement(Step(s, a).rec, s.terms) <==> !Stale(s, a)
    ensures !Stale(s, a) ==> Core(Step(s, a))
  {
    hide Agreement;
    if a.HandlerMark? || a.HandlerSend? || a.HandlerFinish? || a.HandlerDie? {
      HandlerStepCore(s, a);
    } else if !a.Tick? && a.i < |s.workers| {
      match a {
        case WorkerFinish(i, txn) => WorkerFinishCore(s, i, txn);
        case Preflight(i, allowed, txn) => PreflightCore(s, i, allowed, txn);
        case Decide(i, query, txn) => DecideCore(s, i, query, txn);
        case _ =>
      }
    }
  }

  ghost predicate NeverStale(s: State, actions: seq<Action>) {
    forall k :: 0 <= k < |actions| ==> !Stale(Steps(s, actions[..k]), actions[k])
  }

  ghost predicate AlwaysAgrees(s: State, actions: seq<Action>) {
    forall k :: 0 <= k <= |actions| ==> Agreement(Steps(s, actions[..k]).rec, s.terms)
  }

  lemma NeverStaleSplit(s: State, actions: seq<Action>)
    requires actions != []
    ensures
      var before, last := actions[..|actions| - 1], actions[|actions| - 1];
      NeverStale(s, actions) <==> NeverStale(s, before) && !Stale(Steps(s, before), last)
  {
    hide Stale, Steps;
    var before := actions[..|actions| - 1];
    forall k | 0 <= k <= |before| ensures before[..k] == actions[..k] {}
    if NeverStale(s, actions) {
      forall k | 0 <= k < |before| ensures !Stale(Steps(s, before[..k]), before[k]) {
        assert !Stale(Steps(s, actions[..k]), actions[k]);
      }
    }
    if NeverStale(s, before) && !Stale(Steps(s, before), actions[|actions| - 1]) {
      forall k | 0 <= k < |actions| ensures !Stale(Steps(s, actions[..k]), actions[k]) {
        if k < |before| { assert !Stale(Steps(s, before[..k]), before[k]); }
      }
    }
  }

  lemma AlwaysAgreesSplit(s: State, actions: seq<Action>)
    requires actions != []
    ensures
      var before := actions[..|actions| - 1];
      AlwaysAgrees(s, actions) <==> AlwaysAgrees(s, before) && Agreement(Steps(s, actions).rec, s.terms)
  {
    hide Agreement, Steps;
    var before := actions[..|actions| - 1];
    forall k | 0 <= k <= |before| ensures before[..k] == actions[..k] {}
    assert actions[..|actions|] == actions;
    if AlwaysAgrees(s, actions) {
      forall k | 0 <= k <= |before| ensures Agreement(Steps(s, before[..k]).rec, s.terms) {
        assert Agreement(Steps(s, actions[..k]).rec, s.terms);
      }
    }
    if AlwaysAgrees(s, before) && Agreement(Steps(s, actions).rec, s.terms) {
      forall k | 0 <= k <= |actions| ensures Agreement(Steps(s, actions[..k]).rec, s.terms) {
        if k <= |before| { assert Agreement(Steps(s, before[..k]).rec, s.terms); }
      }
    }
  }

  lemma {:induction false} CoreAlong(s: State, actions: seq<Action>)
    requires Core(s)
    ensures AlwaysAgrees(s, actions) <==> NeverStale(s, actions)
    ensures NeverStale(s, actions) ==> Core(Steps(s, actions))
    ensures Steps(s, actions).terms == s.terms
  {
    hide Stale, Agreement;
    if actions == [] {
      assert actions[..0] == [];
    } else {
      var before, last := actions[..|actions| - 1], actions[|actions| - 1];
      CoreAlong(s, before);
      NeverStaleSplit(s, actions);
      AlwaysAgreesSplit(s, actions);
      TermsStay(Steps(s, before), last);
      hide AlwaysAgrees, NeverStale, Core, Step;
      if NeverStale(s, before) { StepCore(Steps(s, before), last); }
    }
  }

  lemma TermsStay(s: State, a: Action)
    ensures Step(s, a).terms == s.terms
  {
  }

  lemma InitialCore(t: Terms, workers: nat, txn: nat, now: nat)
    ensures Core(Initial(t, workers, txn, now))
  {
    ReservedSafe(t, txn, now);
    hide Shape;
  }

  /** The handler's UPDATEs do not look at the status they overwrite. Row, ledger and events agree throughout a run
      exactly when no such UPDATE lands on a row that recovery has ended; no assumption on time. */
  lemma AgreementExactly(t: Terms, workers: nat, txn: nat, now: nat, actions: seq<Action>)
    ensures
      var s := Initial(t, workers, txn, now);
      AlwaysAgrees(s, actions) <==> NeverStale(s, actions)
  {
    InitialCore(t, workers, txn, now);
    CoreAlong(Initial(t, workers, txn, now), actions);
  }

  /* ---- The rail, while no handler commit is stale ---- */

  function InFlight(s: State): nat {
    if s.handler.HandlerAccepted? then 1 else 0
  }

  function WorkerInFlight(s: State): nat {
    if s.lock.Some? && s.lock.value < |s.workers| && s.workers[s.lock.value].SendAccepted? then 1 else 0
  }

  /** Every success of the rail is recorded, in the hands of a live process, or lost with a dead one. */
  ghost predicate Accounted(s: State) {
    s.accepted == (if s.rec.row.status.Completed? then 1 else 0) + s.lost + InFlight(s) + WorkerInFlight(s)
  }

  lemma HandlerStepAccounts(s: State, a: Action)
    requires Core(s) && Accounted(s) && !Stale(s, a)
    ensures Accounted(HandlerStep(s, a))
  {
    if s.handler.HandlerRefused? && a.HandlerFinish? {
      EffectsAgree(s.rec, s.terms, s.handler.code, s.now, a.txn, s.now, 0);
    }
    hide Agreement, Compensate, WorkersAgree;
  }

  lemma WorkerStepAccounts(s: State, i: nat, a: Action)
    requires Core(s) && Accounted(s) && i < |s.workers|
    ensures Accounted(WorkerStep(s, i, a))
  {
    assert s.rec.row.status.Submitted? ==> s.rec.row.externalReference.None?;
    hide Agreement, Shape;
  }

  lemma StepAccounts(s: State, a: Action)
    requires Core(s) && Accounted(s) && !Stale(s, a)
    ensures Core(Step(s, a)) && Accounted(Step(s, a))
  {
    StepCore(s, a);
    HandlerStepAccounts(s, a);
    if !a.Tick? && !a.HandlerMark? && !a.HandlerSend? && !a.HandlerFinish? && !a.HandlerDie? && a.i < |s.workers| {
      WorkerStepAccounts(s, a.i, a);
    }
    hide Core, HandlerStep, WorkerStep, Stale;
  }

  lemma {:induction false} StepsAccount(s: State, actions: seq<Action>)
    requires Core(s) && Accounted(s) && NeverStale(s, actions)
    ensures Core(Steps(s, actions)) && Accounted(Steps(s, actions)) && Steps(s, actions).terms == s.terms
  {
    CoreAlong(s, actions);
    hide Core, Accounted, Step, Stale, NeverStale;
    if actions != [] {
      NeverStaleSplit(s, actions);
      StepsAccount(s, actions[..|actions| - 1]);
      StepAccounts(Steps(s, actions[..|actions| - 1]), actions[|actions| - 1]);
    }
  }

  lemma Reachable(t: Terms, workers: nat, txn: nat, now: nat, actions: seq<Action>)
    requires NeverStale(Initial(t, workers, txn, now), actions)
    ensures
      var s := Steps(Initial(t, workers, txn, now), actions);
      Core(s) && Accounted(s) && s.terms == t
  {
    InitialCore(t, workers, txn, now);
    StepsAccount(Initial(t, workers, txn, now), actions);
  }

  /** While no handler commit is stale, in every committed state: a pending, submitted or completed withdrawal has its
      one debit pair and no reversal, a failed one has one of each; an external reference means completed, so recovery
      never meets a submitted row carrying one; and one event was published per stage reached. */
  lemma SagaAgreement(t: Terms, workers: nat, txn: nat, now: nat, actions: seq<Action>)
    requires NeverStale(Initial(t, workers, txn, now), actions)
    ensures
      var rec := Steps(Initial(t, workers, txn, now), actions).rec;
      && |rec.legs| == (if rec.row.status.Failed? then 4 else 2)
      && IsPair(rec.legs[..2], t.account, SYSTEM_ACCOUNT, t.amount, WithdrawalEntry, Some(t.id), None)
      && (rec.row.status.Failed? ==>
            IsPair(rec.legs[2..], SYSTEM_ACCOUNT, t.account, t.amount, ReversalEntry, Some(t.id),
                   Some(ReversalKey(t.key))))
      && (rec.row.externalReference.Some? <==> rec.row.status.Completed?)
      && (rec.row.failureCode.Some? <==> rec.row.status.Failed?)
      && |rec.events| == (if Terminal(rec.row) then 2 else 1)
      && (WithdrawalCompleted(t.id) in rec.events <==> rec.row.status.Completed?)
      && (WithdrawalFailed(t.id, t.account, t.amount) in rec.events <==> rec.row.status.Failed?)
  {
    hide NeverStale, Steps;
    Reachable(t, workers, txn, now, actions);
  }

  /** What the rail did and what the row says, whenever no live process holds an unrecorded success: they differ by
      exactly the successes that died with their process. Compensation for an open circuit then follows no accepted
      send. */
  lemma RailAgreement(t: Terms, workers: nat, txn: nat, now: nat, actions: seq<Action>)
    requires NeverStale(Initial(t, workers, txn, now), actions)
    requires
      var s := Steps(Initial(t, workers, txn, now), actions);
      InFlight(s) == 0 && WorkerInFlight(s) == 0
    ensures
      var s := Steps(Initial(t, workers, txn, now), actions);
      && (s.accepted == (if s.rec.row.status.Completed? then 1 else 0) <==> s.lost == 0)
      && (s.rec.row.failureCode == Some(CircuitOpen) && s.lost == 0 ==> s.accepted == 0)
  {
    hide NeverStale, Steps, Shape;
    Reachable(t, workers, txn, now, actions);
  }

  /** A step changes a completed or failed record if and only if it is a stale handler commit. */
  lemma TerminalStep(s: State, a: Action)
    requires Core(s) && Terminal(s.rec.row)
    ensures Step(s, a).rec == s.rec <==> !Stale(s, a)
  {
    StepCore(s, a);
    if !Stale(s, a) {
      if a.HandlerFinish? && s.handler.HandlerRefused? {
        EffectsAgree(s.rec, s.terms, s.handler.code, s.now, a.txn, s.now, 0);
      }
      hide Agreement, Compensate;
    }
  }

  ghost predicate NeverChanges(s: State, more: seq<Action>) {
    forall k :: 0 <= k <= |more| ==> Steps(s, more[..k]).rec == s.rec
  }

  lemma NeverChangesSplit(s: State, more: seq<Action>)
    requires more != []
    ensures NeverChanges(s, more) <==> NeverChanges(s, more[..|more| - 1]) && Steps(s, more).rec == s.rec
  {
    hide Steps, Step, Agreement;
    var before := more[..|more| - 1];
    forall k | 0 <= k <= |before| ensures before[..k] == more[..k] {}
    assert more[..|more|] == more;
    assert NeverChanges(s, more) ==> Steps(s, more[..|more|]).rec == s.rec;
    if NeverChanges(s, more) {
      forall k | 0 <= k <= |before| ensures Steps(s, before[..k]).rec == s.rec {
        assert Steps(s, more[..k]).rec == s.rec;
      }
    }
    if NeverChanges(s, before) && Steps(s, more).rec == s.rec {
      forall k | 0 <= k <= |more| ensures Steps(s, more[..k]).rec == s.rec {
        if k <= |before| { assert Steps(s, before[..k]).rec == s.rec; }
      }
    }
  }

  /** From an agreeing terminal record on, nothing ever changes it, its legs or its events, if and only if no handler
      commit is stale. */
  lemma {:induction false} TerminalExactly(s: State, more: seq<Action>)
    requires Core(s) && Terminal(s.rec.row)
    ensures NeverChanges(s, more) <==> NeverStale(s, more)
    ensures NeverStale(s, more) ==> Core(Steps(s, more))
  {
    hide Core, Step, Stale;
    if more == [] {
      assert more[..0] == [];
    } else {
      var before, last := more[..|more| - 1], more[|more| - 1];
      TerminalExactly(s, before);
      NeverStaleSplit(s, more);
      NeverChangesSplit(s, more);
      CoreAlong(s, more);
      assert before[..|before|] == before;
      assert NeverChanges(s, before) ==> Steps(s, before).rec == s.rec;
      hide NeverStale, NeverChanges;
      if NeverStale(s, before) { TerminalStep(Steps(s, before), last); }
    }
  }

  /* ---- With prompt handlers ---- */

  /** A live handler is the only driver. */
  ghost predicate SoleDriver(s: State) {
    Live(s.handler) ==>
      && s.now <= s.rec.row.updatedAt + STUCK_THRESHOLD
      && s.lock.None? && !Terminal(s.rec.row)
      && (forall i :: 0 <= i < |s.workers| ==> s.workers[i].Idle?)
  }

  ghost predicate Inv(s: State) {
    Core(s) && SoleDriver(s)
  }

  lemma HandlerStepPrompt(s: State, a: Action)
    requires Inv(s)
    ensures !Stale(s, a) && SoleDriver(HandlerStep(s, a))
  {
    hide Agreement, Compensate, WorkersAgree;
  }

  lemma WorkerStepPrompt(s: State, i: nat, a: Action)
    requires Inv(s) && i < |s.workers|
    ensures SoleDriver(WorkerStep(s, i, a))
  {
    hide Agreement, Compensate, RecoverSubmitted, RecordOutcome;
  }

  lemma StepKeeps(s: State, a: Action)
    requires Inv(s) && PromptStep(s, a)
    ensures Inv(Step(s, a)) && !Stale(s, a)
  {
    HandlerStepPrompt(s, a);
    StepCore(s, a);
    if a.Tick? {
      hide Core;
    } else {
      hide Core, SoleDriver, WorkerStep, HandlerStep, Stale;
      if !a.HandlerMark? && !a.HandlerSend? && !a.HandlerFinish? && !a.HandlerDie? && a.i < |s.workers| {
        WorkerStepPrompt(s, a.i, a);
      }
    }
  }

  lemma {:induction false} StepsKeep(s: State, actions: seq<Action>)
    requires Inv(s) && Prompt(s, actions)
    ensures Inv(Steps(s, actions)) && NeverStale(s, actions)
  {
    hide Inv, Step, PromptStep, Stale;
    if actions != [] {
      var before, last := actions[..|actions| - 1], actions[|actions| - 1];
      forall k | 0 <= k < |before| ensures PromptStep(Steps(s, before[..k]), before[k]) {
        assert before[..k] == actions[..k];
        assert PromptStep(Steps(s, actions[..k]), actions[k]);
      }
      StepsKeep(s, before);
      assert PromptStep(Steps(s, actions[..|actions| - 1]), last);
      StepKeeps(Steps(s, before), last);
      NeverStaleSplit(s, actions);
    }
  }

  /** The timing assumption is enough: when handlers are prompt no commit of theirs is stale, so the agreement theorems
      above hold; and while the handler lives no recovery worker has so much as claimed the row. */
  lemma PromptIsNeverStale(t: Terms, workers: nat, txn: nat, now: nat, actions: seq<Action>)
    requires Prompt(Initial(t, workers, txn, now), actions)
    ensures NeverStale(Initial(t, workers, txn, now), actions)
    ensures
      var s := Steps(Initial(t, workers, txn, now), actions);
      && Core(s)
      && (Live(s.handler) ==>
            && !Terminal(s.rec.row) && s.lock.None?
            && forall i :: 0 <= i < |s.workers| ==> s.workers[i].Idle?)
  {
    InitialCore(t, workers, txn, now);
    StepsKeep(Initial(t, workers, txn, now), actions);
    hide Core, NeverStale;
  }

  lemma EndedStep(s: State, a: Action)
    requires Inv(s) && Terminal(s.rec.row)
    ensures Inv(Step(s, a)) && Step(s, a).rec == s.rec
  {
    hide Agreement;
    StepKeeps(s, a);
    TerminalStep(s, a);
  }

  lemma {:induction false} EndedSteps(s: State, more: seq<Action>)
    requires Inv(s) && Terminal(s.rec.row)
    ensures Inv(Steps(s, more)) && Steps(s, more).rec == s.rec
  {
    hide Inv, Step;
    if more != [] {
      EndedSteps(s, more[..|more| - 1]);
      EndedStep(Steps(s, more[..|more| - 1]), more[|more| - 1]);
    }
  }

  /** After a prompt run has ended the withdrawal, no continuation, prompt or not, changes its row, legs or events. */
  lemma TerminalForever(t: Terms, workers: nat, txn: nat, now: nat, actions: seq<Action>, more: seq<Action>)
    requires Prompt(Initial(t, workers, txn, now), actions)
    requires Terminal(Steps(Initial(t, workers, txn, now), actions).rec.row)
    ensures Steps(Initial(t, workers, txn, now), actions + more).rec
            == Steps(Initial(t, workers, txn, now), actions).rec
  {
    var s0 := Initial(t, workers, txn, now);
    InitialCore(t, workers, txn, now);
    assert Inv(s0);
    hide Prompt, Inv, Step;
    StepsKeep(s0, actions);
    EndedSteps(Steps(s0, actions), more);
    StepsJoin(s0, actions, more);
  }

  lemma {:induction false} StepsJoin(s: State, xs: seq<Action>, ys: seq<Action>)
    ensures Steps(s, xs + ys) == Steps(Steps(s, xs), ys)
  {
    hide Step;
    if ys == [] {
      assert xs + ys == xs;
    } else {
      assert (xs + ys)[..|xs + ys| - 1] == xs + ys[..|ys| - 1];
      StepsJoin(s, xs, ys[..|ys| - 1]);
    }
  }

  /* ---- Where the assumptions bite ---- */

  lemma StepsSeven(s: State, a: Action, b: Action, c: Action, d: Action, e: Action, f: Action, g: Action)
    ensures Steps(s, [a, b, c, d, e, f, g]) == Step(Step(Step(Step(Step(Step(Step(s, a), b), c), d), e), f), g)
  {
    hide Step, Steps;
    assert [] + [a] == [a];
    assert [a] + [b] == [a, b];
    assert [a, b] + [c] == [a, b, c];
    assert [a, b, c] + [d] == [a, b, c, d];
    assert [a, b, c, d] + [e] == [a, b, c, d, e];
    assert [a, b, c, d, e] + [f] == [a, b, c, d, e, f];
    assert [a, b, c, d, e, f] + [g] == [a, b, c, d, e, f, g];
    StepsSnoc(s, [], a);
    StepsSnoc(s, [a], b);
    StepsSnoc(s, [a, b], c);
    StepsSnoc(s, [a, b, c], d);
    StepsSnoc(s, [a, b, c, d], e);
    StepsSnoc(s, [a, b, c, d, e], f);
    StepsSnoc(s, [a, b, c, d, e, f], g);
  }

  /** A handler stalled past the threshold while a worker compensates the row for an open circuit. */
  function StalledRun(last: SendOutcome): seq<Action> {
    [Tick(STUCK_THRESHOLD + 1), Claim(0), LockRow(0), Preflight(0, false, 8), HandlerMark, HandlerSend(last),
     HandlerFinish(9)]
  }

  /** The five steps up to the stale mark: compensated by the worker, then marked submitted by the handler. */
  lemma StalledPrefix(t: Terms, now: nat)
    ensures
      var s0, later := Initial(t, 1, 7, now), now + STUCK_THRESHOLD + 1;
      var failed := Compensate(s0.rec, t, CircuitOpen, 8, later);
      && failed.Some? && Shape(failed.value.legs, t) && Reversed(failed.value)
      && Step(Step(Step(Step(Step(s0, Tick(STUCK_THRESHOLD + 1)), Claim(0)), LockRow(0)), Preflight(0, false, 8)),
              HandlerMark)
         == State(t, MarkSubmitted(failed.value, later), AfterMark, [Idle], None, later, 0, 0)
  {
    var s0 := Initial(t, 1, 7, now);
    ReservedSafe(t, 7, now);
    CompensateShape(s0.rec, t, CircuitOpen, 8, now + STUCK_THRESHOLD + 1);
    hide Shape, Reversed;
    var s1 := Step(s0, Tick(STUCK_THRESHOLD + 1));
    var s2 := Step(s1, Claim(0));
    assert s2 == s1.(workers := [Claimed]);
    var s3 := Step(s2, LockRow(0));
    assert s3 == s1.(workers := [SawPending], lock := Some(0));
    var s4 := Step(s3, Preflight(0, false, 8));
    hide Compensate;
    assert s4 == s1.(workers := [Idle], rec := Compensate(s0.rec, t, CircuitOpen, 8, s1.now).value);
  }

  /** Woken up, it marks the failed row submitted; if the rail then accepts, the withdrawal is completed and
      reversed. */
  lemma StalledHandlerPays(t: Terms, now: nat)
    ensures
      var paid := Steps(Initial(t, 1, 7, now), StalledRun(Accepted(5)));
      paid.rec.row.status.Completed? && Reversed(paid.rec) && paid.accepted == 1
  {
    var s0 := Initial(t, 1, 7, now);
    StalledPrefix(t, now);
    StepsSeven(s0, Tick(STUCK_THRESHOLD + 1), Claim(0), LockRow(0), Preflight(0, false, 8), HandlerMark,
               HandlerSend(Accepted(5)), HandlerFinish(9));
    hide Compensate, Shape, WorkerStep, Steps, Initial;
  }

  /** If the rail refuses, the row stays submitted beside its reversal. */
  lemma StalledHandlerStrands(t: Terms, now: nat)
    ensures DeadEnd(Steps(Initial(t, 1, 7, now), StalledRun(Refused(Timeout))))
  {
    var s0, later := Initial(t, 1, 7, now), now + STUCK_THRESHOLD + 1;
    StalledPrefix(t, now);
    StepsSeven(s0, Tick(STUCK_THRESHOLD + 1), Claim(0), LockRow(0), Preflight(0, false, 8), HandlerMark,
               HandlerSend(Refused(Timeout)), HandlerFinish(9));
    var failed := Compensate(s0.rec, t, CircuitOpen, 8, later).value;
    assert failed.row.externalReference.None?;
    CompensateShape(MarkSubmitted(failed, later), t, Timeout, 9, later);
    hide Compensate, Shape, WorkerStep, Steps, Initial;
  }

  /** A handler stalled past the threshold while a worker sends the withdrawal and completes it. */
  const TWICE_FIRST: seq<Action> := [Tick(STUCK_THRESHOLD + 1), Claim(0), LockRow(0), Preflight(0, true, 8),
                                     WorkerSend(0, Accepted(4)), WorkerFinish(0, 8), HandlerMark]

  const TWICE_LAST: seq<Action> := [HandlerSend(Accepted(5)), HandlerFinish(9)]

  lemma WorkerEnters(s: State)
    requires s.workers == [Idle] && s.lock.None? && s.rec.row.status.Pending?
    requires s.rec.row.updatedAt + STUCK_THRESHOLD < s.now
    ensures Step(Step(s, Claim(0)), LockRow(0)) == s.(workers := [SawPending], lock := Some(0))
  {
    assert Step(s, Claim(0)) == s.(workers := [Claimed]);
  }

  lemma WorkerCompletes(s: State, reference: nat, txn: nat)
    requires s.workers == [SawPending] && s.lock == Some(0)
    ensures
      Step(Step(Step(s, Preflight(0, true, txn)), WorkerSend(0, Accepted(reference))), WorkerFinish(0, txn))
      == s.(workers := [Idle], lock := None, accepted := s.accepted + 1,
            rec := RecoveryComplete(MarkSubmitted(s.rec, s.now), s.terms, reference, s.now))
  {
    hide MarkSubmitted, RecoveryComplete, Compensate;
    var s1 := Step(s, Preflight(0, true, txn));
    assert s1 == s.(workers := [Sending(s.now)]);
    var s2 := Step(s1, WorkerSend(0, Accepted(reference)));
    assert s2 == s.(workers := [SendAccepted(s.now, reference)], accepted := s.accepted + 1);
  }

  /** The steps up to the stale mark: completed by the worker, then marked submitted by the handler. */
  lemma TwiceFirst(t: Terms, now: nat)
    ensures
      var s0, later := Initial(t, 1, 7, now), now + STUCK_THRESHOLD + 1;
      var done := RecoveryComplete(MarkSubmitted(s0.rec, later), t, 4, later);
      Steps(s0, TWICE_FIRST) == State(t, MarkSubmitted(done, later), AfterMark, [Idle], None, later, 1, 0)
  {
    var s0, later := Initial(t, 1, 7, now), now + STUCK_THRESHOLD + 1;
    StepsSeven(s0, TWICE_FIRST[0], Claim(0), LockRow(0), Preflight(0, true, 8), WorkerSend(0, Accepted(4)),
               WorkerFinish(0, 8),
               HandlerMark);
    var s1 := Step(s0, TWICE_FIRST[0]);
    assert s1 == s0.(now := later) && s1.workers == [Idle];
    WorkerEnters(s1);
    WorkerCompletes(s1.(workers := [SawPending], lock := Some(0)), 4, 8);
    hide MarkSubmitted, RecoveryComplete, Steps, WorkerStep;
  }

  /** Woken up, it sends the withdrawal again: the rail pays twice for one debit, and no success was lost. */
  lemma StalledHandlerPaysTwice(t: Terms, now: nat)
    ensures
      var s := Steps(Initial(t, 1, 7, now), TWICE_FIRST + TWICE_LAST);
      s.rec.row.status.Completed? && s.accepted == 2 && s.lost == 0 && !Reversed(s.rec)
  {
    var s0 := Initial(t, 1, 7, now);
    ReservedSafe(t, 7, now);
    TwiceFirst(t, now);
    StepsJoin(s0, TWICE_FIRST, TWICE_LAST);
    StepsPair(Steps(s0, TWICE_FIRST), HandlerSend(Accepted(5)), HandlerFinish(9));
    hide Steps, Shape, WorkerStep;
  }

  lemma StepsPair(s: State, a: Action, b: Action)
    ensures Steps(s, [a, b]) == Step(Step(s, a), b)
  {
    hide Step, Steps;
    assert [] + [a] == [a];
    assert [a] + [b] == [a, b];
    StepsSnoc(s, [], a);
    StepsSnoc(s, [a], b);
  }

  /** A submitted row beside its reversal, with no handler. */
  ghost predicate DeadEnd(s: State) {
    && Shape(s.rec.legs, s.terms) && Reversed(s.rec)
    && s.rec.row.status.Submitted? && s.rec.row.externalReference.None?
    && !Live(s.handler)
    && (forall i :: 0 <= i < |s.workers| ==>
          s.workers[i].Idle? || s.workers[i].Claimed? || s.workers[i].SawSubmitted?)
  }

  lemma DeadEndStep(s: State, a: Action)
    requires DeadEnd(s)
    ensures DeadEnd(Step(s, a)) && Step(s, a).rec == s.rec
  {
    if a.Decide? { CompensateShape(s.rec, s.terms, Timeout, a.txn, s.now); }
    hide Shape, Compensate;
  }

  /** Recovery never ends such a row: each attempt meets the reversal key and rolls back. */
  lemma {:induction false} StuckSubmittedForever(s: State, more: seq<Action>)
    requires DeadEnd(s)
    ensures DeadEnd(Steps(s, more)) && Steps(s, more).rec == s.rec
  {
    hide DeadEnd, Step;
    if more != [] {
      StuckSubmittedForever(s, more[..|more| - 1]);
      DeadEndStep(Steps(s, more[..|more| - 1]), more[|more| - 1]);
    }
  }

  /** The process dies with the rail's acceptance in hand; thirty minutes on, recovery compensates. */
  const LOST_RUN: seq<Action> :=
    [HandlerMark, HandlerSend(Accepted(5)), HandlerDie, Tick(HARD_TIMEOUT + 1), Claim(0), LockRow(0),
     Decide(0, ReportsOther, 9)]

  /** A prompt run in which the rail paid and the user was refunded: `lost` in RailAgreement is not spare. */
  lemma LostSuccess(t: Terms, now: nat)
    ensures
      var s := Steps(Initial(t, 1, 7, now), LOST_RUN);
      && Prompt(Initial(t, 1, 7, now), LOST_RUN)
      && s.rec.row.failureCode == Some(Timeout) && Reversed(s.rec) && s.accepted == 1 && s.lost == 1
  {
    var s0 := Initial(t, 1, 7, now);
    assert s0.rec == Reserved(t, 7, now);
    LostPrefix(t, now);
    LostRunPrompt(s0);
    StepsSeven(s0, HandlerMark, HandlerSend(Accepted(5)), HandlerDie, Tick(HARD_TIMEOUT + 1), Claim(0), LockRow(0),
               Decide(0, ReportsOther, 9));
    LateDecision(t, now);
    hide *;
  }

  lemma LateDecision(t: Terms, now: nat)
    ensures
      var later := now + HARD_TIMEOUT + 1;
      var marked := MarkSubmitted(Reserved(t, 7, now), now);
      var s := Step(State(t, marked, Dead, [SawSubmitted(later)], Some(0), later, 1, 1), Decide(0, ReportsOther, 9));
      s.rec.row.failureCode == Some(Timeout) && Reversed(s.rec) && s.accepted == 1 && s.lost == 1
  {
    var later, marked := now + HARD_TIMEOUT + 1, MarkSubmitted(Reserved(t, 7, now), now);
    ReservedSafe(t, 7, now);
    CompensateShape(marked, t, Timeout, 9, later);
    assert marked.row == Row(Submitted, None, None, Some(now), None, now);
    hide Shape, Reserved, MarkSubmitted, Filter, ReversalLegs;
  }

  lemma LostPrefix(t: Terms, now: nat)
    ensures
      var s0, later := Initial(t, 1, 7, now), now + HARD_TIMEOUT + 1;
      Step(Step(Step(Step(Step(Step(s0, HandlerMark), HandlerSend(Accepted(5))), HandlerDie), Tick(HARD_TIMEOUT + 1)),
                Claim(0)), LockRow(0))
      == State(t, MarkSubmitted(s0.rec, now), Dead, [SawSubmitted(later)], Some(0), later, 1, 1)
  {
    hide Compensate, RecoverSubmitted, RecordOutcome;
    var s0 := Initial(t, 1, 7, now);
    var s1 := Step(s0, HandlerMark);
    assert s1 == s0.(handler := AfterMark, rec := MarkSubmitted(s0.rec, now));
    var s4 := Step(Step(Step(s1, HandlerSend(Accepted(5))), HandlerDie), Tick(HARD_TIMEOUT + 1));
    assert s4 == s1.(handler := Dead, accepted := 1, lost := 1, now := now + HARD_TIMEOUT + 1);
    var s5 := Step(s4, Claim(0));
    assert s5 == s4.(workers := [Claimed]);
    var s6 := Step(s5, LockRow(0));
    assert s6 == s4.(workers := [SawSubmitted(s4.now)], lock := Some(0));
  }

  lemma LostRunPrompt(s: State)
    requires s.handler.AfterReservation? && s.lock.None?
    ensures Prompt(s, LOST_RUN)
  {
    hide MarkSubmitted;
    assert LOST_RUN[..3] == [HandlerMark, HandlerSend(Accepted(5)), HandlerDie];
    assert LOST_RUN[..3][..2] == [HandlerMark, HandlerSend(Accepted(5))];
    assert [HandlerMark, HandlerSend(Accepted(5))][..1] == [HandlerMark];
    assert [HandlerMark][..0] == [];
    assert Steps(s, [HandlerMark]) == Step(s, HandlerMark);
    assert Steps(s, LOST_RUN[..3][..2]) == Step(Step(s, HandlerMark), HandlerSend(Accepted(5)));
    assert Steps(s, LOST_RUN[..3]).handler == Dead;
    forall k | 0 <= k < |LOST_RUN| ensures PromptStep(Steps(s, LOST_RUN[..k]), LOST_RUN[k]) {
      if k != 3 { assert !LOST_RUN[k].Tick?; }
    }
  }
}
