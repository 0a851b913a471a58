/**
 The live path of a withdrawal, called alone, is a run of the saga machine's handler.
 */
module ServicesInSaga {
  import opened Wrappers
  import opened Ledger
  import opened Events
  import opened Postings
  import opened WithdrawalSaga
  import opened SagaRecovery
  import opened SagaRecoveryTheorems
  import Payments = PaymentServices

  function View(st: Payments.WithdrawalTables): Tables { Tables(st.db, st.rows) }

  /** Mark, send, finish, at the times the process does them. */
  function DriveActions(now: nat, outcome: SendOutcome, t: Payments.Times, txn: nat): seq<Action>
    requires now <= t.marked <= t.ended
  {
    [Tick(t.marked - now), HandlerMark, HandlerSend(outcome), Tick(t.ended - t.marked), HandlerFinish(txn)]
  }

  /** What the handler commits, or None when the reversal key is taken. */
  function Driven(rec: Record, t: Terms, outcome: SendOutcome, times: Payments.Times, txn: nat): Option<Record> {
    var marked := MarkSubmitted(rec, times.marked);
    match outcome
    case Accepted(reference) => Some(Complete(marked, t, reference, times.ended))
    case Refused(code) => Compensate(marked, t, code, txn, times.ended)
  }

  lemma HandlerRun(s: State, outcome: SendOutcome, t: Payments.Times, txn: nat)
    requires s.handler.AfterReservation? && s.lock.None? && s.now <= t.marked <= t.ended
    ensures
      var after := Steps(s, DriveActions(s.now, outcome, t, txn));
      var result := Driven(s.rec, s.terms, outcome, t, txn);
      result.Some? ==> after.rec == result.value && after.handler.Returned?
  {
    var wait, rest := Tick(t.marked - s.now), Tick(t.ended - t.marked);
    StepsFive(s, wait, HandlerMark, HandlerSend(outcome), rest, HandlerFinish(txn));
    hide Steps, Compensate, Complete, MarkSubmitted, WorkerStep;
    var s2 := Step(Step(s, wait), HandlerMark);
    assert s2 == s.(now := t.marked, handler := AfterMark, rec := MarkSubmitted(s.rec, t.marked));
    var s3 := Step(s2, HandlerSend(outcome));
    assert s3.rec == s2.rec && s3.lock.None? && s3.now == t.marked && s3.terms == s.terms;
  }

  lemma MarkedComplete(rec: Record, t: Terms, at: nat, reference: nat, now: nat)
    ensures RecoveryComplete(MarkSubmitted(rec, at), t, reference, now)
            == Complete(MarkSubmitted(rec, at), t, reference, now)
  {
  }

  /** What TX 2 and TX 3 leave in the tables is, for the withdrawal, what the handler commits. */
  lemma DriveProjects(st: Payments.WithdrawalTables, key: string, outcome: SendOutcome, t: Payments.Times)
    requires key in st.rows && key in st.db.withdrawals && WithdrawalPosted(st.db.legs, key, st.db.withdrawals[key])
    requires Filter(st.db.legs, ByKey(ReversalKey(key))) == []
    ensures
      var after := View(Payments.FinishTables(st, key, outcome, t));
      && key in after.rows && key in after.db.withdrawals
      && Driven(RecordOf(View(st), key), TermsOf(st.db, key), outcome, t, st.db.nextId + 1)
        == Some(RecordOf(after, key))
  {
    var view, marked := View(st), SubmittedRow(st.rows[key], t.marked);
    assert MarkSubmitted(RecordOf(view, key), t.marked) == RecordOf(view, key).(row := marked);
    match outcome {
      case Accepted(reference) =>
        CompleteProjects(view, key, marked, reference, t.ended);
        MarkedComplete(RecordOf(view, key), TermsOf(st.db, key), t.marked, reference, t.ended);
        assert View(Payments.FinishTables(st, key, outcome, t))
               == CompleteTables(view, key, marked, reference, t.ended);
      case Refused(code) =>
        CompensateProjects(view, key, marked, code, t.ended);
        assert CompensateTables(view, key, marked, code, t.ended)
               == Some(View(Payments.FinishTables(st, key, outcome, t)));
    }
    hide RecordOf, About, Filter, WithdrawalPosted, Append, ReverseEffect;
  }

  /** From a reserved withdrawal whose row nobody locks, the machine's handler reaches what `Drive` leaves. */
  lemma DriveIsARun(st: Payments.WithdrawalTables, s: State, key: string, outcome: SendOutcome, t: Payments.Times)
    requires key in st.rows && key in st.db.withdrawals && WithdrawalPosted(st.db.legs, key, st.db.withdrawals[key])
    requires Filter(st.db.legs, ByKey(ReversalKey(key))) == []
    requires s.terms == TermsOf(st.db, key) && s.rec == RecordOf(View(st), key)
    requires s.handler.AfterReservation? && s.lock.None? && s.now <= t.marked <= t.ended
    ensures
      var after := View(Payments.FinishTables(st, key, outcome, t));
      var end := Steps(s, DriveActions(s.now, outcome, t, st.db.nextId + 1));
      && key in after.rows && key in after.db.withdrawals
      && end.rec == RecordOf(after, key) && end.handler.Returned?
  {
    hide Steps, Driven, RecordOf, Filter, WithdrawalPosted, DriveActions, Payments.FinishTables;
    DriveProjects(st, key, outcome, t);
    HandlerRun(s, outcome, t, st.db.nextId + 1);
  }

  lemma ReservedLegs(legs: seq<Leg>, id: nat, account: AccountId, amount: int)
    requires Filter(legs, ByReference(id)) == []
    ensures
      var pair := Pair(id + 1, account, SYSTEM_ACCOUNT, amount, WithdrawalEntry, Some(id), None);
      Filter(legs + pair, ByReference(id)) == pair
  {
    FilterPosting(legs, id + 1, account, SYSTEM_ACCOUNT, amount, WithdrawalEntry, Some(id), None, ByReference(id));
    hide Filter;
  }

  lemma ReservedEvents(db: Db, p: Posting, id: nat, account: AccountId, amount: int)
    requires About(db.outbox, id) == []
    ensures
      var payload := WithdrawalInitiated(id, account, amount);
      About(Append(db, p, payload).outbox, id) == [payload]
  {
    AboutAppend(db, p, WithdrawalInitiated(id, account, amount), id);
    hide About, Append;
  }

  /** The reservation of an id that no leg and no event mentions is the machine's first state. */
  lemma ReserveIsInitial(st: Payments.WithdrawalTables, req: Payments.Request, key: string, t: Payments.Times)
    requires req.amount > 0
    requires Filter(st.db.legs, ByReference(st.db.nextId)) == [] && About(st.db.outbox, st.db.nextId) == []
    ensures
      var after := View(Payments.ReserveTables(st, req, key, t));
      && key in after.rows && key in after.db.withdrawals
      && RecordOf(after, key) == Reserved(TermsOf(after.db, key), st.db.nextId + 1, t.reserved)
  {
    var id := st.db.nextId;
    var p := Posting(req.account, SYSTEM_ACCOUNT, req.amount, WithdrawalEntry, Some(id), None);
    ReservedLegs(st.db.legs, id, req.account, req.amount);
    ReservedEvents(st.db, p, id, req.account, req.amount);
    hide Filter, About, Pair;
  }
}
