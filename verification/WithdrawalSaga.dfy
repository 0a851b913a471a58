/**
 One withdrawal after its reservation: the request handler that drives it, any number of recovery workers,
 the row lock, the rail and the clock. Every await is a place to die.
 */
module WithdrawalSaga {
  import opened Wrappers
  import opened Ledger
  import opened Events

  /** Clock ticks are microseconds. */
  const MINUTE: nat := 60_000_000
  const STUCK_THRESHOLD: nat := 5 * MINUTE
  const HARD_TIMEOUT: nat := 30 * MINUTE

  datatype Status = Pending | Submitted | Completed | Failed

  datatype FailureCode = CircuitOpen | Timeout | RailCode(code: string)

  /** The columns of a withdrawal that the saga changes. */
  datatype Row = Row(
    status: Status,
    externalReference: Option<nat>,
    failureCode: Option<FailureCode>,
    submittedAt: Option<nat>,
    completedAt: Option<nat>,
    updatedAt: nat)

  /** The columns that never change. */
  datatype Terms = Terms(id: nat, key: string, account: AccountId, amount: int)

  /** What is committed about the withdrawal: its row, the legs that refer to it, the events about it. */
  datatype Record = Record(row: Row, legs: seq<Leg>, events: seq<Payload>)

  /** What `circuit_breaker.call(rail.send_withdrawal)` comes to. */
  datatype SendOutcome = Accepted(reference: nat) | Refused(code: FailureCode)

  /** What `rail.query_status` comes to. */
  datatype QueryOutcome = ReportsCompleted | ReportsFailed(code: FailureCode) | ReportsOther | QueryRaises

  predicate Terminal(row: Row) { row.status.Completed? || row.status.Failed? }

  /* ---- The effect of each commit ---- */

  function Reserved(t: Terms, txn: nat, now: nat): Record {
    Record(Row(Pending, None, None, None, None, now),
           Pair(txn, t.account, SYSTEM_ACCOUNT, t.amount, WithdrawalEntry, Some(t.id), None),
           [WithdrawalInitiated(t.id, t.account, t.amount)])
  }

  /** The UPDATEs name their columns and do not look at the status they overwrite. */
  function SubmittedRow(row: Row, at: nat): Row {
    row.(status := Submitted, submittedAt := Some(at), updatedAt := at)
  }

  function CompletedRow(row: Row, reference: nat, now: nat): Row {
    row.(status := Completed, externalReference := Some(reference), completedAt := Some(now), updatedAt := now)
  }

  /** The recovery worker's version also fills a missing `submitted_at`. */
  function RecoveredRow(row: Row, reference: nat, now: nat): Row {
    if row.submittedAt.None? then CompletedRow(row, reference, now).(submittedAt := Some(now))
    else CompletedRow(row, reference, now)
  }

  function FailedRow(row: Row, code: FailureCode, now: nat): Row {
    row.(status := Failed, failureCode := Some(code), completedAt := Some(now), updatedAt := now)
  }

  function ReversalLegs(t: Terms, txn: nat): seq<Leg> {
    Pair(txn, SYSTEM_ACCOUNT, t.account, t.amount, ReversalEntry, Some(t.id), Some(ReversalKey(t.key)))
  }

  function MarkSubmitted(rec: Record, at: nat): Record {
    rec.(row := SubmittedRow(rec.row, at))
  }

  function Complete(rec: Record, t: Terms, reference: nat, now: nat): Record {
    rec.(row := CompletedRow(rec.row, reference, now), events := rec.events + [WithdrawalCompleted(t.id)])
  }

  function RecoveryComplete(rec: Record, t: Terms, reference: nat, now: nat): Record {
    rec.(row := RecoveredRow(rec.row, reference, now), events := rec.events + [WithdrawalCompleted(t.id)])
  }

  /** None: the reversal key is taken, the unique constraint aborts the whole transaction. */
  function Compensate(rec: Record, t: Terms, code: FailureCode, txn: nat, now: nat): Option<Record> {
    if Filter(rec.legs, ByKey(ReversalKey(t.key))) != [] then None
    else Some(Record(FailedRow(rec.row, code, now), rec.legs + ReversalLegs(t, txn),
                     rec.events + [WithdrawalFailed(t.id, t.account, t.amount)]))
  }

  function RecordOutcome(rec: Record, t: Terms, outcome: SendOutcome, txn: nat, now: nat): Option<Record> {
    match outcome
    case Accepted(reference) => Some(RecoveryComplete(rec, t, reference, now))
    case Refused(code) => Compensate(rec, t, code, txn, now)
  }

  function RecoverSubmitted(rec: Record, t: Terms, query: QueryOutcome, asOf: nat, txn: nat, now: nat): Option<Record> {
    var timedOut := rec.row.updatedAt + HARD_TIMEOUT < asOf;
    if rec.row.externalReference.Some? then
      match query
      case ReportsCompleted => Some(RecoveryComplete(rec, t, rec.row.externalReference.value, now))
      case ReportsFailed(code) => Compensate(rec, t, code, txn, now)
      case ReportsOther => Some(rec)
      case QueryRaises => if timedOut then Compensate(rec, t, Timeout, txn, now) else Some(rec)
    else if timedOut then Compensate(rec, t, Timeout, txn, now)
    else Some(rec)
  }

  /* ---- The machine ---- */

  datatype Handler =
    | AfterReservation
    | AfterMark
    | HandlerAccepted(reference: nat)
    | HandlerRefused(code: FailureCode)
    | Returned
    | Dead

  datatype Worker =
    | Idle
    | Claimed
    | SawPending
    | Sending(since: nat)
    | SendAccepted(since: nat, reference: nat)
    | SendRefused(since: nat, code: FailureCode)
    | SawSubmitted(asOf: nat)

  /** `accepted` counts the rail's successes; `lost` those whose process died before recording them. */
  datatype State = State(
    terms: Terms,
    rec: Record,
    handler: Handler,
    workers: seq<Worker>,
    lock: Option<nat>,
    now: nat,
    accepted: nat,
    lost: nat)

  datatype Action =
    | HandlerMark
    | HandlerSend(outcome: SendOutcome)
    | HandlerFinish(txn: nat)
    | HandlerDie
    | Claim(i: nat)
    | LockRow(i: nat)
    | Preflight(i: nat, allowed: bool, txn: nat)
    | WorkerSend(i: nat, outcome: SendOutcome)
    | WorkerFinish(i: nat, txn: nat)
    | Decide(i: nat, query: QueryOutcome, txn: nat)
    | WorkerDie(i: nat)
    | Tick(elapsed: nat)

  predicate Live(h: Handler) { !h.Returned? && !h.Dead? }

  function Enter(s: State, i: nat, w: Worker): State
    requires i < |s.workers|
  {
    s.(workers := s.workers[i := w], lock := Some(i))
  }

  /** The worker's transaction ends: committed, or rolled back when the outcome is None. */
  function Leave(s: State, i: nat, result: Option<Record>): State
    requires i < |s.workers|
  {
    s.(workers := s.workers[i := Idle], lock := None, rec := if result.Some? then result.value else s.rec)
  }

  function HandlerStep(s: State, a: Action): State {
    match a
    case HandlerMark =>
      if s.handler.AfterReservation? && s.lock.None? then s.(handler := AfterMark, rec := MarkSubmitted(s.rec, s.now))
      else s
    case HandlerSend(outcome) =>
      if !s.handler.AfterMark? then s
      else if outcome.Accepted? then s.(handler := HandlerAccepted(outcome.reference), accepted := s.accepted + 1)
      else s.(handler := HandlerRefused(outcome.code))
    case HandlerFinish(txn) =>
      if s.lock.Some? then s
      else if s.handler.HandlerAccepted? then
        s.(handler := Returned, rec := Complete(s.rec, s.terms, s.handler.reference, s.now))
      else if s.handler.HandlerRefused? then
        match Compensate(s.rec, s.terms, s.handler.code, txn, s.now)
        case Some(rec) => s.(handler := Returned, rec := rec)
        case None => s.(handler := Dead)
      else s
    case HandlerDie =>
      if !Live(s.handler) then s
      else s.(handler := Dead, lost := if s.handler.HandlerAccepted? then s.lost + 1 else s.lost)
    case _ => s
  }

  function WorkerStep(s: State, i: nat, a: Action): State
    requires i < |s.workers|
  {
    match (a, s.workers[i])
    case (Claim(_), Idle) =>
      if s.lock.None? && !Terminal(s.rec.row) && s.rec.row.updatedAt + STUCK_THRESHOLD < s.now then
        s.(workers := s.workers[i := Claimed])
      else s
    case (LockRow(_), Claimed) =>
      if s.lock.Some? then s
      else if s.rec.row.status.Pending? then Enter(s, i, SawPending)
      else if s.rec.row.status.Submitted? then Enter(s, i, SawSubmitted(s.now))
      else s.(workers := s.workers[i := Idle])
    case (Preflight(_, allowed, txn), SawPending) =>
      if allowed then Enter(s, i, Sending(s.now))
      else Leave(s, i, Compensate(s.rec, s.terms, CircuitOpen, txn, s.now))
    case (WorkerSend(_, Accepted(reference)), Sending(since)) =>
      Enter(s, i, SendAccepted(since, reference)).(accepted := s.accepted + 1)
    case (WorkerSend(_, Refused(code)), Sending(since)) => Enter(s, i, SendRefused(since, code))
    case (WorkerFinish(_, txn), SendAccepted(since, reference)) =>
      Leave(s, i, RecordOutcome(MarkSubmitted(s.rec, since), s.terms, Accepted(reference), txn, s.now))
    case (WorkerFinish(_, txn), SendRefused(since, code)) =>
      Leave(s, i, RecordOutcome(MarkSubmitted(s.rec, since), s.terms, Refused(code), txn, s.now))
    case (Decide(_, query, txn), SawSubmitted(asOf)) =>
      Leave(s, i, RecoverSubmitted(s.rec, s.terms, query, asOf, txn, s.now))
    case (WorkerDie(_), w) =>
      s.(workers := s.workers[i := Idle], lock := if s.lock == Some(i) then None else s.lock,
         lost := if w.SendAccepted? then s.lost + 1 else s.lost)
    case _ => s
  }

  function Step(s: State, a: Action): State {
    if a.Tick? then s.(now := s.now + a.elapsed)
    else if a.HandlerMark? || a.HandlerSend? || a.HandlerFinish? || a.HandlerDie? then HandlerStep(s, a)
    else if a.i < |s.workers| then WorkerStep(s, a.i, a)
    else s
  }

  function Steps(s: State, actions: seq<Action>): State {
    if actions == [] then s else Step(Steps(s, actions[..|actions| - 1]), actions[|actions| - 1])
  }

  lemma StepsSnoc(s: State, xs: seq<Action>, a: Action)
    ensures Steps(s, []) == s
    ensures Steps(s, xs + [a]) == Step(Steps(s, xs), a)
  {
    hide Step;
    assert (xs + [a])[..|xs + [a]| - 1] == xs;
  }

  function Initial(t: Terms, workers: nat, txn: nat, now: nat): State {
    State(t, Reserved(t, txn, now), AfterReservation, seq(workers, i => Idle), None, now, 0, 0)
  }

  /** The timing assumption: time does not pass a live handler by more than the threshold after the row's update. */
  ghost predicate PromptStep(s: State, a: Action) {
    a.Tick? && Live(s.handler) ==> s.now + a.elapsed <= s.rec.row.updatedAt + STUCK_THRESHOLD
  }

  ghost predicate Prompt(s: State, actions: seq<Action>) {
    forall k :: 0 <= k < |actions| ==> PromptStep(Steps(s, actions[..k]), actions[k])
  }

  /* ---- Legs of one withdrawal ---- */

  /** One reservation pair, and at most one reversal pair after it. */
  ghost predicate Shape(legs: seq<Leg>, t: Terms) {
    && (|legs| == 2 || |legs| == 4)
    && IsPair(legs[..2], t.account, SYSTEM_ACCOUNT, t.amount, WithdrawalEntry, Some(t.id), None)
    && (|legs| == 4 ==>
          IsPair(legs[2..], SYSTEM_ACCOUNT, t.account, t.amount, ReversalEntry, Some(t.id), Some(ReversalKey(t.key))))
  }

  ghost predicate Reversed(rec: Record) { |rec.legs| == 4 }

  lemma ShapeNamed(legs: seq<Leg>, t: Terms)
    requires Shape(legs, t)
    ensures Filter(legs, ByKey(ReversalKey(t.key))) == if |legs| == 4 then [legs[3]] else []
  {
    var p := ByKey(ReversalKey(t.key));
    FilterPair(legs[0], legs[1], p);
    assert legs[..2] == [legs[0], legs[1]];
    if |legs| == 4 {
      FilterPair(legs[2], legs[3], p);
      assert legs[2..] == [legs[2], legs[3]];
      FilterAppend(legs[..2], legs[2..], p);
      assert legs == legs[..2] + legs[2..];
    } else {
      assert legs == legs[..2];
    }
  }

  /** The withdrawal takes its amount from the user once, or not at all. */
  lemma ShapeNet(legs: seq<Leg>, t: Terms)
    requires Shape(legs, t) && t.account != SYSTEM_ACCOUNT
    ensures Balance(legs, t.account) == if |legs| == 4 then 0 else -t.amount
  {
    assert Filter([], OfAccount(t.account)) == [];
    var reserve := Pair(legs[0].txn, t.account, SYSTEM_ACCOUNT, t.amount, WithdrawalEntry, Some(t.id), None);
    PostingMovesMoney([], legs[0].txn, t.account, SYSTEM_ACCOUNT, t.amount, WithdrawalEntry, Some(t.id), None);
    assert [] + reserve == reserve && legs[..2] == reserve;
    if |legs| == 4 {
      PostingMovesMoney(reserve, legs[2].txn, SYSTEM_ACCOUNT, t.account, t.amount, ReversalEntry, Some(t.id),
                        Some(ReversalKey(t.key)));
      assert legs == legs[..2] + legs[2..];
    } else {
      assert legs == legs[..2];
    }
  }

  lemma CompensateShape(rec: Record, t: Terms, code: FailureCode, txn: nat, now: nat)
    requires Shape(rec.legs, t)
    ensures Compensate(rec, t, code, txn, now).None? <==> Reversed(rec)
    ensures !Reversed(rec) ==>
              var after := Compensate(rec, t, code, txn, now).value;
              Shape(after.legs, t) && Reversed(after)
  {
    ShapeNamed(rec.legs, t);
    if !Reversed(rec) {
      var after := Compensate(rec, t, code, txn, now).value;
      assert after.legs[..2] == rec.legs[..2];
      assert after.legs[2..] == ReversalLegs(t, txn);
    }
  }
}
