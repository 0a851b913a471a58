/**
 The outbox table and any number of relays that publish it to Kafka: claims, sends that fail before or after
 delivery, crashes at every await, confirmations that merge stale copies, stuck-row resets and cleanup.
 */
module Outbox {
  import opened Wrappers

  const BATCH_SIZE: nat := 100
  const MAX_OUTBOX_RETRIES: nat := 10

  /** Seconds. */
  const STUCK_AFTER: nat := 300
  const PUBLISHED_KEPT: nat := 7 * 86400
  const FAILED_KEPT: nat := 30 * 86400

  datatype Status = Pending | Publishing | Published | Failed

  datatype Row = Row(status: Status, retries: nat, createdAt: nat, publishedAt: Option<nat>)

  /** A detached object: the relay's own copy of a row. */
  datatype Copy = Copy(id: nat, row: Row)

  /** How `send_and_wait` ends. An error does not say whether the broker wrote the message. */
  datatype Outcome = Acked | ErrorLost | ErrorDelivered

  predicate Delivers(o: Outcome) { !o.ErrorLost? }

  /* ---- Effects on rows and on the table ---- */

  function NewRow(createdAt: nat): Row { Row(Pending, 0, createdAt, None) }

  /** The relay's copy after a send. */
  function AfterSend(row: Row, o: Outcome, now: nat): Row {
    if o.Acked? then row.(status := Published, publishedAt := Some(now))
    else row.(retries := row.retries + 1, status := if row.retries + 1 >= MAX_OUTBOX_RETRIES then Failed else Pending)
  }

  function ClaimRows(table: map<nat, Row>, ids: seq<nat>): map<nat, Row> {
    map k | k in table :: if k in ids then table[k].(status := Publishing) else table[k]
  }

  function ResetRows(table: map<nat, Row>, now: nat): map<nat, Row> {
    map k | k in table ::
      if table[k].status.Publishing? && table[k].createdAt + STUCK_AFTER < now then table[k].(status := Pending)
      else table[k]
  }

  predicate Expired(row: Row, now: nat) {
    || (row.status.Published? && row.publishedAt.Some? && row.publishedAt.value + PUBLISHED_KEPT < now)
    || (row.status.Failed? && row.createdAt + FAILED_KEPT < now)
  }

  function CleanupRows(table: map<nat, Row>, now: nat): map<nat, Row> {
    map k | k in table && !Expired(table[k], now) :: table[k]
  }

  /** `merge` writes the columns in which the copy differs from the row it loaded, over the row as it is by then. */
  function MergeRow(loaded: Row, mine: Row, current: Row): Row {
    current.(status := if mine.status == loaded.status then current.status else mine.status,
             retries := if mine.retries == loaded.retries then current.retries else mine.retries,
             publishedAt := if mine.publishedAt == loaded.publishedAt then current.publishedAt else mine.publishedAt)
  }

  /** A copy of a row that was gone when loaded is inserted again; inserting over a row, or updating one that has
      gone since, aborts the whole transaction. */
  predicate Mergeable(table: map<nat, Row>, loaded: map<nat, Row>, copies: seq<Copy>) {
    forall i :: 0 <= i < |copies| ==> (copies[i].id in loaded <==> copies[i].id in table)
  }

  function MergeAll(table: map<nat, Row>, loaded: map<nat, Row>, copies: seq<Copy>): map<nat, Row> {
    if copies == [] then table
    else
      var rest, c := MergeAll(table, loaded, copies[..|copies| - 1]), copies[|copies| - 1];
      rest[c.id := if c.id in loaded && c.id in table then MergeRow(loaded[c.id], c.row, table[c.id]) else c.row]
  }

  /* ---- The machine ---- */

  datatype Relay =
    | Ready
    | Sending(copies: seq<Copy>, next: nat)
    | Merging(copies: seq<Copy>, loaded: map<nat, Row>, next: nat)

  /** `failures` counts, for every row ever committed, the sends of it that raised. */
  datatype State = State(
    table: map<nat, Row>,
    failures: map<nat, nat>,
    log: seq<nat>,
    relays: seq<Relay>,
    now: nat)

  datatype Action =
    | Commit(id: nat, createdAt: nat)
    | Claim(r: nat, ids: seq<nat>)
    | Send(r: nat, outcome: Outcome)
    | Load(r: nat)
    | Confirm(r: nat)
    | Crash(r: nat, delivered: bool)
    | Reset
    | Cleanup
    | Tick(elapsed: nat)

  /** Any batch of pending rows: `SKIP LOCKED` may pass over some. */
  predicate Claimable(table: map<nat, Row>, ids: seq<nat>) {
    && 0 < |ids| <= BATCH_SIZE
    && (forall i :: 0 <= i < |ids| ==> ids[i] in table && table[ids[i]].status.Pending?)
    && (forall i, j :: 0 <= i < j < |ids| ==> ids[i] != ids[j])
  }

  function Copies(table: map<nat, Row>, ids: seq<nat>): seq<Copy>
    requires forall i :: 0 <= i < |ids| ==> ids[i] in table
  {
    seq(|ids|, i requires 0 <= i < |ids| => Copy(ids[i], table[ids[i]].(status := Publishing)))
  }

  function SetRelay(s: State, r: nat, relay: Relay): State
    requires r < |s.relays|
  {
    s.(relays := s.relays[r := relay])
  }

  function RelayStep(s: State, r: nat, a: Action): State
    requires r < |s.relays|
  {
    match (a, s.relays[r])
    case (Claim(_, ids), Ready) =>
      if !Claimable(s.table, ids) then s
      else SetRelay(s, r, Sending(Copies(s.table, ids), 0)).(table := ClaimRows(s.table, ids))
    case (Send(_, outcome), Sending(copies, next)) =>
      if next >= |copies| then s
      else SendStep(s, r, copies, next, outcome)
    case (Load(_), Sending(copies, next)) =>
      if next < |copies| then s else SetRelay(s, r, Merging(copies, map[], 0))
    case (Load(_), Merging(copies, loaded, next)) =>
      if next >= |copies| then s
      else
        var id := copies[next].id;
        SetRelay(s, r, Merging(copies, if id in s.table then loaded[id := s.table[id]] else loaded, next + 1))
    case (Confirm(_), Merging(copies, loaded, next)) =>
      if next < |copies| then s
      else if Mergeable(s.table, loaded, copies) then SetRelay(s, r, Ready).(table := MergeAll(s.table, loaded, copies))
      else SetRelay(s, r, Ready)
    case (Crash(_, delivered), Sending(copies, next)) =>
      SetRelay(s, r, Ready).(log := if delivered && next < |copies| then s.log + [copies[next].id] else s.log)
    case (Crash(_, _), _) => SetRelay(s, r, Ready)
    case _ => s
  }

  function SendStep(s: State, r: nat, copies: seq<Copy>, next: nat, outcome: Outcome): State
    requires r < |s.relays| && next < |copies|
  {
    var c := copies[next];
    var sent := copies[next := Copy(c.id, AfterSend(c.row, outcome, s.now))];
    SetRelay(s, r, Sending(sent, next + 1))
    .(log := if Delivers(outcome) then s.log + [c.id] else s.log,
      failures := if outcome.Acked? || c.id !in s.failures then s.failures
        else s.failures[c.id := s.failures[c.id] + 1])
  }

  function Step(s: State, a: Action): State {
    match a
    case Commit(id, createdAt) =>
      if id in s.failures then s
      else s.(table := s.table[id := NewRow(createdAt)], failures := s.failures[id := 0])
    case Reset => s.(table := ResetRows(s.table, s.now))
    case Cleanup => s.(table := CleanupRows(s.table, s.now))
    case Tick(elapsed) => s.(now := s.now + elapsed)
    case _ => if a.r < |s.relays| then RelayStep(s, a.r, a) else s
  }

  function Steps(s: State, actions: seq<Action>): State {
    if actions == [] then s else Step(Steps(s, actions[..|actions| - 1]), actions[|actions| - 1])
  }

  function Initial(relays: nat): State {
    State(map[], map[], [], seq(relays, i => Ready), 0)
  }

  /* ---- What holds of every row and every copy ---- */

  /** Nothing a row or a copy says about its id is an exaggeration. */
  ghost predicate Honest(id: nat, row: Row, log: seq<nat>, failures: map<nat, nat>) {
    && id in failures
    && row.retries <= failures[id]
    && (row.status.Published? ==> id in log)
    && (row.status.Failed? ==> failures[id] >= MAX_OUTBOX_RETRIES)
  }

  ghost predicate HonestRows(rows: map<nat, Row>, log: seq<nat>, failures: map<nat, nat>) {
    forall k :: k in rows ==> Honest(k, rows[k], log, failures)
  }

  ghost predicate HonestCopies(copies: seq<Copy>, log: seq<nat>, failures: map<nat, nat>) {
    forall i :: 0 <= i < |copies| ==> Honest(copies[i].id, copies[i].row, log, failures)
  }

  ghost predicate HonestRelay(relay: Relay, log: seq<nat>, failures: map<nat, nat>) {
    match relay
    case Ready => true
    case Sending(copies, _) => HonestCopies(copies, log, failures)
    case Merging(copies, loaded, _) => HonestCopies(copies, log, failures) && HonestRows(loaded, log, failures)
  }

  /** Still in the table to be sent, or delivered, or given up after ten errors. */
  ghost predicate Kept(id: nat, table: map<nat, Row>, log: seq<nat>, failures: map<nat, nat>)
    requires id in failures
  {
    || (id in table && (table[id].status.Pending? || table[id].status.Publishing?))
    || id in log
    || failures[id] >= MAX_OUTBOX_RETRIES
  }

  ghost predicate AllKept(s: State) {
    forall id :: id in s.failures ==> Kept(id, s.table, s.log, s.failures)
  }

  ghost predicate Inv(s: State) {
    && HonestRows(s.table, s.log, s.failures)
    && (forall r :: 0 <= r < |s.relays| ==> HonestRelay(s.relays[r], s.log, s.failures))
    && AllKept(s)
    && (forall id :: id in s.log ==> id in s.failures)
  }

  /** The log and the failure counts only grow. */
  ghost predicate Later(log: seq<nat>, failures: map<nat, nat>, log': seq<nat>, failures': map<nat, nat>) {
    && (forall id :: id in log ==> id in log')
    && (forall id :: id in failures ==> id in failures' && failures[id] <= failures'[id])
  }

  lemma HonestLater(relay: Relay, log: seq<nat>, failures: map<nat, nat>, log': seq<nat>, failures': map<nat, nat>)
    requires HonestRelay(relay, log, failures) && Later(log, failures, log', failures')
    ensures HonestRelay(relay, log', failures')
  {
  }

  lemma RowsLater(rows: map<nat, Row>, log: seq<nat>, failures: map<nat, nat>, log': seq<nat>, failures': map<nat, nat>)
    requires HonestRows(rows, log, failures) && Later(log, failures, log', failures')
    ensures HonestRows(rows, log', failures')
  {
  }

  /** An honest table keeps every row it holds. */
  lemma HonestIsKept(id: nat, table: map<nat, Row>, log: seq<nat>, failures: map<nat, nat>)
    requires HonestRows(table, log, failures) && id in table
    ensures id in failures && Kept(id, table, log, failures)
  {
    assert Honest(id, table[id], log, failures);
  }

  /** Replacing the table by an honest one that drops only what is delivered or given up. */
  lemma NewTable(s: State, table: map<nat, Row>)
    requires Inv(s) && HonestRows(table, s.log, s.failures)
    requires forall id :: id in s.table && id !in table ==> id in s.log || s.failures[id] >= MAX_OUTBOX_RETRIES
    ensures Inv(s.(table := table))
  {
    forall id | id in s.failures ensures Kept(id, table, s.log, s.failures) {
      assert Kept(id, s.table, s.log, s.failures);
      if id in table { HonestIsKept(id, table, s.log, s.failures); }
    }
    hide HonestRows, HonestRelay;
  }

  /** Letting a relay's state, the log and the failure counts move on. */
  lemma NewRelay(s: State, r: nat, relay: Relay, log: seq<nat>, failures: map<nat, nat>)
    requires Inv(s) && r < |s.relays|
    requires Later(s.log, s.failures, log, failures) && failures.Keys == s.failures.Keys
    requires HonestRelay(relay, log, failures) && (forall id :: id in log ==> id in failures)
    ensures Inv(SetRelay(s, r, relay).(log := log, failures := failures))
  {
    RowsLater(s.table, s.log, s.failures, log, failures);
    forall k | 0 <= k < |s.relays| && k != r ensures HonestRelay(s.relays[k], log, failures) {
      HonestLater(s.relays[k], s.log, s.failures, log, failures);
    }
    forall id | id in failures ensures Kept(id, s.table, log, failures) {
      assert Kept(id, s.table, s.log, s.failures);
    }
    hide HonestRows, HonestRelay;
  }

  lemma {:induction false} MergeHonest(table: map<nat, Row>, loaded: map<nat, Row>, copies: seq<Copy>, log: seq<nat>,
                                       failures: map<nat, nat>)
    requires HonestRows(table, log, failures) && HonestRows(loaded, log, failures)
             && HonestCopies(copies, log, failures)
    ensures HonestRows(MergeAll(table, loaded, copies), log, failures)
    ensures table.Keys <= MergeAll(table, loaded, copies).Keys
  {
    if copies != [] {
      var before, c := copies[..|copies| - 1], copies[|copies| - 1];
      MergeHonest(table, loaded, before, log, failures);
      assert Honest(c.id, c.row, log, failures);
      if c.id in loaded && c.id in table {
        assert Honest(c.id, loaded[c.id], log, failures) && Honest(c.id, table[c.id], log, failures);
      }
    }
  }

  lemma SendKeeps(s: State, r: nat, copies: seq<Copy>, next: nat, outcome: Outcome)
    requires Inv(s) && r < |s.relays| && s.relays[r] == Sending(copies, next) && next < |copies|
    ensures Inv(SendStep(s, r, copies, next, outcome))
  {
    var c, s' := copies[next], SendStep(s, r, copies, next, outcome);
    assert HonestRelay(s.relays[r], s.log, s.failures);
    assert Honest(c.id, c.row, s.log, s.failures);
    assert Delivers(outcome) ==> s'.log[|s.log|] == c.id;
    forall i | 0 <= i < |copies|
      ensures Honest(s'.relays[r].copies[i].id, s'.relays[r].copies[i].row, s'.log, s'.failures)
    {
      assert Honest(copies[i].id, copies[i].row, s.log, s.failures);
    }
    hide Inv;
    NewRelay(s, r, s'.relays[r], s'.log, s'.failures);
    assert s' == SetRelay(s, r, s'.relays[r]).(log := s'.log, failures := s'.failures);
  }

  lemma ClaimKeeps(s: State, r: nat, ids: seq<nat>)
    requires Inv(s) && r < |s.relays| && Claimable(s.table, ids)
    ensures Inv(SetRelay(s, r, Sending(Copies(s.table, ids), 0)).(table := ClaimRows(s.table, ids)))
  {
    var copies, table := Copies(s.table, ids), ClaimRows(s.table, ids);
    forall i | 0 <= i < |copies| ensures Honest(copies[i].id, copies[i].row, s.log, s.failures) {
      assert Honest(ids[i], s.table[ids[i]], s.log, s.failures);
    }
    assert forall k :: k in table ==> Honest(k, s.table[k], s.log, s.failures);
    NewTable(s, table);
    hide Inv, Copies, ClaimRows;
    NewRelay(s.(table := table), r, Sending(copies, 0), s.log, s.failures);
  }

  lemma ConfirmKeeps(s: State, r: nat, copies: seq<Copy>, loaded: map<nat, Row>, next: nat)
    requires Inv(s) && r < |s.relays| && s.relays[r] == Merging(copies, loaded, next)
    ensures Inv(SetRelay(s, r, Ready).(table := MergeAll(s.table, loaded, copies)))
  {
    assert HonestRelay(s.relays[r], s.log, s.failures);
    MergeHonest(s.table, loaded, copies, s.log, s.failures);
    NewTable(s, MergeAll(s.table, loaded, copies));
    hide Inv, MergeAll, HonestRows;
    NewRelay(s.(table := MergeAll(s.table, loaded, copies)), r, Ready, s.log, s.failures);
  }

  lemma LoadKeeps(s: State, r: nat)
    requires Inv(s) && r < |s.relays|
    ensures Inv(RelayStep(s, r, Load(r)))
  {
    var s' := RelayStep(s, r, Load(r));
    assert HonestRelay(s.relays[r], s.log, s.failures);
    assert HonestRelay(s'.relays[r], s.log, s.failures);
    hide HonestRows, HonestRelay, HonestCopies;
    if s' != s { NewRelay(s, r, s'.relays[r], s.log, s.failures); }
  }

  lemma CrashKeeps(s: State, r: nat, delivered: bool)
    requires Inv(s) && r < |s.relays|
    ensures Inv(RelayStep(s, r, Crash(r, delivered)))
  {
    var s' := RelayStep(s, r, Crash(r, delivered));
    assert HonestRelay(s.relays[r], s.log, s.failures);
    hide HonestRows;
    NewRelay(s, r, Ready, s'.log, s.failures);
  }

  lemma RelayStepKeeps(s: State, r: nat, a: Action)
    requires Inv(s) && r < |s.relays|
    ensures Inv(RelayStep(s, r, a))
  {
    hide Inv, SendStep, MergeAll, Copies, ClaimRows, Claimable, Mergeable;
    match (a, s.relays[r]) {
      case (Claim(_, ids), Ready) => if Claimable(s.table, ids) { ClaimKeeps(s, r, ids); }
      case (Send(_, outcome), Sending(copies, next)) => if next < |copies| { SendKeeps(s, r, copies, next, outcome); }
      case (Load(_), _) => LoadKeeps(s, r);
      case (Confirm(_), Merging(copies, loaded, next)) =>
        ConfirmKeeps(s, r, copies, loaded, next);
        CrashKeeps(s, r, false);
      case (Crash(_, delivered), _) => CrashKeeps(s, r, delivered);
      case _ =>
    }
  }

  lemma MaintenanceKeeps(s: State)
    requires Inv(s)
    ensures Inv(s.(table := ResetRows(s.table, s.now))) && Inv(s.(table := CleanupRows(s.table, s.now)))
  {
    assert forall k :: k in s.table ==> Honest(k, s.table[k], s.log, s.failures);
    NewTable(s, ResetRows(s.table, s.now));
    NewTable(s, CleanupRows(s.table, s.now));
  }

  lemma CommitKeeps(s: State, id: nat, createdAt: nat)
    requires Inv(s) && id !in s.failures
    ensures Inv(Step(s, Commit(id, createdAt)))
  {
    var s' := Step(s, Commit(id, createdAt));
    RowsLater(s.table, s.log, s.failures, s'.log, s'.failures);
    forall r | 0 <= r < |s.relays| ensures HonestRelay(s.relays[r], s'.log, s'.failures) {
      HonestLater(s.relays[r], s.log, s.failures, s'.log, s'.failures);
    }
    assert id !in s.table;
    forall k | k in s'.failures ensures Kept(k, s'.table, s'.log, s'.failures) {
      if k != id { assert Kept(k, s.table, s.log, s.failures); }
    }
    hide HonestRelay;
  }

  lemma StepKeeps(s: State, a: Action)
    requires Inv(s)
    ensures Inv(Step(s, a))
  {
    match a {
      case Commit(id, createdAt) => if id !in s.failures { CommitKeeps(s, id, createdAt); }
      case Reset => MaintenanceKeeps(s);
      case Cleanup => MaintenanceKeeps(s);
      case Tick(_) => hide HonestRows, HonestRelay, Kept;
      case _ => if a.r < |s.relays| { hide Inv; RelayStepKeeps(s, a.r, a); }
    }
  }

  lemma {:induction false} Reachable(relays: nat, actions: seq<Action>)
    ensures Inv(Steps(Initial(relays), actions))
  {
    if actions != [] {
      hide Inv, Step;
      Reachable(relays, actions[..|actions| - 1]);
      StepKeeps(Steps(Initial(relays), actions[..|actions| - 1]), actions[|actions| - 1]);
    }
  }

  /* ---- Theorems ---- */

  /** The outbox loses nothing: every row ever committed is in the table to be sent, or was delivered, or was given up
      after at least ten sends of it raised; and a claimed row whose relay died is sendable again after the reset. */
  lemma OutboxLosesNothing(relays: nat, actions: seq<Action>, id: nat)
    requires id in Steps(Initial(relays), actions).failures
    ensures
      var s := Steps(Initial(relays), actions);
      || id in s.log
      || s.failures[id] >= 10
      || (&& id in s.table
          && (s.table[id].status.Pending? || s.table[id].status.Publishing?)
          && (s.table[id].createdAt + 300 < s.now ==> Step(s, Reset).table[id].status.Pending?))
  {
    Reachable(relays, actions);
    var s := Steps(Initial(relays), actions);
    assert Kept(id, s.table, s.log, s.failures);
  }

  /** The table never claims more than happened, and Kafka carries only committed rows. */
  lemma OutboxIsHonest(relays: nat, actions: seq<Action>, id: nat)
    ensures
      var s := Steps(Initial(relays), actions);
      && (id in s.log ==> id in s.failures)
      && (id in s.table ==>
            && id in s.failures
            && s.table[id].retries <= s.failures[id]
            && (s.table[id].status.Published? ==> id in s.log)
            && (s.table[id].status.Failed? ==> s.failures[id] >= 10))
  {
    Reachable(relays, actions);
    var s := Steps(Initial(relays), actions);
    if id in s.table { assert Honest(id, s.table[id], s.log, s.failures); }
  }

  /** Nor does any copy a relay holds, however stale. */
  lemma CopiesAreHonest(relays: nat, actions: seq<Action>, r: nat, i: nat)
    requires r < |Steps(Initial(relays), actions).relays|
    requires
      var relay := Steps(Initial(relays), actions).relays[r];
      !relay.Ready? && i < |relay.copies|
    ensures
      var s := Steps(Initial(relays), actions);
      var c := s.relays[r].copies[i];
      && c.id in s.failures && c.row.retries <= s.failures[c.id]
      && (c.row.status.Published? ==> c.id in s.log)
      && (c.row.status.Failed? ==> s.failures[c.id] >= 10)
  {
    Reachable(relays, actions);
    var s := Steps(Initial(relays), actions);
    hide Steps, HonestRows;
    assert HonestRelay(s.relays[r], s.log, s.failures);
    assert Honest(s.relays[r].copies[i].id, s.relays[r].copies[i].row, s.log, s.failures);
  }
}
