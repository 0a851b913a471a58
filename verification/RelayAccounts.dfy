/**
 What one relay that does not crash keeps about its rows: sends counted, batches in order.
 A row is named by the order in which it became visible, so `created` lists the creation times of all rows.
 */
module RelayAccounts {
  import opened Outbox

  /** Seconds. */
  const MIN_SLEEP: nat := 1
  const MAX_SLEEP: nat := 30
  const RECOVERY_EVERY: nat := 300
  const CLEANUP_EVERY: nat := 86400

  datatype Sent = Sent(id: nat, outcome: Outcome)

  function Attempts(sends: seq<Sent>, id: nat): nat {
    if sends == [] then 0
    else Attempts(sends[..|sends| - 1], id) + if sends[|sends| - 1].id == id then 1 else 0
  }

  function Acks(sends: seq<Sent>, id: nat): nat {
    if sends == [] then 0
    else
      var last := sends[|sends| - 1];
      Acks(sends[..|sends| - 1], id) + if last.id == id && last.outcome.Acked? then 1 else 0
  }

  /** Sends that raised although the broker wrote the message. */
  function Hidden(sends: seq<Sent>, id: nat): nat {
    if sends == [] then 0
    else
      var last := sends[|sends| - 1];
      Hidden(sends[..|sends| - 1], id) + if last.id == id && last.outcome.ErrorDelivered? then 1 else 0
  }

  /** The topic: what the broker wrote, in order. */
  function Log(sends: seq<Sent>): seq<nat> {
    if sends == [] then []
    else
      var last := sends[|sends| - 1];
      Log(sends[..|sends| - 1]) + if Delivers(last.outcome) then [last.id] else []
  }

  function Occurrences(log: seq<nat>, id: nat): nat {
    if log == [] then 0 else Occurrences(log[..|log| - 1], id) + if log[|log| - 1] == id then 1 else 0
  }

  lemma SendCounts(sends: seq<Sent>, s: Sent, id: nat)
    ensures Attempts(sends + [s], id) == Attempts(sends, id) + if s.id == id then 1 else 0
    ensures Acks(sends + [s], id) == Acks(sends, id) + if s.id == id && s.outcome.Acked? then 1 else 0
    ensures Hidden(sends + [s], id) == Hidden(sends, id) + if s.id == id && s.outcome.ErrorDelivered? then 1 else 0
    ensures Log(sends + [s]) == Log(sends) + if Delivers(s.outcome) then [s.id] else []
  {
    assert (sends + [s])[..|sends + [s]| - 1] == sends;
  }

  /* ---- What the loop keeps ---- */

  /** The row's columns count its sends; nothing is sent after its one acknowledgement or its tenth error. */
  ghost predicate RowAccounted(row: Row, attempts: nat, acks: nat) {
    match row.status
    case Pending => attempts == row.retries < MAX_OUTBOX_RETRIES && acks == 0
    case Publishing => attempts == row.retries < MAX_OUTBOX_RETRIES && acks == 0
    case Published => attempts == row.retries + 1 <= MAX_OUTBOX_RETRIES && acks == 1
    case Failed => attempts == row.retries == MAX_OUTBOX_RETRIES && acks == 0
  }

  ghost predicate Accounted(table: map<nat, Row>, created: seq<nat>, sends: seq<Sent>) {
    && (forall id :: id in table ==>
          && id < |created| && table[id].createdAt == created[id]
          && RowAccounted(table[id], Attempts(sends, id), Acks(sends, id)))
    && (forall id :: Attempts(sends, id) <= MAX_OUTBOX_RETRIES && Acks(sends, id) <= 1)
    && (forall id: nat :: |created| <= id ==> Attempts(sends, id) == 0 && Acks(sends, id) == 0)
  }

  ghost predicate NonePublishing(table: map<nat, Row>) {
    forall id :: id in table ==> !table[id].status.Publishing?
  }

  predicate Unsent(row: Row) { row.status.Pending? || row.status.Publishing? }

  ghost predicate Increasing(created: seq<nat>) {
    forall i, j :: 0 <= i < j < |created| ==> created[i] < created[j]
  }

  /** The log is in creation order, and everything still to be sent is later than all of it. */
  ghost predicate InOrder(table: map<nat, Row>, created: seq<nat>, log: seq<nat>) {
    && (forall id :: id in table ==> id < |created|)
    && (forall i :: 0 <= i < |log| ==> log[i] < |created|)
    && (forall i, j :: 0 <= i < j < |log| ==> created[log[i]] < created[log[j]])
    && (forall i, id :: 0 <= i < |log| && id in table && Unsent(table[id]) ==> created[log[i]] < created[id])
  }

  /** `ORDER BY created_at LIMIT 100` over the pending rows. */
  ghost predicate IsBatch(table: map<nat, Row>, ids: seq<nat>) {
    && (forall i :: 0 <= i < |ids| ==> ids[i] in table && table[ids[i]].status.Pending?)
    && (forall i, j :: 0 <= i < j < |ids| ==> ids[i] != ids[j] && table[ids[i]].createdAt <= table[ids[j]].createdAt)
    && |ids| <= BATCH_SIZE
    && (forall k :: k in table && table[k].status.Pending? && k !in ids ==>
          |ids| == BATCH_SIZE && forall i :: 0 <= i < |ids| ==> table[ids[i]].createdAt <= table[k].createdAt)
  }

  function PendingIds(table: map<nat, Row>): set<nat> {
    set k | k in table && table[k].status.Pending?
  }

  ghost predicate AllAcked(kafka: nat -> Outcome) {
    forall k :: kafka(k).Acked?
  }

  function Less(n: nat, m: nat): nat { if n < m then 0 else n - m }

  /** The pause before round i. */
  function Before(sleeps: seq<nat>, i: nat): nat
    requires i <= |sleeps|
  {
    if i == 0 then MIN_SLEEP else sleeps[i - 1]
  }

  ghost predicate Paused(sleeps: seq<nat>, published: seq<nat>) {
    && |sleeps| == |published|
    && (forall i :: 0 <= i <= |sleeps| ==> MIN_SLEEP <= Before(sleeps, i) <= MAX_SLEEP)
    && (forall i :: 0 <= i < |sleeps| ==> sleeps[i] == Pause(Before(sleeps, i), published[i] > 0))
  }

  /** The backoff after a round: minimal once something was published, else doubled up to the maximum. */
  function Pause(backoff: nat, published: bool): nat {
    if published then MIN_SLEEP else if backoff * 2 < MAX_SLEEP then backoff * 2 else MAX_SLEEP
  }

  /** Rounds that publish nothing after one that did: the pause doubles from one second to thirty and stays there. */
  lemma QuietPauses(sleeps: seq<nat>, published: seq<nat>, i: nat)
    requires Paused(sleeps, published) && i + 6 < |sleeps|
    requires published[i] > 0 && forall k :: i < k <= i + 6 ==> published[k] == 0
    ensures sleeps[i..i + 7] == [1, 2, 4, 8, 16, 30, 30]
  {
    assert forall k :: i < k <= i + 6 ==> Before(sleeps, k) == sleeps[k - 1];
    assert sleeps[i] == 1;
    assert sleeps[i + 1] == 2;
    assert sleeps[i + 2] == 4;
    assert sleeps[i + 3] == 8;
    assert sleeps[i + 4] == 16;
    assert sleeps[i + 5] == 30;
    assert sleeps[i + 6] == 30;
  }

  function Ids(copies: seq<Copy>): seq<nat> {
    seq(|copies|, i requires 0 <= i < |copies| => copies[i].id)
  }

  /* ---- One send ---- */

  lemma SendAccounted(view: map<nat, Row>, created: seq<nat>, sends: seq<Sent>, id: nat, o: Outcome, now: nat)
    requires Accounted(view, created, sends) && id in view && Unsent(view[id])
    ensures Accounted(view[id := AfterSend(view[id], o, now)], created, sends + [Sent(id, o)])
  {
    var view', sends' := view[id := AfterSend(view[id], o, now)], sends + [Sent(id, o)];
    assert RowAccounted(view[id], Attempts(sends, id), Acks(sends, id));
    forall k: nat
      ensures Attempts(sends', k) == Attempts(sends, k) + if k == id then 1 else 0
      ensures Acks(sends', k) == Acks(sends, k) + if k == id && o.Acked? then 1 else 0
    {
      SendCounts(sends, Sent(id, o), k);
    }
    hide Attempts, Acks;
  }

  lemma SendInOrder(view: map<nat, Row>, created: seq<nat>, sends: seq<Sent>, id: nat, now: nat)
    requires InOrder(view, created, Log(sends)) && id in view && Unsent(view[id])
    requires forall k :: k in view && k != id && Unsent(view[k]) ==> k < |created| && created[id] < created[k]
    ensures InOrder(view[id := AfterSend(view[id], Acked, now)], created, Log(sends + [Sent(id, Acked)]))
  {
    SendCounts(sends, Sent(id, Acked), id);
    var log, log' := Log(sends), Log(sends + [Sent(id, Acked)]);
    hide Log;
    forall i | 0 <= i < |log'| ensures if i < |log| then log'[i] == log[i] else log'[i] == id {}
  }

  lemma OccurrencesNext(log: seq<nat>, more: nat, id: nat)
    ensures Occurrences(log + [more], id) == Occurrences(log, id) + if more == id then 1 else 0
  {
    assert (log + [more])[..|log + [more]| - 1] == log;
  }

  /** The row is in the topic once per acknowledged send and once per send whose error hid a delivery. */
  lemma {:induction false} LogCounts(sends: seq<Sent>, id: nat)
    ensures Occurrences(Log(sends), id) == Acks(sends, id) + Hidden(sends, id)
    ensures Acks(sends, id) + Hidden(sends, id) <= Attempts(sends, id)
  {
    if sends != [] {
      var before, last := sends[..|sends| - 1], sends[|sends| - 1];
      LogCounts(before, id);
      assert sends == before + [last];
      SendCounts(before, last, id);
      OccurrencesNext(Log(before), last.id, id);
      hide Log, Attempts, Acks, Hidden, Occurrences;
      assert Log(before) + [] == Log(before);
    }
  }

  /** What the loop's accounts mean for any row, deleted ones included: at most ten sends, at most one acknowledged; its
      occurrences in the topic are counted exactly, so it is there at most once if and only if no error hid a delivery
      beside its acknowledgement or a second one. */
  lemma SentAtMostTen(table: map<nat, Row>, created: seq<nat>, sends: seq<Sent>, id: nat)
    requires Accounted(table, created, sends)
    ensures Attempts(sends, id) <= 10 && Acks(sends, id) <= 1
    ensures Occurrences(Log(sends), id) == Acks(sends, id) + Hidden(sends, id) <= 10
    ensures Occurrences(Log(sends), id) <= 1 <==>
            Hidden(sends, id) == 0 || (Hidden(sends, id) == 1 && Acks(sends, id) == 0)
    ensures id in table && table[id].status.Published? ==> Acks(sends, id) == 1
    ensures id in table && table[id].status.Failed? ==>
            Attempts(sends, id) == 10 && Acks(sends, id) == 0
  {
    LogCounts(sends, id);
  }

  /* ---- Maintenance ---- */

  lemma CleanupKeeps(table: map<nat, Row>, created: seq<nat>, sends: seq<Sent>, now: nat)
    requires NonePublishing(table)
    ensures NonePublishing(CleanupRows(table, now))
    ensures Accounted(table, created, sends) ==> Accounted(CleanupRows(table, now), created, sends)
    ensures InOrder(table, created, Log(sends)) ==> InOrder(CleanupRows(table, now), created, Log(sends))
  {
    hide RowAccounted, Expired, Attempts, Acks, Log;
  }

  lemma CleanupPending(table: map<nat, Row>, now: nat)
    ensures PendingIds(CleanupRows(table, now)) == PendingIds(table)
  {
  }

  /* ---- Claiming and confirming leave the accounts as they are ---- */

  lemma ClaimAccounted(table: map<nat, Row>, created: seq<nat>, sends: seq<Sent>, ids: seq<nat>)
    requires Accounted(table, created, sends) && IsBatch(table, ids)
    ensures Accounted(ClaimRows(table, ids), created, sends)
    ensures InOrder(table, created, Log(sends)) ==> InOrder(ClaimRows(table, ids), created, Log(sends))
  {
    hide Attempts, Acks, Log;
  }

  lemma {:induction false} Earliest(table: map<nat, Row>, ids: set<nat>) returns (e: nat)
    requires ids != {} && forall k :: k in ids ==> k in table
    ensures e in ids && forall j :: j in ids ==> table[e].createdAt <= table[j].createdAt
    decreases |ids|
  {
    var k :| k in ids;
    e := k;
    var rest := ids - {k};
    assert ids == rest + {k};
    if rest != {} {
      var d := Earliest(table, rest);
      if table[d].createdAt < table[k].createdAt { e := d; }
    }
  }

  lemma IncreasingPrefix(created: seq<nat>, more: seq<nat>)
    requires Increasing(created + more)
    ensures Increasing(created)
  {
    forall i, j | 0 <= i < j < |created| ensures created[i] < created[j] {
      assert (created + more)[i] < (created + more)[j];
    }
  }

  /* ---- A batch on its way ---- */

  function Overwrite(table: map<nat, Row>, copies: seq<Copy>): map<nat, Row> {
    if copies == [] then table
    else Overwrite(table, copies[..|copies| - 1])[copies[|copies| - 1].id := copies[|copies| - 1].row]
  }

  lemma OverwriteNext(table: map<nat, Row>, copies: seq<Copy>, c: Copy)
    ensures Overwrite(table, copies + [c]) == Overwrite(table, copies)[c.id := c.row]
  {
    assert (copies + [c])[..|copies + [c]| - 1] == copies;
  }

  /** With no other relay every loaded row is the current one, and merging the copies overwrites their rows. */
  lemma {:induction false} MergeIsOverwrite(table: map<nat, Row>, loaded: map<nat, Row>, copies: seq<Copy>)
    requires forall i :: 0 <= i < |copies| ==>
               && copies[i].id in table && copies[i].row.createdAt == table[copies[i].id].createdAt
               && copies[i].id in loaded && loaded[copies[i].id] == table[copies[i].id]
    ensures MergeAll(table, loaded, copies) == Overwrite(table, copies)
  {
    if copies != [] {
      MergeIsOverwrite(table, loaded, copies[..|copies| - 1]);
      var c := copies[|copies| - 1];
      assert MergeRow(loaded[c.id], c.row, table[c.id]) == c.row;
    }
  }

  /** The relay's copies once the sends numbered from `from` have ended. */
  function Outcomes(claimed: seq<Copy>, kafka: nat -> Outcome, from: nat, now: nat): seq<Copy> {
    seq(|claimed|, i requires 0 <= i < |claimed| =>
      Copy(claimed[i].id, AfterSend(claimed[i].row, kafka(from + i), now)))
  }

  /** The claimed rows are all there is in status publishing, and the copies are those rows. */
  ghost predicate Holds(table: map<nat, Row>, claimed: seq<Copy>, from: nat) {
    && (forall i :: from <= i < |claimed| ==>
          claimed[i].id in table && table[claimed[i].id] == claimed[i].row && claimed[i].row.status.Publishing?)
    && (forall i, j :: 0 <= i < j < |claimed| ==> claimed[i].id != claimed[j].id)
    && (forall k :: k in table && table[k].status.Publishing? ==>
        exists i :: from <= i < |claimed| && claimed[i].id == k)
  }

  /** Each claimed row is earlier than the next, and than everything left behind. */
  ghost predicate Foremost(table: map<nat, Row>, created: seq<nat>, claimed: seq<Copy>) {
    && (forall k :: k in table ==> k < |created|)
    && (forall i :: 0 <= i < |claimed| ==> claimed[i].id < |created|)
    && (forall i, j :: 0 <= i < j < |claimed| ==> created[claimed[i].id] < created[claimed[j].id])
    && (forall i, k :: 0 <= i < |claimed| && k in table && table[k].status.Pending? ==>
          created[claimed[i].id] < created[k])
  }

  lemma ClaimHolds(table: map<nat, Row>, ids: seq<nat>)
    requires NonePublishing(table) && IsBatch(table, ids)
    ensures Holds(ClaimRows(table, ids), Copies(table, ids), 0)
  {
    var claimed, after := Copies(table, ids), ClaimRows(table, ids);
    forall k | k in after && after[k].status.Publishing? ensures exists i :: 0 <= i < |claimed| && claimed[i].id == k {
      var i :| 0 <= i < |ids| && ids[i] == k;
      assert claimed[i].id == k;
    }
  }

  lemma ClaimForemost(table: map<nat, Row>, created: seq<nat>, sends: seq<Sent>, ids: seq<nat>)
    requires Accounted(table, created, sends) && IsBatch(table, ids) && Increasing(created)
    ensures Foremost(ClaimRows(table, ids), created, Copies(table, ids))
  {
    var claimed, after := Copies(table, ids), ClaimRows(table, ids);
    assert forall k :: k in table ==> k < |created| && table[k].createdAt == created[k];
    hide Accounted;
    forall i, j | 0 <= i < j < |claimed| ensures created[claimed[i].id] < created[claimed[j].id] {
      assert table[ids[i]].createdAt <= table[ids[j]].createdAt && ids[i] != ids[j];
    }
    forall i, k | 0 <= i < |claimed| && k in after && after[k].status.Pending?
      ensures created[claimed[i].id] < created[k]
    {
      assert k !in ids;
    }
  }

  lemma HoldsNext(view: map<nat, Row>, claimed: seq<Copy>, n: nat, row: Row)
    requires Holds(view, claimed, n) && n < |claimed| && !row.status.Publishing?
    ensures Holds(view[claimed[n].id := row], claimed, n + 1)
  {
    var view' := view[claimed[n].id := row];
    forall k | k in view' && view'[k].status.Publishing?
      ensures exists i :: n + 1 <= i < |claimed| && claimed[i].id == k
    {
      assert k in view && view[k].status.Publishing?;
      var i :| n <= i < |claimed| && claimed[i].id == k;
      assert i != n;
    }
  }

  lemma ForemostSend(view: map<nat, Row>, created: seq<nat>, claimed: seq<Copy>, n: nat, sends: seq<Sent>, now: nat)
    requires Holds(view, claimed, n) && n < |claimed| && Foremost(view, created, claimed)
    requires InOrder(view, created, Log(sends))
    ensures
      var id := claimed[n].id;
      var view' := view[id := AfterSend(view[id], Acked, now)];
      Foremost(view', created, claimed) && InOrder(view', created, Log(sends + [Sent(id, Acked)]))
  {
    var id := claimed[n].id;
    forall k | k in view && k != id && Unsent(view[k]) ensures created[id] < created[k] {
      if view[k].status.Publishing? {
        var i :| n <= i < |claimed| && claimed[i].id == k;
      }
    }
    hide InOrder, Log;
    SendInOrder(view, created, sends, id, now);
  }

  lemma OverwriteNothing(table: map<nat, Row>)
    ensures Overwrite(table, []) == table
  {
  }

  lemma NextHeld(view: map<nat, Row>, claimed: seq<Copy>, n: nat)
    requires Holds(view, claimed, n) && n < |claimed|
    ensures claimed[n].id in view && view[claimed[n].id] == claimed[n].row && Unsent(claimed[n].row)
  {
  }

  lemma NotPublishing(row: Row, o: Outcome, now: nat)
    ensures !AfterSend(row, o, now).status.Publishing?
  {
  }

  lemma AllHeldDone(view: map<nat, Row>, claimed: seq<Copy>)
    requires Holds(view, claimed, |claimed|)
    ensures NonePublishing(view)
  {
  }

  lemma NoneHeld(table: map<nat, Row>)
    requires Holds(table, [], 0)
    ensures NonePublishing(table)
  {
  }

  function Elements(ids: seq<nat>): set<nat> { set k | k in ids }

  lemma {:induction false} DistinctSize(ids: seq<nat>)
    requires forall i, j :: 0 <= i < j < |ids| ==> ids[i] != ids[j]
    ensures |Elements(ids)| == |ids|
  {
    if ids == [] {
      assert Elements(ids) == {};
    } else {
      var before, last := ids[..|ids| - 1], ids[|ids| - 1];
      DistinctSize(before);
      assert ids == before + [last] && last !in Elements(before);
      assert Elements(ids) == Elements(before) + {last};
    }
  }

  lemma BatchSize(table: map<nat, Row>, ids: seq<nat>)
    requires IsBatch(table, ids)
    ensures |PendingIds(table) - Elements(ids)| == Less(|PendingIds(table)|, BATCH_SIZE)
    ensures ids == [] ==> PendingIds(table) == {}
  {
    var rest := PendingIds(table) - Elements(ids);
    DistinctSize(ids);
    assert PendingIds(table) == rest + Elements(ids) && rest !! Elements(ids);
    assert |PendingIds(table)| == |rest| + |ids|;
    if rest != {} {
      var k :| k in rest;
      assert |ids| == BATCH_SIZE;
    }
  }

  /** A claim takes the batch and nothing else out of the pending rows. */
  lemma ClaimLeaves(table: map<nat, Row>, ids: seq<nat>)
    requires IsBatch(table, ids)
    ensures |PendingIds(ClaimRows(table, ids))| == Less(|PendingIds(table)|, BATCH_SIZE)
  {
    BatchSize(table, ids);
    assert PendingIds(ClaimRows(table, ids)) == PendingIds(table) - Elements(ids);
  }

  lemma {:induction false} OverwriteAt(table: map<nat, Row>, copies: seq<Copy>, k: nat)
    requires forall i, j :: 0 <= i < j < |copies| ==> copies[i].id != copies[j].id
    ensures (forall i :: 0 <= i < |copies| ==> copies[i].id != k) ==>
              && (k in Overwrite(table, copies) <==> k in table)
              && (k in table ==> Overwrite(table, copies)[k] == table[k])
    ensures forall i :: 0 <= i < |copies| && copies[i].id == k ==>
              k in Overwrite(table, copies) && Overwrite(table, copies)[k] == copies[i].row
  {
    if copies != [] {
      OverwriteAt(table, copies[..|copies| - 1], k);
    }
  }

  /** When every send is acknowledged, no claimed row comes back. */
  lemma AckedLeaves(table: map<nat, Row>, claimed: seq<Copy>, kafka: nat -> Outcome, from: nat, now: nat)
    requires Holds(table, claimed, 0) && AllAcked(kafka)
    ensures PendingIds(Overwrite(table, Outcomes(claimed, kafka, from, now))) == PendingIds(table)
  {
    var sent := Outcomes(claimed, kafka, from, now);
    var after := Overwrite(table, sent);
    forall k: nat ensures k in PendingIds(after) <==> k in PendingIds(table) {
      OverwriteAt(table, sent, k);
      if i :| 0 <= i < |sent| && sent[i].id == k {
        assert claimed[i].id == k;
      }
    }
  }

  function CountPublished(sent: seq<Copy>): nat {
    if sent == [] then 0
    else CountPublished(sent[..|sent| - 1]) + if sent[|sent| - 1].row.status.Published? then 1 else 0
  }

  /** Some row was published exactly when some send was acknowledged. */
  lemma {:induction false} SomePublished(claimed: seq<Copy>, sent: seq<Copy>, batch: seq<Sent>, now: nat)
    requires |claimed| == |sent| == |batch|
    requires forall i :: 0 <= i < |sent| ==>
               && !claimed[i].row.status.Published?
               && sent[i] == Copy(claimed[i].id, AfterSend(claimed[i].row, batch[i].outcome, now))
    ensures CountPublished(sent) > 0 <==> exists s :: s in batch && s.outcome.Acked?
  {
    if sent != [] {
      var n := |sent| - 1;
      SomePublished(claimed[..n], sent[..n], batch[..n], now);
      assert batch == batch[..n] + [batch[n]];
    }
  }

  lemma NoPauses()
    ensures Paused([], [])
  {
  }

  lemma PausedNext(sleeps: seq<nat>, published: seq<nat>, count: nat)
    requires Paused(sleeps, published)
    ensures Paused(sleeps + [Pause(Before(sleeps, |sleeps|), count > 0)], published + [count])
  {
    var sleeps' := sleeps + [Pause(Before(sleeps, |sleeps|), count > 0)];
    forall i | 0 <= i <= |sleeps| ensures Before(sleeps', i) == Before(sleeps, i) {}
    assert MIN_SLEEP <= Before(sleeps, |sleeps|) <= MAX_SLEEP;
    assert Before(sleeps', |sleeps'|) == Pause(Before(sleeps, |sleeps|), count > 0);
  }

  /* ---- Rows becoming visible ---- */

  /** The table once rows with the given creation times have become visible, numbered from `from`. */
  function WithRows(table: map<nat, Row>, from: nat, at: seq<nat>): map<nat, Row> {
    if at == [] then table
    else WithRows(table, from, at[..|at| - 1])[from + |at| - 1 := NewRow(at[|at| - 1])]
  }

  lemma ArrivalAccounted(table: map<nat, Row>, created: seq<nat>, sends: seq<Sent>, at: nat)
    requires Accounted(table, created, sends)
    ensures
      var table', created' := table[|created| := NewRow(at)], created + [at];
      && Accounted(table', created', sends) && |PendingIds(table')| == |PendingIds(table)| + 1
      && (NonePublishing(table) ==> NonePublishing(table'))
  {
    hide Attempts, Acks;
    assert PendingIds(table[|created| := NewRow(at)]) == PendingIds(table) + {|created|};
  }

  lemma ArrivalHolds(table: map<nat, Row>, created: seq<nat>, claimed: seq<Copy>, at: nat)
    requires |created| !in table && Holds(table, claimed, 0)
    ensures Holds(table[|created| := NewRow(at)], claimed, 0)
  {
  }

  lemma ArrivalOrder(table: map<nat, Row>, created: seq<nat>, log: seq<nat>, claimed: seq<Copy>, at: nat)
    requires Increasing(created + [at]) && |created| !in table
    ensures InOrder(table, created, log) ==> InOrder(table[|created| := NewRow(at)], created + [at], log)
    ensures Foremost(table, created, claimed) ==> Foremost(table[|created| := NewRow(at)], created + [at], claimed)
  {
    var created' := created + [at];
    assert forall i :: 0 <= i < |created| ==> created[i] == created'[i] < created'[|created|];
    hide Increasing;
  }

  lemma ArrivalKeeps(table: map<nat, Row>, created: seq<nat>, sends: seq<Sent>, claimed: seq<Copy>, at: nat)
    requires Accounted(table, created, sends)
    ensures
      var table', created' := table[|created| := NewRow(at)], created + [at];
      && Accounted(table', created', sends) && |PendingIds(table')| == |PendingIds(table)| + 1
      && (NonePublishing(table) ==> NonePublishing(table'))
      && (Holds(table, claimed, 0) ==> Holds(table', claimed, 0))
      && (InOrder(table, created, Log(sends)) && Increasing(created') ==> InOrder(table', created', Log(sends)))
      && (Foremost(table, created, claimed) && Increasing(created') ==> Foremost(table', created', claimed))
  {
    assert |created| !in table;
    hide Accounted, NonePublishing, Holds, InOrder, Foremost, Increasing, PendingIds, Log;
    ArrivalAccounted(table, created, sends, at);
    if Holds(table, claimed, 0) { ArrivalHolds(table, created, claimed, at); }
    if Increasing(created + [at]) { ArrivalOrder(table, created, Log(sends), claimed, at); }
  }

  /** Arrivals leave the accounts, the batch in hand and the order as they are, and add to what is pending. */
  lemma {:induction false} ArrivalsKeep(table: map<nat, Row>, created: seq<nat>, sends: seq<Sent>, claimed: seq<Copy>,
                                        at: seq<nat>)
    requires Accounted(table, created, sends)
    ensures
      var table', created' := WithRows(table, |created|, at), created + at;
      && Accounted(table', created', sends) && |PendingIds(table')| == |PendingIds(table)| + |at|
      && (NonePublishing(table) ==> NonePublishing(table'))
      && (Holds(table, claimed, 0) ==> Holds(table', claimed, 0))
      && (InOrder(table, created, Log(sends)) && Increasing(created') ==> InOrder(table', created', Log(sends)))
      && (Foremost(table, created, claimed) && Increasing(created') ==> Foremost(table', created', claimed))
  {
    hide Accounted, NonePublishing, Holds, InOrder, Foremost, Increasing, PendingIds, Log;
    if at == [] {
      assert created + at == created;
    } else {
      var before, last := at[..|at| - 1], at[|at| - 1];
      ArrivalsKeep(table, created, sends, claimed, before);
      ArrivalKeeps(WithRows(table, |created|, before), created + before, sends, claimed, last);
      assert created + at == created + before + [last];
      if Increasing(created + at) { IncreasingPrefix(created + before, [last]); }
    }
  }
}
