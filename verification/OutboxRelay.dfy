/**
 One relay that does not crash: the loop itself, over a table that services keep adding to.
 */
module OutboxRelay {
  import opened Outbox
  import opened RelayAccounts
  import opened RelayRuns

  class Relay {
    var table: map<nat, Row>
    var created: seq<nat>
    var sends: seq<Sent>

    ghost predicate AtLoopHead()
      reads this
    {
      Accounted(table, created, sends) && NonePublishing(table)
    }

    constructor ()
      ensures AtLoopHead() && InOrder(table, created, Log(sends)) && table == map[] && created == [] && sends == []
    {
      table, created, sends := map[], [], [];
    }

    /** Services commit rows between two steps of the loop. */
    method ArriveAll(at: seq<nat>)
      modifies this`table, this`created
      ensures table == WithRows(old(table), |old(created)|, at) && created == old(created) + at
    {
      var n := 0;
      while n < |at|
        invariant 0 <= n <= |at|
        invariant table == WithRows(old(table), |old(created)|, at[..n]) && created == old(created) + at[..n]
      {
        assert at[..n + 1][..n] == at[..n];
        table, created := table[|created| := NewRow(at[n])], created + [at[n]];
        n := n + 1;
      }
      assert at[..|at|] == at;
    }

    /** `recover_stuck_rows`; returns the row count of the UPDATE. */
    method RecoverStuckRows(now: nat) returns (count: nat)
      modifies this`table
      ensures table == ResetRows(old(table), now)
      ensures count == |StuckIds(old(table), now)|
    {
      count := |StuckIds(table, now)|;
      table := map k | k in table :: if k in StuckIds(table, now) then table[k].(status := Pending) else table[k];
    }

    /** `cleanup_published_rows`; returns the row counts of its two DELETEs. */
    method CleanupPublishedRows(now: nat) returns (published: nat, failed: nat)
      modifies this`table
      ensures table == CleanupRows(old(table), now)
      ensures published + failed == |old(table)| - |table|
      ensures forall k :: k in old(table) && k !in table ==> !Unsent(old(table)[k])
    {
      CleanupInTwo(table, now);
      var expired := ExpiredIds(table, Published, now);
      published := |expired|;
      table := table - expired;
      expired := ExpiredIds(table, Failed, now);
      failed := |expired|;
      table := table - expired;
    }

    /** The SELECT of `claim_batch`. */
    method PickBatch() returns (ids: seq<nat>)
      ensures IsBatch(table, ids)
    {
      ids := [];
      var left := set k | k in table && table[k].status.Pending?;
      while left != {} && |ids| < BATCH_SIZE
        invariant |ids| <= BATCH_SIZE
        invariant forall k :: k in left ==> k in table && table[k].status.Pending? && k !in ids
        invariant forall k :: k in table && table[k].status.Pending? && k !in ids ==> k in left
        invariant forall i :: 0 <= i < |ids| ==> ids[i] in table && table[ids[i]].status.Pending?
        invariant forall i, j :: 0 <= i < j < |ids| ==>
                    ids[i] != ids[j] && table[ids[i]].createdAt <= table[ids[j]].createdAt
        invariant forall i, k :: 0 <= i < |ids| && k in left ==> table[ids[i]].createdAt <= table[k].createdAt
        decreases left
      {
        ghost var e := Earliest(table, left);
        var k :| k in left && forall j :: j in left ==> table[k].createdAt <= table[j].createdAt;
        ids, left := ids + [k], left - {k};
      }
    }

    method ClaimBatch() returns (claimed: seq<Copy>)
      modifies this`table
      ensures
        var ids := Ids(claimed);
        IsBatch(old(table), ids) && table == ClaimRows(old(table), ids) && claimed == Copies(old(table), ids)
    {
      var ids := PickBatch();
      claimed := Copies(table, ids);
      assert Ids(claimed) == ids;
      table := ClaimRows(table, ids);
    }

    /** Sends each claimed row and notes the outcome on the relay's copy. */
    method PublishAll(claimed: seq<Copy>, now: nat, kafka: nat -> Outcome) returns (sent: seq<Copy>)
      requires Accounted(table, created, sends) && Holds(table, claimed, 0)
      modifies this`sends
      ensures sent == Outcomes(claimed, kafka, |old(sends)|, now)
      ensures sends == old(sends) + Batch(claimed, kafka, |old(sends)|)
      ensures Accounted(Overwrite(table, sent), created, sends) && NonePublishing(Overwrite(table, sent))
      ensures
        AllAcked(kafka) && Foremost(table, created, claimed) && old(InOrder(table, created, Log(sends))) ==>
          InOrder(Overwrite(table, sent), created, Log(sends))
    {
      hide Accounted, Holds, Foremost, InOrder, Log, AfterSend, Overwrite;
      ghost var quiet := AllAcked(kafka) && Foremost(table, created, claimed) && InOrder(table, created, Log(sends));
      ghost var view, all, from := table, Outcomes(claimed, kafka, |sends|, now), |sends|;
      sent := [];
      assert Overwrite(table, []) == table by { OverwriteNothing(table); }
      while |sent| < |claimed|
        invariant |sent| <= |claimed| && sent == all[..|sent|]
        invariant sends == old(sends) + Batch(claimed, kafka, from)[..|sent|]
        invariant view == Overwrite(table, sent) && Accounted(view, created, sends) && Holds(view, claimed, |sent|)
        invariant quiet ==> Foremost(view, created, claimed) && InOrder(view, created, Log(sends))
      {
        var c, outcome := claimed[|sent|], kafka(|sends|);
        NextHeld(view, claimed, |sent|);
        SendAccounted(view, created, sends, c.id, outcome, now);
        if quiet { ForemostSend(view, created, claimed, |sent|, sends, now); }
        NotPublishing(c.row, outcome, now);
        HoldsNext(view, claimed, |sent|, AfterSend(c.row, outcome, now));
        OverwriteNext(table, sent, Copy(c.id, AfterSend(c.row, outcome, now)));
        view := view[c.id := AfterSend(c.row, outcome, now)];
        sends := sends + [Sent(c.id, outcome)];
        sent := sent + [Copy(c.id, AfterSend(c.row, outcome, now))];
      }
      AllHeldDone(view, claimed);
      assert all[..|claimed|] == all && Batch(claimed, kafka, from)[..|claimed|] == Batch(claimed, kafka, from);
    }

    /** Writes the relay's copies back. */
    method ConfirmBatch(rows: seq<Copy>)
      modifies this`table
      ensures table == Overwrite(old(table), rows)
    {
      var n := 0;
      while n < |rows|
        invariant 0 <= n <= |rows| && table == Overwrite(old(table), rows[..n])
      {
        OverwriteNext(old(table), rows[..n], rows[n]);
        assert rows[..n + 1] == rows[..n] + [rows[n]];
        table := table[rows[n].id := rows[n].row];
        n := n + 1;
      }
      assert rows[..|rows|] == rows;
    }

    /** The rest of a round, with a batch in hand. */
    method Publish(claimed: seq<Copy>, now: nat, kafka: nat -> Outcome) returns (published: nat)
      requires Accounted(table, created, sends) && Holds(table, claimed, 0)
      modifies this`table, this`sends
      ensures AtLoopHead() && sends == old(sends) + Batch(claimed, kafka, |old(sends)|)
      ensures table == Overwrite(old(table), Outcomes(claimed, kafka, |old(sends)|, now))
      ensures published > 0 <==> exists s :: s in sends[|old(sends)|..] && s.outcome.Acked?
      ensures AllAcked(kafka) && Foremost(old(table), created, claimed) && old(InOrder(table, created, Log(sends))) ==>
                InOrder(table, created, Log(sends))
    {
      hide Accounted, NonePublishing, InOrder, Log, Foremost, Overwrite, AfterSend, CountPublished, AllAcked;
      var sent := PublishAll(claimed, now, kafka);
      assert forall i :: 0 <= i < |claimed| ==> !claimed[i].row.status.Published?;
      hide Holds;
      assert sends[|old(sends)|..] == Batch(claimed, kafka, |old(sends)|);
      SomePublished(claimed, sent, sends[|old(sends)|..], now);
      ConfirmBatch(sent);
      published := CountPublished(sent);
    }

    /** One claim, its sends and its confirmation, with rows of creation times `late` committed after the claim: the
        batch is sent once, in order, and nothing else changes. */
    method Round(now: nat, late: seq<nat>, kafka: nat -> Outcome) returns (published: nat, ids: seq<nat>)
      requires AtLoopHead()
      modifies this`table, this`created, this`sends
      ensures AtLoopHead() && IsBatch(old(table), ids) && created == old(created) + late
      ensures table == RoundTable(old(table), old(created), ids, late, kafka, |old(sends)|, now)
      ensures sends == old(sends) + Batch(Copies(old(table), ids), kafka, |old(sends)|)
      ensures published > 0 <==> exists s :: s in sends[|old(sends)|..] && s.outcome.Acked?
      ensures AllAcked(kafka) ==> |PendingIds(table)| == Less(|PendingIds(old(table))|, 100) + |late|
      ensures AllAcked(kafka) && Increasing(created) && old(InOrder(table, created, Log(sends))) ==>
                InOrder(table, created, Log(sends))
    {
      hide Accounted, NonePublishing, InOrder, Log, Increasing, IsBatch, ClaimRows, Copies, Overwrite, Holds, Foremost,
           PendingIds,
           AllAcked, Outcomes, WithRows, Batch;
      ghost var before, rows := table, created;
      var claimed := ClaimBatch();
      ids := Ids(claimed);
      ClaimAccounted(before, created, sends, ids);
      ClaimHolds(before, ids);
      ClaimLeaves(before, ids);
      if Increasing(created + late) {
        IncreasingPrefix(created, late);
        ClaimForemost(before, created, sends, ids);
      }
      ArrivalsKeep(table, created, sends, claimed, late);
      if claimed == [] {
        NoneHeld(table);
        NoClaim(before, ids, kafka, |sends|, now);
        ArriveAll(late);
        assert sends + [] == sends;
        return 0, ids;
      }
      ArriveAll(late);
      if AllAcked(kafka) { AckedLeaves(table, claimed, kafka, |sends|, now); }
      published := Publish(claimed, now, kafka);
    }

    /** The periodic part of the loop, with the times of its last recovery and cleanup. */
    method Maintain(now: nat, lastRecovery: nat, lastCleanup: nat, ghost start: State, ghost run: seq<Action>)
      returns (recovered: nat, lastRecovery': nat, lastCleanup': nat, ghost run': seq<Action>)
      requires AtLoopHead() && Led(start, run, table, created, sends, now)
      modifies this`table
      ensures AtLoopHead() && recovered == 0 && PendingIds(table) == old(PendingIds(table))
      ensures table == if now > lastCleanup + 86_400 then CleanupRows(old(table), now) else old(table)
      ensures lastRecovery' == if now > lastRecovery + 300 then now else lastRecovery
      ensures lastCleanup' == if now > lastCleanup + 86_400 then now else lastCleanup
      ensures old(InOrder(table, created, Log(sends))) ==> InOrder(table, created, Log(sends))
      ensures Led(start, run', table, created, sends, now)
    {
      hide Accounted, NonePublishing, InOrder, Log, PendingIds, ResetRows, CleanupRows, StuckIds, Led;
      recovered, lastRecovery', lastCleanup', run' := 0, lastRecovery, lastCleanup, run;
      if now > lastRecovery + RECOVERY_EVERY {
        NoneStuck(table, now);
        ResetRun(start, run', table, created, sends, now);
        run' := run' + [Reset];
        recovered := RecoverStuckRows(now);
        lastRecovery' := now;
      }
      if now > lastCleanup + CLEANUP_EVERY {
        CleanupKeeps(table, created, sends, now);
        CleanupPending(table, now);
        CleanupRun(start, run', table, created, sends, now);
        run' := run' + [Cleanup];
        var deleted, failed := CleanupPublishedRows(now);
        lastCleanup' := now;
      }
    }

    /** One turn of the loop, the machine following. */
    method Iterate(now: nat, added: seq<nat>, late: seq<nat>, kafka: nat -> Outcome, lastRecovery: nat,
                   lastCleanup: nat,
                   ghost start: State, ghost run: seq<Action>, ghost time: nat)
      returns (published: nat, recovered: nat, lastRecovery': nat, lastCleanup': nat, ghost run': seq<Action>)
      requires AtLoopHead() && Led(start, run, table, created, sends, time) && time <= now
      modifies this
      ensures AtLoopHead() && recovered == 0 && created == old(created) + (added + late)
      ensures |old(sends)| <= |sends| && sends[..|old(sends)|] == old(sends)
      ensures lastRecovery' == if now > lastRecovery + 300 then now else lastRecovery
      ensures lastCleanup' == if now > lastCleanup + 86_400 then now else lastCleanup
      ensures published > 0 <==> exists s :: s in sends[|old(sends)|..] && s.outcome.Acked?
      ensures AllAcked(kafka) ==> |PendingIds(table)| == Less(|old(PendingIds(table))| + |added|, 100) + |late|
      ensures AllAcked(kafka) && Increasing(created) && old(InOrder(table, created, Log(sends))) ==>
                InOrder(table, created, Log(sends))
      ensures Led(start, run', table, created, sends, now)
    {
      hide Accounted, NonePublishing, InOrder, Log, Increasing, IsBatch, PendingIds, CleanupRows, AllAcked, Led,
           WithRows, RoundTable, RoundActions, Batch, Copies, Commits;
      TickRun(start, run, table, created, sends, time, now);
      ArrivalsRun(start, run + [Tick(now - time)], table, created, sends, now, added);
      run' := run + [Tick(now - time)] + Commits(|created|, added);
      ArrivalsKeep(table, created, sends, [], added);
      ArriveAll(added);
      recovered, lastRecovery', lastCleanup', run' := Maintain(now, lastRecovery, lastCleanup, start, run');
      ghost var table0, created0, sends0 := table, created, sends;
      var ids: seq<nat>;
      published, ids := Round(now, late, kafka);
      IterationRun(start, run', table0, created0, sends0, now, ids, late, kafka);
      run' := run' + RoundActions(created0, ids, late, kafka, |sends0|);
      assert created == old(created) + (added + late);
      if Increasing(created) { IncreasingPrefix(created0, late); }
    }

    /** `relay_loop` for any number of rounds. Rows have become visible with the creation times `arrivals(i)` before the
        claim of round i, and `late(i)` between that claim and its confirmation; the k-th send ends as `kafka(k)` says.
        `published` counts each round's acknowledged rows, `sleeps` are the pauses, `recovered` the rows reset. From a
        machine that is where the loop begins, `run` leads it to where the loop ends. */
    method RelayLoop(rounds: nat, clock: nat -> nat, arrivals: nat -> seq<nat>, late: nat -> seq<nat>,
                     kafka: nat -> Outcome,
                     ghost start: State)
      returns (published: seq<nat>, sleeps: seq<nat>, recovered: nat, ghost run: seq<Action>)
      requires AtLoopHead() && At(start, Ready, table, created, sends, start.now)
      requires forall i :: 0 <= i < rounds ==> start.now <= clock(i)
      requires forall i, j :: 0 <= i < j < rounds ==> clock(i) <= clock(j)
      modifies this
      ensures AtLoopHead() && recovered == 0
      ensures |old(created)| <= |created| && |old(sends)| <= |sends| && sends[..|old(sends)|] == old(sends)
      ensures |sleeps| == rounds && Paused(sleeps, published)
      ensures AllAcked(kafka) ==> |PendingIds(table)| == Backlog(|old(PendingIds(table))|, arrivals, late, rounds)
      ensures AllAcked(kafka) && Increasing(created) && old(InOrder(table, created, Log(sends))) ==>
                InOrder(table, created, Log(sends))
      ensures Led(start, run, table, created, sends, if rounds == 0 then start.now else clock(rounds - 1))
    {
      hide Accounted, NonePublishing, InOrder, Log, Increasing, PendingIds, AllAcked, Paused, At, Led;
      ghost var acked, ordered := AllAcked(kafka), InOrder(table, created, Log(sends));
      ghost var time := start.now;
      var backoff, lastRecovery, lastCleanup, round: nat := MIN_SLEEP, 0, 0, 0;
      published, sleeps, recovered, run := [], [], 0, [];
      assert Paused([], []) by { NoPauses(); }
      LedNowhere(start, table, created, sends);
      while round < rounds
        invariant round <= rounds && |sleeps| == round && Paused(sleeps, published)
        invariant backoff == Before(sleeps, round) && recovered == 0
        invariant AtLoopHead()
        invariant |old(created)| <= |created| && |old(sends)| <= |sends| && sends[..|old(sends)|] == old(sends)
        invariant acked && ordered && Increasing(created) ==> InOrder(table, created, Log(sends))
        invariant acked ==> |PendingIds(table)| == Backlog(|old(PendingIds(table))|, arrivals, late, round)
        invariant time == (if round == 0 then start.now else clock(round - 1))
                  && Led(start, run, table, created, sends, time)
      {
        var count: nat, sent: nat;
        ghost var rows := created;
        sent, count, lastRecovery, lastCleanup, run :=
          Iterate(clock(round), arrivals(round), late(round), kafka, lastRecovery, lastCleanup, start, run, time);
        time := clock(round);
        if Increasing(created) { IncreasingPrefix(rows, arrivals(round) + late(round)); }
        recovered := recovered + count;
        PausedNext(sleeps, published, sent);
        backoff := Pause(backoff, sent > 0);
        published, sleeps := published + [sent], sleeps + [backoff];
        round := round + 1;
      }
    }
  }

  function StuckIds(table: map<nat, Row>, now: nat): set<nat> {
    set k | k in table && table[k].status.Publishing? && table[k].createdAt + STUCK_AFTER < now
  }

  /** No row is publishing at a loop head, so the reset finds none. */
  lemma NoneStuck(table: map<nat, Row>, now: nat)
    requires NonePublishing(table)
    ensures StuckIds(table, now) == {} && ResetRows(table, now) == table
  {
  }

  function ExpiredIds(table: map<nat, Row>, status: Status, now: nat): set<nat> {
    set k | k in table && table[k].status == status && Expired(table[k], now)
  }

  lemma CleanupInTwo(table: map<nat, Row>, now: nat)
    ensures
      var first := table - ExpiredIds(table, Published, now);
      var second := first - ExpiredIds(first, Failed, now);
      && second == CleanupRows(table, now)
      && |ExpiredIds(table, Published, now)| + |ExpiredIds(first, Failed, now)| == |table| - |second|
  {
    var first := table - ExpiredIds(table, Published, now);
    Removed(table, ExpiredIds(table, Published, now));
    Removed(first, ExpiredIds(first, Failed, now));
  }

  lemma Removed(table: map<nat, Row>, gone: set<nat>)
    requires gone <= table.Keys
    ensures |table - gone| == |table| - |gone|
  {
    assert (table - gone).Keys == table.Keys - gone;
    assert |table| == |table.Keys| && |table - gone| == |(table - gone).Keys|;
  }

  /** With every send acknowledged, what is pending after the given rounds. */
  function Backlog(n: nat, arrivals: nat -> seq<nat>, late: nat -> seq<nat>, rounds: nat): nat {
    if rounds == 0 then n
    else Less(Backlog(n, arrivals, late, rounds - 1) + |arrivals(rounds - 1)|, BATCH_SIZE) + |late(rounds - 1)|
  }

  /** With nothing arriving, n pending rows take exactly ⌈n/100⌉ rounds. */
  lemma {:induction false} BacklogDrains(n: nat, arrivals: nat -> seq<nat>, late: nat -> seq<nat>, rounds: nat)
    requires forall i :: arrivals(i) == [] && late(i) == []
    ensures Backlog(n, arrivals, late, rounds) == Less(n, 100 * rounds)
  {
    if rounds > 0 { BacklogDrains(n, arrivals, late, rounds - 1); }
  }
}
