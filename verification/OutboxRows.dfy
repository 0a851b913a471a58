/**
 What each action of the relay machine does to one row of the outbox: who may change it, when it leaves the table, and
 what a merged copy takes from it. Times in seconds.
 */
module OutboxRows {
  import opened Wrappers
  import opened Outbox

  /** What a merge leaves of a row: the columns that the relay changed since it loaded the row are the copy's, the
      others are the row's own, whatever happened to it meanwhile. */
  ghost predicate MergedInto(row: Row, loaded: Row, copy: Row, after: Row) {
    && after.createdAt == row.createdAt
    && after.status == (if copy.status != loaded.status then copy.status else row.status)
    && after.retries == (if copy.retries != loaded.retries then copy.retries else row.retries)
    && after.publishedAt == (if copy.publishedAt != loaded.publishedAt then copy.publishedAt else row.publishedAt)
  }

  /** The relay's transaction merges a copy of the row. */
  ghost predicate MergesCopy(s: State, a: Action, id: nat, after: Row)
    requires id in s.table
  {
    && a.Confirm? && a.r < |s.relays| && s.relays[a.r].Merging? && id in s.relays[a.r].loaded
    && exists k :: 0 <= k < |s.relays[a.r].copies| && s.relays[a.r].copies[k].id == id
                   && MergedInto(s.table[id], s.relays[a.r].loaded[id], s.relays[a.r].copies[k].row, after)
  }

  lemma {:induction false} MergedRow(table: map<nat, Row>, loaded: map<nat, Row>, copies: seq<Copy>, id: nat)
    requires Mergeable(table, loaded, copies)
    ensures
      var after := MergeAll(table, loaded, copies);
      && (id in table ==> id in after)
      && (id in table && after[id] != table[id] ==>
            exists k :: 0 <= k < |copies| && copies[k].id == id && id in loaded
                        && MergedInto(table[id], loaded[id], copies[k].row, after[id]))
      && (id !in table && id in after ==> id !in loaded && Copy(id, after[id]) in copies)
  {
    if copies != [] {
      var before, c := copies[..|copies| - 1], copies[|copies| - 1];
      assert copies == before + [c];
      forall i | 0 <= i < |before| ensures before[i].id in loaded <==> before[i].id in table {
        assert before[i] == copies[i];
      }
      MergedRow(table, loaded, before, id);
      if c.id == id && id in table {
        assert copies[|copies| - 1].id in loaded;
        assert MergedInto(table[id], loaded[id], copies[|copies| - 1].row, MergeAll(table, loaded, copies)[id]);
      }
      assert c.id == id && id !in table ==> copies[|copies| - 1] == Copy(id, MergeAll(table, loaded, copies)[id]);
    }
  }

  /** In every run a row changes only when a relay claims it while pending, when the reset finds it publishing and older
      than five minutes, or when a relay merges its copy; each does that and no more. */
  lemma RowChanges(relays: nat, actions: seq<Action>, s: State, a: Action, id: nat)
    requires s == Steps(Initial(relays), actions)
    requires id in s.table && id in Step(s, a).table && Step(s, a).table[id] != s.table[id]
    ensures
      var row, after := s.table[id], Step(s, a).table[id];
      || (a.Claim? && id in a.ids && |a.ids| <= 100 && row.status.Pending? && after == row.(status := Publishing))
      || (a.Reset? && row.status.Publishing? && row.createdAt + 300 < s.now && after == row.(status := Pending))
      || MergesCopy(s, a, id, after)
  {
    Reachable(relays, actions);
    assert id in s.failures by { assert Honest(id, s.table[id], s.log, s.failures); }
    hide Steps, Inv, MergesCopy, MergeAll, Mergeable;
    if a.Confirm? && a.r < |s.relays| && s.relays[a.r].Merging? {
      ConfirmedRow(s, a, id);
    } else if a.Claim? {
      assert Step(s, a).table == s.table
          || (Claimable(s.table, a.ids) && Step(s, a).table == ClaimRows(s.table, a.ids));
    }
  }

  lemma ConfirmedRow(s: State, a: Action, id: nat)
    requires a.Confirm? && a.r < |s.relays| && s.relays[a.r].Merging?
    ensures
      var after := Step(s, a).table;
      && (id in s.table ==> id in after && (after[id] != s.table[id] ==> MergesCopy(s, a, id, after[id])))
      && (id !in s.table && id in after ==>
            id !in s.relays[a.r].loaded && Copy(id, after[id]) in s.relays[a.r].copies)
  {
    var relay := s.relays[a.r];
    if Mergeable(s.table, relay.loaded, relay.copies) {
      MergedRow(s.table, relay.loaded, relay.copies, id);
    }
    hide MergeAll, Mergeable;
  }

  /** A row leaves the table only by the cleanup, seven days after it was published or thirty days after it was created
      and given up; it appears only by a commit, pending and untried, or when a relay merges a copy of a row that was
      gone before the relay looked for it. */
  lemma RowsComeAndGo(s: State, a: Action, id: nat)
    ensures
      id in s.table && id !in Step(s, a).table <==>
      && a.Cleanup? && id in s.table
      && (var row := s.table[id];
          || (row.status.Published? && row.publishedAt.Some? && row.publishedAt.value + 604_800 < s.now)
          || (row.status.Failed? && row.createdAt + 2_592_000 < s.now))
    ensures
      id !in s.table && id in Step(s, a).table ==>
      || (a.Commit? && a.id == id && Step(s, a).table[id] == Row(Pending, 0, a.createdAt, None))
      || (&& a.Confirm? && a.r < |s.relays| && s.relays[a.r].Merging? && id !in s.relays[a.r].loaded
          && Copy(id, Step(s, a).table[id]) in s.relays[a.r].copies)
  {
    if a.Confirm? && a.r < |s.relays| && s.relays[a.r].Merging? {
      ConfirmedRow(s, a, id);
    }
    hide MergeAll, Mergeable;
  }

  /** The reset leaves a publishing row alone if and only if it is not older than five minutes. */
  lemma ResetExactly(s: State, id: nat)
    requires id in s.table && s.table[id].status.Publishing?
    ensures id in Step(s, Reset).table
    ensures Step(s, Reset).table[id].status == if s.table[id].createdAt + 300 < s.now then Pending else Publishing
  {
  }

  /** A send settles the relay's copy and nothing in the table: published with its time if acknowledged, else one more
      try counted and given up at the tenth. */
  lemma SendSettles(s: State, r: nat, outcome: Outcome)
    requires r < |s.relays| && s.relays[r].Sending? && s.relays[r].next < |s.relays[r].copies|
    ensures
      var copies, next := s.relays[r].copies, s.relays[r].next;
      var row, s' := copies[next].row, Step(s, Send(r, outcome));
      var settled :=
        if outcome.Acked? then Row(Published, row.retries, row.createdAt, Some(s.now))
        else Row(if row.retries < 9 then Pending else Failed, row.retries + 1, row.createdAt, row.publishedAt);
      && s'.relays == s.relays[r := Sending(copies[next := Copy(copies[next].id, settled)], next + 1)]
      && s'.table == s.table
      && s'.log == s.log + (if outcome.ErrorLost? then [] else [copies[next].id])
      && s'.failures.Keys == s.failures.Keys
      && (forall id :: id in s.failures ==>
            s'.failures[id] == s.failures[id] + (if id == copies[next].id && !outcome.Acked? then 1 else 0))
  {
    assert s.log + [] == s.log;
  }

  /** A relay that dies while it sends leaves the table as it was, forgets its copies, and may have delivered the row it
      was sending. */
  lemma CrashForgets(s: State, r: nat, delivered: bool)
    requires r < |s.relays| && s.relays[r].Sending? && s.relays[r].next < |s.relays[r].copies|
    ensures
      var id, s' := s.relays[r].copies[s.relays[r].next].id, Step(s, Crash(r, delivered));
      && s'.table == s.table && s'.failures == s.failures && s'.relays == s.relays[r := Ready]
      && s'.log == s.log + (if delivered then [id] else [])
  {
    assert s.log + [] == s.log;
  }
}
