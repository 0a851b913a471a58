/**
 The lone relay's iteration as a run of the relay machine: the claim, rows committed meanwhile, one send per row, the
 loads of the merge and its commit.
 */
module RelayRuns {
  import opened Outbox
  import opened RelayAccounts

  /** The machine, with one relay, is where the relay's loop is: same table, same topic, same clock, and as many
      failures per row as sends that were not acknowledged. */
  ghost predicate At(s: State, relay: Outbox.Relay, table: map<nat, Row>, created: seq<nat>, sends: seq<Sent>, now: nat)
  {
    && s.relays == [relay] && s.table == table && s.log == Log(sends) && s.now == now
    && (forall id: nat :: id in s.failures <==> id < |created|)
    && (forall id: nat :: id < |created| ==> s.failures[id] == Attempts(sends, id) - Acks(sends, id))
  }

  function Batch(claimed: seq<Copy>, kafka: nat -> Outcome, from: nat): seq<Sent> {
    seq(|claimed|, i requires 0 <= i < |claimed| => Sent(claimed[i].id, kafka(from + i)))
  }

  /** What one iteration leaves in the table when rows with creation times `late` become visible after its claim. */
  function RoundTable(table: map<nat, Row>, created: seq<nat>, ids: seq<nat>, late: seq<nat>, kafka: nat -> Outcome,
                      from: nat, now: nat): map<nat, Row>
    requires forall i :: 0 <= i < |ids| ==> ids[i] in table
  {
    Overwrite(WithRows(ClaimRows(table, ids), |created|, late), Outcomes(Copies(table, ids), kafka, from, now))
  }

  /* ---- The actions ---- */

  function Commits(from: nat, at: seq<nat>): seq<Action> {
    if at == [] then [] else Commits(from, at[..|at| - 1]) + [Commit(from + |at| - 1, at[|at| - 1])]
  }

  function Sends(kafka: nat -> Outcome, from: nat, n: nat): seq<Action> {
    if n == 0 then [] else Sends(kafka, from, n - 1) + [Send(0, kafka(from + n - 1))]
  }

  function Loads(n: nat): seq<Action> {
    if n == 0 then [Load(0)] else Loads(n - 1) + [Load(0)]
  }

  function RoundActions(created: seq<nat>, ids: seq<nat>, late: seq<nat>, kafka: nat -> Outcome, from: nat): seq<Action>
  {
    if ids == [] then Commits(|created|, late)
    else [Claim(0, ids)] + Commits(|created|, late) + Sends(kafka, from, |ids|) + Loads(|ids|) + [Confirm(0)]
  }

  lemma {:induction false} StepsJoin(s: State, xs: seq<Action>, ys: seq<Action>)
    ensures Steps(s, xs + ys) == Steps(Steps(s, xs), ys)
  {
    hide Step;
    if ys == [] {
      assert xs + ys == xs;
    } else {
      assert (xs + ys)[..|xs + ys| - 1] == xs + ys[..|ys| - 1];
      StepsJoin(s, xs, ys[..|ys| - 1]);
    }
  }

  lemma StepsSnoc(s: State, xs: seq<Action>, a: Action)
    ensures Steps(s, []) == s
    ensures Steps(s, xs + [a]) == Step(Steps(s, xs), a)
  {
    hide Step;
    assert (xs + [a])[..|xs + [a]| - 1] == xs;
  }

  /* ---- Each part of the iteration ---- */

  lemma CommitStep(s: State, relay: Outbox.Relay, table: map<nat, Row>, created: seq<nat>, sends: seq<Sent>, now: nat,
                   at: nat)
    requires At(s, relay, table, created, sends, now)
    requires Attempts(sends, |created|) == 0 && Acks(sends, |created|) == 0
    ensures At(Step(s, Commit(|created|, at)), relay, table[|created| := NewRow(at)], created + [at], sends, now)
  {
    hide Attempts, Acks, Log;
  }

  lemma {:induction false} CommitsRun(s: State, relay: Outbox.Relay, table: map<nat, Row>, created: seq<nat>,
                                      sends: seq<Sent>,
                                      now: nat, at: seq<nat>)
    requires At(s, relay, table, created, sends, now) && Accounted(table, created, sends)
    ensures At(Steps(s, Commits(|created|, at)), relay, WithRows(table, |created|, at), created + at, sends, now)
  {
    hide At, Step, Steps;
    if at == [] {
      StepsSnoc(s, [], Reset);
      assert created + at == created;
    } else {
      var before, last := at[..|at| - 1], at[|at| - 1];
      CommitsRun(s, relay, table, created, sends, now, before);
      assert created + at == created + before + [last];
      StepsSnoc(s, Commits(|created|, before), Commit(|created| + |before|, last));
      CommitStep(Steps(s, Commits(|created|, before)), relay, WithRows(table, |created|, before), created + before,
                 sends, now, last);
    }
  }

  /** The copies once the first n sends have ended. */
  function Partly(claimed: seq<Copy>, kafka: nat -> Outcome, from: nat, now: nat, n: nat): seq<Copy>
    requires n <= |claimed|
  {
    Outcomes(claimed, kafka, from, now)[..n] + claimed[n..]
  }

  lemma SendOnce(s: State, copies: seq<Copy>, n: nat, table: map<nat, Row>, created: seq<nat>, sends: seq<Sent>,
                 now: nat, o: Outcome)
    requires n < |copies| && copies[n].id < |created|
    requires At(s, Sending(copies, n), table, created, sends, now)
    ensures At(Step(s, Send(0, o)), Sending(copies[n := Copy(copies[n].id, AfterSend(copies[n].row, o, now))], n + 1),
               table, created,
               sends + [Sent(copies[n].id, o)], now)
  {
    forall id: nat { SendCounts(sends, Sent(copies[n].id, o), id); }
    hide Attempts, Acks, Log, AfterSend;
    assert Log(sends) + [] == Log(sends);
  }

  lemma {:induction false} SendsRun(s: State, claimed: seq<Copy>, n: nat, table: map<nat, Row>, created: seq<nat>,
                                    sends: seq<Sent>, now: nat, kafka: nat -> Outcome)
    requires n <= |claimed| && forall i :: 0 <= i < |claimed| ==> claimed[i].id < |created|
    requires At(s, Sending(claimed, 0), table, created, sends, now)
    ensures At(Steps(s, Sends(kafka, |sends|, n)), Sending(Partly(claimed, kafka, |sends|, now, n), n), table, created,
               sends + Batch(claimed, kafka, |sends|)[..n], now)
  {
    hide At, Step, Steps, AfterSend;
    if n == 0 {
      StepsSnoc(s, [], Reset);
      assert Partly(claimed, kafka, |sends|, now, 0) == claimed;
      assert sends + Batch(claimed, kafka, |sends|)[..0] == sends;
    } else {
      SendsRun(s, claimed, n - 1, table, created, sends, now, kafka);
      var copies, o := Partly(claimed, kafka, |sends|, now, n - 1), kafka(|sends| + n - 1);
      assert copies[n - 1] == claimed[n - 1];
      StepsSnoc(s, Sends(kafka, |sends|, n - 1), Send(0, o));
      SendOnce(Steps(s, Sends(kafka, |sends|, n - 1)), copies, n - 1, table, created,
               sends + Batch(claimed, kafka, |sends|)[..n - 1], now, o);
      assert copies[n - 1 := Copy(copies[n - 1].id, AfterSend(copies[n - 1].row, o, now))]
             == Partly(claimed, kafka, |sends|, now, n);
      assert sends + Batch(claimed, kafka, |sends|)[..n - 1] + [Sent(claimed[n - 1].id, o)]
             == sends + Batch(claimed, kafka, |sends|)[..n];
    }
  }

  function Loaded(table: map<nat, Row>, copies: seq<Copy>): map<nat, Row>
    requires forall i :: 0 <= i < |copies| ==> copies[i].id in table
  {
    if copies == [] then map[]
    else
      var last := copies[|copies| - 1].id;
      Loaded(table, copies[..|copies| - 1])[last := table[last]]
  }

  lemma {:induction false} LoadedRows(table: map<nat, Row>, copies: seq<Copy>)
    requires forall i :: 0 <= i < |copies| ==> copies[i].id in table
    ensures forall i :: 0 <= i < |copies| ==>
              copies[i].id in Loaded(table, copies) && Loaded(table, copies)[copies[i].id] == table[copies[i].id]
  {
    if copies != [] {
      LoadedRows(table, copies[..|copies| - 1]);
    }
  }

  lemma LoadOnce(s: State, copies: seq<Copy>, loaded: map<nat, Row>, n: nat, table: map<nat, Row>, created: seq<nat>,
                 sends: seq<Sent>, now: nat)
    requires n < |copies| && copies[n].id in table
    requires At(s, Merging(copies, loaded, n), table, created, sends, now)
    ensures At(Step(s, Load(0)), Merging(copies, loaded[copies[n].id := table[copies[n].id]], n + 1), table, created,
               sends, now)
  {
    hide Attempts, Acks, Log;
  }

  lemma LoadFirst(s: State, copies: seq<Copy>, table: map<nat, Row>, created: seq<nat>, sends: seq<Sent>, now: nat)
    requires At(s, Sending(copies, |copies|), table, created, sends, now)
    ensures At(Step(s, Load(0)), Merging(copies, map[], 0), table, created, sends, now)
  {
    hide Attempts, Acks, Log;
  }

  lemma {:induction false} LoadsRun(s: State, copies: seq<Copy>, n: nat, table: map<nat, Row>, created: seq<nat>,
                                    sends: seq<Sent>, now: nat)
    requires n <= |copies| && forall i :: 0 <= i < |copies| ==> copies[i].id in table
    requires At(s, Sending(copies, |copies|), table, created, sends, now)
    ensures At(Steps(s, Loads(n)), Merging(copies, Loaded(table, copies[..n]), n), table, created, sends, now)
  {
    hide At, Step, Steps;
    if n == 0 {
      StepsSnoc(s, [], Load(0));
      assert [] + [Load(0)] == [Load(0)];
      LoadFirst(s, copies, table, created, sends, now);
      assert copies[..0] == [];
    } else {
      LoadsRun(s, copies, n - 1, table, created, sends, now);
      StepsSnoc(s, Loads(n - 1), Load(0));
      LoadOnce(Steps(s, Loads(n - 1)), copies, Loaded(table, copies[..n - 1]), n - 1, table, created, sends, now);
      assert copies[..n][..n - 1] == copies[..n - 1];
    }
  }

  lemma ConfirmRun(s: State, copies: seq<Copy>, table: map<nat, Row>, created: seq<nat>, sends: seq<Sent>, now: nat)
    requires forall i :: 0 <= i < |copies| ==>
             copies[i].id in table && copies[i].row.createdAt == table[copies[i].id].createdAt
    requires At(s, Merging(copies, Loaded(table, copies), |copies|), table, created, sends, now)
    ensures At(Step(s, Confirm(0)), Ready, Overwrite(table, copies), created, sends, now)
  {
    LoadedRows(table, copies);
    MergeIsOverwrite(table, Loaded(table, copies), copies);
    hide Attempts, Acks, Log, Loaded, Overwrite, MergeAll;
  }

  lemma ClaimRun(s: State, table: map<nat, Row>, created: seq<nat>, sends: seq<Sent>, now: nat, ids: seq<nat>)
    requires At(s, Ready, table, created, sends, now) && IsBatch(table, ids) && ids != []
    ensures At(Step(s, Claim(0, ids)), Sending(Copies(table, ids), 0), ClaimRows(table, ids), created, sends, now)
  {
    hide Attempts, Acks, Log, ClaimRows, Copies;
    assert Claimable(table, ids);
  }

  lemma {:induction false} WithRowsKeeps(table: map<nat, Row>, from: nat, at: seq<nat>, k: nat)
    requires k in table && k < from
    ensures k in WithRows(table, from, at) && WithRows(table, from, at)[k] == table[k]
  {
    if at != [] { WithRowsKeeps(table, from, at[..|at| - 1], k); }
  }

  /** From the claim on: commits, sends, loads and the commit of the merge. */
  lemma BatchRun(s: State, claimed: seq<Copy>, after: map<nat, Row>, created: seq<nat>, sends: seq<Sent>, now: nat,
                 late: seq<nat>, kafka: nat -> Outcome)
    requires At(s, Sending(claimed, 0), after, created, sends, now) && Accounted(after, created, sends)
    requires forall i :: 0 <= i < |claimed| ==>
               claimed[i].id < |created| && claimed[i].id in after
                 && claimed[i].row.createdAt == after[claimed[i].id].createdAt
    ensures
      var full := WithRows(after, |created|, late);
      At(Step(Steps(Steps(Steps(s, Commits(|created|, late)), Sends(kafka, |sends|, |claimed|)), Loads(|claimed|)),
              Confirm(0)), Ready,
         Overwrite(full, Outcomes(claimed, kafka, |sends|, now)), created + late,
         sends + Batch(claimed, kafka, |sends|), now)
  {
    var full := WithRows(after, |created|, late);
    var sent, batch := Outcomes(claimed, kafka, |sends|, now), Batch(claimed, kafka, |sends|);
    assert batch[..|claimed|] == batch;
    hide At, Step, Steps, WithRows, Outcomes, Batch, Overwrite, Commits, Sends, Loads;
    SentAreClaimed(claimed, kafka, |sends|, now);
    forall i | 0 <= i < |claimed| ensures claimed[i].id in full && full[claimed[i].id] == after[claimed[i].id] {
      WithRowsKeeps(after, |created|, late, claimed[i].id);
    }
    hide Accounted;
    CommitsRun(s, Sending(claimed, 0), after, created, sends, now, late);
    var s2 := Steps(s, Commits(|created|, late));
    SendsRun(s2, claimed, |claimed|, full, created + late, sends, now, kafka);
    var s3 := Steps(s2, Sends(kafka, |sends|, |claimed|));
    assert Partly(claimed, kafka, |sends|, now, |claimed|) == sent && batch[..|claimed|] == batch;
    LoadsRun(s3, sent, |claimed|, full, created + late, sends + batch, now);
    assert sent[..|claimed|] == sent;
    ConfirmRun(Steps(s3, Loads(|claimed|)), sent, full, created + late, sends + batch, now);
  }

  lemma CopiesOfRows(table: map<nat, Row>, created: seq<nat>, sends: seq<Sent>, ids: seq<nat>)
    requires Accounted(table, created, sends) && IsBatch(table, ids)
    ensures
      var claimed, after := Copies(table, ids), ClaimRows(table, ids);
      && |claimed| == |ids|
      && forall i :: 0 <= i < |claimed| ==>
           claimed[i].id < |created| && claimed[i].id in after
             && claimed[i].row.createdAt == after[claimed[i].id].createdAt
  {
    hide Attempts, Acks, RowAccounted;
  }

  /** The iteration that the loop makes is one the machine can make, commit by commit and send by send. */
  lemma RoundIsARun(s: State, table: map<nat, Row>, created: seq<nat>, sends: seq<Sent>, now: nat, ids: seq<nat>,
                    late: seq<nat>, kafka: nat -> Outcome)
    requires At(s, Ready, table, created, sends, now) && Accounted(table, created, sends) && IsBatch(table, ids)
    ensures
      At(Steps(s, RoundActions(created, ids, late, kafka, |sends|)), Ready,
         RoundTable(table, created, ids, late, kafka, |sends|, now), created + late,
         sends + Batch(Copies(table, ids), kafka, |sends|), now)
  {
    assert forall i :: 0 <= i < |ids| ==> ids[i] in table;
    hide At, Step, Steps, Accounted, IsBatch, ClaimRows, WithRows, Outcomes, Copies, Batch, Overwrite, Commits, Sends,
         Loads;
    if ids == [] {
      CommitsRun(s, Ready, table, created, sends, now, late);
      NoClaim(table, ids, kafka, |sends|, now);
      assert sends + [] == sends;
    } else {
      ClaimRun(s, table, created, sends, now, ids);
      ClaimAccounted(table, created, sends, ids);
      CopiesOfRows(table, created, sends, ids);
      BatchRun(Step(s, Claim(0, ids)), Copies(table, ids), ClaimRows(table, ids), created, sends, now, late, kafka);
      JoinFive(s, Claim(0, ids), Commits(|created|, late), Sends(kafka, |sends|, |ids|), Loads(|ids|), Confirm(0));
    }
  }

  lemma SentAreClaimed(claimed: seq<Copy>, kafka: nat -> Outcome, from: nat, now: nat)
    ensures
      var sent := Outcomes(claimed, kafka, from, now);
      && |sent| == |claimed| == |Batch(claimed, kafka, from)|
      && (forall i :: 0 <= i < |claimed| ==>
            sent[i].id == claimed[i].id && sent[i].row.createdAt == claimed[i].row.createdAt)
  {
  }

  lemma NoClaim(table: map<nat, Row>, ids: seq<nat>, kafka: nat -> Outcome, from: nat, now: nat)
    requires ids == []
    ensures ClaimRows(table, ids) == table && Copies(table, ids) == [] && Outcomes([], kafka, from, now) == []
    ensures Batch([], kafka, from) == [] && forall t :: Overwrite(t, []) == t
  {
  }

  lemma JoinFive(s: State, a: Action, bs: seq<Action>, cs: seq<Action>, ds: seq<Action>, e: Action)
    ensures Steps(s, [a] + bs + cs + ds + [e]) == Step(Steps(Steps(Steps(Step(s, a), bs), cs), ds), e)
  {
    hide Step, Steps;
    StepsSnoc(s, [a] + bs + cs + ds, e);
    StepsJoin(s, [a] + bs + cs, ds);
    StepsJoin(s, [a] + bs, cs);
    StepsJoin(s, [a], bs);
    StepsSnoc(s, [], a);
    assert [] + [a] == [a];
  }

  /* ---- Along the loop ---- */

  /** The run has led the machine to where the loop is. */
  ghost predicate Led(start: State, run: seq<Action>, table: map<nat, Row>, created: seq<nat>, sends: seq<Sent>,
                      now: nat)
  {
    At(Steps(start, run), Ready, table, created, sends, now)
  }

  lemma LedNowhere(start: State, table: map<nat, Row>, created: seq<nat>, sends: seq<Sent>)
    requires At(start, Ready, table, created, sends, start.now)
    ensures Led(start, [], table, created, sends, start.now)
  {
    StepsSnoc(start, [], Reset);
  }

  lemma TickRun(start: State, run: seq<Action>, table: map<nat, Row>, created: seq<nat>, sends: seq<Sent>, now: nat,
                later: nat)
    requires Led(start, run, table, created, sends, now) && now <= later
    ensures Led(start, run + [Tick(later - now)], table, created, sends, later)
  {
    StepsSnoc(start, run, Tick(later - now));
    hide Attempts, Acks, Log, Steps;
  }

  lemma ResetRun(start: State, run: seq<Action>, table: map<nat, Row>, created: seq<nat>, sends: seq<Sent>, now: nat)
    requires Led(start, run, table, created, sends, now)
    ensures Led(start, run + [Reset], ResetRows(table, now), created, sends, now)
  {
    StepsSnoc(start, run, Reset);
    hide Attempts, Acks, Log, Steps, ResetRows;
  }

  lemma CleanupRun(start: State, run: seq<Action>, table: map<nat, Row>, created: seq<nat>, sends: seq<Sent>, now: nat)
    requires Led(start, run, table, created, sends, now)
    ensures Led(start, run + [Cleanup], CleanupRows(table, now), created, sends, now)
  {
    StepsSnoc(start, run, Cleanup);
    hide Attempts, Acks, Log, Steps, CleanupRows;
  }

  lemma ArrivalsRun(start: State, run: seq<Action>, table: map<nat, Row>, created: seq<nat>, sends: seq<Sent>, now: nat,
                    at: seq<nat>)
    requires Led(start, run, table, created, sends, now) && Accounted(table, created, sends)
    ensures Led(start, run + Commits(|created|, at), WithRows(table, |created|, at), created + at, sends, now)
  {
    hide At, Accounted, WithRows, Commits, Step, Steps;
    StepsJoin(start, run, Commits(|created|, at));
    CommitsRun(Steps(start, run), Ready, table, created, sends, now, at);
  }

  lemma IterationRun(start: State, run: seq<Action>, table: map<nat, Row>, created: seq<nat>, sends: seq<Sent>,
                     now: nat,
                     ids: seq<nat>, late: seq<nat>, kafka: nat -> Outcome)
    requires Led(start, run, table, created, sends, now) && Accounted(table, created, sends) && IsBatch(table, ids)
    ensures Led(start, run + RoundActions(created, ids, late, kafka, |sends|),
                RoundTable(table, created, ids, late, kafka, |sends|, now), created + late,
                sends + Batch(Copies(table, ids), kafka, |sends|), now)
  {
    hide At, Accounted, Step, Steps, RoundActions, RoundTable, Batch;
    StepsJoin(start, run, RoundActions(created, ids, late, kafka, |sends|));
    RoundIsARun(Steps(start, run), table, created, sends, now, ids, late, kafka);
  }
}
