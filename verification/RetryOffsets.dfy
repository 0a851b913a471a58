/**
 Several groups on one topic, with crashes between any two awaits, restarts, and `auto_offset_reset="latest"`:
 what a committed offset says about a message.
 */
module RetryOffsets {
  import opened Wrappers
  import opened ConsumerRetry

  /** A copy on the shared topic, and the original it is a copy of. */
  datatype Copy = Copy(origin: nat, message: Message)

  /** A group's consumer between two Kafka operations; an exception out of `handle_message` ends its process. */
  datatype Stage =
    | Down
    | Polling
    | ProcessedOk
    | ProcessFailed
    | Handed

  /** `base` is where the group's committed prefix begins: its first poll position, fixed by its first commit. */
  datatype Group = Group(
    stage: Stage,
    base: nat,
    committed: Option<nat>,
    processed: set<nat>,
    deadLetters: set<nat>)

  datatype State = State(topic: seq<Copy>, groups: seq<Group>)

  datatype Action =
    | Publish(origin: nat, message: Message)
    | Start(g: nat)
    | Process(g: nat, succeeds: bool)
    | HandOver(g: nat)
    | Commit(g: nat)
    | CommitRaises(g: nat)
    | Crash(g: nat)

  function Position(group: Group): nat {
    if group.committed.Some? then group.committed.value else group.base
  }

  function With(s: State, g: nat, group: Group): State
    requires g < |s.groups|
  {
    s.(groups := s.groups[g := group])
  }

  function GroupStep(s: State, g: nat, a: Action): State
    requires g < |s.groups|
  {
    var group := s.groups[g];
    var at := Position(group);
    match a
    case Start(_) =>
      // without a committed offset the consumer starts at the end of the topic
      if !group.stage.Down? then s
      else if group.committed.Some? then With(s, g, group.(stage := Polling))
      else With(s, g, group.(stage := Polling, base := |s.topic|))
    case Process(_, succeeds) =>
      if !group.stage.Polling? || at >= |s.topic| then s
      else
        (match React(s.topic[at].message, succeeds)
         case Err(_) => With(s, g, group.(stage := Down))
         case Ok(Processed) =>
           With(s, g, group.(stage := ProcessedOk, processed := group.processed + {s.topic[at].origin}))
         case Ok(_) => With(s, g, group.(stage := ProcessFailed)))
    case HandOver(_) =>
      if !group.stage.ProcessFailed? || at >= |s.topic| then s
      else
        (match React(s.topic[at].message, false)
         case Ok(Republished(message)) =>
           With(s, g, group.(stage := Handed)).(topic := s.topic + [Copy(s.topic[at].origin, message)])
         case _ => With(s, g, group.(stage := Handed, deadLetters := group.deadLetters + {s.topic[at].origin})))
    case Commit(_) =>
      if group.stage.ProcessedOk? || group.stage.Handed? then
        With(s, g, group.(stage := Polling, committed := Some(at + 1)))
      else s
    case CommitRaises(_) =>
      // the commit after a successful `process` is inside the same try
      if group.stage.ProcessedOk? then With(s, g, group.(stage := ProcessFailed)) else s
    case Crash(_) => With(s, g, group.(stage := Down))
    case Publish(_, _) => s
  }

  function Step(s: State, a: Action): State {
    match a
    case Publish(origin, message) => s.(topic := s.topic + [Copy(origin, message)])
    case Start(g) => if g < |s.groups| then GroupStep(s, g, a) else s
    case Process(g, _) => if g < |s.groups| then GroupStep(s, g, a) else s
    case HandOver(g) => if g < |s.groups| then GroupStep(s, g, a) else s
    case Commit(g) => if g < |s.groups| then GroupStep(s, g, a) else s
    case CommitRaises(g) => if g < |s.groups| then GroupStep(s, g, a) else s
    case Crash(g) => if g < |s.groups| then GroupStep(s, g, a) else s
  }

  function Steps(s: State, actions: seq<Action>): State {
    if actions == [] then s else Step(Steps(s, actions[..|actions| - 1]), actions[|actions| - 1])
  }

  function Initial(groups: nat): State {
    State([], seq(groups, i => Group(Down, 0, None, {}, {})))
  }

  /** Copy i was processed by the group, dead-lettered by it, or has a later copy. */
  ghost predicate Settled(topic: seq<Copy>, group: Group, i: nat)
    requires i < |topic|
  {
    || topic[i].origin in group.processed
    || topic[i].origin in group.deadLetters
    || exists j :: i < j < |topic| && topic[j].origin == topic[i].origin
  }

  ghost predicate GroupInv(topic: seq<Copy>, group: Group) {
    && group.base <= Position(group) <= |topic|
    && (forall i :: group.base <= i < Position(group) ==> Settled(topic, group, i))
    && (group.stage.ProcessFailed? ==> Position(group) < |topic|)
    && (group.stage.ProcessedOk? || group.stage.Handed? ==>
          Position(group) < |topic| && Settled(topic, group, Position(group)))
  }

  ghost predicate Inv(s: State) {
    forall g :: 0 <= g < |s.groups| ==> GroupInv(s.topic, s.groups[g])
  }

  lemma TopicGrows(topic: seq<Copy>, group: Group, added: Copy)
    requires GroupInv(topic, group)
    ensures GroupInv(topic + [added], group)
  {
    var topic' := topic + [added];
    forall i | 0 <= i < |topic| && Settled(topic, group, i) ensures Settled(topic', group, i) {
      if topic[i].origin !in group.processed && topic[i].origin !in group.deadLetters {
        var j :| i < j < |topic| && topic[j].origin == topic[i].origin;
        assert topic'[j] == topic[j];
      }
    }
  }

  lemma GroupStepKeeps(s: State, g: nat, a: Action)
    requires Inv(s) && g < |s.groups|
    ensures Inv(GroupStep(s, g, a))
  {
    var group, at := s.groups[g], Position(s.groups[g]);
    assert GroupInv(s.topic, group);
    var s' := GroupStep(s, g, a);
    assert GroupInv(s'.topic, s'.groups[g]) by {
      if s'.topic != s.topic {
        var added := s'.topic[|s.topic|];
        assert s'.topic == s.topic + [added] && added.origin == s.topic[at].origin;
        TopicGrows(s.topic, group, added);
        assert Settled(s'.topic, group, at);
        SettledOnlyNeedsSets(s'.topic, group, s'.groups[g]);
      } else {
        SettledOnlyNeedsSets(s.topic, group, s'.groups[g]);
      }
    }
    hide GroupInv, GroupStep;
    forall h | 0 <= h < |s'.groups| ensures GroupInv(s'.topic, s'.groups[h]) {
      if h != g { OthersKeep(s, g, a, h); }
    }
  }

  lemma SettledOnlyNeedsSets(topic: seq<Copy>, a: Group, b: Group)
    requires a.processed <= b.processed && a.deadLetters <= b.deadLetters
    ensures forall i :: 0 <= i < |topic| && Settled(topic, a, i) ==> Settled(topic, b, i)
  {
  }

  lemma OthersKeep(s: State, g: nat, a: Action, h: nat)
    requires Inv(s) && g < |s.groups| && h < |s.groups| && h != g
    ensures var s' := GroupStep(s, g, a); |s'.groups| == |s.groups| && GroupInv(s'.topic, s'.groups[h])
  {
    assert GroupInv(s.topic, s.groups[h]);
    hide GroupInv;
    forall added: Copy ensures GroupInv(s.topic + [added], s.groups[h]) { TopicGrows(s.topic, s.groups[h], added); }
  }

  lemma StepKeeps(s: State, a: Action)
    requires Inv(s)
    ensures Inv(Step(s, a))
  {
    match a {
      case Publish(origin, message) =>
        forall g | 0 <= g < |s.groups| ensures GroupInv(s.topic + [Copy(origin, message)], s.groups[g]) {
          TopicGrows(s.topic, s.groups[g], Copy(origin, message));
        }
      case Start(g) => if g < |s.groups| { GroupStepKeeps(s, g, a); }
      case Process(g, _) => if g < |s.groups| { GroupStepKeeps(s, g, a); }
      case HandOver(g) => if g < |s.groups| { GroupStepKeeps(s, g, a); }
      case Commit(g) => if g < |s.groups| { GroupStepKeeps(s, g, a); }
      case CommitRaises(g) => if g < |s.groups| { GroupStepKeeps(s, g, a); }
      case Crash(g) => if g < |s.groups| { GroupStepKeeps(s, g, a); }
    }
  }

  lemma {:induction false} Reachable(groups: nat, actions: seq<Action>)
    ensures Inv(Steps(Initial(groups), actions))
  {
    if actions != [] {
      Reachable(groups, actions[..|actions| - 1]);
      StepKeeps(Steps(Initial(groups), actions[..|actions| - 1]), actions[|actions| - 1]);
    }
  }

  /** The group has committed past every copy of the original. */
  ghost predicate PastAll(s: State, g: nat, origin: nat) {
    && g < |s.groups| && s.groups[g].committed.Some?
    && (forall i :: 0 <= i < |s.topic| && s.topic[i].origin == origin ==> i < s.groups[g].committed.value)
  }

  /** Some copy of the original lies at or after the position. */
  ghost predicate CopyFrom(topic: seq<Copy>, from: nat, origin: nat) {
    exists i :: from <= i < |topic| && topic[i].origin == origin
  }

  predicate Handled(group: Group, origin: nat) {
    origin in group.processed || origin in group.deadLetters
  }

  /** A message a group is finished with was processed by that group or sits in its dead-letter topic. */
  lemma FinishedMeansHandled(groups: nat, actions: seq<Action>, g: nat, origin: nat)
    requires PastAll(Steps(Initial(groups), actions), g, origin)
    requires
      var s := Steps(Initial(groups), actions);
      CopyFrom(s.topic, s.groups[g].base, origin)
    ensures Handled(Steps(Initial(groups), actions).groups[g], origin)
  {
    Reachable(groups, actions);
    var s := Steps(Initial(groups), actions);
    var i :| s.groups[g].base <= i < |s.topic| && s.topic[i].origin == origin;
    assert GroupInv(s.topic, s.groups[g]);
    hide Steps;
    LastCopyHandled(s, g, i);
  }

  lemma {:induction false} LastCopyHandled(s: State, g: nat, i: nat)
    requires g < |s.groups| && GroupInv(s.topic, s.groups[g]) && s.groups[g].committed.Some?
    requires s.groups[g].base <= i < |s.topic|
    requires forall j :: 0 <= j < |s.topic| && s.topic[j].origin == s.topic[i].origin ==>
             j < s.groups[g].committed.value
    ensures Handled(s.groups[g], s.topic[i].origin)
    decreases |s.topic| - i
  {
    assert Settled(s.topic, s.groups[g], i);
    if !Handled(s.groups[g], s.topic[i].origin) {
      var j :| i < j < |s.topic| && s.topic[j].origin == s.topic[i].origin;
      LastCopyHandled(s, g, j);
    }
  }

  /* ---- Exactly which messages are passed over ---- */

  /** What the group did since a start that set its base to b: it handles only what has a copy from there on. */
  ghost predicate Since(s: State, g: nat, b: nat, past: Group) {
    && g < |s.groups|
    && b <= s.groups[g].base
    && (forall o :: Handled(past, o) ==> Handled(s.groups[g], o))
    && (s.groups[g].base == b ==>
          forall o :: Handled(s.groups[g], o) ==> Handled(past, o) || CopyFrom(s.topic, b, o))
  }

  lemma CopyFromGrows(topic: seq<Copy>, added: Copy, b: nat, o: nat)
    requires CopyFrom(topic, b, o)
    ensures CopyFrom(topic + [added], b, o)
  {
    var i :| b <= i < |topic| && topic[i].origin == o;
    assert (topic + [added])[i] == topic[i];
  }

  /** A step grows the topic by at most one copy, and of the sets of a group at most by the copy at its position. */
  lemma StepShape(s: State, a: Action, g: nat)
    requires Inv(s) && g < |s.groups|
    ensures
      var s' := Step(s, a);
      var group, group' := s.groups[g], s'.groups[g];
      && |s'.groups| == |s.groups|
      && (s'.topic == s.topic || s'.topic == s.topic + [s'.topic[|s.topic|]])
      && (forall o :: Handled(group, o) ==> Handled(group', o))
      && (forall o :: Handled(group', o) && !Handled(group, o) ==>
            group'.base == group.base && Position(group) < |s.topic| && o == s.topic[Position(group)].origin)
      && (group'.base == group.base || (group.committed.None? && a == Start(g) && group.stage.Down?
                                        && group'.base == |s.topic|))
      && (group.stage.Down? && group.committed.None? ==>
            group'.committed.None? && (group'.stage.Down? || (a == Start(g) && group'.base == |s.topic|)))
  {
    hide GroupInv, React;
  }

  lemma SinceStep(s: State, a: Action, g: nat, b: nat, past: Group)
    requires Inv(s) && Since(s, g, b, past)
    ensures Since(Step(s, a), g, b, past)
  {
    var s' := Step(s, a);
    var group, group' := s.groups[g], s'.groups[g];
    StepShape(s, a, g);
    assert GroupInv(s.topic, group);
    hide Step, GroupInv;
    assert b <= group'.base by { assert group.base <= |s.topic| by { BaseInRange(s, g); } }
    if group'.base == b {
      assert group.base == b by { BaseInRange(s, g); }
      forall o | Handled(group', o) && !Handled(past, o) ensures CopyFrom(s'.topic, b, o) {
        if !Handled(group, o) {
          BaseInRange(s, g);
          assert s.topic[Position(group)].origin == o;
        }
        assert CopyFrom(s.topic, b, o);
        if s'.topic != s.topic { CopyFromGrows(s.topic, s'.topic[|s.topic|], b, o); }
      }
    }
  }

  lemma BaseInRange(s: State, g: nat)
    requires Inv(s) && g < |s.groups|
    ensures s.groups[g].base <= Position(s.groups[g]) <= |s.topic|
  {
    assert GroupInv(s.topic, s.groups[g]);
  }

  lemma {:induction false} SinceRun(s: State, more: seq<Action>, g: nat, b: nat, past: Group)
    requires Inv(s) && Since(s, g, b, past)
    ensures Inv(Steps(s, more)) && Since(Steps(s, more), g, b, past)
  {
    hide Inv, Since, Step;
    if more != [] {
      var before, last := more[..|more| - 1], more[|more| - 1];
      SinceRun(s, before, g, b, past);
      StepKeeps(Steps(s, before), last);
      SinceStep(Steps(s, before), last, g, b, past);
    }
  }

  lemma {:induction false} StepsJoin(s: State, xs: seq<Action>, ys: seq<Action>)
    ensures Steps(s, xs + ys) == Steps(Steps(s, xs), ys)
  {
    hide Step;
    if ys == [] {
      assert xs + ys == xs;
    } else {
      assert (xs + ys)[..|xs + ys| - 1] == xs + ys[..|ys| - 1];
      StepsJoin(s, xs, ys[..|ys| - 1]);
    }
  }

  /** A group that has not committed starts, where its base then stays: once it has committed past every copy of an
      original, it handled the original if and only if it had done so before that start, or some copy lies at or after
      the base. */
  lemma SkippedSince(groups: nat, before: seq<Action>, g: nat, more: seq<Action>, origin: nat)
    requires g < |Steps(Initial(groups), before).groups|
    requires
      var past := Steps(Initial(groups), before).groups[g];
      past.stage.Down? && past.committed.None?
    requires PastAll(Steps(Initial(groups), before + [Start(g)] + more), g, origin)
    requires
      var s := Steps(Initial(groups), before + [Start(g)] + more);
      s.groups[g].base == |Steps(Initial(groups), before).topic|
    ensures
      var s0, s := Steps(Initial(groups), before), Steps(Initial(groups), before + [Start(g)] + more);
      Handled(s.groups[g], origin) <==> Handled(s0.groups[g], origin) || CopyFrom(s.topic, s.groups[g].base, origin)
  {
    var init := Initial(groups);
    var s0, s := Steps(init, before), Steps(init, before + [Start(g)] + more);
    Reachable(groups, before);
    var s1 := Step(s0, Start(g));
    assert s1.groups[g] == s0.groups[g].(stage := Polling, base := |s0.topic|);
    assert Since(s1, g, |s0.topic|, s0.groups[g]);
    StepKeeps(s0, Start(g));
    hide Inv, Since, Step, Steps, PastAll;
    StepsJoin(init, before + [Start(g)], more);
    StepsSnoc(init, before, Start(g));
    SinceRun(s1, more, g, |s0.topic|, s0.groups[g]);
    assert Since(s, g, |s0.topic|, s0.groups[g]);
    SinceMeans(s, g, s0.groups[g]);
    if CopyFrom(s.topic, s.groups[g].base, origin) {
      FinishedMeansHandled(groups, before + [Start(g)] + more, g, origin);
    }
  }

  /** A group handles only what was published. */
  lemma {:induction false} HandledIsPublished(groups: nat, actions: seq<Action>, g: nat, o: nat)
    requires g < |Steps(Initial(groups), actions).groups| && Handled(Steps(Initial(groups), actions).groups[g], o)
    ensures CopyFrom(Steps(Initial(groups), actions).topic, 0, o)
  {
    hide Step, Inv;
    GroupCount(groups, actions);
    if actions != [] {
      var before, last := actions[..|actions| - 1], actions[|actions| - 1];
      var s := Steps(Initial(groups), before);
      GroupCount(groups, before);
      Reachable(groups, before);
      StepShape(s, last, g);
      if Handled(s.groups[g], o) {
        HandledIsPublished(groups, before, g, o);
      } else {
        assert s.topic[Position(s.groups[g])].origin == o;
      }
      if Step(s, last).topic != s.topic { CopyFromGrows(s.topic, Step(s, last).topic[|s.topic|], 0, o); }
    }
  }

  lemma SinceMeans(s: State, g: nat, past: Group)
    requires g < |s.groups| && Since(s, g, s.groups[g].base, past)
    ensures forall o :: Handled(past, o) ==> Handled(s.groups[g], o)
    ensures forall o :: Handled(s.groups[g], o) ==> Handled(past, o) || CopyFrom(s.topic, s.groups[g].base, o)
  {
  }

  /** The start that fixed the base of a group that runs or has committed. */
  lemma {:induction false} BaseWasSetBy(groups: nat, actions: seq<Action>, g: nat) returns (n: nat)
    requires g < |Steps(Initial(groups), actions).groups|
    requires
      var group := Steps(Initial(groups), actions).groups[g];
      !group.stage.Down? || group.committed.Some?
    ensures n < |actions| && actions[n] == Start(g)
    ensures
      var s0 := Steps(Initial(groups), actions[..n]);
      && g < |s0.groups| && s0.groups[g].stage.Down? && s0.groups[g].committed.None?
      && |s0.topic| == Steps(Initial(groups), actions).groups[g].base
    decreases |actions|
  {
    hide Step, Inv;
    assert actions != [];
    var before, last := actions[..|actions| - 1], actions[|actions| - 1];
    var s := Steps(Initial(groups), before);
    Reachable(groups, before);
    GroupCount(groups, before);
    GroupCount(groups, actions);
    StepShape(s, last, g);
    if s.groups[g].stage.Down? && s.groups[g].committed.None? {
      n := |before|;
    } else {
      n := BaseWasSetBy(groups, before, g);
      assert before[..n] == actions[..n];
    }
  }

  /** Between `process` and the commit, the copy at the group's position is one whose header and text can be read. */
  ghost predicate Readable(s: State) {
    forall g :: 0 <= g < |s.groups| && (s.groups[g].stage.ProcessedOk? || s.groups[g].stage.ProcessFailed?) ==>
      Position(s.groups[g]) < |s.topic| && React(s.topic[Position(s.groups[g])].message, false).Ok?
  }

  lemma ReadableStep(s: State, a: Action)
    requires Readable(s)
    ensures Readable(Step(s, a))
  {
    hide RetryCount;
  }

  lemma {:induction false} AlwaysReadable(groups: nat, actions: seq<Action>)
    ensures Readable(Steps(Initial(groups), actions))
  {
    hide Step, React;
    if actions != [] {
      AlwaysReadable(groups, actions[..|actions| - 1]);
      ReadableStep(Steps(Initial(groups), actions[..|actions| - 1]), actions[|actions| - 1]);
    }
  }

  /** What it takes to be handled. A group has newly processed a message only when its `process` returned on a JSON copy
      of it, newly dead-lettered it only when it handed over a copy that is not JSON or came with three retries, and
      moves its committed offset only by one, in a commit after either or after a retry copy was sent. */
  lemma HandledHow(groups: nat, actions: seq<Action>, a: Action, g: nat, i: nat)
    requires g < |Steps(Initial(groups), actions).groups|
    ensures
      var s := Steps(Initial(groups), actions);
      var s' := Step(s, a);
      var at := Position(s.groups[g]);
      && |s'.groups| == |s.groups|
      && (i in s'.groups[g].processed && i !in s.groups[g].processed ==>
            && a == Process(g, true) && at < |s.topic| && s.topic[at].origin == i && s.topic[at].message.body.Json?)
      && (i in s'.groups[g].deadLetters && i !in s.groups[g].deadLetters ==>
            && a == HandOver(g) && at < |s.topic| && s.topic[at].origin == i
            && (s.topic[at].message.body.NotJson? ||
                (RetryCount(s.topic[at].message.headers).Ok? && RetryCount(s.topic[at].message.headers).value >= 3)))
      && (s'.groups[g].committed != s.groups[g].committed ==>
            && a == Commit(g) && s'.groups[g].committed == Some(at + 1)
            && (s.groups[g].stage.ProcessedOk? || s.groups[g].stage.Handed?))
  {
    AlwaysReadable(groups, actions);
    hide Steps, RetryCount;
  }

  lemma {:induction false} GroupCount(groups: nat, actions: seq<Action>)
    ensures |Steps(Initial(groups), actions).groups| == groups
  {
    if actions != [] {
      GroupCount(groups, actions[..|actions| - 1]);
    }
  }

  /** Which messages a group passes over, for every run: it committed past every copy of the original, and handled it if
      and only if it had done so before the start that fixed its base, or some copy lies at or after that base. */
  lemma SkippedExactly(groups: nat, actions: seq<Action>, g: nat, origin: nat) returns (n: nat)
    requires PastAll(Steps(Initial(groups), actions), g, origin)
    ensures n < |actions| && actions[n] == Start(g)
    ensures
      var s0, s := Steps(Initial(groups), actions[..n]), Steps(Initial(groups), actions);
      && g < |s0.groups| && s0.groups[g].stage.Down? && s0.groups[g].committed.None?
      && s.groups[g].base == |s0.topic|
      && (Handled(s.groups[g], origin) <==> Handled(s0.groups[g], origin) || CopyFrom(s.topic, |s0.topic|, origin))
  {
    hide Steps, Handled, CopyFrom;
    n := BaseWasSetBy(groups, actions, g);
    assert actions == actions[..n] + [Start(g)] + actions[n + 1..];
    SkippedSince(groups, actions[..n], g, actions[n + 1..], origin);
  }

  /** A consumer that dies before its first commit comes back at the end of the topic, and its next commit passes over
      the message it never handled. */
  const SKIP: seq<Action> :=
    [Start(0), Publish(7, ORIGINAL), Crash(0), Start(0), Publish(8, ORIGINAL), Process(0, true), Commit(0)]

  const ORIGINAL := Message(Json(0), [])

  lemma SkippedByLatest()
    ensures
      var s := Steps(Initial(1), SKIP);
      && PastAll(s, 0, 7) && 7 !in s.groups[0].processed && 7 !in s.groups[0].deadLetters
  {
    var s0 := Initial(1);
    assert s0.groups == [Group(Down, 0, None, {}, {})];
    var first, second := Copy(7, ORIGINAL), Copy(8, ORIGINAL);
    var s3 := Step(Step(Step(s0, Start(0)), Publish(7, ORIGINAL)), Crash(0));
    assert s3 == State([first], [Group(Down, 0, None, {}, {})]);
    var s5 := Step(Step(s3, Start(0)), Publish(8, ORIGINAL));
    assert s5 == State([first, second], [Group(Polling, 1, None, {}, {})]);
    assert Position(s5.groups[0]) == 1 && s5.topic[1] == second;
    assert React(ORIGINAL, true) == Ok(Processed);
    var s6 := Step(s5, Process(0, true));
    assert s6.groups[0] == Group(ProcessedOk, 1, None, {} + {8}, {});
    var s7 := Step(s6, Commit(0));
    assert s7.groups[0] == Group(Polling, 1, Some(2), {} + {8}, {}) && s7.topic == [first, second];
    StepsSeven(s0, SKIP[0], SKIP[1], SKIP[2], SKIP[3], SKIP[4], SKIP[5], SKIP[6]);
  }

  lemma StepsSnoc(s: State, xs: seq<Action>, a: Action)
    ensures Steps(s, []) == s
    ensures Steps(s, xs + [a]) == Step(Steps(s, xs), a)
  {
    hide Step;
    assert (xs + [a])[..|xs + [a]| - 1] == xs;
  }

  lemma StepsSeven(s: State, a: Action, b: Action, c: Action, d: Action, e: Action, f: Action, g: Action)
    ensures Steps(s, [a, b, c, d, e, f, g]) == Step(Step(Step(Step(Step(Step(Step(s, a), b), c), d), e), f), g)
  {
    hide Step, Steps;
    assert [] + [a] == [a];
    assert [a] + [b] == [a, b];
    assert [a, b] + [c] == [a, b, c];
    assert [a, b, c] + [d] == [a, b, c, d];
    assert [a, b, c, d] + [e] == [a, b, c, d, e];
    assert [a, b, c, d, e] + [f] == [a, b, c, d, e, f];
    assert [a, b, c, d, e, f] + [g] == [a, b, c, d, e, f, g];
    StepsSnoc(s, [], a);
    StepsSnoc(s, [a], b);
    StepsSnoc(s, [a, b], c);
    StepsSnoc(s, [a, b, c], d);
    StepsSnoc(s, [a, b, c, d], e);
    StepsSnoc(s, [a, b, c, d, e], f);
    StepsSnoc(s, [a, b, c, d, e, f], g);
  }
}
