/**
 Retries go back to the topic that every group reads, so one failed delivery in one group is a new delivery in
 all of them. Without crashes the fan-out is bounded, and the bounds are met when everything fails.
 */
module RetryFanout {
  import opened ConsumerRetry

  /** One original message, its copies in topic order, each group's offset, and the dead letters of all groups. */
  datatype State = State(topic: seq<Message>, offsets: seq<nat>, dead: nat)

  /** Group g handles its next copy, successfully or not. */
  datatype Delivery = Delivery(group: nat, succeeds: bool)

  predicate Possible(s: State, d: Delivery) {
    d.group < |s.offsets| && s.offsets[d.group] < |s.topic| && React(s.topic[s.offsets[d.group]], d.succeeds).Ok?
  }

  function Handle(s: State, d: Delivery): State {
    if !Possible(s, d) then s
    else
      var at := s.offsets[d.group];
      var reaction := React(s.topic[at], d.succeeds).value;
      State(
        s.topic + (if reaction.Republished? then [reaction.message] else []),
        s.offsets[d.group := at + 1],
        s.dead + (if reaction.DeadLettered? then 1 else 0))
  }

  function Initial(body: Body, groups: nat): State {
    State([Message(body, [])], seq(groups, i => 0), 0)
  }

  function After(s: State, deliveries: seq<Delivery>): State {
    if deliveries == [] then s
    else Handle(After(s, deliveries[..|deliveries| - 1]), deliveries[|deliveries| - 1])
  }

  /** Every delivery of the schedule was possible when it came. */
  predicate Runs(s: State, deliveries: seq<Delivery>) {
    deliveries != [] ==>
      Runs(s, deliveries[..|deliveries| - 1])
      && Possible(After(s, deliveries[..|deliveries| - 1]), deliveries[|deliveries| - 1])
  }

  /* ---- Weights: what one outstanding delivery may still cause, by retry count ---- */

  datatype Measure = Copies | Deaths | Deliveries

  /** With g groups: further copies, dead letters, and deliveries (counting itself). */
  function Weight(m: Measure, g: nat, retries: int): nat
    decreases MAX_RETRIES - retries
  {
    if retries >= MAX_RETRIES then
      (match m case Copies => 0 case Deaths => 1 case Deliveries => 1)
    else
      g * Weight(m, g, retries + 1) + (match m case Copies => 1 case Deaths => 0 case Deliveries => 1)
  }

  function CountOf(message: Message): int {
    match RetryCount(message.headers) case Ok(n) => n case Err(_) => 0
  }

  function Tail(m: Measure, g: nat, topic: seq<Message>, from: nat): nat {
    if topic == [] then 0
    else
      var n := |topic| - 1;
      Tail(m, g, topic[..n], from) + (if from <= n then Weight(m, g, CountOf(topic[n])) else 0)
  }

  /** The weight of all outstanding (copy, group) pairs. */
  function Owed(m: Measure, g: nat, topic: seq<Message>, offsets: seq<nat>): nat {
    if offsets == [] then 0
    else Owed(m, g, topic, offsets[..|offsets| - 1]) + Tail(m, g, topic, offsets[|offsets| - 1])
  }

  lemma {:induction false} TailAdvance(m: Measure, g: nat, topic: seq<Message>, from: nat)
    requires from < |topic|
    ensures Tail(m, g, topic, from) == Tail(m, g, topic, from + 1) + Weight(m, g, CountOf(topic[from]))
  {
    var n := |topic| - 1;
    if from < n {
      TailAdvance(m, g, topic[..n], from);
    } else {
      TailBeyond(m, g, topic[..n], from);
      TailBeyond(m, g, topic[..n], from + 1);
    }
  }

  lemma {:induction false} TailBeyond(m: Measure, g: nat, topic: seq<Message>, from: nat)
    requires from >= |topic|
    ensures Tail(m, g, topic, from) == 0
  {
    if topic != [] { TailBeyond(m, g, topic[..|topic| - 1], from); }
  }

  lemma {:induction false} OwedAdvance(m: Measure, g: nat, topic: seq<Message>, offsets: seq<nat>, i: nat)
    requires i < |offsets| && offsets[i] < |topic|
    ensures Owed(m, g, topic, offsets)
            == Owed(m, g, topic, offsets[i := offsets[i] + 1]) + Weight(m, g, CountOf(topic[offsets[i]]))
    decreases |offsets|
  {
    var n := |offsets| - 1;
    var offsets' := offsets[i := offsets[i] + 1];
    if i == n {
      assert offsets'[..n] == offsets[..n];
      TailAdvance(m, g, topic, offsets[n]);
    } else {
      assert offsets'[..n] == offsets[..n][i := offsets[..n][i] + 1];
      OwedAdvance(m, g, topic, offsets[..n], i);
    }
  }

  /** A new copy is outstanding in every group. */
  lemma {:induction false} OwedCopy(m: Measure, g: nat, topic: seq<Message>, message: Message, offsets: seq<nat>)
    requires forall i :: 0 <= i < |offsets| ==> offsets[i] <= |topic|
    ensures Owed(m, g, topic + [message], offsets)
            == Owed(m, g, topic, offsets) + |offsets| * Weight(m, g, CountOf(message))
  {
    hide Weight;
    if offsets != [] {
      var n := |offsets| - 1;
      OwedCopy(m, g, topic, message, offsets[..n]);
      assert (topic + [message])[..|topic|] == topic;
      var w := Weight(m, g, CountOf(message));
      assert Tail(m, g, topic + [message], offsets[n]) == Tail(m, g, topic, offsets[n]) + w;
      assert |offsets| * w == n * w + w by { Distribute(n, w); }
    }
  }

  lemma Distribute(n: int, w: int)
    ensures (n + 1) * w == n * w + w
  {
  }

  ghost predicate Sane(s: State) {
    && (forall i :: 0 <= i < |s.offsets| ==> s.offsets[i] <= |s.topic|)
    && (forall i :: 0 <= i < |s.topic| ==> RetryCount(s.topic[i].headers).Ok?)
  }

  /** What a measure has realised so far. */
  function Realised(m: Measure, s: State, delivered: nat): nat {
    match m case Copies => |s.topic| case Deaths => s.dead case Deliveries => delivered
  }

  lemma WeightAtLeastOne(m: Measure, g: nat, retries: int)
    requires g > 0 && !m.Copies?
    ensures Weight(m, g, retries) >= 1
    decreases MAX_RETRIES - retries
  {
    if retries < MAX_RETRIES {
      WeightAtLeastOne(m, g, retries + 1);
      assert g * Weight(m, g, retries + 1) >= 1 * 1 by { Product(g, Weight(m, g, retries + 1)); }
    }
  }

  lemma Product(g: nat, w: nat)
    requires g >= 1 && w >= 1
    ensures g * w >= 1
  {
  }

  /** Realised plus owed never grows, and is unchanged by a delivery of readable JSON that fails. */
  lemma HandleConserves(m: Measure, s: State, d: Delivery, delivered: nat)
    requires Sane(s) && Possible(s, d)
    ensures Sane(Handle(s, d)) && |Handle(s, d).offsets| == |s.offsets|
    ensures
      var g := |s.offsets|;
      var before := Realised(m, s, delivered) + Owed(m, g, s.topic, s.offsets);
      var s' := Handle(s, d);
      var after := Realised(m, s', delivered + 1) + Owed(m, g, s'.topic, s'.offsets);
      && after <= before
      && (!d.succeeds && s.topic[s.offsets[d.group]].body.Json? ==> after == before)
  {
    hide Owed;
    var g := |s.offsets|;
    var at := s.offsets[d.group];
    var message := s.topic[at];
    var offsets' := s.offsets[d.group := at + 1];
    var count := CountOf(message);
    var reaction := React(message, d.succeeds).value;
    OwedAdvance(m, g, s.topic, s.offsets, d.group);
    AppendedCounts(message.headers, count + 1);
    if reaction.Republished? {
      assert CountOf(reaction.message) == count + 1;
      OwedCopy(m, g, s.topic, reaction.message, offsets');
      assert Weight(m, g, count) == g * Weight(m, g, count + 1)
             + (match m case Copies => 1 case Deaths => 0 case Deliveries => 1);
    } else {
      assert s.topic + [] == s.topic;
      if !m.Copies? { WeightAtLeastOne(m, g, count); }
    }
  }

  ghost predicate AllFail(deliveries: seq<Delivery>) {
    forall i :: 0 <= i < |deliveries| ==> !deliveries[i].succeeds
  }

  /** Every copy carries the original's body. */
  lemma {:induction false} BodyStays(body: Body, g: nat, deliveries: seq<Delivery>)
    ensures
      var s := After(Initial(body, g), deliveries);
      |s.offsets| == g && forall i :: 0 <= i < |s.topic| ==> s.topic[i].body == body
  {
    if deliveries != [] {
      BodyStays(body, g, deliveries[..|deliveries| - 1]);
    }
  }

  lemma {:induction false} RunConserves(m: Measure, body: Body, g: nat, deliveries: seq<Delivery>)
    requires Runs(Initial(body, g), deliveries)
    ensures
      var s := After(Initial(body, g), deliveries);
      var total := Realised(m, s, |deliveries|) + Owed(m, g, s.topic, s.offsets);
      var start := Realised(m, Initial(body, g), 0) + Owed(m, g, Initial(body, g).topic, Initial(body, g).offsets);
      && Sane(s) && |s.offsets| == g
      && total <= start
      && (AllFail(deliveries) && body.Json? ==> total == start)
    decreases |deliveries|
  {
    BodyStays(body, g, deliveries);
    if deliveries == [] {
      assert Sane(Initial(body, g));
    } else {
      hide Owed, Realised, Handle, Sane, React;
      var n := |deliveries| - 1;
      RunConserves(m, body, g, deliveries[..n]);
      BodyStays(body, g, deliveries[..n]);
      var s := After(Initial(body, g), deliveries[..n]);
      HandleConserves(m, s, deliveries[n], n);
      assert AllFail(deliveries) ==> AllFail(deliveries[..n]) && !deliveries[n].succeeds;
    }
  }

  /* ---- The bounds in closed form ---- */

  lemma {:induction false} OwedAtStart(m: Measure, g: nat, message: Message, n: nat)
    ensures Owed(m, g, [message], seq(n, i => 0)) == n * Weight(m, g, CountOf(message))
  {
    if n > 0 {
      var offsets: seq<nat> := seq(n, i => 0);
      assert offsets[..n - 1] == seq(n - 1, i => 0);
      OwedAtStart(m, g, message, n - 1);
      hide Weight;
      assert [message][..0] == [];
      var w := Weight(m, g, CountOf(message));
      assert Tail(m, g, [message], 0) == w;
      assert Owed(m, g, [message], offsets) == Owed(m, g, [message], offsets[..n - 1])
             + Tail(m, g, [message], offsets[n - 1]);
      assert n * w == (n - 1) * w + w by { Distribute(n - 1, w); }
    }
  }

  lemma ClosedForms(g: nat)
    ensures Weight(Copies, g, 0) == 1 + g + g * g
    ensures Weight(Deaths, g, 0) == g * g * g
    ensures Weight(Deliveries, g, 0) == 1 + g + g * g + g * g * g
  {
    assert Weight(Copies, g, 2) == g * 0 + 1;
    assert Weight(Copies, g, 1) == g * 1 + 1;
    assert Weight(Copies, g, 0) == g * (g * 1 + 1) + 1;
    assert Weight(Deaths, g, 2) == g * 1;
    assert Weight(Deaths, g, 1) == g * g;
    assert Weight(Deaths, g, 0) == g * (g * g);
    assert Weight(Deliveries, g, 2) == g * 1 + 1;
    assert Weight(Deliveries, g, 1) == g * (g + 1) + 1;
    assert Weight(Deliveries, g, 0) == g * (g * (g + 1) + 1) + 1;
    Expand(g);
  }

  lemma Expand(g: int)
    ensures g * (g * (g + 1) + 1) == g + g * g + g * g * g
  {
    assert g * (g + 1) == g * g + g;
    assert g * (g * g + g + 1) == g * g * g + g * g + g;
  }

  /** The fan-out of one message: at most 1+G+G²+G³ copies, G⁴ dead letters, and G+G²+G³+G⁴ deliveries, so every
      schedule ends. When every delivery of a JSON message fails and nothing is outstanding, all three are met. */
  lemma FanoutBounded(body: Body, g: nat, deliveries: seq<Delivery>)
    requires Runs(Initial(body, g), deliveries)
    ensures
      var s := After(Initial(body, g), deliveries);
      && |s.topic| <= 1 + g * (1 + g + g * g)
      && s.dead <= g * (g * g * g)
      && |deliveries| <= g * (1 + g + g * g + g * g * g)
    ensures
      var s := After(Initial(body, g), deliveries);
      body.Json? && AllFail(deliveries) && (forall i :: 0 <= i < |s.offsets| ==> s.offsets[i] == |s.topic|) ==>
        && |s.topic| == 1 + g * (1 + g + g * g)
        && s.dead == g * (g * g * g)
        && |deliveries| == g * (1 + g + g * g + g * g * g)
  {
    ClosedForms(g);
    var s := After(Initial(body, g), deliveries);
    hide Weight, Runs, After;
    BoundOf(Copies, body, g, deliveries);
    BoundOf(Deaths, body, g, deliveries);
    BoundOf(Deliveries, body, g, deliveries);
  }

  lemma BoundOf(m: Measure, body: Body, g: nat, deliveries: seq<Delivery>)
    requires Runs(Initial(body, g), deliveries)
    ensures
      var s := After(Initial(body, g), deliveries);
      var bound := (if m.Copies? then 1 else 0) + g * Weight(m, g, 0);
      && Realised(m, s, |deliveries|) <= bound
      && (body.Json? && AllFail(deliveries) && (forall i :: 0 <= i < |s.offsets| ==> s.offsets[i] == |s.topic|) ==>
            Realised(m, s, |deliveries|) == bound)
  {
    RunConserves(m, body, g, deliveries);
    OwedAtStart(m, g, Message(body, []), g);
    var s := After(Initial(body, g), deliveries);
    if forall i :: 0 <= i < |s.offsets| ==> s.offsets[i] == |s.topic| {
      NothingOwed(m, g, s.topic, s.offsets);
    }
  }

  lemma {:induction false} NothingOwed(m: Measure, g: nat, topic: seq<Message>, offsets: seq<nat>)
    requires forall i :: 0 <= i < |offsets| ==> offsets[i] == |topic|
    ensures Owed(m, g, topic, offsets) == 0
  {
    if offsets != [] {
      NothingOwed(m, g, topic, offsets[..|offsets| - 1]);
      TailBeyond(m, g, topic, offsets[|offsets| - 1]);
    }
  }

  /** An outstanding delivery can be made to fail, and the schedule stays within the bound. */
  lemma OneMoreFails(content: nat, g: nat, deliveries: seq<Delivery>, i: nat)
    requires Runs(Initial(Json(content), g), deliveries) && AllFail(deliveries)
    requires
      var s := After(Initial(Json(content), g), deliveries);
      i < |s.offsets| && s.offsets[i] != |s.topic|
    ensures
      var more := deliveries + [Delivery(i, false)];
      Runs(Initial(Json(content), g), more) && AllFail(more) && |more| <= g * Weight(Deliveries, g, 0)
  {
    var s0, more := Initial(Json(content), g), deliveries + [Delivery(i, false)];
    assert more[..|more| - 1] == deliveries;
    RunConserves(Deliveries, Json(content), g, deliveries);
    BodyStays(Json(content), g, deliveries);
    hide Weight, Owed, After;
    var s := After(s0, deliveries);
    assert Sane(s) && s.topic[s.offsets[i]].body.Json?;
    assert Possible(s, Delivery(i, false));
    assert Runs(s0, more);
    BoundOf(Deliveries, Json(content), g, more);
  }

  /** The bounds are reached: some schedule fails every delivery until nothing is outstanding. */
  lemma WorstCaseExists(content: nat, g: nat) returns (deliveries: seq<Delivery>)
    ensures Runs(Initial(Json(content), g), deliveries) && AllFail(deliveries)
    ensures
      var s := After(Initial(Json(content), g), deliveries);
      |s.topic| == 1 + g * (1 + g + g * g) && s.dead == g * (g * g * g)
  {
    var s0 := Initial(Json(content), g);
    deliveries := [];
    while exists i ::
        0 <= i < |After(s0, deliveries).offsets| && After(s0, deliveries).offsets[i] != |After(s0, deliveries).topic|
      invariant Runs(s0, deliveries) && AllFail(deliveries)
      decreases g * Weight(Deliveries, g, 0) - |deliveries|
    {
      hide Weight, Runs, After;
      var s := After(s0, deliveries);
      var i :| 0 <= i < |s.offsets| && s.offsets[i] != |s.topic|;
      OneMoreFails(content, g, deliveries, i);
      deliveries := deliveries + [Delivery(i, false)];
    }
    FanoutBounded(Json(content), g, deliveries);
  }
}
