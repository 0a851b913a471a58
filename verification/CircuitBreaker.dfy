/**
 The Redis-backed circuit breaker: four keys, three atomic scripts, and callers that interleave between
 every Redis command. Time is in milliseconds.
 */
module CircuitBreaker {
  import opened Wrappers

  datatype Circuit = Closed | Open | HalfOpen

  const PROBE_TTL: nat := 60_000

  /** The Redis keys. An absent `circuit` reads as Closed; `probeUntil` is the expiry of the probe lease. */
  datatype Keys = Keys(circuit: Option<Circuit>, failures: Option<nat>, lastFailureAt: Option<int>,
                       probeUntil: Option<int>)

  datatype Config = Config(threshold: int, cooldown: nat)

  const FRESH := Keys(None, None, None, None)

  function CircuitOf(k: Keys): Circuit {
    if k.circuit.None? then Closed else k.circuit.value
  }

  function FailuresOf(k: Keys): nat {
    if k.failures.None? then 0 else k.failures.value
  }

  /** Redis drops the lease once its time is up. */
  function Expire(k: Keys, now: int): Keys {
    if k.probeUntil.Some? && k.probeUntil.value <= now then k.(probeUntil := None) else k
  }

  function RecordFailure(k: Keys, threshold: int, stamp: int): Keys {
    var count := FailuresOf(k) + 1;
    var k' := k.(failures := Some(count), lastFailureAt := Some(stamp));
    if CircuitOf(k).HalfOpen? then k'.(circuit := Some(Open), probeUntil := None, failures := Some(1))
    else if count >= threshold then k'.(circuit := Some(Open))
    else k'
  }

  function RecordSuccess(k: Keys): Keys {
    k.(circuit := Some(Closed), failures := Some(0), lastFailureAt := None, probeUntil := None)
  }

  /** The atomic claim: only from Open, and only without a lease. */
  function ClaimProbe(k: Keys, now: int): (Keys, bool) {
    if CircuitOf(k).Open? && k.probeUntil.None? then
      (k.(circuit := Some(HalfOpen), probeUntil := Some(now + PROBE_TTL)), true)
    else (k, false)
  }

  /** `SET probe NX EX`: whatever the circuit is by then. */
  function SetProbe(k: Keys, now: int): (Keys, bool) {
    if k.probeUntil.None? then (k.(probeUntil := Some(now + PROBE_TTL)), true) else (k, false)
  }

  function CooldownElapsed(k: Keys, cooldown: nat, now: int): bool {
    k.lastFailureAt.None? || now - k.lastFailureAt.value >= cooldown
  }

  /** `is_call_allowed`. */
  function CallAllowed(k: Keys, cooldown: nat, now: int): bool {
    match CircuitOf(k)
    case Closed => true
    case Open => CooldownElapsed(k, cooldown, now)
    case HalfOpen => k.probeUntil.None?
  }

  /** Admission by `call` when nobody else touches Redis meanwhile: the keys afterwards, and whether it was admitted. */
  function Gate(k: Keys, cooldown: nat, now: int): (Keys, bool) {
    match CircuitOf(k)
    case Closed => (k, true)
    case Open => if CooldownElapsed(k, cooldown, now) then ClaimProbe(k, now) else (k, false)
    case HalfOpen => SetProbe(k, now)
  }

  /** How a call to the rail ends; `Raised` is any exception that is not a RailError. */
  datatype Outcome = Accepted(reference: nat) | Refused(code: string) | Raised

  datatype CallResult = Returned(reference: nat) | RailError(code: string) | CircuitOpenError | OtherError

  /** `call` when nobody else touches Redis: the gate at `now`, the rail's outcome reported at `later`. */
  function CallKeys(k: Keys, config: Config, now: int, outcome: Outcome, later: int): (Keys, CallResult) {
    var (gated, admitted) := Gate(k, config.cooldown, now);
    if !admitted then (k, CircuitOpenError)
    else
      var held := Expire(gated, later);
      match outcome
      case Accepted(reference) => (RecordSuccess(held), Returned(reference))
      case Refused(code) => (RecordFailure(held, config.threshold, later), RailError(code))
      case Raised => (held, OtherError)
  }

  class Breaker {
    const config: Config
    var circuit: Option<Circuit>
    var failures: Option<nat>
    var lastFailureAt: Option<int>
    var probeUntil: Option<int>

    function View(): Keys
      reads this
    {
      Keys(circuit, failures, lastFailureAt, probeUntil)
    }

    constructor (config: Config)
      ensures this.config == config && View() == FRESH
    {
      this.config := config;
      circuit, failures, lastFailureAt, probeUntil := None, None, None, None;
    }

    /** While the caller waits, Redis may drop the lease. */
    method PassTime(now: int)
      modifies this`probeUntil
      ensures View() == Expire(old(View()), now)
    {
      if probeUntil.Some? && probeUntil.value <= now {
        probeUntil := None;
      }
    }

    /** `_RECORD_FAILURE_LUA`. */
    method OnFailure(stamp: int) returns (state: Circuit)
      modifies this
      ensures View() == RecordFailure(old(View()), config.threshold, stamp)
      ensures state == CircuitOf(View())
    {
      var current := if circuit.None? then Closed else circuit.value;
      failures := Some((if failures.None? then 0 else failures.value) + 1);
      lastFailureAt := Some(stamp);
      if current.HalfOpen? {
        circuit := Some(Open);
        probeUntil := None;
        failures := Some(1);
        return Open;
      } else if failures.value >= config.threshold {
        circuit := Some(Open);
        return Open;
      }
      return current;
    }

    /** `_RECORD_SUCCESS_LUA`. */
    method OnSuccess()
      modifies this
      ensures View() == RecordSuccess(old(View()))
    {
      circuit := Some(Closed);
      failures := Some(0);
      lastFailureAt := None;
      probeUntil := None;
    }

    /** `_CLAIM_PROBE_LUA`. */
    method Claim(now: int) returns (claimed: bool)
      modifies this`circuit, this`probeUntil
      ensures (View(), claimed) == ClaimProbe(old(View()), now)
    {
      if circuit != Some(Open) {
        return false;
      }
      if probeUntil.None? {
        probeUntil := Some(now + PROBE_TTL);
        circuit := Some(HalfOpen);
        return true;
      }
      return false;
    }

    method IsCallAllowed(now: int) returns (allowed: bool)
      ensures allowed == CallAllowed(View(), config.cooldown, now)
    {
      var state := if circuit.None? then Closed else circuit.value;
      if state.Closed? { return true; }
      if state.Open? { return CooldownElapsed(View(), config.cooldown, now); }
      return probeUntil.None?;
    }

    /** `call`, uninterrupted: reports a success or a RailError, and nothing for any other exception. */
    method Call(now: int, outcome: Outcome, later: int) returns (result: CallResult)
      modifies this
      ensures (View(), result) == CallKeys(old(View()), config, now, outcome, later)
    {
      var state := if circuit.None? then Closed else circuit.value;
      if state.Open? {
        if CooldownElapsed(View(), config.cooldown, now) {
          var claimed := Claim(now);
          if !claimed { return CircuitOpenError; }
        } else {
          return CircuitOpenError;
        }
      } else if state.HalfOpen? {
        if probeUntil.Some? { return CircuitOpenError; }
        probeUntil := Some(now + PROBE_TTL);
      }
      PassTime(later);
      match outcome {
        case Accepted(reference) =>
          OnSuccess();
          return Returned(reference);
        case Refused(code) =>
          var _ := OnFailure(later);
          return RailError(code);
        case Raised =>
          return OtherError;
      }
    }
  }

  /** What the pre-flight check promises, exactly: an uncontended call is admitted if and only if the check
      passes and the circuit is not Open under a lease. */
  lemma PreflightExact(k: Keys, cooldown: nat, now: int)
    ensures Gate(k, cooldown, now).1 <==>
              CallAllowed(k, cooldown, now) && !(CircuitOf(k).Open? && k.probeUntil.Some?)
  {
  }

  /** What an uninterrupted call comes to: refused under that condition, and otherwise what the rail answered. */
  lemma CallAnswers(k: Keys, config: Config, now: int, outcome: Outcome, later: int)
    ensures
      CallKeys(k, config, now, outcome, later).1
      == if !CallAllowed(k, config.cooldown, now) || (CircuitOf(k).Open? && k.probeUntil.Some?) then CircuitOpenError
         else match outcome
              case Accepted(reference) => Returned(reference)
              case Refused(code) => RailError(code)
              case Raised => OtherError
  {
    PreflightExact(k, config.cooldown, now);
  }

  /* ---- Any number of callers ---- */

  /** `seen` is how many reports there were when the caller last looked at the circuit: at its check of the cooldown, or
      when it read HalfOpen. */
  datatype Caller =
    | Idle
    | SawOpen
    | MayClaim(seen: nat)
    | SawHalfOpen(seen: nat)
    | MaySet(seen: nat)
    | InFlight
    | Failing(stamp: int)

  datatype Report = Failed(stamp: int) | Succeeded

  /** The lease's life: admissions through the Open or HalfOpen branch, and the events that clear it. */
  datatype Mark = Admitted | Cleared

  datatype State = State(config: Config, keys: Keys, now: int, callers: seq<Caller>, reports: seq<Report>,
                         lease: seq<Mark>)

  /** `Proceed` is a caller's next Redis command; the rail's answer and the caller's death are the environment's. */
  datatype Action = Proceed(i: nat) | RailAccepts(i: nat) | RailRefuses(i: nat) | Die(i: nat) | Wait(d: nat)

  function Initial(config: Config, n: nat): State {
    State(config, FRESH, 0, seq(n, i => Idle), [], [])
  }

  function At(s: State, i: nat, c: Caller): State
    requires i < |s.callers|
  {
    s.(callers := s.callers[i := c])
  }

  function ProceedStep(s: State, i: nat): State
    requires i < |s.callers|
  {
    match s.callers[i]
    case Idle =>
      At(s, i, match CircuitOf(s.keys)
               case Closed => InFlight
               case Open => SawOpen
               case HalfOpen => SawHalfOpen(|s.reports|))
    case SawOpen =>
      At(s, i, if CooldownElapsed(s.keys, s.config.cooldown, s.now) then MayClaim(|s.reports|) else Idle)
    case MayClaim(_) =>
      var (keys, claimed) := ClaimProbe(s.keys, s.now);
      if claimed then At(s, i, InFlight).(keys := keys, lease := s.lease + [Admitted]) else At(s, i, Idle)
    case SawHalfOpen(seen) => At(s, i, if s.keys.probeUntil.Some? then Idle else MaySet(seen))
    case MaySet(_) =>
      var (keys, claimed) := SetProbe(s.keys, s.now);
      if claimed then At(s, i, InFlight).(keys := keys, lease := s.lease + [Admitted]) else At(s, i, Idle)
    case InFlight => s
    case Failing(stamp) =>
      At(s, i, Idle).(keys := RecordFailure(s.keys, s.config.threshold, stamp),
                      reports := s.reports + [Failed(stamp)],
                      lease := if CircuitOf(s.keys).HalfOpen? then s.lease + [Cleared] else s.lease)
  }

  /** One step of the system; an action that is not possible changes nothing. */
  function Step(s: State, a: Action): State {
    match a
    case Proceed(i) => if i < |s.callers| then ProceedStep(s, i) else s
    case RailAccepts(i) =>
      if i < |s.callers| && s.callers[i].InFlight? then
        At(s, i, Idle).(keys := RecordSuccess(s.keys), reports := s.reports + [Succeeded], lease := s.lease + [Cleared])
      else s
    case RailRefuses(i) =>
      if i < |s.callers| && s.callers[i].InFlight? then At(s, i, Failing(s.now)) else s
    case Die(i) => if i < |s.callers| then At(s, i, Idle) else s
    case Wait(d) =>
      var keys := Expire(s.keys, s.now + d);
      s.(now := s.now + d, keys := keys, lease := if keys != s.keys then s.lease + [Cleared] else s.lease)
  }

  function Steps(s: State, actions: seq<Action>): State {
    if actions == [] then s else Step(Steps(s, actions[..|actions| - 1]), actions[|actions| - 1])
  }

  /** The length of the trailing run of failures. */
  function Trailing(reports: seq<Report>): nat {
    if reports == [] || reports[|reports| - 1].Succeeded? then 0 else Trailing(reports[..|reports| - 1]) + 1
  }

  /** What `last_failure_at` should be: the stamp of the last report, if that was a failure. */
  function LastFailure(reports: seq<Report>): Option<int> {
    if reports == [] || reports[|reports| - 1].Succeeded? then None else Some(reports[|reports| - 1].stamp)
  }

  /** Nothing reported by then forbade a call at this time. */
  predicate Cooled(reports: seq<Report>, cooldown: nat, now: int) {
    LastFailure(reports).None? || now - LastFailure(reports).value >= cooldown
  }

  /** What a caller that looked at the circuit still knows, if nothing was reported since. */
  ghost predicate Informed(c: Caller, s: State) {
    match c
    case MayClaim(seen) => seen <= |s.reports| && Cooled(s.reports[..seen], s.config.cooldown, s.now)
    case SawHalfOpen(seen) => seen <= |s.reports| && (seen == |s.reports| ==> !CircuitOf(s.keys).Open?)
    case MaySet(seen) => seen <= |s.reports| && (seen == |s.reports| ==> !CircuitOf(s.keys).Open?)
    case Failing(stamp) => stamp <= s.now
    case _ => true
  }

  /** What the keys are in terms of the reports and the lease's life. */
  ghost predicate KeysTell(s: State) {
    // the circuit is Closed exactly while the trailing run of failures is below the threshold
    && (CircuitOf(s.keys).Closed? <==> Trailing(s.reports) < s.config.threshold)
    && (CircuitOf(s.keys).Closed? ==> FailuresOf(s.keys) == Trailing(s.reports))
    && s.keys.lastFailureAt == LastFailure(s.reports)
    && (s.keys.lastFailureAt.Some? ==> s.keys.lastFailureAt.value <= s.now)
    && (s.keys.probeUntil.Some? ==> s.now < s.keys.probeUntil.value <= s.now + 60_000)
    // a lease is held exactly while the last admission through Open or HalfOpen has not been cleared
    && (s.keys.probeUntil.Some? <==> s.lease != [] && s.lease[|s.lease| - 1].Admitted?)
  }

  ghost predicate AllInformed(s: State) {
    forall i :: 0 <= i < |s.callers| ==> Informed(s.callers[i], s)
  }

  ghost predicate Inv(s: State) {
    KeysTell(s) && AllInformed(s)
  }

  lemma TrailingGrows(reports: seq<Report>, r: Report)
    ensures Trailing(reports + [r]) == if r.Succeeded? then 0 else Trailing(reports) + 1
  {
    assert (reports + [r])[..|reports + [r]| - 1] == reports;
  }

  lemma FailureTells(s: State, i: nat)
    requires Inv(s) && s.config.threshold >= 1 && i < |s.callers| && s.callers[i].Failing?
    ensures KeysTell(ProceedStep(s, i))
  {
    hide Trailing, Cooled;
    assert Informed(s.callers[i], s);
    hide AllInformed;
    TrailingGrows(s.reports, Failed(s.callers[i].stamp));
  }

  lemma ProceedTells(s: State, i: nat)
    requires Inv(s) && i < |s.callers| && !s.callers[i].Failing?
    ensures KeysTell(ProceedStep(s, i))
  {
    hide Trailing, Cooled, AllInformed, CooldownElapsed, LastFailure;
  }

  lemma KeysStep(s: State, a: Action)
    requires Inv(s) && s.config.threshold >= 1
    ensures KeysTell(Step(s, a))
  {
    hide Trailing, Cooled, AllInformed;
    match a {
      case Proceed(i) =>
        if i < |s.callers| {
          if s.callers[i].Failing? { FailureTells(s, i); } else { ProceedTells(s, i); }
        }
      case RailAccepts(_) => TrailingGrows(s.reports, Succeeded);
      case _ =>
    }
  }

  /** Time goes on and reports are added; without one, a circuit that was not Open does not become so. */
  ghost predicate Onwards(s: State, s': State) {
    && s'.config == s.config && s.now <= s'.now
    && |s.reports| <= |s'.reports| && s'.reports[..|s.reports|] == s.reports
    && (s'.reports == s.reports && !CircuitOf(s.keys).Open? ==> !CircuitOf(s'.keys).Open?)
  }

  lemma StepGoesOn(s: State, a: Action)
    ensures Onwards(s, Step(s, a))
  {
    assert s.reports[..|s.reports|] == s.reports;
  }

  lemma StillInformed(c: Caller, s: State, s': State)
    requires Informed(c, s) && Onwards(s, s')
    ensures Informed(c, s')
  {
    if c.MayClaim? { assert s'.reports[..c.seen] == s.reports[..c.seen]; }
    if |s'.reports| == |s.reports| { assert s'.reports[..|s'.reports|] == s'.reports; }
  }

  lemma MoverInformed(s: State, a: Action, i: nat)
    requires Inv(s) && i < |s.callers| && Step(s, a).callers[i] != s.callers[i]
    ensures Informed(Step(s, a).callers[i], Step(s, a))
  {
    hide Trailing;
    assert Informed(s.callers[i], s);
    hide AllInformed;
    assert s.reports[..|s.reports|] == s.reports;
  }

  lemma StepKeeps(s: State, a: Action)
    requires Inv(s) && s.config.threshold >= 1
    ensures Inv(Step(s, a)) && Step(s, a).config == s.config && |Step(s, a).callers| == |s.callers|
  {
    KeysStep(s, a);
    StepGoesOn(s, a);
    var s' := Step(s, a);
    assert |s'.callers| == |s.callers|;
    forall i | 0 <= i < |s'.callers| ensures Informed(s'.callers[i], s') {
      hide KeysTell, Step, Informed;
      if s'.callers[i] == s.callers[i] {
        assert Informed(s.callers[i], s);
        StillInformed(s.callers[i], s, s');
      } else {
        MoverInformed(s, a, i);
      }
    }
  }

  lemma {:induction false} Reachable(config: Config, n: nat, actions: seq<Action>)
    requires config.threshold >= 1
    ensures
      var s := Steps(Initial(config, n), actions);
      Inv(s) && s.config == config && |s.callers| == n
  {
    if actions != [] {
      hide Inv, Step;
      Reachable(config, n, actions[..|actions| - 1]);
      StepKeeps(Steps(Initial(config, n), actions[..|actions| - 1]), actions[|actions| - 1]);
    }
  }

  /** At every reachable state the keys are functions of the reports: Closed exactly when fewer than `threshold`
      failures trail the history, and then the counter is their number; the last failure's time is that of the last
      report, if it was a failure. */
  lemma TripRefinement(config: Config, n: nat, actions: seq<Action>)
    requires config.threshold >= 1
    ensures
      var s := Steps(Initial(config, n), actions);
      && (CircuitOf(s.keys).Closed? <==> Trailing(s.reports) < config.threshold)
      && (CircuitOf(s.keys).Closed? ==> FailuresOf(s.keys) == Trailing(s.reports))
      && s.keys.lastFailureAt == (if Trailing(s.reports) == 0 then None else Some(s.reports[|s.reports| - 1].stamp))
  {
    Reachable(config, n, actions);
  }

  /** The circuit leaves Closed only by recording the threshold-th failure in a row, and returns only by
      recording a success. */
  lemma WhenTheCircuitMoves(config: Config, n: nat, actions: seq<Action>, a: Action)
    requires config.threshold >= 1
    ensures
      var s := Steps(Initial(config, n), actions);
      var s' := Step(s, a);
      && (CircuitOf(s.keys).Closed? && !CircuitOf(s'.keys).Closed?
          <==>
          CircuitOf(s.keys).Closed? && s'.reports != s.reports && Trailing(s'.reports) == config.threshold)
      && (!CircuitOf(s.keys).Closed? && CircuitOf(s'.keys).Closed?
          <==> !CircuitOf(s.keys).Closed? && s'.reports == s.reports + [Succeeded])
      && (s'.reports == s.reports || (|s'.reports| == |s.reports| + 1 && s'.reports[..|s.reports|] == s.reports))
  {
    hide Trailing;
    Reachable(config, n, actions);
    var s := Steps(Initial(config, n), actions);
    StepKeeps(s, a);
    var stamp := if a.Proceed? && a.i < |s.callers| && s.callers[a.i].Failing? then s.callers[a.i].stamp else 0;
    TrailingGrows(s.reports, Failed(stamp));
    TrailingGrows(s.reports, Succeeded);
    assert |s.reports + [Failed(stamp)]| == |s.reports| + 1;
  }

  /** Between two admissions through the Open or HalfOpen branch the lease was cleared. */
  ghost predicate Exclusive(lease: seq<Mark>) {
    forall i, j :: 0 <= i < j < |lease| && lease[i].Admitted? && lease[j].Admitted?
                   ==> exists k :: i < k < j && lease[k].Cleared?
  }

  lemma ExclusiveGrows(lease: seq<Mark>, m: Mark)
    requires Exclusive(lease)
    requires m.Admitted? ==> lease == [] || lease[|lease| - 1].Cleared?
    ensures Exclusive(lease + [m])
  {
    var lease' := lease + [m];
    forall i, j | 0 <= i < j < |lease'| && lease'[i].Admitted? && lease'[j].Admitted?
      ensures exists k :: i < k < j && lease'[k].Cleared?
    {
      if j < |lease| {
        var k :| i < k < j && lease[k].Cleared?;
        assert lease'[k].Cleared?;
      } else {
        assert lease'[|lease| - 1].Cleared?;
      }
    }
  }

  /** At most one probe at a time, over every interleaving. */
  lemma {:induction false} OneProbePerLease(config: Config, n: nat, actions: seq<Action>)
    requires config.threshold >= 1
    ensures Exclusive(Steps(Initial(config, n), actions).lease)
  {
    hide Exclusive, Inv;
    if actions == [] {
      NothingExclusive();
    } else {
      var earlier := actions[..|actions| - 1];
      OneProbePerLease(config, n, earlier);
      Reachable(config, n, earlier);
      LeaseStep(Steps(Initial(config, n), earlier), actions[|actions| - 1]);
    }
  }

  lemma NothingExclusive()
    ensures Exclusive([])
  {
  }

  lemma LeaseStep(s: State, a: Action)
    requires Inv(s) && Exclusive(s.lease)
    ensures Exclusive(Step(s, a).lease)
  {
    hide Exclusive, Trailing;
    ExclusiveGrows(s.lease, Cleared);
    if s.keys.probeUntil.None? {
      ExclusiveGrows(s.lease, Admitted);
    }
  }

  /** From every reachable state, once the cooldown and the lease have passed without a write, the next call is
      admitted. */
  lemma SelfHeals(config: Config, n: nat, actions: seq<Action>, later: int)
    requires config.threshold >= 1
    requires
      var s := Steps(Initial(config, n), actions);
      later >= s.now + config.cooldown && later >= s.now + 60_000
    ensures
      var s := Steps(Initial(config, n), actions);
      Gate(Expire(s.keys, later), config.cooldown, later).1
  {
    Reachable(config, n, actions);
  }

  /** An Open circuit refuses, in every reachable state and at every time before its cooldown has passed since the
      last recorded failure: the pre-flight check fails, and an uninterrupted call ends in CircuitOpenError without a
      trace. */
  lemma OpenRefuses(config: Config, n: nat, actions: seq<Action>, now: int, outcome: Outcome, later: int)
    requires config.threshold >= 1 && CircuitOf(Steps(Initial(config, n), actions).keys).Open?
    ensures
      var k := Steps(Initial(config, n), actions).keys;
      && k.lastFailureAt.Some?
      && (CallAllowed(k, config.cooldown, now) <==> now - k.lastFailureAt.value >= config.cooldown)
      && (now - k.lastFailureAt.value < config.cooldown ==>
            CallKeys(k, config, now, outcome, later) == (k, CircuitOpenError))
  {
    Reachable(config, n, actions);
  }

  /** A caller let through while the circuit is Open comes at least the cooldown after the last recorded failure, unless
      that failure was recorded after the caller had looked at the circuit; and nothing else lets it through early. */
  lemma AdmittedAfterCooldown(config: Config, n: nat, actions: seq<Action>, i: nat)
    requires config.threshold >= 1
    requires
      var s := Steps(Initial(config, n), actions);
      && CircuitOf(s.keys).Open? && i < |s.callers| && !s.callers[i].InFlight?
      && Step(s, Proceed(i)).callers[i].InFlight?
    ensures
      var s := Steps(Initial(config, n), actions);
      && s.keys.lastFailureAt.Some? && (s.callers[i].MayClaim? || s.callers[i].MaySet?)
      && (s.now - s.keys.lastFailureAt.value < config.cooldown
          <==>
          && s.callers[i].seen < |s.reports|
          && s.reports[|s.reports| - 1].Failed? && s.now - s.reports[|s.reports| - 1].stamp < config.cooldown)
  {
    Reachable(config, n, actions);
    var s := Steps(Initial(config, n), actions);
    assert Informed(s.callers[i], s);
    assert s.reports[..|s.reports|] == s.reports;
  }

  /** A caller let through an Open or HalfOpen circuit keeps everybody else out for exactly sixty seconds, unless a
      report comes first. */
  lemma LeaseLasts(k: Keys, cooldown: nat, now: int, later: int)
    requires !CircuitOf(k).Closed? && Gate(k, cooldown, now).1 && now <= later
    ensures
      var held := Expire(Gate(k, cooldown, now).0, later);
      && (Gate(held, cooldown, later).1 <==> later >= now + 60_000)
      && (CallAllowed(held, cooldown, later) <==> later >= now + 60_000)
  {
  }

  /** The failure of a probe opens the circuit anew with a count of one and without its lease; any success closes it and
      forgets everything. */
  lemma ProbeEnds(k: Keys, threshold: int, stamp: int)
    ensures CircuitOf(k).HalfOpen? ==>
              RecordFailure(k, threshold, stamp) == Keys(Some(Open), Some(1), Some(stamp), None)
    ensures RecordSuccess(k) == Keys(Some(Closed), Some(0), None, None)
    ensures CircuitOf(k).Open? ==> RecordFailure(k, threshold, stamp).probeUntil == k.probeUntil
  {
  }

  const DEFAULT := Config(3, 30_000)

  /** Two callers pass the cooldown check, and the first one's probe fails. */
  const OVERTAKE: seq<Action> :=
    [Wait(30_000), Proceed(0), Proceed(0), Proceed(1), Proceed(1), Proceed(0), RailRefuses(0), Proceed(0)]

  /** Three failures in a row trip the circuit. */
  const TRIP: seq<Action> :=
    [Proceed(0), RailRefuses(0), Proceed(0), Proceed(0), RailRefuses(0), Proceed(0), Proceed(0), RailRefuses(0),
     Proceed(0)]

  /** The probe outlives its lease, and a second caller sees HalfOpen without a lease. */
  const OUTLIVE: seq<Action> :=
    [Wait(30_000), Proceed(0), Proceed(0), Proceed(0), Wait(60_000), Proceed(1), Proceed(1)]

  /** The probe fails, the second caller leases the now Open circuit, and the cooldown passes. */
  const STRAY: seq<Action> := [RailRefuses(0), Proceed(0), Proceed(1), Wait(30_000)]

  lemma {:induction false} StepsJoin(s: State, xs: seq<Action>, ys: seq<Action>)
    ensures Steps(s, xs + ys) == Steps(Steps(s, xs), ys)
  {
    if ys == [] {
      assert xs + ys == xs;
    } else {
      assert (xs + ys)[..|xs + ys| - 1] == xs + ys[..|ys| - 1];
      StepsJoin(s, xs, ys[..|ys| - 1]);
    }
  }

  lemma StepsOne(s: State, a: Action)
    ensures Steps(s, [a]) == Step(s, a)
  {
    hide Step;
    assert [a][..0] == [];
  }

  lemma StepsThree(s: State, a: Action, b: Action, c: Action)
    ensures Steps(s, [a, b, c]) == Step(Step(Step(s, a), b), c)
  {
    hide Step;
    assert [a, b, c] == [a] + [b] + [c];
    StepsJoin(s, [a] + [b], [c]);
    StepsJoin(s, [a], [b]);
    StepsOne(s, a);
    StepsOne(Step(s, a), b);
    StepsOne(Step(Step(s, a), b), c);
  }

  /* ---- An uninterrupted call is a run ---- */

  /** The Redis commands up to admission or refusal. */
  function GateActions(s: State, i: nat): seq<Action> {
    match CircuitOf(s.keys)
    case Closed => [Proceed(i)]
    case Open =>
      if CooldownElapsed(s.keys, s.config.cooldown, s.now) then [Proceed(i), Proceed(i), Proceed(i)]
      else [Proceed(i), Proceed(i)]
    case HalfOpen => if s.keys.probeUntil.None? then [Proceed(i), Proceed(i), Proceed(i)] else [Proceed(i), Proceed(i)]
  }

  lemma StepsTwo(s: State, a: Action, b: Action)
    ensures Steps(s, [a, b]) == Step(Step(s, a), b)
  {
    hide Step;
    assert [a, b] == [a] + [b];
    StepsJoin(s, [a], [b]);
    StepsOne(s, a);
    StepsOne(Step(s, a), b);
  }

  ghost predicate Gated(s: State, i: nat, after: State)
    requires i < |s.callers|
  {
    var (keys, admitted) := Gate(s.keys, s.config.cooldown, s.now);
    after == s.(keys := keys, callers := s.callers[i := if admitted then InFlight else Idle], lease := after.lease)
  }

  lemma TwiceAt(s: State, i: nat, c: Caller, d: Caller)
    requires i < |s.callers|
    ensures At(At(s, i, c), i, d) == At(s, i, d)
  {
    assert s.callers[i := c][i := d] == s.callers[i := d];
  }

  lemma GateOpen(s: State, i: nat)
    requires i < |s.callers| && s.callers[i].Idle? && CircuitOf(s.keys).Open?
    ensures Gated(s, i, Steps(s, GateActions(s, i)))
  {
    StepsTwo(s, Proceed(i), Proceed(i));
    StepsThree(s, Proceed(i), Proceed(i), Proceed(i));
    hide Steps;
    var s1 := Step(s, Proceed(i));
    assert s1 == At(s, i, SawOpen);
    var seen, elapsed := |s.reports|, CooldownElapsed(s.keys, s.config.cooldown, s.now);
    TwiceAt(s, i, SawOpen, if elapsed then MayClaim(seen) else Idle);
    var s2 := Step(s1, Proceed(i));
    assert s2 == At(s, i, if elapsed then MayClaim(seen) else Idle);
    TwiceAt(s, i, MayClaim(seen), InFlight);
    TwiceAt(s, i, MayClaim(seen), Idle);
  }

  lemma GateHalfOpen(s: State, i: nat)
    requires i < |s.callers| && s.callers[i].Idle? && CircuitOf(s.keys).HalfOpen?
    ensures Gated(s, i, Steps(s, GateActions(s, i)))
  {
    StepsTwo(s, Proceed(i), Proceed(i));
    StepsThree(s, Proceed(i), Proceed(i), Proceed(i));
    hide Steps;
    var s1 := Step(s, Proceed(i));
    var seen, free := |s.reports|, s.keys.probeUntil.None?;
    assert s1 == At(s, i, SawHalfOpen(seen));
    TwiceAt(s, i, SawHalfOpen(seen), if free then MaySet(seen) else Idle);
    var s2 := Step(s1, Proceed(i));
    assert s2 == At(s, i, if free then MaySet(seen) else Idle);
    TwiceAt(s, i, MaySet(seen), InFlight);
  }

  lemma GateIsARun(s: State, i: nat)
    requires i < |s.callers| && s.callers[i].Idle?
    ensures Gated(s, i, Steps(s, GateActions(s, i)))
  {
    match CircuitOf(s.keys) {
      case Closed => StepsOne(s, Proceed(i));
      case Open => GateOpen(s, i);
      case HalfOpen => GateHalfOpen(s, i);
    }
  }

  /** What follows admission: the rail answers at `later`, and the caller reports or dies. */
  function ReportActions(i: nat, outcome: Outcome, wait: nat): seq<Action> {
    match outcome
    case Accepted(_) => [Wait(wait), RailAccepts(i)]
    case Refused(_) => [Wait(wait), RailRefuses(i), Proceed(i)]
    case Raised => [Wait(wait), Die(i)]
  }

  lemma ReportIsARun(s: State, i: nat, outcome: Outcome, wait: nat)
    requires i < |s.callers| && s.callers[i].InFlight?
    ensures
      var held := Expire(s.keys, s.now + wait);
      var after := Steps(s, ReportActions(i, outcome, wait));
      && after.callers == s.callers[i := Idle]
      && after.keys == (match outcome
                        case Accepted(_) => RecordSuccess(held)
                        case Refused(_) => RecordFailure(held, s.config.threshold, s.now + wait)
                        case Raised => held)
  {
    StepsTwo(s, Wait(wait), RailAccepts(i));
    StepsThree(s, Wait(wait), RailRefuses(i), Proceed(i));
    StepsTwo(s, Wait(wait), Die(i));
    hide Steps, Expire, RecordFailure, RecordSuccess, CooldownElapsed, ClaimProbe, SetProbe;
    assert s.callers[i := Failing(s.now + wait)][i := Idle] == s.callers[i := Idle];
  }

  /** `Call` leaves Redis as the machine does when this caller takes its steps and nobody else moves. */
  lemma CallIsARun(s: State, i: nat, outcome: Outcome, wait: nat)
    requires i < |s.callers| && s.callers[i].Idle?
    ensures
      var (keys, result) := CallKeys(s.keys, s.config, s.now, outcome, s.now + wait);
      var actions := GateActions(s, i) + (if result.CircuitOpenError? then [] else ReportActions(i, outcome, wait));
      Steps(s, actions).keys == keys && Steps(s, actions).callers == s.callers
  {
    GateIsARun(s, i);
    hide Steps, GateActions, Expire, RecordFailure, RecordSuccess, ClaimProbe, SetProbe, CooldownElapsed, ReportActions,
         Gate;
    var gated := Steps(s, GateActions(s, i));
    assert s.callers[i := Idle] == s.callers && s.callers[i := InFlight][i := Idle] == s.callers;
    if gated.callers[i].InFlight? {
      StepsJoin(s, GateActions(s, i), ReportActions(i, outcome, wait));
      ReportIsARun(gated, i, outcome, wait);
    } else {
      assert GateActions(s, i) + [] == GateActions(s, i);
    }
  }

  lemma OneFailedCall(s: State)
    requires |s.callers| == 2 && s.callers[0].Idle? && CircuitOf(s.keys).Closed?
    ensures Steps(s, [Proceed(0), RailRefuses(0), Proceed(0)])
            == s.(keys := RecordFailure(s.keys, s.config.threshold, s.now), reports := s.reports + [Failed(s.now)])
  {
    StepsThree(s, Proceed(0), RailRefuses(0), Proceed(0));
    var s1 := Step(s, Proceed(0));
    var s2 := Step(s1, RailRefuses(0));
    var s3 := Step(s2, Proceed(0));
    assert s3.callers == s.callers;
  }

  lemma Trips()
    ensures Steps(Initial(DEFAULT, 2), TRIP)
            == State(DEFAULT, Keys(Some(Open), Some(3), Some(0), None), 0, [Idle, Idle],
                     [Failed(0), Failed(0), Failed(0)], [])
  {
    hide Steps, Step, TRIP;
    var call := [Proceed(0), RailRefuses(0), Proceed(0)];
    var s0 := Initial(DEFAULT, 2);
    assert s0.callers == [Idle, Idle];
    ThreeCalls();
    StepsJoin(s0, call + call, call);
    StepsJoin(s0, call, call);
    OneFailedCall(s0);
    var s1 := State(DEFAULT, Keys(None, Some(1), Some(0), None), 0, [Idle, Idle], [Failed(0)], []);
    assert Steps(s0, call) == s1;
    OneFailedCall(s1);
    var s2 := State(DEFAULT, Keys(None, Some(2), Some(0), None), 0, [Idle, Idle], [Failed(0), Failed(0)], []);
    assert Steps(s1, call) == s2;
    OneFailedCall(s2);
  }

  lemma ThreeCalls()
    ensures
      var call := [Proceed(0), RailRefuses(0), Proceed(0)];
      TRIP == call + call + call
  {
  }

  lemma Outlives(s: State)
    requires s == State(DEFAULT, Keys(Some(Open), Some(3), Some(0), None), 0, [Idle, Idle],
                        [Failed(0), Failed(0), Failed(0)], [])
    ensures Steps(s, OUTLIVE)
            == s.(keys := Keys(Some(HalfOpen), Some(3), Some(0), None), now := 90_000, callers := [InFlight, MaySet(3)],
                  lease := [Admitted, Cleared])
  {
    var s3 := Step(Step(Step(s, Wait(30_000)), Proceed(0)), Proceed(0));
    assert s3 == s.(now := 30_000, callers := [MayClaim(3), Idle]);
    var s5 := Step(Step(s3, Proceed(0)), Wait(60_000));
    assert s5 == s.(keys := Keys(Some(HalfOpen), Some(3), Some(0), None), now := 90_000, callers := [InFlight, Idle],
                    lease := [Admitted, Cleared]);
    var s7 := Step(Step(s5, Proceed(1)), Proceed(1));
    assert s7.callers == [InFlight, MaySet(3)];
    hide Step;
    assert OUTLIVE == [Wait(30_000), Proceed(0), Proceed(0)] + ([Proceed(0), Wait(60_000), Proceed(1)] + [Proceed(1)]);
    StepsJoin(s, [Wait(30_000), Proceed(0), Proceed(0)], [Proceed(0), Wait(60_000), Proceed(1)] + [Proceed(1)]);
    StepsThree(s, Wait(30_000), Proceed(0), Proceed(0));
    StepsJoin(s3, [Proceed(0), Wait(60_000), Proceed(1)], [Proceed(1)]);
    StepsThree(s3, Proceed(0), Wait(60_000), Proceed(1));
    StepsOne(Step(s5, Proceed(1)), Proceed(1));
  }

  /** A reachable state in which the pre-flight check passes and an uncontended call is refused all the same. */
  lemma PreflightIsNotAdmission()
    ensures
      var s := Steps(Initial(DEFAULT, 2), TRIP + OUTLIVE + STRAY);
      && CircuitOf(s.keys).Open? && s.keys.probeUntil.Some?
      && CallAllowed(s.keys, DEFAULT.cooldown, s.now)
      && !Gate(s.keys, DEFAULT.cooldown, s.now).1
  {
    hide Steps, Step, TRIP, OUTLIVE, STRAY;
    var s0 := Initial(DEFAULT, 2);
    StepsJoin(s0, TRIP + OUTLIVE, STRAY);
    StepsJoin(s0, TRIP, OUTLIVE);
    Trips();
    Outlives(Steps(s0, TRIP));
    Strays(Steps(s0, TRIP + OUTLIVE));
  }

  /** Two callers pass the cooldown check together; the first one's probe fails and opens the circuit anew, and the
      second claims it at the very time of that failure. */
  lemma EarlyAdmission()
    ensures
      var s := Steps(Initial(DEFAULT, 2), TRIP + OVERTAKE);
      && CircuitOf(s.keys).Open? && s.keys.lastFailureAt == Some(s.now)
      && |s.callers| == 2 && s.callers[1] == MayClaim(3)
      && !CallAllowed(s.keys, DEFAULT.cooldown, s.now)
      && Step(s, Proceed(1)).callers[1].InFlight?
  {
    hide Steps, Step, TRIP, OVERTAKE;
    StepsJoin(Initial(DEFAULT, 2), TRIP, OVERTAKE);
    Trips();
    Overtakes(Steps(Initial(DEFAULT, 2), TRIP));
  }

  lemma Overtakes(s: State)
    requires s == State(DEFAULT, Keys(Some(Open), Some(3), Some(0), None), 0, [Idle, Idle],
                        [Failed(0), Failed(0), Failed(0)], [])
    ensures
      var after := Steps(s, OVERTAKE);
      && after.keys == Keys(Some(Open), Some(1), Some(30_000), None) && after.now == 30_000
      && after.callers == [Idle, MayClaim(3)] && Step(after, Proceed(1)).callers == [Idle, InFlight]
  {
    var s3 := Step(Step(Step(s, Wait(30_000)), Proceed(0)), Proceed(0));
    assert s3 == s.(now := 30_000, callers := [MayClaim(3), Idle]);
    var s6 := Step(Step(Step(s3, Proceed(1)), Proceed(1)), Proceed(0));
    assert s6.callers == [InFlight, MayClaim(3)] && s6.now == 30_000;
    assert s6.keys == Keys(Some(HalfOpen), Some(3), Some(0), Some(90_000));
    var s8 := Step(Step(s6, RailRefuses(0)), Proceed(0));
    assert s8.keys == Keys(Some(Open), Some(1), Some(30_000), None) && s8.now == 30_000;
    assert s8.callers == [Idle, MayClaim(3)];
    assert Step(s8, Proceed(1)).callers == [Idle, InFlight];
    hide Step;
    var second := [Proceed(1), Proceed(1), Proceed(0)];
    assert OVERTAKE == [Wait(30_000), Proceed(0), Proceed(0)] + (second + [RailRefuses(0), Proceed(0)]);
    StepsJoin(s, [Wait(30_000), Proceed(0), Proceed(0)], second + [RailRefuses(0), Proceed(0)]);
    StepsThree(s, Wait(30_000), Proceed(0), Proceed(0));
    StepsJoin(s3, second, [RailRefuses(0), Proceed(0)]);
    StepsThree(s3, Proceed(1), Proceed(1), Proceed(0));
    StepsTwo(s6, RailRefuses(0), Proceed(0));
  }

  lemma Strays(s: State)
    requires s.config == DEFAULT && s.keys == Keys(Some(HalfOpen), Some(3), Some(0), None) && s.now == 90_000
    requires s.callers == [InFlight, MaySet(3)]
    ensures Steps(s, STRAY).keys == Keys(Some(Open), Some(1), Some(90_000), Some(150_000))
    ensures Steps(s, STRAY).now == 120_000
  {
    var s3 := Step(Step(Step(s, RailRefuses(0)), Proceed(0)), Proceed(1));
    assert s3.keys == Keys(Some(Open), Some(1), Some(90_000), Some(150_000)) && s3.now == 90_000;
    assert STRAY == [RailRefuses(0), Proceed(0), Proceed(1)] + [Wait(30_000)];
    StepsJoin(s, [RailRefuses(0), Proceed(0), Proceed(1)], [Wait(30_000)]);
    StepsThree(s, RailRefuses(0), Proceed(0), Proceed(1));
    StepsOne(s3, Wait(30_000));
  }
}
