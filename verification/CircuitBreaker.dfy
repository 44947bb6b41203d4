/** The circuit breaker, as steps of any number of interleaved calls. */
module CircuitBreaking {
  import opened Prelude

  datatype State = Closed | Open | HalfOpen

  datatype Config = Config(failureThreshold: int, recoveryTimeout: real, maxConcurrentCalls: Option<int>)

  /** The mutable fields of one breaker. */
  datatype Breaker = Breaker(state: State, failures: int, successes: int, lastFailure: Option<real>, concurrent: int)

  const FRESH := Breaker(Closed, 0, 0, None, 0)

  predicate ShouldAttemptReset(cfg: Config, b: Breaker, now: real) {
    b.lastFailure.Some? && now - b.lastFailure.value >= cfg.recoveryTimeout
  }

  /** Reading the `state` property moves an open breaker whose timeout has passed to half-open. */
  function ReadState(cfg: Config, b: Breaker, now: real): Breaker {
    if b.state.Open? && ShouldAttemptReset(cfg, b, now) then b.(state := HalfOpen, successes := 0) else b
  }

  /** A limit of 0 is falsy in Python and so means no limit, like an absent one. */
  predicate AtLimit(cfg: Config, b: Breaker) {
    cfg.maxConcurrentCalls.Some? && cfg.maxConcurrentCalls.value != 0 && b.concurrent >= cfg.maxConcurrentCalls.value
  }

  function RecordSuccess(b: Breaker): Breaker {
    var b := b.(failures := 0);
    if b.state.HalfOpen? then
      b.(successes := b.successes + 1, state := if b.successes + 1 >= 2 then Closed else HalfOpen)
    else b
  }

  function RecordFailure(cfg: Config, b: Breaker, now: real): Breaker {
    var b := b.(failures := b.failures + 1, lastFailure := Some(now));
    if b.state.HalfOpen? || b.failures >= cfg.failureThreshold then b.(state := Open) else b
  }

  function ResetManually(b: Breaker): Breaker {
    b.(state := Closed, failures := 0)
  }

  // ---------------------------------------------------------------------------------------------
  // Interleaved calls
  // ---------------------------------------------------------------------------------------------

  type CallId = nat

  /** A call is Cleared once it has read a state other than open, InFlight while its function is
      awaited, and Settled between recording the outcome and giving back its slot. */
  datatype Phase = Cleared | InFlight | Settled

  /** The steps of `call`, the state inspection and the manual reset. `Escape` is an exception
      outside `expected_exception`: it is recorded neither as success nor as failure. */
  datatype Event =
    | Arrive(call: CallId)
    | Admit(call: CallId)
    | Succeed(call: CallId)
    | Fail(call: CallId)
    | Escape(call: CallId)
    | Leave(call: CallId)
    | Inspect
    | Reset

  datatype Stamped = Stamped(now: real, event: Event)

  type Trace = seq<Stamped>

  datatype System = System(b: Breaker, phase: map<CallId, Phase>)

  predicate Possible(s: System, e: Event) {
    match e
    case Arrive(c) => c !in s.phase
    case Admit(c) => c in s.phase && s.phase[c] == Cleared
    case Succeed(c) => c in s.phase && s.phase[c] == InFlight
    case Fail(c) => c in s.phase && s.phase[c] == InFlight
    case Escape(c) => c in s.phase && s.phase[c] == InFlight
    case Leave(c) => c in s.phase && s.phase[c] == Settled
    case Inspect => true
    case Reset => true
  }

  function Step(cfg: Config, s: System, t: Stamped): System {
    match t.event
    case Arrive(c) =>
      var b := ReadState(cfg, s.b, t.now);
      System(b, if b.state.Open? then s.phase else s.phase[c := Cleared])
    case Admit(c) =>
      if AtLimit(cfg, s.b) then s.(phase := s.phase - {c})
      else System(s.b.(concurrent := s.b.concurrent + 1), s.phase[c := InFlight])
    case Succeed(c) => System(RecordSuccess(s.b), s.phase[c := Settled])
    case Fail(c) => System(RecordFailure(cfg, s.b, t.now), s.phase[c := Settled])
    case Escape(c) => s.(phase := s.phase[c := Settled])
    case Leave(c) => System(s.b.(concurrent := s.b.concurrent - 1), s.phase - {c})
    case Inspect => s.(b := ReadState(cfg, s.b, t.now))
    case Reset => s.(b := ResetManually(s.b))
  }

  function Run(cfg: Config, tr: Trace): System {
    if tr == [] then System(FRESH, map[]) else Step(cfg, Run(cfg, tr[..|tr| - 1]), tr[|tr| - 1])
  }

  ghost predicate PossibleAt(cfg: Config, tr: Trace, k: nat)
    requires k < |tr|
  {
    Possible(Run(cfg, tr[..k]), tr[k].event)
  }

  ghost predicate Legal(cfg: Config, tr: Trace) {
    forall k: nat :: k < |tr| ==> PossibleAt(cfg, tr, k)
  }

  function StateAt(cfg: Config, tr: Trace, k: nat): State
    requires k <= |tr|
  {
    Run(cfg, tr[..k]).b.state
  }

  lemma RunStep(cfg: Config, tr: Trace, k: nat)
    requires k < |tr|
    ensures Run(cfg, tr[..k + 1]) == Step(cfg, Run(cfg, tr[..k]), tr[k])
    ensures tr[..k + 1] == tr[..k] + [tr[k]]
  {
    assert tr[..k + 1][..k] == tr[..k];
  }

  lemma LegalPrefix(cfg: Config, tr: Trace, k: nat)
    requires Legal(cfg, tr) && k <= |tr|
    ensures Legal(cfg, tr[..k])
  {
    forall j: nat | j < k
      ensures PossibleAt(cfg, tr[..k], j)
    {
      assert PossibleAt(cfg, tr, j);
      assert tr[..k][..j] == tr[..j];
    }
  }

  // ---------------------------------------------------------------------------------------------
  // The invariant of every interleaving
  // ---------------------------------------------------------------------------------------------

  function Holding(s: System): set<CallId> {
    set c | c in s.phase && s.phase[c] != Cleared
  }

  ghost predicate Consistent(cfg: Config, s: System) {
    && s.b.concurrent == |Holding(s)|
    && (cfg.maxConcurrentCalls.Some? && cfg.maxConcurrentCalls.value > 0 ==> s.b.concurrent <= cfg.maxConcurrentCalls.value)
    && (cfg.maxConcurrentCalls.Some? && cfg.maxConcurrentCalls.value < 0 ==> s.b.concurrent == 0)
    && 0 <= s.b.failures
    && (s.b.state.Closed? && cfg.failureThreshold >= 1 ==> s.b.failures < cfg.failureThreshold)
    && (s.b.state.Open? ==> s.b.lastFailure.Some?)
    && (s.b.state.HalfOpen? ==> 0 <= s.b.successes < 2)
  }

  lemma HoldingChanges(cfg: Config, s: System, t: Stamped)
    requires Possible(s, t.event)
    ensures var after := Holding(Step(cfg, s, t));
      match t.event
      case Admit(c) => if AtLimit(cfg, s.b) then after == Holding(s) else c !in Holding(s) && after == Holding(s) + {c}
      case Leave(c) => c in Holding(s) && after == Holding(s) - {c}
      case _ => after == Holding(s)
  {
  }

  lemma StepKeepsConsistent(cfg: Config, s: System, t: Stamped)
    requires Consistent(cfg, s) && Possible(s, t.event)
    ensures Consistent(cfg, Step(cfg, s, t))
  {
    HoldingChanges(cfg, s, t);
    hide Holding, Possible;
  }

  /** Whatever the interleaving of calls, clock readings and resets, the counters mean what they say. */
  lemma {:induction false} EveryRunIsConsistent(cfg: Config, tr: Trace)
    requires Legal(cfg, tr)
    ensures Consistent(cfg, Run(cfg, tr))
  {
    if tr != [] {
      var k := |tr| - 1;
      assert tr[..k + 1] == tr;
      LegalPrefix(cfg, tr, k);
      EveryRunIsConsistent(cfg, tr[..k]);
      assert PossibleAt(cfg, tr, k);
      StepKeepsConsistent(cfg, Run(cfg, tr[..k]), tr[k]);
    }
  }

  /** A call that passed the state check is admitted iff the limit is absent, 0, or above the number
      of calls then holding a slot. */
  lemma AdmittedIffRoom(cfg: Config, tr: Trace, k: nat)
    requires Legal(cfg, tr) && k < |tr| && tr[k].event.Admit?
    ensures tr[k].event.call in Run(cfg, tr[..k + 1]).phase <==>
              || cfg.maxConcurrentCalls.None? || cfg.maxConcurrentCalls.value == 0
              || |Holding(Run(cfg, tr[..k]))| < cfg.maxConcurrentCalls.value
  {
    LegalPrefix(cfg, tr, k);
    EveryRunIsConsistent(cfg, tr[..k]);
    RunStep(cfg, tr, k);
    hide Run, Holding;
  }

  // ---------------------------------------------------------------------------------------------
  // The state as a function of the recorded history
  // ---------------------------------------------------------------------------------------------

  /** Failures recorded since the last recorded success or manual reset. */
  function FailureStreak(tr: Trace): nat {
    if tr == [] then 0
    else
      match tr[|tr| - 1].event
      case Fail(_) => FailureStreak(tr[..|tr| - 1]) + 1
      case Succeed(_) => 0
      case Reset => 0
      case _ => FailureStreak(tr[..|tr| - 1])
  }

  /** The time of the latest recorded failure. */
  function LatestFailure(tr: Trace): Option<real> {
    if tr == [] then None
    else if tr[|tr| - 1].event.Fail? then Some(tr[|tr| - 1].now)
    else LatestFailure(tr[..|tr| - 1])
  }

  predicate TimedOut(cfg: Config, tr: Trace, now: real) {
    LatestFailure(tr).Some? && now - LatestFailure(tr).value >= cfg.recoveryTimeout
  }

  /** Successes recorded since the state was last observed to turn half-open. */
  function ProbeSuccesses(cfg: Config, tr: Trace): nat
    decreases |tr|, 0
  {
    if tr == [] then 0
    else
      var past, last := tr[..|tr| - 1], tr[|tr| - 1];
      if Expected(cfg, past).Open? && (last.event.Arrive? || last.event.Inspect?) && TimedOut(cfg, past, last.now) then 0
      else ProbeSuccesses(cfg, past) + if last.event.Succeed? then 1 else 0
  }

  /** The state an observer of the history alone predicts. */
  function Expected(cfg: Config, tr: Trace): State
    decreases |tr|, 1
  {
    if tr == [] then Closed
    else
      var past, last := tr[..|tr| - 1], tr[|tr| - 1];
      match Expected(cfg, past)
      case Closed =>
        if last.event.Fail? && FailureStreak(tr) >= cfg.failureThreshold then Open else Closed
      case Open =>
        if last.event.Reset? then Closed
        else if (last.event.Arrive? || last.event.Inspect?) && TimedOut(cfg, past, last.now) then HalfOpen
        else Open
      case HalfOpen =>
        if last.event.Fail? then Open
        else if last.event.Reset? || (last.event.Succeed? && ProbeSuccesses(cfg, tr) >= 2) then Closed
        else HalfOpen
  }

  /** Late completions, resets and clock readings included, the fields are exactly the history's summary. */
  lemma {:induction false} FieldsSummariseHistory(cfg: Config, tr: Trace)
    ensures Run(cfg, tr).b.failures == FailureStreak(tr)
    ensures Run(cfg, tr).b.lastFailure == LatestFailure(tr)
    ensures Run(cfg, tr).b.state == Expected(cfg, tr)
    ensures Run(cfg, tr).b.state.HalfOpen? ==> Run(cfg, tr).b.successes == ProbeSuccesses(cfg, tr)
  {
    if tr != [] {
      FieldsSummariseHistory(cfg, tr[..|tr| - 1]);
    }
  }

  /** Calls let in less calls that gave their slot back. */
  function Slots(cfg: Config, tr: Trace): int {
    if tr == [] then 0
    else
      var past := tr[..|tr| - 1];
      match tr[|tr| - 1].event
      case Admit(_) => Slots(cfg, past) + if HasRoom(cfg, Slots(cfg, past)) then 1 else 0
      case Leave(_) => Slots(cfg, past) - 1
      case _ => Slots(cfg, past)
  }

  predicate HasRoom(cfg: Config, slots: int) {
    cfg.maxConcurrentCalls.None? || cfg.maxConcurrentCalls.value == 0 || slots < cfg.maxConcurrentCalls.value
  }

  /** Where a call stands, told from its own latest step and what the history predicts. */
  function PhaseTold(cfg: Config, tr: Trace, c: CallId): Option<Phase> {
    if tr == [] then None
    else
      var past := tr[..|tr| - 1];
      match tr[|tr| - 1].event
      case Arrive(d) => if d == c && !Expected(cfg, tr).Open? then Some(Phase.Cleared) else PhaseTold(cfg, past, c)
      case Admit(d) => if d != c then PhaseTold(cfg, past, c) else if HasRoom(cfg, Slots(cfg, past)) then Some(InFlight) else None
      case Succeed(d) => if d == c then Some(Settled) else PhaseTold(cfg, past, c)
      case Fail(d) => if d == c then Some(Settled) else PhaseTold(cfg, past, c)
      case Escape(d) => if d == c then Some(Settled) else PhaseTold(cfg, past, c)
      case Leave(d) => if d == c then None else PhaseTold(cfg, past, c)
      case _ => PhaseTold(cfg, past, c)
  }

  function PhaseOf(s: System, c: CallId): Option<Phase> {
    if c in s.phase then Some(s.phase[c]) else None
  }

  /** So the history alone also tells how many slots are taken and where every call stands. */
  lemma {:induction false} PhasesSummariseHistory(cfg: Config, tr: Trace, c: CallId)
    ensures Run(cfg, tr).b.concurrent == Slots(cfg, tr)
    ensures PhaseOf(Run(cfg, tr), c) == PhaseTold(cfg, tr, c)
  {
    if tr != [] {
      PhasesSummariseHistory(cfg, tr[..|tr| - 1], c);
      FieldsSummariseHistory(cfg, tr);
      hide Expected;
    }
  }

  /** A call that arrives is cleared iff the breaker is not open, or its timeout has passed. */
  lemma ArrivalIsClearedIff(cfg: Config, tr: Trace, k: nat)
    requires Legal(cfg, tr) && k < |tr| && tr[k].event.Arrive?
    ensures var c := tr[k].event.call;
      PhaseOf(Run(cfg, tr[..k + 1]), c) ==
        if Expected(cfg, tr[..k]).Open? && !TimedOut(cfg, tr[..k], tr[k].now) then None else Some(Phase.Cleared)
  {
    assert PossibleAt(cfg, tr, k);
    RunStep(cfg, tr, k);
    FieldsSummariseHistory(cfg, tr[..k]);
    hide Run, Expected, LatestFailure;
  }

  // ---------------------------------------------------------------------------------------------
  // Safety over whole runs
  // ---------------------------------------------------------------------------------------------

  predicate Reads(e: Event) {
    e.Arrive? || e.Inspect?
  }

  /** Step `m` is neither a reset nor a state reading after the timeout. */
  ghost predicate Quiet(cfg: Config, tr: Trace, m: nat)
    requires m < |tr|
  {
    !tr[m].event.Reset? && (Reads(tr[m].event) ==> !TimedOut(cfg, tr[..m], tr[m].now))
  }

  lemma OpenStep(cfg: Config, tr: Trace, m: nat)
    requires m < |tr| && StateAt(cfg, tr, m) == Open && PossibleAt(cfg, tr, m) && Quiet(cfg, tr, m)
    ensures StateAt(cfg, tr, m + 1) == Open
    ensures tr[m].event.Arrive? ==> tr[m].event.call !in Run(cfg, tr[..m + 1]).phase
  {
    RunStep(cfg, tr, m);
    FieldsSummariseHistory(cfg, tr[..m]);
    hide LatestFailure, Run;
  }

  lemma {:induction false} OpenAt(cfg: Config, tr: Trace, i: nat, k: nat)
    requires Legal(cfg, tr) && i <= k <= |tr| && StateAt(cfg, tr, i) == Open
    requires forall m: nat :: i <= m < k ==> Quiet(cfg, tr, m)
    ensures StateAt(cfg, tr, k) == Open
  {
    hide StateAt, Quiet, PossibleAt;
    if i < k {
      OpenAt(cfg, tr, i, k - 1);
      assert Quiet(cfg, tr, k - 1) && PossibleAt(cfg, tr, k - 1);
      OpenStep(cfg, tr, k - 1);
    }
  }

  /**
   * An open breaker stays open, and clears no call, until a manual reset or a state reading at
   * least `recovery_timeout` after the latest recorded failure - late completions included.
   */
  lemma OpenUntilTimeoutOrReset(cfg: Config, tr: Trace, i: nat, k: nat)
    requires Legal(cfg, tr) && i <= k <= |tr| && StateAt(cfg, tr, i) == Open
    requires forall m: nat :: i <= m < k ==> Quiet(cfg, tr, m)
    ensures forall m: nat :: i <= m <= k ==> StateAt(cfg, tr, m) == Open
    ensures forall m: nat :: i <= m < k && tr[m].event.Arrive? ==> tr[m].event.call !in Run(cfg, tr[..m + 1]).phase
  {
    hide StateAt, Quiet, PossibleAt, Run;
    forall m: nat | i <= m <= k
      ensures StateAt(cfg, tr, m) == Open
    {
      OpenAt(cfg, tr, i, m);
    }
    forall m: nat | i <= m < k && tr[m].event.Arrive?
      ensures tr[m].event.call !in Run(cfg, tr[..m + 1]).phase
    {
      assert Quiet(cfg, tr, m) && PossibleAt(cfg, tr, m);
      OpenStep(cfg, tr, m);
    }
  }

  function CountSuccesses(tr: Trace, from: nat, to: nat): nat
    requires from <= to <= |tr|
  {
    if from == to then 0 else CountSuccesses(tr, from, to - 1) + if tr[to - 1].event.Succeed? then 1 else 0
  }

  /** The half-open episode that reaches to `k` and was opened by the reading at `i`. */
  ghost predicate Episode(cfg: Config, tr: Trace, i: nat, k: nat)
    requires i < k <= |tr|
  {
    && StateAt(cfg, tr, i) == Open && Reads(tr[i].event) && TimedOut(cfg, tr[..i], tr[i].now)
    && (forall m: nat :: i < m <= k ==> StateAt(cfg, tr, m) == HalfOpen)
    && (forall m: nat :: i < m < k ==> !tr[m].event.Fail? && !tr[m].event.Reset?)
  }

  lemma HalfOpenStep(cfg: Config, tr: Trace, k: nat)
    requires k < |tr| && StateAt(cfg, tr, k + 1) == HalfOpen
    ensures var successes := Run(cfg, tr[..k + 1]).b.successes;
      if StateAt(cfg, tr, k) == HalfOpen then
        && !tr[k].event.Fail? && !tr[k].event.Reset?
        && successes == Run(cfg, tr[..k]).b.successes + if tr[k].event.Succeed? then 1 else 0
      else
        StateAt(cfg, tr, k) == Open && Reads(tr[k].event) && TimedOut(cfg, tr[..k], tr[k].now) && successes == 0
  {
    RunStep(cfg, tr, k);
    FieldsSummariseHistory(cfg, tr[..k]);
    hide Run, LatestFailure;
  }

  lemma {:induction false} HalfOpenHasEpisode(cfg: Config, tr: Trace, k: nat) returns (i: nat)
    requires k <= |tr| && StateAt(cfg, tr, k) == HalfOpen
    ensures i < k && Episode(cfg, tr, i, k)
    ensures Run(cfg, tr[..k]).b.successes == CountSuccesses(tr, i + 1, k)
  {
    assert StateAt(cfg, tr, 0) == Closed;
    HalfOpenStep(cfg, tr, k - 1);
    hide StateAt, Run, TimedOut, Episode;
    if StateAt(cfg, tr, k - 1) == HalfOpen {
      i := HalfOpenHasEpisode(cfg, tr, k - 1);
    } else {
      i := k - 1;
    }
    EpisodeGrows(cfg, tr, i, k);
  }

  lemma EpisodeGrows(cfg: Config, tr: Trace, i: nat, k: nat)
    requires i < k <= |tr| && StateAt(cfg, tr, k) == HalfOpen
    requires if i == k - 1 then StateAt(cfg, tr, i) == Open && Reads(tr[i].event) && TimedOut(cfg, tr[..i], tr[i].now)
             else Episode(cfg, tr, i, k - 1) && !tr[k - 1].event.Fail? && !tr[k - 1].event.Reset?
    ensures Episode(cfg, tr, i, k)
  {
    hide StateAt, TimedOut;
  }

  lemma {:induction false} OneSuccess(tr: Trace, from: nat, to: nat) returns (j: nat)
    requires from <= to <= |tr| && CountSuccesses(tr, from, to) == 1
    ensures from <= j < to && tr[j].event.Succeed?
    ensures forall m: nat :: from <= m < to && tr[m].event.Succeed? ==> m == j
  {
    if tr[to - 1].event.Succeed? {
      j := to - 1;
      NoSuccess(tr, from, to - 1);
    } else {
      j := OneSuccess(tr, from, to - 1);
    }
  }

  lemma {:induction false} NoSuccess(tr: Trace, from: nat, to: nat)
    requires from <= to <= |tr| && CountSuccesses(tr, from, to) == 0
    ensures forall m: nat :: from <= m < to ==> !tr[m].event.Succeed?
  {
    if from < to {
      NoSuccess(tr, from, to - 1);
    }
  }

  /**
   * Half-open closes only by a manual reset, or by the second of exactly two successes recorded
   * since the reading that opened the episode, with no failure and no reset in between.
   */
  lemma RecoveryNeedsTwoSuccesses(cfg: Config, tr: Trace, k: nat) returns (i: nat, j: nat)
    requires Legal(cfg, tr) && k < |tr|
    requires StateAt(cfg, tr, k) == HalfOpen && StateAt(cfg, tr, k + 1) == Closed && !tr[k].event.Reset?
    ensures i < j < k && Episode(cfg, tr, i, k)
    ensures tr[j].event.Succeed? && tr[k].event.Succeed?
    ensures forall m: nat :: i < m < k && tr[m].event.Succeed? ==> m == j
  {
    i := HalfOpenHasEpisode(cfg, tr, k);
    RunStep(cfg, tr, k);
    LegalPrefix(cfg, tr, k);
    EveryRunIsConsistent(cfg, tr[..k]);
    j := OneSuccess(tr, i + 1, k);
  }

  /** A closed breaker opens exactly when a failure brings the streak of recorded failures to the
      threshold; a threshold below 1 makes every failure open it. */
  lemma TripsExactlyAtThreshold(cfg: Config, tr: Trace, k: nat)
    requires Legal(cfg, tr) && k < |tr| && StateAt(cfg, tr, k) == Closed
    ensures StateAt(cfg, tr, k + 1) == Open <==>
              if cfg.failureThreshold >= 1 then FailureStreak(tr[..k + 1]) == cfg.failureThreshold else tr[k].event.Fail?
    ensures StateAt(cfg, tr, k + 1) != HalfOpen
  {
    LegalPrefix(cfg, tr, k);
    EveryRunIsConsistent(cfg, tr[..k]);
    RunStep(cfg, tr, k);
    FieldsSummariseHistory(cfg, tr[..k]);
    FieldsSummariseHistory(cfg, tr[..k + 1]);
  }

  // ---------------------------------------------------------------------------------------------
  // Late completions count as recovery probes
  // ---------------------------------------------------------------------------------------------

  ghost predicate Arrives(tr: Trace, a: nat, c: CallId) {
    a < |tr| && tr[a].event == Arrive(c)
  }

  /** A call that can still record an outcome without a further state reading. */
  predicate Late(s: System, c: CallId) {
    c in s.phase && s.phase[c] != Settled
  }

  /** A call in flight at `j` that was not late at `i` was made in between. */
  lemma ActiveCallArrived(cfg: Config, tr: Trace, i: nat, j: nat, c: CallId) returns (a: nat)
    requires Legal(cfg, tr) && i <= j <= |tr|
    requires !Late(Run(cfg, tr[..i]), c) && Late(Run(cfg, tr[..j]), c)
    ensures i <= a < j && Arrives(tr, a, c)
  {
    hide Run, PossibleAt, Arrives, Late;
    if Late(Run(cfg, tr[..j - 1]), c) {
      a := ActiveCallArrived(cfg, tr, i, j - 1, c);
    } else {
      a := j - 1;
      assert PossibleAt(cfg, tr, a);
      NewLateCallArrived(cfg, tr, a, c);
    }
  }

  lemma NewLateCallArrived(cfg: Config, tr: Trace, m: nat, c: CallId)
    requires m < |tr| && PossibleAt(cfg, tr, m)
    requires !Late(Run(cfg, tr[..m]), c) && Late(Run(cfg, tr[..m + 1]), c)
    ensures Arrives(tr, m, c)
  {
    RunStep(cfg, tr, m);
    hide Run;
  }

  /**
   * Where every call has its own id, a success recorded at `j` comes from a call made since `i`
   * iff that call was not between the state check and its outcome at `i`.
   */
  lemma SuccessIsProbeIffNotInProgress(cfg: Config, tr: Trace, i: nat, j: nat)
    requires Legal(cfg, tr) && i <= j < |tr| && tr[j].event.Succeed?
    requires forall a: nat, b: nat, c: CallId :: Arrives(tr, a, c) && Arrives(tr, b, c) ==> a == b
    ensures (exists a: nat :: i <= a < j && Arrives(tr, a, tr[j].event.call)) <==> !Late(Run(cfg, tr[..i]), tr[j].event.call)
  {
    var c := tr[j].event.call;
    assert PossibleAt(cfg, tr, j);
    if Late(Run(cfg, tr[..i]), c) {
      var a := ActiveCallArrived(cfg, tr, 0, i, c);
    } else {
      var a := ActiveCallArrived(cfg, tr, i, j, c);
    }
  }

  /** The episode opened at `i` closes at `k`, by the successes at `j` and `k`. */
  ghost predicate ClosesAt(cfg: Config, tr: Trace, i: nat, j: nat, k: nat) {
    && i < j < k < |tr| && Episode(cfg, tr, i, k) && StateAt(cfg, tr, k + 1) == Closed
    && tr[j].event.Succeed? && tr[k].event.Succeed?
  }

  /** The successes at `j` and `k` come from two different calls made at or after `i`. */
  ghost predicate ByProbes(tr: Trace, i: nat, j: nat, k: nat) {
    && j < |tr| && k < |tr| && tr[j].event.Succeed? && tr[k].event.Succeed?
    && exists a: nat, b: nat ::
         i <= a < j && i <= b < k && a != b && Arrives(tr, a, tr[j].event.call) && Arrives(tr, b, tr[k].event.call)
  }

  lemma ClosesByProbes(cfg: Config, tr: Trace, i: nat, j: nat, k: nat)
    requires Legal(cfg, tr) && ClosesAt(cfg, tr, i, j, k)
    requires forall c: CallId :: !Late(Run(cfg, tr[..i]), c)
    ensures ByProbes(tr, i, j, k)
  {
    assert PossibleAt(cfg, tr, j) && PossibleAt(cfg, tr, k);
    var c, d := tr[j].event.call, tr[k].event.call;
    var a := ActiveCallArrived(cfg, tr, i, j, c);
    var b;
    if c == d {
      RunStep(cfg, tr, j);
      b := ActiveCallArrived(cfg, tr, j + 1, k, c);
    } else {
      b := ActiveCallArrived(cfg, tr, i, k, d);
    }
    assert Arrives(tr, a, c) && Arrives(tr, b, d);
  }

  lemma LegalExtends(cfg: Config, tr: Trace, t: Stamped)
    requires Legal(cfg, tr) && Possible(Run(cfg, tr), t.event)
    ensures Legal(cfg, tr + [t]) && Run(cfg, tr + [t]) == Step(cfg, Run(cfg, tr), t)
  {
    hide Step, Possible;
    var longer := tr + [t];
    assert longer[..|tr|] == tr && tr[..|tr|] == tr;
    forall k: nat | k < |longer|
      ensures PossibleAt(cfg, longer, k)
    {
      assert longer[..k] == tr[..k];
      assert k < |tr| ==> PossibleAt(cfg, tr, k);
    }
  }

  lemma SameEpisode(cfg: Config, tr: Trace, t: Stamped, i: nat)
    requires i < |tr| && Episode(cfg, tr, i, |tr|)
    ensures Episode(cfg, tr + [t], i, |tr|)
  {
    hide Run, TimedOut;
    var longer := tr + [t];
    forall m: nat | m <= |tr|
      ensures longer[..m] == tr[..m]
    {
    }
    assert forall m: nat :: i <= m <= |tr| ==> StateAt(cfg, longer, m) == StateAt(cfg, tr, m);
  }

  /** A half-open episode goes on with any possible step that leaves the breaker half-open. */
  lemma EpisodeExtends(cfg: Config, tr: Trace, t: Stamped, i: nat)
    requires Legal(cfg, tr) && i < |tr| && Episode(cfg, tr, i, |tr|) && Possible(Run(cfg, tr), t.event)
    requires Step(cfg, Run(cfg, tr), t).b.state.HalfOpen? && !t.event.Fail? && !t.event.Reset?
    ensures Legal(cfg, tr + [t]) && Run(cfg, tr + [t]) == Step(cfg, Run(cfg, tr), t)
    ensures Episode(cfg, tr + [t], i, |tr + [t]|)
  {
    LegalExtends(cfg, tr, t);
    SameEpisode(cfg, tr, t, i);
    hide Run, Step, TimedOut, Possible;
    assert (tr + [t])[..|tr| + 1] == tr + [t];
  }

  /** No call made since `i` has the id `c`. */
  ghost predicate NotMadeSince(tr: Trace, i: nat, c: CallId) {
    forall a: nat :: i <= a ==> !Arrives(tr, a, c)
  }

  /** A half-open stretch without a success yet, in which the call `c` from before `i` is in flight. */
  ghost predicate LateInFlight(cfg: Config, tr: Trace, i: nat, c: CallId) {
    && Legal(cfg, tr) && i < |tr| && Episode(cfg, tr, i, |tr|) && NotMadeSince(tr, i, c)
    && var s := Run(cfg, tr); s.b.successes == 0 && c in s.phase && s.phase[c] == InFlight
  }

  predicate NeverAdmits(cfg: Config) {
    cfg.maxConcurrentCalls.Some? && cfg.maxConcurrentCalls.value < 0
  }

  lemma LateSteps(cfg: Config, s: System, now: real, c: CallId)
    requires Consistent(cfg, s) && s.b.state == HalfOpen && s.b.successes == 0
    requires c in s.phase && s.phase[c] == InFlight && !NeverAdmits(cfg)
    ensures var s1 := Step(cfg, s, Stamped(now, Succeed(c)));
      var s2 := Step(cfg, s1, Stamped(now, Leave(c)));
      var s3 := Step(cfg, s2, Stamped(now, Arrive(c)));
      var s4 := Step(cfg, s3, Stamped(now, Admit(c)));
      && s1.b.state == s2.b.state == s3.b.state == s4.b.state == HalfOpen
      && Possible(s, Succeed(c)) && Possible(s1, Leave(c)) && Possible(s2, Arrive(c)) && Possible(s3, Admit(c))
      && Possible(s4, Succeed(c)) && Step(cfg, s4, Stamped(now, Succeed(c))).b.state == Closed
  {
    hide Holding;
  }

  /** The late call succeeds and, made again, succeeds once more. */
  lemma LateCallCloses(cfg: Config, tr: Trace, now: real, i: nat, c: CallId) returns (longer: Trace)
    requires LateInFlight(cfg, tr, i, c) && !NeverAdmits(cfg)
    ensures Legal(cfg, longer) && tr <= longer && |longer| == |tr| + 5
    ensures ClosesAt(cfg, longer, i, |tr|, |tr| + 4) && !ByProbes(longer, i, |tr|, |tr| + 4)
  {
    hide *;
    LateInFlightSystem(cfg, tr, i, c);
    LateSteps(cfg, Run(cfg, tr), now, c);
    var t1, t2, t3 := Stamped(now, Succeed(c)), Stamped(now, Leave(c)), Stamped(now, Arrive(c));
    var t4, t5 := Stamped(now, Admit(c)), Stamped(now, Succeed(c));
    var tr1 := tr + [t1];
    EpisodeExtends(cfg, tr, t1, i);
    var tr2 := tr1 + [t2];
    EpisodeExtends(cfg, tr1, t2, i);
    var tr3 := tr2 + [t3];
    EpisodeExtends(cfg, tr2, t3, i);
    var tr4 := tr3 + [t4];
    EpisodeExtends(cfg, tr3, t4, i);
    longer := tr4 + [t5];
    EpisodeCloses(cfg, tr4, t5, i, |tr|);
    LateSuccessIsNoProbe(tr, longer, i, c, |tr| + 4);
  }

  lemma LateInFlightSystem(cfg: Config, tr: Trace, i: nat, c: CallId)
    requires LateInFlight(cfg, tr, i, c)
    ensures Consistent(cfg, Run(cfg, tr)) && Run(cfg, tr).b.state == HalfOpen && Run(cfg, tr).b.successes == 0
    ensures c in Run(cfg, tr).phase && Run(cfg, tr).phase[c] == InFlight
    ensures Legal(cfg, tr) && i < |tr| && Episode(cfg, tr, i, |tr|) && NotMadeSince(tr, i, c)
  {
    EpisodeEnd(cfg, tr, i);
    hide Run, Episode, Consistent;
  }

  lemma EpisodeEnd(cfg: Config, tr: Trace, i: nat)
    requires Legal(cfg, tr) && i < |tr| && Episode(cfg, tr, i, |tr|)
    ensures Consistent(cfg, Run(cfg, tr)) && Run(cfg, tr).b.state == HalfOpen
  {
    hide Run, Consistent, TimedOut;
    EveryRunIsConsistent(cfg, tr);
    assert tr[..|tr|] == tr;
    assert StateAt(cfg, tr, |tr|) == HalfOpen;
  }

  lemma EpisodeCloses(cfg: Config, tr: Trace, t: Stamped, i: nat, j: nat)
    requires Legal(cfg, tr) && i < j < |tr| && Episode(cfg, tr, i, |tr|) && Possible(Run(cfg, tr), t.event)
    requires Step(cfg, Run(cfg, tr), t).b.state == Closed && tr[j].event.Succeed? && t.event.Succeed?
    ensures Legal(cfg, tr + [t]) && ClosesAt(cfg, tr + [t], i, j, |tr|)
  {
    hide Run, Step, Possible, Episode;
    LegalExtends(cfg, tr, t);
    SameEpisode(cfg, tr, t, i);
    assert (tr + [t])[..|tr| + 1] == tr + [t];
  }

  lemma LateSuccessIsNoProbe(tr: Trace, longer: Trace, i: nat, c: CallId, k: nat)
    requires tr <= longer && |tr| < |longer| && k < |longer| && longer[k].event.Succeed?
    requires NotMadeSince(tr, i, c) && longer[|tr|].event == Succeed(c)
    ensures !ByProbes(longer, i, |tr|, k)
  {
    forall a: nat | i <= a < |tr|
      ensures !Arrives(longer, a, c)
    {
      assert !Arrives(tr, a, c);
    }
  }

  lemma StillNotMade(tr: Trace, t: Stamped, i: nat, c: CallId)
    requires NotMadeSince(tr, i, c) && t.event != Arrive(c)
    ensures NotMadeSince(tr + [t], i, c)
  {
    forall a: nat | i <= a
      ensures !Arrives(tr + [t], a, c)
    {
      assert !Arrives(tr, a, c);
    }
  }

  /** With no call in flight, a cleared call gets in, if need be after a settled one has left. */
  lemma GetInSteps(cfg: Config, s: System, now: real, c: CallId) returns (h: CallId)
    requires Consistent(cfg, s) && s.b.state == HalfOpen && s.b.successes == 0 && !NeverAdmits(cfg)
    requires c in s.phase && s.phase[c] == Cleared && forall e <- s.phase :: s.phase[e] != InFlight
    ensures var s1 := if AtLimit(cfg, s.b) then Step(cfg, s, Stamped(now, Leave(h))) else s;
      var s2 := Step(cfg, s1, Stamped(now, Admit(c)));
      && (AtLimit(cfg, s.b) ==> Possible(s, Leave(h))) && Possible(s1, Admit(c))
      && s1.b.state == s2.b.state == HalfOpen && s1.b.successes == s2.b.successes == 0
      && c in s2.phase && s2.phase[c] == InFlight
  {
    h := c;
    if AtLimit(cfg, s.b) {
      assert |Holding(s)| > 0;
      h :| h in Holding(s);
    }
  }

  lemma LateCallGetsIn(cfg: Config, tr: Trace, now: real, i: nat, c: CallId) returns (longer: Trace)
    requires Legal(cfg, tr) && i < |tr| && Episode(cfg, tr, i, |tr|) && NotMadeSince(tr, i, c) && !NeverAdmits(cfg)
    requires var s := Run(cfg, tr);
      s.b.successes == 0 && c in s.phase && s.phase[c] == Cleared && forall e <- s.phase :: s.phase[e] != InFlight
    ensures tr <= longer && LateInFlight(cfg, longer, i, c)
  {
    EpisodeEnd(cfg, tr, i);
    var h := GetInSteps(cfg, Run(cfg, tr), now, c);
    hide Run, Episode, Legal, Step, Possible, NotMadeSince, Consistent;
    longer := tr;
    if AtLimit(cfg, Run(cfg, tr).b) {
      EpisodeExtends(cfg, tr, Stamped(now, Leave(h)), i);
      StillNotMade(tr, Stamped(now, Leave(h)), i, c);
      longer := tr + [Stamped(now, Leave(h))];
    }
    EpisodeExtends(cfg, longer, Stamped(now, Admit(c)), i);
    StillNotMade(longer, Stamped(now, Admit(c)), i, c);
    longer := longer + [Stamped(now, Admit(c))];
  }

  /** A legal history and the reading that moves its open breaker to half-open. */
  ghost predicate Opens(cfg: Config, past: Trace, reading: Stamped) {
    && Legal(cfg, past + [reading]) && Run(cfg, past).b.state == Open
    && Reads(reading.event) && TimedOut(cfg, past, reading.now)
  }

  lemma EpisodeBegins(cfg: Config, past: Trace, reading: Stamped)
    requires Opens(cfg, past, reading)
    ensures var tr, i := past + [reading], |past|;
      && Episode(cfg, tr, i, |tr|) && Run(cfg, tr).b.successes == 0 && tr[..i] == past
      && Run(cfg, tr).phase ==
           (match reading.event case Arrive(d) => Run(cfg, past).phase[d := Cleared] case _ => Run(cfg, past).phase)
      && (reading.event.Arrive? ==> reading.event.call !in Run(cfg, past).phase)
      && forall c <- Run(cfg, past).phase :: NotMadeSince(tr, i, c)
  {
    var tr, i := past + [reading], |past|;
    assert tr[..i] == past && tr[..i + 1] == tr;
    assert PossibleAt(cfg, tr, i);
    RunStep(cfg, tr, i);
    FieldsSummariseHistory(cfg, past);
    hide Run, LatestFailure;
  }

  /** Some legal continuation closes the episode by a success of a call from before it. */
  lemma LateCallIsTaken(cfg: Config, past: Trace, reading: Stamped, c: CallId) returns (tr: Trace, j: nat, k: nat)
    requires Opens(cfg, past, reading) && Late(Run(cfg, past), c) && !NeverAdmits(cfg)
    ensures Legal(cfg, tr) && past + [reading] <= tr && ClosesAt(cfg, tr, |past|, j, k) && !ByProbes(tr, |past|, j, k)
  {
    EpisodeBegins(cfg, past, reading);
    hide Run, Episode, Legal, Step, Possible, NotMadeSince, ClosesAt, ByProbes;
    var begun, i := past + [reading], |past|;
    tr := begun;
    var d := c;
    if e :| e in Run(cfg, past).phase && Run(cfg, past).phase[e] == InFlight {
      d := e;
    } else {
      tr := LateCallGetsIn(cfg, begun, reading.now, i, c);
    }
    j := |tr|;
    k := |tr| + 4;
    tr := LateCallCloses(cfg, tr, reading.now, i, d);
  }

  /** Every closing by successes of the episode that `reading` opens, in any legal continuation, is by probes. */
  ghost predicate AlwaysByProbes(cfg: Config, past: Trace, reading: Stamped) {
    forall tr: Trace, j: nat, k: nat ::
      Legal(cfg, tr) && past + [reading] <= tr && ClosesAt(cfg, tr, |past|, j, k) ==> ByProbes(tr, |past|, j, k)
  }

  /**
   * Whatever follows, half-open closes by two calls made since it began, iff at its beginning no
   * call was between the state check and its outcome (or the limit is negative and admits none).
   * Calls that have only to give back their slot are harmless.
   */
  lemma ClosesByProbesIffNoneLate(cfg: Config, past: Trace, reading: Stamped)
    requires Opens(cfg, past, reading)
    ensures AlwaysByProbes(cfg, past, reading) <==>
              NeverAdmits(cfg) || forall c <- Run(cfg, past).phase :: Run(cfg, past).phase[c] == Settled
  {
    hide Run, Legal, ClosesAt, ByProbes, Opens;
    if NeverAdmits(cfg) || forall c <- Run(cfg, past).phase :: Run(cfg, past).phase[c] == Settled {
      forall tr: Trace, j: nat, k: nat | Legal(cfg, tr) && past + [reading] <= tr && ClosesAt(cfg, tr, |past|, j, k)
        ensures ByProbes(tr, |past|, j, k)
      {
        assert tr[..|past|] == past;
        if NeverAdmits(cfg) {
          NoneSucceeds(cfg, tr, |past|, j, k);
        } else {
          ClosesByProbes(cfg, tr, |past|, j, k);
        }
      }
    } else {
      var c :| c in Run(cfg, past).phase && Run(cfg, past).phase[c] != Settled;
      var tr, j, k := LateCallIsTaken(cfg, past, reading, c);
    }
  }

  lemma NoneSucceeds(cfg: Config, tr: Trace, i: nat, j: nat, k: nat)
    requires Legal(cfg, tr) && NeverAdmits(cfg)
    ensures !ClosesAt(cfg, tr, i, j, k)
  {
    if j < |tr| {
      LegalPrefix(cfg, tr, j);
      EveryRunIsConsistent(cfg, tr[..j]);
      NoneInFlight(cfg, Run(cfg, tr[..j]));
      assert PossibleAt(cfg, tr, j);
    }
  }

  lemma NoneInFlight(cfg: Config, s: System)
    requires Consistent(cfg, s) && NeverAdmits(cfg)
    ensures forall c <- s.phase :: s.phase[c] == Cleared
  {
    assert Holding(s) == {};
    assert forall c <- s.phase :: s.phase[c] != Cleared ==> c in Holding(s);
  }

  /** Three calls in flight; one fails and trips a threshold of 1; after the timeout the late
      successes of the other two close the breaker although no call was made since the trip. */
  function LateCompletions(): Trace {
    [Stamped(0.0, Arrive(1)), Stamped(0.0, Admit(1)), Stamped(0.0, Arrive(2)), Stamped(0.0, Admit(2)),
     Stamped(0.0, Arrive(3)), Stamped(0.0, Admit(3)), Stamped(1.0, Fail(1)), Stamped(61.0, Inspect),
     Stamped(61.0, Succeed(2)), Stamped(61.0, Succeed(3))]
  }

  lemma LateCompletionsCloseTheBreaker(cfg: Config)
    requires cfg == Config(1, 60.0, None)
    ensures var tr := LateCompletions();
      && Legal(cfg, tr) && StateAt(cfg, tr, 7) == Open && StateAt(cfg, tr, 8) == HalfOpen && StateAt(cfg, tr, 10) == Closed
      && !exists a: nat, c :: 7 <= a && Arrives(tr, a, c)
  {
    var tr := LateCompletions();
    hide Run;
    LateCompletionsStart(cfg);
    RunStep(cfg, tr, 6);
    RunStep(cfg, tr, 7);
    RunStep(cfg, tr, 8);
    RunStep(cfg, tr, 9);
    var phase := map[1 := Settled, 2 := InFlight, 3 := InFlight];
    assert Run(cfg, tr[..7]) == System(Breaker(Open, 1, 0, Some(1.0), 3), phase);
    assert Run(cfg, tr[..8]) == System(Breaker(HalfOpen, 1, 0, Some(1.0), 3), phase);
    assert Run(cfg, tr[..9]) == System(Breaker(HalfOpen, 0, 1, Some(1.0), 3), phase[2 := Settled]);
  }

  lemma LateCompletionsStart(cfg: Config)
    requires cfg == Config(1, 60.0, None)
    ensures var tr := LateCompletions();
      && Run(cfg, tr[..6]) == System(FRESH.(concurrent := 3), map[1 := InFlight, 2 := InFlight, 3 := InFlight])
      && forall k: nat :: k < 6 ==> PossibleAt(cfg, tr, k)
  {
    var tr := LateCompletions();
    assert Run(cfg, tr[..0]) == System(FRESH, map[]);
    hide Run;
    RunStep(cfg, tr, 0);
    RunStep(cfg, tr, 1);
    RunStep(cfg, tr, 2);
    assert Run(cfg, tr[..2]) == System(FRESH.(concurrent := 1), map[1 := InFlight]);
    RunStep(cfg, tr, 3);
    RunStep(cfg, tr, 4);
    assert Run(cfg, tr[..4]) == System(FRESH.(concurrent := 2), map[1 := InFlight, 2 := InFlight]);
    RunStep(cfg, tr, 5);
  }

  // ---------------------------------------------------------------------------------------------
  // The breaker objects
  // ---------------------------------------------------------------------------------------------

  class CircuitBreaker {
    const cfg: Config
    var state: State
    var failureCount: int
    var successCount: int
    var lastFailureTime: Option<real>
    var concurrentCalls: int

    function Fields(): Breaker
      reads this
    {
      Breaker(state, failureCount, successCount, lastFailureTime, concurrentCalls)
    }

    constructor (cfg: Config)
      ensures this.cfg == cfg && Fields() == FRESH
    {
      this.cfg := cfg;
      state, failureCount, successCount, lastFailureTime, concurrentCalls := Closed, 0, 0, None, 0;
    }

    method CurrentState(now: real) returns (observed: State)
      modifies this
      ensures Fields() == ReadState(cfg, old(Fields()), now)
      ensures observed == state
    {
      if state == Open {
        if lastFailureTime.Some? && now - lastFailureTime.value >= cfg.recoveryTimeout {
          state := HalfOpen;
          successCount := 0;
          return HalfOpen;
        }
      }
      return state;
    }

    /** The check and increment under the lock; `admitted` is false where `call` raises. */
    method TryAdmit() returns (admitted: bool)
      modifies this
      ensures admitted <==> !AtLimit(cfg, old(Fields()))
      ensures Fields() == if admitted then old(Fields()).(concurrent := old(concurrentCalls) + 1) else old(Fields())
    {
      if cfg.maxConcurrentCalls.Some? && cfg.maxConcurrentCalls.value != 0 && concurrentCalls >= cfg.maxConcurrentCalls.value {
        return false;
      }
      concurrentCalls := concurrentCalls + 1;
      return true;
    }

    method GiveBack()
      modifies this
      ensures Fields() == old(Fields()).(concurrent := old(concurrentCalls) - 1)
    {
      concurrentCalls := concurrentCalls - 1;
    }

    method OnSuccess()
      modifies this
      ensures Fields() == RecordSuccess(old(Fields()))
    {
      failureCount := 0;
      if state == HalfOpen {
        successCount := successCount + 1;
        if successCount >= 2 {
          state := Closed;
        }
      }
    }

    method OnFailure(now: real)
      modifies this
      ensures Fields() == RecordFailure(cfg, old(Fields()), now)
    {
      failureCount := failureCount + 1;
      lastFailureTime := Some(now);
      if state == HalfOpen {
        state := Open;
      } else if failureCount >= cfg.failureThreshold {
        state := Open;
      }
    }
  }

  class CircuitBreakerManager {
    var breakers: map<string, CircuitBreaker>

    constructor ()
      ensures breakers == map[]
    {
      breakers := map[];
    }

    method GetOrCreate(name: string, cfg: Config) returns (b: CircuitBreaker)
      modifies this
      ensures name in old(breakers) ==> breakers == old(breakers) && b == breakers[name]
      ensures name !in old(breakers) ==> breakers == old(breakers)[name := b] && fresh(b) && b.cfg == cfg && b.Fields() == FRESH
    {
      if name !in breakers {
        var created := new CircuitBreaker(cfg);
        breakers := breakers[name := created];
      }
      return breakers[name];
    }

    method Reset(name: string) returns (found: bool)
      modifies breakers.Values
      ensures found <==> name in breakers
      ensures found ==> breakers[name].Fields() == ResetManually(old(breakers[name].Fields()))
      ensures forall b <- breakers.Values :: (!found || b != breakers[name]) ==> b.Fields() == old(b.Fields())
    {
      if name in breakers {
        var b := breakers[name];
        b.state := Closed;
        b.failureCount := 0;
        return true;
      }
      return false;
    }

    method ResetAll()
      modifies breakers.Values
      ensures forall b <- breakers.Values :: b.Fields() == ResetManually(old(b.Fields()))
    {
      var left := breakers.Values;
      while left != {}
        invariant left <= breakers.Values
        invariant forall b <- breakers.Values :: b.Fields() == if b in left then old(b.Fields()) else ResetManually(old(b.Fields()))
        decreases left
      {
        var b :| b in left;
        b.state := Closed;
        b.failureCount := 0;
        left := left - {b};
      }
    }
  }
}
