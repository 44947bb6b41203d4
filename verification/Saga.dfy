/** Sagas: steps with bounded retries, and compensation of the completed steps in reverse order. */
module Sagas {
  import opened Prelude

  /** What an awaited action did to the world: returned a result, or raised an exception. */
  datatype Outcome<W, R> = Returned(world: W, result: R) | Raised(world: W)

  /** One step. Actions and compensations also depend on a clock, so a retry may fare differently. */
  datatype Spec<!W, !R> = Spec(
    action: (nat, W) -> Outcome<W, R>,
    compensation: Option<(nat, R, W) -> Outcome<W, ()>>,
    maxRetries: int)

  datatype Status = Pending | Executing | Completed | Failed | Compensating | Compensated

  /** What happens during a run, in order; steps are named by their position. */
  datatype Entry = Attempt(step: nat, ok: bool) | Sleep(seconds: nat) | Compensation(step: nat, ok: bool)

  /** The world, a clock that advances at every awaited call, and the log so far. */
  datatype Env<W> = Env(world: W, clock: nat, log: seq<Entry>)

  function Pow2(n: nat): nat {
    if n == 0 then 1 else 2 * Pow2(n - 1)
  }

  function Record<W>(e: Env<W>, w: W, entry: Entry): Env<W> {
    Env(w, e.clock + 1, e.log + [entry])
  }

  function Backoff<W>(e: Env<W>, retry: nat): Env<W> {
    e.(log := e.log + [Sleep(Pow2(retry))])
  }

  // ---------------------------------------------------------------------------------------------
  // What a run computes
  // ---------------------------------------------------------------------------------------------

  datatype StepRun<W, R> = StepRun(env: Env<W>, result: Option<R>, retries: nat)

  /** Retries still allowed after `retries` have been used. */
  function Budget(maxRetries: int, retries: nat): nat {
    if maxRetries <= retries then 0 else maxRetries - retries
  }

  /** `SagaStep.execute` for the step at position `i` whose retry counter stands at `retries`. */
  function RunStep<W, R>(s: Spec<W, R>, i: nat, retries: nat, e: Env<W>): StepRun<W, R>
    decreases Budget(s.maxRetries, retries)
  {
    match s.action(e.clock, e.world)
    case Returned(w, r) => StepRun(Record(e, w, Attempt(i, true)), Some(r), retries)
    case Raised(w) =>
      var e1 := Record(e, w, Attempt(i, false));
      if retries < s.maxRetries then RunStep(s, i, retries + 1, Backoff(e1, retries + 1))
      else StepRun(e1, None, retries)
  }

  /** `SagaStep.compensate` with the result stored by the action. */
  function RunCompensation<W, R>(s: Spec<W, R>, i: nat, r: R, e: Env<W>): Env<W> {
    if s.compensation.None? then e
    else
      var outcome := s.compensation.value(e.clock, r, e.world);
      Record(e, outcome.world, Compensation(i, outcome.Returned?))
  }

  /** The steps run so far: all of them if `failed` is false, else the last one has failed. */
  datatype Forward<W, R> = Forward(env: Env<W>, results: seq<R>, retries: seq<nat>, failed: bool)

  /** The loop over the first `n` steps, stopping at the first that fails. */
  function RunForward<W, R>(specs: seq<Spec<W, R>>, retries: seq<nat>, n: nat, e: Env<W>): (f: Forward<W, R>)
    requires n <= |specs| == |retries|
    ensures |f.results| <= n && |f.retries| == |f.results| + (if f.failed then 1 else 0)
    ensures if f.failed then |f.results| < n else |f.results| == n
  {
    if n == 0 then Forward(e, [], [], false)
    else
      var f := RunForward(specs, retries, n - 1, e);
      if f.failed then f
      else
        var run := RunStep(specs[n - 1], n - 1, retries[n - 1], f.env);
        match run.result
        case Some(r) => Forward(run.env, f.results + [r], f.retries + [run.retries], false)
        case None => Forward(run.env, f.results, f.retries + [run.retries], true)
  }

  /** `_compensate`: the completed steps k-1, ..., 0. */
  function RunBackward<W, R>(specs: seq<Spec<W, R>>, results: seq<R>, k: nat, e: Env<W>): Env<W>
    requires k <= |results| <= |specs|
  {
    if k == 0 then e
    else RunBackward(specs, results, k - 1, RunCompensation(specs[k - 1], k - 1, results[k - 1], e))
  }

  /** The environment a whole saga leaves behind. */
  function RunSaga<W, R>(specs: seq<Spec<W, R>>, retries: seq<nat>, e: Env<W>): Env<W>
    requires |specs| == |retries|
  {
    var f := RunForward(specs, retries, |specs|, e);
    if f.failed then RunBackward(specs, f.results, |f.results|, f.env) else f.env
  }

  // ---------------------------------------------------------------------------------------------
  // Rollback restores the world
  // ---------------------------------------------------------------------------------------------

  /** A failed action changes nothing, and the compensation always succeeds in undoing the action;
      a step without a compensation has no effect. */
  ghost predicate Undoable<W(!new), R(!new)>(s: Spec<W, R>) {
    && (forall t: nat, w: W :: s.action(t, w).Raised? ==> s.action(t, w).world == w)
    && (forall t: nat, w: W :: s.action(t, w).Returned? && s.compensation.None? ==> s.action(t, w).world == w)
    && (forall t: nat, w: W, u: nat :: s.action(t, w).Returned? && s.compensation.Some? ==>
          s.compensation.value(u, s.action(t, w).result, s.action(t, w).world) == Returned(w, ()))
  }

  /** One effective action of step `s` takes `w` to `w'` with result `r`. */
  ghost predicate Takes<W, R>(s: Spec<W, R>, w: W, r: R, w': W) {
    exists t: nat :: s.action(t, w) == Returned(w', r)
  }

  /** `ws` are the worlds between the first steps, each taken by that step's action alone. */
  ghost predicate Chain<W, R>(specs: seq<Spec<W, R>>, results: seq<R>, ws: seq<W>) {
    && |results| <= |specs| && |ws| == |results| + 1
    && forall i: nat :: i < |results| ==> Takes(specs[i], ws[i], results[i], ws[i + 1])
  }

  lemma {:induction false} StepTakesOrLeaves<W(!new), R(!new)>(s: Spec<W, R>, i: nat, retries: nat, e: Env<W>)
    requires Undoable(s)
    ensures var run := RunStep(s, i, retries, e);
      if run.result.Some? then Takes(s, e.world, run.result.value, run.env.world) else run.env.world == e.world
    decreases Budget(s.maxRetries, retries)
  {
    var outcome := s.action(e.clock, e.world);
    if outcome.Raised? && retries < s.maxRetries {
      StepTakesOrLeaves(s, i, retries + 1, Backoff(Record(e, outcome.world, Attempt(i, false)), retries + 1));
    }
  }

  lemma {:induction false} ForwardIsChain<W(!new), R(!new)>(specs: seq<Spec<W, R>>, retries: seq<nat>, n: nat, e: Env<W>)
    returns (ws: seq<W>)
    requires n <= |specs| == |retries|
    requires forall s <- specs :: Undoable(s)
    ensures var f := RunForward(specs, retries, n, e);
      Chain(specs, f.results, ws) && ws[0] == e.world && ws[|f.results|] == f.env.world
  {
    if n == 0 {
      ws := [e.world];
    } else {
      ws := ForwardIsChain(specs, retries, n - 1, e);
      var f := RunForward(specs, retries, n - 1, e);
      if !f.failed {
        StepTakesOrLeaves(specs[n - 1], n - 1, retries[n - 1], f.env);
        var run := RunStep(specs[n - 1], n - 1, retries[n - 1], f.env);
        if run.result.Some? {
          ws := ws + [run.env.world];
        }
      }
    }
  }

  lemma {:induction false} BackwardUndoesChain<W(!new), R(!new)>(
      specs: seq<Spec<W, R>>, results: seq<R>, ws: seq<W>, k: nat, e: Env<W>)
    requires Chain(specs, results, ws) && k <= |results| && e.world == ws[k]
    requires forall s <- specs :: Undoable(s)
    ensures RunBackward(specs, results, k, e).world == ws[0]
  {
    if k > 0 {
      var s := specs[k - 1];
      assert Undoable(s) && Takes(s, ws[k - 1], results[k - 1], ws[k]);
      var t: nat :| s.action(t, ws[k - 1]) == Returned(ws[k], results[k - 1]);
      assert s.action(t, ws[k - 1]).Returned?;
      BackwardUndoesChain(specs, results, ws, k - 1, RunCompensation(specs[k - 1], k - 1, results[k - 1], e));
    }
  }

  /** A failed saga leaves the world as it found it; a successful one leaves exactly the effects
      of all its actions, composed in order. */
  lemma SagaIsAllOrNothing<W(!new), R(!new)>(specs: seq<Spec<W, R>>, retries: seq<nat>, e: Env<W>) returns (ws: seq<W>)
    requires |specs| == |retries|
    requires forall s <- specs :: Undoable(s)
    ensures var f := RunForward(specs, retries, |specs|, e);
      if f.failed then RunSaga(specs, retries, e).world == e.world
      else && |f.results| == |specs| && Chain(specs, f.results, ws)
           && ws[0] == e.world && ws[|specs|] == RunSaga(specs, retries, e).world
  {
    ws := ForwardIsChain(specs, retries, |specs|, e);
    var f := RunForward(specs, retries, |specs|, e);
    BackwardUndoesChain(specs, f.results, ws, |f.results|, f.env);
  }

  // ---------------------------------------------------------------------------------------------
  // The shape of the log
  // ---------------------------------------------------------------------------------------------

  /** `failures` failed attempts of step `i`, a doubling sleep after each, starting at `retries`. */
  function FailedAttempts(i: nat, retries: nat, failures: nat): seq<Entry>
    decreases failures
  {
    if failures == 0 then []
    else [Attempt(i, false), Sleep(Pow2(retries + 1))] + FailedAttempts(i, retries + 1, failures - 1)
  }

  /** The log of a step: it fails `failures` times within its budget and then succeeds, or it
      uses up the budget and fails once more. */
  function StepLog(i: nat, retries: nat, failures: nat, ok: bool): seq<Entry> {
    FailedAttempts(i, retries, failures) + [Attempt(i, ok)]
  }

  lemma {:induction false} StepHasLog<W, R>(s: Spec<W, R>, i: nat, retries: nat, e: Env<W>)
    ensures var run := RunStep(s, i, retries, e);
      && retries <= run.retries && run.retries - retries <= Budget(s.maxRetries, retries)
      && (run.result.None? ==> run.retries - retries == Budget(s.maxRetries, retries))
      && run.env.log == e.log + StepLog(i, retries, run.retries - retries, run.result.Some?)
    decreases Budget(s.maxRetries, retries)
  {
    hide StepLog, Pow2;
    StepLogBase(i, retries, true);
    StepLogBase(i, retries, false);
    var outcome := s.action(e.clock, e.world);
    if outcome.Raised? && retries < s.maxRetries {
      StepHasLog(s, i, retries + 1, Backoff(Record(e, outcome.world, Attempt(i, false)), retries + 1));
      var run := RunStep(s, i, retries, e);
      StepLogGrows(e.log, i, retries, run.retries - retries - 1, run.result.Some?);
    }
  }

  lemma StepLogBase(i: nat, retries: nat, ok: bool)
    ensures StepLog(i, retries, 0, ok) == [Attempt(i, ok)]
  {
  }

  lemma StepLogGrows(log: seq<Entry>, i: nat, retries: nat, failures: nat, ok: bool)
    ensures ((log + [Attempt(i, false)]) + [Sleep(Pow2(retries + 1))]) + StepLog(i, retries + 1, failures, ok)
            == log + StepLog(i, retries, failures + 1, ok)
  {
  }

  /** The logs of completed steps, one after the other: step i fails `failures[i]` times first. */
  function CompletedLog(before: seq<nat>, failures: seq<nat>): seq<Entry>
    requires |failures| <= |before|
  {
    if failures == [] then []
    else
      var i := |failures| - 1;
      CompletedLog(before, failures[..i]) + StepLog(i, before[i], failures[i], true)
  }

  /** Steps 0..k-1 complete; if the run failed, step k then uses up its whole budget in vain. */
  ghost predicate ForwardShape<W, R>(
      specs: seq<Spec<W, R>>, before: seq<nat>, failures: seq<nat>, failed: bool, log: seq<Entry>)
  {
    var k := |failures|;
    && k + (if failed then 1 else 0) <= |specs| == |before|
    && (forall i: nat :: i < k ==> failures[i] <= Budget(specs[i].maxRetries, before[i]))
    && log == CompletedLog(before, failures)
              + if failed then StepLog(k, before[k], Budget(specs[k].maxRetries, before[k]), false) else []
  }

  lemma {:induction false} ForwardHasLog<W, R>(specs: seq<Spec<W, R>>, before: seq<nat>, n: nat, e: Env<W>)
    returns (failures: seq<nat>, log: seq<Entry>)
    requires n <= |specs| == |before|
    ensures var f := RunForward(specs, before, n, e);
      && |failures| == |f.results| && f.env.log == e.log + log
      && ForwardShape(specs, before, failures, f.failed, log)
  {
    hide RunStep, StepLog, Budget, ForwardShape;
    if n == 0 {
      failures, log := [], [];
      ForwardShapeStart(specs, before);
    } else {
      failures, log := ForwardHasLog(specs, before, n - 1, e);
      var f := RunForward(specs, before, n - 1, e);
      if !f.failed {
        var run := RunStep(specs[n - 1], n - 1, before[n - 1], f.env);
        StepHasLog(specs[n - 1], n - 1, before[n - 1], f.env);
        var used := run.retries - before[n - 1];
        ForwardShapeExtends(specs, before, failures, log, used, run.result.Some?);
        log := log + StepLog(n - 1, before[n - 1], used, run.result.Some?);
        failures := if run.result.Some? then failures + [used] else failures;
      }
    }
  }

  lemma ForwardShapeStart<W, R>(specs: seq<Spec<W, R>>, before: seq<nat>)
    requires |specs| == |before|
    ensures ForwardShape(specs, before, [], false, [])
  {
  }

  lemma ForwardShapeExtends<W, R>(
      specs: seq<Spec<W, R>>, before: seq<nat>, failures: seq<nat>, log: seq<Entry>, used: nat, ok: bool)
    requires ForwardShape(specs, before, failures, false, log) && |failures| < |specs|
    requires var k := |failures|;
      var budget := Budget(specs[k].maxRetries, before[k]);
      used <= budget && (!ok ==> used == budget)
    ensures ForwardShape(specs, before, if ok then failures + [used] else failures, !ok,
                         log + StepLog(|failures|, before[|failures|], used, ok))
  {
    hide StepLog;
    assert (failures + [used])[..|failures|] == failures;
  }

  /** The steps below `k` that have a compensation, last first. */
  function Compensable<W, R>(specs: seq<Spec<W, R>>, k: nat): seq<nat>
    requires k <= |specs|
  {
    if k == 0 then []
    else (if specs[k - 1].compensation.Some? then [k - 1] else []) + Compensable(specs, k - 1)
  }

  /** `log` is one compensation attempt per step of `order`, in that order, whatever their outcomes. */
  ghost predicate CompensatesInOrder(log: seq<Entry>, order: seq<nat>) {
    |log| == |order| && forall i: nat :: i < |log| ==> log[i].Compensation? && log[i].step == order[i]
  }

  /** What `_compensate` logs: one entry per completed step with a compensation, last step first. */
  function UndoLog<W, R>(specs: seq<Spec<W, R>>, results: seq<R>, k: nat, e: Env<W>): seq<Entry>
    requires k <= |results| <= |specs|
  {
    if k == 0 then []
    else Undoing(specs[k - 1], k - 1, results[k - 1], e)
         + UndoLog(specs, results, k - 1, RunCompensation(specs[k - 1], k - 1, results[k - 1], e))
  }

  function Undoing<W, R>(s: Spec<W, R>, i: nat, r: R, e: Env<W>): seq<Entry> {
    if s.compensation.None? then [] else [Compensation(i, s.compensation.value(e.clock, r, e.world).Returned?)]
  }

  lemma {:induction false} BackwardHasLog<W, R>(specs: seq<Spec<W, R>>, results: seq<R>, k: nat, e: Env<W>)
    requires k <= |results| <= |specs|
    ensures RunBackward(specs, results, k, e).log == e.log + UndoLog(specs, results, k, e)
    ensures CompensatesInOrder(UndoLog(specs, results, k, e), Compensable(specs, k))
  {
    if k > 0 {
      BackwardHasLog(specs, results, k - 1, RunCompensation(specs[k - 1], k - 1, results[k - 1], e));
    }
  }

  /** The status that the undone log leaves a completed step in. */
  function UndoStatus(undone: seq<Entry>, i: nat): Status {
    if Compensation(i, true) in undone then Compensated
    else if Compensation(i, false) in undone then Compensating
    else Completed
  }

  /** The status a completed step is left in by its compensation. */
  function StatusAfter<W, R>(s: Spec<W, R>, r: R, e: Env<W>): Status {
    if s.compensation.None? then Completed
    else if s.compensation.value(e.clock, r, e.world).Returned? then Compensated
    else Compensating
  }

  /** What is left when steps k-1, ..., n have been compensated. */
  function Unwound<W, R>(specs: seq<Spec<W, R>>, results: seq<R>, k: nat, e: Env<W>, n: nat): Env<W>
    requires n <= k <= |results| <= |specs|
    decreases k - n
  {
    if n == k then e else RunCompensation(specs[n], n, results[n], Unwound(specs, results, k, e, n + 1))
  }

  /** The status that a compensated saga leaves its completed step `i` in. */
  function FinalStatus<W, R>(specs: seq<Spec<W, R>>, results: seq<R>, k: nat, e: Env<W>, i: nat): Status
    requires i < k <= |results| <= |specs|
  {
    StatusAfter(specs[i], results[i], Unwound(specs, results, k, e, i + 1))
  }

  lemma {:induction false} UnwindsBackward<W, R>(specs: seq<Spec<W, R>>, results: seq<R>, k: nat, e: Env<W>, n: nat)
    requires n <= k <= |results| <= |specs|
    ensures RunBackward(specs, results, k, e) == RunBackward(specs, results, n, Unwound(specs, results, k, e, n))
    decreases k - n
  {
    hide RunCompensation;
    if n < k {
      UnwindsBackward(specs, results, k, e, n + 1);
    }
  }

  /** Each compensable step below `k` was undone once, well or badly, and the others not at all. */
  lemma UndoneOnce<W, R>(specs: seq<Spec<W, R>>, results: seq<R>, k: nat, e: Env<W>, i: nat)
    requires k <= |results| <= |specs|
    ensures var undone := UndoLog(specs, results, k, e);
      if i < k && specs[i].compensation.Some? then Compensation(i, true) in undone <==> Compensation(i, false) !in undone
      else Compensation(i, true) !in undone && Compensation(i, false) !in undone
  {
    BackwardHasLog(specs, results, k, e);
    CompensableIsReverseOrder(specs, k);
    hide UndoLog, Compensable;
    var undone, order := UndoLog(specs, results, k, e), Compensable(specs, k);
    if i in order {
      var j :| 0 <= j < |order| && order[j] == i;
      assert undone[j] == Compensation(i, true) || undone[j] == Compensation(i, false);
    }
  }

  lemma {:induction false} UnwoundFrom<W, R>(specs: seq<Spec<W, R>>, results: seq<R>, k: nat, e: Env<W>, n: nat)
    requires n < k <= |results| <= |specs|
    ensures Unwound(specs, results, k, e, n) ==
            Unwound(specs, results, k - 1, RunCompensation(specs[k - 1], k - 1, results[k - 1], e), n)
    decreases k - n
  {
    hide RunCompensation;
    if n < k - 1 {
      UnwoundFrom(specs, results, k, e, n + 1);
    } else {
      assert Unwound(specs, results, k, e, k) == e;
    }
  }

  /** The log tells of each step how its own compensation went. */
  lemma {:induction false} LogTellsStatus<W, R>(specs: seq<Spec<W, R>>, results: seq<R>, k: nat, e: Env<W>, i: nat)
    requires i < k <= |results| <= |specs|
    ensures UndoStatus(UndoLog(specs, results, k, e), i) == FinalStatus(specs, results, k, e, i)
    decreases k
  {
    hide *;
    var e1 := RunCompensation(specs[k - 1], k - 1, results[k - 1], e);
    var head, rest := Undoing(specs[k - 1], k - 1, results[k - 1], e), UndoLog(specs, results, k - 1, e1);
    LogStep(specs, results, k, e);
    FinalStatusFrom(specs, results, k, e, i);
    StatusInParts(head, rest, i);
    StatusOfOne(specs[k - 1], k - 1, results[k - 1], e, i);
    if i < k - 1 {
      LogTellsStatus(specs, results, k - 1, e1, i);
    }
  }

  lemma LogStep<W, R>(specs: seq<Spec<W, R>>, results: seq<R>, k: nat, e: Env<W>)
    requires 0 < k <= |results| <= |specs|
    ensures var rest := UndoLog(specs, results, k - 1, RunCompensation(specs[k - 1], k - 1, results[k - 1], e));
      && UndoLog(specs, results, k, e) == Undoing(specs[k - 1], k - 1, results[k - 1], e) + rest
      && UndoStatus(rest, k - 1) == Completed
  {
    hide RunCompensation, Undoing;
    UndoneOnce(specs, results, k - 1, RunCompensation(specs[k - 1], k - 1, results[k - 1], e), k - 1);
  }

  lemma FinalStatusFrom<W, R>(specs: seq<Spec<W, R>>, results: seq<R>, k: nat, e: Env<W>, i: nat)
    requires i < k <= |results| <= |specs|
    ensures FinalStatus(specs, results, k, e, i) ==
            if i == k - 1 then StatusAfter(specs[k - 1], results[k - 1], e)
            else FinalStatus(specs, results, k - 1, RunCompensation(specs[k - 1], k - 1, results[k - 1], e), i)
  {
    hide Unwound, RunCompensation;
    UnwoundStart(specs, results, k, e);
    if i < k - 1 {
      UnwoundFrom(specs, results, k, e, i + 1);
    }
  }

  lemma StatusInParts(head: seq<Entry>, rest: seq<Entry>, i: nat)
    ensures UndoStatus(head, i) == Completed ==> UndoStatus(head + rest, i) == UndoStatus(rest, i)
    ensures UndoStatus(rest, i) == Completed ==> UndoStatus(head + rest, i) == UndoStatus(head, i)
  {
    forall ok: bool
      ensures Compensation(i, ok) in head + rest <==> Compensation(i, ok) in head || Compensation(i, ok) in rest
    {
    }
  }

  lemma StatusOfOne<W, R>(s: Spec<W, R>, k: nat, r: R, e: Env<W>, i: nat)
    ensures UndoStatus(Undoing(s, k, r, e), i) == if i == k then StatusAfter(s, r, e) else Completed
  {
  }

  /**
   * A saga that ends COMPENSATED has in fact compensated every completed step that it could iff no
   * compensation raised: one that did leaves its step COMPENSATING, and nothing tries it again.
   */
  lemma CompensatedIsTrueIff<W, R>(specs: seq<Spec<W, R>>, results: seq<R>, k: nat, e: Env<W>)
    requires k <= |results| <= |specs|
    ensures var undone := UndoLog(specs, results, k, e);
      && (forall entry <- undone :: entry.Compensation? && entry.step < k && specs[entry.step].compensation.Some?)
      && ((forall i: nat :: i < k && specs[i].compensation.Some? ==> FinalStatus(specs, results, k, e, i) == Compensated) <==>
            forall entry <- undone :: entry != Compensation(entry.step, false))
  {
    BackwardHasLog(specs, results, k, e);
    CompensableIsReverseOrder(specs, k);
    hide UndoLog, Compensable, FinalStatus;
    var undone, order := UndoLog(specs, results, k, e), Compensable(specs, k);
    forall i: nat | i < k
      ensures specs[i].compensation.Some? ==> (Compensation(i, true) in undone <==> Compensation(i, false) !in undone)
      ensures FinalStatus(specs, results, k, e, i) == UndoStatus(undone, i)
    {
      UndoneOnce(specs, results, k, e, i);
      LogTellsStatus(specs, results, k, e, i);
    }
    forall entry <- undone
      ensures entry.Compensation? && entry.step < k && specs[entry.step].compensation.Some?
    {
      var j :| 0 <= j < |undone| && undone[j] == entry;
      assert order[j] in order;
    }
  }

  /** A first step that adds 1 and whose compensation raises, and a second that raises. */
  function StuckSpecs(): seq<Spec<int, ()>> {
    [Spec((_, w) => Returned(w + 1, ()), Some((_, _, w) => Raised(w)), 0), Spec((_, w) => Raised(w), None, 0)]
  }

  /** The failed saga keeps the effect of its first step. */
  lemma FailedCompensationLeavesEffect()
    ensures RunSaga(StuckSpecs(), [0, 0], Env(0, 0, [])).world == 1
    ensures var f := RunForward(StuckSpecs(), [0, 0], 2, Env(0, 0, []));
      && f.failed && UndoLog(StuckSpecs(), f.results, |f.results|, f.env) == [Compensation(0, false)]
      && FinalStatus(StuckSpecs(), f.results, |f.results|, f.env, 0) == Compensating
  {
    var specs, e := StuckSpecs(), Env(0, 0, []);
    var retries: seq<nat> := [0, 0];
    ForwardStart(specs, retries, e);
    ForwardStep(specs, retries, 0, e);
    ForwardStep(specs, retries, 1, e);
    hide RunForward;
    var f := RunForward(specs, retries, 2, e);
    assert f.results == [()] && f.env.world == 1;
    LogTellsStatus(specs, f.results, 1, f.env, 0);
    assert RunCompensation(specs[0], 0, (), f.env).world == 1;
    BackwardStep(specs, f.results, 0, f.env);
    BackwardDone(specs, f.results, RunCompensation(specs[0], 0, (), f.env));
  }

  /**
   * The log of a saga over fresh steps: each step below `k` fails at most its retries and then
   * succeeds; if step `k` fails it is attempted exactly maxRetries + 1 times (once if maxRetries
   * is negative), and then each compensation below `k` is run exactly once, in reverse order.
   */
  lemma SagaHasLog<W, R>(specs: seq<Spec<W, R>>, e: Env<W>)
    returns (failures: seq<nat>, forward: seq<Entry>, undone: seq<Entry>)
    ensures var zeros := seq(|specs|, _ => 0);
      var f := RunForward(specs, zeros, |specs|, e);
      && |failures| == |f.results| && ForwardShape(specs, zeros, failures, f.failed, forward)
      && RunSaga(specs, zeros, e).log == e.log + forward + undone
      && CompensatesInOrder(undone, if f.failed then Compensable(specs, |f.results|) else [])
      && (f.failed ==> undone == UndoLog(specs, f.results, |f.results|, f.env))
  {
    var zeros := seq(|specs|, _ => 0);
    var f := RunForward(specs, zeros, |specs|, e);
    failures, forward := ForwardHasLog(specs, zeros, |specs|, e);
    undone := [];
    if f.failed {
      BackwardHasLog(specs, f.results, |f.results|, f.env);
      undone := UndoLog(specs, f.results, |f.results|, f.env);
    }
  }

  /** Every compensable step below `k` occurs exactly once, later steps first, and no other. */
  lemma {:induction false} CompensableIsReverseOrder<W, R>(specs: seq<Spec<W, R>>, k: nat)
    requires k <= |specs|
    ensures var order := Compensable(specs, k);
      && (forall i: nat, j: nat :: i < j < |order| ==> order[i] > order[j])
      && (forall i: nat :: i in order <==> i < k && specs[i].compensation.Some?)
  {
    if k > 0 {
      CompensableIsReverseOrder(specs, k - 1);
      var rest := Compensable(specs, k - 1);
      assert forall j: nat :: j < |rest| ==> rest[j] in rest;
    }
  }

  function Slept(log: seq<Entry>): nat {
    if log == [] then 0 else (if log[0].Sleep? then log[0].seconds else 0) + Slept(log[1..])
  }

  lemma {:induction false} SleptOfStep(i: nat, retries: nat, failures: nat, ok: bool)
    ensures Slept(StepLog(i, retries, failures, ok)) == Pow2(retries + failures + 1) - Pow2(retries + 1)
    decreases failures
  {
    if failures > 0 {
      SleptOfStep(i, retries + 1, failures - 1, ok);
      var log := StepLog(i, retries, failures, ok);
      assert log[1..][1..] == StepLog(i, retries + 1, failures - 1, ok);
    }
  }

  /** A fresh step that exhausts m retries sleeps 2^(m+1) - 2 seconds in all. */
  lemma ExhaustedStepSleeps<W, R>(s: Spec<W, R>, i: nat, e: Env<W>)
    requires s.maxRetries >= 0 && e.log == [] && RunStep(s, i, 0, e).result.None?
    ensures Slept(RunStep(s, i, 0, e).env.log) == Pow2(s.maxRetries + 1) - 2
  {
    StepHasLog(s, i, 0, e);
    SleptOfStep(i, 0, s.maxRetries, false);
    assert [] + StepLog(i, 0, s.maxRetries, false) == StepLog(i, 0, s.maxRetries, false);
  }

  // ---------------------------------------------------------------------------------------------
  // The log accounts for the world
  // ---------------------------------------------------------------------------------------------

  /** Where a replay of a log stands: the world, the clock, what each step returned, and whether every
      entry so far was a call that could be made and went as the entry says. */
  datatype Replay<W, R> = Replay(world: W, clock: nat, results: map<nat, R>, agrees: bool)

  /** One entry: an attempt calls the step's action on the world as it is, unless the action returned
      before; a compensation is called on what the action returned; a sleep changes nothing. */
  function ReplayEntry<W, R>(specs: seq<Spec<W, R>>, r: Replay<W, R>, entry: Entry): Replay<W, R> {
    match entry
    case Sleep(_) => r
    case Attempt(i, ok) =>
      if i >= |specs| || i in r.results then r.(agrees := false)
      else
        var outcome := specs[i].action(r.clock, r.world);
        Replay(outcome.world, r.clock + 1,
               if outcome.Returned? then r.results[i := outcome.result] else r.results,
               r.agrees && ok == outcome.Returned?)
    case Compensation(i, ok) =>
      if i >= |specs| || i !in r.results || specs[i].compensation.None? then r.(agrees := false)
      else
        var outcome := specs[i].compensation.value(r.clock, r.results[i], r.world);
        Replay(outcome.world, r.clock + 1, r.results, r.agrees && ok == outcome.Returned?)
  }

  function ReplayLog<W, R>(specs: seq<Spec<W, R>>, start: Replay<W, R>, log: seq<Entry>): Replay<W, R> {
    if log == [] then start
    else ReplayEntry(specs, ReplayLog(specs, start, log[..|log| - 1]), log[|log| - 1])
  }

  /** The results of steps 0, 1, ... by their positions. */
  function ByStep<R>(results: seq<R>): map<nat, R> {
    map i: nat | i < |results| :: results[i]
  }

  /** Replaying what was logged from `base` on agrees, and leads from `start` to `e` and these results. */
  ghost predicate LeadsTo<W, R>(
      specs: seq<Spec<W, R>>, start: Replay<W, R>, base: seq<Entry>, e: Env<W>, results: map<nat, R>)
  {
    && |base| <= |e.log| && e.log[..|base|] == base
    && ReplayLog(specs, start, e.log[|base|..]) == Replay(e.world, e.clock, results, true)
  }

  lemma EntryLeadsOn<W, R>(
      specs: seq<Spec<W, R>>, start: Replay<W, R>, base: seq<Entry>, e: Env<W>, results: map<nat, R>,
      entry: Entry, after: Env<W>, resultsAfter: map<nat, R>)
    requires LeadsTo(specs, start, base, e, results) && after.log == e.log + [entry]
    requires ReplayEntry(specs, Replay(e.world, e.clock, results, true), entry)
             == Replay(after.world, after.clock, resultsAfter, true)
    ensures LeadsTo(specs, start, base, after, resultsAfter)
  {
    hide ReplayEntry;
    var log := e.log[|base|..];
    assert after.log[|base|..] == log + [entry];
    assert (log + [entry])[..|log|] == log;
  }

  lemma {:induction false} StepReplays<W, R>(
      specs: seq<Spec<W, R>>, start: Replay<W, R>, base: seq<Entry>, results: map<nat, R>, i: nat, retries: nat, e: Env<W>)
    requires i < |specs| && i !in results && LeadsTo(specs, start, base, e, results)
    ensures var run := RunStep(specs[i], i, retries, e);
      LeadsTo(specs, start, base, run.env, if run.result.Some? then results[i := run.result.value] else results)
    decreases Budget(specs[i].maxRetries, retries)
  {
    hide LeadsTo;
    match specs[i].action(e.clock, e.world)
    case Returned(w, r) =>
      EntryLeadsOn(specs, start, base, e, results, Attempt(i, true), Record(e, w, Attempt(i, true)), results[i := r]);
    case Raised(w) =>
      var e1 := Record(e, w, Attempt(i, false));
      EntryLeadsOn(specs, start, base, e, results, Attempt(i, false), e1, results);
      if retries < specs[i].maxRetries {
        EntryLeadsOn(specs, start, base, e1, results, Sleep(Pow2(retries + 1)), Backoff(e1, retries + 1), results);
        StepReplays(specs, start, base, results, i, retries + 1, Backoff(e1, retries + 1));
      }
  }

  lemma {:induction false} ForwardReplays<W, R>(specs: seq<Spec<W, R>>, retries: seq<nat>, n: nat, e: Env<W>)
    requires n <= |specs| == |retries|
    ensures var f := RunForward(specs, retries, n, e);
      LeadsTo(specs, Replay(e.world, e.clock, map[], true), e.log, f.env, ByStep(f.results))
  {
    hide RunStep, LeadsTo;
    var start := Replay(e.world, e.clock, map[], true);
    if n == 0 {
      NothingLogged(specs, start, e);
    } else {
      ForwardReplays(specs, retries, n - 1, e);
      var f := RunForward(specs, retries, n - 1, e);
      if !f.failed {
        StepReplays(specs, start, e.log, ByStep(f.results), n - 1, retries[n - 1], f.env);
        var run := RunStep(specs[n - 1], n - 1, retries[n - 1], f.env);
        if run.result.Some? {
          assert ByStep(f.results + [run.result.value]) == ByStep(f.results)[n - 1 := run.result.value];
        }
      }
    }
  }

  lemma NothingLogged<W, R>(specs: seq<Spec<W, R>>, start: Replay<W, R>, e: Env<W>)
    requires start == Replay(e.world, e.clock, map[], true)
    ensures LeadsTo(specs, start, e.log, e, ByStep([]))
  {
  }

  lemma {:induction false} BackwardReplays<W, R>(
      specs: seq<Spec<W, R>>, start: Replay<W, R>, base: seq<Entry>, results: seq<R>, k: nat, e: Env<W>)
    requires k <= |results| <= |specs| && LeadsTo(specs, start, base, e, ByStep(results))
    ensures LeadsTo(specs, start, base, RunBackward(specs, results, k, e), ByStep(results))
  {
    hide LeadsTo;
    if k > 0 {
      var s, r := specs[k - 1], results[k - 1];
      var after := RunCompensation(s, k - 1, r, e);
      if s.compensation.Some? {
        var entry := Compensation(k - 1, s.compensation.value(e.clock, r, e.world).Returned?);
        EntryLeadsOn(specs, start, base, e, ByStep(results), entry, after, ByStep(results));
      }
      BackwardReplays(specs, start, base, results, k - 1, after);
    }
  }

  /**
   * Whatever actions and compensations do, partial effects of failed ones included, the log accounts
   * for the whole run: making the calls it lists, one after the other and each on the world that the
   * one before left, leads to the very world and clock of the saga. Every call went as its entry says,
   * no action is called again once it returned, and each compensation is given what its action returned.
   */
  lemma LogReplays<W, R>(specs: seq<Spec<W, R>>, retries: seq<nat>, e: Env<W>)
    requires |specs| == |retries|
    ensures var after, f := RunSaga(specs, retries, e), RunForward(specs, retries, |specs|, e);
      && |e.log| <= |after.log| && after.log[..|e.log|] == e.log
      && ReplayLog(specs, Replay(e.world, e.clock, map[], true), after.log[|e.log|..])
         == Replay(after.world, after.clock, ByStep(f.results), true)
  {
    ForwardReplays(specs, retries, |specs|, e);
    var f := RunForward(specs, retries, |specs|, e);
    hide RunForward, RunBackward, ReplayLog;
    BackwardReplays(specs, Replay(e.world, e.clock, map[], true), e.log, f.results, |f.results|, f.env);
  }

  /** A step that adds 1 and raises, then adds 10 and returns, leaves 11 from 0. */
  lemma FailedAttemptsKeepEffects(s: Spec<int, ()>, i: nat)
    requires s.maxRetries == 1
    requires s.action(0, 0) == Raised(1) && s.action(1, 1) == Returned(11, ())
    ensures RunStep(s, i, 0, Env(0, 0, [])).env.world == 11
  {
    assert Budget(s.maxRetries, 0) == 1;
    var e1 := Record(Env(0, 0, []), 1, Attempt(i, false));
    assert RunStep(s, i, 1, Backoff(e1, 1)).env.world == 11;
  }

  // ---------------------------------------------------------------------------------------------
  // The saga objects
  // ---------------------------------------------------------------------------------------------

  class SagaStep<!W, !R> {
    const spec: Spec<W, R>
    var status: Status
    var retryCount: nat
    var result: Option<R>

    constructor (spec: Spec<W, R>)
      ensures this.spec == spec && status == Pending && retryCount == 0 && result == None
    {
      this.spec := spec;
      status, retryCount, result := Pending, 0, None;
    }

    /** Run the action; after an exception sleep and start over while retries are left. */
    method Execute(i: nat, e: Env<W>) returns (ok: bool, e': Env<W>)
      modifies this
      ensures var run := RunStep(spec, i, old(retryCount), e);
        && e' == run.env && retryCount == run.retries && ok == run.result.Some?
        && status == (if ok then Completed else Failed)
        && result == if ok then run.result else old(result)
      decreases Budget(spec.maxRetries, retryCount)
    {
      status := Executing;
      match spec.action(e.clock, e.world) {
        case Returned(w, r) =>
          result := Some(r);
          status := Completed;
          return true, Record(e, w, Attempt(i, true));
        case Raised(w) =>
          e' := Record(e, w, Attempt(i, false));
          if retryCount < spec.maxRetries {
            retryCount := retryCount + 1;
            e' := Backoff(e', retryCount);
            ok, e' := Execute(i, e');
            return;
          }
          status := Failed;
          return false, e';
      }
    }

    method Compensate(i: nat, e: Env<W>) returns (ok: bool, e': Env<W>)
      requires result.Some?
      modifies this`status
      ensures e' == RunCompensation(spec, i, result.value, e)
      ensures status == if spec.compensation.None? then old(status) else StatusAfter(spec, result.value, e)
      ensures ok == (StatusAfter(spec, result.value, e) != Compensating)
    {
      if spec.compensation.None? {
        return true, e;
      }
      status := Compensating;
      match spec.compensation.value(e.clock, result.value, e.world) {
        case Returned(w, _) =>
          status := Compensated;
          return true, Record(e, w, Compensation(i, true));
        case Raised(w) =>
          return false, Record(e, w, Compensation(i, false));
      }
    }
  }

  ghost function Specs<W, R>(steps: seq<SagaStep<W, R>>): (r: seq<Spec<W, R>>)
    ensures |r| == |steps|
  {
    seq(|steps|, i requires 0 <= i < |steps| => steps[i].spec)
  }

  ghost function RetryCounts<W, R>(steps: seq<SagaStep<W, R>>): (r: seq<nat>)
    reads steps
    ensures |r| == |steps|
  {
    seq(|steps|, i requires 0 <= i < |steps| reads steps => steps[i].retryCount)
  }

  class Saga<!W, !R> {
    var steps: seq<SagaStep<W, R>>
    var status: Status

    /** No step object occurs twice: `add_step` makes a new one each time. */
    ghost predicate Valid()
      reads this
    {
      forall i, j :: 0 <= i < j < |steps| ==> steps[i] != steps[j]
    }

    constructor ()
      ensures Valid() && steps == [] && status == Pending
    {
      steps, status := [], Pending;
    }

    method AddStep(spec: Spec<W, R>) returns (step: SagaStep<W, R>)
      requires Valid()
      modifies this`steps
      ensures Valid() && fresh(step) && steps == old(steps) + [step]
      ensures step.spec == spec && step.status == Pending && step.retryCount == 0
    {
      step := new SagaStep(spec);
      steps := steps + [step];
    }

    /** A finished saga is COMPLETED or COMPENSATED, never FAILED, even if a compensation failed. */
    method Execute(e: Env<W>) returns (ok: bool, e': Env<W>)
      requires Valid()
      modifies this`status, steps
      ensures e' == RunSaga(Specs(steps), old(RetryCounts(steps)), e)
      ensures status == if ok then Completed else Compensated
      ensures var f := RunForward(Specs(steps), old(RetryCounts(steps)), |steps|, e);
        && ok == !f.failed
        && (forall i: nat :: i < |f.retries| ==> steps[i].retryCount == f.retries[i])
        && (forall i: nat :: i < |f.results| ==> steps[i].result == Some(f.results[i]))
        && (forall i: nat :: i < |f.results| ==>
              steps[i].status == if ok then Completed else FinalStatus(Specs(steps), f.results, |f.results|, f.env, i))
        && (f.failed ==> steps[|f.results|].status == Failed)
        && (forall i: nat :: |f.retries| <= i < |steps| ==>
              steps[i].status == old(steps[i].status) && steps[i].retryCount == old(steps[i].retryCount))
    {
      hide RunForward, RunBackward;
      status := Executing;
      var k;
      ok, k, e' := ExecuteSteps(e);
      if !ok {
        status := Failed;
        e' := CompensateAll(k, e', RunForward(Specs(steps), old(RetryCounts(steps)), |steps|, e).results);
        return;
      }
      status := Completed;
    }

    /** The loop of `execute`: `k` steps complete before the end or the first failure. */
    method ExecuteSteps(e: Env<W>) returns (ok: bool, k: nat, e': Env<W>)
      requires Valid()
      modifies steps
      ensures var f := RunForward(Specs(steps), old(RetryCounts(steps)), |steps|, e);
        && e' == f.env && ok == !f.failed && k == |f.results|
        && (forall i: nat :: i < |f.retries| ==> steps[i].retryCount == f.retries[i])
        && (forall i: nat :: i < k ==> steps[i].result == Some(f.results[i]) && steps[i].status == Completed)
        && (f.failed ==> steps[k].status == Failed)
        && (forall i: nat :: |f.retries| <= i < |steps| ==>
              steps[i].status == old(steps[i].status) && steps[i].retryCount == old(steps[i].retryCount))
    {
      hide RunStep, RunForward;
      ghost var specs, counts := Specs(steps), RetryCounts(steps);
      ForwardStart(specs, counts, e);
      e', k := e, 0;
      while k < |steps|
        invariant k <= |steps|
        invariant var f := RunForward(specs, counts, k, e);
          && !f.failed && e' == f.env
          && forall i: nat :: i < k ==>
               && steps[i].retryCount == f.retries[i] && steps[i].result == Some(f.results[i]) && steps[i].status == Completed
        invariant forall i: nat :: k <= i < |steps| ==> steps[i].status == old(steps[i].status) && steps[i].retryCount == counts[i]
      {
        ForwardStep(specs, counts, k, e);
        ok, e' := steps[k].Execute(k, e');
        if !ok {
          ForwardStopped(specs, counts, k + 1, |steps|, e);
          return;
        }
        k := k + 1;
      }
      ok := true;
    }

    method CompensateAll(k: nat, e: Env<W>, ghost results: seq<R>) returns (e': Env<W>)
      requires Valid() && k == |results| <= |steps|
      requires forall i: nat :: i < k ==> steps[i].status == Completed && steps[i].result == Some(results[i])
      modifies this`status, set i | 0 <= i < k :: steps[i]`status
      ensures status == Compensated
      ensures e' == RunBackward(Specs(steps), results, k, e)
      ensures forall i: nat :: i < k ==> steps[i].status == FinalStatus(Specs(steps), results, k, e, i)
    {
      status := Compensating;
      e' := e;
      hide RunCompensation, RunBackward, FinalStatus, Unwound, StatusAfter;
      ghost var specs := Specs(steps);
      UnwoundStart(specs, results, k, e);
      var n := k;
      while n > 0
        invariant 0 <= n <= k
        invariant e' == Unwound(specs, results, k, e, n)
        invariant forall i: nat :: i < n ==> steps[i].status == Completed
        invariant forall i: nat :: n <= i < k ==>
                    steps[i].status == FinalStatus(specs, results, k, e, i)
      {
        n := n - 1;
        UnwoundStep(specs, results, k, e, n);
        var done;
        done, e' := steps[n].Compensate(n, e');
      }
      UnwindsBackward(specs, results, k, e, 0);
      BackwardDone(specs, results, e');
      status := Compensated;
    }
  }

  lemma UnwoundStart<W, R>(specs: seq<Spec<W, R>>, results: seq<R>, k: nat, e: Env<W>)
    requires k <= |results| <= |specs|
    ensures Unwound(specs, results, k, e, k) == e
  {
  }

  lemma UnwoundStep<W, R>(specs: seq<Spec<W, R>>, results: seq<R>, k: nat, e: Env<W>, n: nat)
    requires n < k <= |results| <= |specs|
    ensures Unwound(specs, results, k, e, n) == RunCompensation(specs[n], n, results[n], Unwound(specs, results, k, e, n + 1))
    ensures FinalStatus(specs, results, k, e, n) ==
            if specs[n].compensation.None? then Completed else StatusAfter(specs[n], results[n], Unwound(specs, results, k, e, n + 1))
  {
    hide RunCompensation;
  }

  lemma BackwardDone<W, R>(specs: seq<Spec<W, R>>, results: seq<R>, e: Env<W>)
    requires |results| <= |specs|
    ensures RunBackward(specs, results, 0, e) == e && UndoLog(specs, results, 0, e) == []
  {
  }

  lemma ForwardStart<W, R>(specs: seq<Spec<W, R>>, retries: seq<nat>, e: Env<W>)
    requires |specs| == |retries|
    ensures RunForward(specs, retries, 0, e) == Forward(e, [], [], false)
  {
  }

  lemma ForwardStep<W, R>(specs: seq<Spec<W, R>>, retries: seq<nat>, k: nat, e: Env<W>)
    requires k < |specs| == |retries| && !RunForward(specs, retries, k, e).failed
    ensures var f := RunForward(specs, retries, k, e);
      var run := RunStep(specs[k], k, retries[k], f.env);
      RunForward(specs, retries, k + 1, e)
      == if run.result.Some? then Forward(run.env, f.results + [run.result.value], f.retries + [run.retries], false)
         else Forward(run.env, f.results, f.retries + [run.retries], true)
  {
    hide RunStep;
  }

  lemma BackwardStep<W, R>(specs: seq<Spec<W, R>>, results: seq<R>, k: nat, e: Env<W>)
    requires k < |results| <= |specs|
    ensures var e1 := RunCompensation(specs[k], k, results[k], e);
      && RunBackward(specs, results, k + 1, e) == RunBackward(specs, results, k, e1)
      && UndoLog(specs, results, k + 1, e) == Undoing(specs[k], k, results[k], e) + UndoLog(specs, results, k, e1)
  {
  }

  lemma {:induction false} ForwardStopped<W, R>(specs: seq<Spec<W, R>>, retries: seq<nat>, n: nat, m: nat, e: Env<W>)
    requires n <= m <= |specs| == |retries| && RunForward(specs, retries, n, e).failed
    ensures RunForward(specs, retries, m, e) == RunForward(specs, retries, n, e)
  {
    if n < m {
      ForwardStopped(specs, retries, n, m - 1, e);
    }
  }

  class SagaOrchestrator<!W, !R> {
    var sagas: map<string, Saga<W, R>>

    /** Between calls no saga is FAILED: that status is overwritten before `execute` ends. */
    ghost predicate NoneFailed()
      reads this, sagas.Values
    {
      forall s <- sagas.Values :: s.status != Failed
    }

    constructor ()
      ensures NoneFailed() && sagas == map[]
    {
      sagas := map[];
    }

    method CreateSaga(id: string) returns (saga: Saga<W, R>)
      requires NoneFailed()
      modifies this
      ensures NoneFailed() && fresh(saga) && saga.Valid() && sagas == old(sagas)[id := saga]
    {
      saga := new Saga();
      sagas := sagas[id := saga];
    }

    method ExecuteSaga(saga: Saga<W, R>, e: Env<W>) returns (ok: bool, e': Env<W>)
      requires NoneFailed() && saga.Valid()
      modifies saga`status, saga.steps
      ensures NoneFailed()
      ensures e' == RunSaga(Specs(saga.steps), old(RetryCounts(saga.steps)), e)
      ensures ok == !RunForward(Specs(saga.steps), old(RetryCounts(saga.steps)), |saga.steps|, e).failed
      ensures saga.status == if ok then Completed else Compensated
    {
      ok, e' := saga.Execute(e);
    }

    /** So the list of failed sagas is empty although sagas fail. */
    method GetFailedSagas() returns (failed: set<Saga<W, R>>)
      requires NoneFailed()
      ensures failed == {}
    {
      failed := set s | s in sagas.Values && s.status == Failed;
    }
  }
}
