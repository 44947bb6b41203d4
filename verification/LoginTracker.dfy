/** The login attempt tracker: pruned state against full history, and interleaved logins. */
module Logins {
  const MAX_LOGIN_ATTEMPTS := 5
  const LOGIN_ATTEMPT_WINDOW := 900.0

  type Attempts = map<string, seq<real>>

  /** The attempts still inside the window at `now`, in order. */
  function Recent(ts: seq<real>, now: real): seq<real> {
    if ts == [] then []
    else
      var n := |ts| - 1;
      Recent(ts[..n], now) + if now - ts[n] < LOGIN_ATTEMPT_WINDOW then [ts[n]] else []
  }

  function Stored(attempts: Attempts, user: string): seq<real> {
    if user in attempts then attempts[user] else []
  }

  /** `check_limit` prunes the user's list and compares its length with the limit. */
  function Pruned(attempts: Attempts, user: string, now: real): Attempts {
    if user in attempts then attempts[user := Recent(attempts[user], now)] else attempts
  }

  predicate Limited(attempts: Attempts, user: string, now: real) {
    |Stored(Pruned(attempts, user, now), user)| >= MAX_LOGIN_ATTEMPTS
  }

  function Recorded(attempts: Attempts, user: string, now: real): Attempts {
    attempts[user := Stored(attempts, user) + [now]]
  }

  function Cleared(attempts: Attempts, user: string): Attempts {
    attempts - {user}
  }

  // ---------------------------------------------------------------------------------------------
  // Pruning loses nothing
  // ---------------------------------------------------------------------------------------------

  /** From time `t` on, both lists have the same recent attempts. */
  ghost predicate SameRecent(a: seq<real>, b: seq<real>, t: real) {
    forall now: real :: now >= t ==> Recent(a, now) == Recent(b, now)
  }

  lemma {:induction false} RecentTwice(ts: seq<real>, t: real, now: real)
    requires t <= now
    ensures Recent(Recent(ts, t), now) == Recent(ts, now)
  {
    if ts != [] {
      var n := |ts| - 1;
      RecentTwice(ts[..n], t, now);
      var kept := Recent(ts[..n], t);
      assert (kept + [ts[n]])[..|kept|] == kept;
      assert kept + [] == kept;
    }
  }

  lemma RecentOfAppend(ts: seq<real>, t: real, now: real)
    ensures Recent(ts + [t], now) == Recent(ts, now) + if now - t < LOGIN_ATTEMPT_WINDOW then [t] else []
  {
    assert (ts + [t])[..|ts|] == ts;
  }

  lemma PruningKeepsRecent(stored: seq<real>, full: seq<real>, t: real, now: real)
    requires SameRecent(stored, full, t) && t <= now
    ensures SameRecent(Recent(stored, now), full, now)
    ensures Recent(stored, now) == Recent(full, now)
  {
    forall later: real | later >= now
      ensures Recent(Recent(stored, now), later) == Recent(full, later)
    {
      RecentTwice(stored, now, later);
      assert Recent(stored, later) == Recent(full, later);
    }
    assert Recent(stored, now) == Recent(full, now);
  }

  lemma RecordingKeepsRecent(stored: seq<real>, full: seq<real>, t: real, now: real)
    requires SameRecent(stored, full, t) && t <= now
    ensures SameRecent(stored + [now], full + [now], now)
  {
    forall later: real | later >= now
      ensures Recent(stored + [now], later) == Recent(full + [now], later)
    {
      RecentOfAppend(stored, now, later);
      RecentOfAppend(full, now, later);
    }
  }

  // ---------------------------------------------------------------------------------------------
  // Interleaved logins and password changes
  // ---------------------------------------------------------------------------------------------

  /** One attempt to log in; every request has its own. */
  type LoginId = nat

  /** The steps of `login`: the limit check, then at some later time one of the outcomes. `Abandon`
      is an outcome that touches no counter: an inactive account or an internal error. `FailChange`
      is a password change with a wrong old password: it records a failure without any check. */
  datatype Event =
    | Check(login: LoginId, user: string)
    | Fail(login: LoginId, user: string)
    | Succeed(login: LoginId, user: string)
    | Abandon(login: LoginId, user: string)
    | FailChange(user: string)

  datatype Stamped = Stamped(now: real, event: Event)

  type Trace = seq<Stamped>

  datatype System = System(attempts: Attempts, pending: map<LoginId, string>, used: set<LoginId>)

  predicate Possible(s: System, e: Event) {
    if e.FailChange? then true
    else if e.Check? then e.login !in s.used
    else e.login in s.pending && s.pending[e.login] == e.user
  }

  function Step(s: System, t: Stamped): System {
    match t.event
    case Check(l, u) =>
      System(Pruned(s.attempts, u, t.now), if Limited(s.attempts, u, t.now) then s.pending else s.pending[l := u], s.used + {l})
    case Fail(l, u) => s.(attempts := Recorded(s.attempts, u, t.now), pending := s.pending - {l})
    case Succeed(l, u) => s.(attempts := Cleared(s.attempts, u), pending := s.pending - {l})
    case Abandon(l, u) => s.(pending := s.pending - {l})
    case FailChange(u) => s.(attempts := Recorded(s.attempts, u, t.now))
  }

  predicate Records(e: Event) {
    e.Fail? || e.FailChange?
  }

  function Run(tr: Trace): System {
    if tr == [] then System(map[], map[], {}) else Step(Run(tr[..|tr| - 1]), tr[|tr| - 1])
  }

  ghost predicate PossibleAt(tr: Trace, k: nat)
    requires k < |tr|
  {
    Possible(Run(tr[..k]), tr[k].event)
  }

  /** Every step is possible when it is taken, and the clock does not go backwards. */
  ghost predicate Legal(tr: Trace) {
    && (forall k: nat :: k < |tr| ==> PossibleAt(tr, k))
    && (forall j, k :: 0 <= j <= k < |tr| ==> tr[j].now <= tr[k].now)
  }

  /** Where in the trace a failure of `user` was recorded since the last clear. */
  function Failures(tr: Trace, user: string): (f: seq<nat>)
    ensures forall i: nat :: i < |f| ==> f[i] < |tr|
  {
    if tr == [] then []
    else
      var n := |tr| - 1;
      if tr[n].event.user != user then Failures(tr[..n], user)
      else if Records(tr[n].event) then Failures(tr[..n], user) + [n]
      else if tr[n].event.Succeed? then []
      else Failures(tr[..n], user)
  }

  /** The times of all those failures, pruned by nobody. */
  function FailureTimes(tr: Trace, user: string): seq<real> {
    if tr == [] then []
    else
      var n := |tr| - 1;
      if tr[n].event.user != user then FailureTimes(tr[..n], user)
      else if Records(tr[n].event) then FailureTimes(tr[..n], user) + [tr[n].now]
      else if tr[n].event.Succeed? then []
      else FailureTimes(tr[..n], user)
  }

  lemma LegalPrefix(tr: Trace, k: nat)
    requires Legal(tr) && k <= |tr|
    ensures Legal(tr[..k])
  {
    forall j: nat | j < k
      ensures PossibleAt(tr[..k], j)
    {
      assert PossibleAt(tr, j);
      assert tr[..k][..j] == tr[..j];
    }
  }

  lemma RunStep(tr: Trace, k: nat)
    requires k < |tr|
    ensures Run(tr[..k + 1]) == Step(Run(tr[..k]), tr[k])
  {
    assert tr[..k + 1][..k] == tr[..k];
  }

  lemma StepKeepsRecent(s: System, full: seq<real>, t0: real, t: Stamped, user: string)
    requires SameRecent(Stored(s.attempts, user), full, t0) && t0 <= t.now
    ensures var full' :=
        if t.event.user != user then full
        else if Records(t.event) then full + [t.now]
        else if t.event.Succeed? then []
        else full;
      SameRecent(Stored(Step(s, t).attempts, user), full', t.now)
  {
    hide Recent;
    var stored := Stored(s.attempts, user);
    PruningKeepsRecent(stored, full, t0, t.now);
    RecordingKeepsRecent(stored, full, t0, t.now);
    if t.event.Check? && t.event.user == user && user !in s.attempts {
      assert Stored(Step(s, t).attempts, user) == [];
    }
  }

  /** However checks, failures, password changes and clears interleave, the pruned list has the
      recent failures of the full history. */
  lemma {:induction false} PrunedRefinesFullHistory(tr: Trace, user: string, now: real)
    requires Legal(tr) && (tr == [] || tr[|tr| - 1].now <= now)
    ensures SameRecent(Stored(Run(tr).attempts, user), FailureTimes(tr, user), now)
  {
    if tr != [] {
      var n := |tr| - 1;
      LegalPrefix(tr, n);
      PrunedRefinesFullHistory(tr[..n], user, tr[n].now);
      StepKeepsRecent(Run(tr[..n]), FailureTimes(tr[..n], user), tr[n].now, tr[n], user);
      assert FailureTimes(tr[..n], user) + [] == FailureTimes(tr[..n], user);
      hide Recent, Legal, Step;
    }
  }

  /** `check_limit` answers as if it counted every failure since the last clear. */
  lemma CheckCountsFullHistory(tr: Trace, user: string, now: real)
    requires Legal(tr) && (tr == [] || tr[|tr| - 1].now <= now)
    ensures Limited(Run(tr).attempts, user, now) <==> |Recent(FailureTimes(tr, user), now)| >= MAX_LOGIN_ATTEMPTS
  {
    PrunedRefinesFullHistory(tr, user, now);
    PruningKeepsRecent(Stored(Run(tr).attempts, user), FailureTimes(tr, user), now, now);
  }

  // ---------------------------------------------------------------------------------------------
  // How many failures fit in a window
  // ---------------------------------------------------------------------------------------------

  ghost predicate FailedAt(tr: Trace, user: string, x: nat) {
    x < |tr| && Records(tr[x].event) && tr[x].event.user == user
  }

  lemma {:induction false} FailurePositions(tr: Trace, user: string)
    ensures forall i: nat :: i < |Failures(tr, user)| ==> FailedAt(tr, user, Failures(tr, user)[i])
    ensures forall i: nat, j: nat :: i < j < |Failures(tr, user)| ==> Failures(tr, user)[i] < Failures(tr, user)[j]
  {
    if tr != [] {
      var n := |tr| - 1;
      FailurePositions(tr[..n], user);
      var g := Failures(tr[..n], user);
      assert g + [] == g;
      forall i: nat | i < |g|
        ensures FailedAt(tr, user, g[i])
      {
        assert FailedAt(tr[..n], user, g[i]);
      }
    }
  }

  lemma FailuresInOrderOfTime(tr: Trace, user: string, i: nat, k: nat)
    requires Legal(tr) && i <= k < |Failures(tr, user)|
    ensures tr[Failures(tr, user)[i]].now <= tr[Failures(tr, user)[k]].now
  {
    FailurePositions(tr, user);
  }

  lemma {:induction false} FailureTimesAt(tr: Trace, user: string)
    ensures |FailureTimes(tr, user)| == |Failures(tr, user)|
    ensures forall i: nat :: i < |Failures(tr, user)| ==> FailureTimes(tr, user)[i] == tr[Failures(tr, user)[i]].now
  {
    if tr != [] {
      FailureTimesAt(tr[..|tr| - 1], user);
    }
  }

  /** The failures up to the `p`-th were already on record at any later point `c` of the trace,
      as no clear came in between. */
  lemma {:induction false} EarlierFailuresWereOnRecord(tr: Trace, user: string, p: nat, c: nat)
    requires p < |Failures(tr, user)| && Failures(tr, user)[p] < c <= |tr|
    ensures Failures(tr[..c], user) <= Failures(tr, user) && p < |Failures(tr[..c], user)|
  {
    FailurePositions(tr, user);
    if c == |tr| {
      assert tr[..c] == tr;
    } else {
      var n := |tr| - 1;
      FailurePositions(tr[..n], user);
      EarlierFailuresWereOnRecord(tr[..n], user, p, c);
      assert tr[..n][..c] == tr[..c];
    }
  }

  lemma {:induction false} RecentBlock(ts: seq<real>, i: nat, j: nat, now: real)
    requires i <= j <= |ts|
    requires forall k: nat :: i <= k < j ==> now - ts[k] < LOGIN_ATTEMPT_WINDOW
    ensures |Recent(ts, now)| >= j - i
  {
    if i < j {
      var n := |ts| - 1;
      RecentBlock(ts[..n], i, if j <= n then j else n, now);
    }
  }

  /** A login becomes pending by passing its check, and then keeps its user. */
  lemma PendingStep(tr: Trace, m: nat, l: LoginId)
    requires Legal(tr) && m < |tr| && l in Run(tr[..m + 1]).pending
    ensures var before, after := Run(tr[..m]), Run(tr[..m + 1]);
      if l in before.pending then before.pending[l] == after.pending[l]
      else && tr[m].event == Check(l, after.pending[l]) && l !in before.used
           && !Limited(before.attempts, tr[m].event.user, tr[m].now)
  {
    RunStep(tr, m);
    PendingIsUsed(tr, m);
    assert PossibleAt(tr, m);
    hide Run, Limited;
  }

  /** A login that is pending at `j` but was not at `e` passed its check in between. */
  lemma {:induction false} PendingWasChecked(tr: Trace, e: nat, j: nat, l: LoginId) returns (c: nat)
    requires Legal(tr) && e <= j <= |tr| && l !in Run(tr[..e]).pending && l in Run(tr[..j]).pending
    ensures e <= c < j && tr[c].event == Check(l, Run(tr[..j]).pending[l])
    ensures !Limited(Run(tr[..c]).attempts, tr[c].event.user, tr[c].now)
  {
    hide Run, Limited, Legal;
    PendingStep(tr, j - 1, l);
    if l in Run(tr[..j - 1]).pending {
      c := PendingWasChecked(tr, e, j - 1, l);
    } else {
      c := j - 1;
    }
  }

  /** A login that has ended never becomes pending again. */
  lemma {:induction false} EndedStaysEnded(tr: Trace, i: nat, j: nat, l: LoginId)
    requires Legal(tr) && i <= j <= |tr| && l in Run(tr[..i]).used && l !in Run(tr[..i]).pending
    ensures l in Run(tr[..j]).used && l !in Run(tr[..j]).pending
  {
    hide Run, Legal;
    if i < j {
      EndedStaysEnded(tr, i, j - 1, l);
      UsedStaysUsed(tr, j - 1, j, l);
      if l in Run(tr[..j]).pending {
        PendingStep(tr, j - 1, l);
      }
    }
  }

  lemma {:induction false} PendingIsUsed(tr: Trace, j: nat)
    requires j <= |tr|
    ensures forall l <- Run(tr[..j]).pending :: l in Run(tr[..j]).used
  {
    if j > 0 {
      PendingIsUsed(tr, j - 1);
      RunStep(tr, j - 1);
      hide Run;
    }
  }

  /** The logins of the given user that have passed the check and not ended. */
  function InProgress(s: System, user: string): set<LoginId> {
    set l | l in s.pending && s.pending[l] == user
  }

  /** If the failures i and q lie in one window, a login that failed at q was already in progress
      when failure p was recorded, the fifth or a later one of them: otherwise its check would have refused it. */
  lemma LateFailureWasInProgress(tr: Trace, user: string, i: nat, p: nat, q: nat)
    requires Legal(tr)
    requires i + 4 <= p <= q < |Failures(tr, user)| && tr[Failures(tr, user)[q]].event.Fail?
    requires tr[Failures(tr, user)[q]].now - tr[Failures(tr, user)[i]].now < LOGIN_ATTEMPT_WINDOW
    ensures var f := Failures(tr, user); tr[f[q]].event.login in InProgress(Run(tr[..f[p]]), user)
  {
    var f := Failures(tr, user);
    FailurePositions(tr, user);
    var e, j, l := f[p], f[q], tr[f[q]].event.login;
    assert FailedAt(tr, user, e);
    FailingLoginIsPending(tr, user, q);
    hide Run, Limited, Failures, Legal;
    if e < j {
      if l !in Run(tr[..e]).pending {
        FailStep(tr, e);
        var c := PendingWasChecked(tr, e, j, l);
        CheckAfterFiveIsLimited(tr, user, i, p, c);
      } else {
        SamePendingUser(tr, e, j, l);
      }
    }
  }

  lemma FailingLoginIsPending(tr: Trace, user: string, q: nat)
    requires Legal(tr) && q < |Failures(tr, user)| && tr[Failures(tr, user)[q]].event.Fail?
    ensures var j := Failures(tr, user)[q];
      var s, l := Run(tr[..j]), tr[j].event.login;
      l in s.pending && s.pending[l] == user && l in InProgress(s, user)
  {
    FailurePositions(tr, user);
    assert FailedAt(tr, user, Failures(tr, user)[q]) && PossibleAt(tr, Failures(tr, user)[q]);
    hide Run, Failures, Legal;
  }

  /** A failure step leaves nobody pending who was not. */
  lemma FailStep(tr: Trace, e: nat)
    requires e < |tr| && Records(tr[e].event)
    ensures Run(tr[..e + 1]).pending.Keys <= Run(tr[..e]).pending.Keys
  {
    RunStep(tr, e);
    hide Run;
  }

  lemma CheckAfterFiveIsLimited(tr: Trace, user: string, i: nat, p: nat, c: nat)
    requires Legal(tr) && c < |tr|
    requires var f := Failures(tr, user); i + 4 <= p < |f| && f[p] < c && tr[c].now - tr[f[i]].now < LOGIN_ATTEMPT_WINDOW
    ensures Limited(Run(tr[..c]).attempts, user, tr[c].now)
  {
    EarlierFailuresWereOnRecord(tr, user, p, c);
    FailureTimesAt(tr[..c], user);
    LegalPrefix(tr, c);
    hide Run, Limited, Recent, Failures, FailureTimes, Legal;
    forall k: nat | i <= k < i + 5
      ensures tr[c].now - FailureTimes(tr[..c], user)[k] < LOGIN_ATTEMPT_WINDOW
    {
      FailuresInOrderOfTime(tr, user, i, k);
      assert Failures(tr[..c], user)[k] == Failures(tr, user)[k];
    }
    ClockAt(tr, c);
    CheckCountsFullHistory(tr[..c], user, tr[c].now);
    RecentBlock(FailureTimes(tr[..c], user), i, i + 5, tr[c].now);
  }

  lemma ClockAt(tr: Trace, c: nat)
    requires Legal(tr) && c < |tr|
    ensures tr[..c] == [] || tr[..c][|tr[..c]| - 1].now <= tr[c].now
  {
  }

  /** While a login is pending its user does not change. */
  lemma {:induction false} SamePendingUser(tr: Trace, e: nat, j: nat, l: LoginId)
    requires Legal(tr) && e <= j <= |tr| && l in Run(tr[..e]).pending && l in Run(tr[..j]).pending
    ensures Run(tr[..e]).pending[l] == Run(tr[..j]).pending[l]
  {
    hide Run, Legal;
    if e < j {
      PendingIsUsed(tr, e);
      PendingStep(tr, j - 1, l);
      if l in Run(tr[..j - 1]).pending {
        SamePendingUser(tr, e, j - 1, l);
      } else {
        UsedStaysUsed(tr, e, j - 1, l);
      }
    }
  }

  lemma {:induction false} UsedStaysUsed(tr: Trace, e: nat, j: nat, l: LoginId)
    requires e <= j <= |tr| && l in Run(tr[..e]).used
    ensures l in Run(tr[..j]).used
  {
    if e < j {
      UsedStaysUsed(tr, e, j - 1, l);
      RunStep(tr, j - 1);
      hide Run;
    }
  }

  /** How many of the failures p to q - 1 were recorded by logins, and how many by password changes. */
  function LoginFailures(tr: Trace, user: string, p: nat, q: nat): (n: nat)
    requires p <= q <= |Failures(tr, user)|
    ensures n <= q - p
  {
    if p == q then 0 else LoginFailures(tr, user, p, q - 1) + if tr[Failures(tr, user)[q - 1]].event.Fail? then 1 else 0
  }

  function ChangeFailures(tr: Trace, user: string, p: nat, q: nat): nat
    requires p <= q <= |Failures(tr, user)|
  {
    if p == q then 0 else ChangeFailures(tr, user, p, q - 1) + if tr[Failures(tr, user)[q - 1]].event.FailChange? then 1 else 0
  }

  /** Nothing else records failures. */
  lemma {:induction false} FailuresAdd(tr: Trace, user: string, p: nat, q: nat)
    requires p <= q <= |Failures(tr, user)|
    ensures LoginFailures(tr, user, p, q) + ChangeFailures(tr, user, p, q) == q - p
  {
    if p < q {
      FailuresAdd(tr, user, p, q - 1);
      FailurePositions(tr, user);
      hide Failures;
      assert FailedAt(tr, user, Failures(tr, user)[q - 1]);
    }
  }

  /** The logins that record failures among p to q - 1. */
  function LoginsOf(tr: Trace, user: string, p: nat, q: nat): set<LoginId>
    requires p <= q <= |Failures(tr, user)|
  {
    set k | p <= k < q && tr[Failures(tr, user)[k]].event.Fail? :: tr[Failures(tr, user)[k]].event.login
  }

  /** A login fails at most once, so as many logins as failures of theirs. */
  lemma {:induction false} LoginsAreDistinct(tr: Trace, user: string, p: nat, q: nat)
    requires Legal(tr) && p <= q <= |Failures(tr, user)|
    ensures |LoginsOf(tr, user, p, q)| == LoginFailures(tr, user, p, q)
  {
    hide Failures, Legal;
    if p < q {
      LoginsAreDistinct(tr, user, p, q - 1);
      if tr[Failures(tr, user)[q - 1]].event.Fail? {
        var l := tr[Failures(tr, user)[q - 1]].event.login;
        assert LoginsOf(tr, user, p, q) == LoginsOf(tr, user, p, q - 1) + {l};
        forall k | p <= k < q - 1 && tr[Failures(tr, user)[k]].event.Fail?
          ensures tr[Failures(tr, user)[k]].event.login != l
        {
          FailsOnce(tr, user, k, q - 1);
        }
      } else {
        assert LoginsOf(tr, user, p, q) == LoginsOf(tr, user, p, q - 1);
      }
    }
  }

  lemma FailsOnce(tr: Trace, user: string, k: nat, q: nat)
    requires Legal(tr) && k < q < |Failures(tr, user)|
    requires tr[Failures(tr, user)[k]].event.Fail? && tr[Failures(tr, user)[q]].event.Fail?
    ensures tr[Failures(tr, user)[k]].event.login != tr[Failures(tr, user)[q]].event.login
  {
    FailurePositions(tr, user);
    var x, y := Failures(tr, user)[k], Failures(tr, user)[q];
    assert FailedAt(tr, user, x) && FailedAt(tr, user, y) && x < y;
    assert PossibleAt(tr, x) && PossibleAt(tr, y);
    PendingIsUsed(tr, x);
    RunStep(tr, x);
    hide Run, Failures, Legal;
    var l := tr[x].event.login;
    assert l in Run(tr[..x + 1]).used && l !in Run(tr[..x + 1]).pending;
    EndedStaysEnded(tr, x + 1, y, l);
  }

  lemma LoginsWithin(tr: Trace, user: string, p: nat, q: nat, open: set<LoginId>)
    requires p <= q <= |Failures(tr, user)|
    requires forall k: nat :: p <= k < q && tr[Failures(tr, user)[k]].event.Fail? ==>
               tr[Failures(tr, user)[k]].event.login in open
    ensures LoginsOf(tr, user, p, q) <= open
  {
    hide Failures;
  }

  lemma SubsetSize<T>(a: set<T>, b: set<T>)
    requires a <= b
    ensures |a| <= |b|
  {
    assert |b| == |a| + |b - a| by { assert b == a + (b - a); }
  }

  /** Of the failures from the fifth of a window on, no more were recorded by logins than were in
      progress when that fifth was recorded. */
  lemma LateLogins(tr: Trace, user: string, i: nat, p: nat, q: nat)
    requires Legal(tr) && i + 4 <= p <= q < |Failures(tr, user)|
    requires tr[Failures(tr, user)[q]].now - tr[Failures(tr, user)[i]].now < LOGIN_ATTEMPT_WINDOW
    ensures LoginFailures(tr, user, p, q + 1) <= |InProgress(Run(tr[..Failures(tr, user)[p]]), user)|
  {
    hide Run, Failures, Legal, LoginsOf, LoginFailures, InProgress;
    var f := Failures(tr, user);
    var late, open := LoginsOf(tr, user, p, q + 1), InProgress(Run(tr[..f[p]]), user);
    forall k: nat | p <= k < q + 1 && tr[f[k]].event.Fail?
      ensures tr[f[k]].event.login in open
    {
      FailuresInOrderOfTime(tr, user, k, q);
      LateFailureWasInProgress(tr, user, i, p, k);
    }
    LoginsAreDistinct(tr, user, p, q + 1);
    LoginsWithin(tr, user, p, q + 1, open);
    SubsetSize(late, open);
  }

  lemma {:induction false} LoginFailuresAdd(tr: Trace, user: string, i: nat, p: nat, q: nat)
    requires i <= p <= q <= |Failures(tr, user)|
    ensures LoginFailures(tr, user, i, q) == LoginFailures(tr, user, i, p) + LoginFailures(tr, user, p, q)
  {
    hide Failures;
    if p < q {
      LoginFailuresAdd(tr, user, i, p, q - 1);
    }
  }

  /** Where the fifth failure of a login from `i` on is recorded. */
  lemma {:induction false} FifthLoginFailure(tr: Trace, user: string, i: nat, q: nat) returns (p: nat)
    requires i <= q <= |Failures(tr, user)| && LoginFailures(tr, user, i, q) > 4
    ensures i + 4 <= p < q && LoginFailures(tr, user, i, p) == 4
  {
    hide Failures;
    if LoginFailures(tr, user, i, q - 1) > 4 {
      p := FifthLoginFailure(tr, user, i, q - 1);
    } else {
      p := q - 1;
    }
  }

  /**
   * If never more than `m` logins of a user are between check and outcome, then between clears any
   * window of 900 seconds holds at most 4 + m failures recorded by logins, whatever else records
   * failures; and at most 4 + m in all, but for those of password changes from the fifth on.
   */
  lemma FailuresPerWindow(tr: Trace, user: string, m: nat, i: nat, q: nat)
    requires Legal(tr) && i <= q < |Failures(tr, user)| == |FailureTimes(tr, user)|
    requires FailureTimes(tr, user)[q] - FailureTimes(tr, user)[i] < LOGIN_ATTEMPT_WINDOW
    requires forall k: nat :: k <= |tr| ==> |InProgress(Run(tr[..k]), user)| <= m
    ensures LoginFailures(tr, user, i, q + 1) <= 4 + m
    ensures i + 4 <= q ==> q + 1 - i <= 4 + m + ChangeFailures(tr, user, i + 4, q + 1)
  {
    FailureTimesAt(tr, user);
    hide Run, Failures, FailureTimes, Legal, LoginFailures, ChangeFailures, InProgress;
    if LoginFailures(tr, user, i, q + 1) > 4 {
      var p := FifthLoginFailure(tr, user, i, q + 1);
      LoginFailuresAdd(tr, user, i, p, q + 1);
      LateLogins(tr, user, i, p, q);
    }
    if i + 4 <= q {
      FailuresAdd(tr, user, i + 4, q + 1);
      LateLogins(tr, user, i, i + 4, q);
    }
  }

  /** `n` logins are checked before the first `k` of them fail, all at time 0. */
  function Burst(user: string, n: nat, k: nat): Trace {
    if k > 0 then Burst(user, n, k - 1) + [Stamped(0.0, Fail(k - 1, user))]
    else if n > 0 then Burst(user, n - 1, 0) + [Stamped(0.0, Check(n - 1, user))]
    else []
  }

  /** Logins k to n - 1 are pending, and `times` are all the failures. */
  ghost predicate AfterBurst(user: string, n: nat, k: nat, s: System, times: seq<real>) {
    && (forall l: LoginId :: l in s.pending <==> k <= l < n)
    && (forall l <- s.pending :: s.pending[l] == user)
    && (forall l <- s.used :: l < n)
    && (k == 0 ==> s.attempts == map[])
    && |times| == k && (forall i: nat :: i < k ==> times[i] == 0.0)
  }

  /** The bound on logins in progress is needed: with a suspension between check and outcome any
      number of logins checked together would all get to fail, within one instant. */
  lemma {:induction false} BurstEscapesLimit(user: string, n: nat, k: nat)
    requires k <= n
    ensures var tr := Burst(user, n, k);
      && Legal(tr) && AfterBurst(user, n, k, Run(tr), FailureTimes(tr, user)) && |FailureTimes(tr, user)| == k
      && (forall i :: 0 <= i < |tr| ==> tr[i].now == 0.0)
    decreases n, k
  {
    hide Run, Legal, Limited, AfterBurst, FailureTimes, Possible, Step;
    if k > 0 {
      BurstEscapesLimit(user, n, k - 1);
      var before, t := Burst(user, n, k - 1), Stamped(0.0, Fail(k - 1, user));
      BurstFails(user, n, k, Run(before), FailureTimes(before, user));
      LegalExtends(before, t);
      LastEvent(before, t, user);
    } else if n > 0 {
      BurstEscapesLimit(user, n - 1, 0);
      var before, t := Burst(user, n - 1, 0), Stamped(0.0, Check(n - 1, user));
      BurstChecks(user, n, Run(before));
      LegalExtends(before, t);
      LastEvent(before, t, user);
    } else {
      EmptyTrace(user);
    }
  }

  lemma EmptyTrace(user: string)
    ensures Legal([]) && AfterBurst(user, 0, 0, Run([]), FailureTimes([], user)) && FailureTimes([], user) == []
  {
  }

  lemma LastEvent(tr: Trace, t: Stamped, user: string)
    requires t.event.user == user && !t.event.Succeed?
    ensures FailureTimes(tr + [t], user) == FailureTimes(tr, user) + if Records(t.event) then [t.now] else []
  {
    assert (tr + [t])[..|tr|] == tr;
  }

  lemma BurstChecks(user: string, n: nat, s: System)
    requires n > 0 && AfterBurst(user, n - 1, 0, s, [])
    ensures var t := Stamped(0.0, Check(n - 1, user)); Possible(s, t.event) && AfterBurst(user, n, 0, Step(s, t), [])
  {
  }

  lemma BurstFails(user: string, n: nat, k: nat, s: System, times: seq<real>)
    requires 0 < k <= n && AfterBurst(user, n, k - 1, s, times)
    ensures var t := Stamped(0.0, Fail(k - 1, user)); Possible(s, t.event) && AfterBurst(user, n, k, Step(s, t), times + [0.0])
  {
    hide Limited, Recorded;
  }

  // ---------------------------------------------------------------------------------------------
  // The requests of one event loop
  // ---------------------------------------------------------------------------------------------

  /** What a login that passed its check comes to. `Other` touches no counter: an inactive account
      or an internal error. */
  datatype Outcome = NoSuchUser | WrongPassword | Other | Accepted

  /** Requests as they are served: between its check and its outcome a login is never suspended,
      since the lock it takes there is always free. A password change appears if its old password is wrong. */
  datatype Request =
    | Login(user: string, outcome: Outcome, checked: real, ended: real)
    | WrongOldPassword(user: string, at: real)

  function StartOf(r: Request): real {
    if r.Login? then r.checked else r.at
  }

  function EndOf(r: Request): real {
    if r.Login? then r.ended else r.at
  }

  /** Requests follow one another in time. */
  ghost predicate Clocked(rs: seq<Request>) {
    && (forall r <- rs :: StartOf(r) <= EndOf(r))
    && forall j, k :: 0 <= j < k < |rs| ==> EndOf(rs[j]) <= StartOf(rs[k])
  }

  function OutcomeEvent(l: LoginId, user: string, o: Outcome): Event {
    match o
    case NoSuchUser => Fail(l, user)
    case WrongPassword => Fail(l, user)
    case Other => Abandon(l, user)
    case Accepted => Succeed(l, user)
  }

  /** The steps of one request; a login refused by its check has no outcome. */
  function StepsOf(s: System, l: LoginId, r: Request): Trace {
    match r
    case Login(u, o, checked, ended) =>
      [Stamped(checked, Check(l, u))] + if Limited(s.attempts, u, checked) then [] else [Stamped(ended, OutcomeEvent(l, u, o))]
    case WrongOldPassword(u, at) => [Stamped(at, FailChange(u))]
  }

  /** The steps of all requests; request number n is login n. */
  function Served(rs: seq<Request>): Trace {
    if rs == [] then []
    else
      var n := |rs| - 1;
      Served(rs[..n]) + StepsOf(Run(Served(rs[..n])), n, rs[n])
  }

  lemma LegalExtends(tr: Trace, t: Stamped)
    requires Legal(tr) && Possible(Run(tr), t.event) && (tr == [] || tr[|tr| - 1].now <= t.now)
    ensures Legal(tr + [t])
    ensures Run(tr + [t]) == Step(Run(tr), t)
  {
    var longer := tr + [t];
    assert longer[..|tr|] == tr;
    forall k: nat | k < |longer|
      ensures PossibleAt(longer, k)
    {
      assert longer[..k] == tr[..k];
      assert tr[..|tr|] == tr;
      assert k < |tr| ==> PossibleAt(tr, k);
    }
  }

  /** At most one login is under way at any point of the trace. */
  ghost predicate OneAtATime(tr: Trace) {
    forall k: nat :: k <= |tr| ==> |Run(tr[..k]).pending| <= 1
  }

  /** What holds between two requests. */
  ghost predicate Between(tr: Trace, n: nat, now: real) {
    && Legal(tr) && OneAtATime(tr) && Run(tr).pending == map[]
    && (forall l <- Run(tr).used :: l < n)
    && (tr != [] ==> tr[|tr| - 1].now <= now)
  }

  lemma OneMore(tr: Trace, t: Stamped)
    requires OneAtATime(tr) && |Run(tr + [t]).pending| <= 1
    ensures OneAtATime(tr + [t])
  {
    hide Run;
    var longer := tr + [t];
    forall k: nat | k <= |longer|
      ensures |Run(longer[..k]).pending| <= 1
    {
      assert k <= |tr| ==> longer[..k] == tr[..k];
      assert k == |longer| ==> longer[..k] == longer;
    }
  }

  /** A login is pending between its two steps alone. */
  lemma LoginSteps(s: System, n: nat, r: Request)
    requires s.pending == map[] && (forall l <- s.used :: l < n) && r.Login?
    ensures var check, end := Stamped(r.checked, Check(n, r.user)), Stamped(r.ended, OutcomeEvent(n, r.user, r.outcome));
      var s1 := Step(s, check);
      && Possible(s, check.event) && s1.used == s.used + {n}
      && if Limited(s.attempts, r.user, r.checked) then s1.pending == map[]
         else && s1.pending == map[n := r.user] && Possible(s1, end.event)
              && Step(s1, end).pending == map[] && Step(s1, end).used == s1.used
  {
    hide Limited, Pruned, Recorded;
  }

  lemma NextLogin(tr: Trace, n: nat, now: real, r: Request)
    requires Between(tr, n, now) && r.Login? && now <= r.checked <= r.ended
    ensures Between(tr + StepsOf(Run(tr), n, r), n + 1, r.ended)
  {
    LoginSteps(Run(tr), n, r);
    BetweenFacts(tr, n, now);
    var check, end := Stamped(r.checked, Check(n, r.user)), Stamped(r.ended, OutcomeEvent(n, r.user, r.outcome));
    var checked := tr + [check];
    StepsOfLogin(Run(tr), n, r, tr);
    hide *;
    LegalExtends(tr, check);
    OneMore(tr, check);
    if Limited(Run(tr).attempts, r.user, r.checked) {
      BetweenFrom(tr, check, n + 1, r.ended);
    } else {
      LegalExtends(checked, end);
      OneMore(checked, end);
      BetweenFrom(checked, end, n + 1, r.ended);
    }
  }

  lemma BetweenFacts(tr: Trace, n: nat, now: real)
    requires Between(tr, n, now)
    ensures Legal(tr) && OneAtATime(tr) && Run(tr).pending == map[] && forall l <- Run(tr).used :: l < n
    ensures tr == [] || tr[|tr| - 1].now <= now
  {
  }

  lemma BetweenFrom(tr: Trace, t: Stamped, n: nat, now: real)
    requires Legal(tr + [t]) && OneAtATime(tr + [t]) && Run(tr + [t]).pending == map[]
    requires (forall l <- Run(tr + [t]).used :: l < n) && t.now <= now
    ensures Between(tr + [t], n, now)
  {
    hide Legal, OneAtATime, Run;
  }

  lemma StepsOfLogin(s: System, n: nat, r: Request, tr: Trace)
    requires r.Login?
    ensures var check, end := Stamped(r.checked, Check(n, r.user)), Stamped(r.ended, OutcomeEvent(n, r.user, r.outcome));
      tr + StepsOf(s, n, r) == if Limited(s.attempts, r.user, r.checked) then tr + [check] else (tr + [check]) + [end]
  {
    hide Limited;
  }

  lemma NextRequest(tr: Trace, n: nat, now: real, r: Request)
    requires Between(tr, n, now) && now <= StartOf(r) <= EndOf(r)
    ensures Between(tr + StepsOf(Run(tr), n, r), n + 1, EndOf(r))
  {
    hide Run, Legal, OneAtATime, Recent;
    if r.Login? {
      NextLogin(tr, n, now, r);
    } else {
      var t := Stamped(r.at, FailChange(r.user));
      assert tr + StepsOf(Run(tr), n, r) == tr + [t];
      LegalExtends(tr, t);
      OneMore(tr, t);
    }
  }

  lemma {:induction false} ServedIsLegal(rs: seq<Request>, now: real)
    requires Clocked(rs) && forall r <- rs :: EndOf(r) <= now
    ensures Between(Served(rs), |rs|, now)
  {
    hide Between, StepsOf;
    if rs == [] {
      NothingServed(now);
    } else {
      var n := |rs| - 1;
      ServedIsLegal(rs[..n], StartOf(rs[n]));
      NextRequest(Served(rs[..n]), n, StartOf(rs[n]), rs[n]);
      LaterIsBetween(Served(rs), |rs|, EndOf(rs[n]), now);
    }
  }

  lemma NothingServed(now: real)
    ensures Between([], 0, now)
  {
  }

  lemma LaterIsBetween(tr: Trace, n: nat, t: real, now: real)
    requires Between(tr, n, t) && t <= now
    ensures Between(tr, n, now)
  {
  }

  lemma FewInProgress(tr: Trace, user: string)
    requires OneAtATime(tr)
    ensures forall k: nat :: k <= |tr| ==> |InProgress(Run(tr[..k]), user)| <= 1
  {
    hide Run;
    forall k: nat | k <= |tr|
      ensures |InProgress(Run(tr[..k]), user)| <= 1
    {
      SubsetSize(InProgress(Run(tr[..k]), user), Run(tr[..k]).pending.Keys);
    }
  }

  lemma ServedOneByOne(rs: seq<Request>, user: string)
    requires Clocked(rs)
    ensures Legal(Served(rs)) && forall k: nat :: k <= |Served(rs)| ==> |InProgress(Run(Served(rs)[..k]), user)| <= 1
  {
    hide Run, Served, Legal, OneAtATime, InProgress;
    var now := if rs == [] then 0.0 else EndOf(rs[|rs| - 1]);
    forall r <- rs
      ensures EndOf(r) <= now
    {
      var j :| 0 <= j < |rs| && rs[j] == r;
      assert j < |rs| - 1 ==> EndOf(rs[j]) <= StartOf(rs[|rs| - 1]);
    }
    ServedIsLegal(rs, now);
    FewInProgress(Served(rs), user);
  }

  /**
   * Whatever requests arrive, between clears any window of 900 seconds holds at most 5 failures
   * recorded by logins; and at most 5 in all, but for those of password changes from the fifth on.
   */
  lemma LoginsStayWithinLimit(rs: seq<Request>, user: string, i: nat, q: nat)
    requires Clocked(rs) && i <= q < |Failures(Served(rs), user)| == |FailureTimes(Served(rs), user)|
    requires FailureTimes(Served(rs), user)[q] - FailureTimes(Served(rs), user)[i] < LOGIN_ATTEMPT_WINDOW
    ensures LoginFailures(Served(rs), user, i, q + 1) <= MAX_LOGIN_ATTEMPTS
    ensures i + 4 <= q ==> q + 1 - i <= MAX_LOGIN_ATTEMPTS + ChangeFailures(Served(rs), user, i + 4, q + 1)
  {
    ServedOneByOne(rs, user);
    hide Run, Served, Legal, Failures, FailureTimes, InProgress;
    FailuresPerWindow(Served(rs), user, 1, i, q);
  }

  // ---------------------------------------------------------------------------------------------
  // When the limit holds for all failures
  // ---------------------------------------------------------------------------------------------

  /** No six failures lie in one window. */
  ghost predicate WithinLimit(times: seq<real>) {
    forall i: nat, j: nat :: j == i + MAX_LOGIN_ATTEMPTS < |times| ==> times[j] - times[i] >= LOGIN_ATTEMPT_WINDOW
  }

  ghost predicate Sorted(times: seq<real>) {
    forall i, j :: 0 <= i <= j < |times| ==> times[i] <= times[j]
  }

  /** In a sorted list the recent attempts are the last ones. */
  lemma {:induction false} RecentAreLast(times: seq<real>, now: real, k: nat)
    requires Sorted(times) && 0 < k <= |times|
    ensures |Recent(times, now)| >= k <==> now - times[|times| - k] < LOGIN_ATTEMPT_WINDOW
  {
    var n := |times| - 1;
    if now - times[n] < LOGIN_ATTEMPT_WINDOW {
      if k > 1 {
        RecentAreLast(times[..n], now, k - 1);
      }
    } else {
      NoneRecent(times, now);
    }
  }

  lemma {:induction false} NoneRecent(times: seq<real>, now: real)
    requires forall i :: 0 <= i < |times| ==> now - times[i] >= LOGIN_ATTEMPT_WINDOW
    ensures Recent(times, now) == []
  {
    if times != [] {
      NoneRecent(times[..|times| - 1], now);
    }
  }

  lemma {:induction false} RecentIsShorter(times: seq<real>, now: real)
    ensures |Recent(times, now)| <= |times|
  {
    if times != [] {
      RecentIsShorter(times[..|times| - 1], now);
    }
  }

  /** One more failure stays within the limit iff fewer than five lie in its window. */
  lemma OneMoreFailure(times: seq<real>, now: real)
    requires Sorted(times) && WithinLimit(times)
    ensures WithinLimit(times + [now]) <==> |Recent(times, now)| < MAX_LOGIN_ATTEMPTS
  {
    hide Recent;
    var n := |times|;
    RecentIsShorter(times, now);
    if n >= MAX_LOGIN_ATTEMPTS {
      RecentAreLast(times, now, MAX_LOGIN_ATTEMPTS);
      assert (times + [now])[n] - (times + [now])[n - 5] == now - times[n - 5];
    }
  }

  /** The failures on record after the first `n` requests. */
  function TimesAfter(rs: seq<Request>, user: string, n: nat): seq<real>
    requires n <= |rs|
  {
    FailureTimes(Served(rs[..n]), user)
  }

  /** Request `k` is a wrong old password of a user whom `check_limit` would refuse at that moment. */
  ghost predicate PastLimit(rs: seq<Request>, user: string, k: nat)
    requires k < |rs|
  {
    rs[k].WrongOldPassword? && rs[k].user == user && Limited(Run(Served(rs[..k])).attempts, user, rs[k].at)
  }

  lemma {:induction false} TimesAreSorted(tr: Trace, user: string)
    requires Legal(tr)
    ensures Sorted(FailureTimes(tr, user))
  {
    FailureTimesAt(tr, user);
    hide Failures, FailureTimes, Legal;
    forall i, j | 0 <= i <= j < |FailureTimes(tr, user)|
      ensures FailureTimes(tr, user)[i] <= FailureTimes(tr, user)[j]
    {
      FailuresInOrderOfTime(tr, user, i, j);
    }
  }

  /** What a request does to the failures on record: a password change adds one, a login only while
      fewer than five lie in the window of its check. */
  lemma RequestTimes(tr: Trace, n: nat, r: Request, user: string)
    ensures var times, after := FailureTimes(tr, user), FailureTimes(tr + StepsOf(Run(tr), n, r), user);
      if r.user != user then after == times
      else if r.WrongOldPassword? then after == times + [r.at]
      else after == times || after == [] || (after == times + [r.ended] && !Limited(Run(tr).attempts, user, r.checked))
  {
    hide Run, Limited, FailureTimes;
    if r.WrongOldPassword? {
      TimesAppend(tr, Stamped(r.at, FailChange(r.user)), user);
    } else {
      var check, end := Stamped(r.checked, Check(n, r.user)), Stamped(r.ended, OutcomeEvent(n, r.user, r.outcome));
      StepsOfLogin(Run(tr), n, r, tr);
      TimesAppend(tr, check, user);
      TimesAppend(tr + [check], end, user);
    }
  }

  lemma TimesAppend(tr: Trace, t: Stamped, user: string)
    ensures FailureTimes(tr + [t], user) ==
            if t.event.user != user then FailureTimes(tr, user)
            else if Records(t.event) then FailureTimes(tr, user) + [t.now]
            else if t.event.Succeed? then []
            else FailureTimes(tr, user)
  {
    assert (tr + [t])[..|tr|] == tr;
  }

  lemma {:induction false} RecentShrinks(times: seq<real>, now: real, later: real)
    requires now <= later
    ensures |Recent(times, later)| <= |Recent(times, now)|
  {
    if times != [] {
      RecentShrinks(times[..|times| - 1], now, later);
    }
  }

  lemma LimitStep(times: seq<real>, after: seq<real>, limited: bool, r: Request, user: string)
    requires Sorted(times) && WithinLimit(times) && StartOf(r) <= EndOf(r)
    requires limited <==> r.user == user && |Recent(times, StartOf(r))| >= MAX_LOGIN_ATTEMPTS
    requires if r.user != user then after == times
             else if r.WrongOldPassword? then after == times + [r.at]
             else after == times || after == [] || (after == times + [r.ended] && !limited)
    ensures WithinLimit(after) <==> !(r.WrongOldPassword? && limited)
  {
    hide Recent, Sorted, WithinLimit;
    NoneOnRecord();
    if r.user == user {
      OneMoreFailure(times, EndOf(r));
      RecentShrinks(times, StartOf(r), EndOf(r));
    }
  }

  lemma NoneOnRecord()
    ensures WithinLimit([])
  {
  }

  /** A request keeps the limit unless it is a wrong old password past it. */
  lemma RequestKeepsLimit(rs: seq<Request>, user: string, n: nat)
    requires Clocked(rs) && n < |rs| && WithinLimit(TimesAfter(rs, user, n))
    ensures WithinLimit(TimesAfter(rs, user, n + 1)) <==> !PastLimit(rs, user, n)
  {
    var past, r := rs[..n], rs[n];
    var tr := Served(past);
    assert rs[..n + 1][..n] == past;
    assert Served(rs[..n + 1]) == tr + StepsOf(Run(tr), n, r);
    assert r in rs && forall p <- past :: EndOf(p) <= StartOf(r);
    ServedIsLegal(past, StartOf(r));
    hide Run, Served, Legal, OneAtATime, Limited, StepsOf, WithinLimit, Recent, FailureTimes;
    RequestTimes(tr, n, r, user);
    TimesAreSorted(tr, user);
    CheckCountsFullHistory(tr, user, StartOf(r));
    var limited := r.user == user && Limited(Run(tr).attempts, user, StartOf(r));
    LimitStep(FailureTimes(tr, user), TimesAfter(rs, user, n + 1), limited, r, user);
  }

  /**
   * The limit of five failures per window holds for all failures, at every moment of every run of
   * requests, iff no password change fails while `check_limit` would refuse its user.
   */
  lemma {:induction false} LimitHoldsIff(rs: seq<Request>, user: string)
    requires Clocked(rs)
    ensures (forall n: nat :: n <= |rs| ==> WithinLimit(TimesAfter(rs, user, n))) <==>
            forall k: nat :: k < |rs| ==> !PastLimit(rs, user, k)
  {
    hide WithinLimit, TimesAfter, PastLimit, Clocked;
    if forall k: nat :: k < |rs| ==> !PastLimit(rs, user, k) {
      forall n: nat | n <= |rs|
        ensures WithinLimit(TimesAfter(rs, user, n))
      {
        StaysWithinLimit(rs, user, n);
      }
    } else {
      var k: nat :| k < |rs| && PastLimit(rs, user, k);
      if WithinLimit(TimesAfter(rs, user, k)) {
        RequestKeepsLimit(rs, user, k);
      }
    }
  }

  lemma {:induction false} StaysWithinLimit(rs: seq<Request>, user: string, n: nat)
    requires Clocked(rs) && n <= |rs| && forall k: nat :: k < |rs| ==> !PastLimit(rs, user, k)
    ensures WithinLimit(TimesAfter(rs, user, n))
  {
    hide WithinLimit, PastLimit, Clocked;
    if n > 0 {
      StaysWithinLimit(rs, user, n - 1);
      RequestKeepsLimit(rs, user, n - 1);
    } else {
      assert rs[..0] == [];
      NoneOnRecord();
    }
  }

  /** `n` wrong old passwords at one moment. */
  function Mistyped(user: string, n: nat): seq<Request> {
    if n == 0 then [] else Mistyped(user, n - 1) + [WrongOldPassword(user, 0.0)]
  }

  /** They are all recorded, although no login is ever under way: from the sixth on they break the limit. */
  lemma {:induction false} PasswordChangesEscapeLimit(user: string, n: nat)
    ensures Clocked(Mistyped(user, n)) && |Mistyped(user, n)| == n
    ensures forall r <- Mistyped(user, n) :: r == WrongOldPassword(user, 0.0)
    ensures var times := FailureTimes(Served(Mistyped(user, n)), user);
      && |times| == n && (forall t <- times :: t == 0.0)
      && (n > MAX_LOGIN_ATTEMPTS ==> !WithinLimit(times))
  {
    hide Served, FailureTimes, WithinLimit;
    if n == 0 {
      NothingRecorded(user);
      assert Mistyped(user, n) == [];
    } else {
      PasswordChangesEscapeLimit(user, n - 1);
      ServedOneMore(Mistyped(user, n - 1), user, 0.0);
      SameMoment(Mistyped(user, n), WrongOldPassword(user, 0.0));
      assert Mistyped(user, n) == Mistyped(user, n - 1) + [WrongOldPassword(user, 0.0)];
    }
    SixAtOnce(FailureTimes(Served(Mistyped(user, n)), user));
  }

  lemma SameMoment(rs: seq<Request>, r: Request)
    requires r.WrongOldPassword? && forall x <- rs :: x == r
    ensures Clocked(rs)
  {
  }

  lemma NothingRecorded(user: string)
    ensures FailureTimes(Served([]), user) == []
  {
  }

  lemma ServedOneMore(rs: seq<Request>, user: string, at: real)
    ensures FailureTimes(Served(rs + [WrongOldPassword(user, at)]), user) == FailureTimes(Served(rs), user) + [at]
  {
    hide Run, FailureTimes;
    var longer := rs + [WrongOldPassword(user, at)];
    assert longer[..|rs|] == rs;
    TimesAppend(Served(rs), Stamped(at, FailChange(user)), user);
  }

  lemma SixAtOnce(times: seq<real>)
    requires forall t <- times :: t == 0.0
    ensures |times| > MAX_LOGIN_ATTEMPTS ==> !WithinLimit(times)
  {
    if |times| > MAX_LOGIN_ATTEMPTS {
      assert times[5] in times && times[0] in times;
      assert times[5] - times[0] == 0.0;
    }
  }

  // ---------------------------------------------------------------------------------------------
  // The tracker object
  // ---------------------------------------------------------------------------------------------

  class LoginAttemptTracker {
    var attempts: Attempts
    /** Every failure of each user since its last clear, and a time no earlier than any call so far. */
    ghost var history: Attempts
    ghost var clock: real

    ghost predicate Valid()
      reads this
    {
      forall user: string :: SameRecent(Stored(attempts, user), Stored(history, user), clock)
    }

    constructor (ghost now: real)
      ensures Valid() && history == map[] && clock == now
    {
      attempts, history, clock := map[], map[], now;
    }

    method CheckLimit(username: string, now: real) returns (limited: bool)
      requires Valid() && clock <= now
      modifies this
      ensures Valid() && clock == now && history == old(history)
      ensures limited <==> |Recent(Stored(history, username), now)| >= MAX_LOGIN_ATTEMPTS
      ensures limited <==> Limited(old(attempts), username, now)
      ensures attempts == Pruned(old(attempts), username, now)
    {
      assert Recent([], now) == [];
      hide Recent;
      PruningKeepsRecent(Stored(attempts, username), Stored(history, username), clock, now);
      if username in attempts {
        attempts := attempts[username := Recent(attempts[username], now)];
      }
      clock := now;
      if username !in attempts {
        return false;
      }
      return |attempts[username]| >= MAX_LOGIN_ATTEMPTS;
    }

    method RecordAttempt(username: string, now: real)
      requires Valid() && clock <= now
      modifies this
      ensures Valid() && clock == now && history == Recorded(old(history), username, now)
      ensures attempts == Recorded(old(attempts), username, now)
    {
      hide Recent;
      RecordingKeepsRecent(Stored(attempts, username), Stored(history, username), clock, now);
      if username !in attempts {
        attempts := attempts[username := []];
      }
      attempts := attempts[username := attempts[username] + [now]];
      history := Recorded(history, username, now);
      clock := now;
      forall user: string
        ensures SameRecent(Stored(attempts, user), Stored(history, user), now)
      {
        assert user != username ==> SameRecent(Stored(old(attempts), user), Stored(old(history), user), old(clock));
      }
    }

    method ClearAttempts(username: string)
      requires Valid()
      modifies this
      ensures Valid() && clock == old(clock) && history == Cleared(old(history), username)
      ensures attempts == Cleared(old(attempts), username)
    {
      hide Recent;
      if username in attempts {
        attempts := attempts - {username};
      }
      history := Cleared(history, username);
      forall user: string
        ensures SameRecent(Stored(attempts, user), Stored(history, user), clock)
      {
        assert user != username ==> SameRecent(Stored(old(attempts), user), Stored(old(history), user), clock);
      }
    }
  }

  // ---------------------------------------------------------------------------------------------
  // The handlers
  // ---------------------------------------------------------------------------------------------

  datatype LoginResult = RateLimited | InvalidCredentials | Refused | Granted

  /** The attempts after one request. */
  function Handled(attempts: Attempts, r: Request): Attempts {
    match r
    case Login(u, o, checked, ended) =>
      var pruned := Pruned(attempts, u, checked);
      if Limited(attempts, u, checked) || o.Other? then pruned
      else if o.Accepted? then Cleared(pruned, u)
      else Recorded(pruned, u, ended)
    case WrongOldPassword(u, at) => Recorded(attempts, u, at)
  }

  function HandledAll(rs: seq<Request>): Attempts {
    if rs == [] then map[] else Handled(HandledAll(rs[..|rs| - 1]), rs[|rs| - 1])
  }

  /** The steps of a request together have the effect of its handler. */
  lemma StepsAreHandled(tr: Trace, n: nat, r: Request)
    ensures Run(tr + StepsOf(Run(tr), n, r)).attempts == Handled(Run(tr).attempts, r)
  {
    hide Run, Limited, Recent;
    if r.Login? {
      var check, end := Stamped(r.checked, Check(n, r.user)), Stamped(r.ended, OutcomeEvent(n, r.user, r.outcome));
      StepsOfLogin(Run(tr), n, r, tr);
      RunAppend(tr, check);
      RunAppend(tr + [check], end);
    } else {
      RunAppend(tr, Stamped(r.at, FailChange(r.user)));
    }
  }

  /** So the theorems above about served requests are about what the handlers leave in the tracker. */
  lemma {:induction false} ServedIsHandled(rs: seq<Request>)
    ensures Run(Served(rs)).attempts == HandledAll(rs)
  {
    hide Run, Handled, StepsOf;
    if rs == [] {
      NothingRun();
    } else {
      var n := |rs| - 1;
      ServedIsHandled(rs[..n]);
      StepsAreHandled(Served(rs[..n]), n, rs[n]);
    }
  }

  lemma NothingRun()
    ensures Run([]) == System(map[], map[], {})
  {
  }

  lemma RunAppend(tr: Trace, t: Stamped)
    ensures Run(tr + [t]) == Step(Run(tr), t)
  {
    assert (tr + [t])[..|tr|] == tr;
  }

  class AuthService {
    const tracker: LoginAttemptTracker

    constructor (tracker: LoginAttemptTracker)
      ensures this.tracker == tracker
    {
      this.tracker := tracker;
    }

    /** `outcome` is what the user table and the password check say; `checked` and `ended` are the clock. */
    method Login(username: string, outcome: Outcome, checked: real, ended: real) returns (r: LoginResult)
      requires tracker.Valid() && tracker.clock <= checked <= ended
      modifies tracker
      ensures tracker.Valid() && tracker.clock <= ended
      ensures tracker.attempts == Handled(old(tracker.attempts), Request.Login(username, outcome, checked, ended))
      ensures r == if |Recent(Stored(old(tracker.history), username), checked)| >= MAX_LOGIN_ATTEMPTS then RateLimited
                   else match outcome
                     case NoSuchUser => InvalidCredentials
                     case WrongPassword => InvalidCredentials
                     case Other => Refused
                     case Accepted => Granted
    {
      hide Recent;
      ghost var before := tracker.attempts;
      var limited := tracker.CheckLimit(username, checked);
      if limited {
        return RateLimited;
      }
      if outcome == NoSuchUser {
        tracker.RecordAttempt(username, ended);
        return InvalidCredentials;
      }
      if outcome == WrongPassword {
        tracker.RecordAttempt(username, ended);
        return InvalidCredentials;
      }
      if outcome == Other {
        return Refused;
      }
      tracker.ClearAttempts(username);
      return Granted;
    }

    /** A password change records a wrong old password without a check, and touches no count otherwise. */
    method ChangePassword(username: string, oldPasswordRight: bool, now: real) returns (changed: bool)
      requires tracker.Valid() && tracker.clock <= now
      modifies tracker
      ensures tracker.Valid() && tracker.clock <= now && changed == oldPasswordRight
      ensures tracker.attempts == if oldPasswordRight then old(tracker.attempts)
                                  else Handled(old(tracker.attempts), WrongOldPassword(username, now))
    {
      if !oldPasswordRight {
        tracker.RecordAttempt(username, now);
        return false;
      }
      return true;
    }
  }
}
