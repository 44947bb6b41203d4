/** The token-bucket rate limiter: one lazily refilled, capped number per client. */
module RateLimiting {
  /** The bucket size and the refill in tokens per second. */
  datatype Limits = Limits(capacity: real, rate: real)

  ghost predicate Usable(l: Limits) {
    l.capacity >= 1.0 && l.rate > 0.0
  }

  /** `rate_limit_requests` over `rate_limit_period`, both raised to at least 1. */
  function FromSettings(requests: int, period: int): (l: Limits)
    ensures Usable(l)
  {
    var capacity := (if requests < 1 then 1 else requests) as real;
    Limits(capacity, capacity / (if period < 1 then 1 else period) as real)
  }

  datatype Bucket = Bucket(tokens: real, updated: real)

  /** One call of the limiter, by one client at one instant. */
  datatype Request = Request(client: string, now: real)

  type History = seq<Request>

  ghost predicate Chronological(h: History) {
    forall i, j :: 0 <= i <= j < |h| ==> h[i].now <= h[j].now
  }

  function Min(a: real, b: real): real {
    if a <= b then a else b
  }

  /** Tokens refilled over `elapsed` seconds. */
  function Gain(l: Limits, elapsed: real): real {
    elapsed * l.rate
  }

  function Refill(l: Limits, b: Bucket, now: real): Bucket {
    Bucket(Min(l.capacity, b.tokens + Gain(l, now - b.updated)), now)
  }

  /** The bucket the decision is made on: created full on first sight, then refilled. */
  function Present(l: Limits, buckets: map<string, Bucket>, q: Request): Bucket {
    var stored := if q.client in buckets then buckets[q.client] else Bucket(l.capacity, q.now);
    Refill(l, stored, q.now)
  }

  function Consume(b: Bucket): Bucket {
    if b.tokens >= 1.0 then b.(tokens := b.tokens - 1.0) else b
  }

  function Apply(l: Limits, buckets: map<string, Bucket>, q: Request): map<string, Bucket> {
    buckets[q.client := Consume(Present(l, buckets, q))]
  }

  /** The bucket dictionary after a whole history of calls, by any number of clients. */
  function After(l: Limits, h: History): map<string, Bucket> {
    if h == [] then map[] else Apply(l, After(l, h[..|h| - 1]), h[|h| - 1])
  }

  /** The tokens on hand when call `k` is decided. */
  function Level(l: Limits, h: History, k: nat): real
    requires k < |h|
  {
    Present(l, After(l, h[..k]), h[k]).tokens
  }

  predicate Admitted(l: Limits, h: History, k: nat)
    requires k < |h|
  {
    Level(l, h, k) >= 1.0
  }

  /** How many calls of `client` among `h[j..k]` were admitted. */
  function Admissions(l: Limits, h: History, client: string, j: nat, k: nat): nat
    requires j <= k <= |h|
  {
    if j == k then 0
    else Admissions(l, h, client, j, k - 1)
         + (if h[k - 1].client == client && Admitted(l, h, k - 1) then 1 else 0)
  }

  /** What the window that opens at call `j` still grants its client at time `now`. */
  function Headroom(l: Limits, h: History, client: string, j: nat, k: nat, now: real): real
    requires j <= k <= |h| && j < |h|
  {
    l.capacity + Gain(l, now - h[j].now) - Admissions(l, h, client, j, k) as real
  }

  /** The client's own calls among the first `n`. */
  ghost predicate Seen(h: History, client: string, j: int, n: nat)
    requires n <= |h|
  {
    0 <= j < n && h[j].client == client
  }

  /** Over every window of the past, one more admission stays within capacity plus refill. */
  ghost predicate EveryWindowHasRoom(l: Limits, h: History, k: nat)
    requires k < |h|
  {
    forall j: nat :: j <= k && h[j].client == h[k].client ==>
      Headroom(l, h, h[k].client, j, k, h[k].now) >= 1.0
  }

  // ---------------------------------------------------------------------------------------------
  // The stored number is the tightest window
  // ---------------------------------------------------------------------------------------------

  lemma AfterStep(l: Limits, h: History, n: nat)
    requires n < |h|
    ensures After(l, h[..n + 1]) == Apply(l, After(l, h[..n]), h[n])
  {
    assert h[..n + 1][..n] == h[..n];
  }

  /** The window that limits `client` after `n` calls, or -1 before its first call. */
  ghost function Binding(l: Limits, h: History, client: string, n: nat): int
    requires n <= |h|
  {
    if n == 0 then -1
    else
      var earlier := Binding(l, h, client, n - 1);
      if h[n - 1].client != client then earlier
      else if earlier < 0 || Level(l, h, n - 1) == l.capacity then n - 1
      else earlier
  }

  /** The bucket stored for `client` after `n` calls lies below every window's headroom and meets one. */
  ghost predicate Tightest(l: Limits, h: History, client: string, n: nat, b: Bucket)
    requires n <= |h|
  {
    && Seen(h, client, Binding(l, h, client, n), n)
    && b.tokens == Headroom(l, h, client, Binding(l, h, client, n), n, b.updated)
    && (forall j :: Seen(h, client, j, n) ==> b.tokens <= Headroom(l, h, client, j, n, b.updated))
    && (n > 0 && b.updated <= h[n - 1].now)
  }

  ghost predicate BucketsOk(l: Limits, h: History, client: string, n: nat)
    requires n <= |h|
  {
    var buckets := After(l, h[..n]);
    if client in buckets then Tightest(l, h, client, n, buckets[client])
    else Binding(l, h, client, n) == -1 && forall j :: !Seen(h, client, j, n)
  }

  lemma HeadroomGrows(l: Limits, h: History, client: string, j: nat, k: nat, u: real, now: real)
    requires j <= k <= |h| && j < |h|
    ensures Headroom(l, h, client, j, k, now) == Headroom(l, h, client, j, k, u) + Gain(l, now - u)
  {
    assert Gain(l, now - h[j].now) == Gain(l, u - h[j].now) + Gain(l, now - u);
  }

  lemma HeadroomShrinks(l: Limits, h: History, j: nat, k: nat, now: real)
    requires j <= k < |h|
    ensures Headroom(l, h, h[k].client, j, k + 1, now)
         == Headroom(l, h, h[k].client, j, k, now) - (if Admitted(l, h, k) then 1.0 else 0.0)
    ensures Headroom(l, h, h[k].client, k, k, h[k].now) == l.capacity
  {
    assert Gain(l, 0.0) == 0.0;
  }

  lemma HeadroomUnchanged(l: Limits, h: History, client: string, j: nat, k: nat, now: real)
    requires j <= k < |h| && h[k].client != client
    ensures Headroom(l, h, client, j, k + 1, now) == Headroom(l, h, client, j, k, now)
  {
  }

  lemma OtherClientKeepsBucket(l: Limits, h: History, client: string, n: nat)
    requires 0 < n <= |h| && h[n - 1].client != client && BucketsOk(l, h, client, n - 1) && Chronological(h)
    ensures BucketsOk(l, h, client, n)
  {
    AfterStep(l, h, n - 1);
    var before, after := After(l, h[..n - 1]), After(l, h[..n]);
    assert client in after ==> client in before && after[client] == before[client];
    assert Binding(l, h, client, n) == Binding(l, h, client, n - 1);
    hide Headroom, After, Binding;
    forall j | Seen(h, client, j, n)
      ensures Seen(h, client, j, n - 1)
      ensures client in after ==>
                Headroom(l, h, client, j, n, after[client].updated) == Headroom(l, h, client, j, n - 1, after[client].updated)
    {
      if client in after {
        HeadroomUnchanged(l, h, client, j, n - 1, after[client].updated);
      }
    }
  }

  lemma OwnCallKeepsBucket(l: Limits, h: History, n: nat)
    requires 0 < n <= |h| && BucketsOk(l, h, h[n - 1].client, n - 1) && Chronological(h)
    ensures BucketsOk(l, h, h[n - 1].client, n)
  {
    var client, now := h[n - 1].client, h[n - 1].now;
    AfterStep(l, h, n - 1);
    LevelIsTightestWindow(l, h, n - 1);
    var b := After(l, h[..n])[client];
    assert b.updated == now && b.tokens == Level(l, h, n - 1) - if Admitted(l, h, n - 1) then 1.0 else 0.0;
    hide Headroom, After, Binding, Level;
    forall j | Seen(h, client, j, n)
      ensures Headroom(l, h, client, j, n, now)
           == Headroom(l, h, client, j, n - 1, now) - (if Admitted(l, h, n - 1) then 1.0 else 0.0)
    {
      HeadroomShrinks(l, h, j, n - 1, now);
    }
  }

  lemma {:induction false} BucketIsTightestWindow(l: Limits, h: History, client: string, n: nat)
    requires Chronological(h) && n <= |h|
    ensures BucketsOk(l, h, client, n)
  {
    if n > 0 {
      BucketIsTightestWindow(l, h, client, n - 1);
      if h[n - 1].client == client {
        OwnCallKeepsBucket(l, h, n);
      } else {
        OtherClientKeepsBucket(l, h, client, n);
      }
    }
  }

  /** The same for the refilled bucket on which call `k` is decided; `k` itself opens a window. */
  lemma LevelIsTightestWindow(l: Limits, h: History, k: nat)
    requires Chronological(h) && k < |h| && BucketsOk(l, h, h[k].client, k)
    ensures var client, now := h[k].client, h[k].now;
      var t := Binding(l, h, client, k + 1);
      && Seen(h, client, t, k + 1) && Level(l, h, k) == Headroom(l, h, client, t, k, now)
      && forall j :: Seen(h, client, j, k + 1) ==> Level(l, h, k) <= Headroom(l, h, client, j, k, now)
  {
    hide Gain;
    var client, now := h[k].client, h[k].now;
    HeadroomShrinks(l, h, k, k, now);
    var buckets := After(l, h[..k]);
    var u := if client in buckets then buckets[client].updated else now;
    if client in buckets {
      HeadroomGrows(l, h, client, Binding(l, h, client, k), k, u, now);
    }
    forall j | Seen(h, client, j, k + 1)
      ensures Level(l, h, k) <= Headroom(l, h, client, j, k, now)
    {
      assert j == k || Seen(h, client, j, k);
      HeadroomGrows(l, h, client, j, k, u, now);
    }
  }

  /**
   * Exact meaning of the bucket: a call is admitted iff, over every window that opens at an
   * earlier (or this) call of the same client, admissions plus one are within capacity plus refill.
   * Calls of other clients, however interleaved, do not appear in the condition.
   */
  lemma AdmittedIffEveryWindowHasRoom(l: Limits, h: History, k: nat)
    requires Chronological(h) && k < |h|
    ensures Admitted(l, h, k) <==> EveryWindowHasRoom(l, h, k)
  {
    var client := h[k].client;
    BucketIsTightestWindow(l, h, client, k);
    LevelIsTightestWindow(l, h, k);
    forall j: nat | j <= k && h[j].client == client
      ensures Level(l, h, k) <= Headroom(l, h, client, j, k, h[k].now)
    {
      assert Seen(h, client, j, k + 1);
    }
    var t := Binding(l, h, client, k + 1);
    assert Level(l, h, k) == Headroom(l, h, client, t, k, h[k].now);
  }

  // ---------------------------------------------------------------------------------------------
  // Retry-After
  // ---------------------------------------------------------------------------------------------

  /** The exact time until a bucket with `tokens` < 1 holds one token. */
  function Wait(l: Limits, tokens: real): real
    requires l.rate > 0.0
  {
    (1.0 - tokens) / l.rate
  }

  /** `int(wait) + 1`: truncation is the floor, since the wait of a rejected client is positive. */
  function RetryAfter(l: Limits, tokens: real): int
    requires l.rate > 0.0
  {
    Wait(l, tokens).Floor + 1
  }

  lemma {:induction false} AdmissionsSplit(l: Limits, h: History, client: string, j: nat, k: nat, m: nat)
    requires j <= k <= m <= |h|
    ensures Admissions(l, h, client, j, m) == Admissions(l, h, client, j, k) + Admissions(l, h, client, k, m)
  {
    if k < m {
      AdmissionsSplit(l, h, client, j, k, m - 1);
    }
  }

  lemma GainIsMonotone(l: Limits, a: real, b: real)
    requires l.rate > 0.0 && a >= b
    ensures Gain(l, a) >= Gain(l, b)
    ensures Gain(l, 0.0) == 0.0
  {
  }

  lemma GainReachesIffWaited(l: Limits, tokens: real, elapsed: real)
    requires l.rate > 0.0
    ensures tokens + Gain(l, elapsed) >= 1.0 <==> elapsed >= Wait(l, tokens)
  {
    assert Wait(l, tokens) * l.rate == 1.0 - tokens;
    if elapsed >= Wait(l, tokens) {
      assert (elapsed - Wait(l, tokens)) * l.rate >= 0.0;
    } else {
      assert (Wait(l, tokens) - elapsed) * l.rate > 0.0;
    }
  }

  /** While a client gets nothing, its level only grows, until the bucket is full. */
  lemma LevelGrowsWhileRejected(l: Limits, h: History, k: nat, m: nat)
    requires Chronological(h) && Usable(l) && k < m < |h| && h[k].client == h[m].client
    requires Admissions(l, h, h[k].client, k, m) == 0
    ensures Level(l, h, m) <= Level(l, h, k) + Gain(l, h[m].now - h[k].now)
    ensures Level(l, h, m) >= Level(l, h, k) + Gain(l, h[m].now - h[k].now) || Level(l, h, m) >= l.capacity
  {
    hide Gain, After, Admissions, Binding, Level, BucketsOk;
    var client, tk, tm := h[k].client, h[k].now, h[m].now;
    BucketIsTightestWindow(l, h, client, k);
    LevelIsTightestWindow(l, h, k);
    BucketIsTightestWindow(l, h, client, m);
    LevelIsTightestWindow(l, h, m);
    var t, u := Binding(l, h, client, m + 1), Binding(l, h, client, k + 1);
    assert Seen(h, client, u, m + 1);
    AdmissionsSplit(l, h, client, u, k, m);
    HeadroomGrows(l, h, client, u, k, tk, tm);
    assert Headroom(l, h, client, u, m, tm) == Headroom(l, h, client, u, k, tm);
    if t <= k {
      AdmissionsSplit(l, h, client, t, k, m);
      assert Seen(h, client, t, k + 1);
      HeadroomGrows(l, h, client, t, k, tk, tm);
    } else {
      AdmissionsSplit(l, h, client, k, t, m);
      GainIsMonotone(l, tm - h[t].now, 0.0);
    }
  }

  /**
   * A rejected client that is not admitted in between is admitted at a later call iff it has
   * waited the exact time computed at the rejection; polling meanwhile makes no difference.
   */
  lemma RejectedClientIsAdmittedIffItWaited(l: Limits, h: History, k: nat, m: nat)
    requires Chronological(h) && Usable(l) && k < m < |h| && h[k].client == h[m].client
    requires !Admitted(l, h, k) && Admissions(l, h, h[k].client, k, m) == 0
    ensures Admitted(l, h, m) <==> h[m].now - h[k].now >= Wait(l, Level(l, h, k))
  {
    hide Gain, Wait, Level, After, Admissions;
    LevelGrowsWhileRejected(l, h, k, m);
    GainReachesIffWaited(l, Level(l, h, k), h[m].now - h[k].now);
  }

  lemma RetryAfterBounds(l: Limits, tokens: real)
    requires l.rate > 0.0 && tokens < 1.0
    ensures Wait(l, tokens) < RetryAfter(l, tokens) as real <= Wait(l, tokens) + 1.0
    ensures RetryAfter(l, tokens) >= 1
  {
    assert Wait(l, tokens) > 0.0;
  }

  /** The advertised number of seconds is enough, and at most one second more than the exact wait. */
  lemma RetryAfterIsSufficientAndTight(l: Limits, h: History, k: nat)
    requires Chronological(h) && Usable(l) && k < |h| && !Admitted(l, h, k)
    ensures Wait(l, Level(l, h, k)) < RetryAfter(l, Level(l, h, k)) as real <= Wait(l, Level(l, h, k)) + 1.0
    ensures RetryAfter(l, Level(l, h, k)) >= 1
    ensures forall m: nat | k < m < |h| && h[m].client == h[k].client && Admissions(l, h, h[k].client, k, m) == 0 ::
              h[m].now >= h[k].now + RetryAfter(l, Level(l, h, k)) as real ==> Admitted(l, h, m)
  {
    assert Level(l, h, k) < 1.0;
    hide Wait, RetryAfter, Level, Admitted, Admissions, Chronological;
    RetryAfterBounds(l, Level(l, h, k));
    forall m: nat | k < m < |h| && h[m].client == h[k].client && Admissions(l, h, h[k].client, k, m) == 0
                    && h[m].now >= h[k].now + RetryAfter(l, Level(l, h, k)) as real
      ensures Admitted(l, h, m)
    {
      RejectedClientIsAdmittedIffItWaited(l, h, k, m);
    }
  }

  // ---------------------------------------------------------------------------------------------
  // Rejected polls leave no trace
  // ---------------------------------------------------------------------------------------------

  /** From time `t` on, both dictionaries put every client in the same position. */
  ghost predicate Indistinguishable(l: Limits, a: map<string, Bucket>, b: map<string, Bucket>, t: real) {
    forall q: Request :: q.now >= t ==> Present(l, a, q) == Present(l, b, q)
  }

  lemma RefillTwice(l: Limits, b: Bucket, t: real, now: real)
    requires l.rate > 0.0 && b.updated <= t <= now
    ensures Refill(l, Refill(l, b, t), now) == Refill(l, b, now)
  {
    hide Gain;
    assert Gain(l, now - b.updated) == Gain(l, t - b.updated) + Gain(l, now - t) by {
      GainAdds(l, t - b.updated, now - t);
    }
    GainIsMonotone(l, now - t, 0.0);
  }

  lemma GainAdds(l: Limits, a: real, b: real)
    ensures Gain(l, a + b) == Gain(l, a) + Gain(l, b)
  {
  }

  function Without(h: History, k: nat): History
    requires k < |h|
  {
    h[..k] + h[k + 1..]
  }

  lemma RejectedPollOnlyRefills(l: Limits, h: History, k: nat, q: Request)
    requires Chronological(h) && Usable(l) && k < |h| && !Admitted(l, h, k) && q.now >= h[k].now
    ensures Present(l, After(l, h[..k + 1]), q) == Present(l, After(l, h[..k]), q)
  {
    hide Gain;
    AfterStep(l, h, k);
    BucketIsTightestWindow(l, h, h[k].client, k);
    GainIsMonotone(l, h[k].now - h[k].now, 0.0);
    var b := After(l, h[..k]);
    assert h[k].client in b;
    if q.client == h[k].client {
      RefillTwice(l, b[q.client], h[k].now, q.now);
    }
  }

  lemma SameStepKeepsIndistinguishable(l: Limits, a: map<string, Bucket>, b: map<string, Bucket>, t: real, q: Request)
    requires Indistinguishable(l, a, b, t) && q.now >= t
    ensures Indistinguishable(l, Apply(l, a, q), Apply(l, b, q), q.now)
  {
    hide Refill;
    assert Present(l, a, q) == Present(l, b, q);
    forall p: Request | p.now >= q.now
      ensures Present(l, Apply(l, a, q), p) == Present(l, Apply(l, b, q), p)
    {
      assert Present(l, a, p) == Present(l, b, p);
    }
  }

  lemma {:induction false} BucketsForgetRejectedPoll(l: Limits, h: History, k: nat, m: nat)
    requires Chronological(h) && Usable(l) && k < m <= |h| && !Admitted(l, h, k)
    ensures Indistinguishable(l, After(l, h[..m]), After(l, Without(h, k)[..m - 1]), h[m - 1].now)
  {
    hide Present, Admitted;
    var g := Without(h, k);
    if m == k + 1 {
      assert g[..k] == h[..k];
      forall q: Request | q.now >= h[k].now
        ensures Present(l, After(l, h[..m]), q) == Present(l, After(l, g[..k]), q)
      {
        RejectedPollOnlyRefills(l, h, k, q);
      }
    } else {
      BucketsForgetRejectedPoll(l, h, k, m - 1);
      AfterStep(l, h, m - 1);
      AfterStep(l, g, m - 2);
      SameStepKeepsIndistinguishable(l, After(l, h[..m - 1]), After(l, g[..m - 2]), h[m - 2].now, h[m - 1]);
    }
  }

  /** Deleting a rejected call from a history changes no other decision. */
  lemma RejectedPollChangesNoDecision(l: Limits, h: History, k: nat, m: nat)
    requires Chronological(h) && Usable(l) && k < |h| && !Admitted(l, h, k) && m < |h| && m != k
    ensures Admitted(l, h, m) <==> Admitted(l, Without(h, k), if m < k then m else m - 1)
  {
    var g := Without(h, k);
    if m < k {
      assert g[..m] == h[..m];
    } else {
      BucketsForgetRejectedPoll(l, h, k, m);
      assert g[m - 1] == h[m];
    }
  }

  // ---------------------------------------------------------------------------------------------
  // What the settings promise
  // ---------------------------------------------------------------------------------------------

  /** The number of requests and the seconds that the settings stand for. */
  function Whole(setting: int): int {
    if setting < 1 then 1 else setting
  }

  /** An empty bucket is full again after exactly the period. */
  lemma PeriodFillsBucket(requests: int, period: int)
    ensures var l := FromSettings(requests, period);
      l.capacity == Whole(requests) as real && Gain(l, Whole(period) as real) == l.capacity
  {
    var n, p := Whole(requests) as real, Whole(period) as real;
    assert p * (n / p) == n;
  }

  /** A token takes the period over the requests. */
  lemma GapYieldsToken(requests: int, period: int, gap: real)
    requires gap * Whole(requests) as real >= Whole(period) as real
    ensures gap > 0.0 && Gain(FromSettings(requests, period), gap) >= 1.0
  {
    var n, p := Whole(requests) as real, Whole(period) as real;
    PositiveFactor(gap, n);
    assert gap * (n / p) == gap * n / p;
  }

  lemma PositiveFactor(x: real, n: real)
    requires n > 0.0
    ensures x * n > 0.0 ==> x > 0.0
  {
    if x <= 0.0 {
      assert -x * n >= 0.0;
    }
  }

  /** In no stretch of a period from one of its calls does a client get more than twice the requests through. */
  lemma AtMostTwicePerPeriod(requests: int, period: int, h: History, j: nat, k: nat)
    requires Chronological(h) && k < |h| && Admitted(FromSettings(requests, period), h, k)
    requires j <= k && h[j].client == h[k].client && h[k].now - h[j].now <= Whole(period) as real
    ensures Admissions(FromSettings(requests, period), h, h[k].client, j, k + 1) <= 2 * Whole(requests)
  {
    PeriodFillsBucket(requests, period);
    hide *;
    AtMostTwiceCapacity(FromSettings(requests, period), Whole(period) as real, h, j, k);
  }

  lemma AtMostTwiceCapacity(l: Limits, period: real, h: History, j: nat, k: nat)
    requires Usable(l) && Gain(l, period) == l.capacity && Chronological(h) && k < |h| && Admitted(l, h, k)
    requires j <= k && h[j].client == h[k].client && h[k].now - h[j].now <= period
    ensures Admissions(l, h, h[k].client, j, k + 1) as real <= 2.0 * l.capacity
  {
    hide Gain, Admitted, Admissions, Chronological, EveryWindowHasRoom;
    GainGrows(l, h[k].now - h[j].now, period);
    AdmittedIffEveryWindowHasRoom(l, h, k);
    WindowHasRoom(l, h, j, k);
    OneMoreAdmission(l, h, h[k].client, j, k);
  }

  lemma WindowHasRoom(l: Limits, h: History, j: nat, k: nat)
    requires j <= k < |h| && h[j].client == h[k].client && EveryWindowHasRoom(l, h, k)
    ensures l.capacity + Gain(l, h[k].now - h[j].now) >= Admissions(l, h, h[k].client, j, k) as real + 1.0
  {
    hide Gain, Admissions;
    assert Headroom(l, h, h[k].client, j, k, h[k].now) >= 1.0;
  }

  lemma OneMoreAdmission(l: Limits, h: History, client: string, j: nat, k: nat)
    requires j <= k < |h|
    ensures Admissions(l, h, client, j, k + 1) <= Admissions(l, h, client, j, k) + 1
  {
    hide Admitted;
  }

  /** Each call of the client comes at least `gap` after every earlier one. */
  ghost predicate Spaced(h: History, client: string, gap: real) {
    forall i, j :: 0 <= i < j < |h| && h[i].client == client && h[j].client == client ==> h[j].now - h[i].now >= gap
  }

  /** Counted from call `j`, all but one of the client's admissions up to its latest call are a gap apart. */
  lemma {:induction false} SpacedAdmissions(l: Limits, h: History, client: string, gap: real, j: nat, n: nat) returns (i: nat)
    requires j < n <= |h| && h[j].client == client && gap >= 0.0 && Spaced(h, client, gap)
    ensures j <= i < n && h[i].client == client
    ensures Stretch(Admissions(l, h, client, j, n), gap) <= h[i].now - h[j].now
  {
    hide Admitted, Spaced, Stretch;
    if n == j + 1 {
      i := j;
      assert Admissions(l, h, client, j, j) == 0;
      StretchGrows(1, gap);
      StretchGrows(0, gap);
    } else {
      i := SpacedAdmissions(l, h, client, gap, j, n - 1);
      if h[n - 1].client == client {
        SpacedBy(h, client, gap, i, n - 1);
        SpacedBy(h, client, gap, j, n - 1);
        StretchGrows(Admissions(l, h, client, j, n - 1), gap);
        i := n - 1;
      }
    }
  }

  /** How long `n` events take that are `gap` apart. */
  function Stretch(n: nat, gap: real): real {
    if n == 0 then 0.0 else (n as real - 1.0) * gap
  }

  lemma StretchGrows(n: nat, gap: real)
    requires gap >= 0.0
    ensures Stretch(n, gap) <= Stretch(n + 1, gap) <= Stretch(n, gap) + gap
    ensures Stretch(n, gap) + gap >= n as real * gap
    ensures n <= 1 ==> Stretch(n, gap) == 0.0
  {
    assert n as real * gap == (n as real - 1.0) * gap + gap;
  }

  lemma SpacedBy(h: History, client: string, gap: real, i: nat, j: nat)
    requires Spaced(h, client, gap) && i < j < |h| && h[i].client == client && h[j].client == client
    ensures h[j].now - h[i].now >= gap
  {
  }

  /** A client that keeps the average pace, period over requests, is never refused, whatever others do. */
  lemma SteadyClientIsNeverRefused(requests: int, period: int, h: History, gap: real, k: nat)
    requires Chronological(h) && k < |h| && Spaced(h, h[k].client, gap)
    requires gap * Whole(requests) as real >= Whole(period) as real
    ensures Admitted(FromSettings(requests, period), h, k)
  {
    var l, client := FromSettings(requests, period), h[k].client;
    GapYieldsToken(requests, period, gap);
    AdmittedIffEveryWindowHasRoom(l, h, k);
    hide FromSettings, Gain, Admitted, Headroom, Spaced, Chronological;
    forall j: nat | j <= k && h[j].client == client
      ensures Headroom(l, h, client, j, k, h[k].now) >= 1.0
    {
      SteadyWindowHasRoom(l, h, gap, j, k);
    }
  }

  lemma SteadyWindowHasRoom(l: Limits, h: History, gap: real, j: nat, k: nat)
    requires Usable(l) && k < |h| && Spaced(h, h[k].client, gap) && gap > 0.0 && Gain(l, gap) >= 1.0
    requires j <= k && h[j].client == h[k].client
    ensures Headroom(l, h, h[k].client, j, k, h[k].now) >= 1.0
  {
    var client := h[k].client;
    hide Gain, Admissions, Spaced, Stretch;
    GainGrows(l, 0.0, 0.0);
    if j < k {
      var i := SpacedAdmissions(l, h, client, gap, j, k);
      SpacedBy(h, client, gap, i, k);
      SpacedBy(h, client, gap, j, k);
      GainCovers(l, gap, Admissions(l, h, client, j, k), h[k].now - h[j].now);
    } else {
      NoAdmissions(l, h, client, k);
    }
  }

  lemma NoAdmissions(l: Limits, h: History, client: string, k: nat)
    requires k <= |h|
    ensures Admissions(l, h, client, k, k) == 0
  {
  }

  lemma GainGrows(l: Limits, x: real, y: real)
    requires x <= y && l.rate > 0.0
    ensures Gain(l, x) <= Gain(l, y) && Gain(l, 0.0) == 0.0
  {
    assert (y - x) * l.rate >= 0.0;
  }

  /** `n` gaps refill at least `n` tokens. */
  lemma GainCovers(l: Limits, gap: real, n: nat, elapsed: real)
    requires l.rate > 0.0 && Gain(l, gap) >= 1.0 && gap > 0.0 && elapsed >= gap
    requires elapsed >= Stretch(n, gap) + gap
    ensures Gain(l, elapsed) >= n as real
  {
    hide Stretch;
    StretchGrows(n, gap);
    GainGrows(l, n as real * gap, elapsed);
    ManyGaps(l, gap, n as real);
  }

  lemma ManyGaps(l: Limits, gap: real, n: real)
    requires Gain(l, gap) >= 1.0 && n >= 0.0
    ensures Gain(l, n * gap) >= n
  {
    assert Gain(l, n * gap) == n * Gain(l, gap);
    var g := Gain(l, gap);
    hide Gain;
    assert n * (g - 1.0) >= 0.0;
  }

  // ---------------------------------------------------------------------------------------------
  // The limiter object
  // ---------------------------------------------------------------------------------------------

  class RateLimiter {
    const limits: Limits
    var requests: map<string, Bucket>
    ghost var history: History

    ghost predicate Valid()
      reads this
    {
      Usable(limits) && Chronological(history) && requests == After(limits, history)
    }

    constructor (rateLimitRequests: int, rateLimitPeriod: int)
      ensures Valid() && history == []
      ensures limits == FromSettings(rateLimitRequests, rateLimitPeriod)
    {
      limits := FromSettings(rateLimitRequests, rateLimitPeriod);
      requests := map[];
      history := [];
    }

    /** Consume a token for one request of `client` at the monotonic time `now`. */
    method Check(client: string, now: real) returns (allowed: bool, retryAfter: int)
      requires Valid()
      requires history == [] || history[|history| - 1].now <= now
      modifies this
      ensures Valid() && history == old(history) + [Request(client, now)]
      ensures allowed <==> EveryWindowHasRoom(limits, history, |old(history)|)
      ensures allowed ==> retryAfter == 0
      ensures !allowed ==> retryAfter == RetryAfter(limits, Level(limits, history, |old(history)|))
    {
      hide Gain, EveryWindowHasRoom;
      var bucket;
      if client in requests {
        bucket := requests[client];
      } else {
        bucket := Bucket(limits.capacity, now);
      }
      bucket := Refill(limits, bucket, now);
      ghost var k := |history|;
      history := history + [Request(client, now)];
      assert history[..k] == old(history) && history[..k + 1] == history;
      AdmittedIffEveryWindowHasRoom(limits, history, k);
      if bucket.tokens >= 1.0 {
        requests := requests[client := bucket.(tokens := bucket.tokens - 1.0)];
        return true, 0;
      }
      requests := requests[client := bucket];
      return false, RetryAfter(limits, bucket.tokens);
    }
  }
}
