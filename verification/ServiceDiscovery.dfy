/** The service registry and the factory that caches clients of its instances. */
module ServiceDiscovery {
  import opened Prelude

  class ServiceInstance {
    const serviceName: string
    const instanceId: string
    const host: string
    const port: int
    var isHealthy: bool
    var lastHeartbeat: int
    /** How many registrations came before this one. */
    ghost const serial: nat

    constructor (serviceName: string, instanceId: string, host: string, port: int, now: int, ghost serial: nat)
      ensures this.serviceName == serviceName && this.instanceId == instanceId && this.host == host && this.port == port
      ensures isHealthy && lastHeartbeat == now && this.serial == serial
    {
      this.serviceName, this.instanceId, this.host, this.port := serviceName, instanceId, host, port;
      this.isHealthy, this.lastHeartbeat, this.serial := true, now, serial;
    }
  }

  type Services = map<string, seq<ServiceInstance>>

  function InstancesOf(services: Services, name: string): seq<ServiceInstance> {
    if name in services then services[name] else []
  }

  /** The members that satisfy `p`, in order. */
  function Filter(xs: seq<ServiceInstance>, p: ServiceInstance -> bool): (ys: seq<ServiceInstance>)
    ensures forall x <- ys :: x in xs && p(x)
    ensures forall x <- xs :: p(x) ==> x in ys
  {
    if xs == [] then []
    else Filter(xs[..|xs| - 1], p) + if p(xs[|xs| - 1]) then [xs[|xs| - 1]] else []
  }

  function Within(xs: seq<ServiceInstance>, keep: set<ServiceInstance>): seq<ServiceInstance> {
    Filter(xs, x => x in keep)
  }

  function WithoutId(xs: seq<ServiceInstance>, id: string): seq<ServiceInstance> {
    Filter(xs, (x: ServiceInstance) => x.instanceId != id)
  }

  /** A new instance replaces the one of the same id and goes to the end of the list. */
  function Registered(services: Services, inst: ServiceInstance): Services {
    services[inst.serviceName := WithoutId(InstancesOf(services, inst.serviceName), inst.instanceId) + [inst]]
  }

  function Deregistered(services: Services, name: string, id: string): Services {
    if name in services then services[name := WithoutId(services[name], id)] else services
  }

  function Kept(services: Services, keep: set<ServiceInstance>): Services {
    map name | name in services :: Within(services[name], keep)
  }

  /** The first healthy instance of a list. */
  function FirstHealthy(xs: seq<ServiceInstance>, healthy: set<ServiceInstance>): Option<ServiceInstance> {
    if xs == [] then None else if xs[0] in healthy then Some(xs[0]) else FirstHealthy(xs[1..], healthy)
  }

  function CacheKey(name: string, id: string): string {
    name + ":" + id
  }

  // ---------------------------------------------------------------------------------------------
  // Registry and cache as one system
  // ---------------------------------------------------------------------------------------------

  function Members(services: Services): set<ServiceInstance> {
    set name, x | name in services && x in services[name] :: x
  }

  /** Registered instances by service, which of them are healthy, the instance each cached client
      holds, and the number of registrations so far. */
  datatype World = World(services: Services, healthy: set<ServiceInstance>, cache: map<string, ServiceInstance>, next: nat)

  datatype Op =
    | Register(inst: ServiceInstance)
    | Deregister(name: string, id: string)
    | Heartbeat(name: string, id: string)
    | MarkUnhealthy(name: string, id: string)
    | CheckStale(keep: set<ServiceInstance>)
    | GetClient(name: string)
    | GetAllClients(name: string)
    | ClearCache

  function Matching(services: Services, name: string, id: string): set<ServiceInstance> {
    set x | x in InstancesOf(services, name) && x.instanceId == id
  }

  /** Cache a client for `x` unless its key is already taken. */
  function Cached(cache: map<string, ServiceInstance>, name: string, x: ServiceInstance): map<string, ServiceInstance> {
    if CacheKey(name, x.instanceId) in cache then cache else cache[CacheKey(name, x.instanceId) := x]
  }

  function CachedAll(cache: map<string, ServiceInstance>, name: string, xs: seq<ServiceInstance>, healthy: set<ServiceInstance>)
    : map<string, ServiceInstance>
  {
    if xs == [] then cache
    else
      var last := xs[|xs| - 1];
      var before := CachedAll(cache, name, xs[..|xs| - 1], healthy);
      if last in healthy then Cached(before, name, last) else before
  }

  function Selected(w: World, name: string): Option<ServiceInstance> {
    FirstHealthy(InstancesOf(w.services, name), w.healthy)
  }

  /** With other lists of instances; those no longer listed count no more. */
  function Relisted(w: World, services: Services): World {
    w.(services := services, healthy := w.healthy * Members(services))
  }

  function Step(w: World, op: Op): World {
    match op
    case Register(x) => Relisted(w.(healthy := w.healthy + {x}, next := w.next + 1), Registered(w.services, x))
    case Deregister(name, id) => Relisted(w, Deregistered(w.services, name, id))
    case Heartbeat(name, id) => w.(healthy := w.healthy + Matching(w.services, name, id))
    case MarkUnhealthy(name, id) => w.(healthy := w.healthy - Matching(w.services, name, id))
    case CheckStale(keep) => Relisted(w, Kept(w.services, keep))
    case GetClient(name) => if Selected(w, name).None? then w else w.(cache := Cached(w.cache, name, Selected(w, name).value))
    case GetAllClients(name) => w.(cache := CachedAll(w.cache, name, InstancesOf(w.services, name), w.healthy))
    case ClearCache => w.(cache := map[])
  }

  /** The instance held by the client that `get_client` returns. */
  function ClientInstance(w: World, name: string): Option<ServiceInstance> {
    match Selected(w, name)
    case None => None
    case Some(x) => Some(Step(w, GetClient(name)).cache[CacheKey(name, x.instanceId)])
  }

  /** A registration makes a new object. */
  ghost predicate Possible(w: World, op: Op) {
    op.Register? ==> op.inst.serial == w.next
  }

  /** In order of registration, with at most one entry per id. */
  ghost predicate Ordered(xs: seq<ServiceInstance>) {
    && (forall i, j :: 0 <= i < j < |xs| ==> xs[i].serial < xs[j].serial)
    && (forall i, j :: 0 <= i < j < |xs| ==> xs[i].instanceId != xs[j].instanceId)
  }

  ghost predicate WellFormed(w: World) {
    && (forall name <- w.services ::
          Ordered(w.services[name]) && forall x <- w.services[name] :: x.serial < w.next && x.serviceName == name)
    && w.healthy <= Members(w.services)
    && (forall k <- w.cache :: w.cache[k].serial < w.next)
  }

  /** Cache keys are unambiguous as long as no service name holds a ':'. */
  ghost predicate NoColons(w: World) {
    forall name <- w.services :: ':' !in name
  }

  /** No client in the cache is out of date. */
  ghost predicate Agrees(w: World) {
    forall name <- w.services :: forall x <- w.services[name] ::
      CacheKey(name, x.instanceId) in w.cache ==> w.cache[CacheKey(name, x.instanceId)] == x
  }

  lemma CacheKeyInjective(a: string, b: string, c: string, d: string)
    requires ':' !in a && ':' !in c && CacheKey(a, b) == CacheKey(c, d)
    ensures a == c && b == d
  {
    var k := CacheKey(a, b);
    assert k[|a|] == ':' && k[|c|] == ':';
    assert forall i :: 0 <= i < |a| ==> k[i] == a[i] && a[i] in a;
    assert forall i :: 0 <= i < |c| ==> k[i] == c[i] && c[i] in c;
    assert k[..|a|] == a && k[..|c|] == c && k[|a| + 1..] == b && k[|c| + 1..] == d;
  }

  /** With a ':' in a service name two instances can share a key. */
  lemma ColonKeysCollide()
    ensures CacheKey("a:b", "c") == CacheKey("a", "b:c")
  {
    assert CacheKey("a:b", "c") == "a:b:c" && CacheKey("a", "b:c") == "a:b:c";
  }

  lemma OrderedAppend(ys: seq<ServiceInstance>, x: ServiceInstance)
    requires Ordered(ys) && forall y <- ys :: y.serial < x.serial && y.instanceId != x.instanceId
    ensures Ordered(ys + [x])
  {
  }

  lemma OrderedSplit(xs: seq<ServiceInstance>)
    requires Ordered(xs) && xs != []
    ensures Ordered(xs[..|xs| - 1])
    ensures forall y <- xs[..|xs| - 1] :: y.serial < xs[|xs| - 1].serial && y.instanceId != xs[|xs| - 1].instanceId
  {
  }

  lemma {:induction false} FilterKeepsOrdered(xs: seq<ServiceInstance>, p: ServiceInstance -> bool)
    requires Ordered(xs)
    ensures Ordered(Filter(xs, p))
  {
    if xs != [] {
      var n := |xs| - 1;
      OrderedSplit(xs);
      FilterKeepsOrdered(xs[..n], p);
      OrderedAppend(Filter(xs[..n], p), xs[n]);
      assert Filter(xs[..n], p) + [] == Filter(xs[..n], p);
    }
    hide Ordered;
  }

  /** The registry always selects the earliest-registered healthy instance, if there is one. */
  lemma {:induction false} SelectsEarliestHealthy(xs: seq<ServiceInstance>, healthy: set<ServiceInstance>)
    requires Ordered(xs)
    ensures match FirstHealthy(xs, healthy)
      case None => forall x <- xs :: x !in healthy
      case Some(x) => x in xs && x in healthy && forall y <- xs :: y in healthy ==> x.serial <= y.serial
  {
    if xs != [] && xs[0] !in healthy {
      SelectsEarliestHealthy(xs[1..], healthy);
      assert forall y <- xs :: y == xs[0] || y in xs[1..];
    }
  }

  lemma RegisterKeepsWellFormed(w: World, inst: ServiceInstance)
    requires WellFormed(w) && Possible(w, Register(inst))
    ensures WellFormed(Step(w, Register(inst)))
  {
    var name, xs := inst.serviceName, InstancesOf(w.services, inst.serviceName);
    FilterKeepsOrdered(xs, (x: ServiceInstance) => x.instanceId != inst.instanceId);
    var ys := WithoutId(xs, inst.instanceId);
    OrderedAppend(ys, inst);
    hide Ordered, Filter;
  }

  lemma {:induction false} CachedAllFacts(
      cache: map<string, ServiceInstance>, name: string, xs: seq<ServiceInstance>, healthy: set<ServiceInstance>, k: string)
    ensures var c := CachedAll(cache, name, xs, healthy);
      if k in cache then k in c && c[k] == cache[k]
      else k in c ==> c[k] in xs && c[k] in healthy && k == CacheKey(name, c[k].instanceId)
    ensures forall x <- xs :: x in healthy ==> CacheKey(name, x.instanceId) in CachedAll(cache, name, xs, healthy)
  {
    if xs != [] {
      CachedAllFacts(cache, name, xs[..|xs| - 1], healthy, k);
      hide CacheKey;
    }
  }

  lemma StepKeepsWellFormed(w: World, op: Op)
    requires WellFormed(w) && Possible(w, op)
    ensures WellFormed(Step(w, op))
  {
    match op
    case Register(inst) => RegisterKeepsWellFormed(w, inst);
    case Deregister(name, id) =>
      if name in w.services {
        FilterKeepsOrdered(w.services[name], (x: ServiceInstance) => x.instanceId != id);
      }
    case CheckStale(keep) =>
      forall name <- w.services {
        FilterKeepsOrdered(w.services[name], x => x in keep);
      }
    case GetClient(name) =>
      if Selected(w, name).Some? {
        SelectsEarliestHealthy(InstancesOf(w.services, name), w.healthy);
      }
    case GetAllClients(name) =>
      forall k: string {
        CachedAllFacts(w.cache, name, InstancesOf(w.services, name), w.healthy, k);
      }
    case _ =>
  }

  /** Entries new in the cache belong to registered instances under their own key. */
  ghost predicate CacheGrows(w: World, cache: map<string, ServiceInstance>, name: string) {
    forall k <- cache ::
      if k in w.cache then cache[k] == w.cache[k]
      else cache[k] in InstancesOf(w.services, name) && k == CacheKey(name, cache[k].instanceId)
  }

  lemma GrowingCacheAgrees(w: World, cache: map<string, ServiceInstance>, name: string)
    requires WellFormed(w) && NoColons(w) && Agrees(w) && CacheGrows(w, cache, name) && name in w.services
    ensures Agrees(w.(cache := cache))
  {
    forall n, x | n in w.services && x in w.services[n] && CacheKey(n, x.instanceId) in cache
      ensures cache[CacheKey(n, x.instanceId)] == x
    {
      var k := CacheKey(n, x.instanceId);
      if k !in w.cache {
        var y := cache[k];
        CacheKeyInjective(n, x.instanceId, name, y.instanceId);
        SameIdSameInstance(w.services[name], x, y);
      }
    }
  }

  lemma SameIdSameInstance(xs: seq<ServiceInstance>, x: ServiceInstance, y: ServiceInstance)
    requires Ordered(xs) && x in xs && y in xs && x.instanceId == y.instanceId
    ensures x == y
  {
  }

  /** Registering an instance keeps the cache up to date exactly when no client is cached under its key. */
  lemma RegisterKeepsAgreementIff(w: World, inst: ServiceInstance)
    requires WellFormed(w) && Agrees(w) && Possible(w, Register(inst))
    ensures Agrees(Step(w, Register(inst))) <==> CacheKey(inst.serviceName, inst.instanceId) !in w.cache
  {
    var name, key, w' := inst.serviceName, CacheKey(inst.serviceName, inst.instanceId), Step(w, Register(inst));
    if key in w.cache {
      assert inst in w'.services[name];
    } else {
      forall n, x | n in w'.services && x in w'.services[n] && CacheKey(n, x.instanceId) in w.cache
        ensures w.cache[CacheKey(n, x.instanceId)] == x
      {
        assert x == inst || (n in w.services && x in w.services[n]);
      }
    }
  }

  /** The client of an instance `a` outlives its replacement `b` under the same name and id. */
  lemma ReplacedInstanceStaysCached(a: ServiceInstance, b: ServiceInstance)
    requires a.serviceName == b.serviceName && a.instanceId == b.instanceId && a.serial == 0 && b.serial == 1
    ensures var w := RunOps([Register(a), GetClient(a.serviceName), Register(b)]);
      && Possible(RunOps([]), Register(a)) && Possible(RunOps([Register(a), GetClient(a.serviceName)]), Register(b))
      && Selected(w, a.serviceName) == Some(b) && ClientInstance(w, a.serviceName) == Some(a) && a != b
  {
    var name, r1, r2, r3 := a.serviceName, Register(a), GetClient(a.serviceName), Register(b);
    assert [r1, r2, r3][..2] == [r1, r2] && [r1, r2][..1] == [r1] && [r1][..0] == [];
    var w0 := RunOps([]);
    RegisterFirst(w0, a);
    var w1 := Step(w0, r1);
    assert RunOps([r1]) == w1;
    var w2 := w1.(cache := map[CacheKey(name, a.instanceId) := a]);
    assert Selected(w1, name) == Some(a);
    assert RunOps([r1, r2]) == w2;
    RegisterFirst(w2, b);
    assert RunOps([r1, r2, r3]) == Step(w2, r3);
    hide CacheKey, RunOps;
  }

  lemma RegisterFirst(w: World, x: ServiceInstance)
    requires |InstancesOf(w.services, x.serviceName)| <= 1
    requires forall y <- InstancesOf(w.services, x.serviceName) :: y.instanceId == x.instanceId
    ensures var after := Step(w, Register(x));
      InstancesOf(after.services, x.serviceName) == [x] && x in after.healthy && after.cache == w.cache && after.next == w.next + 1
  {
    var xs := InstancesOf(w.services, x.serviceName);
    assert WithoutId([], x.instanceId) == [];
    assert xs != [] ==> xs[..0] == [] && xs[0] in xs;
    assert WithoutId(xs, x.instanceId) == [];
    var after := Registered(w.services, x);
    assert x in after[x.serviceName];
  }

  /** No registration under a key that is cached, or of a service with a ':' in its name. */
  ghost predicate NotCached(w: World, op: Op) {
    op.Register? ==> ':' !in op.inst.serviceName && CacheKey(op.inst.serviceName, op.inst.instanceId) !in w.cache
  }

  lemma StepKeepsAgreement(w: World, op: Op)
    requires WellFormed(w) && NoColons(w) && Agrees(w) && Possible(w, op) && NotCached(w, op)
    ensures Agrees(Step(w, op)) && NoColons(Step(w, op))
  {
    match op
    case Register(inst) => RegisterKeepsAgreementIff(w, inst);
    case GetClient(name) =>
      if Selected(w, name).Some? {
        SelectsEarliestHealthy(InstancesOf(w.services, name), w.healthy);
        GrowingCacheAgrees(w, Step(w, op).cache, name);
      }
    case GetAllClients(name) =>
      forall k: string {
        CachedAllFacts(w.cache, name, InstancesOf(w.services, name), w.healthy, k);
      }
      if name in w.services {
        GrowingCacheAgrees(w, Step(w, op).cache, name);
      }
    case _ =>
  }

  function RunOps(ops: seq<Op>): World {
    if ops == [] then World(map[], {}, map[], 0) else Step(RunOps(ops[..|ops| - 1]), ops[|ops| - 1])
  }

  ghost predicate LegalRun(ops: seq<Op>) {
    forall k: nat :: k < |ops| ==> Possible(RunOps(ops[..k]), ops[k]) && NotCached(RunOps(ops[..k]), ops[k])
  }

  lemma {:induction false} RunKeepsAgreement(ops: seq<Op>)
    requires LegalRun(ops)
    ensures WellFormed(RunOps(ops)) && Agrees(RunOps(ops)) && NoColons(RunOps(ops))
  {
    if ops != [] {
      var n := |ops| - 1;
      assert LegalRun(ops[..n]) by {
        forall k: nat | k < n ensures ops[..n][..k] == ops[..k] {}
      }
      RunKeepsAgreement(ops[..n]);
      StepKeepsWellFormed(RunOps(ops[..n]), ops[n]);
      StepKeepsAgreement(RunOps(ops[..n]), ops[n]);
    }
  }

  /**
   * Along every run in which no cached instance is registered again, the client handed out holds
   * the very instance the registry selects, and that is the earliest-registered healthy one.
   */
  lemma ClientHoldsSelectedInstance(ops: seq<Op>, name: string)
    requires LegalRun(ops)
    ensures ClientInstance(RunOps(ops), name) == Selected(RunOps(ops), name)
    ensures var w := RunOps(ops);
      match Selected(w, name)
      case None => forall x <- InstancesOf(w.services, name) :: x !in w.healthy
      case Some(x) =>
        && x in InstancesOf(w.services, name) && x in w.healthy
        && forall y <- InstancesOf(w.services, name) :: y in w.healthy ==> x.serial <= y.serial
  {
    hide *;
    RunKeepsAgreement(ops);
    HoldsSelected(RunOps(ops), name);
  }

  lemma HoldsSelected(w: World, name: string)
    requires WellFormed(w) && NoColons(w) && Agrees(w)
    ensures ClientInstance(w, name) == Selected(w, name)
    ensures match Selected(w, name)
      case None => forall x <- InstancesOf(w.services, name) :: x !in w.healthy
      case Some(x) =>
        && x in InstancesOf(w.services, name) && x in w.healthy
        && forall y <- InstancesOf(w.services, name) :: y in w.healthy ==> x.serial <= y.serial
  {
    SelectsEarliestHealthy(InstancesOf(w.services, name), w.healthy);
    StepKeepsAgreement(w, GetClient(name));
    hide FirstHealthy, CacheKey, NoColons;
  }

  /** Likewise every client of the list of all clients holds its own healthy instance. */
  lemma AllClientsHoldTheirInstances(ops: seq<Op>, name: string, x: ServiceInstance)
    requires LegalRun(ops) && x in InstancesOf(RunOps(ops).services, name) && x in RunOps(ops).healthy
    ensures var cache := Step(RunOps(ops), GetAllClients(name)).cache;
      CacheKey(name, x.instanceId) in cache && cache[CacheKey(name, x.instanceId)] == x
  {
    hide *;
    var w := RunOps(ops);
    RunKeepsAgreement(ops);
    GetAllCaches(w, name, x);
  }

  lemma GetAllCaches(w: World, name: string, x: ServiceInstance)
    requires WellFormed(w) && NoColons(w) && Agrees(w) && x in InstancesOf(w.services, name) && x in w.healthy
    ensures var cache := Step(w, GetAllClients(name)).cache;
      CacheKey(name, x.instanceId) in cache && cache[CacheKey(name, x.instanceId)] == x
  {
    StepKeepsAgreement(w, GetAllClients(name));
    CachedAllFacts(w.cache, name, InstancesOf(w.services, name), w.healthy, CacheKey(name, x.instanceId));
    hide CacheKey, CachedAll, WellFormed, NoColons;
  }

  // ---------------------------------------------------------------------------------------------
  // What a run leaves listed
  // ---------------------------------------------------------------------------------------------

  /** Replacing `x`, deregistering it, or dropping it as stale. */
  predicate Removes(op: Op, x: ServiceInstance) {
    match op
    case Register(y) => y.serviceName == x.serviceName && y.instanceId == x.instanceId
    case Deregister(name, id) => name == x.serviceName && id == x.instanceId
    case CheckStale(keep) => x !in keep
    case _ => false
  }

  /** Registered, and not removed since. */
  ghost predicate Stays(ops: seq<Op>, x: ServiceInstance) {
    exists k: nat :: k < |ops| && ops[k] == Register(x) && forall j: nat :: k < j < |ops| ==> !Removes(ops[j], x)
  }

  predicate Revives(op: Op, x: ServiceInstance) {
    op == Register(x) || op == Heartbeat(x.serviceName, x.instanceId)
  }

  /** Marked unhealthy, without a heartbeat since. */
  ghost predicate Marked(ops: seq<Op>, x: ServiceInstance) {
    exists k: nat :: k < |ops| && ops[k] == MarkUnhealthy(x.serviceName, x.instanceId)
                     && forall j: nat :: k < j < |ops| ==> !Revives(ops[j], x)
  }

  ghost predicate PossibleRun(ops: seq<Op>) {
    forall k: nat :: k < |ops| ==> Possible(RunOps(ops[..k]), ops[k])
  }

  lemma PossiblePrefix(ops: seq<Op>)
    requires PossibleRun(ops) && ops != []
    ensures var n := |ops| - 1; PossibleRun(ops[..n]) && Possible(RunOps(ops[..n]), ops[n])
  {
    var n := |ops| - 1;
    forall k: nat | k < n ensures ops[..n][..k] == ops[..k] {}
    hide RunOps, Possible;
  }

  lemma {:induction false} RunKeepsWellFormed(ops: seq<Op>)
    requires PossibleRun(ops)
    ensures WellFormed(RunOps(ops))
  {
    if ops != [] {
      var n := |ops| - 1;
      PossiblePrefix(ops);
      RunKeepsWellFormed(ops[..n]);
      StepKeepsWellFormed(RunOps(ops[..n]), ops[n]);
      hide Step, WellFormed, Possible;
    }
  }

  /** One operation lists what it registers, and removes nothing but what it is about. */
  lemma StepListed(w: World, op: Op, name: string, x: ServiceInstance)
    requires WellFormed(w) && Possible(w, op)
    ensures x in InstancesOf(Step(w, op).services, name) <==>
              (op == Register(x) && name == x.serviceName) || (x in InstancesOf(w.services, name) && !Removes(op, x))
  {
    hide Filter, Members, FirstHealthy, CachedAll, Ordered;
  }

  /** And it changes the health of nothing else that stays listed. */
  lemma StepHealthy(w: World, op: Op, x: ServiceInstance)
    requires WellFormed(w) && Possible(w, op)
    ensures x in Step(w, op).healthy <==>
              && x in InstancesOf(Step(w, op).services, x.serviceName)
              && (Revives(op, x) || (x in w.healthy && op != MarkUnhealthy(x.serviceName, x.instanceId)))
  {
    StepKeepsWellFormed(w, op);
    MemberIsListed(w, x);
    MemberIsListed(Step(w, op), x);
    StepListed(w, op, x.serviceName, x);
    hide Filter, Members, FirstHealthy, CachedAll, Ordered, InstancesOf;
    hide Registered, Deregistered, Kept, WellFormed;
  }

  lemma MemberIsListed(w: World, x: ServiceInstance)
    requires WellFormed(w)
    ensures x in Members(w.services) <==> x in InstancesOf(w.services, x.serviceName)
    ensures x in w.healthy ==> x in InstancesOf(w.services, x.serviceName)
  {
    hide Ordered;
  }

  /** An instance is listed iff it was registered and since then neither replaced, deregistered nor dropped as stale. */
  lemma {:induction false} ListedIff(ops: seq<Op>, name: string, x: ServiceInstance)
    requires PossibleRun(ops)
    ensures x in InstancesOf(RunOps(ops).services, name) <==> name == x.serviceName && Stays(ops, x)
  {
    if ops != [] {
      var before, op := ops[..|ops| - 1], ops[|ops| - 1];
      PossiblePrefix(ops);
      RunKeepsWellFormed(before);
      ListedIff(before, name, x);
      StepListed(RunOps(before), op, name, x);
      StaysOneMore(before, op, x);
      assert ops == before + [op];
      hide *;
      LastOp(ops);
    }
  }

  lemma LastOp(ops: seq<Op>)
    requires ops != []
    ensures RunOps(ops) == Step(RunOps(ops[..|ops| - 1]), ops[|ops| - 1])
  {
    hide Step;
  }

  lemma StaysOneMore(before: seq<Op>, op: Op, x: ServiceInstance)
    ensures Stays(before + [op], x) <==> op == Register(x) || (Stays(before, x) && !Removes(op, x))
  {
    hide Removes;
    var ops := before + [op];
    if op == Register(x) {
      assert ops[|before|] == Register(x);
    } else if Stays(before, x) && !Removes(op, x) {
      var k: nat :| k < |before| && before[k] == Register(x) && forall j: nat :: k < j < |before| ==> !Removes(before[j], x);
      assert ops[k] == Register(x);
    }
    if Stays(ops, x) && op != Register(x) {
      var k: nat :| k < |ops| && ops[k] == Register(x) && forall j: nat :: k < j < |ops| ==> !Removes(ops[j], x);
      assert before[k] == Register(x);
      assert forall j: nat :: k < j < |before| ==> before[j] == ops[j];
      assert !Removes(ops[|before|], x);
    }
  }

  /** It counts as healthy iff it is listed and was not marked unhealthy without a heartbeat since. */
  lemma {:induction false} HealthyIff(ops: seq<Op>, x: ServiceInstance)
    requires PossibleRun(ops)
    ensures x in RunOps(ops).healthy <==> Stays(ops, x) && !Marked(ops, x)
  {
    if ops != [] {
      var before, op := ops[..|ops| - 1], ops[|ops| - 1];
      PossiblePrefix(ops);
      RunKeepsWellFormed(before);
      HealthyIff(before, x);
      ListedIff(before, x.serviceName, x);
      ListedIff(ops, x.serviceName, x);
      StepHealthy(RunOps(before), op, x);
      MarkedOneMore(before, op, x);
      StaysOneMore(before, op, x);
      assert ops == before + [op];
      hide *;
      LastOp(ops);
      RemovesApart(op, x);
    }
  }

  lemma RemovesApart(op: Op, x: ServiceInstance)
    ensures op == Heartbeat(x.serviceName, x.instanceId) || op == MarkUnhealthy(x.serviceName, x.instanceId) ==>
              !Removes(op, x) && op != Register(x)
    ensures Revives(op, x) <==> op == Register(x) || op == Heartbeat(x.serviceName, x.instanceId)
  {
  }

  lemma MarkedOneMore(before: seq<Op>, op: Op, x: ServiceInstance)
    ensures Marked(before + [op], x) <==>
              op == MarkUnhealthy(x.serviceName, x.instanceId) || (Marked(before, x) && !Revives(op, x))
  {
    hide Revives;
    var ops, mark := before + [op], MarkUnhealthy(x.serviceName, x.instanceId);
    if op == mark {
      assert ops[|before|] == mark;
    } else if Marked(before, x) && !Revives(op, x) {
      var k: nat :| k < |before| && before[k] == mark && forall j: nat :: k < j < |before| ==> !Revives(before[j], x);
      assert ops[k] == mark;
    }
    if Marked(ops, x) && op != mark {
      var k: nat :| k < |ops| && ops[k] == mark && forall j: nat :: k < j < |ops| ==> !Revives(ops[j], x);
      assert before[k] == mark;
      assert forall j: nat :: k < j < |before| ==> before[j] == ops[j];
      assert !Revives(ops[|before|], x);
    }
  }

  lemma LastIsLatest(xs: seq<ServiceInstance>)
    requires Ordered(xs) && xs != []
    ensures var n := |xs| - 1;
      && Ordered(xs[..n]) && xs[n] in xs
      && (forall x :: x in xs[..n] <==> x in xs && x != xs[n])
      && (forall x <- xs :: x != xs[n] ==> x.serial < xs[n].serial)
  {
    OrderedSplit(xs);
    hide Ordered;
    assert forall x <- xs :: x == xs[|xs| - 1] || x in xs[..|xs| - 1];
  }

  /** In order of registration there is only one list of given instances. */
  lemma {:induction false} SameMembersSameList(xs: seq<ServiceInstance>, ys: seq<ServiceInstance>)
    requires Ordered(xs) && Ordered(ys) && forall x :: x in xs <==> x in ys
    ensures xs == ys
  {
    hide Ordered;
    assert xs != [] ==> xs[0] in xs && xs[0] in ys;
    assert ys != [] ==> ys[0] in ys && ys[0] in xs;
    if xs != [] && ys != [] {
      var n, m := |xs| - 1, |ys| - 1;
      LastIsLatest(xs);
      LastIsLatest(ys);
      assert xs[n] == ys[m] && xs == xs[..n] + [xs[n]] && ys == ys[..m] + [ys[m]];
      SameMembersSameList(xs[..n], ys[..m]);
    }
  }

  /** So a service's list is exactly its instances that stay, in the order of their registrations. */
  lemma ListIs(ops: seq<Op>, name: string, xs: seq<ServiceInstance>)
    requires PossibleRun(ops)
    requires Ordered(xs) && forall x :: x in xs <==> x.serviceName == name && Stays(ops, x)
    ensures InstancesOf(RunOps(ops).services, name) == xs
  {
    RunKeepsWellFormed(ops);
    var listed := InstancesOf(RunOps(ops).services, name);
    assert Ordered(listed);
    forall x
      ensures x in listed <==> x in xs
    {
      ListedIff(ops, name, x);
    }
    hide *;
    SameMembersSameList(listed, xs);
  }

  /** A registration leaves the list as it was but for the id, and puts the new instance at its end. */
  lemma RegisterAppends(w: World, x: ServiceInstance)
    requires WellFormed(w) && Possible(w, Register(x))
    ensures var xs, ys := InstancesOf(w.services, x.serviceName), InstancesOf(Step(w, Register(x)).services, x.serviceName);
      && Ordered(ys) && ys != [] && ys[|ys| - 1] == x
      && (forall y :: y in ys[..|ys| - 1] <==> y in xs && y.instanceId != x.instanceId)
      && ((forall y <- xs :: y.instanceId != x.instanceId) ==> ys == xs + [x])
    ensures forall name :: name != x.serviceName ==>
              InstancesOf(Step(w, Register(x)).services, name) == InstancesOf(w.services, name)
  {
    StepKeepsWellFormed(w, Register(x));
    var xs, rest := InstancesOf(w.services, x.serviceName), WithoutId(InstancesOf(w.services, x.serviceName), x.instanceId);
    var ys := InstancesOf(Step(w, Register(x)).services, x.serviceName);
    assert ys == rest + [x] && ys[..|ys| - 1] == rest && Ordered(ys);
    hide Ordered, Filter, Members;
    if forall y <- xs :: y.instanceId != x.instanceId {
      NothingRemoved(xs, x.instanceId);
    }
  }

  lemma {:induction false} NothingRemoved(xs: seq<ServiceInstance>, id: string)
    requires forall y <- xs :: y.instanceId != id
    ensures WithoutId(xs, id) == xs
  {
    if xs != [] {
      assert xs[|xs| - 1] in xs;
      NothingRemoved(xs[..|xs| - 1], id);
    }
  }

  // ---------------------------------------------------------------------------------------------
  // The same system in two parts
  // ---------------------------------------------------------------------------------------------

  /** A registry, which knows no cache, and the cache of a factory over it. */
  datatype Parts = Parts(registry: World, cache: map<string, ServiceInstance>)

  function Joint(p: Parts): World {
    p.registry.(cache := p.cache)
  }

  predicate OfFactory(op: Op) {
    op.GetClient? || op.GetAllClients? || op.ClearCache?
  }

  /** Registry operations see the registry alone; those of the factory see both and change the cache. */
  function StepApart(p: Parts, op: Op): Parts {
    if OfFactory(op) then Parts(p.registry, Step(Joint(p), op).cache) else Parts(Step(p.registry, op), p.cache)
  }

  function RunApart(ops: seq<Op>): Parts {
    if ops == [] then Parts(World(map[], {}, map[], 0), map[]) else StepApart(RunApart(ops[..|ops| - 1]), ops[|ops| - 1])
  }

  lemma RegistryIgnoresCache(w: World, op: Op, cache: map<string, ServiceInstance>)
    requires !OfFactory(op)
    ensures Step(w.(cache := cache), op) == Step(w, op).(cache := cache)
  {
  }

  lemma FactoryKeepsRegistry(w: World, op: Op)
    requires OfFactory(op)
    ensures Step(w, op) == w.(cache := Step(w, op).cache)
  {
  }

  /** However calls on the registry and on the factory alternate, together they are a run of the system. */
  lemma {:induction false} PartsRunAsOne(ops: seq<Op>)
    ensures Joint(RunApart(ops)) == RunOps(ops)
  {
    hide Step;
    if ops != [] {
      var p, op := RunApart(ops[..|ops| - 1]), ops[|ops| - 1];
      PartsRunAsOne(ops[..|ops| - 1]);
      if OfFactory(op) {
        FactoryKeepsRegistry(Joint(p), op);
      } else {
        RegistryIgnoresCache(p.registry, op, p.cache);
      }
    }
  }

  /** So the factory hands out a client of the instance that the registry alone selects. */
  lemma FactoryFollowsRegistry(ops: seq<Op>, name: string)
    requires LegalRun(ops)
    ensures ClientInstance(Joint(RunApart(ops)), name) == Selected(RunApart(ops).registry, name)
  {
    PartsRunAsOne(ops);
    ClientHoldsSelectedInstance(ops, name);
    hide RunOps, RunApart, LegalRun, Step, FirstHealthy;
  }

  // ---------------------------------------------------------------------------------------------
  // The registry and factory objects
  // ---------------------------------------------------------------------------------------------

  /** The position of the first instance with the id, or the length. */
  function IndexOfId(xs: seq<ServiceInstance>, id: string): (i: nat)
    ensures i <= |xs| && (i < |xs| ==> xs[i].instanceId == id) && forall j: nat :: j < i ==> xs[j].instanceId != id
  {
    if xs == [] || xs[0].instanceId == id then 0 else 1 + IndexOfId(xs[1..], id)
  }

  lemma MembersRegistered(services: Services, x: ServiceInstance)
    ensures x in Members(Registered(services, x)) && Members(Registered(services, x)) <= Members(services) + {x}
  {
    var after := Registered(services, x);
    assert x in after[x.serviceName];
  }

  lemma RegisteredView(before: World, after: World, x: ServiceInstance)
    requires WellFormed(before) && Possible(before, Register(x))
    requires after.services == Registered(before.services, x) && after.cache == before.cache && after.next == before.next + 1
    requires forall y :: y in after.healthy <==> y in Members(after.services) && (y == x || y in before.healthy)
    ensures after == Step(before, Register(x)) && WellFormed(after)
  {
    MembersRegistered(before.services, x);
    StepKeepsWellFormed(before, Register(x));
    hide Registered, Members, WellFormed;
  }

  /** Only the first instance with the id can match. */
  lemma OneMatching(w: World, name: string, id: string)
    requires WellFormed(w)
    ensures var xs := InstancesOf(w.services, name);
      var i := IndexOfId(xs, id);
      && Matching(w.services, name, id) == (if i < |xs| then {xs[i]} else {})
      && (i < |xs| ==> xs[i] in Members(w.services))
  {
    var xs := InstancesOf(w.services, name);
    var i := IndexOfId(xs, id);
    forall x <- xs | x.instanceId == id
      ensures i < |xs| && x == xs[i]
    {
      var j :| 0 <= j < |xs| && xs[j] == x;
    }
  }

  lemma HealthChanged(before: World, after: World, name: string, id: string, up: bool)
    requires WellFormed(before) && after.services == before.services && after.cache == before.cache && after.next == before.next
    requires forall y :: y in after.healthy <==> if y in Matching(before.services, name, id) then up else y in before.healthy
    ensures WellFormed(after) && after == Step(before, if up then Heartbeat(name, id) else MarkUnhealthy(name, id))
  {
    StepKeepsWellFormed(before, if up then Heartbeat(name, id) else MarkUnhealthy(name, id));
    hide WellFormed, Matching;
  }

  lemma MembersKept(services: Services, keep: set<ServiceInstance>)
    ensures Members(Kept(services, keep)) <= Members(services)
  {
  }

  lemma KeptView(before: World, after: World, keep: set<ServiceInstance>)
    requires WellFormed(before) && after.services == Kept(before.services, keep)
    requires after.cache == before.cache && after.next == before.next
    requires forall y :: y in after.healthy <==> y in Members(after.services) && y in before.healthy
    ensures after == Step(before, CheckStale(keep)) && WellFormed(after)
  {
    StepKeepsWellFormed(before, CheckStale(keep));
    hide Members, WellFormed, Kept;
  }

  class ServiceRegistry {
    const heartbeatTimeout: int
    var services: Services
    ghost var registrations: nat

    ghost function Instances(): set<ServiceInstance>
      reads this
    {
      Members(services)
    }

    ghost function Healthy(): set<ServiceInstance>
      reads this, Instances()
    {
      set x | x in Instances() && x.isHealthy
    }

    ghost function Alive(now: int): set<ServiceInstance>
      reads this, Instances()
    {
      set x | x in Instances() && now - x.lastHeartbeat < heartbeatTimeout
    }

    /** The registry as the system above sees it, without a cache. */
    ghost function View(): World
      reads this, Instances()
    {
      World(services, Healthy(), map[], registrations)
    }

    ghost predicate Valid()
      reads this, Instances()
    {
      WellFormed(View())
    }

    constructor (heartbeatTimeout: int)
      ensures Valid() && View() == RunOps([]) && this.heartbeatTimeout == heartbeatTimeout
    {
      this.heartbeatTimeout, services, registrations := heartbeatTimeout, map[], 0;
    }

    method Register(name: string, id: string, host: string, port: int, now: int) returns (inst: ServiceInstance)
      requires Valid()
      modifies this
      ensures fresh(inst) && inst.serviceName == name && inst.instanceId == id && inst.host == host && inst.port == port
      ensures inst.isHealthy && inst.lastHeartbeat == now
      ensures Valid() && Possible(old(View()), Op.Register(inst)) && View() == Step(old(View()), Op.Register(inst))
    {
      ghost var before := View();
      inst := new ServiceInstance(name, id, host, port, now, registrations);
      if name !in services {
        services := services[name := []];
      }
      services := services[name := WithoutId(services[name], id)];
      services := services[name := services[name] + [inst]];
      registrations := registrations + 1;
      assert services == Registered(before.services, inst);
      hide *;
      RegisteredView(before, View(), inst);
    }

    method Deregister(name: string, id: string) returns (removed: bool)
      requires Valid()
      modifies this`services
      ensures Valid() && View() == Step(old(View()), Op.Deregister(name, id))
      ensures removed <==> exists x <- InstancesOf(old(services), name) :: x.instanceId == id
    {
      StepKeepsWellFormed(View(), Op.Deregister(name, id));
      if name in services {
        var xs := services[name];
        services := services[name := WithoutId(xs, id)];
        WithoutIdLength(xs, id);
        return |services[name]| < |xs|;
      }
      return false;
    }

    method GetInstance(name: string) returns (r: Option<ServiceInstance>)
      ensures r == FirstHealthy(InstancesOf(services, name), Healthy())
    {
      var xs := InstancesOf(services, name);
      var i := 0;
      while i < |xs|
        invariant 0 <= i <= |xs|
        invariant FirstHealthy(xs, Healthy()) == FirstHealthy(xs[i..], Healthy())
      {
        assert xs[i] in services[name];
        if xs[i].isHealthy {
          return Some(xs[i]);
        }
        assert xs[i..][1..] == xs[i + 1..];
        i := i + 1;
      }
      return None;
    }

    method Heartbeat(name: string, id: string, now: int) returns (found: bool)
      requires Valid()
      modifies InstancesOf(services, name)
      ensures Valid() && View() == Step(old(View()), Op.Heartbeat(name, id))
      ensures var xs := InstancesOf(services, name);
        var i := IndexOfId(xs, id);
        && found == (i < |xs|)
        && (found ==> xs[i].lastHeartbeat == now)
        && forall x <- xs :: (!found || x != xs[i]) ==> x.lastHeartbeat == old(x.lastHeartbeat)
    {
      var xs := InstancesOf(services, name);
      var i := IndexOfId(xs, id);
      ghost var before := View();
      OneMatching(before, name, id);
      hide WellFormed, Matching, IndexOfId, InstancesOf, Members;
      found := i < |xs|;
      if found {
        xs[i].lastHeartbeat := now;
        xs[i].isHealthy := true;
      }
      HealthChanged(before, View(), name, id, true);
    }

    method MarkUnhealthy(name: string, id: string) returns (found: bool)
      requires Valid()
      modifies InstancesOf(services, name)
      ensures Valid() && View() == Step(old(View()), Op.MarkUnhealthy(name, id))
      ensures var xs := InstancesOf(services, name);
        var i := IndexOfId(xs, id);
        && found == (i < |xs|)
        && forall x <- xs :: x.lastHeartbeat == old(x.lastHeartbeat)
    {
      var xs := InstancesOf(services, name);
      var i := IndexOfId(xs, id);
      ghost var before := View();
      OneMatching(before, name, id);
      hide WellFormed, Matching, IndexOfId, InstancesOf, Members;
      found := i < |xs|;
      if found {
        xs[i].isHealthy := false;
      }
      HealthChanged(before, View(), name, id, false);
    }

    /** Drop every instance without a heartbeat inside the timeout. */
    method CheckStaleInstances(now: int)
      requires Valid()
      modifies this`services
      ensures Valid() && View() == Step(old(View()), Op.CheckStale(old(Alive(now))))
    {
      hide Within, WellFormed;
      ghost var w, before, alive := View(), services, Alive(now);
      var names := services.Keys;
      while names != {}
        invariant names <= before.Keys && services.Keys == before.Keys
        invariant forall n :: n in names ==> services[n] == before[n]
        invariant forall n :: n in before && n !in names ==> services[n] == Within(before[n], alive)
        decreases names
      {
        var name :| name in names;
        var xs := services[name];
        var keep := set x | x in xs && now - x.lastHeartbeat < heartbeatTimeout;
        SameFilter(xs, keep, alive);
        services := services[name := Within(xs, keep)];
        names := names - {name};
      }
      assert services == Kept(before, alive);
      MembersKept(before, alive);
      hide *;
      KeptView(w, View(), alive);
    }
  }

  lemma ListedIsMember(services: Services, name: string, x: ServiceInstance)
    requires x in InstancesOf(services, name)
    ensures x in Members(services)
  {
  }

  lemma NothingYet(cache: map<string, ServiceInstance>, name: string, xs: seq<ServiceInstance>, healthy: set<ServiceInstance>)
    ensures Within(xs[..0], healthy) == [] && CachedAll(cache, name, xs[..0], healthy) == cache
  {
  }

  lemma NextInstance(
      cache: map<string, ServiceInstance>, name: string, xs: seq<ServiceInstance>, i: nat, healthy: set<ServiceInstance>)
    requires i < |xs|
    ensures Within(xs[..i + 1], healthy) == Within(xs[..i], healthy) + if xs[i] in healthy then [xs[i]] else []
    ensures var before := CachedAll(cache, name, xs[..i], healthy);
      CachedAll(cache, name, xs[..i + 1], healthy) == if xs[i] in healthy then Cached(before, name, xs[i]) else before
  {
    assert xs[..i + 1][..i] == xs[..i];
  }

  lemma {:induction false} WithoutIdLength(xs: seq<ServiceInstance>, id: string)
    ensures |WithoutId(xs, id)| < |xs| <==> exists x <- xs :: x.instanceId == id
    ensures |WithoutId(xs, id)| <= |xs|
  {
    if xs != [] {
      var n := |xs| - 1;
      WithoutIdLength(xs[..n], id);
      assert forall x <- xs :: x == xs[n] || x in xs[..n];
      assert xs[n] in xs;
    }
  }

  lemma {:induction false} SameFilter(xs: seq<ServiceInstance>, a: set<ServiceInstance>, b: set<ServiceInstance>)
    requires forall x <- xs :: x in a <==> x in b
    ensures Within(xs, a) == Within(xs, b)
  {
    if xs != [] {
      assert xs[|xs| - 1] in xs;
      SameFilter(xs[..|xs| - 1], a, b);
    }
  }

  class ServiceClient {
    const serviceName: string
    const instance: ServiceInstance

    constructor (serviceName: string, instance: ServiceInstance)
      ensures this.serviceName == serviceName && this.instance == instance
    {
      this.serviceName, this.instance := serviceName, instance;
    }
  }

  class ServiceClientFactory {
    const registry: ServiceRegistry
    var clientsCache: map<string, ServiceClient>

    /** Registry and cache as the system above sees them. */
    ghost function View(): World
      reads this, registry, registry.Instances()
    {
      Joint(Parts(registry.View(), map k | k in clientsCache :: clientsCache[k].instance))
    }

    /** The cached clients of the instances, one each and in their order. */
    ghost predicate ClientsOf(clients: seq<ServiceClient>, name: string, xs: seq<ServiceInstance>)
      reads this
    {
      && |clients| == |xs|
      && forall i: nat :: i < |xs| ==>
           CacheKey(name, xs[i].instanceId) in clientsCache && clients[i] == clientsCache[CacheKey(name, xs[i].instanceId)]
    }

    constructor (registry: ServiceRegistry)
      ensures this.registry == registry && clientsCache == map[]
    {
      this.registry, clientsCache := registry, map[];
    }

    method GetClient(name: string) returns (r: Option<ServiceClient>)
      modifies this`clientsCache
      ensures View() == Step(old(View()), Op.GetClient(name))
      ensures match ClientInstance(old(View()), name)
        case None => r == None
        case Some(x) => r.Some? && r.value.instance == x
    {
      var found := registry.GetInstance(name);
      if found.None? {
        return None;
      }
      var key := CacheKey(name, found.value.instanceId);
      if key !in clientsCache {
        var client := new ServiceClient(name, found.value);
        clientsCache := clientsCache[key := client];
      }
      return Some(clientsCache[key]);
    }

    /** One client per healthy instance, in registry order. */
    method GetAllClients(name: string) returns (clients: seq<ServiceClient>)
      modifies this`clientsCache
      ensures View() == Step(old(View()), Op.GetAllClients(name))
      ensures ClientsOf(clients, name, Within(InstancesOf(registry.services, name), registry.Healthy()))
    {
      hide CacheKey, Within, CachedAll, InstancesOf;
      ghost var w := View();
      var xs := InstancesOf(registry.services, name);
      NothingYet(w.cache, name, xs, w.healthy);
      clients := [];
      var i := 0;
      while i < |xs|
        invariant 0 <= i <= |xs|
        invariant (map k | k in clientsCache :: clientsCache[k].instance) == CachedAll(w.cache, name, xs[..i], w.healthy)
        invariant ClientsOf(clients, name, Within(xs[..i], w.healthy))
      {
        var instance := xs[i];
        NextInstance(w.cache, name, xs, i, w.healthy);
        ListedIsMember(registry.services, name, instance);
        if instance.isHealthy {
          var key := CacheKey(name, instance.instanceId);
          if key !in clientsCache {
            var client := new ServiceClient(name, instance);
            clientsCache := clientsCache[key := client];
          }
          clients := clients + [clientsCache[key]];
        }
        i := i + 1;
      }
      assert xs[..|xs|] == xs;
    }

    method ClearCache()
      modifies this`clientsCache
      ensures View() == Step(old(View()), Op.ClearCache)
    {
      clientsCache := map[];
    }
  }
}
