/** The event store: per-aggregate versions, replay and snapshots. */
module EventSourcing {
  import opened Prelude

  datatype EventType = Initiated | Authorized | Cleared | Settled | Failed | Reversed

  /** Values in payloads and states; `Other` stands for whatever else a caller stores. */
  datatype Value = Null | Text(text: string) | Time(time: int) | Other(id: int)

  datatype Event = Event(
    id: string, kind: EventType, aggregate: string, time: int, data: map<string, Value>, version: nat,
    correlationId: Option<string>, serviceName: Option<string>)

  /** A replayed state: its list of events under "events", and every other key. */
  datatype State = State(fields: map<string, Value>, events: seq<Event>)

  /** An initiating payload must not bring its own "events" key, which would replace the list. */
  predicate PayloadOk(e: Event) {
    e.kind.Initiated? ==> "events" !in e.data
  }

  // ---------------------------------------------------------------------------------------------
  // Replay
  // ---------------------------------------------------------------------------------------------

  /** The events of one aggregate, in log order. */
  function Of(events: seq<Event>, aggregate: string): seq<Event> {
    if events == [] then []
    else
      var n := |events| - 1;
      Of(events[..n], aggregate) + if events[n].aggregate == aggregate then [events[n]] else []
  }

  function Start(aggregate: string): State {
    State(map["transaction_id" := Text(aggregate), "status" := Text("unknown")], [])
  }

  function StatusName(kind: EventType): string {
    match kind
    case Initiated => "initiated"
    case Authorized => "authorized"
    case Cleared => "cleared"
    case Settled => "settled"
    case Failed => "failed"
    case Reversed => "reversed"
  }

  function Apply(s: State, e: Event): State {
    var status := Text(StatusName(e.kind));
    var fields :=
      match e.kind
      case Initiated => (s.fields + e.data)["status" := status]
      case Authorized => s.fields["status" := status]["authorized_at" := Time(e.time)]
      case Cleared => s.fields["status" := status]["cleared_at" := Time(e.time)]
      case Settled => s.fields["status" := status]["settled_at" := Time(e.time)]
      case Failed => s.fields["status" := status]["failure_reason" := if "reason" in e.data then e.data["reason"] else Null]
      case Reversed => s.fields["status" := status]["reversed_at" := Time(e.time)];
    State(fields, s.events + [e])
  }

  function Fold(s: State, es: seq<Event>): State {
    if es == [] then s else Apply(Fold(s, es[..|es| - 1]), es[|es| - 1])
  }

  /** The state of an aggregate according to the whole log. */
  function Replay(events: seq<Event>, aggregate: string): State {
    Fold(Start(aggregate), Of(events, aggregate))
  }

  lemma {:induction false} FoldInTwoParts(s: State, xs: seq<Event>, ys: seq<Event>)
    ensures Fold(s, xs + ys) == Fold(Fold(s, xs), ys)
  {
    if ys == [] {
      assert xs + ys == xs;
    } else {
      var n := |ys| - 1;
      assert (xs + ys)[..|xs| + n] == xs + ys[..n];
      FoldInTwoParts(s, xs, ys[..n]);
    }
  }

  lemma OfAppend(events: seq<Event>, e: Event, aggregate: string)
    ensures Of(events + [e], aggregate) == Of(events, aggregate) + if e.aggregate == aggregate then [e] else []
  {
    assert (events + [e])[..|events|] == events;
  }

  lemma {:induction false} OfConcat(xs: seq<Event>, ys: seq<Event>, aggregate: string)
    ensures Of(xs + ys, aggregate) == Of(xs, aggregate) + Of(ys, aggregate)
  {
    if ys == [] {
      assert xs + ys == xs;
    } else {
      var n := |ys| - 1;
      assert (xs + ys)[..|xs| + n] == xs + ys[..n];
      OfConcat(xs, ys[..n], aggregate);
    }
  }

  /** Appending an event is one replay step for its aggregate and nothing for any other. */
  lemma AppendIsOneReplayStep(events: seq<Event>, e: Event, aggregate: string)
    ensures Replay(events + [e], aggregate) ==
            if e.aggregate == aggregate then Apply(Replay(events, aggregate), e) else Replay(events, aggregate)
  {
    OfAppend(events, e, aggregate);
    var es := Of(events, aggregate);
    assert (es + [e])[..|es|] == es && es + [] == es;
    hide Of, Apply;
  }

  lemma ApplyTells(s: State, e: Event)
    ensures var s' := Apply(s, e);
      s'.events == s.events + [e] && "status" in s'.fields && s'.fields["status"] == Text(StatusName(e.kind))
  {
  }

  lemma EmptyReplay(aggregate: string)
    ensures Of([], aggregate) == [] && Replay([], aggregate) == Start(aggregate)
  {
  }

  /** A replayed state lists exactly the aggregate's events, and its status is that of the last one. */
  lemma {:induction false} ReplayTellsHistory(events: seq<Event>, aggregate: string)
    ensures var es, s := Of(events, aggregate), Replay(events, aggregate);
      && s.events == es
      && "status" in s.fields
      && s.fields["status"] == Text(if es == [] then "unknown" else StatusName(es[|es| - 1].kind))
  {
    hide Of, Replay, Fold, Apply;
    if events == [] {
      EmptyReplay(aggregate);
    } else {
      var n := |events| - 1;
      assert events[..n] + [events[n]] == events;
      ReplayTellsHistory(events[..n], aggregate);
      AppendIsOneReplayStep(events[..n], events[n], aggregate);
      OfAppend(events[..n], events[n], aggregate);
      ApplyTells(Replay(events[..n], aggregate), events[n]);
      var es := Of(events[..n], aggregate);
      assert es + [] == es;
    }
  }

  /** The key other than "status" that an event sets, and its value. */
  function Mark(e: Event): Option<(string, Value)> {
    match e.kind
    case Initiated => None
    case Authorized => Some(("authorized_at", Time(e.time)))
    case Cleared => Some(("cleared_at", Time(e.time)))
    case Settled => Some(("settled_at", Time(e.time)))
    case Failed => Some(("failure_reason", if "reason" in e.data then e.data["reason"] else Null))
    case Reversed => Some(("reversed_at", Time(e.time)))
  }

  ghost predicate Touches(e: Event, key: string) {
    (Mark(e).Some? && Mark(e).value.0 == key) || (e.kind.Initiated? && key in e.data) || key == "status"
  }

  lemma MarkShows(s: State, e: Event, key: string)
    requires Mark(e).Some? && Mark(e).value.0 == key
    ensures key in Apply(s, e).fields && Apply(s, e).fields[key] == Mark(e).value.1
  {
  }

  lemma UntouchedByOne(s: State, e: Event, key: string)
    requires !Touches(e, key)
    ensures key in Apply(s, e).fields <==> key in s.fields
    ensures key in s.fields ==> Apply(s, e).fields[key] == s.fields[key]
  {
  }

  lemma LastStep(s: State, es: seq<Event>)
    requires es != []
    ensures Fold(s, es) == Apply(Fold(s, es[..|es| - 1]), es[|es| - 1])
  {
    hide Apply;
  }

  /** A replayed state holds under each key what the latest event touching it has set. */
  lemma {:induction false} LatestMarkWins(s: State, es: seq<Event>, i: nat, key: string)
    requires i < |es| && Mark(es[i]).Some? && Mark(es[i]).value.0 == key
    requires forall j: nat :: i < j < |es| ==> !Touches(es[j], key)
    ensures key in Fold(s, es).fields && Fold(s, es).fields[key] == Mark(es[i]).value.1
  {
    hide *;
    LastStep(s, es);
    var n := |es| - 1;
    if i < n {
      LatestMarkWins(s, es[..n], i, key);
      UntouchedByOne(Fold(s, es[..n]), es[n], key);
    } else {
      MarkShows(Fold(s, es[..n]), es[n], key);
    }
  }

  lemma EmptyFold(s: State)
    ensures Fold(s, []) == s
  {
  }

  lemma {:induction false} UntouchedKeyStays(s: State, es: seq<Event>, key: string)
    requires forall e <- es :: !Touches(e, key)
    ensures key in Fold(s, es).fields <==> key in s.fields
    ensures key in s.fields ==> Fold(s, es).fields[key] == s.fields[key]
  {
    hide *;
    if es == [] {
      EmptyFold(s);
    } else {
      var n := |es| - 1;
      LastStep(s, es);
      UntouchedKeyStays(s, es[..n], key);
      UntouchedByOne(Fold(s, es[..n]), es[n], key);
    }
  }

  /** A replay names its aggregate, unless an initiating payload brings another name. */
  lemma ReplayNamesAggregate(events: seq<Event>, aggregate: string)
    requires forall e <- Of(events, aggregate) :: e.kind.Initiated? ==> "transaction_id" !in e.data
    ensures var s := Replay(events, aggregate);
      "transaction_id" in s.fields && s.fields["transaction_id"] == Text(aggregate)
  {
    forall e <- Of(events, aggregate)
      ensures !Touches(e, "transaction_id")
    {
      NameIsNoMark(e);
    }
    UntouchedKeyStays(Start(aggregate), Of(events, aggregate), "transaction_id");
  }

  lemma NameIsNoMark(e: Event)
    ensures Mark(e).Some? ==> Mark(e).value.0 != "transaction_id"
    ensures "transaction_id" != "status"
  {
    assert "transaction_id"[0] == 't' && "failure_reason"[0] == 'f' && "status"[0] == 's';
    assert "authorized_at"[0] == 'a' && "cleared_at"[0] == 'c' && "settled_at"[0] == 's' && "reversed_at"[0] == 'r';
  }

  /** A time is marked under the status of its event, and no two kinds share a status. */
  lemma MarksNameStatus(e: Event, f: Event)
    ensures e.kind in {Authorized, Cleared, Settled, Reversed} ==> Mark(e) == Some((StatusName(e.kind) + "_at", Time(e.time)))
    ensures StatusName(e.kind) == StatusName(f.kind) <==> e.kind == f.kind
    ensures StatusName(e.kind) != "unknown"
  {
    assert "authorized" + "_at" == "authorized_at" && "cleared" + "_at" == "cleared_at";
    assert "settled" + "_at" == "settled_at" && "reversed" + "_at" == "reversed_at";
    assert "initiated"[0] == 'i' && "authorized"[0] == 'a' && "cleared"[0] == 'c' && "settled"[0] == 's';
    assert "failed"[0] == 'f' && "reversed"[0] == 'r' && "unknown"[0] == 'u';
  }

  /** The payload of an initiation shows, under every key but "status" that no later event touches. */
  lemma PayloadShows(s: State, es: seq<Event>, i: nat, key: string)
    requires i < |es| && es[i].kind.Initiated? && key in es[i].data && key != "status"
    requires forall j: nat :: i < j < |es| ==> !Touches(es[j], key)
    ensures key in Fold(s, es).fields && Fold(s, es).fields[key] == es[i].data[key]
  {
    var upTo, rest := es[..i + 1], es[i + 1..];
    assert upTo + rest == es && upTo[..i] == es[..i];
    FoldInTwoParts(s, upTo, rest);
    UntouchedKeyStays(Fold(s, upTo), rest, key);
  }

  // ---------------------------------------------------------------------------------------------
  // Versions and snapshots
  // ---------------------------------------------------------------------------------------------

  function CounterOf(counters: map<string, nat>, aggregate: string): nat {
    if aggregate in counters then counters[aggregate] else 0
  }

  /** The versions of each aggregate are 1, 2, ... in log order. */
  ghost predicate Versioned(events: seq<Event>) {
    forall a: string, i: nat :: i < |Of(events, a)| ==> Of(events, a)[i].version == i + 1
  }

  /** ... and the counter is the number of its events. */
  ghost predicate Counted(events: seq<Event>, counters: map<string, nat>) {
    forall a: string :: CounterOf(counters, a) == |Of(events, a)|
  }

  lemma AppendKeepsVersions(events: seq<Event>, counters: map<string, nat>, e: Event)
    requires Versioned(events) && Counted(events, counters) && e.version == CounterOf(counters, e.aggregate) + 1
    ensures Versioned(events + [e]) && Counted(events + [e], counters[e.aggregate := e.version])
  {
    hide Of;
    forall a: string {
      OfAppend(events, e, a);
    }
  }

  /** The events after version `v`. */
  function After(es: seq<Event>, v: nat): seq<Event> {
    if es == [] then []
    else After(es[..|es| - 1], v) + if es[|es| - 1].version > v then [es[|es| - 1]] else []
  }

  lemma {:induction false} AfterIsSuffix(es: seq<Event>, v: nat)
    requires forall i: nat :: i < |es| ==> es[i].version == i + 1
    ensures After(es, v) == if v <= |es| then es[v..] else []
  {
    if es != [] {
      var n := |es| - 1;
      AfterIsSuffix(es[..n], v);
      assert v <= n ==> es[v..] == es[..n][v..] + [es[n]];
      assert v == n + 1 ==> es[v..] == [];
    }
  }

  /**
   * Continuing a snapshot: folding the events later than the snapshot's version over the state
   * replayed when it was taken gives the full replay, however much other aggregates grew meanwhile.
   */
  lemma SnapshotContinues(events: seq<Event>, later: seq<Event>, aggregate: string)
    requires Versioned(events) && Versioned(events + later)
    ensures var snapshot, version := Replay(events, aggregate), |Of(events, aggregate)|;
      Fold(snapshot, After(Of(events + later, aggregate), version)) == Replay(events + later, aggregate)
  {
    OfConcat(events, later, aggregate);
    AfterIsSuffix(Of(events + later, aggregate), |Of(events, aggregate)|);
    FoldInTwoParts(Start(aggregate), Of(events, aggregate), Of(later, aggregate));
  }

  datatype Snapshot = Snapshot(state: State, version: nat)

  class EventStore {
    var events: seq<Event>
    var snapshots: map<string, Snapshot>
    var versionCounter: map<string, nat>

    ghost predicate Valid()
      reads this
    {
      Versioned(events) && Counted(events, versionCounter)
    }

    constructor ()
      ensures Valid() && events == [] && snapshots == map[]
    {
      events, snapshots, versionCounter := [], map[], map[];
    }

    /** `id` and `now` stand for the generated identifier and the clock. */
    method AppendEvent(kind: EventType, aggregate: string, data: map<string, Value>, correlationId: Option<string>,
                       serviceName: Option<string>, id: string, now: int) returns (e: Event)
      requires Valid()
      modifies this`events, this`versionCounter
      ensures Valid()
      ensures e == Event(id, kind, aggregate, now, data, |Of(old(events), aggregate)| + 1, correlationId, serviceName)
      ensures events == old(events) + [e]
    {
      var version := (if aggregate in versionCounter then versionCounter[aggregate] else 0) + 1;
      e := Event(id, kind, aggregate, now, data, version, correlationId, serviceName);
      assert CounterOf(versionCounter, aggregate) == |Of(events, aggregate)|;
      AppendKeepsVersions(events, versionCounter, e);
      versionCounter := versionCounter[aggregate := version];
      events := events + [e];
    }

    method ReplayEvents(aggregate: string) returns (s: State)
      requires forall e <- events :: PayloadOk(e)
      ensures s == Replay(events, aggregate)
    {
      var es := Of(events, aggregate);
      s := Start(aggregate);
      var i := 0;
      while i < |es|
        invariant 0 <= i <= |es|
        invariant s == Fold(Start(aggregate), es[..i])
      {
        var e := es[i];
        match e.kind {
          case Initiated =>
            s := s.(fields := s.fields + e.data);
            s := s.(fields := s.fields["status" := Text("initiated")]);
          case Authorized =>
            s := s.(fields := s.fields["status" := Text("authorized")]["authorized_at" := Time(e.time)]);
          case Cleared =>
            s := s.(fields := s.fields["status" := Text("cleared")]["cleared_at" := Time(e.time)]);
          case Settled =>
            s := s.(fields := s.fields["status" := Text("settled")]["settled_at" := Time(e.time)]);
          case Failed =>
            var reason := if "reason" in e.data then e.data["reason"] else Null;
            s := s.(fields := s.fields["status" := Text("failed")]["failure_reason" := reason]);
          case Reversed =>
            s := s.(fields := s.fields["status" := Text("reversed")]["reversed_at" := Time(e.time)]);
        }
        s := s.(events := s.events + [e]);
        assert es[..i + 1][..i] == es[..i];
        i := i + 1;
      }
      assert es[..|es|] == es;
    }

    method CreateSnapshot(aggregate: string, state: State)
      requires Valid()
      modifies this`snapshots
      ensures snapshots == old(snapshots)[aggregate := Snapshot(state, |Of(events, aggregate)|)]
    {
      assert CounterOf(versionCounter, aggregate) == |Of(events, aggregate)|;
      snapshots := snapshots[aggregate := Snapshot(state, if aggregate in versionCounter then versionCounter[aggregate] else 0)];
    }
  }
}
