/**
 Deliveries to one process from its two callers, the control stream and the refresh
 loop. A push that carries only a legacy config is tested against the pin before it
 takes the adopt lock, so anything may happen in between.
 */
module TrustPushes {
  import opened Prelude
  import opened Trust
  import opened TrustRuns

  /** admitted are the legacy configs past their pin test. */
  datatype World = World(n: Node, admitted: set<Bytes>)

  datatype Event =
    | Direct(raw: Bytes, saved: bool, roots: bool)
    | PushPair(anchorRaw: Bytes, mapRaw: Bytes, now: int, pair: Saved, roots: bool)
    | TestLegacy(raw: Bytes)
    | AdoptLegacy(raw: Bytes, saved: bool, roots: bool)

  ghost predicate Enabled(w: World, e: Event) {
    match e
    case TestLegacy(raw) => w.n.pin.None? && raw != []
    case AdoptLegacy(raw, _, _) => raw in w.admitted
    case _ => true
  }

  /** What the event brings to the adopt lock, if anything. */
  function StepOf(e: Event): Option<Step> {
    match e
    case Direct(raw, saved, roots) => Some(Adopt(raw, saved, roots))
    case PushPair(a, m, now, pair, roots) => Some(Fleet(a, m, now, pair, roots))
    case TestLegacy(_) => None
    case AdoptLegacy(raw, saved, roots) => Some(Adopt(raw, saved, roots))
  }

  ghost function Next(lib: Library, w: World, e: Event): World {
    World(if StepOf(e).None? then w.n else After(lib, w.n, StepOf(e).value),
          match e
          case TestLegacy(raw) => w.admitted + {raw}
          case AdoptLegacy(raw, _, _) => w.admitted - {raw}
          case _ => w.admitted)
  }

  ghost predicate EventAt(lib: Library, run: seq<World>, events: seq<Event>, i: nat)
    requires i < |events| && |run| == |events| + 1
  {
    Enabled(run[i], events[i]) && run[i + 1] == Next(lib, run[i], events[i])
  }

  ghost predicate Deliveries(lib: Library, run: seq<World>, events: seq<Event>) {
    && |run| == |events| + 1 && Inv(lib, run[0].n) && Anchored(lib, run[0].n) && run[0].admitted == {}
    && forall i: nat {:trigger EventAt(lib, run, events, i)} :: i < |events| ==> EventAt(lib, run, events, i)
  }

  lemma NextKeeps(lib: Library, w: World, e: Event)
    requires Inv(lib, w.n)
    ensures Inv(lib, Next(lib, w, e).n)
  {
    if StepOf(e).Some? {
      StepKeeps(lib, w.n, StepOf(e).value);
    }
  }

  lemma {:induction false} DeliveriesKeep(lib: Library, run: seq<World>, events: seq<Event>, i: nat)
    requires Deliveries(lib, run, events) && i < |run|
    ensures Inv(lib, run[i].n)
  {
    if i > 0 {
      DeliveriesKeep(lib, run, events, i - 1);
      assert EventAt(lib, run, events, i - 1);
      NextKeeps(lib, run[i - 1], events[i - 1]);
    }
  }

  /** At this event a pinned node takes up a cluster config with other grant keys. */
  ghost predicate Overtakes(lib: Library, w: World, e: Event) {
    w.n.pin.Some? && StepOf(e).Some? && ReplacesKeys(lib, w.n, StepOf(e).value)
  }

  ghost predicate OvertakesAt(lib: Library, run: seq<World>, events: seq<Event>, i: nat)
    requires i < |events| && i < |run|
  {
    Overtakes(lib, run[i], events[i])
  }

  ghost predicate AnchoredAt(lib: Library, run: seq<World>, i: nat)
    requires i < |run|
  {
    Anchored(lib, run[i].n)
  }

  lemma NextAnchored(lib: Library, w: World, e: Event)
    requires Inv(lib, w.n) && Anchored(lib, w.n)
    ensures Anchored(lib, Next(lib, w, e).n) <==> !Overtakes(lib, w, e)
  {
    if StepOf(e).Some? {
      if w.n.pin.Some? {
        AnchoredUnlessConfig(lib, w.n, StepOf(e).value);
      } else {
        UnpinnedStepIsAnchored(lib, w.n, StepOf(e).value);
      }
    }
  }

  lemma AnchoredNext(lib: Library, run: seq<World>, events: seq<Event>, i: nat)
    requires Deliveries(lib, run, events) && i < |events| && AnchoredAt(lib, run, i)
    ensures AnchoredAt(lib, run, i + 1) <==> !OvertakesAt(lib, run, events, i)
  {
    DeliveriesKeep(lib, run, events, i);
    assert EventAt(lib, run, events, i);
    NextAnchored(lib, run[i], events[i]);
  }

  lemma {:induction false} AnchoredUntil(lib: Library, run: seq<World>, events: seq<Event>, i: nat)
    requires Deliveries(lib, run, events) && i < |run|
    requires forall k: nat {:trigger OvertakesAt(lib, run, events, k)} :: k < i ==> !OvertakesAt(lib, run, events, k)
    ensures AnchoredAt(lib, run, i)
  {
    if i > 0 {
      AnchoredUntil(lib, run, events, i - 1);
      AnchoredNext(lib, run, events, i - 1);
    }
  }

  /** Over any deliveries a node stays on its anchors' grant keys throughout exactly when
      no cluster config with other keys, direct or tested before the pin, is taken up
      after it. */
  lemma AnchoredThroughoutExactly(lib: Library, run: seq<World>, events: seq<Event>)
    requires Deliveries(lib, run, events)
    ensures (forall i: nat {:trigger AnchoredAt(lib, run, i)} :: i < |run| ==> AnchoredAt(lib, run, i)) <==>
      forall k: nat {:trigger OvertakesAt(lib, run, events, k)} :: k < |events| ==> !OvertakesAt(lib, run, events, k)
  {
    if forall k: nat {:trigger OvertakesAt(lib, run, events, k)} :: k < |events| ==> !OvertakesAt(lib, run, events, k) {
      forall i: nat | i < |run| ensures AnchoredAt(lib, run, i) {
        AnchoredUntil(lib, run, events, i);
      }
    }
    if forall i: nat {:trigger AnchoredAt(lib, run, i)} :: i < |run| ==> AnchoredAt(lib, run, i) {
      forall k: nat | k < |events| ensures !OvertakesAt(lib, run, events, k) {
        assert AnchoredAt(lib, run, k) && AnchoredAt(lib, run, k + 1);
        AnchoredNext(lib, run, events, k);
      }
    }
  }

  /** No direct config, and no pair while a legacy config is between its test and its
      adoption. */
  ghost predicate Orderly(w: World, e: Event) {
    !e.Direct? && (e.PushPair? ==> w.admitted == {})
  }

  ghost predicate OrderlyAt(run: seq<World>, events: seq<Event>, i: nat)
    requires i < |events| && i < |run|
  {
    Orderly(run[i], events[i])
  }

  lemma OrderlyStep(lib: Library, w: World, e: Event)
    requires Enabled(w, e) && Orderly(w, e) && (w.n.pin.Some? ==> w.admitted == {})
    ensures !Overtakes(lib, w, e)
    ensures Next(lib, w, e).n.pin.Some? ==> Next(lib, w, e).admitted == {}
  {
  }

  lemma {:induction false} OrderlyRun(lib: Library, run: seq<World>, events: seq<Event>, i: nat)
    requires Deliveries(lib, run, events) && i < |run|
    requires forall k: nat {:trigger OrderlyAt(run, events, k)} :: k < |events| ==> OrderlyAt(run, events, k)
    ensures run[i].n.pin.Some? ==> run[i].admitted == {}
    ensures i < |events| ==> !OvertakesAt(lib, run, events, i)
  {
    if i > 0 {
      OrderlyRun(lib, run, events, i - 1);
      assert EventAt(lib, run, events, i - 1) && OrderlyAt(run, events, i - 1);
      OrderlyStep(lib, run[i - 1], events[i - 1]);
    }
    if i < |events| {
      assert EventAt(lib, run, events, i) && OrderlyAt(run, events, i);
      OrderlyStep(lib, run[i], events[i]);
    }
  }

  /** With pushes only, and none that pins while a legacy config is on its way to the adopt
      lock, a pinned node always trusts exactly its anchors' grant keys. */
  lemma OrderlyPushesKeepAnchored(lib: Library, run: seq<World>, events: seq<Event>, i: nat)
    requires Deliveries(lib, run, events) && i < |run|
    requires forall k: nat {:trigger OrderlyAt(run, events, k)} :: k < |events| ==> OrderlyAt(run, events, k)
    ensures Anchored(lib, run[i].n)
  {
    forall k: nat | k < i ensures !OvertakesAt(lib, run, events, k) {
      OrderlyRun(lib, run, events, k);
    }
    AnchoredUntil(lib, run, events, i);
    assert AnchoredAt(lib, run, i);
  }

  /** A legacy push passes its test, the other caller pins a pair, and the legacy config is
      taken up on the pinned node. */
  lemma LegacyPushOvertakesPin() returns (lib: Library, run: seq<World>, events: seq<Event>)
    ensures Deliveries(lib, run, events) && |events| == 3
    ensures forall k :: 0 <= k < 3 ==> !events[k].Direct?
    ensures run[2].n.pin.Some? && run[3].n.pin == run[2].n.pin && !Anchored(lib, run[3].n)
  {
    lib := Sample();
    events := [TestLegacy([1]), PushPair([0], [0], 0, Both, true), AdoptLegacy([1], true, true)];
    var n0 := BLANK.(configTrust := map["g" := KEY]);
    var n2 := SampleFirst();
    var n3 := After(lib, n2, Adopt([1], true, true));
    LegacyStep(n2);
    run := [World(n0, {}), World(n0, {[1]}), World(n2, {[1]}), World(n3, {})];
    assert {[1]} - {[1]} == {};
    forall i: nat | i < 3 ensures EventAt(lib, run, events, i) {
    }
  }

  lemma LegacyStep(n: Node)
    requires n == Node(1, map["g" := KEY], map["g" := KEY], Some(SamplePin([0])), [0], [0], true, Disk([], [0], [0]))
    requires Inv(Sample(), n) && Anchored(Sample(), n)
    ensures
      var m := After(Sample(), n, Adopt([1], true, true));
      m.pin == n.pin && !Anchored(Sample(), m)
  {
    TableOfOne("h");
    assert "h" !in n.grantKeys;
    AnchoredUnlessConfig(Sample(), n, Adopt([1], true, true));
  }
}
