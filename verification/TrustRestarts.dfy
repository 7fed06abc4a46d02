/**
 The pinned root over a node's whole life: deliveries, saves that stop half way, and
 any number of restarts that reload what was saved.
 */
module TrustRestarts {
  import opened Prelude
  import opened Trust
  import opened TrustRuns

  datatype Turn = Deliver(s: Step) | Restart(now: int)

  /** A restart that refuses its own documents leaves no agent running. */
  ghost predicate Enabled(lib: Library, n: Node, t: Turn) {
    t.Restart? ==> Loaded(lib, n.disk, t.now).Some?
  }

  ghost function Next(lib: Library, n: Node, t: Turn): Node
    requires Enabled(lib, n, t)
  {
    match t
    case Deliver(s) => After(lib, n, s)
    case Restart(now) => Loaded(lib, n.disk, now).value
  }

  /** These anchors passed verification against this pin. */
  ghost predicate Accepted(lib: Library, p: Pin, raw: Bytes) {
    && lib.multi(raw).Some?
    && var env := lib.multi(raw).value;
    && CarriesQuorum(lib, p, env)
    && lib.anchors(env.payload).Some?
    && p.version <= lib.anchors(env.payload).value.version
  }

  /** What a pinned node has on disk is what it adopted, or anchors that its pin accepted
      but that it did not get to adopt. */
  ghost predicate DiskFollows(lib: Library, n: Node) {
    n.pin.Some? ==>
      && n.disk.anchor != [] && n.disk.routine != []
      && (n.disk.anchor == n.anchorRaw || Accepted(lib, n.pin.value, n.disk.anchor))
  }

  ghost predicate LifeInv(lib: Library, n: Node) {
    Inv(lib, n) && DiskFollows(lib, n)
  }

  lemma FleetKeepsDisk(lib: Library, n: Node, anchorRaw: Bytes, mapRaw: Bytes, now: int, saved: Saved, roots: bool)
    requires LifeInv(lib, n)
    ensures DiskFollows(lib, AfterFleet(lib, n, anchorRaw, mapRaw, now, saved, roots))
  {
  }

  lemma ConfigKeepsDisk(lib: Library, n: Node, raw: Bytes, saved: bool, roots: bool)
    requires LifeInv(lib, n)
    ensures DiskFollows(lib, AfterConfig(lib, n, raw, saved, roots))
  {
  }

  lemma DeliverKeeps(lib: Library, n: Node, s: Step)
    requires LifeInv(lib, n)
    ensures LifeInv(lib, After(lib, n, s))
  {
    StepKeeps(lib, n, s);
    match s
    case Adopt(raw, saved, roots) => ConfigKeepsDisk(lib, n, raw, saved, roots);
    case Fleet(a, m, now, pair, roots) => FleetKeepsDisk(lib, n, a, m, now, pair, roots);
  }

  lemma RestartKeeps(lib: Library, n: Node, now: int)
    requires LifeInv(lib, n) && Loaded(lib, n.disk, now).Some?
    ensures LifeInv(lib, Loaded(lib, n.disk, now).value)
  {
  }

  /** What a restart does to the pin: nothing, or the step its saved anchors had already
      been accepted for; a node that had no pin may come back with a self-made one. */
  lemma RestartPin(lib: Library, n: Node, now: int)
    requires LifeInv(lib, n) && Loaded(lib, n.disk, now).Some?
    ensures
      var m := Loaded(lib, n.disk, now).value;
      && (n.pin.Some? ==> m.pin.Some?)
      && (n.pin.Some? && n.disk.anchor == n.anchorRaw ==> m.pin == n.pin)
      && (n.pin.Some? && m.pin != n.pin ==>
            lib.multi(n.disk.anchor).Some? && Follows(lib, n.pin.value, lib.multi(n.disk.anchor).value, m.pin.value))
      && (n.pin.None? && m.pin.Some? ==> SelfMade(lib, m.pin.value))
  {
    var m := Loaded(lib, n.disk, now).value;
    if m.pin.Some? {
      var p := PairOf(lib, n.disk.anchor, n.disk.routine).value;
      assert CarriesQuorum(lib, m.pin.value, p.env) && PinOf(lib.anchors(p.env.payload).value) == m.pin;
    }
  }

  ghost predicate TurnAt(lib: Library, run: seq<Node>, turns: seq<Turn>, i: nat)
    requires i < |turns| && |run| == |turns| + 1
  {
    Enabled(lib, run[i], turns[i]) && run[i + 1] == Next(lib, run[i], turns[i])
  }

  ghost predicate Life(lib: Library, run: seq<Node>, turns: seq<Turn>) {
    && |run| == |turns| + 1 && LifeInv(lib, run[0])
    && forall i: nat {:trigger TurnAt(lib, run, turns, i)} :: i < |turns| ==> TurnAt(lib, run, turns, i)
  }

  lemma {:induction false} LifeKeeps(lib: Library, run: seq<Node>, turns: seq<Turn>, i: nat)
    requires Life(lib, run, turns) && i < |run|
    ensures LifeInv(lib, run[i])
  {
    if i > 0 {
      LifeKeeps(lib, run, turns, i - 1);
      assert TurnAt(lib, run, turns, i - 1);
      match turns[i - 1]
      case Deliver(s) => DeliverKeeps(lib, run[i - 1], s);
      case Restart(now) => RestartKeeps(lib, run[i - 1], now);
    }
  }

  // ---------------------------------------------------------------------------
  // The root over a whole life.

  ghost predicate AnchorsNotOlder(n: Node, m: Node) {
    AnchorVersion(n) <= AnchorVersion(m) && (n.pin.Some? ==> m.pin.Some?)
  }

  lemma TurnNotOlder(lib: Library, n: Node, t: Turn)
    requires LifeInv(lib, n) && Enabled(lib, n, t)
    ensures AnchorsNotOlder(n, Next(lib, n, t))
  {
    match t
    case Deliver(s) => StepNotOlder(lib, n, s);
    case Restart(now) =>
      RestartPin(lib, n, now);
      RestartKeeps(lib, n, now);
  }

  /** Across deliveries, half-finished saves and restarts the anchor version never falls
      and a pin is never lost. */
  lemma {:induction false} AnchorVersionOutlivesRestarts(
    lib: Library, run: seq<Node>, turns: seq<Turn>, i: nat, j: nat)
    requires Life(lib, run, turns) && i <= j < |run|
    ensures AnchorsNotOlder(run[i], run[j])
    decreases j - i
  {
    if i < j {
      AnchorVersionOutlivesRestarts(lib, run, turns, i, j - 1);
      LifeKeeps(lib, run, turns, j - 1);
      assert TurnAt(lib, run, turns, j - 1);
      TurnNotOlder(lib, run[j - 1], turns[j - 1]);
    }
  }

  lemma TurnDescends(lib: Library, start: Node, n: Node, t: Turn)
    requires LifeInv(lib, n) && Enabled(lib, n, t) && Next(lib, n, t).pin.Some?
    requires if n.pin.Some? then Descends(lib, start, n.pin.value) else start.pin.None?
    ensures Descends(lib, start, Next(lib, n, t).pin.value)
  {
    match t
    case Deliver(s) => PinStep(lib, start, n, s);
    case Restart(now) =>
      RestartPin(lib, n, now);
      var m := Next(lib, n, t);
      if n.pin.None? {
        Rooted(lib, start, m.pin.value);
      } else if m.pin != n.pin {
        Extend(lib, start, n.pin.value, lib.multi(n.disk.anchor).value, m.pin.value);
      }
  }

  lemma TurnDescendsAt(lib: Library, run: seq<Node>, turns: seq<Turn>, i: nat)
    requires Life(lib, run, turns) && i < |turns| && LifeInv(lib, run[i]) && run[i + 1].pin.Some?
    requires if run[i].pin.Some? then Descends(lib, run[0], run[i].pin.value) else run[0].pin.None?
    ensures Descends(lib, run[0], run[i + 1].pin.value)
  {
    assert TurnAt(lib, run, turns, i);
    TurnDescends(lib, run[0], run[i], turns[i]);
  }

  /** Over a node's whole life its pin descends from the first one by anchors each signed
      by a quorum of the set held just before, whatever is delivered, however saves break
      off, and however often it restarts. */
  lemma {:induction false} LineageOutlivesRestarts(lib: Library, run: seq<Node>, turns: seq<Turn>, i: nat)
    requires Life(lib, run, turns) && i < |run| && run[i].pin.Some?
    ensures Descends(lib, run[0], run[i].pin.value)
  {
    if i == 0 {
      Rooted(lib, run[0], run[0].pin.value);
    } else {
      LifeKeeps(lib, run, turns, i - 1);
      if run[i - 1].pin.Some? {
        LineageOutlivesRestarts(lib, run, turns, i - 1);
      } else {
        AnchorVersionOutlivesRestarts(lib, run, turns, 0, i - 1);
      }
      TurnDescendsAt(lib, run, turns, i - 1);
    }
  }

  ghost predicate Uncertified(lib: Library, pin: Pin, t: Turn) {
    t.Deliver? && t.s.Fleet? && lib.multi(t.s.anchorRaw).Some? ==>
      !CarriesQuorum(lib, pin, lib.multi(t.s.anchorRaw).value)
  }

  lemma TurnContained(lib: Library, n: Node, t: Turn)
    requires LifeInv(lib, n) && Enabled(lib, n, t) && n.pin.Some? && n.disk.anchor == n.anchorRaw
    requires Uncertified(lib, n.pin.value, t)
    ensures Next(lib, n, t).pin == n.pin
    ensures Next(lib, n, t).disk.anchor == Next(lib, n, t).anchorRaw
  {
    match t
    case Deliver(s) => PinStays(lib, n, s);
    case Restart(now) => RestartPin(lib, n, now);
  }

  /** A controller without a quorum of the pinned keys never moves the pin, not even
      through restarts, of a node that has adopted what it saved. */
  lemma {:induction false} ContainmentOutlivesRestarts(lib: Library, run: seq<Node>, turns: seq<Turn>, i: nat)
    requires Life(lib, run, turns) && i < |run|
    requires run[0].pin.Some? && run[0].disk.anchor == run[0].anchorRaw
    requires forall k :: 0 <= k < |turns| ==> Uncertified(lib, run[0].pin.value, turns[k])
    ensures run[i].pin == run[0].pin && run[i].disk.anchor == run[i].anchorRaw
  {
    if i > 0 {
      ContainmentOutlivesRestarts(lib, run, turns, i - 1);
      LifeKeeps(lib, run, turns, i - 1);
      assert TurnAt(lib, run, turns, i - 1);
      TurnContained(lib, run[i - 1], turns[i - 1]);
    }
  }
}
