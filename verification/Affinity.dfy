/**
 The affinity directory: which controller owns an agent's control stream, and the set
 of services the agent advertises. Every call is one store transaction.
 */
module Affinity {
  import opened Prelude

  datatype Row = Row(controller: string, epoch: int)
  datatype Advertised = Advertised(epoch: int, services: seq<string>)

  function Claimed(row: Option<Row>, controller: string): Row {
    Row(controller, if row.Some? then row.value.epoch + 1 else 1)
  }

  function Released(row: Option<Row>, controller: string, epoch: int): Option<Row> {
    if row == Some(Row(controller, epoch)) then None else row
  }

  function Put(adv: Option<Advertised>, epoch: int, services: seq<string>): Option<Advertised> {
    if adv.Some? && adv.value.epoch > epoch then adv else Some(Advertised(epoch, services))
  }

  function Cleared(adv: Option<Advertised>, epoch: int): Option<Advertised> {
    if adv.Some? && adv.value.epoch == epoch then None else adv
  }

  function At<K, V>(m: map<K, V>, k: K): Option<V> {
    if k in m then Some(m[k]) else None
  }

  class Store {
    var affinity: map<string, Row>
    var advertised: map<(string, string), Advertised>

    constructor ()
      ensures affinity == map[] && advertised == map[]
    {
      affinity, advertised := map[], map[];
    }

    method ClaimAgentAffinity(node: string, controller: string) returns (epoch: int)
      modifies this`affinity
      ensures affinity == old(affinity)[node := Claimed(At(old(affinity), node), controller)]
      ensures epoch == affinity[node].epoch
    {
      var row := if node in affinity then affinity[node] else Row("", 0);
      epoch := row.epoch + 1;
      affinity := affinity[node := Row(controller, epoch)];
    }

    method ReleaseAgentAffinity(node: string, controller: string, epoch: int)
      modifies this`affinity
      ensures At(affinity, node) == Released(At(old(affinity), node), controller, epoch)
      ensures affinity - {node} == old(affinity) - {node}
    {
      if node !in affinity {
        return;
      }
      var row := affinity[node];
      if row.controller == controller && row.epoch == epoch {
        affinity := affinity - {node};
      }
    }

    method PutAdvertisedServices(ws: string, node: string, epoch: int, services: seq<string>)
      modifies this`advertised
      ensures At(advertised, (ws, node)) == Put(At(old(advertised), (ws, node)), epoch, services)
      ensures advertised - {(ws, node)} == old(advertised) - {(ws, node)}
    {
      var key := (ws, node);
      if key in advertised && advertised[key].epoch > epoch {
        return;
      }
      advertised := advertised[key := Advertised(epoch, services)];
    }

    method ClearAdvertisedServices(ws: string, node: string, epoch: int)
      modifies this`advertised
      ensures At(advertised, (ws, node)) == Cleared(At(old(advertised), (ws, node)), epoch)
      ensures advertised - {(ws, node)} == old(advertised) - {(ws, node)}
    {
      var key := (ws, node);
      if key in advertised && advertised[key].epoch == epoch {
        advertised := advertised - {key};
      }
    }
  }

  // ---------------------------------------------------------------------------
  // One agent's connections. A connection claims, advertises, and later tears down;
  // the calls of different connections interleave in any way, and a controller may die
  // at any point.

  /** generation is the number of row deletions before the claim. */
  datatype Conn = Conn(controller: string, epoch: int, generation: nat)

  /** conns are numbered in the order they claimed; holder is the connection whose services
      are stored. */
  datatype World = World(
    row: Option<Row>,
    adv: Option<Advertised>,
    holder: nat,
    conns: seq<Conn>,
    generation: nat)

  datatype Step =
    | Claim(controller: string)
    | Advertise(c: nat, services: seq<string>)
    | Release(c: nat)
    | Clear(c: nat)

  ghost predicate Enabled(w: World, s: Step) {
    s.Claim? || s.c < |w.conns|
  }

  ghost predicate Deletes(w: World, c: nat)
    requires c < |w.conns|
  {
    w.row.Some? && Released(w.row, w.conns[c].controller, w.conns[c].epoch).None?
  }

  ghost function After(w: World, s: Step): World
    requires Enabled(w, s)
  {
    match s
    case Claim(controller) =>
      var row := Claimed(w.row, controller);
      w.(row := Some(row), conns := w.conns + [Conn(controller, row.epoch, w.generation)])
    case Advertise(c, services) =>
      var adv := Put(w.adv, w.conns[c].epoch, services);
      w.(adv := adv, holder := if w.adv.Some? && w.adv.value.epoch > w.conns[c].epoch then w.holder else c)
    case Release(c) =>
      w.(row := Released(w.row, w.conns[c].controller, w.conns[c].epoch),
         generation := w.generation + if Deletes(w, c) then 1 else 0)
    case Clear(c) =>
      w.(adv := Cleared(w.adv, w.conns[c].epoch))
  }

  const START := World(None, None, 0, [], 0)

  ghost function Latest(w: World): int {
    |w.conns| - 1
  }

  /** The row, while there is one, is the latest claimer's. */
  ghost predicate RowIsLatest(w: World) {
    if w.row.None? then forall i :: 0 <= i < |w.conns| ==> w.conns[i].generation < w.generation
    else
      && w.conns != []
      && var l := w.conns[Latest(w)];
      w.row == Some(Row(l.controller, l.epoch)) && l.generation == w.generation
  }

  /** Between two deletions every claim gets a higher epoch than those before it. */
  ghost predicate EpochsRise(w: World) {
    forall i, j :: 0 <= i < j < |w.conns| ==>
      && w.conns[i].generation <= w.conns[j].generation <= w.generation
      && (w.conns[i].generation == w.conns[j].generation ==> w.conns[i].epoch < w.conns[j].epoch)
  }

  ghost predicate StoredByConn(w: World) {
    w.adv.Some? ==> w.holder < |w.conns| && w.adv.value.epoch == w.conns[w.holder].epoch
  }

  ghost predicate Inv(w: World) {
    && RowIsLatest(w) && EpochsRise(w) && StoredByConn(w)
    && forall i :: 0 <= i < |w.conns| ==> w.conns[i].generation <= w.generation
  }

  lemma StepKeeps(w: World, s: Step)
    requires Inv(w) && Enabled(w, s)
    ensures Inv(After(w, s))
  {
  }

  ghost predicate StepAt(run: seq<World>, steps: seq<Step>, i: nat)
    requires i < |steps| && |run| == |steps| + 1
  {
    Enabled(run[i], steps[i]) && run[i + 1] == After(run[i], steps[i])
  }

  ghost predicate Run(run: seq<World>, steps: seq<Step>) {
    && |run| == |steps| + 1 && run[0] == START
    && forall i: nat {:trigger StepAt(run, steps, i)} :: i < |steps| ==> StepAt(run, steps, i)
  }

  lemma {:induction false} RunKeeps(run: seq<World>, steps: seq<Step>, i: nat)
    requires Run(run, steps) && i < |run|
    ensures Inv(run[i])
  {
    if i > 0 {
      RunKeeps(run, steps, i - 1);
      assert StepAt(run, steps, i - 1);
      StepKeeps(run[i - 1], steps[i - 1]);
    }
  }

  /** In every reachable state the row, while there is one, is the latest claimer's, and
      of two claims with no deletion between them the later has the higher epoch. */
  lemma EpochsFence(run: seq<World>, steps: seq<Step>, i: nat)
    requires Run(run, steps) && i < |run|
    ensures run[i].row.Some? ==>
      && run[i].conns != []
      && var l := run[i].conns[Latest(run[i])];
      run[i].row == Some(Row(l.controller, l.epoch))
    ensures forall a, b :: 0 <= a < b < |run[i].conns| && run[i].conns[a].generation == run[i].conns[b].generation ==>
      run[i].conns[a].epoch < run[i].conns[b].epoch
  {
    RunKeeps(run, steps, i);
  }

  /** A connection that is not the latest deletes the live owner's row exactly when an
      earlier deletion has restarted the epochs and the two got the same number at the
      same controller. */
  lemma SupersededReleaseExactly(w: World, c: nat)
    requires Inv(w) && c < |w.conns| && w.row.Some? && c != Latest(w)
    ensures
      var l := w.conns[Latest(w)];
      Deletes(w, c) <==>
        && w.conns[c].generation < w.generation
        && w.conns[c].controller == l.controller && w.conns[c].epoch == l.epoch
  {
    assert c < Latest(w);
  }

  /** So without a deletion since its claim, a superseded teardown changes nothing. */
  lemma SupersededReleaseIsNoOp(w: World, c: nat)
    requires Inv(w) && c < |w.conns| && w.row.Some?
    requires w.conns[c].generation == w.generation
    ensures Deletes(w, c) <==> c == Latest(w)
  {
    if c != Latest(w) {
      SupersededReleaseExactly(w, c);
    }
  }

  /** The latest claimer's services are stored exactly when the ones already there do not
      carry a higher epoch; any that do were left from before a deletion. */
  lemma LatestAdvertisesExactly(w: World, services: seq<string>)
    requires Inv(w) && w.row.Some?
    ensures
      var l := w.conns[Latest(w)];
      var a := After(w, Advertise(Latest(w), services));
      && (a.adv == Some(Advertised(l.epoch, services)) && a.holder == Latest(w) <==>
            !(w.adv.Some? && w.adv.value.epoch > l.epoch))
      && (w.adv.Some? && w.adv.value.epoch > l.epoch ==> w.conns[w.holder].generation < w.generation)
  {
    if w.adv.Some? && w.holder < Latest(w) {
      assert w.conns[w.holder].generation == w.generation ==> w.conns[w.holder].epoch < w.conns[Latest(w)].epoch;
    }
  }

  /** What an older connection does to a newer one's services. Its clear deletes them
      exactly when the two epochs are the same number, at whatever controller, and its put
      replaces them exactly when its epoch is not the lower; for either, a deletion must
      have restarted the epochs in between. */
  lemma OlderDisturbsServicesExactly(w: World, c: nat, services: seq<string>)
    requires Inv(w) && w.adv.Some? && c < w.holder
    ensures After(w, Clear(c)).adv.None? <==> w.conns[c].epoch == w.conns[w.holder].epoch
    ensures After(w, Advertise(c, services)).holder == c <==> w.conns[c].epoch >= w.conns[w.holder].epoch
    ensures After(w, Clear(c)) != w || After(w, Advertise(c, services)) != w ==>
      w.conns[c].generation < w.conns[w.holder].generation
  {
    assert w.conns[c].generation == w.conns[w.holder].generation ==> w.conns[c].epoch < w.conns[w.holder].epoch;
  }

  /** So within one generation an older connection neither overwrites nor clears a newer
      one's services. */
  lemma OlderLeavesNewerServices(w: World, c: nat, services: seq<string>)
    requires Inv(w) && w.adv.Some? && c < w.holder
    requires w.conns[c].generation == w.conns[w.holder].generation
    ensures After(w, Advertise(c, services)) == w && After(w, Clear(c)) == w
  {
    OlderDisturbsServicesExactly(w, c, services);
  }

  /** A run in which a stale teardown at another controller leaves the row alone but
      deletes the live owner's services. */
  lemma StaleTeardownClearsLiveServices() returns (run: seq<World>, steps: seq<Step>)
    ensures Run(run, steps) && |steps| == 6 && steps[5] == Clear(0)
    ensures Latest(run[5]) == 2 && run[5].holder == 2 && run[5].conns[0].controller != run[5].conns[2].controller
    ensures run[5].adv == Some(Advertised(1, ["live"])) && run[6].adv.None? && run[6].row == run[5].row != None
  {
    steps := [Claim("a"), Claim("b"), Release(1), Claim("b"), Advertise(2, ["live"]), Clear(0)];
    var w1 := After(START, steps[0]);
    var w2 := After(w1, steps[1]);
    var w3 := After(w2, steps[2]);
    var w4 := After(w3, steps[3]);
    var w5 := After(w4, steps[4]);
    run := [START, w1, w2, w3, w4, w5, After(w5, steps[5])];
    assert w3.row.None? && w4.conns[2] == Conn("b", 1, 1);
    forall i: nat | i < |steps| ensures StepAt(run, steps, i) {
    }
  }

  /** A run in which a stale teardown deletes the live owner's row. */
  lemma StaleTeardownStrandsLiveOwner() returns (run: seq<World>, steps: seq<Step>)
    ensures Run(run, steps) && |steps| == 5
    ensures run[4].row.Some? && Latest(run[4]) == 2 && steps[4] == Release(0) && run[5].row.None?
  {
    steps := [Claim("a"), Claim("a"), Release(1), Claim("a"), Release(0)];
    var w1 := After(START, steps[0]);
    var w2 := After(w1, steps[1]);
    var w3 := After(w2, steps[2]);
    var w4 := After(w3, steps[3]);
    run := [START, w1, w2, w3, w4, After(w4, steps[4])];
    assert w3.row.None? && w4.conns[2] == Conn("a", 1, 1);
    forall i: nat | i < |steps| ensures StepAt(run, steps, i) {
    }
  }

  /** Services a dead controller left behind keep a new connection's from being stored. */
  lemma LeftoverServicesBlockNewOnes() returns (run: seq<World>, steps: seq<Step>)
    ensures Run(run, steps) && |steps| == 6
    ensures steps[5] == Advertise(2, ["new"]) && Latest(run[5]) == 2 && run[5].row.Some?
    ensures run[6].adv == Some(Advertised(2, ["old"]))
  {
    steps := [Claim("a"), Claim("a"), Advertise(1, ["old"]), Release(1), Claim("b"), Advertise(2, ["new"])];
    var w1 := After(START, steps[0]);
    var w2 := After(w1, steps[1]);
    var w3 := After(w2, steps[2]);
    var w4 := After(w3, steps[3]);
    var w5 := After(w4, steps[4]);
    run := [START, w1, w2, w3, w4, w5, After(w5, steps[5])];
    assert w4.row.None? && w5.conns[2] == Conn("b", 1, 1);
    forall i: nat | i < |steps| ensures StepAt(run, steps, i) {
    }
  }
}
