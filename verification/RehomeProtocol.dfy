/**
 The re-home epoch protocol between one controller record and the endpoints of a
 session. Requests and pushes stay in the network for ever once sent, so any message
 may be lost, repeated or delivered late and out of order.
 */
module RehomeProtocol {
  import opened Prelude
  import opened Grants
  import opened Broker

  datatype Request = Request(from: string, applied: int)

  datatype Push = Push(epoch: int, grant: Grant)

  /** A request past its checks, with the record and the node's key as they saw them. */
  datatype Checked = Checked(q: Request, seen: SessionRecord, key: Bytes)

  /** rec is the controller's record of the session, nodes the keys of all nodes; checked
      are the requests between their checks and their bump, and mints counts the grants
      minted; applied is the last epoch each
      endpoint took up, and taken the list of all it took up. */
  datatype World = World(
    id: string,
    rec: SessionRecord,
    nodes: map<string, Bytes>,
    applied: map<string, int>,
    taken: map<string, seq<int>>,
    requests: set<Request>,
    checked: multiset<Checked>,
    pushes: set<Push>,
    mints: nat)

  ghost predicate Init(w: World) {
    && w.rec.grantScope.Some? && w.rec.rehomeEpoch == 0 && w.applied.Keys == w.taken.Keys != {}
    && (forall id :: id in w.applied ==> w.applied[id] == 0 && w.taken[id] == [])
    && w.requests == {} && w.checked == multiset{} && w.pushes == {} && w.mints == 0
  }

  /** Update is any other change to the record: its state, and the host session a
      detached shell can be attached to again. Enroll is any change to the nodes. Both may
      fall between a request's checks and its bump. */
  datatype Step =
    | Ask(id: string)
    | Check(q: Request)
    | Serve(k: Checked, deadId: string, deadAddr: string, env: Fresh)
    | Take(id: string, p: Push)
    | Update(state: SessionState, detachable: bool, hostSessionId: string)
    | Enroll(nodes: map<string, Bytes>)

  ghost predicate Enabled(w: World, step: Step) {
    match step
    case Ask(id) => id in w.applied
    case Check(q) => q in w.requests && Refusal(map[w.id := w.rec], w.nodes, w.id).None?
    case Serve(k, _, _, _) => k in w.checked && k.seen.grantScope.Some?
    case Take(id, p) => id in w.applied && id in w.taken && p in w.pushes && p.epoch > w.applied[id]
    case Update(_, _, _) => true
    case Enroll(_) => true
  }

  ghost function After(w: World, step: Step): World
    requires Enabled(w, step)
  {
    match step
    case Ask(id) => w.(requests := w.requests + {Request(id, w.applied[id])})
    case Check(q) => w.(checked := w.checked + multiset{Checked(q, w.rec, w.nodes[w.rec.nodeId])})
    case Serve(k, deadId, deadAddr, env) =>
      var (rec, out) := Reissue(w.rec, k.seen, k.key, deadId, deadAddr, k.q.applied, env);
      w.(rec := rec,
         checked := w.checked - multiset{k},
         pushes := if out.Some? then w.pushes + {Push(out.value.epoch, out.value.grant)} else w.pushes,
         mints := if out.Some? then w.mints + 1 else w.mints)
    case Take(id, p) =>
      w.(applied := w.applied[id := p.epoch], taken := w.taken[id := w.taken[id] + [p.epoch]])
    case Update(state, detachable, host) =>
      w.(rec := w.rec.(state := state, detachable := detachable, hostSessionId := host))
    case Enroll(nodes) => w.(nodes := nodes)
  }

  ghost predicate StepAt(run: seq<World>, steps: seq<Step>, i: nat)
    requires i < |steps| && |run| == |steps| + 1
  {
    Enabled(run[i], steps[i]) && run[i + 1] == After(run[i], steps[i])
  }

  ghost predicate Run(run: seq<World>, steps: seq<Step>) {
    && |run| == |steps| + 1 && Init(run[0])
    && forall i: nat {:trigger StepAt(run, steps, i)} :: i < |steps| ==> StepAt(run, steps, i)
  }

  ghost predicate StrictlyRising(xs: seq<int>) {
    forall i, j :: 0 <= i < j < |xs| ==> xs[i] < xs[j]
  }

  ghost predicate EndpointOk(w: World, id: string)
    requires id in w.applied && id in w.taken
  {
    && 0 <= w.applied[id] <= w.rec.rehomeEpoch
    && StrictlyRising(w.taken[id])
    && (forall i :: 0 <= i < |w.taken[id]| ==> 0 < w.taken[id][i] <= w.applied[id])
  }

  /** The session was in use when the request was checked. */
  ghost predicate CheckedOk(w: World, k: Checked) {
    && k.q in w.requests && k.seen.grantScope == w.rec.grantScope
    && k.seen.state in {Active, Detached} && |k.key| == 32
  }

  /** Some endpoint is at most one generation behind the record. */
  ghost predicate NearRecord(w: World) {
    exists id :: id in w.applied && w.rec.rehomeEpoch <= w.applied[id] + 1
  }

  ghost predicate PushOk(w: World, p: Push)
    requires w.rec.grantScope.Some?
  {
    && 0 < p.epoch <= w.rec.rehomeEpoch && SameScope(w.rec.grantScope.value, p.grant)
    && |p.grant.agentNoisePub| == 32
  }

  ghost predicate Inv(w: World) {
    && w.applied.Keys == w.taken.Keys
    && (forall id :: id in w.applied ==> EndpointOk(w, id))
    && (forall q :: q in w.requests ==> q.from in w.applied && 0 <= q.applied <= w.applied[q.from])
    && (forall k :: k in w.checked ==> CheckedOk(w, k))
    && w.rec.grantScope.Some?
    && (forall p :: p in w.pushes ==> PushOk(w, p))
    && NearRecord(w)
  }

  lemma ServeKeeps(w: World, k: Checked, deadId: string, deadAddr: string, env: Fresh)
    requires Inv(w) && Enabled(w, Serve(k, deadId, deadAddr, env))
    ensures Inv(After(w, Serve(k, deadId, deadAddr, env)))
    ensures After(w, Serve(k, deadId, deadAddr, env)).rec.grantScope == w.rec.grantScope
  {
    var v := After(w, Serve(k, deadId, deadAddr, env));
    ReissueKeepsScope(w.rec, k.seen, k.key, deadId, deadAddr, k.q.applied, env);
    assert CheckedOk(w, k);
    assert EndpointOk(w, k.q.from);
    forall id | id in v.applied ensures EndpointOk(v, id) {
      assert EndpointOk(w, id);
    }
    if k.q.applied < w.rec.rehomeEpoch {
      assert NearRecord(w);
    } else {
      assert v.rec.rehomeEpoch <= v.applied[k.q.from] + 1;
    }
  }

  lemma TakeKeeps(w: World, id: string, p: Push)
    requires Inv(w) && Enabled(w, Take(id, p))
    ensures Inv(After(w, Take(id, p)))
  {
    var v := After(w, Take(id, p));
    forall other | other in v.applied ensures EndpointOk(v, other) {
      assert EndpointOk(w, other);
    }
    var near :| near in w.applied && w.rec.rehomeEpoch <= w.applied[near] + 1;
    assert near in v.applied && v.rec.rehomeEpoch <= v.applied[near] + 1;
  }

  lemma CheckKeeps(w: World, q: Request)
    requires Inv(w) && Enabled(w, Check(q))
    ensures Inv(After(w, Check(q)))
  {
    var v := After(w, Check(q));
    RefusedExactly(map[w.id := w.rec], w.nodes, w.id);
    assert NearRecord(w);
    forall other | other in v.applied ensures EndpointOk(v, other) {
      assert EndpointOk(w, other);
    }
    forall k | k in v.checked ensures CheckedOk(v, k) {
      assert k in w.checked || k == Checked(q, w.rec, w.nodes[w.rec.nodeId]);
    }
  }

  lemma StepKeeps(w: World, step: Step)
    requires Inv(w) && Enabled(w, step)
    ensures Inv(After(w, step)) && After(w, step).rec.grantScope == w.rec.grantScope
  {
    match step {
      case Serve(k, deadId, deadAddr, env) => ServeKeeps(w, k, deadId, deadAddr, env);
      case Take(id, p) => TakeKeeps(w, id, p);
      case Check(q) => CheckKeeps(w, q);
      case _ =>
        var v := After(w, step);
        assert NearRecord(w);
        forall other | other in v.applied ensures EndpointOk(v, other) {
          assert EndpointOk(w, other);
        }
    }
  }

  lemma {:induction false} RunKeeps(run: seq<World>, steps: seq<Step>, i: nat)
    requires Run(run, steps) && i < |run|
    ensures Inv(run[i]) && run[i].applied.Keys == run[0].applied.Keys && run[i].rec.grantScope == run[0].rec.grantScope
    decreases i
  {
    if i == 0 {
      var id :| id in run[0].applied.Keys;
      assert run[0].rec.rehomeEpoch <= run[0].applied[id] + 1;
    } else {
      RunKeeps(run, steps, i - 1);
      assert StepAt(run, steps, i - 1);
      StepKeeps(run[i - 1], steps[i - 1]);
    }
  }

  /** In every run, under loss, duplication and reordering: no endpoint is ahead of the
      record, some endpoint is at most one behind it, each endpoint takes up each epoch
      at most once and in increasing order, and every push carries a grant of the scope
      recorded at the start. */
  lemma EpochsStayTogether(run: seq<World>, steps: seq<Step>, i: nat)
    requires Run(run, steps) && i < |run|
    ensures forall id :: id in run[i].applied ==>
      && id in run[i].taken && run[i].applied[id] <= run[i].rec.rehomeEpoch
      && StrictlyRising(run[i].taken[id])
    ensures NearRecord(run[i])
    ensures forall p :: p in run[i].pushes ==>
      SameScope(run[0].rec.grantScope.value, p.grant) && |p.grant.agentNoisePub| == 32
  {
    RunKeeps(run, steps, i);
    forall id | id in run[i].applied
      ensures id in run[i].taken && run[i].applied[id] <= run[i].rec.rehomeEpoch && StrictlyRising(run[i].taken[id])
    {
      assert EndpointOk(run[i], id);
    }
  }

  /** With a single requester the two epochs never drift more than one apart. */
  lemma SingleRequester(run: seq<World>, steps: seq<Step>, i: nat, agent: string)
    requires Run(run, steps) && i < |run| && run[0].applied.Keys == {agent}
    ensures agent in run[i].applied
    ensures run[i].applied[agent] <= run[i].rec.rehomeEpoch <= run[i].applied[agent] + 1
  {
    RunKeeps(run, steps, i);
    assert run[i].applied.Keys == {agent};
    assert EndpointOk(run[i], agent);
  }

  /** In every run a successful reply carries an epoch above the one its request named. */
  lemma ReplyIsNewer(run: seq<World>, steps: seq<Step>, i: nat)
    requires Run(run, steps) && i < |steps| && steps[i].Serve?
    ensures run[i + 1].rec.rehomeEpoch > steps[i].k.q.applied
    ensures forall p :: p in run[i + 1].pushes && p !in run[i].pushes ==> p.epoch == run[i + 1].rec.rehomeEpoch
  {
    RunKeeps(run, steps, i);
    assert StepAt(run, steps, i) && CheckedOk(run[i], steps[i].k);
    assert EndpointOk(run[i], steps[i].k.q.from);
  }

  function Checks(steps: seq<Step>): nat {
    if steps == [] then 0
    else Checks(steps[..|steps| - 1]) + if steps[|steps| - 1].Check? then 1 else 0
  }

  /** Every grant minted answers a request of its own that was checked while the session
      was in use. */
  lemma {:induction false} MintsAnswerChecks(run: seq<World>, steps: seq<Step>, i: nat)
    requires Run(run, steps) && i < |run|
    ensures run[i].mints + |run[i].checked| <= Checks(steps[..i])
  {
    if i > 0 {
      MintsAnswerChecks(run, steps, i - 1);
      assert StepAt(run, steps, i - 1);
      assert steps[..i][..i - 1] == steps[..i - 1];
    }
  }

  // ---------------------------------------------------------------------------
  // A session that has ended.

  ghost predicate InUse(w: World) {
    w.rec.state in {Active, Detached}
  }

  ghost predicate InUseAt(run: seq<World>, i: nat)
    requires i < |run|
  {
    InUse(run[i])
  }

  /** A record that is not in use is bumped, and a grant minted for it, by no next step at
      all exactly when no request is between its checks and its bump. */
  lemma EndedMintsExactly(w: World)
    requires Inv(w) && !InUse(w)
    ensures w.checked == multiset{} <==>
      forall step :: Enabled(w, step) ==>
        After(w, step).mints == w.mints && After(w, step).rec.rehomeEpoch == w.rec.rehomeEpoch
  {
    if w.checked != multiset{} {
      var k :| k in w.checked;
      assert CheckedOk(w, k);
      var step := Serve(k, "", "", Fresh(["relay"], [], "", 0, 0, false));
      assert Enabled(w, step) && After(w, step).mints == w.mints + 1;
    }
  }

  /** Nothing has been minted, pushed or bumped in between. */
  ghost predicate SameGrants(w: World, v: World) {
    v.mints == w.mints && v.pushes == w.pushes && v.rec.rehomeEpoch == w.rec.rehomeEpoch
  }

  lemma EndedStep(w: World, step: Step)
    requires !InUse(w) && w.checked == multiset{} && Enabled(w, step)
    ensures After(w, step).checked == multiset{} && SameGrants(w, After(w, step))
  {
    if step.Check? {
      RefusedExactly(map[w.id := w.rec], w.nodes, w.id);
    }
  }

  /** Re-home never resurrects an ended session: with no request past its checks when it
      ends, and for as long as it stays out of use, nothing is minted, pushed or bumped. */
  lemma {:induction false} EndedStaysEnded(run: seq<World>, steps: seq<Step>, i: nat, j: nat)
    requires Run(run, steps) && i <= j < |run| && run[i].checked == multiset{}
    requires forall k: nat {:trigger InUseAt(run, k)} :: i <= k <= j ==> !InUseAt(run, k)
    ensures run[j].checked == multiset{} && SameGrants(run[i], run[j])
    decreases j
  {
    if i < j {
      EndedStaysEnded(run, steps, i, j - 1);
      assert StepAt(run, steps, j - 1) && !InUseAt(run, j - 1);
      EndedStep(run[j - 1], steps[j - 1]);
    }
  }

  /** A request checked just before the session is revoked: its bump and its grant come
      after the revocation. */
  lemma RevokedSessionIsReissued(orig: Grant) returns (run: seq<World>, steps: seq<Step>)
    ensures Run(run, steps) && |steps| == 4 && run[0].rec.grantScope == Some(orig)
    ensures run[3].rec.state.Revoked? && run[4].rec.state.Revoked?
    ensures run[4].mints == run[3].mints + 1 && run[4].rec.rehomeEpoch == run[3].rec.rehomeEpoch + 1
  {
    var w0, w1, w2 := RequestChecked(orig);
    var k :| k in w2.checked;
    assert CheckedOk(w2, k);
    steps := [Ask("a"), Check(Request("a", 0)), Update(Revoked, false, ""),
              Serve(k, "", "", Fresh(["relay"], [], "", 0, 0, false))];
    var w3 := After(w2, steps[2]);
    run := [w0, w1, w2, w3, After(w3, steps[3])];
    forall i: nat | i < |steps| ensures StepAt(run, steps, i) {
    }
  }

  lemma RequestChecked(orig: Grant) returns (w0: World, w1: World, w2: World)
    ensures Init(w0) && w0.rec.grantScope == Some(orig) == w2.rec.grantScope && w2.checked != multiset{}
    ensures Enabled(w0, Ask("a")) && w1 == After(w0, Ask("a"))
    ensures Enabled(w1, Check(Request("a", 0))) && w2 == After(w1, Check(Request("a", 0)))
    ensures (forall k :: k in w2.checked ==> CheckedOk(w2, k) && k.q.applied == 0) && w2.rec.rehomeEpoch == 0
  {
    var rec := SessionRecord(Active, "n", Some(orig), false, "", false, 0);
    var key: Bytes := seq(32, i => 0);
    w0 := World("s", rec, map["n" := key], map["a" := 0], map["a" := []], {}, multiset{}, {}, 0);
    w1 := After(w0, Ask("a"));
    RefusedExactly(map["s" := rec], w1.nodes, "s");
    w2 := After(w1, Check(Request("a", 0)));
    assert Checked(Request("a", 0), rec, key) in w2.checked;
  }
}
