/**
 What becomes of one report and of one request for a full, each with its exact
 condition, and the runs that show where the conditions bite.
 */
module InventoryCases {
  import opened Prelude
  import opened Sbom
  import opened SbomOrder
  import opened Inventory
  import opened InventoryRuns

  ghost predicate Reachable(lib: Library, nodeId: string, w: World) {
    exists run, steps :: Run(lib, nodeId, run, steps) && run[|run| - 1] == w
  }

  lemma StartIsReachable(lib: Library, nodeId: string)
    ensures Reachable(lib, nodeId, START)
  {
    assert Run(lib, nodeId, [START], []);
  }

  lemma StepReaches(lib: Library, nodeId: string, w: World, s: Step)
    requires Reachable(lib, nodeId, w) && Enabled(w, s)
    ensures Reachable(lib, nodeId, After(lib, nodeId, w, s))
  {
    var run, steps :| Run(lib, nodeId, run, steps) && run[|run| - 1] == w;
    var more, and := run + [After(lib, nodeId, w, s)], steps + [s];
    forall i: nat | i < |and| ensures StepAt(lib, nodeId, more, and, i) {
      if i < |steps| {
        assert StepAt(lib, nodeId, run, steps, i);
      }
    }
    assert Run(lib, nodeId, more, and) && more[|more| - 1] == After(lib, nodeId, w, s);
  }

  lemma ReachableKeeps(lib: Library, nodeId: string, w: World)
    requires Sound(lib) && Reachable(lib, nodeId, w)
    ensures Inv(lib, w)
  {
    var run, steps :| Run(lib, nodeId, run, steps) && run[|run| - 1] == w;
    RunKeeps(lib, nodeId, run, steps, |run| - 1);
  }

  // ---------------------------------------------------------------------------
  // A delta.

  /** The stored hash tells which set's document is stored. */
  lemma HashTellsSet(lib: Library, w: World, b: seq<Component>)
    requires Sound(lib) && Inv(lib, w) && w.filed.Some?
    ensures w.filed.value.hash == Digest(lib, NODE_REF, IndexOf(b)) <==> Files(lib, w, b)
  {
    var p := w.jobs[w.filed.value.writer].phase.p;
    assert WriteOk(lib, w, p);
    var s :| Ours(w, s) && Writes(lib, p, s);
    IndexIsKeyed(s);
    IndexIsKeyed(b);
    SameDigest(lib, NODE_REF, IndexOf(s), NODE_REF, IndexOf(b));
  }

  /** A delta from b to s goes on exactly when b's document is stored when it is examined;
      otherwise it is dropped and a full is asked for. */
  lemma DeltaBaseExactly(lib: Library, nodeId: string, w: World, j: nat, b: seq<Component>, s: seq<Component>)
    requires Sound(lib) && Inv(lib, w) && Enabled(w, Examine(j)) && IsDelta(lib, b, s, w.jobs[j].r)
    ensures
      var a := After(lib, nodeId, w, Examine(j));
      if Files(lib, w, b) then a == Moved(w, j, Based) else a == Moved(w, j, Dropped).(asked := true)
  {
    assert w.jobs[j].r.base != [];
    if w.filed.Some? {
      HashTellsSet(lib, w, b);
    }
  }

  /** A delta that names no base is dropped, and nothing is asked for. */
  lemma BaselessIsDropped(lib: Library, nodeId: string, w: World, j: nat)
    requires Enabled(w, Examine(j)) && w.jobs[j].r.Delta? && w.jobs[j].r.base == []
    ensures After(lib, nodeId, w, Examine(j)) == Moved(w, j, Dropped)
  {
  }

  /** With whatever rows it then reads, it is accepted exactly when the node's own id is
      the name the agent writes into its documents and those rows give s; otherwise it is
      dropped and nothing is asked for. */
  lemma DeltaOutcomeExactly(lib: Library, nodeId: string, w: World, j: nat, b: seq<Component>, s: seq<Component>)
    requires Sound(lib) && Inv(lib, w) && Enabled(w, ReadRows(j)) && IsDelta(lib, b, s, w.jobs[j].r)
    ensures
      var a, r := After(lib, nodeId, w, ReadRows(j)), w.jobs[j].r;
      if nodeId == NODE_REF && Applied(w.rows, r.added, r.removed) == IndexOf(s)
      then a == Moved(w, j, Ready(FullWrite(lib, s)))
      else a == Moved(w, j, Dropped)
  {
    RowsAreKeyed(lib, w);
    RebuildPassesExactly(lib, nodeId, w.rows, b, s, w.jobs[j].r);
  }

  /** On b's own rows, the rows give s exactly when every component that did not change
      survived storage whole. */
  lemma OwnRowsExactly(lib: Library, b: seq<Component>, s: seq<Component>, r: Report)
    requires UniqueKeys(b) && UniqueKeys(s) && IsDelta(lib, b, s, r)
    ensures Applied(RowsOf(lib, IndexOf(b)), r.added, r.removed) == IndexOf(s) <==> KeptIntact(lib, b, s)
  {
    AppliedSorted(RowsOf(lib, IndexOf(b)), Changed(IndexOf(b), s), Changed(IndexOf(s), b));
    RebuildsExactlyWhenIntact(lib, b, s);
  }

  /** Once the stored document is not the agent's last set, the next delta it sends makes
      the controller ask for a full. */
  lemma DesyncIsNoticed(lib: Library, nodeId: string, w: World, j: nat, comps: seq<Component>)
    requires Sound(lib) && Inv(lib, w) && w.agent.haveHash && !Files(lib, w, w.agent.lastSet)
    requires j < |w.jobs| && w.jobs[j] == Job(ReportFor(lib, w.agent, comps), Received) && w.jobs[j].r.Delta?
    ensures After(lib, nodeId, w, Examine(j)).asked
  {
    assert IsDelta(lib, w.agent.lastSet, comps, w.jobs[j].r);
    DeltaBaseExactly(lib, nodeId, w, j, w.agent.lastSet, comps);
  }

  // ---------------------------------------------------------------------------
  // A full, and the request for one.

  function FullWrite(lib: Library, comps: seq<Component>): Write {
    Write(lib.encode(NODE_REF, IndexOf(comps)), Digest(lib, NODE_REF, IndexOf(comps)), IndexOf(comps))
  }

  ghost predicate SendsFull(lib: Library, w: World, comps: seq<Component>) {
    !Unchanged(lib, w.agent, comps) && ReportFor(lib, w.agent, comps).Full?
  }

  /** A cycle that sends a full, and the controller up to the point of storing it. */
  lemma FullCycle(lib: Library, nodeId: string, w: World, comps: seq<Component>) returns (v: World)
    requires Sound(lib) && Reachable(lib, nodeId, w) && w.cycle.None?
    requires UniqueKeys(comps) && Reportable(comps) && SendsFull(lib, w, comps)
    ensures Reachable(lib, nodeId, v)
    ensures v == w.(agent := Reported(lib, comps), collected := v.collected, sent := v.sent, jobs := v.jobs)
    ensures v.jobs == w.jobs + [Job(ReportFor(lib, w.agent, comps), Ready(FullWrite(lib, comps)))]
  {
    var r, j := ReportFor(lib, w.agent, comps), |w.jobs|;
    var w1 := After(lib, nodeId, w, Begin(comps, true));
    StepReaches(lib, nodeId, w, Begin(comps, true));
    var w2 := After(lib, nodeId, w1, Finish);
    StepReaches(lib, nodeId, w1, Finish);
    var w3 := After(lib, nodeId, w2, Receive(r));
    StepReaches(lib, nodeId, w2, Receive(r));
    v := After(lib, nodeId, w3, Examine(j));
    StepReaches(lib, nodeId, w3, Examine(j));
    FullIsTaken(lib, comps, r);
    assert w3.jobs[j] == Job(r, Received);
  }

  /** A report that is stored without interference. */
  lemma StoreBoth(lib: Library, nodeId: string, w: World, j: nat) returns (v: World)
    requires Reachable(lib, nodeId, w) && j < |w.jobs| && w.jobs[j].phase.Ready?
    ensures Reachable(lib, nodeId, v)
    ensures
      var p := w.jobs[j].phase.p;
      v == Moved(w, j, Done(p)).(
             filed := Some(Filed(p.doc, p.hash, j)), rows := RowsOf(lib, p.next), rowsWriter := Some(j))
  {
    var mid := After(lib, nodeId, w, PutDoc(j));
    StepReaches(lib, nodeId, w, PutDoc(j));
    v := After(lib, nodeId, mid, PutRows(j));
    StepReaches(lib, nodeId, mid, PutRows(j));
  }

  /** The agent's state when its cycle, if it is in one, is over. */
  ghost function Settled(lib: Library, nodeId: string, w: World): World {
    if w.cycle.Some? then After(lib, nodeId, w, Finish) else w
  }

  /** After a request, the next cycle sends a full whatever it collects exactly when the
      request did not fall between the two sections of a cycle. */
  lemma RequestHeededExactly(lib: Library, nodeId: string, w: World)
    requires Sound(lib) && Inv(lib, w) && w.asked
    ensures
      var v := Settled(lib, nodeId, After(lib, nodeId, w, AskFull));
      && (v.agent.forceFull <==> w.cycle.None?)
      && ((forall comps :: UniqueKeys(comps) && Reportable(comps) ==> SendsFull(lib, v, comps)) <==> w.cycle.None?)
  {
    var v := Settled(lib, nodeId, After(lib, nodeId, w, AskFull));
    if w.cycle.Some? {
      assert Ours(w, w.cycle.value) && !SendsFull(lib, v, w.cycle.value);
    }
  }

  /** A restarted agent's first cycle sends a full whatever it collects. */
  lemma RestartSendsFull(lib: Library, nodeId: string, w: World, comps: seq<Component>)
    ensures
      var v := After(lib, nodeId, w, RestartAgent);
      SendsFull(lib, v, comps) && v.cycle.None? && v == w.(agent := v.agent, cycle := None)
  {
  }

  /** A request that is heeded puts both ends on one set: the next cycle's full, once
      stored without interference, is the agent's set in document, hash and rows. */
  lemma RequestResyncs(lib: Library, nodeId: string, w: World, comps: seq<Component>) returns (v: World)
    requires Sound(lib) && Reachable(lib, nodeId, w) && w.asked && w.cycle.None?
    requires UniqueKeys(comps) && Reportable(comps)
    ensures Reachable(lib, nodeId, v) && v.agent == Reported(lib, comps)
    ensures Files(lib, v, comps) && Agree(lib, v) && v.rows == RowsOf(lib, IndexOf(comps))
  {
    var forced := After(lib, nodeId, w, AskFull);
    StepReaches(lib, nodeId, w, AskFull);
    var sent := FullCycle(lib, nodeId, forced, comps);
    v := StoreBoth(lib, nodeId, sent, |forced.jobs|);
    assert lib.extract(v.filed.value.doc) == Some(IndexOf(comps));
  }

  // ---------------------------------------------------------------------------
  // Runs.

  lemma OneAdded(c: Component, d: Component)
    requires KeyOf(c) != KeyOf(d)
    ensures Changed(IndexOf([c]), [c, d]) == [d] && Changed(IndexOf([c, d]), [c]) == []
    ensures IndexOf([c]) == map[KeyOf(c) := c] && IndexOf([c, d]) == map[KeyOf(c) := c, KeyOf(d) := d]
    ensures UniqueKeys([c]) && UniqueKeys([c, d]) && Sorted([d]) == [d] && Sorted([]) == []
  {
    assert [c][..0] == [] && [c, d][..1] == [c] && [d][..0] == [];
    assert IndexOf([c]) == IndexOf([])[KeyOf(c) := c];
    assert IndexOf([c, d]) == IndexOf([c])[KeyOf(d) := d];
    assert Changed(IndexOf([c]), [c]) == Changed(IndexOf([c]), []) + [];
    assert Sorted([d]) == Placed(Sorted([]), d);
  }

  /** Two fulls whose writes cross leave the second one's document over the first one's
      rows. */
  lemma CrossedWritesMixSets(lib: Library, nodeId: string, c: Component, d: Component) returns (v: World)
    requires Sound(lib) && KeyOf(c) != KeyOf(d) && Reportable([c, d]) && Survives(lib, c)
    ensures Reachable(lib, nodeId, v) && Files(lib, v, [d]) && v.rows == RowsOf(lib, IndexOf([c]))
    ensures NoneHalf(v) && !Agree(lib, v)
  {
    OneAdded(c, d);
    OneAdded(d, c);
    var b := TwoFulls(lib, nodeId, c, d);
    v := Crossed(lib, nodeId, b);
    assert lib.extract(v.filed.value.doc) == Some(IndexOf([d]));
    assert KeyOf(c) in v.rows && KeyOf(c) !in IndexOf([d]);
  }

  /** Two fulls, both up to the point of being stored. */
  lemma TwoFulls(lib: Library, nodeId: string, c: Component, d: Component) returns (w: World)
    requires Sound(lib) && KeyOf(c) != KeyOf(d) && Reportable([c, d])
    ensures Reachable(lib, nodeId, w) && |w.jobs| == 2 && w.uploads == []
    ensures w.jobs[0].phase == Ready(FullWrite(lib, [c])) && w.jobs[1].phase == Ready(FullWrite(lib, [d]))
  {
    assert c in [c, d] && d in [c, d];
    assert UniqueKeys([c]) && UniqueKeys([d]);
    StartIsReachable(lib, nodeId);
    var a := FullCycle(lib, nodeId, START, [c]);
    SecondIsFull(lib, c, d);
    w := FullCycle(lib, nodeId, a, [d]);
  }

  /** With nothing in common, re-sending everything is not larger than a delta. */
  lemma SecondIsFull(lib: Library, c: Component, d: Component)
    requires Sound(lib) && KeyOf(c) != KeyOf(d)
    ensures ReportFor(lib, Reported(lib, [c]), [d]).Full? && !Unchanged(lib, Reported(lib, [c]), [d])
  {
    OneAdded(c, d);
    OneAdded(d, c);
    assert Changed(IndexOf([c]), [d]) == [d] by {
      assert [d][..0] == [];
    }
    SortedLength([d]);
    IndexIsKeyed([c]);
    IndexIsKeyed([d]);
    SameDigest(lib, NODE_REF, IndexOf([c]), NODE_REF, IndexOf([d]));
    assert KeyOf(d) !in IndexOf([c]);
  }

  /** Two reports ready to be stored: both documents, then both rows the other way round. */
  lemma Crossed(lib: Library, nodeId: string, w: World) returns (v: World)
    requires Reachable(lib, nodeId, w) && |w.jobs| == 2 && w.jobs[0].phase.Ready? && w.jobs[1].phase.Ready?
    ensures Reachable(lib, nodeId, v) && NoneHalf(v)
    ensures v.filed == Some(Filed(w.jobs[1].phase.p.doc, w.jobs[1].phase.p.hash, 1))
    ensures v.rows == RowsOf(lib, w.jobs[0].phase.p.next)
  {
    var w1 := After(lib, nodeId, w, PutDoc(0));
    StepReaches(lib, nodeId, w, PutDoc(0));
    var w2 := After(lib, nodeId, w1, PutDoc(1));
    StepReaches(lib, nodeId, w1, PutDoc(1));
    var w3 := After(lib, nodeId, w2, PutRows(1));
    StepReaches(lib, nodeId, w2, PutRows(1));
    v := After(lib, nodeId, w3, PutRows(0));
    StepReaches(lib, nodeId, w3, PutRows(0));
  }

  /** An upload that reads the rows before a report is stored and writes them after puts
      the older rows under the newer document, although no two reports overlap. */
  lemma UploadRestoresOldRows(lib: Library, nodeId: string, c: Component, d: Component) returns (v: World)
    requires Sound(lib) && KeyOf(c) != KeyOf(d) && Reportable([c, d]) && Survives(lib, c)
    ensures Reachable(lib, nodeId, v) && Files(lib, v, [d]) && v.rows == RowsOf(lib, IndexOf([c]))
    ensures NoneHalf(v) && !Agree(lib, v)
  {
    OneAdded(c, d);
    OneAdded(d, c);
    var w := TwoFulls(lib, nodeId, c, d);
    v := Restored(lib, nodeId, w);
    assert lib.extract(v.filed.value.doc) == Some(IndexOf([d]));
    assert KeyOf(c) in v.rows && KeyOf(c) !in IndexOf([d]);
  }

  /** Two reports stored one after the other, with an upload around the second. */
  lemma Restored(lib: Library, nodeId: string, w: World) returns (v: World)
    requires Reachable(lib, nodeId, w) && |w.jobs| == 2 && w.jobs[0].phase.Ready? && w.jobs[1].phase.Ready?
    requires w.uploads == []
    ensures Reachable(lib, nodeId, v) && NoneHalf(v)
    ensures v.filed == Some(Filed(w.jobs[1].phase.p.doc, w.jobs[1].phase.p.hash, 1))
    ensures v.rows == RowsOf(lib, w.jobs[0].phase.p.next)
  {
    var w1 := StoreBoth(lib, nodeId, w, 0);
    var w2 := After(lib, nodeId, w1, LoadRows);
    StepReaches(lib, nodeId, w1, LoadRows);
    var w3 := StoreBoth(lib, nodeId, w2, 1);
    v := After(lib, nodeId, w3, RestoreRows(0));
    StepReaches(lib, nodeId, w3, RestoreRows(0));
  }

  /** The delta from one component to two. */
  lemma GrownIsDelta(lib: Library, c: Component, d: Component)
    requires Sound(lib) && KeyOf(c) != KeyOf(d)
    ensures
      var r := ReportFor(lib, Reported(lib, [c]), [c, d]);
      IsDelta(lib, [c], [c, d], r) && !Unchanged(lib, Reported(lib, [c]), [c, d])
  {
    OneAdded(c, d);
    IndexIsKeyed([c]);
    IndexIsKeyed([c, d]);
    SameDigest(lib, NODE_REF, IndexOf([c]), NODE_REF, IndexOf([c, d]));
    assert KeyOf(d) !in IndexOf([c]);
  }

  /** On a node whose id is not the name the agent writes, the first delta is dropped: the
      controller stays on the first set and asks for nothing. */
  lemma FirstDeltaIsDropped(lib: Library, nodeId: string, c: Component, d: Component) returns (v: World)
    requires Sound(lib) && nodeId != NODE_REF && KeyOf(c) != KeyOf(d) && Reportable([c, d])
    ensures Reachable(lib, nodeId, v) && v.agent.lastSet == [c, d] && |v.jobs| == 2 && v.jobs[1].phase.Dropped?
    ensures Files(lib, v, [c]) && Agree(lib, v) && !v.asked
  {
    assert c in [c, d] && d in [c, d];
    OneAdded(c, d);
    GrownIsDelta(lib, c, d);
    StartIsReachable(lib, nodeId);
    var a := FullCycle(lib, nodeId, START, [c]);
    var w := StoreBoth(lib, nodeId, a, 0);
    v := DeltaDropped(lib, nodeId, w, [c], [c, d]);
    assert lib.extract(v.filed.value.doc) == Some(IndexOf([c]));
  }

  lemma DeltaDropped(lib: Library, nodeId: string, w: World, b: seq<Component>, s: seq<Component>) returns (v: World)
    requires Sound(lib) && nodeId != NODE_REF && Reachable(lib, nodeId, w) && w.cycle.None? && |w.jobs| == 1
    requires UniqueKeys(s) && Reportable(s) && Files(lib, w, b)
    requires !Unchanged(lib, w.agent, s) && IsDelta(lib, b, s, ReportFor(lib, w.agent, s))
    ensures Reachable(lib, nodeId, v) && v.agent == Reported(lib, s) && |v.jobs| == 2 && v.jobs[1].phase.Dropped?
    ensures v.filed == w.filed && v.rows == w.rows && v.asked == w.asked
  {
    var r := ReportFor(lib, w.agent, s);
    var w1 := After(lib, nodeId, w, Begin(s, true));
    StepReaches(lib, nodeId, w, Begin(s, true));
    var w2 := After(lib, nodeId, w1, Finish);
    StepReaches(lib, nodeId, w1, Finish);
    var w3 := After(lib, nodeId, w2, Receive(r));
    StepReaches(lib, nodeId, w2, Receive(r));
    assert w3.jobs[1] == Job(r, Received);
    v := JobDropped(lib, nodeId, w3, b, s);
  }

  lemma JobDropped(lib: Library, nodeId: string, w: World, b: seq<Component>, s: seq<Component>) returns (v: World)
    requires Sound(lib) && nodeId != NODE_REF && Reachable(lib, nodeId, w) && Files(lib, w, b)
    requires |w.jobs| == 2 && w.jobs[1].phase.Received? && IsDelta(lib, b, s, w.jobs[1].r)
    ensures Reachable(lib, nodeId, v) && v == Moved(w, 1, Dropped)
  {
    BaseHeld(lib, nodeId, w, 1, b, s);
    StepReaches(lib, nodeId, w, Examine(1));
    var mid := Moved(w, 1, Based);
    OtherIdDrops(lib, nodeId, mid, 1, b, s);
    StepReaches(lib, nodeId, mid, ReadRows(1));
    v := Moved(mid, 1, Dropped);
  }

  lemma BaseHeld(lib: Library, nodeId: string, w: World, j: nat, b: seq<Component>, s: seq<Component>)
    requires Sound(lib) && Reachable(lib, nodeId, w) && Files(lib, w, b)
    requires Enabled(w, Examine(j)) && IsDelta(lib, b, s, w.jobs[j].r)
    ensures After(lib, nodeId, w, Examine(j)) == Moved(w, j, Based)
  {
    ReachableKeeps(lib, nodeId, w);
    DeltaBaseExactly(lib, nodeId, w, j, b, s);
  }

  lemma OtherIdDrops(lib: Library, nodeId: string, w: World, j: nat, b: seq<Component>, s: seq<Component>)
    requires Sound(lib) && nodeId != NODE_REF && Reachable(lib, nodeId, w)
    requires Enabled(w, ReadRows(j)) && IsDelta(lib, b, s, w.jobs[j].r)
    ensures After(lib, nodeId, w, ReadRows(j)) == Moved(w, j, Dropped)
  {
    ReachableKeeps(lib, nodeId, w);
    DeltaOutcomeExactly(lib, nodeId, w, j, b, s);
  }

  /** The first full is lost; the delta after it is answered by a request while the agent
      is still inside the cycle that sent it. The request is forgotten, and the agent,
      whose set does not change, sends nothing more while the controller holds nothing. */
  lemma RequestCanBeForgotten(lib: Library, nodeId: string, c: Component, d: Component) returns (v: World)
    requires Sound(lib) && KeyOf(c) != KeyOf(d) && Reportable([c, d])
    ensures Reachable(lib, nodeId, v) && v.asked && v.filed.None? && v.cycle.None?
    ensures v.agent == Reported(lib, [c, d]) && Unchanged(lib, v.agent, [c, d])
  {
    assert c in [c, d] && d in [c, d];
    OneAdded(c, d);
    GrownIsDelta(lib, c, d);
    StartIsReachable(lib, nodeId);
    var a := FullCycle(lib, nodeId, START, [c]);
    v := Forgotten(lib, nodeId, a, [c], [c, d]);
  }

  lemma Forgotten(lib: Library, nodeId: string, w: World, b: seq<Component>, s: seq<Component>) returns (v: World)
    requires Sound(lib) && Reachable(lib, nodeId, w) && w.cycle.None? && w.filed.None? && |w.jobs| == 1
    requires UniqueKeys(s) && Reportable(s)
    requires !Unchanged(lib, w.agent, s) && IsDelta(lib, b, s, ReportFor(lib, w.agent, s))
    ensures Reachable(lib, nodeId, v) && v.asked && v.filed.None? && v.cycle.None? && v.agent == Reported(lib, s)
  {
    var r := ReportFor(lib, w.agent, s);
    var w1 := After(lib, nodeId, w, Begin(s, true));
    StepReaches(lib, nodeId, w, Begin(s, true));
    var w2 := After(lib, nodeId, w1, Receive(r));
    StepReaches(lib, nodeId, w1, Receive(r));
    assert w2.jobs[1] == Job(r, Received) && r.base != [];
    var w3 := After(lib, nodeId, w2, Examine(1));
    StepReaches(lib, nodeId, w2, Examine(1));
    var w4 := After(lib, nodeId, w3, AskFull);
    StepReaches(lib, nodeId, w3, AskFull);
    v := After(lib, nodeId, w4, Finish);
    StepReaches(lib, nodeId, w4, Finish);
  }
}
