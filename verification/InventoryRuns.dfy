/**
 Inventory reporting over whole runs. The agent's cycle has two locked sections, and the
 controller's workers take each report through separate store transactions: the base is
 checked, the rows are read, the document is written, the rows are written. An upload of
 external components reads the agent's rows in one transaction and writes them back in
 another. Everything interleaves, and a controller that stops leaves its workers where
 they were.
 */
module InventoryRuns {
  import opened Prelude
  import opened Sbom
  import opened SbomOrder
  import opened Inventory

  /** What a worker is about to store. */
  datatype Write = Write(doc: Bytes, hash: Bytes, next: Index)

  /** Half is between the document write and the row write. */
  datatype Phase = Received | Based | Ready(p: Write) | Half(p: Write) | Done(p: Write) | Dropped

  datatype Job = Job(r: Report, phase: Phase)

  /** The stored document and hash, and the job that wrote them. */
  datatype Filed = Filed(doc: Bytes, hash: Bytes, writer: nat)

  /** The agent's rows as an upload read them, with the job that had written them. */
  datatype Upload = Upload(rows: Index, writer: Option<nat>, done: bool)

  /** cycle is the set being reported while the agent is between its two sections;
      collected is everything ever reported on, sent every report ever sent; asked tells
      that the controller has asked for a full. rows are the agent's rows, and rowsWriter
      the job they are of. */
  datatype World = World(
    agent: Agent,
    cycle: Option<seq<Component>>,
    collected: set<seq<Component>>,
    sent: set<Report>,
    asked: bool,
    jobs: seq<Job>,
    filed: Option<Filed>,
    rows: Index,
    rowsWriter: Option<nat>,
    uploads: seq<Upload>)

  const START := World(IDLE, None, {}, {}, false, [], None, map[], None, [])

  datatype Step =
    | Begin(comps: seq<Component>, wired: bool)
    | Finish
    | AskFull
    | RestartAgent
    | Receive(r: Report)
    | Examine(j: nat)
    | ReadRows(j: nat)
    | PutDoc(j: nat)
    | PutRows(j: nat)
    | LoadRows
    | RestoreRows(u: nat)

  ghost predicate Enabled(w: World, s: Step) {
    match s
    case Begin(comps, _) => w.cycle.None? && UniqueKeys(comps) && Reportable(comps)
    case Finish => w.cycle.Some?
    case AskFull => w.asked
    case RestartAgent => true
    case Receive(r) => r in w.sent
    case Examine(j) => j < |w.jobs| && w.jobs[j].phase.Received?
    case ReadRows(j) => j < |w.jobs| && w.jobs[j].phase.Based? && w.jobs[j].r.Delta?
    case PutDoc(j) => j < |w.jobs| && w.jobs[j].phase.Ready?
    case PutRows(j) => j < |w.jobs| && w.jobs[j].phase.Half?
    case LoadRows => true
    case RestoreRows(u) => u < |w.uploads| && !w.uploads[u].done
  }

  function Moved(w: World, j: nat, phase: Phase): World
    requires j < |w.jobs|
  {
    w.(jobs := w.jobs[j := w.jobs[j].(phase := phase)])
  }

  /** A full is decoded; a delta is held against the stored hash, and a full is asked for
      when the hash is not the delta's base. */
  function Examined(lib: Library, w: World, j: nat): World
    requires j < |w.jobs|
  {
    var r := w.jobs[j].r;
    if r.Full? then
      var got := Taken(lib, r);
      Moved(w, j, if got.None? then Dropped else Ready(Write(r.doc, lib.hash(r.doc), got.value)))
    else if r.base == [] then Moved(w, j, Dropped)
    else if w.filed.None? || w.filed.value.hash != r.base then Moved(w, j, Dropped).(asked := true)
    else Moved(w, j, Based)
  }

  function RowsRead(lib: Library, nodeId: string, w: World, j: nat): World
    requires j < |w.jobs| && w.jobs[j].r.Delta?
  {
    var got := Rebuild(lib, nodeId, w.rows, w.jobs[j].r);
    Moved(w, j,
          if got.None? then Dropped
          else Ready(Write(lib.encode(nodeId, got.value), Digest(lib, nodeId, got.value), got.value)))
  }

  ghost function After(lib: Library, nodeId: string, w: World, s: Step): World
    requires Enabled(w, s)
  {
    match s
    case Begin(comps, wired) =>
      if Unchanged(lib, w.agent, comps) || !wired then w
      else
        w.(cycle := Some(comps), collected := w.collected + {comps},
           sent := w.sent + {ReportFor(lib, w.agent, comps)})
    case Finish => w.(agent := Reported(lib, w.cycle.value), cycle := None)
    case AskFull => w.(agent := w.agent.(forceFull := true))
    case RestartAgent => w.(agent := IDLE, cycle := None)
    case Receive(r) => w.(jobs := w.jobs + [Job(r, Received)])
    case Examine(j) => Examined(lib, w, j)
    case ReadRows(j) => RowsRead(lib, nodeId, w, j)
    case PutDoc(j) =>
      var p := w.jobs[j].phase.p;
      Moved(w, j, Half(p)).(filed := Some(Filed(p.doc, p.hash, j)))
    case PutRows(j) =>
      var p := w.jobs[j].phase.p;
      Moved(w, j, Done(p)).(rows := RowsOf(lib, p.next), rowsWriter := Some(j))
    case LoadRows => w.(uploads := w.uploads + [Upload(w.rows, w.rowsWriter, false)])
    case RestoreRows(u) =>
      var up := w.uploads[u];
      w.(rows := up.rows, rowsWriter := up.writer, uploads := w.uploads[u := up.(done := true)])
  }

  // ---------------------------------------------------------------------------
  // The invariant.

  ghost predicate Ours(w: World, comps: seq<Component>) {
    comps in w.collected && UniqueKeys(comps) && Reportable(comps)
  }

  ghost predicate IsFull(lib: Library, s: seq<Component>, r: Report) {
    r.Full? && r.doc == lib.encode(NODE_REF, IndexOf(s)) && r.hash == lib.hash(r.doc)
  }

  ghost predicate IsDelta(lib: Library, b: seq<Component>, s: seq<Component>, r: Report) {
    && r.Delta?
    && r.base == Digest(lib, NODE_REF, IndexOf(b)) && r.hash == Digest(lib, NODE_REF, IndexOf(s))
    && r.added == Sorted(Changed(IndexOf(b), s)) && r.removed == Sorted(Changed(IndexOf(s), b))
  }

  /** A report is the agent's own account of something it collected. */
  ghost predicate Genuine(lib: Library, w: World, r: Report) {
    || (exists s :: Ours(w, s) && IsFull(lib, s, r))
    || (exists b, s :: Ours(w, b) && Ours(w, s) && IsDelta(lib, b, s, r))
  }

  ghost predicate Writes(lib: Library, p: Write, s: seq<Component>) {
    p.next == IndexOf(s) && p.doc == lib.encode(NODE_REF, p.next) && p.hash == lib.hash(p.doc)
  }

  ghost predicate WriteOk(lib: Library, w: World, p: Write) {
    exists s :: Ours(w, s) && Writes(lib, p, s)
  }

  predicate HasWrite(phase: Phase) {
    phase.Ready? || phase.Half? || phase.Done?
  }

  ghost predicate AgentOk(lib: Library, w: World) {
    && (w.agent.haveHash ==>
          Ours(w, w.agent.lastSet) && w.agent.lastHash == Digest(lib, NODE_REF, IndexOf(w.agent.lastSet)))
    && (w.cycle.Some? ==> Ours(w, w.cycle.value))
  }

  ghost predicate JobsOk(lib: Library, w: World) {
    forall j :: 0 <= j < |w.jobs| ==>
      w.jobs[j].r in w.sent && (HasWrite(w.jobs[j].phase) ==> WriteOk(lib, w, w.jobs[j].phase.p))
  }

  /** The document is its writer's. */
  ghost predicate FiledOk(w: World) {
    w.filed.Some? ==>
      var f := w.filed.value;
      && f.writer < |w.jobs| && HasWrite(w.jobs[f.writer].phase) && !w.jobs[f.writer].phase.Ready?
      && f.doc == w.jobs[f.writer].phase.p.doc && f.hash == w.jobs[f.writer].phase.p.hash
  }

  /** These are the rows of the job that wrote them. */
  ghost predicate RowsFrom(lib: Library, jobs: seq<Job>, rows: Index, writer: Option<nat>) {
    if writer.None? then rows == map[]
    else
      && writer.value < |jobs| && jobs[writer.value].phase.Done?
      && rows == RowsOf(lib, jobs[writer.value].phase.p.next)
  }

  ghost predicate RowsOk(lib: Library, w: World) {
    RowsFrom(lib, w.jobs, w.rows, w.rowsWriter)
  }

  ghost predicate UploadsOk(lib: Library, w: World) {
    forall u :: 0 <= u < |w.uploads| ==> RowsFrom(lib, w.jobs, w.uploads[u].rows, w.uploads[u].writer)
  }

  ghost predicate SentOk(lib: Library, w: World) {
    forall r :: r in w.sent ==> Genuine(lib, w, r)
  }

  ghost predicate StoreOk(lib: Library, w: World) {
    AgentOk(lib, w) && SentOk(lib, w) && JobsOk(lib, w) && FiledOk(w) && RowsOk(lib, w)
  }

  ghost predicate Inv(lib: Library, w: World) {
    StoreOk(lib, w) && UploadsOk(lib, w)
  }

  lemma IndexIsKeyed(comps: seq<Component>)
    ensures Keyed(IndexOf(comps))
  {
    IndexMeans(comps);
  }

  lemma AppliedIsKeyedToo(base: Index, added: seq<Component>, removed: seq<Component>)
    requires Keyed(base)
    ensures Keyed(Applied(base, added, removed))
  {
    IndexMeans(added);
  }

  lemma SameDigest(lib: Library, r: string, s: Index, q: string, t: Index)
    requires Sound(lib) && Keyed(s) && Keyed(t)
    ensures Digest(lib, r, s) == Digest(lib, q, t) <==> r == q && s == t
  {
    assert lib.hash(lib.encode(r, s)) == lib.hash(lib.encode(q, t)) ==> lib.encode(r, s) == lib.encode(q, t);
  }

  lemma GrowsGenuine(lib: Library, w: World, a: World, r: Report)
    requires Genuine(lib, w, r) && w.collected <= a.collected
    ensures Genuine(lib, a, r)
  {
    if s :| Ours(w, s) && IsFull(lib, s, r) {
      assert Ours(a, s);
    } else {
      var b, s :| Ours(w, b) && Ours(w, s) && IsDelta(lib, b, s, r);
      assert Ours(a, b) && Ours(a, s);
    }
  }

  lemma GrowsWrite(lib: Library, w: World, a: World, p: Write)
    requires WriteOk(lib, w, p) && w.collected <= a.collected
    ensures WriteOk(lib, a, p)
  {
    var s :| Ours(w, s) && Writes(lib, p, s);
    assert Ours(a, s);
  }

  lemma SentIsGenuine(lib: Library, w: World, a: World, comps: seq<Component>)
    requires AgentOk(lib, w) && UniqueKeys(comps) && Reportable(comps) && a.collected == w.collected + {comps}
    ensures Genuine(lib, a, ReportFor(lib, w.agent, comps))
  {
    var r := ReportFor(lib, w.agent, comps);
    assert Ours(a, comps);
    if r.Full? {
      assert IsFull(lib, comps, r);
    } else {
      assert Ours(a, w.agent.lastSet) && IsDelta(lib, w.agent.lastSet, comps, r);
    }
  }

  lemma BeginKeeps(lib: Library, nodeId: string, w: World, comps: seq<Component>, wired: bool)
    requires StoreOk(lib, w) && Enabled(w, Begin(comps, wired))
    ensures StoreOk(lib, After(lib, nodeId, w, Begin(comps, wired)))
  {
    var a := After(lib, nodeId, w, Begin(comps, wired));
    if !Unchanged(lib, w.agent, comps) && wired {
      SentIsGenuine(lib, w, a, comps);
      forall r | r in w.sent ensures Genuine(lib, a, r) {
        GrowsGenuine(lib, w, a, r);
      }
      forall j | 0 <= j < |w.jobs| && HasWrite(w.jobs[j].phase) ensures WriteOk(lib, a, w.jobs[j].phase.p) {
        GrowsWrite(lib, w, a, w.jobs[j].phase.p);
      }
    }
  }

  /** Whatever a step does on the agent's side, what was sent and what is stored stay
      accounted for. */
  lemma SameSide(lib: Library, w: World, a: World)
    requires SentOk(lib, w) && JobsOk(lib, w) && FiledOk(w) && RowsOk(lib, w)
    requires a.collected == w.collected && a.sent == w.sent
    requires a.jobs == w.jobs && a.filed == w.filed && a.rows == w.rows && a.rowsWriter == w.rowsWriter
    ensures SentOk(lib, a) && JobsOk(lib, a) && FiledOk(a) && RowsOk(lib, a)
  {
    forall r | r in a.sent ensures Genuine(lib, a, r) {
      GrowsGenuine(lib, w, a, r);
    }
    forall j | 0 <= j < |a.jobs| && HasWrite(a.jobs[j].phase) ensures WriteOk(lib, a, a.jobs[j].phase.p) {
      GrowsWrite(lib, w, a, a.jobs[j].phase.p);
    }
  }

  lemma AgentStepKeeps(lib: Library, nodeId: string, w: World, s: Step)
    requires StoreOk(lib, w) && Enabled(w, s) && (s.Finish? || s.AskFull? || s.RestartAgent?)
    ensures StoreOk(lib, After(lib, nodeId, w, s))
  {
    SameSide(lib, w, After(lib, nodeId, w, s));
  }

  // ---------------------------------------------------------------------------
  // The controller's side.

  /** A genuine full gives the set it was made from. */
  lemma FullIsTaken(lib: Library, s: seq<Component>, r: Report)
    requires Sound(lib) && Reportable(s) && IsFull(lib, s, r)
    ensures Taken(lib, r) == Some(IndexOf(s))
  {
  }

  /** Whatever rows a worker happens to read, a genuine delta passes its re-hash exactly
      when the node's id is the name the agent writes and the rows give the very set the
      delta was made for. */
  lemma RebuildPassesExactly(
    lib: Library, nodeId: string, rows: Index, b: seq<Component>, s: seq<Component>, r: Report)
    requires Sound(lib) && Keyed(rows) && IsDelta(lib, b, s, r)
    ensures Rebuild(lib, nodeId, rows, r).Some? <==>
      nodeId == NODE_REF && Applied(rows, r.added, r.removed) == IndexOf(s)
    ensures Rebuild(lib, nodeId, rows, r).Some? ==> Rebuild(lib, nodeId, rows, r).value == IndexOf(s)
  {
    AppliedIsKeyedToo(rows, r.added, r.removed);
    IndexIsKeyed(s);
    SameDigest(lib, nodeId, Applied(rows, r.added, r.removed), NODE_REF, IndexOf(s));
    assert r.hash != [];
  }

  lemma RowsAreKeyed(lib: Library, w: World)
    requires StoreOk(lib, w)
    ensures Keyed(w.rows)
  {
    if w.rowsWriter.Some? {
      var p := w.jobs[w.rowsWriter.value].phase.p;
      assert WriteOk(lib, w, p);
      var s :| Ours(w, s) && Writes(lib, p, s);
      IndexIsKeyed(s);
    }
  }

  /** A worker's next phase keeps everything, if what it is about to write is in order. */
  lemma MoveKeeps(lib: Library, w: World, a: World, j: nat, phase: Phase)
    requires StoreOk(lib, w) && j < |w.jobs|
    requires a == Moved(w, j, phase).(asked := a.asked)
    requires !HasWrite(w.jobs[j].phase)
    requires HasWrite(phase) ==> WriteOk(lib, w, phase.p)
    ensures StoreOk(lib, a)
  {
    forall r | r in a.sent ensures Genuine(lib, a, r) {
      GrowsGenuine(lib, w, a, r);
    }
    forall i | 0 <= i < |a.jobs| && HasWrite(a.jobs[i].phase) ensures WriteOk(lib, a, a.jobs[i].phase.p) {
      GrowsWrite(lib, w, a, a.jobs[i].phase.p);
    }
  }

  lemma ExamineKeeps(lib: Library, nodeId: string, w: World, j: nat)
    requires Sound(lib) && StoreOk(lib, w) && Enabled(w, Examine(j))
    ensures StoreOk(lib, After(lib, nodeId, w, Examine(j)))
  {
    var r, a := w.jobs[j].r, After(lib, nodeId, w, Examine(j));
    assert Genuine(lib, w, r);
    if s :| Ours(w, s) && IsFull(lib, s, r) {
      FullIsTaken(lib, s, r);
      assert Writes(lib, a.jobs[j].phase.p, s);
    }
    MoveKeeps(lib, w, a, j, a.jobs[j].phase);
  }

  lemma ReadRowsKeeps(lib: Library, nodeId: string, w: World, j: nat)
    requires Sound(lib) && StoreOk(lib, w) && Enabled(w, ReadRows(j))
    ensures StoreOk(lib, After(lib, nodeId, w, ReadRows(j)))
  {
    var r, a := w.jobs[j].r, After(lib, nodeId, w, ReadRows(j));
    assert Genuine(lib, w, r);
    var b, s :| Ours(w, b) && Ours(w, s) && IsDelta(lib, b, s, r);
    RowsAreKeyed(lib, w);
    RebuildPassesExactly(lib, nodeId, w.rows, b, s, r);
    if a.jobs[j].phase.Ready? {
      assert Writes(lib, a.jobs[j].phase.p, s);
    }
    MoveKeeps(lib, w, a, j, a.jobs[j].phase);
  }

  lemma PutKeeps(lib: Library, nodeId: string, w: World, s: Step)
    requires StoreOk(lib, w) && Enabled(w, s) && (s.PutDoc? || s.PutRows?)
    ensures StoreOk(lib, After(lib, nodeId, w, s))
  {
    var a := After(lib, nodeId, w, s);
    forall r | r in a.sent ensures Genuine(lib, a, r) {
      GrowsGenuine(lib, w, a, r);
    }
    forall i | 0 <= i < |a.jobs| && HasWrite(a.jobs[i].phase) ensures WriteOk(lib, a, a.jobs[i].phase.p) {
      assert WriteOk(lib, w, w.jobs[i].phase.p);
      GrowsWrite(lib, w, a, a.jobs[i].phase.p);
    }
  }

  lemma ReceiveKeeps(lib: Library, nodeId: string, w: World, r: Report)
    requires StoreOk(lib, w) && r in w.sent
    ensures StoreOk(lib, After(lib, nodeId, w, Receive(r)))
  {
    var a := After(lib, nodeId, w, Receive(r));
    forall q | q in a.sent ensures Genuine(lib, a, q) {
      GrowsGenuine(lib, w, a, q);
    }
    forall i | 0 <= i < |a.jobs| && HasWrite(a.jobs[i].phase) ensures WriteOk(lib, a, a.jobs[i].phase.p) {
      GrowsWrite(lib, w, a, a.jobs[i].phase.p);
    }
  }

  lemma RowsStepKeeps(lib: Library, nodeId: string, w: World, s: Step)
    requires Inv(lib, w) && Enabled(w, s) && (s.LoadRows? || s.RestoreRows?)
    ensures StoreOk(lib, After(lib, nodeId, w, s))
  {
    var a := After(lib, nodeId, w, s);
    forall r | r in a.sent ensures Genuine(lib, a, r) {
      GrowsGenuine(lib, w, a, r);
    }
    forall i | 0 <= i < |a.jobs| && HasWrite(a.jobs[i].phase) ensures WriteOk(lib, a, a.jobs[i].phase.p) {
      GrowsWrite(lib, w, a, a.jobs[i].phase.p);
    }
  }

  /** A report that is stored stays what it was. */
  ghost predicate DoneStay(w: World, a: World) {
    forall j :: 0 <= j < |w.jobs| && w.jobs[j].phase.Done? ==> j < |a.jobs| && a.jobs[j] == w.jobs[j]
  }

  lemma StepDoneStay(lib: Library, nodeId: string, w: World, s: Step)
    requires Enabled(w, s)
    ensures DoneStay(w, After(lib, nodeId, w, s))
  {
  }

  lemma RowsFromStays(lib: Library, w: World, a: World, rows: Index, writer: Option<nat>)
    requires DoneStay(w, a) && RowsFrom(lib, w.jobs, rows, writer)
    ensures RowsFrom(lib, a.jobs, rows, writer)
  {
  }

  /** What an upload has read are rows it had read before, or the rows stored now. */
  ghost predicate Loaded(w: World, up: Upload) {
    || (up.rows == w.rows && up.writer == w.rowsWriter)
    || exists u :: 0 <= u < |w.uploads| && up.rows == w.uploads[u].rows && up.writer == w.uploads[u].writer
  }

  lemma StepLoads(lib: Library, nodeId: string, w: World, s: Step, u: nat)
    requires Enabled(w, s) && u < |After(lib, nodeId, w, s).uploads|
    ensures Loaded(w, After(lib, nodeId, w, s).uploads[u])
  {
    var a := After(lib, nodeId, w, s);
    if u < |w.uploads| {
      assert a.uploads[u].rows == w.uploads[u].rows && a.uploads[u].writer == w.uploads[u].writer;
    }
  }

  lemma UploadsKeep(lib: Library, w: World, a: World)
    requires UploadsOk(lib, w) && RowsOk(lib, w) && DoneStay(w, a)
    requires forall u :: 0 <= u < |a.uploads| ==> Loaded(w, a.uploads[u])
    ensures UploadsOk(lib, a)
  {
    forall u | 0 <= u < |a.uploads| ensures RowsFrom(lib, a.jobs, a.uploads[u].rows, a.uploads[u].writer) {
      RowsFromStays(lib, w, a, a.uploads[u].rows, a.uploads[u].writer);
    }
  }

  lemma UploadsStepKeeps(lib: Library, nodeId: string, w: World, s: Step)
    requires UploadsOk(lib, w) && RowsOk(lib, w) && Enabled(w, s)
    ensures UploadsOk(lib, After(lib, nodeId, w, s))
  {
    var a := After(lib, nodeId, w, s);
    StepDoneStay(lib, nodeId, w, s);
    forall u | 0 <= u < |a.uploads| ensures Loaded(w, a.uploads[u]) {
      StepLoads(lib, nodeId, w, s, u);
    }
    UploadsKeep(lib, w, a);
  }

  lemma StepKeeps(lib: Library, nodeId: string, w: World, s: Step)
    requires Sound(lib) && Inv(lib, w) && Enabled(w, s)
    ensures Inv(lib, After(lib, nodeId, w, s))
  {
    UploadsStepKeeps(lib, nodeId, w, s);
    match s
    case Begin(comps, wired) => BeginKeeps(lib, nodeId, w, comps, wired);
    case Receive(r) => ReceiveKeeps(lib, nodeId, w, r);
    case Examine(j) => ExamineKeeps(lib, nodeId, w, j);
    case ReadRows(j) => ReadRowsKeeps(lib, nodeId, w, j);
    case PutDoc(j) => PutKeeps(lib, nodeId, w, s);
    case PutRows(j) => PutKeeps(lib, nodeId, w, s);
    case LoadRows => RowsStepKeeps(lib, nodeId, w, s);
    case RestoreRows(u) => RowsStepKeeps(lib, nodeId, w, s);
    case _ => AgentStepKeeps(lib, nodeId, w, s);
  }

  ghost predicate StepAt(lib: Library, nodeId: string, run: seq<World>, steps: seq<Step>, i: nat)
    requires i < |steps| && |run| == |steps| + 1
  {
    Enabled(run[i], steps[i]) && run[i + 1] == After(lib, nodeId, run[i], steps[i])
  }

  ghost predicate Run(lib: Library, nodeId: string, run: seq<World>, steps: seq<Step>) {
    && |run| == |steps| + 1 && run[0] == START
    && forall i: nat {:trigger StepAt(lib, nodeId, run, steps, i)} :: i < |steps| ==> StepAt(lib, nodeId, run, steps, i)
  }

  lemma {:induction false} RunKeeps(lib: Library, nodeId: string, run: seq<World>, steps: seq<Step>, i: nat)
    requires Sound(lib) && Run(lib, nodeId, run, steps) && i < |run|
    ensures Inv(lib, run[i])
  {
    if i > 0 {
      RunKeeps(lib, nodeId, run, steps, i - 1);
      assert StepAt(lib, nodeId, run, steps, i - 1);
      StepKeeps(lib, nodeId, run[i - 1], steps[i - 1]);
    }
  }

  // ---------------------------------------------------------------------------
  // What the controller holds.

  /** The document and hash of this set are stored. */
  ghost predicate Files(lib: Library, w: World, s: seq<Component>) {
    w.filed.Some? && w.filed.value.doc == lib.encode(NODE_REF, IndexOf(s)) &&
    w.filed.value.hash == Digest(lib, NODE_REF, IndexOf(s))
  }

  /** Whatever the network, the workers and the uploads do, the stored document and hash are those of
      one set the agent collected, and the stored rows are those of one such set. */
  lemma HeldWasCollected(lib: Library, nodeId: string, run: seq<World>, steps: seq<Step>, i: nat)
    requires Sound(lib) && Run(lib, nodeId, run, steps) && i < |run|
    ensures run[i].filed.Some? ==>
      exists s :: s in run[i].collected && Files(lib, run[i], s) &&
        lib.extract(run[i].filed.value.doc) == Some(IndexOf(s))
    ensures run[i].rowsWriter.Some? ==> exists s :: s in run[i].collected && run[i].rows == RowsOf(lib, IndexOf(s))
    ensures run[i].rowsWriter.None? ==> run[i].rows == map[]
  {
    RunKeeps(lib, nodeId, run, steps, i);
    var w := run[i];
    if w.filed.Some? {
      var p := w.jobs[w.filed.value.writer].phase.p;
      assert WriteOk(lib, w, p);
      var s :| Ours(w, s) && Writes(lib, p, s);
      assert Files(lib, w, s);
    }
    if w.rowsWriter.Some? {
      var p := w.jobs[w.rowsWriter.value].phase.p;
      assert WriteOk(lib, w, p);
      var s :| Ours(w, s) && Writes(lib, p, s);
    }
  }

  /** The stored rows are those of the stored document. */
  ghost predicate Agree(lib: Library, w: World) {
    w.filed.Some? && lib.extract(w.filed.value.doc).Some? &&
    w.rows == RowsOf(lib, lib.extract(w.filed.value.doc).value)
  }

  /** Document and rows agree exactly when the report whose rows are stored, put there by
      its own worker or by an upload, has the rows of the report whose document is stored;
      so they do when the two are one report. */
  lemma RowsAgreeExactly(lib: Library, nodeId: string, run: seq<World>, steps: seq<Step>, i: nat)
    requires Sound(lib) && Run(lib, nodeId, run, steps) && i < |run|
    requires run[i].filed.Some? && run[i].rowsWriter.Some?
    ensures
      var w := run[i];
      var d, e := w.filed.value.writer, w.rowsWriter.value;
      && d < |w.jobs| && e < |w.jobs| && HasWrite(w.jobs[d].phase) && HasWrite(w.jobs[e].phase)
      && (Agree(lib, w) <==> RowsOf(lib, w.jobs[d].phase.p.next) == RowsOf(lib, w.jobs[e].phase.p.next))
      && (d == e ==> Agree(lib, w))
  {
    RunKeeps(lib, nodeId, run, steps, i);
    var w := run[i];
    var p := w.jobs[w.filed.value.writer].phase.p;
    assert WriteOk(lib, w, p);
    var s :| Ours(w, s) && Writes(lib, p, s);
    assert lib.extract(p.doc) == Some(p.next);
  }

  // ---------------------------------------------------------------------------
  // One report at a time.

  ghost predicate NoneHalf(w: World) {
    forall j :: 0 <= j < |w.jobs| ==> !w.jobs[j].phase.Half?
  }

  /** At most the writer of the document is half way, and once it no longer is, the rows
      are its own. */
  ghost predicate SerialInv(w: World) {
    && (forall j :: 0 <= j < |w.jobs| && w.jobs[j].phase.Half? ==> w.filed.Some? && w.filed.value.writer == j)
    && (w.filed.Some? ==>
          var d := w.filed.value.writer;
          d < |w.jobs| && (w.jobs[d].phase.Half? || (w.jobs[d].phase.Done? && w.rowsWriter == Some(d))))
  }

  /** No document is written while another report is half way, and no upload writes rows
      back after a report has put newer ones. */
  ghost predicate Serial(w: World, s: Step) {
    && (s.PutDoc? ==> NoneHalf(w))
    && (s.RestoreRows? && s.u < |w.uploads| ==> w.uploads[s.u].writer == w.rowsWriter)
  }

  lemma SerialMove(w: World, a: World, j: nat)
    requires SerialInv(w) && j < |w.jobs| && (w.jobs[j].phase.Received? || w.jobs[j].phase.Based?)
    requires |a.jobs| == |w.jobs| && !a.jobs[j].phase.Half? && a == Moved(w, j, a.jobs[j].phase).(asked := a.asked)
    ensures SerialInv(a)
  {
  }

  lemma SerialStep(lib: Library, nodeId: string, w: World, s: Step)
    requires SerialInv(w) && Enabled(w, s) && Serial(w, s)
    ensures SerialInv(After(lib, nodeId, w, s))
  {
    if s.Examine? || s.ReadRows? {
      SerialMove(w, After(lib, nodeId, w, s), s.j);
    }
  }

  ghost predicate SerialAt(run: seq<World>, steps: seq<Step>, i: nat)
    requires i < |steps| && i < |run|
  {
    Serial(run[i], steps[i])
  }

  lemma {:induction false} SerialRun(lib: Library, nodeId: string, run: seq<World>, steps: seq<Step>, i: nat)
    requires Run(lib, nodeId, run, steps) && i < |run|
    requires forall k: nat {:trigger SerialAt(run, steps, k)} :: k < |steps| ==> SerialAt(run, steps, k)
    ensures SerialInv(run[i])
  {
    if i > 0 {
      SerialRun(lib, nodeId, run, steps, i - 1);
      assert StepAt(lib, nodeId, run, steps, i - 1) && SerialAt(run, steps, i - 1);
      SerialStep(lib, nodeId, run[i - 1], steps[i - 1]);
    }
  }

  /** If no document is written while another report is half way and no report's rows fall
      between an upload's read and its write, then whenever no report is half way document,
      hash and rows are all those of one collected set. */
  lemma SerialIngestsAgree(lib: Library, nodeId: string, run: seq<World>, steps: seq<Step>, i: nat)
    requires Sound(lib) && Run(lib, nodeId, run, steps) && i < |run|
    requires forall k: nat {:trigger SerialAt(run, steps, k)} :: k < |steps| ==> SerialAt(run, steps, k)
    requires run[i].filed.Some? && NoneHalf(run[i])
    ensures Agree(lib, run[i])
  {
    SerialRun(lib, nodeId, run, steps, i);
    RowsAgreeExactly(lib, nodeId, run, steps, i);
  }
}
