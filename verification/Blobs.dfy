/**
 The write-once recording store over one directory: temporary files, an atomic hard
 link for the commit, and readers. Files are numbered; a directory entry names a file,
 and a hard link is a second entry for the same file.
 */
module Blobs {
  import opened Prelude

  const SCHEME := "local:"
  const SUFFIX := ".uploading"

  predicate HasChar(s: string, c: char) {
    exists i :: 0 <= i < |s| && s[i] == c
  }

  /** The basename a ref stores under, unless it could leave the directory. */
  function RefName(ref: string): Option<string> {
    if !(SCHEME <= ref) then None
    else
      var name := ref[|SCHEME|..];
      if name == "" || HasChar(name, '/') || HasChar(name, '\\') || name == "." || name == ".." then None
      else Some(name)
  }

  /** Two refs never share a file name, and a name is one path element. */
  lemma RefNamesAreConfined(a: string, b: string)
    requires RefName(a).Some?
    ensures RefName(a) == RefName(b) <==> a == b
    ensures !HasChar(RefName(a).value, '/') && !HasChar(RefName(a).value, '\\')
    ensures RefName(a).value !in {"", ".", ".."} && SCHEME + RefName(a).value == a
  {
    assert a == a[..|SCHEME|] + a[|SCHEME|..];
    if RefName(a) == RefName(b) {
      assert b == b[..|SCHEME|] + b[|SCHEME|..];
    }
  }

  /** Nothing else is refused. */
  lemma OtherNamesAreAccepted(name: string)
    requires name !in {"", ".", ".."} && forall i :: 0 <= i < |name| ==> name[i] != '/' && name[i] != '\\'
    ensures RefName(SCHEME + name) == Some(name)
  {
    assert (SCHEME + name)[|SCHEME|..] == name;
  }

  predicate IsTemp(name: string) {
    |name| >= |SUFFIX| && name[|name| - |SUFFIX|..] == SUFFIX
  }

  /** The pattern a temporary file is created under, for some random middle. */
  function TempName(name: string, middle: string): string {
    name + "." + middle + SUFFIX
  }

  lemma TempNamesAreTemp(name: string, middle: string)
    ensures IsTemp(TempName(name, middle))
  {
    var t := TempName(name, middle);
    assert t[|t| - |SUFFIX|..] == SUFFIX;
  }

  // ---------------------------------------------------------------------------
  // Any number of writers, one system call at a time.

  datatype Phase = Writing | Closed | Linked | Committed | Failed

  datatype Writer = Writer(tmp: string, name: string, phase: Phase)

  /** Writer k owns file k, whose bytes are data[k]. cleared are the names some caller has
      found absent; much may happen before that caller goes on to create. */
  datatype World = World(dir: map<string, nat>, data: seq<Bytes>, writers: seq<Writer>, cleared: set<string>)

  datatype Step =
    | Stat(name: string)
    | Create(name: string, middle: string)
    | Write(k: nat, bytes: Bytes)
    | Close(k: nat, synced: bool)
    | Link(k: nat)
    | Unlink(k: nat)
    | Abort(k: nat)
    | Remove(name: string)

  /** A create goes on from a stat that found the name absent, perhaps long ago, and picks
      a temporary name nobody has used. */
  ghost predicate Enabled(w: World, s: Step) {
    match s
    case Stat(name) => true
    case Create(name, middle) =>
      name in w.cleared && forall k :: 0 <= k < |w.writers| ==> w.writers[k].tmp != TempName(name, middle)
    case Write(k, _) => k < |w.writers| && w.writers[k].phase.Writing?
    case Close(k, _) => k < |w.writers| && w.writers[k].phase.Writing?
    case Link(k) => k < |w.writers| && w.writers[k].phase.Closed?
    case Unlink(k) => k < |w.writers| && (w.writers[k].phase.Linked? || w.writers[k].phase.Failed?)
    case Abort(k) => k < |w.writers| && !w.writers[k].phase.Committed? && !w.writers[k].phase.Linked?
    case Remove(name) => true
  }

  function Moved(w: World, k: nat, phase: Phase): World
    requires k < |w.writers|
  {
    w.(writers := w.writers[k := w.writers[k].(phase := phase)])
  }

  function Statted(w: World, name: string): World {
    if name in w.dir then w else w.(cleared := w.cleared + {name})
  }

  function Created(w: World, name: string, middle: string): World {
    var tmp := TempName(name, middle);
    w.(dir := w.dir[tmp := |w.data|], data := w.data + [[]], writers := w.writers + [Writer(tmp, name, Writing)])
  }

  /** A hard link fails if the name exists or the temporary name is gone. */
  function LinkDone(w: World, k: nat): World
    requires k < |w.writers|
  {
    var one := w.writers[k];
    if one.name in w.dir || one.tmp !in w.dir then Moved(w, k, Failed)
    else Moved(w.(dir := w.dir[one.name := w.dir[one.tmp]]), k, Linked)
  }

  function UnlinkDone(w: World, k: nat): World
    requires k < |w.writers|
  {
    Moved(w.(dir := w.dir - {w.writers[k].tmp}), k, if w.writers[k].phase.Linked? then Committed else Failed)
  }

  ghost predicate Shaped(w: World) {
    |w.data| == |w.writers|
  }

  ghost function After(w: World, s: Step): World
    requires Enabled(w, s) && Shaped(w)
  {
    match s
    case Stat(name) => Statted(w, name)
    case Create(name, middle) => Created(w, name, middle)
    case Write(k, bytes) => w.(data := w.data[k := w.data[k] + bytes])
    case Close(k, synced) => Moved(w, k, if synced then Closed else Failed)
    case Link(k) => LinkDone(w, k)
    case Unlink(k) => UnlinkDone(w, k)
    case Abort(k) => Moved(w.(dir := w.dir - {w.writers[k].tmp}), k, Failed)
    case Remove(name) => w.(dir := w.dir - {name})
  }

  function Open(w: World, ref: string): Option<Bytes> {
    match RefName(ref)
    case None => None
    case Some(name) =>
      if name in w.dir && w.dir[name] < |w.data| then Some(w.data[w.dir[name]]) else None
  }

  // ---------------------------------------------------------------------------
  // The invariant, for refs that do not look like temporary files.

  ghost predicate Plain(s: Step) {
    && (s.Stat? || s.Create? ==> !IsTemp(s.name))
    && (s.Remove? ==> !IsTemp(s.name))
  }

  ghost predicate Done(w: World, k: nat)
    requires k < |w.writers|
  {
    w.writers[k].phase.Linked? || w.writers[k].phase.Committed?
  }

  ghost predicate OwnNames(w: World) {
    && (forall k :: 0 <= k < |w.writers| ==> IsTemp(w.writers[k].tmp) && !IsTemp(w.writers[k].name))
    && forall i, j :: 0 <= i < j < |w.writers| ==> w.writers[i].tmp != w.writers[j].tmp
  }

  /** A temporary name names its writer's file; any other name a finished blob's. */
  ghost predicate Entries(w: World) {
    forall n :: n in w.dir ==>
      && w.dir[n] < |w.writers|
      && (IsTemp(n) ==> w.writers[w.dir[n]].tmp == n)
      && (!IsTemp(n) ==> w.writers[w.dir[n]].name == n && Done(w, w.dir[n]))
  }

  ghost predicate Inv(w: World) {
    Shaped(w) && OwnNames(w) && Entries(w)
  }

  lemma MoveKeeps(w: World, k: nat, phase: Phase)
    requires Inv(w) && k < |w.writers| && (Done(w, k) ==> phase.Linked? || phase.Committed?)
    ensures Inv(Moved(w, k, phase))
  {
    var a := Moved(w, k, phase);
    assert forall j :: 0 <= j < |w.writers| ==>
        a.writers[j].tmp == w.writers[j].tmp && a.writers[j].name == w.writers[j].name;
    assert forall j: nat :: j < |w.writers| && Done(w, j) ==> Done(a, j);
  }

  lemma DropKeeps(w: World, name: string)
    requires Inv(w)
    ensures Inv(w.(dir := w.dir - {name}))
  {
  }

  lemma CreateKeeps(w: World, name: string, middle: string)
    requires Inv(w) && Enabled(w, Create(name, middle)) && !IsTemp(name)
    ensures Inv(Created(w, name, middle))
  {
    TempNamesAreTemp(name, middle);
    var a := Created(w, name, middle);
    assert forall j: nat :: j < |w.writers| ==> a.writers[j] == w.writers[j];
    assert a.writers[|w.data|].tmp == TempName(name, middle);
  }

  lemma OwnTemp(w: World, k: nat)
    requires Inv(w) && k < |w.writers| && w.writers[k].tmp in w.dir
    ensures w.dir[w.writers[k].tmp] == k
  {
    var t := w.writers[k].tmp;
    assert w.writers[w.dir[t]].tmp == t;
  }

  /** A successful link, whose file is the writer's own. */
  lemma LinkKeeps(w: World, k: nat)
    requires Inv(w) && k < |w.writers| && !Done(w, k)
    requires w.writers[k].name !in w.dir && w.writers[k].tmp in w.dir
    ensures Inv(LinkDone(w, k)) && LinkDone(w, k) == Moved(w, k, Linked).(dir := w.dir[w.writers[k].name := k])
  {
    OwnTemp(w, k);
    MoveKeeps(w, k, Linked);
    var a := Moved(w, k, Linked);
    assert Done(a, k) && a.writers[k].name == w.writers[k].name;
  }

  lemma StepKeeps(w: World, s: Step)
    requires Inv(w) && Enabled(w, s) && Plain(s)
    ensures Inv(After(w, s))
  {
    match s
    case Stat(name) =>
    case Create(name, middle) => CreateKeeps(w, name, middle);
    case Write(k, bytes) =>
    case Close(k, synced) => MoveKeeps(w, k, if synced then Closed else Failed);
    case Link(k) =>
      if w.writers[k].name !in w.dir && w.writers[k].tmp in w.dir {
        LinkKeeps(w, k);
      } else {
        MoveKeeps(w, k, Failed);
      }
    case Unlink(k) =>
      DropKeeps(w, w.writers[k].tmp);
      MoveKeeps(w.(dir := w.dir - {w.writers[k].tmp}), k, if w.writers[k].phase.Linked? then Committed else Failed);
    case Abort(k) =>
      DropKeeps(w, w.writers[k].tmp);
      MoveKeeps(w.(dir := w.dir - {w.writers[k].tmp}), k, Failed);
    case Remove(name) => DropKeeps(w, name);
  }

  ghost predicate StepAt(run: seq<World>, steps: seq<Step>, i: nat)
    requires i < |steps| && |run| == |steps| + 1
  {
    Shaped(run[i]) && Enabled(run[i], steps[i]) && Plain(steps[i]) && run[i + 1] == After(run[i], steps[i])
  }

  ghost predicate Run(run: seq<World>, steps: seq<Step>) {
    && |run| == |steps| + 1 && run[0] == World(map[], [], [], {})
    && forall i: nat {:trigger StepAt(run, steps, i)} :: i < |steps| ==> StepAt(run, steps, i)
  }

  lemma {:induction false} RunKeeps(run: seq<World>, steps: seq<Step>, i: nat)
    requires Run(run, steps) && i < |run|
    ensures Inv(run[i])
  {
    if i > 0 {
      RunKeeps(run, steps, i - 1);
      assert StepAt(run, steps, i - 1);
      StepKeeps(run[i - 1], steps[i - 1]);
    }
  }

  // ---------------------------------------------------------------------------
  // Write once, read whole.

  /** No step of the run removes this blob. */
  ghost predicate Kept(steps: seq<Step>, i: nat, j: nat, name: string) {
    forall k :: i <= k < j && k < |steps| ==> steps[k] != Remove(name)
  }

  lemma BlobStays(w: World, s: Step, name: string)
    requires Inv(w) && Enabled(w, s) && Plain(s) && s != Remove(name)
    requires name in w.dir && !IsTemp(name)
    ensures name in After(w, s).dir && After(w, s).dir[name] == w.dir[name]
    ensures w.dir[name] < |After(w, s).data| && After(w, s).data[w.dir[name]] == w.data[w.dir[name]]
  {
    if s.Create? {
      TempNamesAreTemp(s.name, s.middle);
    }
  }

  /** Once readable, a blob reads the same for ever, whatever writers do, until it is
      removed. */
  lemma {:induction false} CommittedBlobIsFixed(run: seq<World>, steps: seq<Step>, ref: string, i: nat, j: nat)
    requires Run(run, steps) && i <= j < |run|
    requires RefName(ref).Some? && !IsTemp(RefName(ref).value) && Kept(steps, i, j, RefName(ref).value)
    requires Open(run[i], ref).Some?
    ensures Open(run[j], ref) == Open(run[i], ref)
    ensures run[j].dir[RefName(ref).value] == run[i].dir[RefName(ref).value]
    decreases j - i
  {
    if i < j {
      CommittedBlobIsFixed(run, steps, ref, i, j - 1);
      RunKeeps(run, steps, j - 1);
      assert StepAt(run, steps, j - 1);
      BlobStays(run[j - 1], steps[j - 1], RefName(ref).value);
    }
  }

  /** The bytes of writer k's writes among these steps, in order. */
  function WrittenBy(steps: seq<Step>, k: nat): Bytes {
    if steps == [] then []
    else
      var n := |steps| - 1;
      WrittenBy(steps[..n], k) + if steps[n].Write? && steps[n].k == k then steps[n].bytes else []
  }

  /** A file holds exactly the bytes its writer wrote, in order, and a file not begun has
      no writes. */
  lemma {:induction false} FileIsWritten(run: seq<World>, steps: seq<Step>, i: nat, k: nat)
    requires Run(run, steps) && i < |run|
    ensures Shaped(run[i])
    ensures WrittenBy(steps[..i], k) == if k < |run[i].data| then run[i].data[k] else []
  {
    RunKeeps(run, steps, i);
    if i > 0 {
      FileIsWritten(run, steps, i - 1, k);
      assert StepAt(run, steps, i - 1);
      assert steps[..i][..i - 1] == steps[..i - 1];
    }
  }

  /** What a reader gets is the whole of what one finished writer wrote, from its first
      write to its last, and that writer is past writing. */
  lemma ReadersSeeWholeBlobs(run: seq<World>, steps: seq<Step>, ref: string, i: nat)
    requires Run(run, steps) && i < |run| && Open(run[i], ref).Some? && !IsTemp(RefName(ref).value)
    ensures
      var name := RefName(ref).value;
      exists k: nat :: k < |run[i].writers| && Done(run[i], k) && run[i].writers[k].name == name &&
        Open(run[i], ref) == Some(WrittenBy(steps[..i], k))
  {
    RunKeeps(run, steps, i);
    var k := run[i].dir[RefName(ref).value];
    assert Done(run[i], k);
    FileIsWritten(run, steps, i, k);
  }

  /** A removed blob reads as nothing, and every other ref as before. */
  lemma RemovedReadsNothing(w: World, ref: string, other: string)
    requires Inv(w) && RefName(ref).Some? && other != ref
    ensures
      var a := After(w, Remove(RefName(ref).value));
      Open(a, ref).None? && Open(a, other) == Open(w, other)
  {
    RefNamesAreConfined(ref, other);
  }

  // ---------------------------------------------------------------------------
  // What came before a commit, and what is left after it.

  ghost predicate ClosedBefore(steps: seq<Step>, i: nat, k: nat) {
    exists j :: 0 <= j < i && j < |steps| && steps[j] == Close(k, true)
  }

  /** Every finished blob was closed with its bytes synced before it was linked. */
  lemma {:induction false} CommittedWasSynced(run: seq<World>, steps: seq<Step>, i: nat, k: nat)
    requires Run(run, steps) && i < |run| && k < |run[i].writers|
    requires run[i].writers[k].phase.Closed? || Done(run[i], k)
    ensures ClosedBefore(steps, i, k)
  {
    if i > 0 {
      assert StepAt(run, steps, i - 1);
      RunKeeps(run, steps, i - 1);
      if steps[i - 1] != Close(k, true) {
        CommittedWasSynced(run, steps, i - 1, k);
        var j :| 0 <= j < i - 1 && j < |steps| && steps[j] == Close(k, true);
        assert 0 <= j < i;
      }
    }
  }

  ghost predicate FoundAbsent(run: seq<World>, steps: seq<Step>, i: nat, name: string) {
    exists j :: 0 <= j < i && j < |steps| && j < |run| && steps[j] == Stat(name) && name !in run[j].dir
  }

  /** A create goes on only where an earlier stat found the name absent. */
  lemma {:induction false} CreateFollowsStat(run: seq<World>, steps: seq<Step>, i: nat, name: string)
    requires Run(run, steps) && i < |run| && name in run[i].cleared
    ensures FoundAbsent(run, steps, i, name)
  {
    if i > 0 {
      assert StepAt(run, steps, i - 1);
      if name in run[i - 1].cleared {
        CreateFollowsStat(run, steps, i - 1, name);
        var j :| 0 <= j < i - 1 && j < |steps| && j < |run| && steps[j] == Stat(name) && name !in run[j].dir;
        assert 0 <= j < i;
      }
    }
  }

  /** A temporary name that is gone does not come back. */
  lemma GoneStays(w: World, s: Step, k: nat)
    requires Inv(w) && Enabled(w, s) && Plain(s) && k < |w.writers| && w.writers[k].tmp !in w.dir
    ensures k < |After(w, s).writers| && After(w, s).writers[k].tmp == w.writers[k].tmp
    ensures w.writers[k].tmp !in After(w, s).dir
  {
  }

  /** Once its writer has unlinked it or given up, a temporary name is gone for good. */
  lemma {:induction false} NoTempIsLeft(run: seq<World>, steps: seq<Step>, i: nat, j: nat, k: nat)
    requires Run(run, steps) && i < j < |run| && (steps[i] == Unlink(k) || steps[i] == Abort(k))
    ensures k < |run[j].writers| && run[j].writers[k].tmp !in run[j].dir
    decreases j
  {
    assert StepAt(run, steps, j - 1);
    RunKeeps(run, steps, j - 1);
    if i < j - 1 {
      NoTempIsLeft(run, steps, i, j - 1, k);
      GoneStays(run[j - 1], steps[j - 1], k);
    }
  }

  /** The name of every finished upload still names its file. */
  ghost predicate Holds(w: World, name: string) {
    forall k :: 0 <= k < |w.writers| && Done(w, k) && w.writers[k].name == name ==> name in w.dir && w.dir[name] == k
  }

  /** What a step leaves of a writer: finished only if it was, or by linking its name. */
  lemma DoneBefore(w: World, s: Step, k: nat)
    requires Inv(w) && Enabled(w, s) && k < |After(w, s).writers| && Done(After(w, s), k)
    ensures k < |w.writers| && After(w, s).writers[k].name == w.writers[k].name
    ensures Done(w, k) || (s == Link(k) && w.writers[k].name !in w.dir && w.writers[k].tmp in w.dir)
  {
  }

  lemma HoldsStep(w: World, s: Step, name: string)
    requires Inv(w) && Enabled(w, s) && Plain(s) && s != Remove(name) && Holds(w, name) && !IsTemp(name)
    ensures Holds(After(w, s), name)
  {
    var a := After(w, s);
    forall k | 0 <= k < |a.writers| && Done(a, k) && a.writers[k].name == name
      ensures name in a.dir && a.dir[name] == k
    {
      DoneBefore(w, s, k);
      if Done(w, k) {
        BlobStays(w, s, name);
      } else {
        LinkKeeps(w, k);
      }
    }
  }

  lemma {:induction false} HoldsThroughout(run: seq<World>, steps: seq<Step>, name: string, i: nat)
    requires Run(run, steps) && i < |run| && !IsTemp(name) && Kept(steps, 0, i, name)
    ensures Holds(run[i], name)
  {
    if i > 0 {
      HoldsThroughout(run, steps, name, i - 1);
      RunKeeps(run, steps, i - 1);
      assert StepAt(run, steps, i - 1);
      HoldsStep(run[i - 1], steps[i - 1], name);
    }
  }

  /** Of any number of concurrent or repeated uploads of one ref, at most one commit
      succeeds. */
  lemma AtMostOneCommit(run: seq<World>, steps: seq<Step>, i: nat, a: nat, b: nat)
    requires Run(run, steps) && i < |run|
    requires a < |run[i].writers| && b < |run[i].writers| && run[i].writers[a].name == run[i].writers[b].name
    requires Done(run[i], a) && Done(run[i], b) && Kept(steps, 0, i, run[i].writers[a].name)
    ensures a == b
  {
    RunKeeps(run, steps, i);
    HoldsThroughout(run, steps, run[i].writers[a].name, i);
  }

  /** This step of the run is the link that commits writer k's upload of the name. */
  ghost predicate CommitsAt(run: seq<World>, steps: seq<Step>, i: nat, k: nat, name: string)
    requires i < |steps| && |run| == |steps| + 1
  {
    && steps[i] == Link(k) && k < |run[i].writers| && run[i].writers[k].name == name
    && k < |run[i + 1].writers| && run[i + 1].writers[k].phase.Linked?
  }

  lemma {:induction false} NameStays(run: seq<World>, steps: seq<Step>, name: string, i: nat, j: nat)
    requires Run(run, steps) && i <= j < |run| && Kept(steps, i, j, name)
    requires name in run[i].dir && !IsTemp(name)
    ensures name in run[j].dir && run[j].dir[name] == run[i].dir[name]
    decreases j - i
  {
    if i < j {
      NameStays(run, steps, name, i, j - 1);
      RunKeeps(run, steps, j - 1);
      assert StepAt(run, steps, j - 1);
      BlobStays(run[j - 1], steps[j - 1], name);
    }
  }

  /** A link commits exactly when the name is free and the upload is still there, and the
      name is then the writer's. */
  lemma CommitTakesName(run: seq<World>, steps: seq<Step>, i: nat, k: nat, name: string)
    requires Run(run, steps) && i < |steps| && steps[i] == Link(k) && k < |run[i].writers|
    requires run[i].writers[k].name == name
    ensures CommitsAt(run, steps, i, k, name) <==> name !in run[i].dir && run[i].writers[k].tmp in run[i].dir
    ensures CommitsAt(run, steps, i, k, name) ==>
      name in run[i + 1].dir && run[i + 1].dir[name] == k && !IsTemp(name)
  {
    RunKeeps(run, steps, i);
    assert StepAt(run, steps, i);
    if run[i].writers[k].tmp in run[i].dir {
      OwnTemp(run[i], k);
    }
  }

  /** In any stretch of any run without a removal of the name, whatever was committed and
      removed before it, at most one link commits. */
  lemma OneCommitBetweenRemovals(
    run: seq<World>, steps: seq<Step>, name: string, i: nat, a: nat, j: nat, b: nat)
    requires Run(run, steps) && i <= j < |steps| && Kept(steps, i, j, name)
    requires CommitsAt(run, steps, i, a, name) && CommitsAt(run, steps, j, b, name)
    ensures i == j && a == b
  {
    CommitTakesName(run, steps, i, a, name);
    CommitTakesName(run, steps, j, b, name);
    if i < j {
      NameStays(run, steps, name, i + 1, j);
    }
  }

  /** The race the stat cannot see: two callers find the name absent, one commits, and the
      other creates all the same. Only its commit is refused. */
  lemma LateCreateIsFencedAtCommit(w: World, s: Step, k: nat)
    requires Inv(w) && s == Link(k) && Enabled(w, s) && w.writers[k].name in w.dir
    ensures After(w, s).writers[k].phase.Failed? && After(w, s).dir == w.dir && After(w, s).data == w.data
  {
  }

  lemma CreateCanRaceCommit(name: string) returns (run: seq<World>, steps: seq<Step>)
    requires !IsTemp(name)
    ensures Run(run, steps) && |steps| == 5 && steps[4] == Create(name, "2")
    ensures name in run[4].dir && |run[5].writers| == 2
  {
    var w0 := World(map[], [], [], {});
    var w1, w2, w3, w4 := FirstUpload(name);
    steps := [Stat(name), Create(name, "1"), Close(0, true), Link(0), Create(name, "2")];
    run := [w0, w1, w2, w3, w4, After(w4, Create(name, "2"))];
    forall i: nat | i < |steps| ensures StepAt(run, steps, i) {
    }
  }

  /** A first upload, from the stat that leaves the name to be created to its commit. */
  lemma FirstUpload(name: string) returns (w1: World, w2: World, w3: World, w4: World)
    requires !IsTemp(name)
    ensures
      var w0 := World(map[], [], [], {});
      && Enabled(w0, Stat(name)) && w1 == After(w0, Stat(name))
      && Enabled(w1, Create(name, "1")) && w2 == After(w1, Create(name, "1"))
      && Enabled(w2, Close(0, true)) && w3 == After(w2, Close(0, true))
      && Enabled(w3, Link(0)) && w4 == After(w3, Link(0))
    ensures Enabled(w4, Create(name, "2")) && name in w4.dir && |w4.writers| == 1
  {
    TempNamesAreTemp(name, "1");
    var a, b := TempName(name, "1"), TempName(name, "2");
    TempNamesDiffer(name, "1", "2");
    w1 := After(World(map[], [], [], {}), Stat(name));
    w2 := After(w1, Create(name, "1"));
    w3 := After(w2, Close(0, true));
    w4 := After(w3, Link(0));
    assert w4.dir == map[a := 0, name := 0];
  }

  lemma TempNamesDiffer(name: string, a: string, b: string)
    requires |a| == |b| && a != b
    ensures TempName(name, a) != TempName(name, b)
  {
    var n := |name| + 1;
    assert TempName(name, a)[n..n + |a|] == a && TempName(name, b)[n..n + |b|] == b;
  }

  /** The condition on names is needed: a ref for a temporary name reads that upload,
      finished or not. */
  lemma TempLikeRefReadsUpload(w: World, k: nat)
    requires Inv(w) && k < |w.writers| && w.writers[k].tmp in w.dir
    requires RefName(SCHEME + w.writers[k].tmp).Some?
    ensures Open(w, SCHEME + w.writers[k].tmp) == Some(w.data[k])
  {
    OwnTemp(w, k);
    assert (SCHEME + w.writers[k].tmp)[|SCHEME|..] == w.writers[k].tmp;
  }

  // ---------------------------------------------------------------------------
  // The store's calls, each a fixed sequence of those steps.

  class Store {
    var dir: map<string, nat>
    var data: seq<Bytes>
    var writers: seq<Writer>
    var cleared: set<string>

    constructor ()
      ensures View() == World(map[], [], [], {})
    {
      dir, data, writers, cleared := map[], [], [], {};
    }

    function View(): World
      reads this
    {
      World(dir, data, writers, cleared)
    }

    method Create(ref: string, middle: string) returns (k: Option<nat>)
      requires |data| == |writers|
      modifies this
      ensures k.None? <==> RefName(ref).None? || RefName(ref).value in old(dir)
      ensures View() == if RefName(ref).None? then old(View())
        else
          var statted := Statted(old(View()), RefName(ref).value);
          if k.None? then statted else Created(statted, RefName(ref).value, middle)
      ensures k.Some? ==> k.value == old(|writers|)
    {
      match RefName(ref)
      case None =>
        k := None;
      case Some(name) =>
        if name in dir {
          return None;
        }
        cleared := cleared + {name};
        var tmp := TempName(name, middle);
        dir, data := dir[tmp := |data|], data + [[]];
        k := Some(|writers|);
        writers := writers + [Writer(tmp, name, Writing)];
    }

    /** A commit reports success exactly when it made the name, and then the name is the
        writer's file for good. */
    method Commit(k: nat, synced: bool) returns (ok: bool)
      requires k < |writers| && writers[k].phase.Writing? && |data| == |writers|
      modifies this
      ensures ok <==> synced && old(writers[k].name !in dir && writers[k].tmp in dir)
      ensures
        var closed := Moved(old(View()), k, if synced then Closed else Failed);
        View() == if synced then UnlinkDone(LinkDone(closed, k), k) else closed
      ensures ok <==> writers[k].phase.Committed?
    {
      var one := writers[k];
      if !synced {
        writers := writers[k := one.(phase := Failed)];
        return false;
      }
      ok := one.name !in dir && one.tmp in dir;
      if ok {
        dir := dir[one.name := dir[one.tmp]];
      }
      dir := dir - {one.tmp};
      writers := writers[k := one.(phase := if ok then Committed else Failed)];
    }
  }
}
