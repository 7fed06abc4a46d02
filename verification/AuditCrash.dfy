/**
 Crash recovery of the audit log. The log is a state machine whose steps are the
 separate file operations of an append and of an open, plus the two ways a controller
 stops: the process is killed (every written byte stays) or power is lost (any suffix
 of the bytes not yet synced is gone, cut at any byte).
 */
module AuditCrash {
  import opened Prelude
  import opened AuditRecord
  import opened AuditLines
  import opened AuditScan
  import opened AuditLog

  datatype Phase = Down | Idle | Written(e: Event) | Synced(e: Event) | Renamed(e: Event)

  /** The two files, the process, and what the outside world knows: the records
      attempted so far on the current chain, how many of them are known to be on the
      disk, and the records whose append returned without error. */
  datatype World = World(
    file: Bytes,
    side: Sidecar,
    phase: Phase,
    at: Cursor,
    attempted: seq<Event>,
    durable: nat,
    acked: set<Event>)

  const FRESH := World([], Absent, Down, START, [], 0, {})

  ghost function Marshalled(c: Codec, chain: seq<Event>): seq<Bytes> {
    seq(|chain|, i requires 0 <= i < |chain| => c.marshal(chain[i]))
  }

  ghost function Encoded(c: Codec, chain: seq<Event>): Bytes {
    Joined(Marshalled(c, chain))
  }

  // ---------------------------------------------------------------------------
  // The steps.

  /** The record's bytes reach the file; nothing is synced yet. */
  ghost predicate Write(c: Codec, w: World, v: World, e: Event) {
    && w.phase.Idle? && Links(c, w.at.last, w.at.seqNo, e)
    && v == w.(file := w.file + LineOf(c, e), phase := Written(e), attempted := w.attempted + [e])
  }

  /** A write stops part of the way through a line, or the process is killed there: any
      number of the line's bytes are in the file, none of them synced. */
  ghost predicate TearWrite(c: Codec, w: World, v: World, e: Event, k: nat) {
    && w.phase.Idle? && Links(c, w.at.last, w.at.seqNo, e) && k <= |LineOf(c, e)|
    && v == w.(file := w.file + LineOf(c, e)[..k], phase := Down, attempted := w.attempted + [e])
  }

  ghost predicate Sync(w: World, v: World) {
    && w.phase.Written?
    && v == w.(phase := Synced(w.phase.e), durable := |w.attempted|,
               at := Cursor(w.phase.e.hash, w.phase.e.seqNo, w.at.count + 1))
  }

  ghost predicate SaveCheckpoint(w: World, v: World) {
    w.phase.Synced? && v == w.(side := CheckpointOf(w.at), phase := Renamed(w.phase.e))
  }

  /** No checkpoint path is configured: saving is a no-op that reports success. */
  ghost predicate SkipCheckpoint(w: World, v: World) {
    w.phase.Synced? && v == w.(phase := Renamed(w.phase.e))
  }

  /** The checkpoint write fails: the append reports an error, the record stays. */
  ghost predicate FailCheckpoint(w: World, v: World) {
    w.phase.Synced? && v == w.(phase := Idle)
  }

  /** The append returns without error. */
  ghost predicate Acknowledge(w: World, v: World) {
    w.phase.Renamed? && v == w.(phase := Idle, acked := w.acked + {w.phase.e})
  }

  ghost predicate Kill(w: World, v: World) {
    v == w.(phase := Down)
  }

  /** The steps after the sync, and the kill: none of them touches the log file. */
  ghost predicate Finish(w: World, v: World) {
    || SaveCheckpoint(w, v) || SkipCheckpoint(w, v) || FailCheckpoint(w, v)
    || Acknowledge(w, v) || Kill(w, v)
  }

  ghost predicate LosePower(c: Codec, w: World, v: World, cut: nat) {
    && |Encoded(c, w.attempted[..Min(w.durable, |w.attempted|)])| <= cut <= |w.file|
    && v == w.(phase := Down, file := w.file[..cut], durable := |Lines(w.file[..cut])|)
  }

  /** The first half of an open: the torn tail is gone, nothing else is decided. */
  ghost predicate Repair(c: Codec, w: World, v: World) {
    w.phase.Down? && Repaired(c, w.file).Ok? && v == w.(file := Repaired(c, w.file).value)
  }

  /** The whole open. The checkpoint it writes at the end may fail to be saved. */
  ghost predicate Open(c: Codec, w: World, v: World, saved: bool) {
    && w.phase.Down? && Opened(c, w.file, w.side).Ok?
    && var at := Opened(c, w.file, w.side).value;
    && 0 <= at.seqNo <= |w.attempted|
    && v == w.(file := Terminated(w.file), phase := Idle, at := at,
               side := if saved then CheckpointOf(at) else w.side,
               attempted := w.attempted[..at.seqNo])
  }

  function Min(a: nat, b: nat): nat {
    if a < b then a else b
  }

  /** What can happen while the machine stays up: the process appends, is killed, and is
      started again. */
  ghost predicate PoweredStep(c: Codec, w: World, v: World) {
    || (exists e :: Write(c, w, v, e))
    || (exists e, k :: TearWrite(c, w, v, e, k))
    || Sync(w, v) || Finish(w, v)
    || Repair(c, w, v)
    || (exists saved :: Open(c, w, v, saved))
  }

  ghost predicate PowerLost(c: Codec, w: World, v: World) {
    exists cut :: LosePower(c, w, v, cut)
  }

  ghost predicate Step(c: Codec, w: World, v: World) {
    PoweredStep(c, w, v) || PowerLost(c, w, v)
  }

  ghost predicate StepAt(c: Codec, run: seq<World>, i: nat)
    requires i + 1 < |run|
  {
    Step(c, run[i], run[i + 1])
  }

  ghost predicate Run(c: Codec, run: seq<World>) {
    && run != [] && run[0] == FRESH
    && forall i: nat {:trigger StepAt(c, run, i)} :: i + 1 < |run| ==> StepAt(c, run, i)
  }

  // ---------------------------------------------------------------------------
  // The invariant.

  ghost predicate Acked(w: World) {
    forall e :: e in w.acked ==> 1 <= e.seqNo <= w.durable <= |w.attempted| && w.attempted[e.seqNo - 1] == e
  }

  ghost predicate SideOk(w: World) {
    && !w.side.Corrupt?
    && (w.side.Saved? ==>
        && 0 <= w.side.chk.seqNo <= |w.attempted|
        && w.side.chk.hash == LastHash(w.attempted[..w.side.chk.seqNo]))
  }

  ghost predicate FileOk(c: Codec, w: World) {
    && w.durable <= |w.attempted|
    && w.file <= Encoded(c, w.attempted)
    && |Encoded(c, w.attempted[..w.durable])| <= |w.file|
  }

  ghost predicate ProcessOk(c: Codec, w: World) {
    var n := |w.attempted|;
    match w.phase
    case Down => true
    case Idle => w.file == Encoded(c, w.attempted) && w.at == CursorOf(w.attempted)
    case Written(e) =>
      && w.file == Encoded(c, w.attempted)
      && n > 0 && w.attempted[n - 1] == e && w.at == CursorOf(w.attempted[..n - 1])
    case Synced(e) =>
      && w.file == Encoded(c, w.attempted) && w.at == CursorOf(w.attempted)
      && n > 0 && w.attempted[n - 1] == e && w.durable == n
    case Renamed(e) =>
      && w.file == Encoded(c, w.attempted) && w.at == CursorOf(w.attempted)
      && n > 0 && w.attempted[n - 1] == e && w.durable == n
  }

  ghost predicate Inv(c: Codec, w: World) {
    ValidChain(c, w.attempted) && FileOk(c, w) && Acked(w) && SideOk(w) && ProcessOk(c, w)
  }

  // ---------------------------------------------------------------------------
  // Encoded chains.

  lemma EncodedExtends(c: Codec, a: seq<Event>, b: seq<Event>)
    ensures Encoded(c, a + b) == Encoded(c, a) + Encoded(c, b)
  {
    assert Marshalled(c, a + b) == Marshalled(c, a) + Marshalled(c, b);
    JoinedSplits(Marshalled(c, a), Marshalled(c, b));
  }

  lemma EncodedOne(c: Codec, e: Event)
    ensures Encoded(c, [e]) == LineOf(c, e)
  {
    assert Marshalled(c, [e]) == [c.marshal(e)];
    var l := c.marshal(e);
    assert [l][1..] == [] && Joined([l]) == l + [NL] + Joined([l][1..]);
  }

  lemma EncodedPrefix(c: Codec, chain: seq<Event>, m: nat)
    requires m <= |chain|
    ensures Encoded(c, chain[..m]) <= Encoded(c, chain)
  {
    EncodedExtends(c, chain[..m], chain[m..]);
    assert chain == chain[..m] + chain[m..];
  }

  lemma {:induction false} DecodedMarshalled(c: Codec, chain: seq<Event>)
    requires c.Json()
    ensures Decoded(c, Repairer, Marshalled(c, chain)) == Some(chain)
    decreases |chain|
  {
    if chain != [] {
      DecodedMarshalled(c, chain[1..]);
      assert Marshalled(c, chain)[1..] == Marshalled(c, chain[1..]);
      assert c.marshal(chain[0]) != [] && c.unmarshal(c.marshal(chain[0])) == Some(chain[0]);
      assert chain == [chain[0]] + chain[1..];
    }
  }

  lemma MarshalledAreLines(c: Codec, chain: seq<Event>)
    requires c.Json()
    ensures AllLines(Marshalled(c, chain))
  {
  }

  lemma EncodedReads(c: Codec, chain: seq<Event>)
    requires c.Json()
    ensures Lines(Encoded(c, chain)) == Marshalled(c, chain)
    ensures Terminated(Encoded(c, chain)) == Encoded(c, chain)
    ensures Decoded(c, Repairer, Lines(Encoded(c, chain))) == Some(chain)
  {
    LinesOfWhole(Marshalled(c, chain));
    assert Encoded(c, chain)[..|Encoded(c, chain)|] == Encoded(c, chain);
    DecodedMarshalled(c, chain);
  }

  /** Whatever survived of the file, its complete lines are a prefix of the attempted
      records that holds at least the durable ones. */
  lemma Survivors(c: Codec, w: World) returns (n: nat)
    requires c.Json() && ValidChain(c, w.attempted) && FileOk(c, w)
    ensures w.durable <= n <= |w.attempted|
    ensures Lines(w.file) == Marshalled(c, w.attempted[..n])
    ensures Terminated(w.file) == Encoded(c, w.attempted[..n])
    ensures Holds(c, w.file, w.attempted[..n])
  {
    MarshalledAreLines(c, w.attempted);
    var lines := Marshalled(c, w.attempted);
    assert lines[..w.durable] == Marshalled(c, w.attempted[..w.durable]);
    n := CutKeepsPrefix(lines, |w.file|, w.durable);
    assert w.file == Encoded(c, w.attempted)[..|w.file|];
    assert lines[..n] == Marshalled(c, w.attempted[..n]);
    DecodedMarshalled(c, w.attempted[..n]);
    ValidChainPrefix(c, w.attempted, n);
  }

  // ---------------------------------------------------------------------------
  // Every step keeps the invariant.

  lemma SamePrefix(a: seq<Event>, b: seq<Event>, k: nat)
    requires a <= b && k <= |a|
    ensures b[..k] == a[..k]
  {
  }

  /** Longer attempts, or attempts cut no shorter than the checkpoint, keep it sound. */
  lemma SideKeeps(w: World, v: World)
    requires SideOk(w) && v.side == w.side
    requires w.attempted <= v.attempted || v.attempted <= w.attempted
    requires w.side.Saved? ==> w.side.chk.seqNo <= |v.attempted|
    ensures SideOk(v)
  {
    if w.side.Saved? {
      if w.attempted <= v.attempted {
        SamePrefix(w.attempted, v.attempted, w.side.chk.seqNo);
      } else {
        SamePrefix(v.attempted, w.attempted, w.side.chk.seqNo);
      }
    }
  }

  lemma WriteKeepsFile(c: Codec, w: World, e: Event)
    requires FileOk(c, w) && w.file == Encoded(c, w.attempted)
    ensures FileOk(c, w.(file := w.file + LineOf(c, e), attempted := w.attempted + [e]))
    ensures w.file + LineOf(c, e) == Encoded(c, w.attempted + [e])
  {
    EncodedExtends(c, w.attempted, [e]);
    EncodedOne(c, e);
    SamePrefix(w.attempted, w.attempted + [e], w.durable);
  }

  lemma WriteKeeps(c: Codec, w: World, v: World, e: Event)
    requires c.Json() && Inv(c, w) && Write(c, w, v, e)
    ensures Inv(c, v)
  {
    WriteKeepsFile(c, w, e);
    ValidChainExtend(c, w.attempted, e);
    SamePrefix(w.attempted, v.attempted, |w.attempted|);
    SideKeeps(w, v);
  }

  lemma TearWriteKeeps(c: Codec, w: World, v: World, e: Event, k: nat)
    requires c.Json() && Inv(c, w) && TearWrite(c, w, v, e, k)
    ensures Inv(c, v)
  {
    WriteKeepsFile(c, w, e);
    ValidChainExtend(c, w.attempted, e);
    SamePrefix(w.attempted, v.attempted, |w.attempted|);
    SamePrefix(w.attempted, v.attempted, w.durable);
    SideKeeps(w, v);
    assert v.file <= w.file + LineOf(c, e);
  }

  lemma SyncKeeps(c: Codec, w: World, v: World)
    requires c.Json() && Inv(c, w) && Sync(w, v)
    ensures Inv(c, v)
  {
    var n := |w.attempted|;
    assert w.attempted[..n] == w.attempted;
    LastOfChain(c, w.attempted);
  }

  lemma AcknowledgeKeeps(c: Codec, w: World, v: World)
    requires Inv(c, w) && Acknowledge(w, v)
    ensures Inv(c, v)
  {
    LastOfChain(c, w.attempted);
  }

  lemma SaveKeeps(c: Codec, w: World, v: World)
    requires Inv(c, w) && SaveCheckpoint(w, v)
    ensures Inv(c, v)
  {
    assert w.attempted[..|w.attempted|] == w.attempted;
  }

  lemma FinishKeeps(c: Codec, w: World, v: World)
    requires Inv(c, w) && Finish(w, v)
    ensures Inv(c, v)
  {
    if Acknowledge(w, v) {
      AcknowledgeKeeps(c, w, v);
    } else if SaveCheckpoint(w, v) {
      SaveKeeps(c, w, v);
    }
  }

  lemma LosePowerKeeps(c: Codec, w: World, v: World, cut: nat)
    requires c.Json() && Inv(c, w) && LosePower(c, w, v, cut)
    ensures Inv(c, v)
  {
    var cutOnly := w.(file := w.file[..cut]);
    assert FileOk(c, cutOnly);
    var n := Survivors(c, cutOnly);
    assert v.durable == n;
    LinesThenTail(v.file);
  }

  /** Dropping the torn tail, with or without forgetting the lost attempt. */
  lemma TrimKeepsFile(c: Codec, w: World, n: nat)
    requires FileOk(c, w) && w.durable <= n <= |w.attempted|
    ensures FileOk(c, w.(file := Encoded(c, w.attempted[..n])))
    ensures FileOk(c, w.(file := Encoded(c, w.attempted[..n]), attempted := w.attempted[..n]))
  {
    EncodedPrefix(c, w.attempted, n);
    EncodedPrefix(c, w.attempted[..n], w.durable);
    SamePrefix(w.attempted[..n], w.attempted, w.durable);
  }

  lemma RepairKeeps(c: Codec, w: World, v: World)
    requires c.Json() && Inv(c, w) && Repair(c, w, v)
    ensures Inv(c, v)
  {
    var n := Survivors(c, w);
    TrimKeepsFile(c, w, n);
  }

  lemma OpenResult(c: Codec, w: World, v: World, saved: bool) returns (n: nat)
    requires c.Json() && Inv(c, w) && Open(c, w, v, saved)
    ensures w.durable <= n <= |w.attempted| && |Lines(w.file)| == n
    ensures v.attempted == w.attempted[..n] && v.at == CursorOf(v.attempted)
    ensures v.file == Encoded(c, v.attempted)
    ensures w.side.Saved? ==> w.side.chk.seqNo <= n
  {
    n := Survivors(c, w);
    OpenedFor(c, w.file, w.side, w.attempted[..n]);
  }

  lemma OpenKeepsSide(w: World, v: World, n: nat)
    requires SideOk(w) && n <= |w.attempted| && v.attempted == w.attempted[..n]
    requires w.side.Saved? ==> w.side.chk.seqNo <= n
    requires v.side == w.side || v.side == CheckpointOf(CursorOf(v.attempted))
    ensures SideOk(v)
  {
    if v.side == w.side {
      SideKeeps(w, v);
    } else {
      assert v.attempted[..n] == v.attempted;
    }
  }

  lemma OpenKeeps(c: Codec, w: World, v: World, saved: bool)
    requires c.Json() && Inv(c, w) && Open(c, w, v, saved)
    ensures Inv(c, v)
  {
    var n := OpenResult(c, w, v, saved);
    ValidChainPrefix(c, w.attempted, n);
    TrimKeepsFile(c, w, n);
    OpenKeepsSide(w, v, n);
  }

  lemma StepKeeps(c: Codec, w: World, v: World)
    requires c.Json() && Inv(c, w) && Step(c, w, v)
    ensures Inv(c, v)
  {
    if e :| Write(c, w, v, e) {
      WriteKeeps(c, w, v, e);
    } else if e, k :| TearWrite(c, w, v, e, k) {
      TearWriteKeeps(c, w, v, e, k);
    } else if Sync(w, v) {
      SyncKeeps(c, w, v);
    } else if Finish(w, v) {
      FinishKeeps(c, w, v);
    } else if cut :| LosePower(c, w, v, cut) {
      LosePowerKeeps(c, w, v, cut);
    } else if Repair(c, w, v) {
      RepairKeeps(c, w, v);
    } else {
      var saved :| Open(c, w, v, saved);
      OpenKeeps(c, w, v, saved);
    }
  }

  lemma {:induction false} RunKeeps(c: Codec, run: seq<World>, i: nat)
    requires c.Json() && Run(c, run) && i < |run|
    ensures Inv(c, run[i])
    decreases i
  {
    if i == 0 {
      assert Marshalled(c, []) == [];
    } else {
      RunKeeps(c, run, i - 1);
      assert StepAt(c, run, i - 1);
      StepKeeps(c, run[i - 1], run[i]);
    }
  }

  // ---------------------------------------------------------------------------
  // Recovery.

  /** Every attempted record fits the scanner's buffer with its newline. */
  ghost predicate Fitting(c: Codec, chain: seq<Event>) {
    forall i :: 0 <= i < |chain| ==> |c.marshal(chain[i])| < MAX_TOKEN
  }

  /** The checkpoint is not ahead of the complete lines on disk. */
  ghost predicate CheckpointCovered(w: World) {
    w.side.Saved? ==> w.side.chk.seqNo <= |Lines(w.file)|
  }

  /** The recovered chain: a prefix of the attempted records that holds every record
      whose append returned without error, at its own sequence number. */
  ghost predicate Recovers(c: Codec, w: World, n: nat) {
    && n <= |w.attempted|
    && Opened(c, w.file, w.side) == Ok(CursorOf(w.attempted[..n]))
    && Terminated(w.file) == Encoded(c, w.attempted[..n])
    && (forall e :: e in w.acked ==> 1 <= e.seqNo <= n && w.attempted[..n][e.seqNo - 1] == e)
  }

  lemma SurvivorsFit(c: Codec, chain: seq<Event>, n: nat)
    requires Fitting(c, chain) && n <= |chain|
    ensures AllFit(Marshalled(c, chain[..n]))
  {
    var lines := Marshalled(c, chain[..n]);
    assert forall i :: 0 <= i < n ==> lines[i] == c.marshal(chain[i]);
  }

  lemma RecoveryInState(c: Codec, w: World)
    requires c.Json() && Inv(c, w)
    ensures Opened(c, w.file, w.side).Ok? <==> CheckpointCovered(w) && AllFit(Lines(w.file))
    ensures Opened(c, w.file, w.side).Ok? ==> exists n :: Recovers(c, w, n)
  {
    var n := Survivors(c, w);
    var chain := w.attempted[..n];
    OpenedFor(c, w.file, w.side, chain);
    if CheckpointCovered(w) {
      SideKeeps(w, w.(attempted := chain));
      assert chain[..n] == chain;
    }
    if Opened(c, w.file, w.side).Ok? {
      assert Recovers(c, w, n);
    }
  }

  /** In every state of every run, opening the log succeeds if and only if the
      checkpoint is covered by the surviving lines and each of those lines fits the
      scanner, and success recovers. */
  lemma RecoveryIff(c: Codec, run: seq<World>, i: nat)
    requires c.Json() && Run(c, run) && i < |run|
    ensures Opened(c, run[i].file, run[i].side).Ok? <==>
      CheckpointCovered(run[i]) && AllFit(Lines(run[i].file))
    ensures Opened(c, run[i].file, run[i].side).Ok? ==> exists n :: Recovers(c, run[i], n)
  {
    RunKeeps(c, run, i);
    RecoveryInState(c, run[i]);
  }

  /** A power loss at this moment, wherever it cuts, leaves a log that opens and recovers. */
  ghost predicate SurvivesPowerLoss(c: Codec, w: World) {
    forall v, cut :: LosePower(c, w, v, cut) ==> exists n :: Recovers(c, v, n)
  }

  /** Cutting exactly at the durable records is one of the cuts a power loss can make. */
  lemma WorstCut(c: Codec, w: World) returns (v: World)
    requires c.Json() && Inv(c, w)
    ensures exists cut :: LosePower(c, w, v, cut)
    ensures |Lines(v.file)| == w.durable && v.side == w.side
  {
    var kept := Encoded(c, w.attempted[..w.durable]);
    var cut := |kept|;
    EncodedPrefix(c, w.attempted, w.durable);
    assert w.file[..cut] == kept;
    EncodedReads(c, w.attempted[..w.durable]);
    v := w.(phase := Down, file := kept, durable := |Lines(kept)|);
    assert LosePower(c, w, v, cut);
  }

  /** In every state of every run whose records fit, the log survives a power loss at any
      cut if and only if the checkpoint names no record that is not yet durable. */
  lemma PowerLossSurvivedExactly(c: Codec, run: seq<World>, i: nat)
    requires c.Json() && Run(c, run) && i < |run| && Fitting(c, run[i].attempted)
    ensures SurvivesPowerLoss(c, run[i]) <==> (run[i].side.Saved? ==> run[i].side.chk.seqNo <= run[i].durable)
  {
    var w := run[i];
    RunKeeps(c, run, i);
    if w.side.Saved? ==> w.side.chk.seqNo <= w.durable {
      forall v, cut | LosePower(c, w, v, cut) ensures exists n :: Recovers(c, v, n) {
        LosePowerKeeps(c, w, v, cut);
        var n := Survivors(c, v);
        SurvivorsFit(c, v.attempted, n);
        CutKeepsDurable(c, w, v, cut);
        RecoveryInState(c, v);
      }
    } else {
      var v := WorstCut(c, w);
      var cut :| LosePower(c, w, v, cut);
      LosePowerKeeps(c, w, v, cut);
      RecoveryInState(c, v);
      assert forall n :: !Recovers(c, v, n);
    }
  }

  lemma CutKeepsDurable(c: Codec, w: World, v: World, cut: nat)
    requires c.Json() && Inv(c, w) && LosePower(c, w, v, cut)
    ensures w.durable <= |Lines(v.file)|
  {
    var n := Survivors(c, w.(file := w.file[..cut]));
  }

  /** Every open in the run finds all complete lines of the file already durable: it
      follows a power loss, or a kill that left nothing unsynced. */
  ghost predicate CleanOpens(run: seq<World>) {
    forall i: nat {:trigger CleanAt(run, i)} :: i + 1 < |run| ==> CleanAt(run, i)
  }

  ghost predicate CleanAt(run: seq<World>, i: nat)
    requires i + 1 < |run|
  {
    run[i].phase.Down? && !run[i + 1].phase.Down? ==> run[i].durable == |Lines(run[i].file)|
  }

  ghost predicate CheckpointDurable(w: World) {
    && (w.side.Saved? ==> w.side.chk.seqNo <= w.durable)
    && ((w.phase.Synced? || w.phase.Renamed?) ==> w.at.seqNo <= w.durable)
  }

  lemma CleanOpen(c: Codec, w: World, v: World, saved: bool)
    requires c.Json() && Inv(c, w) && Open(c, w, v, saved) && CheckpointDurable(w)
    requires w.durable == |Lines(w.file)|
    ensures CheckpointDurable(v)
  {
    var n := OpenResult(c, w, v, saved);
  }

  lemma CleanLosePower(c: Codec, w: World, v: World, cut: nat)
    requires c.Json() && Inv(c, w) && LosePower(c, w, v, cut) && CheckpointDurable(w)
    ensures CheckpointDurable(v)
  {
    var n := Survivors(c, w.(file := w.file[..cut]));
  }

  lemma CleanSync(c: Codec, w: World, v: World)
    requires c.Json() && Inv(c, w) && Sync(w, v) && CheckpointDurable(w)
    ensures CheckpointDurable(v)
  {
    SyncKeeps(c, w, v);
  }

  lemma CleanStep(c: Codec, w: World, v: World)
    requires c.Json() && Inv(c, w) && Step(c, w, v) && CheckpointDurable(w)
    requires w.phase.Down? && !v.phase.Down? ==> w.durable == |Lines(w.file)|
    ensures CheckpointDurable(v)
  {
    if e :| Write(c, w, v, e) {
    } else if e, k :| TearWrite(c, w, v, e, k) {
    } else if Sync(w, v) {
      CleanSync(c, w, v);
    } else if Finish(w, v) {
    } else if cut :| LosePower(c, w, v, cut) {
      CleanLosePower(c, w, v, cut);
    } else if Repair(c, w, v) {
    } else {
      var saved :| Open(c, w, v, saved);
      CleanOpen(c, w, v, saved);
    }
  }

  lemma {:induction false} CleanRun(c: Codec, run: seq<World>, i: nat)
    requires c.Json() && Run(c, run) && CleanOpens(run) && i < |run|
    ensures CheckpointDurable(run[i])
    decreases i
  {
    if i > 0 {
      CleanRun(c, run, i - 1);
      RunKeeps(c, run, i - 1);
      assert StepAt(c, run, i - 1) && CleanAt(run, i - 1);
      CleanStep(c, run[i - 1], run[i]);
    }
  }

  /** If this step of the run is a power loss, it strikes a checkpoint that names durable
      records only. */
  ghost predicate SafeAt(c: Codec, run: seq<World>, i: nat)
    requires i + 1 < |run|
  {
    Safe(c, run[i], run[i + 1])
  }

  ghost predicate Safe(c: Codec, w: World, v: World) {
    forall cut :: LosePower(c, w, v, cut) ==> (w.side.Saved? ==> w.side.chk.seqNo <= w.durable)
  }

  /** If this step of the run is a power loss, it spares every record the checkpoint
      counts. */
  ghost predicate SparedAt(c: Codec, run: seq<World>, i: nat)
    requires i + 1 < |run|
  {
    Spared(c, run[i], run[i + 1])
  }

  ghost predicate Spared(c: Codec, w: World, v: World) {
    PowerLost(c, w, v) ==> CheckpointCovered(v)
  }

  lemma SafeIsSpared(c: Codec, run: seq<World>, i: nat)
    requires c.Json() && Run(c, run) && i + 1 < |run| && SafeAt(c, run, i)
    ensures SparedAt(c, run, i)
  {
    RunKeeps(c, run, i);
    var w, v := run[i], run[i + 1];
    if cut :| LosePower(c, w, v, cut) {
      CutKeepsDurable(c, w, v, cut);
    }
  }

  /** While the process runs, the file holds every attempted record as a line. */
  lemma RunningFile(c: Codec, w: World)
    requires c.Json() && Inv(c, w) && !w.phase.Down?
    ensures |Lines(w.file)| == |w.attempted|
  {
    EncodedReads(c, w.attempted);
  }

  lemma TearWriteCovered(c: Codec, w: World, v: World, e: Event, k: nat)
    requires c.Json() && Inv(c, w) && TearWrite(c, w, v, e, k)
    ensures |Lines(v.file)| >= |w.attempted|
  {
    TearWriteKeeps(c, w, v, e, k);
    var kept := v.(durable := |w.attempted|);
    assert v.attempted[..|w.attempted|] == w.attempted;
    assert FileOk(c, kept);
    var n := Survivors(c, kept);
  }

  lemma OpenCovered(c: Codec, w: World, v: World, saved: bool)
    requires c.Json() && Inv(c, w) && Open(c, w, v, saved)
    ensures CheckpointCovered(v)
  {
    var n := OpenResult(c, w, v, saved);
    OpenKeeps(c, w, v, saved);
    RunningFile(c, v);
  }

  /** Only a power loss can leave the checkpoint ahead of the log. */
  lemma PoweredCovered(c: Codec, w: World, v: World)
    requires c.Json() && Inv(c, w) && PoweredStep(c, w, v) && CheckpointCovered(w)
    ensures CheckpointCovered(v)
  {
    if e, k :| TearWrite(c, w, v, e, k) {
      RunningFile(c, w);
      TearWriteCovered(c, w, v, e, k);
    } else if Repair(c, w, v) {
      TerminatedIsFixed(w.file);
    } else if saved :| Open(c, w, v, saved) {
      OpenCovered(c, w, v, saved);
    } else if !v.phase.Down? {
      StepKeeps(c, w, v);
      RunningFile(c, v);
    }
  }

  lemma CoveredStep(c: Codec, w: World, v: World)
    requires c.Json() && Inv(c, w) && Step(c, w, v) && CheckpointCovered(w) && Spared(c, w, v)
    ensures CheckpointCovered(v)
  {
    if !PowerLost(c, w, v) {
      PoweredCovered(c, w, v);
    }
  }

  lemma {:induction false} CoveredRun(c: Codec, run: seq<World>, i: nat)
    requires c.Json() && Run(c, run) && i < |run|
    requires forall j: nat {:trigger SparedAt(c, run, j)} :: j < i ==> SparedAt(c, run, j)
    ensures CheckpointCovered(run[i])
    decreases i
  {
    if i > 0 {
      CoveredRun(c, run, i - 1);
      RunKeeps(c, run, i - 1);
      assert StepAt(c, run, i - 1) && SparedAt(c, run, i - 1);
      CoveredStep(c, run[i - 1], run[i]);
    }
  }

  /** An open in this state recovers. */
  ghost predicate RecoversAt(c: Codec, run: seq<World>, i: nat)
    requires i < |run|
  {
    exists n :: Recovers(c, run[i], n)
  }

  lemma CoveredRecovers(c: Codec, run: seq<World>, i: nat)
    requires c.Json() && Run(c, run) && i < |run| && Fitting(c, run[i].attempted)
    ensures CheckpointCovered(run[i]) <==> RecoversAt(c, run, i)
  {
    RunKeeps(c, run, i);
    var n := Survivors(c, run[i]);
    SurvivorsFit(c, run[i].attempted, n);
    RecoveryInState(c, run[i]);
  }

  ghost predicate FittingAt(c: Codec, run: seq<World>, i: nat)
    requires i < |run|
  {
    Fitting(c, run[i].attempted)
  }

  ghost predicate AlwaysFitting(c: Codec, run: seq<World>) {
    forall i: nat {:trigger FittingAt(c, run, i)} :: i < |run| ==> FittingAt(c, run, i)
  }

  ghost predicate AlwaysRecovers(c: Codec, run: seq<World>) {
    forall i: nat {:trigger RecoversAt(c, run, i)} :: i < |run| ==> RecoversAt(c, run, i)
  }

  ghost predicate AlwaysSpared(c: Codec, run: seq<World>) {
    forall i: nat {:trigger SparedAt(c, run, i)} :: i + 1 < |run| ==> SparedAt(c, run, i)
  }

  lemma SparedRecovers(c: Codec, run: seq<World>)
    requires c.Json() && Run(c, run) && AlwaysFitting(c, run) && AlwaysSpared(c, run)
    ensures AlwaysRecovers(c, run)
  {
    forall i: nat | i < |run| ensures RecoversAt(c, run, i) {
      assert FittingAt(c, run, i);
      CoveredRun(c, run, i);
      CoveredRecovers(c, run, i);
    }
  }

  lemma RecoversSpared(c: Codec, run: seq<World>)
    requires c.Json() && Run(c, run) && AlwaysFitting(c, run) && AlwaysRecovers(c, run)
    ensures AlwaysSpared(c, run)
  {
    forall i: nat | i + 1 < |run| ensures SparedAt(c, run, i) {
      assert FittingAt(c, run, i + 1) && RecoversAt(c, run, i + 1);
      CoveredRecovers(c, run, i + 1);
    }
  }

  /** A run recovers in every one of its states, however it is killed, torn and reopened,
      if and only if each of its power losses spares the records the checkpoint counts. */
  lemma RunRecoversExactly(c: Codec, run: seq<World>)
    requires c.Json() && Run(c, run) && AlwaysFitting(c, run)
    ensures AlwaysRecovers(c, run) <==> AlwaysSpared(c, run)
  {
    if AlwaysSpared(c, run) {
      SparedRecovers(c, run);
    }
    if AlwaysRecovers(c, run) {
      RecoversSpared(c, run);
    }
  }

  /** For every run of appends, opens and crashes at any point, whose power losses strike
      only checkpoints of durable records, the next open succeeds and recovers a prefix of
      the attempted records with every acknowledged record. */
  lemma CrashRecovery(c: Codec, run: seq<World>, i: nat)
    requires c.Json() && Run(c, run) && i < |run| && Fitting(c, run[i].attempted)
    requires forall j: nat {:trigger SafeAt(c, run, j)} :: j < i ==> SafeAt(c, run, j)
    ensures exists n :: Recovers(c, run[i], n)
  {
    forall j: nat | j < i ensures SparedAt(c, run, j) {
      assert SafeAt(c, run, j);
      SafeIsSpared(c, run, j);
    }
    CoveredRun(c, run, i);
    CoveredRecovers(c, run, i);
  }

  ghost predicate PoweredAt(c: Codec, run: seq<World>, i: nat)
    requires i + 1 < |run|
  {
    PoweredStep(c, run[i], run[i + 1])
  }

  lemma {:induction false} PoweredRun(c: Codec, run: seq<World>, i: nat)
    requires c.Json() && Run(c, run) && i < |run|
    requires forall j: nat {:trigger PoweredAt(c, run, j)} :: j < i ==> PoweredAt(c, run, j)
    ensures CheckpointCovered(run[i])
    decreases i
  {
    if i > 0 {
      PoweredRun(c, run, i - 1);
      RunKeeps(c, run, i - 1);
      assert PoweredAt(c, run, i - 1);
      PoweredCovered(c, run[i - 1], run[i]);
    }
  }

  /** While the machine stays up nothing is asked for: appends, torn writes, kills at any
      point and opens never strand a log. */
  lemma KillsNeverStrand(c: Codec, run: seq<World>, i: nat)
    requires c.Json() && Run(c, run) && i < |run| && Fitting(c, run[i].attempted)
    requires forall j: nat {:trigger PoweredAt(c, run, j)} :: j < i ==> PoweredAt(c, run, j)
    ensures exists n :: Recovers(c, run[i], n)
  {
    PoweredRun(c, run, i);
    CoveredRecovers(c, run, i);
  }

  // ---------------------------------------------------------------------------
  // An append is acknowledged only once the checkpoint counts it.

  /** With a checkpoint configured, nothing passes the save without saving. */
  ghost predicate Checkpointing(w: World, v: World) {
    w.phase.Synced? && v.phase.Renamed? ==> v.side == Saved(Checkpoint(w.at.seqNo, w.at.last, w.at.count))
  }

  ghost predicate CheckpointingAt(run: seq<World>, i: nat)
    requires i + 1 < |run|
  {
    Checkpointing(run[i], run[i + 1])
  }

  /** The checkpoint counts every acknowledged record, and in the last step before an
      acknowledgement the record to be acknowledged too. */
  ghost predicate AckedCounted(w: World) {
    && (forall e :: e in w.acked ==> w.side.Saved? && e.seqNo <= w.side.chk.seqNo)
    && (w.phase.Renamed? ==> w.side.Saved? && w.side.chk.seqNo == |w.attempted|)
  }

  lemma AckedFinish(c: Codec, w: World, v: World)
    requires Inv(c, w) && Finish(w, v) && Checkpointing(w, v) && AckedCounted(w)
    ensures AckedCounted(v)
  {
    FinishKeeps(c, w, v);
  }

  lemma AckedOpen(c: Codec, w: World, v: World, saved: bool)
    requires c.Json() && Inv(c, w) && Open(c, w, v, saved) && AckedCounted(w)
    ensures AckedCounted(v)
  {
    var n := OpenResult(c, w, v, saved);
  }

  lemma AckedStep(c: Codec, w: World, v: World)
    requires c.Json() && Inv(c, w) && Step(c, w, v) && Checkpointing(w, v) && AckedCounted(w)
    ensures AckedCounted(v)
  {
    if Finish(w, v) {
      AckedFinish(c, w, v);
    } else if saved :| Open(c, w, v, saved) {
      AckedOpen(c, w, v, saved);
    }
  }

  /** In every run with a checkpoint configured, through every crash, the checkpoint on
      disk counts every record whose append returned without error. */
  lemma {:induction false} AckedAreCheckpointed(c: Codec, run: seq<World>, i: nat)
    requires c.Json() && Run(c, run) && i < |run|
    requires forall j: nat {:trigger CheckpointingAt(run, j)} :: j < i ==> CheckpointingAt(run, j)
    ensures AckedCounted(run[i])
    decreases i
  {
    if i > 0 {
      AckedAreCheckpointed(c, run, i - 1);
      RunKeeps(c, run, i - 1);
      assert StepAt(c, run, i - 1) && CheckpointingAt(run, i - 1);
      AckedStep(c, run[i - 1], run[i]);
    }
  }

  /** The save itself is such a step. */
  lemma SaveIsCheckpointing(w: World, v: World)
    requires SaveCheckpoint(w, v)
    ensures Checkpointing(w, v)
  {
  }

  /** Power losses are safe in a run whose opens find no unsynced complete line. */
  lemma CleanOpensAreSafe(c: Codec, run: seq<World>, i: nat)
    requires c.Json() && Run(c, run) && CleanOpens(run) && i + 1 < |run|
    ensures SafeAt(c, run, i)
  {
    CleanRun(c, run, i);
  }

  /** Why opens must be clean. A killed append leaves an unsynced record; the next open
      adopts it and writes a checkpoint for it without syncing the log; a power loss
      then takes the record but not the checkpoint, and the log no longer opens. */
  lemma UncleanOpenCanStrandLog(c: Codec, e: Event) returns (run: seq<World>)
    requires c.Json() && Links(c, "", 0, e) && |c.marshal(e)| < MAX_TOKEN
    ensures Run(c, run) && Fitting(c, run[|run| - 1].attempted)
    ensures run[|run| - 1].phase.Down? && run[|run| - 1].acked == {}
    ensures Opened(c, run[|run| - 1].file, run[|run| - 1].side) == Err(LogTruncated)
  {
    var up, written, killed, adopted, dark := StrandingStates(c, e);
    run := [FRESH];
    run := RunGrows(c, run, up);
    run := RunGrows(c, run, written);
    run := RunGrows(c, run, killed);
    run := RunGrows(c, run, adopted);
    run := RunGrows(c, run, dark);
  }

  lemma StrandingStates(c: Codec, e: Event)
    returns (up: World, written: World, killed: World, adopted: World, dark: World)
    requires c.Json() && Links(c, "", 0, e) && |c.marshal(e)| < MAX_TOKEN
    ensures Step(c, FRESH, up) && Step(c, up, written) && Step(c, written, killed)
    ensures Step(c, killed, adopted) && Step(c, adopted, dark)
    ensures dark.phase.Down? && dark.acked == {} && Fitting(c, dark.attempted)
    ensures Opened(c, dark.file, dark.side) == Err(LogTruncated)
  {
    up := FRESH.(phase := Idle);
    written := up.(file := LineOf(c, e), phase := Written(e), attempted := [e]);
    killed := written.(phase := Down);
    adopted := killed.(phase := Idle, at := CursorOf([e]), side := CheckpointOf(CursorOf([e])));
    dark := adopted.(phase := Down, file := []);
    FirstSteps(c, e, up, written);
    assert Step(c, written, killed) by {
      assert Kill(written, killed);
    }
    AdoptStep(c, e, killed, adopted);
    DarkStep(c, e, adopted, dark);
  }

  lemma RunGrows(c: Codec, run: seq<World>, v: World) returns (more: seq<World>)
    requires Run(c, run) && Step(c, run[|run| - 1], v)
    ensures Run(c, more) && more[|more| - 1] == v
  {
    more := run + [v];
    forall i: nat | i + 1 < |more| ensures StepAt(c, more, i) {
      if i + 1 < |run| {
        assert StepAt(c, run, i);
      }
    }
  }

  lemma FirstSteps(c: Codec, e: Event, up: World, written: World)
    requires c.Json() && Links(c, "", 0, e) && up == FRESH.(phase := Idle)
    requires written == up.(file := LineOf(c, e), phase := Written(e), attempted := [e])
    ensures Step(c, FRESH, up) && Step(c, up, written)
  {
    assert up.file + LineOf(c, e) == LineOf(c, e) && up.attempted + [e] == [e];
    assert Write(c, up, written, e);
    EmptyLog(c, Absent);
    assert Open(c, FRESH, up, false);
  }

  lemma AdoptStep(c: Codec, e: Event, killed: World, adopted: World)
    requires c.Json() && Links(c, "", 0, e) && |c.marshal(e)| < MAX_TOKEN
    requires killed == FRESH.(file := LineOf(c, e), attempted := [e])
    requires adopted == killed.(phase := Idle, at := CursorOf([e]), side := CheckpointOf(CursorOf([e])))
    ensures Step(c, killed, adopted)
  {
    OneRecordLog(c, e);
    assert [e][..1] == [e];
    assert Open(c, killed, adopted, true);
  }

  lemma DarkStep(c: Codec, e: Event, adopted: World, dark: World)
    requires c.Json() && dark == adopted.(phase := Down, file := [])
    requires adopted.side == CheckpointOf(CursorOf([e])) && adopted.durable == 0
    ensures Step(c, adopted, dark)
    ensures Opened(c, dark.file, dark.side) == Err(LogTruncated)
  {
    assert adopted.file[..0] == [] && adopted.attempted[..0] == [] && Marshalled(c, []) == [];
    EmptyLog(c, dark.side);
    assert LosePower(c, adopted, dark, 0);
  }

  lemma OneRecordLog(c: Codec, e: Event)
    requires c.Json() && Links(c, "", 0, e) && |c.marshal(e)| < MAX_TOKEN
    ensures Opened(c, LineOf(c, e), Absent) == Ok(CursorOf([e]))
    ensures Terminated(LineOf(c, e)) == LineOf(c, e)
  {
    EncodedOne(c, e);
    EncodedReads(c, [e]);
    assert ValidChain(c, [e]) by {
      assert LinkedAt(c, [e], 0);
    }
    OpenedFor(c, Encoded(c, [e]), Absent, [e]);
  }

  lemma EmptyLog(c: Codec, side: Sidecar)
    ensures Opened(c, [], side) == CrossCheck(side, START)
    ensures Lines([]) == [] && Terminated([]) == []
  {
  }
}
