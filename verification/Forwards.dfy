/**
 Forward splices under downgrade deltas. Opening a splice is two steps, the gate that
 reads the live caps and the tracking that makes the splice reachable; a delta is two
 steps, the commit of its caps and the tear of the splices they no longer allow. The
 steps of any number of splices and deltas interleave freely.
 */
module Forwards {
  /** Whether a granted target entry covers a destination. */
  type Covers = (string, string) -> bool

  predicate TargetAllowed(covers: Covers, allowed: seq<string>, dest: string) {
    exists i :: 0 <= i < |allowed| && covers(allowed[i], dest)
  }

  method IsTargetAllowed(covers: Covers, allowed: seq<string>, dest: string) returns (ok: bool)
    ensures ok <==> TargetAllowed(covers, allowed, dest)
  {
    for i := 0 to |allowed|
      invariant forall j :: 0 <= j < i ==> !covers(allowed[j], dest)
    {
      if covers(allowed[i], dest) {
        return true;
      }
    }
    return false;
  }

  /** Gated: past the gate, not tracked yet. missed are the deltas whose tear went by
      while the splice was not tracked, although they exclude it. */
  datatype Phase = Gated | Running | Cancelled | Finished

  datatype Splice = Splice(dest: string, phase: Phase, missed: set<nat>)

  /** deltas are the forward targets of the committed deltas in order, pending those
      whose tear is still to come. */
  datatype World = World(granted: string, deltas: seq<seq<string>>, pending: set<nat>, splices: seq<Splice>)

  /** Without a delta the grant alone governs. */
  predicate CapsAllow(covers: Covers, w: World, dest: string) {
    w.deltas == [] || TargetAllowed(covers, w.deltas[|w.deltas| - 1], dest)
  }

  function Torn(covers: Covers, s: Splice, allowed: seq<string>, e: nat): Splice {
    if TargetAllowed(covers, allowed, s.dest) then s
    else
      match s.phase
      case Running => s.(phase := Cancelled)
      case Gated => s.(missed := s.missed + {e})
      case _ => s
  }

  function TornAll(covers: Covers, splices: seq<Splice>, allowed: seq<string>, e: nat): seq<Splice> {
    seq(|splices|, i requires 0 <= i < |splices| => Torn(covers, splices[i], allowed, e))
  }

  /** Cancels every tracked splice the allowed set does not cover. */
  method TearForwards(covers: Covers, splices: seq<Splice>, allowed: seq<string>, e: nat) returns (out: seq<Splice>)
    ensures out == TornAll(covers, splices, allowed, e)
  {
    out := [];
    for i := 0 to |splices|
      invariant out == TornAll(covers, splices[..i], allowed, e)
    {
      var s := splices[i];
      var ok := IsTargetAllowed(covers, allowed, s.dest);
      if !ok {
        match s.phase {
          case Running => s := s.(phase := Cancelled);
          case Gated => s := s.(missed := s.missed + {e});
          case _ =>
        }
      }
      out := out + [s];
    }
    assert splices[..|splices|] == splices;
  }

  datatype Step =
    | Gate(dest: string)
    | Track(k: nat)
    | Commit(targets: seq<string>)
    | Tear(e: nat)
    | End(k: nat)

  ghost predicate Enabled(covers: Covers, w: World, s: Step) {
    match s
    case Gate(dest) => covers(w.granted, dest) && CapsAllow(covers, w, dest)
    case Track(k) => k < |w.splices| && w.splices[k].phase.Gated?
    case Commit(_) => true
    case Tear(e) => e in w.pending && e < |w.deltas|
    case End(k) => k < |w.splices|
  }

  ghost function After(covers: Covers, w: World, s: Step): World
    requires Enabled(covers, w, s)
  {
    match s
    case Gate(dest) => w.(splices := w.splices + [Splice(dest, Gated, {})])
    case Track(k) => w.(splices := w.splices[k := w.splices[k].(phase := Running)])
    case Commit(targets) => w.(deltas := w.deltas + [targets], pending := w.pending + {|w.deltas|})
    case Tear(e) => w.(pending := w.pending - {e}, splices := TornAll(covers, w.splices, w.deltas[e], e))
    case End(k) => w.(splices := w.splices[k := w.splices[k].(phase := Finished)])
  }

  /** Every open splice is allowed by the newest delta, or that delta's tear is still to
      come, or went by before the splice was tracked. */
  ghost predicate SpliceOk(covers: Covers, w: World, s: Splice) {
    var e := |w.deltas| - 1;
    && covers(w.granted, s.dest)
    && (forall m :: m in s.missed ==> m < |w.deltas| && !TargetAllowed(covers, w.deltas[m], s.dest))
    && (s.phase.Gated? || s.phase.Running? ==>
          e < 0 || TargetAllowed(covers, w.deltas[e], s.dest) || e in w.pending || e in s.missed)
  }

  ghost predicate Inv(covers: Covers, w: World) {
    forall k :: 0 <= k < |w.splices| ==> SpliceOk(covers, w, w.splices[k])
  }

  lemma StepKeeps(covers: Covers, w: World, s: Step)
    requires Inv(covers, w) && Enabled(covers, w, s)
    ensures Inv(covers, After(covers, w, s))
  {
    var a := After(covers, w, s);
    forall k | 0 <= k < |a.splices| ensures SpliceOk(covers, a, a.splices[k]) {
      if k < |w.splices| {
        assert SpliceOk(covers, w, w.splices[k]);
      }
    }
  }

  ghost predicate StepAt(covers: Covers, run: seq<World>, steps: seq<Step>, i: nat)
    requires i < |steps| && |run| == |steps| + 1
  {
    Enabled(covers, run[i], steps[i]) && run[i + 1] == After(covers, run[i], steps[i])
  }

  ghost predicate Run(covers: Covers, run: seq<World>, steps: seq<Step>) {
    && |run| == |steps| + 1 && run[0] == World(run[0].granted, [], {}, [])
    && forall i: nat {:trigger StepAt(covers, run, steps, i)} :: i < |steps| ==> StepAt(covers, run, steps, i)
  }

  lemma {:induction false} RunKeeps(covers: Covers, run: seq<World>, steps: seq<Step>, i: nat)
    requires Run(covers, run, steps) && i < |run|
    ensures Inv(covers, run[i])
  {
    if i > 0 {
      RunKeeps(covers, run, steps, i - 1);
      assert StepAt(covers, run, steps, i - 1);
      StepKeeps(covers, run[i - 1], steps[i - 1]);
    }
  }

  ghost predicate Stopped(w: World, k: nat) {
    k < |w.splices| && (w.splices[k].phase.Cancelled? || w.splices[k].phase.Finished?)
  }

  lemma StoppedStep(covers: Covers, w: World, s: Step, k: nat)
    requires Stopped(w, k) && Enabled(covers, w, s)
    ensures Stopped(After(covers, w, s), k)
  {
  }

  /** A splice that ended, or that a tear found tracked and not allowed, never carries
      traffic again. */
  lemma {:induction false} StoppedStays(covers: Covers, run: seq<World>, steps: seq<Step>, i: nat, j: nat, k: nat)
    requires Run(covers, run, steps) && i < j < |run| && k < |run[i].splices|
    requires
      || steps[i] == End(k)
      || (steps[i].Tear? && steps[i].e < |run[i].deltas| && run[i].splices[k].phase.Running? &&
          !TargetAllowed(covers, run[i].deltas[steps[i].e], run[i].splices[k].dest))
    ensures Stopped(run[j], k)
    decreases j
  {
    assert StepAt(covers, run, steps, j - 1);
    if i < j - 1 {
      StoppedStays(covers, run, steps, i, j - 1, k);
      StoppedStep(covers, run[j - 1], steps[j - 1], k);
    }
  }

  /** Once every tear is done, a running splice is outside the live caps exactly when the
      newest delta's tear went by between the splice's gate and its tracking. It is
      never outside the grant. */
  lemma RevokedForwardRunsExactlyWhen(covers: Covers, run: seq<World>, steps: seq<Step>, i: nat, k: nat)
    requires Run(covers, run, steps) && i < |run| && run[i].pending == {}
    requires k < |run[i].splices| && run[i].splices[k].phase.Running?
    ensures covers(run[i].granted, run[i].splices[k].dest)
    ensures !CapsAllow(covers, run[i], run[i].splices[k].dest) <==> |run[i].deltas| - 1 in run[i].splices[k].missed
  {
    RunKeeps(covers, run, steps, i);
    assert SpliceOk(covers, run[i], run[i].splices[k]);
  }

  /** No tear falls between a splice's gate and its tracking. */
  ghost predicate NoTearInBetween(run: seq<World>, steps: seq<Step>) {
    forall i, k :: 0 <= i < |steps| && i < |run| && steps[i].Tear? && 0 <= k < |run[i].splices| ==>
      !run[i].splices[k].phase.Gated?
  }

  lemma NothingMissed(covers: Covers, w: World, s: Step)
    requires Enabled(covers, w, s)
    requires forall k :: 0 <= k < |w.splices| ==> w.splices[k].missed == {}
    requires s.Tear? ==> forall k :: 0 <= k < |w.splices| ==> !w.splices[k].phase.Gated?
    ensures forall k :: 0 <= k < |After(covers, w, s).splices| ==> After(covers, w, s).splices[k].missed == {}
  {
  }

  /** Then, after the tears, every running splice is one the live caps allow. */
  lemma {:induction false} RevokedForwardsStop(covers: Covers, run: seq<World>, steps: seq<Step>, i: nat)
    requires Run(covers, run, steps) && i < |run| && NoTearInBetween(run, steps)
    ensures forall k :: 0 <= k < |run[i].splices| ==> run[i].splices[k].missed == {}
    ensures run[i].pending == {} ==>
      forall k :: 0 <= k < |run[i].splices| && run[i].splices[k].phase.Running? ==>
        CapsAllow(covers, run[i], run[i].splices[k].dest)
  {
    if i > 0 {
      RevokedForwardsStop(covers, run, steps, i - 1);
      assert StepAt(covers, run, steps, i - 1);
      NothingMissed(covers, run[i - 1], steps[i - 1]);
    }
    if run[i].pending == {} {
      forall k | 0 <= k < |run[i].splices| && run[i].splices[k].phase.Running?
        ensures CapsAllow(covers, run[i], run[i].splices[k].dest)
      {
        RevokedForwardRunsExactlyWhen(covers, run, steps, i, k);
      }
    }
  }

  /** A splice that passes the gate just before a delta revokes its target, and is
      tracked just after the tear, goes on running. */
  lemma RevokedForwardCanRun(covers: Covers, target: string) returns (run: seq<World>, steps: seq<Step>)
    requires covers(target, target)
    ensures Run(covers, run, steps) && |steps| == 4 && run[4].pending == {} && |run[4].splices| == 1
    ensures run[4].splices[0].phase.Running? && !CapsAllow(covers, run[4], run[4].splices[0].dest)
  {
    steps := [Gate(target), Commit([]), Tear(0), Track(0)];
    var w0 := World(target, [], {}, []);
    var w1 := After(covers, w0, steps[0]);
    var w2 := After(covers, w1, steps[1]);
    var w3 := After(covers, w2, steps[2]);
    run := [w0, w1, w2, w3, After(covers, w3, steps[3])];
    forall i: nat | i < |steps| ensures StepAt(covers, run, steps, i) {
    }
  }
}
