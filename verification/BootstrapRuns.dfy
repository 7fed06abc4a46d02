/**
 The update loop over whole runs: any mix of polls, failed saves, failed gates,
 shutdowns and restarts.
 */
module BootstrapRuns {
  import opened Prelude
  import opened Bootstrap

  datatype Step =
    | Polled(poll: Poll)
    | Restart(saves: bool, polls: seq<Poll>)

  /** A process that is not up polls no more; a restart can happen at any time. */
  ghost predicate Enabled(b: Boot, s: Step) {
    s.Polled? ==> b.up
  }

  ghost function After(b: Boot, s: Step): Boot {
    match s
    case Polled(p) => Reconciled(b, p)
    case Restart(saves, polls) => Resolved(Fresh(b.saved, b.disk), saves, polls)
  }

  // ---------------------------------------------------------------------------
  // Between reconciles the running worker is the current version, which is installed.

  ghost predicate Running(b: Boot) {
    && (b.up ==> b.worker == b.current != "")
    && (b.current != "" ==> b.current == b.st.current && b.current in b.disk)
  }

  ghost predicate Inv(b: Boot) {
    && Running(b)
    && "" !in b.disk
    && 0 <= b.saved.floor <= b.st.floor
    && b.saved.rootKeys <= b.st.rootKeys
  }

  /** Until the swap only the bad list, the root-keys version and the saved state move. */
  ghost predicate OnlyState(b: Boot, a: Boot) {
    && a == b.(st := a.st, saved := a.saved, lastDesired := a.lastDesired)
    && a.st == b.st.(bad := a.st.bad, rootKeys := a.st.rootKeys)
    && b.st.rootKeys <= a.st.rootKeys
    && (a.saved == b.saved || (a.saved.floor == a.st.floor && a.saved.rootKeys <= a.st.rootKeys))
    && (a.st.bad == b.st.bad || a.st.bad == [])
  }

  lemma ReadiedIs(b: Boot, p: Poll)
    requires p.Wants?
    ensures OnlyState(b, Readied(b, p))
  {
  }

  lemma ReadiedKeeps(b: Boot, p: Poll)
    requires Inv(b) && p.Wants?
    ensures Inv(Readied(b, p))
  {
    ReadiedIs(b, p);
  }

  lemma SwapKeeps(b: Boot, m: Manifest, gate: Gate, io: Io)
    requires Inv(b) && b.up && m.version in b.disk
    ensures Inv(Swapped(b, m, gate, io))
  {
  }

  lemma PlacedKeeps(b: Boot, m: Manifest)
    requires Inv(b) && m.version != ""
    ensures Inv(Placed(b, m))
  {
  }

  lemma PollKeeps(b: Boot, p: Poll)
    requires Inv(b) && b.up
    ensures Inv(Reconciled(b, p))
  {
    if p.Wants? {
      ReadiedIs(b, p);
      ReadiedKeeps(b, p);
      if Proceeds(b, p) {
        var m := p.manifest.value;
        PlacedKeeps(Readied(b, p), m);
        SwapKeeps(Placed(Readied(b, p), m), m, p.gate, p.io);
      }
    }
  }

  lemma {:induction false} FirstInstallKeeps(b: Boot, polls: seq<Poll>)
    requires Inv(b) && !b.up
    ensures Inv(FirstInstall(b, polls))
    decreases |polls|
  {
    if polls != [] {
      var p := polls[0];
      FirstInstallKeeps(b, polls[1..]);
      if p.Wants? && p.manifest.Some? && TrustOk(b.st, p.keys) {
        FirstInstallKeeps(WithState(b, Trusting(b.st, p.keys), p.io.keys), polls[1..]);
      }
    }
  }

  lemma RestartKeeps(b: Boot, saves: bool, polls: seq<Poll>)
    requires Inv(b)
    ensures Inv(Resolved(Fresh(b.saved, b.disk), saves, polls))
  {
    FirstInstallKeeps(Fresh(b.saved, b.disk), polls);
  }

  lemma StepKeeps(b: Boot, s: Step)
    requires Inv(b) && Enabled(b, s)
    ensures Inv(After(b, s))
  {
    match s
    case Polled(p) => PollKeeps(b, p);
    case Restart(saves, polls) => RestartKeeps(b, saves, polls);
  }

  ghost predicate StepAt(run: seq<Boot>, steps: seq<Step>, i: nat)
    requires i < |steps| && |run| == |steps| + 1
  {
    Enabled(run[i], steps[i]) && run[i + 1] == After(run[i], steps[i])
  }

  /** A run starts on a node with any versions installed and any state file. */
  ghost predicate Run(run: seq<Boot>, steps: seq<Step>) {
    && |run| == |steps| + 1 && Inv(run[0])
    && forall i: nat {:trigger StepAt(run, steps, i)} :: i < |steps| ==> StepAt(run, steps, i)
  }

  lemma {:induction false} RunKeeps(run: seq<Boot>, steps: seq<Step>, i: nat)
    requires Run(run, steps) && i < |run|
    ensures Inv(run[i])
  {
    if i > 0 {
      RunKeeps(run, steps, i - 1);
      assert StepAt(run, steps, i - 1);
      StepKeeps(run[i - 1], steps[i - 1]);
    }
  }

  /** In every run, whatever fails, between reconciles the worker that runs is the current
      version, the state names it, and its binary is there to roll back to. */
  lemma WorkerIsCurrent(run: seq<Boot>, steps: seq<Step>, i: nat)
    requires Run(run, steps) && i < |run|
    ensures run[i].up ==> run[i].worker == run[i].current == run[i].st.current && run[i].current in run[i].disk
  {
    RunKeeps(run, steps, i);
  }

  // ---------------------------------------------------------------------------
  // The rollback floors.

  /** No state save of this step fails. */
  ghost predicate Saves(s: Step) {
    match s
    case Polled(p) => PollSaves(p)
    case Restart(saves, polls) => saves && forall i :: 0 <= i < |polls| ==> PollSaves(polls[i])
  }

  predicate PollSaves(p: Poll) {
    p.Wants? ==> p.io.reset && p.io.keys && p.io.swap
  }

  ghost predicate NotLower(a: State, b: State) {
    a.floor <= b.floor && a.rootKeys <= b.rootKeys
  }

  lemma {:induction false} FirstInstallRaises(b: Boot, polls: seq<Poll>)
    ensures NotLower(b.st, FirstInstall(b, polls).st)
    ensures b.saved == b.st && (forall i :: 0 <= i < |polls| ==> PollSaves(polls[i])) ==>
      FirstInstall(b, polls).saved == FirstInstall(b, polls).st
    decreases |polls|
  {
    if polls != [] {
      var p, rest := polls[0], polls[1..];
      assert forall i :: 0 <= i < |rest| ==> rest[i] == polls[i + 1];
      FirstInstallRaises(b, rest);
      if p.Wants? && p.manifest.Some? && TrustOk(b.st, p.keys) {
        FirstInstallRaises(WithState(b, Trusting(b.st, p.keys), p.io.keys), rest);
      }
    }
  }

  lemma SwapRaises(b: Boot, m: Manifest, gate: Gate, io: Io)
    ensures NotLower(b.st, Swapped(b, m, gate, io).st)
  {
  }

  lemma PollRaises(b: Boot, p: Poll)
    ensures NotLower(b.st, Reconciled(b, p).st)
  {
    if p.Wants? {
      ReadiedIs(b, p);
      if Proceeds(b, p) {
        SwapRaises(Placed(Readied(b, p), p.manifest.value), p.manifest.value, p.gate, p.io);
      }
    }
  }

  lemma ReadiedSaves(b: Boot, p: Poll)
    requires b.saved == b.st && PollSaves(p) && p.Wants?
    ensures Readied(b, p).saved == Readied(b, p).st
  {
  }

  lemma SwapSaves(b: Boot, m: Manifest, gate: Gate, io: Io)
    requires b.saved == b.st && io.swap
    ensures Swapped(b, m, gate, io).saved == Swapped(b, m, gate, io).st
  {
  }

  lemma PollSavesAll(b: Boot, p: Poll)
    requires b.saved == b.st && PollSaves(p)
    ensures Reconciled(b, p).saved == Reconciled(b, p).st
  {
    if p.Wants? {
      ReadiedSaves(b, p);
      if Proceeds(b, p) {
        var m := p.manifest.value;
        SwapSaves(Placed(Readied(b, p), m), m, p.gate, p.io);
      }
    }
  }

  lemma StepRaises(b: Boot, s: Step)
    ensures s.Polled? ==> NotLower(b.st, After(b, s).st)
    ensures s.Restart? ==> NotLower(b.saved, After(b, s).st)
    ensures b.saved == b.st && Saves(s) ==> After(b, s).saved == After(b, s).st
  {
    match s
    case Polled(p) =>
      PollRaises(b, p);
      if b.saved == b.st && Saves(s) {
        PollSavesAll(b, p);
      }
    case Restart(saves, polls) => FirstInstallRaises(Fresh(b.saved, b.disk), polls);
  }

  lemma {:induction false} SavedThroughout(run: seq<Boot>, steps: seq<Step>, i: nat)
    requires Run(run, steps) && i < |run| && run[0].saved == run[0].st
    requires forall k :: 0 <= k < |steps| ==> Saves(steps[k])
    ensures run[i].saved == run[i].st
  {
    if i > 0 {
      SavedThroughout(run, steps, i - 1);
      assert StepAt(run, steps, i - 1);
      StepRaises(run[i - 1], steps[i - 1]);
    }
  }

  /** Neither floor ever falls: within one process whatever fails, and across restarts
      when every save succeeds. */
  lemma {:induction false} FloorsNeverFall(run: seq<Boot>, steps: seq<Step>, i: nat, j: nat)
    requires Run(run, steps) && i <= j < |run|
    requires
      || (forall k :: i <= k < j ==> steps[k].Polled?)
      || (run[0].saved == run[0].st && forall k :: 0 <= k < |steps| ==> Saves(steps[k]))
    ensures NotLower(run[i].st, run[j].st)
    decreases j - i
  {
    if i < j {
      FloorsNeverFall(run, steps, i, j - 1);
      assert StepAt(run, steps, j - 1);
      if steps[j - 1].Restart? {
        SavedThroughout(run, steps, j - 1);
      }
      StepRaises(run[j - 1], steps[j - 1]);
    }
  }

  /** A root-keys document that does not verify, or is older than one already taken. */
  predicate Untrusted(st: State, keys: RootKeys) {
    keys.Served? && (!keys.genuine || keys.version < st.rootKeys)
  }

  /** A poll with such a document installs nothing, swaps nothing and raises nothing. */
  lemma UntrustedPollChangesNothing(b: Boot, p: Poll)
    requires p.Wants? && Untrusted(b.st, p.keys)
    ensures
      var a := Reconciled(b, p);
      && a.disk == b.disk && a.current == b.current && a.worker == b.worker && a.up == b.up
      && a.st == b.st.(bad := a.st.bad) && a.st.bad in {b.st.bad, []}
  {
  }

  /** A first install under such documents alone never happens. */
  lemma {:induction false} UntrustedFirstInstall(b: Boot, polls: seq<Poll>)
    requires forall i :: 0 <= i < |polls| && polls[i].Wants? ==> Untrusted(b.st, polls[i].keys)
    ensures FirstInstall(b, polls) == b
    decreases |polls|
  {
    if polls != [] {
      assert polls[0].Wants? ==> Untrusted(b.st, polls[0].keys);
      UntrustedFirstInstall(b, polls[1..]);
    }
  }

  /** The poll asks for a version to be looked at: another than the current one, with a
      manifest, and not one that failed while it was already being asked for. */
  predicate Looked(b: Boot, p: Poll)
    requires p.Wants?
  {
    && p.version != b.current && p.manifest.Some?
    && (p.version in b.st.bad ==> b.lastDesired != "" && p.version != b.lastDesired)
  }

  /** A poll raises the root-keys version to that of the document it serves exactly when
      the document verifies, is newer, and the poll asks for a version to be looked at. */
  lemma RootKeysRaisedExactly(b: Boot, p: Poll)
    requires p.Wants? && p.keys.Served?
    ensures Reconciled(b, p).st.rootKeys ==
      if Looked(b, p) && p.keys.genuine && p.keys.version > b.st.rootKeys then p.keys.version else b.st.rootKeys
  {
    ReadiedRootKeys(b, p);
    if Proceeds(b, p) {
      SwapKeepsRootKeys(Placed(Readied(b, p), p.manifest.value), p.manifest.value, p.gate, p.io);
    }
  }

  lemma ReadiedRootKeys(b: Boot, p: Poll)
    requires p.Wants? && p.keys.Served?
    ensures Readied(b, p).st.rootKeys ==
      if Looked(b, p) && p.keys.genuine && p.keys.version > b.st.rootKeys then p.keys.version else b.st.rootKeys
  {
  }

  lemma SwapKeepsRootKeys(b: Boot, m: Manifest, gate: Gate, io: Io)
    ensures Swapped(b, m, gate, io).st.rootKeys == b.st.rootKeys
  {
  }

  /** A poll gets as far as an installed binary exactly when its version is looked at, its
      root keys are trusted, the download is whole, the manifest names a version and no
      floor is above its build time; only then can it touch what is installed. */
  lemma InstallsExactly(b: Boot, p: Poll)
    requires p.Wants?
    ensures Proceeds(b, p) <==>
      && Looked(b, p) && !Untrusted(b.st, p.keys) && p.downloads && p.manifest.value.version != ""
      && (b.st.floor > 0 ==> p.manifest.value.created >= b.st.floor * 1_000_000_000)
    ensures !Proceeds(b, p) ==>
      && Reconciled(b, p).disk == b.disk && Reconciled(b, p).current == b.current
      && Reconciled(b, p).worker == b.worker && Reconciled(b, p).up == b.up
  {
    ReadiedIs(b, p);
  }

  /** With no usable version named, a sole installed version is taken up and remembered. */
  lemma SoleVersionIsTakenUp(b: Boot, saves: bool, polls: seq<Poll>, v: string)
    requires !Names(b.disk, b.saved.current) && b.disk.Keys == {v}
    ensures
      var a := After(b, Restart(saves, polls));
      && a.up && a.current == a.worker == a.st.current == v && a.disk == b.disk
      && a.saved.current == (if saves then v else b.saved.current)
      && a.st.floor == b.saved.floor && a.st.rootKeys == b.saved.rootKeys && a.st.bad == b.saved.bad
  {
    assert |b.disk| == |b.disk.Keys| == 1;
  }

  /** A restart that resumes a version keeps both floors exactly when the state file holds
      them. */
  lemma RestartKeepsFloorsExactly(b: Boot, saves: bool, polls: seq<Poll>)
    requires Inv(b) && Names(b.disk, b.saved.current)
    ensures NotLower(b.st, After(b, Restart(saves, polls)).st) <==>
      b.saved.floor == b.st.floor && b.saved.rootKeys == b.st.rootKeys
  {
  }

  /** The poll's version went live and was committed. */
  ghost predicate Commits(b: Boot, p: Poll) {
    Reconciled(b, p).current != b.current
  }

  /** A committed build is at least as new as the floor held before, exactly when a floor
      has been set or the build time is not before the epoch. */
  lemma CommitRespectsFloor(b: Boot, p: Poll)
    requires Inv(b) && b.up && Commits(b, p)
    ensures p.Wants? && p.manifest.Some? && Reconciled(b, p).current == p.version == p.manifest.value.version
    ensures
      var created := Unix(p.manifest.value.created);
      && (created >= b.st.floor <==> b.st.floor > 0 || p.manifest.value.created >= 0)
      && Reconciled(b, p).st.floor == if created > b.st.floor then created else b.st.floor
  {
    ReadiedIs(b, p);
    assert Proceeds(b, p) && p.gate.Healthy?;
  }

  /** A first install takes the manifest of one of its polls, and that build is at least as
      new as the floor in the state file under the same condition. */
  lemma {:induction false} FirstInstallRespectsFloor(b: Boot, polls: seq<Poll>) returns (k: nat)
    requires !b.up && 0 <= b.st.floor && FirstInstall(b, polls).up
    ensures k < |polls| && polls[k].Wants? && polls[k].manifest.Some?
    ensures
      var a, m := FirstInstall(b, polls), polls[k].manifest.value;
      && a.current == a.worker == a.st.current == m.version && m.version in a.disk && a.disk[m.version] == m.sha
      && (Unix(m.created) >= b.st.floor <==> b.st.floor > 0 || m.created >= 0)
      && a.st.floor == if Unix(m.created) > b.st.floor then Unix(m.created) else b.st.floor
    decreases |polls|
  {
    var p, rest := polls[0], polls[1..];
    if p.Silent? || p.manifest.None? || !TrustOk(b.st, p.keys) {
      k := FirstInstallRespectsFloor(b, rest);
      k := k + 1;
    } else {
      var trusting := WithState(b, Trusting(b.st, p.keys), p.io.keys);
      if Installs(trusting, p) {
        k := 0;
      } else {
        k := FirstInstallRespectsFloor(trusting, rest);
        k := k + 1;
      }
    }
  }

  const NODE := Boot("1", EMPTY.(current := "1"), "1", "", map["1" := "a"], EMPTY.(current := "1"), true)
  const IO := Io(true, true, true, {})

  /** With no floor set, a build from before the epoch is committed below it. */
  lemma UnsetFloorAdmitsOlderBuild() returns (b: Boot, p: Poll)
    ensures Inv(b) && b.up && Commits(b, p)
    ensures p.Wants? && p.manifest.Some? && Unix(p.manifest.value.created) < b.st.floor
  {
    b, p := NODE, Wants("2", Some(Manifest("2", "b", -1)), LegacyMode, true, Healthy, IO);
    assert Reconciled(b, p).current == "2";
  }

  // ---------------------------------------------------------------------------
  // A version that failed its gate stays out while it is still the desired one.

  ghost predicate Asks(p: Poll, v: string) {
    p.Wants? ==> p.version == v
  }

  ghost predicate Shunned(b: Boot, v: string) {
    && v in b.st.bad && v != b.current && v != b.worker
    && (b.lastDesired == v || b.lastDesired == "")
  }

  lemma FailedIsShunned(b: Boot, p: Poll)
    requires Inv(b) && b.up && p.Wants? && Proceeds(b, p)
    requires p.manifest.value.version == p.version && p.gate.Unhealthy?
    ensures Shunned(Reconciled(b, p), p.version)
    ensures b.lastDesired == "" || p.version == b.lastDesired ==>
      forall v :: v in b.st.bad ==> v in Reconciled(b, p).st.bad
    ensures forall v :: v in Reconciled(b, p).st.bad ==> v in b.st.bad || v == p.version
  {
    ReadiedIs(b, p);
  }

  /** The state file tells of the failure and names the current version. */
  ghost predicate Remembered(b: Boot, v: string) {
    v in b.saved.bad && b.saved.current == b.current
  }

  lemma ShunnedPoll(b: Boot, p: Poll, v: string)
    requires Shunned(b, v) && Asks(p, v)
    ensures p.Wants? ==> !Proceeds(b, p)
    ensures Reconciled(b, p) == b.(lastDesired := if p.Wants? then v else b.lastDesired)
  {
  }

  lemma ShunnedStep(b: Boot, s: Step, v: string)
    requires Inv(b) && b.up && Shunned(b, v)
    requires s.Polled? ==> Asks(s.poll, v)
    requires s.Restart? ==> Remembered(b, v)
    ensures
      var a := After(b, s);
      Shunned(a, v) && a.up && a.current == b.current && a.disk == b.disk && a.saved == b.saved
  {
    if s.Polled? {
      ShunnedPoll(b, s.poll, v);
    }
  }

  /** Once a version has failed, no poll that still asks for it gets as far as installing
      it, and nothing moves: in one process whatever saves fail, and across any number of
      restarts when the state file tells of the failure. */
  lemma {:induction false} FailedVersionStaysOut(run: seq<Boot>, steps: seq<Step>, v: string, i: nat)
    requires Run(run, steps) && i < |run| && run[0].up && Shunned(run[0], v)
    requires forall k :: 0 <= k < |steps| && steps[k].Polled? ==> Asks(steps[k].poll, v)
    requires (forall k :: 0 <= k < |steps| ==> steps[k].Polled?) || Remembered(run[0], v)
    ensures Shunned(run[i], v) && run[i].up && run[i].current == run[0].current
    ensures run[i].disk == run[0].disk && run[i].saved == run[0].saved
    ensures i < |steps| && steps[i].Polled? && steps[i].poll.Wants? ==> !Proceeds(run[i], steps[i].poll)
  {
    if i > 0 {
      FailedVersionStaysOut(run, steps, v, i - 1);
      RunKeeps(run, steps, i - 1);
      assert StepAt(run, steps, i - 1);
      ShunnedStep(run[i - 1], steps[i - 1], v);
    }
    if i < |steps| && steps[i].Polled? {
      ShunnedPoll(run[i], steps[i].poll, v);
    }
  }

  /** A restart goes on keeping the version out exactly when the state file tells of the
      failure. */
  lemma RestartRemembersExactly(b: Boot, v: string, saves: bool, polls: seq<Poll>)
    requires Inv(b) && b.up && Shunned(b, v) && b.saved.current == b.current
    ensures Shunned(After(b, Restart(saves, polls)), v) <==> v in b.saved.bad
  {
  }

  // ---------------------------------------------------------------------------
  // Restarts.

  /** A restart whose state file is up to date resumes the current version, even after a
      shutdown interrupted a gate and left the new worker running. It changes neither the
      state nor what is installed. */
  lemma RestartResumes(b: Boot, saves: bool, polls: seq<Poll>)
    requires Inv(b) && b.current != "" && b.saved == b.st
    ensures
      var a := After(b, Restart(saves, polls));
      a.up && a.worker == a.current == b.current && a.st == b.st && a.disk == b.disk
  {
  }

  /** An interrupted gate condemns nothing: after the restart the version is still free
      to be tried. */
  lemma InterruptedGateCondemnsNothing(b: Boot, p: Poll, saves: bool, polls: seq<Poll>)
    requires Inv(b) && b.up && b.saved == b.st && PollSaves(p)
    requires p.Wants? && Proceeds(b, p) && p.manifest.value.version == p.version && p.gate.Interrupted?
    ensures !Reconciled(b, p).up && Reconciled(b, p).worker == p.version
    ensures
      var a := After(Reconciled(b, p), Restart(saves, polls));
      a.up && a.worker == a.current == b.current && p.version !in a.st.bad
  {
    PollKeeps(b, p);
    PollSavesAll(b, p);
    ReadiedIs(b, p);
    RestartResumes(Reconciled(b, p), saves, polls);
  }

  // ---------------------------------------------------------------------------
  // What is installed.

  /** The version that was running before a commit stays installed beside the new one. */
  lemma CommitKeepsRollbackPair(b: Boot, p: Poll)
    requires Inv(b) && b.up && Commits(b, p)
    ensures
      var a := Reconciled(b, p);
      && a.st.previous == b.current && a.st.current == a.current
      && {a.st.previous, a.st.current} <= a.disk.Keys
      && a.disk.Keys <= {a.st.previous, a.st.current} + p.io.leftover
      && a.st.bad == []
  {
    ReadiedIs(b, p);
    assert Proceeds(b, p) && p.gate.Healthy?;
  }

  /** Without a commit the current version's binary stays as it was, exactly when the
      poll does not carry a manifest that installs over it under another desired
      version. */
  lemma CurrentBinaryUntouched(b: Boot, p: Poll)
    requires Inv(b) && b.up && !Commits(b, p)
    ensures b.current in Reconciled(b, p).disk
    ensures Reconciled(b, p).disk[b.current] != b.disk[b.current] <==>
      && p.Wants? && Proceeds(b, p)
      && p.manifest.value.version == b.current
      && p.manifest.value.sha != b.disk[b.current]
  {
    if p.Wants? {
      ReadiedIs(b, p);
      if Proceeds(b, p) {
        assert p.version != b.current;
        var m := p.manifest.value;
        assert m.version == p.version ==> !p.gate.Healthy?;
        assert Reconciled(b, p).disk == b.disk[m.version := m.sha];
      }
    }
  }

  /** Asked for version 2 but handed version 1's manifest, a node running version 1
      replaces the binary it runs from without a gate. */
  lemma CurrentBinaryCanBeReplaced() returns (b: Boot, p: Poll)
    ensures Inv(b) && b.up && !Commits(b, p)
    ensures b.current in Reconciled(b, p).disk && Reconciled(b, p).disk[b.current] != b.disk[b.current]
  {
    b, p := NODE, Wants("2", Some(Manifest("1", "b", 0)), LegacyMode, true, Healthy, IO);
    assert p.version != b.current && Proceeds(b, p);
    CurrentBinaryUntouched(b, p);
  }
}
