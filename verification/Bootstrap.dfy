/**
 The bootstrap's update loop: resolve a first worker, then poll, install, swap, and
 commit or roll back on the outcome of the health gate. Polls, signature checks,
 downloads, health observations and the outcome of saving the state file are inputs.
 */
module Bootstrap {
  import opened Prelude

  const NANOS := 1_000_000_000

  /** A manifest's build time is in nanoseconds; Euclidean division by a positive
      divisor rounds down, as the clock library does. */
  function Unix(nanos: int): int {
    nanos / NANOS
  }

  datatype State = State(current: string, previous: string, bad: seq<string>, floor: int, rootKeys: int)

  const EMPTY := State("", "", [], 0, 0)

  function RaiseFloor(st: State, created: int): State {
    if created > st.floor then st.(floor := created) else st
  }

  function RaiseRootKeys(st: State, version: int): State {
    if version > st.rootKeys then st.(rootKeys := version) else st
  }

  function MarkBad(st: State, v: string): State {
    if v in st.bad then st else st.(bad := st.bad + [v])
  }

  function ResetBadOnChange(st: State, desired: string, lastDesired: string): State {
    if lastDesired == "" || desired == lastDesired || st.bad == [] then st else st.(bad := [])
  }

  datatype Manifest = Manifest(version: string, sha: string, created: int)

  /** Without a pinned root there is nothing to check. Otherwise a root-keys document is
      served, genuine or not. */
  datatype RootKeys = LegacyMode | Served(version: int, genuine: bool)

  predicate TrustOk(st: State, keys: RootKeys) {
    keys.LegacyMode? || (keys.genuine && keys.version >= st.rootKeys)
  }

  function Trusting(st: State, keys: RootKeys): State {
    if keys.LegacyMode? then st else RaiseRootKeys(st, keys.version)
  }

  /** No floor is enforced until one has been set. */
  predicate AboveFloor(st: State, created: int) {
    st.floor <= 0 || created >= st.floor * NANOS
  }

  datatype Gate = Healthy | Unhealthy | Interrupted

  /** Which of a poll's state saves succeed, and which versions pruning fails to remove. */
  datatype Io = Io(reset: bool, keys: bool, swap: bool, leftover: set<string>)

  datatype Poll =
    | Silent
    | Wants(version: string, manifest: Option<Manifest>, keys: RootKeys, downloads: bool, gate: Gate, io: Io)

  /** st is the state in memory and saved the one in the state file; disk maps each
      installed version to its binary's digest; up is false once shutdown interrupts a
      gate, or no worker was found. */
  datatype Boot = Boot(
    current: string,
    st: State,
    worker: string,
    lastDesired: string,
    disk: map<string, string>,
    saved: State,
    up: bool)

  /** A changed state is saved, or the save fails and memory runs ahead of the file. */
  function WithState(b: Boot, st: State, ok: bool): Boot {
    if st == b.st then b else if ok then b.(st := st, saved := st) else b.(st := st)
  }

  function Noted(b: Boot, desired: string, ok: bool): Boot {
    WithState(b, ResetBadOnChange(b.st, desired, b.lastDesired), ok).(lastDesired := desired)
  }


  function Pruned(disk: map<string, string>, keep: set<string>): map<string, string> {
    map v | v in disk && v in keep :: disk[v]
  }

  function Swapped(b: Boot, m: Manifest, gate: Gate, io: Io): Boot {
    match gate
    case Healthy =>
      var st := RaiseFloor(b.st.(previous := b.current, current := m.version, bad := []), Unix(m.created));
      b.(current := m.version, worker := m.version, st := st, saved := if io.swap then st else b.saved,
         disk := Pruned(b.disk, {m.version, b.current} + io.leftover))
    case Interrupted =>
      b.(worker := m.version, up := false)
    case Unhealthy =>
      var st := MarkBad(b.st, m.version);
      b.(worker := b.current, st := st, saved := if io.swap then st else b.saved)
  }

  /** The installer accepts the manifest the poll carries. */
  predicate Installs(b: Boot, p: Poll)
    requires p.Wants? && p.manifest.Some?
  {
    p.downloads && p.manifest.value.version != "" && AboveFloor(b.st, p.manifest.value.created)
  }

  predicate Skips(b: Boot, p: Poll)
    requires p.Wants?
  {
    p.version == b.current || p.version in b.st.bad || p.manifest.None? || !TrustOk(b.st, p.keys)
  }

  /** After the bad list and the trust set have been brought up to date. */
  function Readied(b: Boot, p: Poll): Boot
    requires p.Wants?
  {
    var noted := Noted(b, p.version, p.io.reset);
    if Skips(noted, p) then noted else WithState(noted, Trusting(noted.st, p.keys), p.io.keys)
  }

  predicate Proceeds(b: Boot, p: Poll)
    requires p.Wants?
  {
    !Skips(Noted(b, p.version, p.io.reset), p) && Installs(Readied(b, p), p)
  }

  function Placed(b: Boot, m: Manifest): Boot {
    b.(disk := b.disk[m.version := m.sha])
  }

  function Reconciled(b: Boot, p: Poll): Boot {
    if p.Silent? then b
    else if !Proceeds(b, p) then Readied(b, p)
    else
      var m := p.manifest.value;
      var placed := Placed(Readied(b, p), m);
      if m.version != p.version then placed else Swapped(placed, m, p.gate, p.io)
  }

  // ---------------------------------------------------------------------------
  // Start-up.

  predicate Sole(disk: map<string, string>, v: string) {
    disk.Keys == {v}
  }

  function Started(b: Boot, v: string): Boot {
    b.(current := v, worker := v, up := true)
  }

  /** Polling for a first install: the first poll whose manifest installs decides the
      version, whatever version the poll asked for. */
  function FirstInstall(b: Boot, polls: seq<Poll>): Boot
    decreases |polls|
  {
    if polls == [] then b
    else
      var p, rest := polls[0], polls[1..];
      if p.Silent? || p.manifest.None? || !TrustOk(b.st, p.keys) then FirstInstall(b, rest)
      else
        var trusting := WithState(b, Trusting(b.st, p.keys), p.io.keys);
        if !Installs(trusting, p) then FirstInstall(trusting, rest)
        else
          var m := p.manifest.value;
          var st := RaiseFloor(trusting.st.(current := m.version), Unix(m.created));
          Started(trusting.(st := st, saved := if p.io.swap then st else trusting.saved,
                            disk := trusting.disk[m.version := m.sha]), m.version)
  }

  /** A new process knows what the state file and the versions directory hold. */
  function Fresh(saved: State, disk: map<string, string>): Boot {
    Boot("", saved, "", "", disk, saved, false)
  }

  predicate Names(disk: map<string, string>, v: string) {
    v != "" && v in disk
  }

  /** The version the state names, the only version installed, or a first install. */
  function Resolved(b: Boot, saves: bool, polls: seq<Poll>): Boot {
    if Names(b.disk, b.st.current) then Started(b, b.st.current)
    else if |b.disk| == 1 then
      var v := Only(b.disk);
      Started(b.(st := b.st.(current := v), saved := if saves then b.st.(current := v) else b.saved), v)
    else FirstInstall(b, polls)
  }

  lemma OnlyOne<T>(s: set<T>)
    requires |s| == 1
    ensures exists v :: v in s && s == {v}
  {
    var v :| v in s;
    assert |s - {v}| == 0;
    assert s == {v} + (s - {v});
  }

  function Only(disk: map<string, string>): (v: string)
    requires |disk| == 1
    ensures Sole(disk, v)
  {
    assert |disk.Keys| == 1;
    OnlyOne(disk.Keys);
    var v :| v in disk.Keys && disk.Keys == {v};
    v
  }

  // ---------------------------------------------------------------------------
  // The process.

  class Process {
    var current: string
    var st: State
    var worker: string
    var lastDesired: string
    var disk: map<string, string>
    var saved: State
    var up: bool

    constructor (b: Boot)
      ensures View() == b
    {
      current, st, worker, lastDesired := b.current, b.st, b.worker, b.lastDesired;
      disk, saved, up := b.disk, b.saved, b.up;
    }

    function View(): Boot
      reads this
    {
      Boot(current, st, worker, lastDesired, disk, saved, up)
    }

    method SaveState(ok: bool)
      modifies this`saved
      ensures saved == if ok then st else old(saved)
    {
      if ok {
        saved := st;
      }
    }

    method EstablishTrust(keys: RootKeys, save: bool) returns (ok: bool)
      modifies this`st, this`saved
      ensures ok <==> TrustOk(old(st), keys)
      ensures View() == if ok then WithState(old(View()), Trusting(old(st), keys), save) else old(View())
    {
      if keys.LegacyMode? {
        return true;
      }
      if !keys.genuine || keys.version < st.rootKeys {
        return false;
      }
      if keys.version > st.rootKeys {
        st := st.(rootKeys := keys.version);
        SaveState(save);
      }
      ok := true;
    }

    method SwapWorker(m: Manifest, gate: Gate, io: Io)
      modifies this
      ensures View() == Swapped(old(View()), m, gate, io)
    {
      var oldVersion := current;
      worker := m.version;
      match gate {
        case Healthy =>
          current := m.version;
          st := RaiseFloor(st.(previous := oldVersion, current := m.version, bad := []), Unix(m.created));
          SaveState(io.swap);
          disk := Pruned(disk, {m.version, oldVersion} + io.leftover);
        case Interrupted =>
          up := false;
        case Unhealthy =>
          st := MarkBad(st, m.version);
          SaveState(io.swap);
          worker := oldVersion;
      }
    }

    method Reconcile(p: Poll)
      modifies this
      ensures View() == Reconciled(old(View()), p)
    {
      if p.Silent? {
        return;
      }
      var reset := ResetBadOnChange(st, p.version, lastDesired);
      if reset != st {
        st := reset;
        SaveState(p.io.reset);
      }
      lastDesired := p.version;
      if p.version == current || p.version in st.bad || p.manifest.None? {
        return;
      }
      var trusted := EstablishTrust(p.keys, p.io.keys);
      if !trusted || !Installs(View(), p) {
        return;
      }
      var m := p.manifest.value;
      disk := disk[m.version := m.sha];
      if m.version == p.version {
        SwapWorker(m, p.gate, p.io);
      }
    }

    method ResolveCurrent(saves: bool, polls: seq<Poll>)
      modifies this
      ensures View() == Resolved(old(View()), saves, polls)
    {
      if st.current != "" && st.current in disk {
        current, worker, up := st.current, st.current, true;
        return;
      }
      if |disk| == 1 {
        current := Only(disk);
        st := st.(current := current);
        SaveState(saves);
        worker, up := current, true;
        return;
      }
      var i := 0;
      while i < |polls|
        invariant 0 <= i <= |polls|
        invariant FirstInstall(View(), polls[i..]) == FirstInstall(old(View()), polls)
      {
        var p := polls[i];
        assert polls[i..][0] == p && polls[i..][1..] == polls[i + 1..];
        i := i + 1;
        if p.Wants? && p.manifest.Some? {
          var trusted := EstablishTrust(p.keys, p.io.keys);
          if trusted && Installs(View(), p) {
            var m := p.manifest.value;
            disk := disk[m.version := m.sha];
            current := m.version;
            st := RaiseFloor(st.(current := m.version), Unix(m.created));
            SaveState(p.io.swap);
            worker, up := current, true;
            return;
          }
        }
      }
    }
  }
}
