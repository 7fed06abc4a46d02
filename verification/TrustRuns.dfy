/**
 What holds over every run of trust deliveries to one process: who could have
 changed the pinned root, and which grant keys are in force. Then what one restart makes
 of the documents the process saved.
 */
module TrustRuns {
  import opened Prelude
  import opened Signatures
  import opened Trust

  // ---------------------------------------------------------------------------
  // The invariant.

  /** A pinned node holds the pair it pinned from. */
  ghost predicate HoldsItsPair(lib: Library, n: Node) {
    && n.anchorRaw != [] && n.routineRaw != []
    && var got := PairOf(lib, n.anchorRaw, n.routineRaw);
    && got.Some?
    && Bound(lib, got.value)
    && n.pin == PinOf(got.value.anchors)
    && 0 <= got.value.anchors.version
    && 0 <= got.value.routine.version <= n.version
  }

  ghost predicate Inv(lib: Library, n: Node) {
    0 <= n.version && (n.pin.Some? ==> HoldsItsPair(lib, n))
  }

  lemma ConfigKeeps(lib: Library, n: Node, raw: Bytes, saved: bool, roots: bool)
    requires Inv(lib, n)
    ensures Inv(lib, AfterConfig(lib, n, raw, saved, roots))
  {
  }

  lemma FleetKeeps(lib: Library, n: Node, anchorRaw: Bytes, mapRaw: Bytes, now: int, saved: Saved, roots: bool)
    requires Inv(lib, n)
    ensures Inv(lib, AfterFleet(lib, n, anchorRaw, mapRaw, now, saved, roots))
  {
    var got := PairOf(lib, anchorRaw, mapRaw);
    if anchorRaw != [] && mapRaw != [] && got.Some? && TakesPair(lib, n, got.value, now) {
      assert got.value.anchors.version >= AnchorVersion(n) >= 0;
    }
  }

  lemma StepKeeps(lib: Library, n: Node, s: Step)
    requires Inv(lib, n)
    ensures Inv(lib, After(lib, n, s))
  {
    match s
    case Adopt(raw, saved, roots) => ConfigKeeps(lib, n, raw, saved, roots);
    case Fleet(a, m, now, pair, roots) => FleetKeeps(lib, n, a, m, now, pair, roots);
  }

  ghost predicate StepAt(lib: Library, run: seq<Node>, steps: seq<Step>, i: nat)
    requires i < |steps| && |run| == |steps| + 1
  {
    run[i + 1] == After(lib, run[i], steps[i])
  }

  ghost predicate Run(lib: Library, run: seq<Node>, steps: seq<Step>) {
    && |run| == |steps| + 1 && Inv(lib, run[0])
    && forall i: nat {:trigger StepAt(lib, run, steps, i)} :: i < |steps| ==> StepAt(lib, run, steps, i)
  }

  lemma {:induction false} RunKeeps(lib: Library, run: seq<Node>, steps: seq<Step>, i: nat)
    requires Run(lib, run, steps) && i < |run|
    ensures Inv(lib, run[i])
  {
    if i > 0 {
      RunKeeps(lib, run, steps, i - 1);
      StepKeeps(lib, run[i - 1], steps[i - 1]);
      assert StepAt(lib, run, steps, i - 1);
    }
  }

  // ---------------------------------------------------------------------------
  // No version ever falls, and a pin is never given up.

  ghost predicate NotOlder(n: Node, m: Node) {
    n.version <= m.version && AnchorVersion(n) <= AnchorVersion(m) && (n.pin.Some? ==> m.pin.Some?)
  }

  lemma StepNotOlder(lib: Library, n: Node, s: Step)
    requires Inv(lib, n)
    ensures NotOlder(n, After(lib, n, s))
  {
  }

  lemma {:induction false} VersionsNeverFall(lib: Library, run: seq<Node>, steps: seq<Step>, i: nat, j: nat)
    requires Run(lib, run, steps) && i <= j < |run|
    ensures NotOlder(run[i], run[j])
    decreases j - i
  {
    if i < j {
      VersionsNeverFall(lib, run, steps, i, j - 1);
      RunKeeps(lib, run, steps, j - 1);
      StepNotOlder(lib, run[j - 1], steps[j - 1]);
      assert StepAt(lib, run, steps, j - 1);
    }
  }

  /** What a delivered pair is, read off its bytes. */
  ghost predicate Reads(
    lib: Library, s: Step, env: MultiSigned, a: Anchors, mapEnv: Signed, r: RoutineMap)
  {
    && s.Fleet? && s.anchorRaw != [] && s.mapRaw != []
    && lib.multi(s.anchorRaw) == Some(env) && lib.anchors(env.payload) == Some(a)
    && lib.signed(s.mapRaw) == Some(mapEnv) && lib.routine(mapEnv.payload) == Some(r)
  }

  /** The conditions on a pair: a quorum of the held set, or of the set it lists where none
      is held; neither part older than what is held, nor both the same once a pair has been
      saved; not expired; and bound. */
  ghost predicate Acceptable(
    lib: Library, n: Node, env: MultiSigned, a: Anchors, mapEnv: Signed, r: RoutineMap, now: int)
  {
    var keys, threshold := if n.pin.Some? then n.pin.value.keys else Table(a.trustKeys),
                           if n.pin.Some? then n.pin.value.threshold else a.threshold;
    var held := if n.pin.Some? then n.pin.value.version else 0;
    && (n.pin.None? ==> a.trustKeys != [] && AllSized(a.trustKeys))
    && Quorum(lib.valid, keys, threshold, ANCHORS_CONTEXT, env)
    && held <= a.version && n.version <= r.version
    && !(n.split && held == a.version && n.version == r.version)
    && (a.expires.Some? ==> now <= a.expires.value)
    && AllSized(a.grantKeys) && Verified(lib.valid, Table(a.grantKeys), ROUTINE_CONTEXT, mapEnv)
    && r.anchorVersion == a.version && r.anchorDigest == lib.digest(env.payload)
  }

  lemma TableNotEmpty(list: seq<NamedKey>)
    ensures Table(list) == map[] <==> list == []
  {
    if list != [] {
      assert list[|list| - 1].id in Table(list);
    }
  }

  /** A well-formed pair is saved and adopted exactly when it is acceptable, and then the
      node stands on what the pair lists; as far as saving goes wrong, or its roots or
      signer set cannot be used, only what was written stays. */
  lemma PairTakenExactly(
    lib: Library, n: Node, s: Step, env: MultiSigned, a: Anchors, mapEnv: Signed, r: RoutineMap)
    requires Reads(lib, s, env, a, mapEnv, r)
    ensures
      var m, anchored := After(lib, n, s), n.(disk := n.disk.(anchor := s.anchorRaw));
      var both := n.(disk := n.disk.(anchor := s.anchorRaw, routine := s.mapRaw), split := true);
      if !Acceptable(lib, n, env, a, mapEnv, r, s.now) || s.pair.Nothing? then m == n
      else if s.pair.AnchorOnly? then m == anchored
      else if !s.roots || a.trustKeys == [] || !AllSized(a.trustKeys) then m == both
      else m == both.(version := r.version, grantKeys := Table(a.grantKeys),
                      pin := Some(Pin(Table(a.trustKeys), a.threshold, a.version)),
                      anchorRaw := s.anchorRaw, routineRaw := s.mapRaw)
  {
    TableNotEmpty(a.trustKeys);
    AcceptableMeans(lib, n, Pair(env, a, mapEnv, r), s.now);
  }

  lemma AcceptableMeans(lib: Library, n: Node, p: Pair, now: int)
    ensures TakesPair(lib, n, p, now) <==> Acceptable(lib, n, p.env, p.anchors, p.mapEnv, p.routine, now)
    ensures TakesPair(lib, n, p, now) ==> GrantKeysOf(p.anchors) == Some(Table(p.anchors.grantKeys))
  {
    TableNotEmpty(p.anchors.trustKeys);
    TableNotEmpty(p.anchors.grantKeys);
  }

  /** In every run, the pair a pinned node holds is bound: its map is signed by a grant key
      its anchors list, and names these anchors by version and digest; and the node pins
      what the anchors list, which is never nothing. */
  lemma AdoptedPairIsBound(lib: Library, run: seq<Node>, steps: seq<Step>, i: nat)
    returns (env: MultiSigned, a: Anchors, mapEnv: Signed, r: RoutineMap)
    requires Run(lib, run, steps) && i < |run| && run[i].pin.Some?
    ensures lib.multi(run[i].anchorRaw) == Some(env) && lib.anchors(env.payload) == Some(a)
    ensures lib.signed(run[i].routineRaw) == Some(mapEnv) && lib.routine(mapEnv.payload) == Some(r)
    ensures r.anchorVersion == a.version && r.anchorDigest == lib.digest(env.payload)
    ensures
      var grants := Table(a.grantKeys);
      && mapEnv.one.keyId in grants
      && lib.valid(grants[mapEnv.one.keyId], ROUTINE_CONTEXT, mapEnv.payload, mapEnv.one.sig)
    ensures run[i].pin == Some(Pin(Table(a.trustKeys), a.threshold, a.version)) && a.trustKeys != []
  {
    RunKeeps(lib, run, steps, i);
    var p := PairOf(lib, run[i].anchorRaw, run[i].routineRaw).value;
    TableNotEmpty(p.anchors.trustKeys);
    env, a, mapEnv, r := p.env, p.anchors, p.mapEnv, p.routine;
  }

  // ---------------------------------------------------------------------------
  // Every pin descends from the first one.

  /** The anchors in this envelope take a node from one pin to the next: signed by a
      quorum of the old set, not older, and listing the new set. */
  ghost predicate Follows(lib: Library, p: Pin, env: MultiSigned, q: Pin) {
    && CarriesQuorum(lib, p, env)
    && lib.anchors(env.payload).Some?
    && PinOf(lib.anchors(env.payload).value) == Some(q)
    && p.version <= q.version
  }

  ghost predicate Lineage(lib: Library, pins: seq<Pin>, envs: seq<MultiSigned>) {
    && |pins| == |envs| + 1
    && forall i :: 0 <= i < |envs| ==> Follows(lib, pins[i], envs[i], pins[i + 1])
  }

  /** A first pin comes from anchors that carry a quorum of the very set they list. */
  ghost predicate SelfMade(lib: Library, p: Pin) {
    exists env :: CarriesQuorum(lib, p, env) && lib.anchors(env.payload).Some? &&
      PinOf(lib.anchors(env.payload).value) == Some(p)
  }

  /** A pin is the start's pin or, on a node that started without one, self-made, or
      descends from it. */
  ghost predicate Descends(lib: Library, start: Node, p: Pin) {
    exists pins, envs :: Lineage(lib, pins, envs) && pins[|pins| - 1] == p &&
      if start.pin.Some? then pins[0] == start.pin.value else SelfMade(lib, pins[0])
  }

  lemma PinChange(lib: Library, n: Node, s: Step) returns (env: MultiSigned)
    requires After(lib, n, s).pin != n.pin
    ensures After(lib, n, s).pin.Some? && s.Fleet? && lib.multi(s.anchorRaw) == Some(env)
    ensures n.pin.Some? ==> Follows(lib, n.pin.value, env, After(lib, n, s).pin.value)
    ensures n.pin.None? ==> SelfMade(lib, After(lib, n, s).pin.value)
  {
    env := lib.multi(s.anchorRaw).value;
    assert lib.anchors(env.payload).Some?;
  }

  lemma Extend(lib: Library, start: Node, p: Pin, env: MultiSigned, q: Pin)
    requires Descends(lib, start, p) && Follows(lib, p, env, q)
    ensures Descends(lib, start, q)
  {
    var pins, envs :| Lineage(lib, pins, envs) && pins[|pins| - 1] == p &&
      if start.pin.Some? then pins[0] == start.pin.value else SelfMade(lib, pins[0]);
    var pins', envs' := pins + [q], envs + [env];
    assert Lineage(lib, pins', envs') && pins'[0] == pins[0] && pins'[|pins'| - 1] == q;
  }

  lemma Rooted(lib: Library, start: Node, p: Pin)
    requires if start.pin.Some? then p == start.pin.value else SelfMade(lib, p)
    ensures Descends(lib, start, p)
  {
    assert Lineage(lib, [p], []);
  }

  lemma PinStep(lib: Library, start: Node, n: Node, s: Step)
    requires if n.pin.Some? then Descends(lib, start, n.pin.value) else start.pin.None?
    requires After(lib, n, s).pin.Some?
    ensures Descends(lib, start, After(lib, n, s).pin.value)
  {
    var m := After(lib, n, s);
    if m.pin != n.pin {
      var env := PinChange(lib, n, s);
      if n.pin.Some? {
        Extend(lib, start, n.pin.value, env, m.pin.value);
      } else {
        Rooted(lib, start, m.pin.value);
      }
    }
  }

  /** Whatever is delivered, the set a node has pinned descends from its first pin by
      anchors each signed by a quorum of the set held just before. */
  lemma {:induction false} PinDescendsFromFirst(lib: Library, run: seq<Node>, steps: seq<Step>, i: nat)
    requires Run(lib, run, steps) && i < |run| && run[i].pin.Some?
    ensures Descends(lib, run[0], run[i].pin.value)
  {
    if i == 0 {
      Rooted(lib, run[0], run[0].pin.value);
    } else {
      if run[i - 1].pin.Some? {
        PinDescendsFromFirst(lib, run, steps, i - 1);
      } else {
        VersionsNeverFall(lib, run, steps, 0, i - 1);
      }
      assert StepAt(lib, run, steps, i - 1);
      PinStep(lib, run[0], run[i - 1], steps[i - 1]);
    }
  }

  /** No anchors among the deliveries carry a quorum of this set. */
  ghost predicate NoQuorumDelivered(lib: Library, pin: Pin, steps: seq<Step>) {
    forall i :: 0 <= i < |steps| && steps[i].Fleet? && lib.multi(steps[i].anchorRaw).Some? ==>
      !CarriesQuorum(lib, pin, lib.multi(steps[i].anchorRaw).value)
  }

  lemma PinStays(lib: Library, n: Node, s: Step)
    requires n.pin.Some?
    requires s.Fleet? && lib.multi(s.anchorRaw).Some? ==>
      !CarriesQuorum(lib, n.pin.value, lib.multi(s.anchorRaw).value)
    ensures After(lib, n, s).pin == n.pin
  {
  }

  /** A controller without a quorum of the pinned keys cannot move the pin, whatever it
      sends and in whatever order. */
  lemma {:induction false} ControllerWithoutQuorumIsContained(
    lib: Library, run: seq<Node>, steps: seq<Step>, i: nat)
    requires Run(lib, run, steps) && i < |run|
    requires run[0].pin.Some? && NoQuorumDelivered(lib, run[0].pin.value, steps)
    ensures run[i].pin == run[0].pin
  {
    if i > 0 {
      ControllerWithoutQuorumIsContained(lib, run, steps, i - 1);
      assert StepAt(lib, run, steps, i - 1);
      PinStays(lib, run[i - 1], steps[i - 1]);
    }
  }

  // ---------------------------------------------------------------------------
  // Grant keys of a pinned node.

  /** A pinned node trusts exactly the grant keys its anchors authorize. */
  ghost predicate Anchored(lib: Library, n: Node) {
    n.pin.Some? ==>
      var got := PairOf(lib, n.anchorRaw, n.routineRaw);
      got.Some? && GrantKeysOf(got.value.anchors) == Some(n.grantKeys)
  }

  /** A cluster config that the node takes up, with other grant keys than it holds. */
  ghost predicate ReplacesKeys(lib: Library, n: Node, s: Step) {
    && s.Adopt? && s.saved && s.roots
    && TakesConfig(lib, n, s.raw)
    && KeysOf(ConfigFrom(lib, s.raw).value.1.grantKeys).value != n.grantKeys
  }

  /** What reaches the adopt lock leaves a pinned node on its anchors' grant keys exactly
      when it is not a cluster config that the node takes up with other keys: adoption is
      not gated on the pin. */
  lemma AnchoredUnlessConfig(lib: Library, n: Node, s: Step)
    requires Inv(lib, n) && Anchored(lib, n) && n.pin.Some?
    ensures Anchored(lib, After(lib, n, s)) <==> !ReplacesKeys(lib, n, s)
  {
  }

  /** A node without a pin is anchored as soon as it pins. */
  lemma UnpinnedStepIsAnchored(lib: Library, n: Node, s: Step)
    requires Inv(lib, n) && n.pin.None?
    ensures Anchored(lib, After(lib, n, s))
  {
  }

  // ---------------------------------------------------------------------------
  // Restart.

  const BLANK := Node(0, map[], map[], None, [], [], false, Disk([], [], []))

  /** The reload check: a config must be signed by a key of its own trust set. */
  function LoadedConfig(lib: Library, disk: Disk): Option<Node> {
    var n := BLANK.(disk := disk);
    if disk.cluster == [] then Some(n)
    else
      match ConfigFrom(lib, disk.cluster)
      case None => None
      case Some((env, cfg)) =>
        match (KeysOf(cfg.grantKeys), ConfigTrustOf(cfg))
        case (Some(grants), Some(trust)) =>
          if Verified(lib.valid, trust, CONFIG_CONTEXT, env) && cfg.version >= 0
          then Some(n.(version := cfg.version, grantKeys := grants, configTrust := trust))
          else None
        case (_, _) => None
  }

  /** A saved pair must carry a quorum of the very set its anchors list. */
  function Loaded(lib: Library, disk: Disk, now: int): Option<Node> {
    match LoadedConfig(lib, disk)
    case None => None
    case Some(n) =>
      if disk.anchor == [] || disk.routine == [] then Some(n)
      else
        match PairOf(lib, disk.anchor, disk.routine)
        case None => None
        case Some(p) =>
          if PinOf(p.anchors).Some? && FleetOk(lib, PinOf(p.anchors).value, 0, 0, p, now)
          then Some(Adopted(lib, n.(split := true), p, disk.anchor, disk.routine))
          else None
  }

  /** A restart of a pinned node finds its saved pair acceptable exactly when the
      anchors have not expired and are also signed by a quorum of the set they list,
      which adopting them never required. It then comes back with the same pin and on
      the anchors' grant keys. */
  lemma RestartExactlyWhenSelfSigned(lib: Library, n: Node, now: int)
    requires Inv(lib, n) && n.pin.Some? && LoadedConfig(lib, n.disk).Some?
    requires n.disk.anchor == n.anchorRaw && n.disk.routine == n.routineRaw
    ensures
      var p := PairOf(lib, n.anchorRaw, n.routineRaw).value;
      Loaded(lib, n.disk, now).Some? <==> Unexpired(p.anchors, now) && CarriesQuorum(lib, n.pin.value, p.env)
    ensures Loaded(lib, n.disk, now).Some? ==>
      var m := Loaded(lib, n.disk, now).value;
      Inv(lib, m) && Anchored(lib, m) && m.pin == n.pin && m.split && m.disk == n.disk
  {
  }

  /** A legacy config a node has taken up reloads exactly when its signer is also in the
      trust set it brings. */
  lemma ConfigReloadsExactlyWhenSelfSigned(lib: Library, n: Node, raw: Bytes)
    requires Inv(lib, n) && raw != [] && TakesConfig(lib, n, raw)
    ensures
      var m := AfterConfig(lib, n, raw, true, true);
      var (env, cfg) := ConfigFrom(lib, raw).value;
      && (LoadedConfig(lib, m.disk).Some? <==> Verified(lib.valid, m.configTrust, CONFIG_CONTEXT, env))
      && (LoadedConfig(lib, m.disk).Some? ==>
            var l := LoadedConfig(lib, m.disk).value;
            l.version == m.version && l.grantKeys == m.grantKeys && l.configTrust == m.configTrust)
  {
  }

  /** The version in force after a restart of a pinned node is the saved map's. It is
      the one held before exactly when no direct config has moved it past the map. */
  lemma RestartKeepsVersionExactlyWhen(lib: Library, n: Node, now: int)
    requires Inv(lib, n) && n.pin.Some? && LoadedConfig(lib, n.disk).Some?
    requires n.disk.anchor == n.anchorRaw && n.disk.routine == n.routineRaw
    requires Loaded(lib, n.disk, now).Some?
    ensures
      var p := PairOf(lib, n.anchorRaw, n.routineRaw).value;
      var m := Loaded(lib, n.disk, now).value;
      m.version <= n.version && (m.version == n.version <==> p.routine.version == n.version)
  {
  }

  // ---------------------------------------------------------------------------
  // Two runs that show where the conditions bite.

  function Zeros(n: nat): Bytes {
    seq(n, i => 0)
  }

  const KEY := Zeros(PUBLIC_KEY_SIZE)
  const SIG := Zeros(SIGNATURE_SIZE)

  /** One-key documents: trust key t signs the anchors, grant key g the map, and g the
      config that brings in grant key h. In the anchors after [0], t hands over to u. */
  function Sample(): Library {
    Library(
      (key, context, payload, sig) => true,
      payload => [],
      raw => Some(MultiSigned(raw, [OneSig("t", SIG)])),
      raw => Some(Signed(raw, OneSig("g", SIG))),
      payload =>
        Some(Anchors(if payload == [0] then 1 else 2, [NamedKey("g", KEY)],
                     [NamedKey(if payload == [0] then "t" else "u", KEY)], 1, None)),
      payload => Some(RoutineMap(if payload == [0] then 1 else 2, if payload == [0] then 1 else 2, [])),
      payload => Some(Config(2, [NamedKey("h", KEY)], [])))
  }

  const FIRST := Fleet([0], [0], 0, Both, true)

  lemma TableOfOne(id: string)
    ensures KeysOf([NamedKey(id, KEY)]) == Some(map[id := KEY])
  {
    var list := [NamedKey(id, KEY)];
    assert list[..0] == [];
    assert Table(list) == Table([])[id := KEY];
  }

  lemma OneSigner(trusted: Keys, context: string, payload: Bytes)
    requires forall id :: id in trusted ==> |trusted[id]| == PUBLIC_KEY_SIZE
    ensures Signers(Sample().valid, trusted, context, payload, [OneSig("t", SIG)]) ==
      if "t" in trusted then {"t"} else {}
  {
    assert OneSig("t", SIG) in [OneSig("t", SIG)];
  }

  function SamplePin(raw: Bytes): Pin {
    if raw == [0] then Pin(map["t" := KEY], 1, 1) else Pin(map["u" := KEY], 1, 2)
  }

  lemma SamplePair(raw: Bytes)
    ensures PairOf(Sample(), raw, raw).Some?
    ensures
      var p := PairOf(Sample(), raw, raw).value;
      && p.env == MultiSigned(raw, [OneSig("t", SIG)])
      && Bound(Sample(), p)
      && GrantKeysOf(p.anchors) == Some(map["g" := KEY])
      && PinOf(p.anchors) == Some(SamplePin(raw))
      && p.anchors.version == p.routine.version == SamplePin(raw).version
      && p.anchors.expires.None?
      && CarriesQuorum(Sample(), SamplePin([0]), p.env)
      && !CarriesQuorum(Sample(), SamplePin([1]), p.env)
  {
    TableOfOne("g");
    TableOfOne("t");
    TableOfOne("u");
    assert "g" in map["g" := KEY] && "t" in map["t" := KEY] && "u" in map["u" := KEY];
    OneSigner(map["t" := KEY], ANCHORS_CONTEXT, raw);
    OneSigner(map["u" := KEY], ANCHORS_CONTEXT, raw);
  }

  /** The state both runs start from: a legacy node that has taken its first pair. */
  lemma SampleFirst() returns (n: Node)
    ensures n == After(Sample(), BLANK.(configTrust := map["g" := KEY]), FIRST)
    ensures n == Node(1, map["g" := KEY], map["g" := KEY], Some(SamplePin([0])), [0], [0], true, Disk([], [0], [0]))
    ensures Inv(Sample(), n) && Anchored(Sample(), n)
  {
    n := After(Sample(), BLANK.(configTrust := map["g" := KEY]), FIRST);
    SamplePair([0]);
  }

  /** A cluster config at the adopt lock does move a pinned node off its anchors' grant
      keys. */
  lemma ConfigReplacesGrantKeys() returns (lib: Library, n: Node, s: Step)
    ensures Inv(lib, n) && n.pin.Some? && Anchored(lib, n)
    ensures !Anchored(lib, After(lib, n, s)) && After(lib, n, s).pin == n.pin
  {
    lib, s := Sample(), Adopt([1], true, true);
    n := SampleFirst();
    TableOfOne("h");
    assert "h" !in n.grantKeys;
    AnchoredUnlessConfig(lib, n, s);
  }

  /** A rotation that the old set signs and the new set does not is adopted, and then
      no restart accepts what it saved. */
  lemma RotationStrandsRestart() returns (lib: Library, n: Node, s: Step)
    ensures Inv(lib, n) && n.pin.Some? && Loaded(lib, n.disk, 0).Some?
    ensures After(lib, n, s).pin.Some? && After(lib, n, s).pin != n.pin
    ensures forall now :: Loaded(lib, After(lib, n, s).disk, now).None?
  {
    lib, s := Sample(), Fleet([1], [1], 0, Both, true);
    n := SampleFirst();
    SamplePair([0]);
    SamplePair([1]);
    RestartExactlyWhenSelfSigned(lib, n, 0);
    var m := After(lib, n, s);
    assert m.pin == Some(SamplePin([1])) && m.anchorRaw == m.routineRaw == [1];
    StepKeeps(lib, n, s);
    forall now ensures Loaded(lib, m.disk, now).None? {
      RestartExactlyWhenSelfSigned(lib, m, now);
    }
  }
}
