/**
 How an agent adopts trust documents: the legacy cluster config and the split pair of
 trust anchors and routine map. Documents arrive as bytes; what the decoders and the
 cryptographic library make of them is a parameter.
 */
module Trust {
  import opened Prelude
  import opened Signatures

  datatype Anchors = Anchors(
    version: int,
    grantKeys: seq<NamedKey>,
    trustKeys: seq<NamedKey>,
    threshold: int,
    expires: Option<int>)

  datatype RoutineMap = RoutineMap(version: int, anchorVersion: int, anchorDigest: Bytes)

  datatype Config = Config(version: int, grantKeys: seq<NamedKey>, trustKeys: seq<NamedKey>)

  datatype Library = Library(
    valid: Verifier,
    digest: Bytes -> Bytes,
    multi: Bytes -> Option<MultiSigned>,
    signed: Bytes -> Option<Signed>,
    anchors: Bytes -> Option<Anchors>,
    routine: Bytes -> Option<RoutineMap>,
    config: Bytes -> Option<Config>)

  const ANCHORS_CONTEXT := "trust-anchors"
  const ROUTINE_CONTEXT := "routine-map"
  const CONFIG_CONTEXT := "cluster-config"

  // ---------------------------------------------------------------------------
  // What a document authorizes.

  function NonEmpty(keys: Option<Keys>): Option<Keys> {
    if keys == Some(map[]) then None else keys
  }

  function GrantKeysOf(a: Anchors): Option<Keys> {
    NonEmpty(KeysOf(a.grantKeys))
  }

  /** The signer set a node pins, its threshold and the anchors' version. */
  datatype Pin = Pin(keys: Keys, threshold: int, version: int)

  function PinOf(a: Anchors): Option<Pin> {
    match NonEmpty(KeysOf(a.trustKeys))
    case None => None
    case Some(keys) => Some(Pin(keys, a.threshold, a.version))
  }

  /** Without trust keys the grant keys double as the trust root. */
  function ConfigTrustOf(cfg: Config): Option<Keys> {
    KeysOf(if cfg.trustKeys == [] then cfg.grantKeys else cfg.trustKeys)
  }

  // ---------------------------------------------------------------------------
  // Verification.

  datatype Pair = Pair(env: MultiSigned, anchors: Anchors, mapEnv: Signed, routine: RoutineMap)

  function PairOf(lib: Library, anchorRaw: Bytes, mapRaw: Bytes): Option<Pair> {
    match (lib.multi(anchorRaw), lib.signed(mapRaw))
    case (Some(env), Some(mapEnv)) =>
      (match (lib.anchors(env.payload), lib.routine(mapEnv.payload))
       case (Some(a), Some(r)) => Some(Pair(env, a, mapEnv, r))
       case (_, _) => None)
    case (_, _) => None
  }

  predicate CarriesQuorum(lib: Library, pin: Pin, env: MultiSigned) {
    Quorum(lib.valid, pin.keys, pin.threshold, ANCHORS_CONTEXT, env)
  }

  /** The routine map is signed by a key these anchors authorize and names exactly these
      anchors, by version and by digest. */
  predicate Bound(lib: Library, p: Pair) {
    && GrantKeysOf(p.anchors).Some?
    && Verified(lib.valid, GrantKeysOf(p.anchors).value, ROUTINE_CONTEXT, p.mapEnv)
    && p.routine.anchorVersion == p.anchors.version
    && p.routine.anchorDigest == lib.digest(p.env.payload)
  }

  predicate Unexpired(a: Anchors, now: int) {
    a.expires.None? || now <= a.expires.value
  }

  predicate FleetOk(lib: Library, pin: Pin, heldAnchor: int, heldConfig: int, p: Pair, now: int) {
    && CarriesQuorum(lib, pin, p.env)
    && p.anchors.version >= heldAnchor
    && Unexpired(p.anchors, now)
    && Bound(lib, p)
    && p.routine.version >= heldConfig
  }

  function ConfigFrom(lib: Library, raw: Bytes): Option<(Signed, Config)> {
    match lib.signed(raw)
    case None => None
    case Some(env) =>
      match lib.config(env.payload)
      case None => None
      case Some(cfg) => Some((env, cfg))
  }

  // ---------------------------------------------------------------------------
  // The agent's trust state, and one delivered message.

  datatype Disk = Disk(cluster: Bytes, anchor: Bytes, routine: Bytes)

  /** anchorRaw and routineRaw are the adopted pair; split tells that a pair has been
      saved. */
  datatype Node = Node(
    version: int,
    configTrust: Keys,
    grantKeys: Keys,
    pin: Option<Pin>,
    anchorRaw: Bytes,
    routineRaw: Bytes,
    split: bool,
    disk: Disk)

  function AnchorVersion(n: Node): int {
    if n.pin.Some? then n.pin.value.version else 0
  }

  /** How much of a pair reached the disk: the anchor is written first. */
  datatype Saved = Both | AnchorOnly | Nothing

  /** A cluster config the agent takes up: signed by a held trust key, strictly newer,
      with well-formed keys. */
  predicate TakesConfig(lib: Library, n: Node, raw: Bytes) {
    var got := ConfigFrom(lib, raw);
    && got.Some?
    && Verified(lib.valid, n.configTrust, CONFIG_CONTEXT, got.value.0)
    && got.value.1.version > n.version
    && KeysOf(got.value.1.grantKeys).Some? && ConfigTrustOf(got.value.1).Some?
  }

  function AfterConfig(lib: Library, n: Node, raw: Bytes, saved: bool, roots: bool): Node {
    if !TakesConfig(lib, n, raw) || !saved then n
    else
      var cfg := ConfigFrom(lib, raw).value.1;
      var m := n.(disk := n.disk.(cluster := raw));
      if !roots then m
      else m.(version := cfg.version, grantKeys := KeysOf(cfg.grantKeys).value, configTrust := ConfigTrustOf(cfg).value)
  }

  /** The set a pair is verified against: the held one, or on the first use the one the
      pair itself lists. */
  function Against(n: Node, p: Pair): Option<Pin> {
    if n.pin.Some? then n.pin else PinOf(p.anchors)
  }

  predicate TakesPair(lib: Library, n: Node, p: Pair, now: int) {
    && Against(n, p).Some?
    && FleetOk(lib, Against(n, p).value, AnchorVersion(n), n.version, p, now)
    && !(p.anchors.version == AnchorVersion(n) && p.routine.version == n.version && n.split)
  }

  function Adopted(lib: Library, n: Node, p: Pair, anchorRaw: Bytes, mapRaw: Bytes): Node
    requires Bound(lib, p) && PinOf(p.anchors).Some?
  {
    n.(version := p.routine.version, grantKeys := GrantKeysOf(p.anchors).value, pin := PinOf(p.anchors),
       anchorRaw := anchorRaw, routineRaw := mapRaw)
  }

  function AfterFleet(
    lib: Library, n: Node, anchorRaw: Bytes, mapRaw: Bytes, now: int, saved: Saved, roots: bool): Node
  {
    if anchorRaw == [] || mapRaw == [] then n
    else
      var got := PairOf(lib, anchorRaw, mapRaw);
      if got.None? || !TakesPair(lib, n, got.value, now) then n
      else
        match saved
        case Nothing => n
        case AnchorOnly => n.(disk := n.disk.(anchor := anchorRaw))
        case Both =>
          var m := n.(disk := n.disk.(anchor := anchorRaw, routine := mapRaw), split := true);
          if PinOf(got.value.anchors).None? || !roots then m
          else Adopted(lib, m, got.value, anchorRaw, mapRaw)
  }

  /** What reaches the adopt lock: a cluster config, sent directly or pushed as the legacy
      part of a delivery, or a pair. */
  datatype Step =
    | Adopt(raw: Bytes, saved: bool, roots: bool)
    | Fleet(anchorRaw: Bytes, mapRaw: Bytes, now: int, pair: Saved, roots: bool)

  function After(lib: Library, n: Node, s: Step): Node {
    match s
    case Adopt(raw, saved, roots) => AfterConfig(lib, n, raw, saved, roots)
    case Fleet(a, m, now, pair, roots) => AfterFleet(lib, n, a, m, now, pair, roots)
  }

  /** The agent's fields, updated in place. */
  class Worker {
    var version: int
    var configTrust: Keys
    var grantKeys: Keys
    var pin: Option<Pin>
    var anchorRaw: Bytes
    var routineRaw: Bytes
    var split: bool
    var disk: Disk

    constructor (n: Node)
      ensures View() == n
    {
      version, configTrust, grantKeys, pin := n.version, n.configTrust, n.grantKeys, n.pin;
      anchorRaw, routineRaw, split, disk := n.anchorRaw, n.routineRaw, n.split, n.disk;
    }

    function View(): Node
      reads this
    {
      Node(version, configTrust, grantKeys, pin, anchorRaw, routineRaw, split, disk)
    }

    method HandleClusterConfig(lib: Library, raw: Bytes, saved: bool, roots: bool)
      modifies this
      ensures View() == AfterConfig(lib, old(View()), raw, saved, roots)
    {
      var got := ConfigFrom(lib, raw);
      if got.None? || !Verified(lib.valid, configTrust, CONFIG_CONTEXT, got.value.0) {
        return;
      }
      var cfg := got.value.1;
      if cfg.version <= version {
        return;
      }
      var newTrusted := TrustedKeys(cfg.grantKeys);
      var newConfigTrust := TrustedKeys(if cfg.trustKeys == [] then cfg.grantKeys else cfg.trustKeys);
      if newTrusted.None? || newConfigTrust.None? || !saved {
        return;
      }
      disk := disk.(cluster := raw);
      if roots {
        version, grantKeys, configTrust := cfg.version, newTrusted.value, newConfigTrust.value;
      }
    }

    method VerifyFleetState(lib: Library, against: Pin, heldAnchor: int, heldConfig: int, p: Pair, now: int)
      returns (ok: bool)
      ensures ok <==> FleetOk(lib, against, heldAnchor, heldConfig, p, now)
    {
      ok := VerifyMultiSig(lib.valid, against.keys, against.threshold, ANCHORS_CONTEXT, p.env);
      if ok && p.anchors.version >= heldAnchor && Unexpired(p.anchors, now) {
        var grants := TrustedKeys(p.anchors.grantKeys);
        return && NonEmpty(grants).Some?
               && Verified(lib.valid, grants.value, ROUTINE_CONTEXT, p.mapEnv)
               && p.routine.version >= heldConfig
               && p.routine.anchorVersion == p.anchors.version
               && p.routine.anchorDigest == lib.digest(p.env.payload);
      }
      ok := false;
    }

    method AdoptFleetState(lib: Library, p: Pair, anchors: Bytes, routine: Bytes, roots: bool)
      requires Bound(lib, p)
      modifies this
      ensures View() ==
        if PinOf(p.anchors).None? || !roots then old(View())
        else Adopted(lib, old(View()), p, anchors, routine)
    {
      var grants := TrustedKeys(p.anchors.grantKeys);
      var pinned := TrustedKeys(p.anchors.trustKeys);
      if NonEmpty(pinned).Some? && roots {
        version, grantKeys := p.routine.version, grants.value;
        pin := Some(Pin(pinned.value, p.anchors.threshold, p.anchors.version));
        anchorRaw, routineRaw := anchors, routine;
      }
    }

    method HandleFleetState(lib: Library, anchors: Bytes, routine: Bytes, now: int, saved: Saved, roots: bool)
      modifies this
      ensures View() == AfterFleet(lib, old(View()), anchors, routine, now, saved, roots)
    {
      if anchors == [] || routine == [] {
        return;
      }
      var got := PairOf(lib, anchors, routine);
      if got.None? || Against(View(), got.value).None? {
        return;
      }
      var p := got.value;
      var ok := VerifyFleetState(lib, Against(View(), p).value, AnchorVersion(View()), version, p, now);
      if !ok || (p.anchors.version == AnchorVersion(View()) && p.routine.version == version && split) {
        return;
      }
      if saved.Nothing? {
        return;
      }
      disk := disk.(anchor := anchors);
      if saved.AnchorOnly? {
        return;
      }
      disk := disk.(routine := routine);
      split := true;
      AdoptFleetState(lib, p, anchors, routine, roots);
    }

    /** The pin test on the legacy part of a push, which is made before the adopt lock is
        taken. */
    method PassesPinTest(legacy: Bytes) returns (go: bool)
      ensures go <==> pin.None? && legacy != []
    {
      go := pin.None? && legacy != [];
    }

    /** A push when nothing comes between its pin test and its adoption. */
    method HandleFleetPush(
      lib: Library, anchors: Bytes, routine: Bytes, legacy: Bytes, now: int, pair: Saved, saved: bool, roots: bool)
      modifies this
      ensures View() ==
        if anchors != [] && routine != [] then After(lib, old(View()), Fleet(anchors, routine, now, pair, roots))
        else if old(pin).None? && legacy != [] then After(lib, old(View()), Adopt(legacy, saved, roots))
        else old(View())
    {
      if anchors != [] && routine != [] {
        HandleFleetState(lib, anchors, routine, now, pair, roots);
        return;
      }
      var go := PassesPinTest(legacy);
      if go {
        HandleClusterConfig(lib, legacy, saved, roots);
      }
    }
  }
}
