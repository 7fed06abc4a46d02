/**
 The config trust set over every run of trust deliveries to one process: each config
 taken up was signed by a key held just before, and is newer than what was held.
 */
module TrustConfigs {
  import opened Prelude
  import opened Signatures
  import opened Trust
  import opened TrustRuns

  /** The envelope's signature verifies under a key of this set. */
  ghost predicate SignedUnder(lib: Library, keys: Keys, env: Signed) {
    env.one.keyId in keys && lib.valid(keys[env.one.keyId], CONFIG_CONTEXT, env.payload, env.one.sig)
  }

  /** The keys a config lists to check its successors with: its trust keys, or without any
      its grant keys. */
  function Successors(cfg: Config): seq<NamedKey> {
    if cfg.trustKeys == [] then cfg.grantKeys else cfg.trustKeys
  }

  /** A config that changes anything, saved state included, is signed by a key the node
      held and newer than what it held; what it brings in is what it lists. */
  lemma ConfigChange(lib: Library, n: Node, s: Step) returns (env: Signed, cfg: Config)
    requires s.Adopt? && After(lib, n, s) != n
    ensures lib.signed(s.raw) == Some(env) && lib.config(env.payload) == Some(cfg)
    ensures SignedUnder(lib, n.configTrust, env) && cfg.version > n.version
    ensures
      var m := After(lib, n, s);
      && m.disk.cluster == s.raw && m == n.(version := m.version, grantKeys := m.grantKeys,
                                            configTrust := m.configTrust, disk := m.disk)
      && (m == n.(disk := m.disk) ||
          (m.version == cfg.version && m.grantKeys == Table(cfg.grantKeys) && m.configTrust == Table(Successors(cfg))))
  {
    env, cfg := ConfigFrom(lib, s.raw).value.0, ConfigFrom(lib, s.raw).value.1;
  }

  /** A well-formed config is taken up exactly when a key the node holds signed it, it is
      newer, and every key it lists has the right size. */
  lemma ConfigTakenExactly(lib: Library, n: Node, raw: Bytes, env: Signed, cfg: Config)
    requires lib.signed(raw) == Some(env) && lib.config(env.payload) == Some(cfg)
    ensures After(lib, n, Adopt(raw, true, true)) != n <==>
      && SignedUnder(lib, n.configTrust, env)
      && |n.configTrust[env.one.keyId]| == PUBLIC_KEY_SIZE && |env.one.sig| == SIGNATURE_SIZE
      && cfg.version > n.version
      && (forall i :: 0 <= i < |cfg.grantKeys| ==> |cfg.grantKeys[i].key| == PUBLIC_KEY_SIZE)
      && (forall i :: 0 <= i < |cfg.trustKeys| ==> |cfg.trustKeys[i].key| == PUBLIC_KEY_SIZE)
  {
  }

  lemma PairLeavesConfigTrust(lib: Library, n: Node, s: Step)
    requires s.Fleet?
    ensures After(lib, n, s).configTrust == n.configTrust && After(lib, n, s).disk.cluster == n.disk.cluster
  {
  }

  // ---------------------------------------------------------------------------
  // Lineage.

  /** The config in this envelope takes a node from one trust set to the next. */
  ghost predicate ConfigFollows(lib: Library, t: Keys, env: Signed, u: Keys) {
    && SignedUnder(lib, t, env) && lib.config(env.payload).Some?
    && u == Table(Successors(lib.config(env.payload).value))
  }

  function VersionOf(lib: Library, env: Signed): int {
    if lib.config(env.payload).Some? then lib.config(env.payload).value.version else 0
  }

  /** Each set is brought in by a config signed under the one before, and the versions of
      these configs rise. */
  ghost predicate ConfigLineage(lib: Library, sets: seq<Keys>, envs: seq<Signed>) {
    && |sets| == |envs| + 1
    && (forall i :: 0 <= i < |envs| ==> ConfigFollows(lib, sets[i], envs[i], sets[i + 1]))
    && forall i, j :: 0 <= i < j < |envs| ==> VersionOf(lib, envs[i]) < VersionOf(lib, envs[j])
  }

  /** The set a node holds descends from the one it started with, by configs no newer than
      what it holds now. */
  ghost predicate ConfigDescends(lib: Library, start: Node, n: Node, sets: seq<Keys>, envs: seq<Signed>) {
    && ConfigLineage(lib, sets, envs) && sets[0] == start.configTrust && sets[|envs|] == n.configTrust
    && forall i :: 0 <= i < |envs| ==> VersionOf(lib, envs[i]) <= n.version
  }

  lemma DescendsOn(lib: Library, start: Node, n: Node, m: Node, sets: seq<Keys>, envs: seq<Signed>)
    requires ConfigDescends(lib, start, n, sets, envs) && m.configTrust == n.configTrust && n.version <= m.version
    ensures ConfigDescends(lib, start, m, sets, envs)
  {
  }

  lemma DescendsByConfig(
    lib: Library, start: Node, n: Node, m: Node, sets: seq<Keys>, envs: seq<Signed>, env: Signed)
    requires ConfigDescends(lib, start, n, sets, envs) && ConfigFollows(lib, n.configTrust, env, m.configTrust)
    requires n.version < VersionOf(lib, env) == m.version
    ensures ConfigDescends(lib, start, m, sets + [m.configTrust], envs + [env])
  {
    var more, and := sets + [m.configTrust], envs + [env];
    forall i | 0 <= i < |and| ensures ConfigFollows(lib, more[i], and[i], more[i + 1]) {
      assert i < |envs| ==> ConfigFollows(lib, sets[i], envs[i], sets[i + 1]);
    }
  }

  /** Whatever is delivered, the trust set a node holds descends from the one it started
      with by configs of rising versions, each signed by a key of the set before it. */
  lemma {:induction false} ConfigTrustDescends(lib: Library, run: seq<Node>, steps: seq<Step>, i: nat)
    returns (sets: seq<Keys>, envs: seq<Signed>)
    requires Run(lib, run, steps) && i < |run|
    ensures ConfigDescends(lib, run[0], run[i], sets, envs)
  {
    if i == 0 {
      sets, envs := [run[0].configTrust], [];
    } else {
      sets, envs := ConfigTrustDescends(lib, run, steps, i - 1);
      assert StepAt(lib, run, steps, i - 1);
      sets, envs := DescendsStep(lib, run, steps, i - 1, sets, envs);
    }
  }

  lemma DescendsStep(lib: Library, run: seq<Node>, steps: seq<Step>, i: nat, sets: seq<Keys>, envs: seq<Signed>)
    returns (more: seq<Keys>, and: seq<Signed>)
    requires Run(lib, run, steps) && i < |steps| && ConfigDescends(lib, run[0], run[i], sets, envs)
    ensures ConfigDescends(lib, run[0], run[i + 1], more, and)
  {
    assert StepAt(lib, run, steps, i);
    var n, m := run[i], run[i + 1];
    more, and := sets, envs;
    VersionsNeverFall(lib, run, steps, i, i + 1);
    if steps[i].Adopt? && m != n {
      var env, cfg := ConfigChange(lib, n, steps[i]);
      if m != n.(disk := m.disk) {
        DescendsByConfig(lib, run[0], n, m, sets, envs, env);
        more, and := sets + [m.configTrust], envs + [env];
      } else {
        DescendsOn(lib, run[0], n, m, sets, envs);
      }
    } else {
      if steps[i].Fleet? {
        PairLeavesConfigTrust(lib, n, steps[i]);
      }
      DescendsOn(lib, run[0], n, m, sets, envs);
    }
  }

  /** No config among the deliveries is signed under this set. */
  ghost predicate NoneSigned(lib: Library, keys: Keys, steps: seq<Step>) {
    forall i :: 0 <= i < |steps| && steps[i].Adopt? && lib.signed(steps[i].raw).Some? ==>
      !SignedUnder(lib, keys, lib.signed(steps[i].raw).value)
  }

  /** Configs signed by nobody the node trusts change nothing at all: over such deliveries
      every change is a pair's, and the trust set and the saved config stay. */
  lemma {:induction false} UnsignedConfigsAreContained(lib: Library, run: seq<Node>, steps: seq<Step>, i: nat)
    requires Run(lib, run, steps) && i < |run| && NoneSigned(lib, run[0].configTrust, steps)
    ensures run[i].configTrust == run[0].configTrust && run[i].disk.cluster == run[0].disk.cluster
    ensures i < |steps| && steps[i].Adopt? ==> run[i + 1] == run[i]
  {
    if i > 0 {
      UnsignedConfigsAreContained(lib, run, steps, i - 1);
      assert StepAt(lib, run, steps, i - 1);
      if steps[i - 1].Fleet? {
        PairLeavesConfigTrust(lib, run[i - 1], steps[i - 1]);
      }
    }
    if i < |steps| && steps[i].Adopt? {
      assert StepAt(lib, run, steps, i);
      if run[i + 1] != run[i] {
        var env, cfg := ConfigChange(lib, run[i], steps[i]);
      }
    }
  }
}
