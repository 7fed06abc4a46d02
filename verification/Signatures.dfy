/**
 Key sets, single and threshold signatures. What the cryptographic library and the
 JSON decoder compute is a parameter.
 */
module Signatures {
  import opened Prelude

  const PUBLIC_KEY_SIZE := 32
  const SIGNATURE_SIZE := 64

  type Keys = map<string, Bytes>

  /** Whether a signature over a payload in a context is valid under a public key. */
  type Verifier = (Bytes, string, Bytes, Bytes) -> bool

  datatype NamedKey = NamedKey(id: string, key: Bytes)
  datatype OneSig = OneSig(keyId: string, sig: Bytes)
  datatype MultiSigned = MultiSigned(payload: Bytes, sigs: seq<OneSig>)
  datatype Signed = Signed(payload: Bytes, one: OneSig)

  // ---------------------------------------------------------------------------
  // Key sets.

  predicate AllSized(list: seq<NamedKey>) {
    forall i :: 0 <= i < |list| ==> |list[i].key| == PUBLIC_KEY_SIZE
  }

  /** The last entry of an id wins. */
  function Table(list: seq<NamedKey>): Keys {
    if list == [] then map[]
    else
      var n := |list| - 1;
      Table(list[..n])[list[n].id := list[n].key]
  }

  /** Entry i is the last one with this id. */
  ghost predicate LastEntry(list: seq<NamedKey>, id: string, i: nat) {
    i < |list| && list[i].id == id && forall j :: i < j < |list| ==> list[j].id != id
  }

  /** The table holds exactly the ids listed, each with the key of its last entry. */
  lemma {:induction false} TableMeans(list: seq<NamedKey>, id: string)
    ensures id in Table(list) <==> exists i: nat :: LastEntry(list, id, i)
    ensures forall i: nat :: LastEntry(list, id, i) ==> id in Table(list) && Table(list)[id] == list[i].key
  {
    if list != [] {
      var n := |list| - 1;
      TableMeans(list[..n], id);
      if list[n].id == id {
        assert LastEntry(list, id, n);
      } else {
        forall i: nat ensures LastEntry(list, id, i) <==> LastEntry(list[..n], id, i) {
        }
      }
    }
  }

  function KeysOf(list: seq<NamedKey>): Option<Keys> {
    if AllSized(list) then Some(Table(list)) else None
  }

  method TrustedKeys(list: seq<NamedKey>) returns (r: Option<Keys>)
    ensures r == KeysOf(list)
  {
    var m: Keys := map[];
    for i := 0 to |list|
      invariant AllSized(list[..i]) && m == Table(list[..i])
    {
      if |list[i].key| != PUBLIC_KEY_SIZE {
        return None;
      }
      assert list[..i + 1][..i] == list[..i];
      m := m[list[i].id := list[i].key];
    }
    assert list[..|list|] == list;
    r := Some(m);
  }

  // ---------------------------------------------------------------------------
  // One signature, and a threshold of them.

  predicate Good(v: Verifier, trusted: Keys, context: string, payload: Bytes, s: OneSig) {
    && s.keyId in trusted
    && |trusted[s.keyId]| == PUBLIC_KEY_SIZE && |s.sig| == SIGNATURE_SIZE
    && v(trusted[s.keyId], context, payload, s.sig)
  }

  function Want(threshold: int): nat {
    if threshold < 1 then 1 else threshold
  }

  function Signers(v: Verifier, trusted: Keys, context: string, payload: Bytes, sigs: seq<OneSig>): set<string> {
    set s | s in sigs && Good(v, trusted, context, payload, s) :: s.keyId
  }

  predicate Quorum(v: Verifier, trusted: Keys, threshold: int, context: string, env: MultiSigned) {
    |Signers(v, trusted, context, env.payload, env.sigs)| >= Want(threshold)
  }

  /** The counting loop accepts exactly the envelopes that carry a quorum. */
  method VerifyMultiSig(v: Verifier, trusted: Keys, threshold: int, context: string, env: MultiSigned)
    returns (ok: bool)
    ensures ok <==> Quorum(v, trusted, threshold, context, env)
  {
    var seen: set<string> := {};
    var valid := 0;
    for i := 0 to |env.sigs|
      invariant seen == Signers(v, trusted, context, env.payload, env.sigs[..i])
      invariant valid == |seen|
    {
      var one := env.sigs[i];
      SignersSnoc(v, trusted, context, env.payload, env.sigs[..i], one);
      assert env.sigs[..i + 1] == env.sigs[..i] + [one];
      if one.keyId !in seen && Good(v, trusted, context, env.payload, one) {
        seen := seen + {one.keyId};
        valid := valid + 1;
      }
    }
    assert env.sigs[..|env.sigs|] == env.sigs;
    ok := valid >= Want(threshold);
  }

  lemma SignersSnoc(v: Verifier, trusted: Keys, context: string, payload: Bytes, sigs: seq<OneSig>, one: OneSig)
    ensures Signers(v, trusted, context, payload, sigs + [one]) ==
      Signers(v, trusted, context, payload, sigs) +
      if Good(v, trusted, context, payload, one) then {one.keyId} else {}
  {
  }

  /** The envelope has a signature that the trusted key of this id verifies. */
  predicate SignedBy(v: Verifier, trusted: Keys, context: string, env: MultiSigned, id: string) {
    && id in trusted && |trusted[id]| == PUBLIC_KEY_SIZE
    && exists i :: 0 <= i < |env.sigs| && env.sigs[i].keyId == id && |env.sigs[i].sig| == SIGNATURE_SIZE &&
         v(trusted[id], context, env.payload, env.sigs[i].sig)
  }

  lemma SubsetCount<T>(a: set<T>, b: set<T>)
    requires a <= b
    ensures |a| <= |b|
  {
    assert b == a + (b - a);
  }

  /** A quorum is a set of at least the wanted number of distinct trusted key ids, each
      with a valid signature in the envelope. Repeating or reordering signatures, or
      adding invalid ones, changes nothing. */
  lemma QuorumMeans(v: Verifier, trusted: Keys, threshold: int, context: string, env: MultiSigned)
    ensures Quorum(v, trusted, threshold, context, env) <==>
      exists ids: set<string> :: ids <= trusted.Keys && |ids| >= threshold && |ids| >= 1 &&
        forall id :: id in ids ==> SignedBy(v, trusted, context, env, id)
  {
    var all := Signers(v, trusted, context, env.payload, env.sigs);
    forall id ensures id in all <==> SignedBy(v, trusted, context, env, id) {
      if SignedBy(v, trusted, context, env, id) {
        var i :| 0 <= i < |env.sigs| && env.sigs[i].keyId == id && |env.sigs[i].sig| == SIGNATURE_SIZE &&
          v(trusted[id], context, env.payload, env.sigs[i].sig);
        assert env.sigs[i] in env.sigs && Good(v, trusted, context, env.payload, env.sigs[i]);
      }
    }
    assert all <= trusted.Keys;
    forall ids: set<string> | forall id :: id in ids ==> SignedBy(v, trusted, context, env, id) ensures |ids| <= |all| {
      SubsetCount(ids, all);
    }
  }

  predicate Verified(v: Verifier, trusted: Keys, context: string, env: Signed) {
    Good(v, trusted, context, env.payload, env.one)
  }
}
