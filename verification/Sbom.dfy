/** Component lists, and the delta between two of them. */
module Sbom {
  datatype Component = Component(
    purl: string,
    name: string,
    version: string,
    ecosystem: string,
    distro: string,
    source: string,
    sourceName: string,
    sourceVersion: string)

  /** A component's identity: the same package from two origins is two members. */
  type Key = (string, string)

  function KeyOf(c: Component): Key {
    (c.purl, c.source)
  }

  /** Two components are one member exactly when both package and origin agree. */
  lemma IdentityMeans(c: Component, d: Component)
    ensures KeyOf(c) == KeyOf(d) <==> c.purl == d.purl && c.source == d.source
  {
  }

  type Index = map<Key, Component>

  /** Keyed by identity; of two components with one identity the later stays. */
  function IndexOf(comps: seq<Component>): Index {
    if comps == [] then map[]
    else
      var n := |comps| - 1;
      IndexOf(comps[..n])[KeyOf(comps[n]) := comps[n]]
  }

  predicate Same(index: Index, c: Component) {
    KeyOf(c) in index && index[KeyOf(c)] == c
  }

  /** The components that an index does not hold as they are. */
  function Changed(index: Index, comps: seq<Component>): seq<Component> {
    if comps == [] then []
    else
      var n := |comps| - 1;
      Changed(index, comps[..n]) + if Same(index, comps[n]) then [] else [comps[n]]
  }

  method BuildIndex(comps: seq<Component>) returns (index: Index)
    ensures index == IndexOf(comps)
  {
    index := map[];
    for i := 0 to |comps|
      invariant index == IndexOf(comps[..i])
    {
      assert comps[..i + 1][..i] == comps[..i];
      index := index[KeyOf(comps[i]) := comps[i]];
    }
    assert comps[..|comps|] == comps;
  }

  method Unmatched(index: Index, comps: seq<Component>) returns (out: seq<Component>)
    ensures out == Changed(index, comps)
  {
    out := [];
    for i := 0 to |comps|
      invariant out == Changed(index, comps[..i])
    {
      assert comps[..i + 1][..i] == comps[..i];
      if !Same(index, comps[i]) {
        out := out + [comps[i]];
      }
    }
    assert comps[..|comps|] == comps;
  }

  function KeysOf(comps: seq<Component>): set<Key> {
    set c | c in comps :: KeyOf(c)
  }

  /** What a base and a delta give: the removed identities go, then the added ones come. */
  function Applied(base: Index, added: seq<Component>, removed: seq<Component>): Index {
    (base - KeysOf(removed)) + IndexOf(added)
  }

  lemma {:induction false} IndexOfConcat(a: seq<Component>, b: seq<Component>)
    ensures IndexOf(a + b) == IndexOf(a) + IndexOf(b)
    decreases |b|
  {
    if b == [] {
      assert a + b == a;
    } else {
      IndexOfConcat(a, b[..|b| - 1]);
      assert (a + b)[..|a + b| - 1] == a + b[..|b| - 1];
    }
  }

  method ApplyToIndex(base: seq<Component>, added: seq<Component>, removed: seq<Component>) returns (index: Index)
    ensures index == Applied(IndexOf(base), added, removed)
  {
    index := BuildIndex(base);
    for i := 0 to |removed|
      invariant index == IndexOf(base) - KeysOf(removed[..i])
    {
      assert KeysOf(removed[..i + 1]) == KeysOf(removed[..i]) + {KeyOf(removed[i])} by {
        assert removed[..i + 1] == removed[..i] + [removed[i]];
      }
      index := index - {KeyOf(removed[i])};
    }
    assert removed[..|removed|] == removed;
    for i := 0 to |added|
      invariant index == (IndexOf(base) - KeysOf(removed)) + IndexOf(added[..i])
    {
      assert added[..i + 1][..i] == added[..i];
      index := index[KeyOf(added[i]) := added[i]];
    }
    assert added[..|added|] == added;
  }

  // ---------------------------------------------------------------------------
  // When a delta rebuilds what it was made from.

  lemma {:induction false} IndexMeans(comps: seq<Component>)
    ensures IndexOf(comps).Keys == KeysOf(comps)
    ensures forall k :: k in IndexOf(comps) ==> IndexOf(comps)[k] in comps && KeyOf(IndexOf(comps)[k]) == k
  {
    if comps != [] {
      var n := |comps| - 1;
      IndexMeans(comps[..n]);
      assert comps == comps[..n] + [comps[n]];
      assert KeysOf(comps) == KeysOf(comps[..n]) + {KeyOf(comps[n])};
    }
  }

  lemma {:induction false} ChangedMeans(index: Index, comps: seq<Component>)
    ensures forall c :: c in Changed(index, comps) <==> c in comps && !Same(index, c)
  {
    if comps != [] {
      var n := |comps| - 1;
      ChangedMeans(index, comps[..n]);
      assert comps == comps[..n] + [comps[n]];
    }
  }

  /** The last component of an identity, if it is not held, is also the last changed. */
  lemma {:induction false} LastIsChanged(index: Index, comps: seq<Component>, k: Key)
    requires k in IndexOf(comps) && !Same(index, IndexOf(comps)[k])
    ensures k in IndexOf(Changed(index, comps)) && IndexOf(Changed(index, comps))[k] == IndexOf(comps)[k]
  {
    var n := |comps| - 1;
    var c, rest := comps[n], Changed(index, comps[..n]);
    IndexMeans(comps);
    if KeyOf(c) != k {
      LastIsChanged(index, comps[..n], k);
    }
    if !Same(index, c) {
      IndexOfConcat(rest, [c]);
      assert IndexOf([c]) == map[KeyOf(c) := c] by {
        assert [c][..0] == [];
      }
    } else {
      assert rest + [] == rest;
    }
  }

  /** An identity that kept its component does not occur with another one. */
  ghost predicate NoConflictAt(base: seq<Component>, next: seq<Component>, k: Key) {
    k in IndexOf(base) && k in IndexOf(next) && IndexOf(base)[k] == IndexOf(next)[k] ==>
      forall c :: (c in base || c in next) && KeyOf(c) == k ==> c == IndexOf(next)[k]
  }

  ghost predicate NoConflict(base: seq<Component>, next: seq<Component>) {
    forall k :: NoConflictAt(base, next, k)
  }

  ghost predicate AgreeAt(a: Index, b: Index, k: Key) {
    if k in b then k in a && a[k] == b[k] else k !in a
  }

  lemma SameEverywhere(a: Index, b: Index)
    ensures a == b <==> forall k :: AgreeAt(a, b, k)
  {
    if forall k :: AgreeAt(a, b, k) {
      assert forall k :: k in a ==> AgreeAt(a, b, k);
      assert forall k :: k in b ==> AgreeAt(a, b, k);
    }
  }

  function Rebuilt(base: seq<Component>, next: seq<Component>): Index {
    Applied(IndexOf(base), Changed(IndexOf(base), next), Changed(IndexOf(next), base))
  }

  ghost predicate RebuildsAt(base: seq<Component>, next: seq<Component>, k: Key) {
    AgreeAt(Rebuilt(base, next), IndexOf(next), k)
  }

  lemma KeyChanged(index: Index, comps: seq<Component>, k: Key)
    ensures k in IndexOf(Changed(index, comps)) <==> exists c :: c in comps && KeyOf(c) == k && !Same(index, c)
    ensures k in KeysOf(Changed(index, comps)) <==> exists c :: c in comps && KeyOf(c) == k && !Same(index, c)
  {
    ChangedMeans(index, comps);
    IndexMeans(Changed(index, comps));
  }

  lemma RebuildsKept(base: seq<Component>, next: seq<Component>, k: Key)
    requires k in IndexOf(next) && Same(IndexOf(base), IndexOf(next)[k])
    ensures RebuildsAt(base, next, k) <==> NoConflictAt(base, next, k)
  {
    IndexMeans(next);
    KeyChanged(IndexOf(base), next, k);
    KeyChanged(IndexOf(next), base, k);
    var added := Changed(IndexOf(base), next);
    if k in IndexOf(added) {
      IndexMeans(added);
      ChangedMeans(IndexOf(base), next);
      assert IndexOf(added)[k] != IndexOf(next)[k];
    }
  }

  /** For one identity: it is rebuilt unless it kept its component and occurs with
      another one. */
  lemma RebuildsAtExactly(base: seq<Component>, next: seq<Component>, k: Key)
    ensures RebuildsAt(base, next, k) <==> NoConflictAt(base, next, k)
  {
    var b, n := IndexOf(base), IndexOf(next);
    IndexMeans(base);
    IndexMeans(next);
    if k !in n {
      KeyChanged(b, next, k);
      KeyChanged(n, base, k);
    } else if Same(b, n[k]) {
      RebuildsKept(base, next, k);
    } else {
      LastIsChanged(b, next, k);
    }
  }

  /** Applying a delta to its base gives the list it was made for, as an index, exactly
      when no unchanged identity carries conflicting duplicates. */
  lemma ApplyUndoesDiffExactly(base: seq<Component>, next: seq<Component>)
    ensures Rebuilt(base, next) == IndexOf(next) <==> NoConflict(base, next)
  {
    forall k ensures RebuildsAt(base, next, k) <==> NoConflictAt(base, next, k) {
      RebuildsAtExactly(base, next, k);
    }
    SameEverywhere(Rebuilt(base, next), IndexOf(next));
    if NoConflict(base, next) {
      forall k ensures AgreeAt(Rebuilt(base, next), IndexOf(next), k) {
        assert NoConflictAt(base, next, k);
      }
    } else {
      var k :| !NoConflictAt(base, next, k);
      assert !RebuildsAt(base, next, k);
    }
  }

  ghost predicate UniqueKeys(comps: seq<Component>) {
    forall i, j :: 0 <= i < j < |comps| ==> KeyOf(comps[i]) != KeyOf(comps[j])
  }

  lemma UniqueMeans(comps: seq<Component>, c: Component)
    requires UniqueKeys(comps) && c in comps
    ensures KeyOf(c) in IndexOf(comps) && IndexOf(comps)[KeyOf(c)] == c
  {
    IndexMeans(comps);
    assert KeyOf(c) in KeysOf(comps);
  }

  lemma UniqueHasNoConflict(base: seq<Component>, next: seq<Component>)
    requires UniqueKeys(base) && UniqueKeys(next)
    ensures NoConflict(base, next)
  {
    forall k, c | (c in base || c in next) && KeyOf(c) == k && k in IndexOf(base) && k in IndexOf(next)
      ensures c == IndexOf(base)[k] || c == IndexOf(next)[k]
    {
      if c in base {
        UniqueMeans(base, c);
      } else {
        UniqueMeans(next, c);
      }
    }
  }

  /** Two versions of one package in the base lose the package on the other side. */
  lemma DuplicatesAreLost(stale: Component, kept: Component)
    requires KeyOf(stale) == KeyOf(kept) && stale != kept
    ensures
      var base, next := [stale, kept], [kept];
      Rebuilt(base, next) != IndexOf(next)
  {
    var base, next := [stale, kept], [kept];
    assert base[..1] == [stale] && next[..0] == [];
    assert IndexOf(base)[KeyOf(kept)] == kept && IndexOf(next) == map[KeyOf(kept) := kept];
    assert stale in base && !NoConflictAt(base, next, KeyOf(kept));
    ApplyUndoesDiffExactly(base, next);
  }
}
