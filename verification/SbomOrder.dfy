/** The canonical order of component lists, and the delta applied down to the list. */
module SbomOrder {
  import opened Sbom

  /** Strings compare by their first difference; a prefix comes first. */
  predicate Precedes(a: string, b: string) {
    if b == "" then false
    else if a == "" then true
    else if a[0] != b[0] then a[0] < b[0]
    else Precedes(a[1..], b[1..])
  }

  /** The strings agree up to place i, and there a ends or has the smaller character. */
  predicate DiffersAt(a: string, b: string, i: nat) {
    i <= |a| && i < |b| && a[..i] == b[..i] && (i == |a| || a[i] < b[i])
  }

  lemma {:induction false} PrecedesMeans(a: string, b: string)
    ensures Precedes(a, b) <==> exists i: nat :: DiffersAt(a, b, i)
    decreases |a|
  {
    if b != "" {
      if a == "" || a[0] < b[0] {
        assert DiffersAt(a, b, 0);
      } else if a[0] == b[0] {
        PrecedesMeans(a[1..], b[1..]);
        if i: nat :| DiffersAt(a[1..], b[1..], i) {
          assert a[..i + 1] == [a[0]] + a[1..][..i] && b[..i + 1] == [b[0]] + b[1..][..i];
          assert DiffersAt(a, b, i + 1);
        }
        if i: nat :| DiffersAt(a, b, i) {
          assert a[1..][..i - 1] == a[..i][1..] && b[1..][..i - 1] == b[..i][1..];
          assert DiffersAt(a[1..], b[1..], i - 1);
        }
      } else {
        forall i: nat ensures !DiffersAt(a, b, i) {
          if i > 0 && i <= |a| && i < |b| {
            assert a[..i][0] != b[..i][0];
          }
        }
      }
    }
  }

  predicate KeyBefore(j: Key, k: Key) {
    if j.0 != k.0 then Precedes(j.0, k.0) else Precedes(j.1, k.1)
  }

  lemma {:induction false} PrecedesTotal(a: string, b: string)
    ensures a == b <==> !Precedes(a, b) && !Precedes(b, a)
    ensures !(Precedes(a, b) && Precedes(b, a))
    decreases |a|
  {
    if a != "" && b != "" && a[0] == b[0] {
      PrecedesTotal(a[1..], b[1..]);
      assert a == [a[0]] + a[1..] && b == [b[0]] + b[1..];
    }
  }

  lemma {:induction false} PrecedesThrough(a: string, b: string, c: string)
    requires Precedes(a, b) && Precedes(b, c)
    ensures Precedes(a, c)
    decreases |a|
  {
    if a != "" && a[0] == b[0] == c[0] {
      PrecedesThrough(a[1..], b[1..], c[1..]);
    }
  }

  lemma KeyTotal(j: Key, k: Key)
    ensures j == k <==> !KeyBefore(j, k) && !KeyBefore(k, j)
    ensures !(KeyBefore(j, k) && KeyBefore(k, j))
  {
    PrecedesTotal(j.0, k.0);
    PrecedesTotal(j.1, k.1);
  }

  lemma KeyThrough(j: Key, k: Key, l: Key)
    requires KeyBefore(j, k) && KeyBefore(k, l)
    ensures KeyBefore(j, l)
  {
    PrecedesTotal(j.0, k.0);
    PrecedesTotal(k.0, l.0);
    if j.0 != k.0 && k.0 != l.0 {
      PrecedesThrough(j.0, k.0, l.0);
    } else if j.0 == k.0 == l.0 {
      PrecedesThrough(j.1, k.1, l.1);
    }
  }

  /** Strictly rising identities, so no identity twice. */
  predicate Ordered(comps: seq<Component>) {
    forall i, j :: 0 <= i < j < |comps| ==> KeyBefore(KeyOf(comps[i]), KeyOf(comps[j]))
  }

  lemma OrderedIsUnique(comps: seq<Component>)
    requires Ordered(comps)
    ensures UniqueKeys(comps)
  {
    forall i, j | 0 <= i < j < |comps| ensures KeyOf(comps[i]) != KeyOf(comps[j]) {
      KeyTotal(KeyOf(comps[i]), KeyOf(comps[j]));
    }
  }

  // ---------------------------------------------------------------------------
  // Sorting.

  /** Puts a component behind every other that does not come after it. */
  function Placed(comps: seq<Component>, c: Component): seq<Component> {
    if comps == [] || !KeyBefore(KeyOf(c), KeyOf(comps[|comps| - 1])) then comps + [c]
    else Placed(comps[..|comps| - 1], c) + [comps[|comps| - 1]]
  }

  function Sorted(comps: seq<Component>): seq<Component> {
    if comps == [] then [] else Placed(Sorted(comps[..|comps| - 1]), comps[|comps| - 1])
  }

  method SortedComponents(comps: seq<Component>) returns (out: seq<Component>)
    ensures out == Sorted(comps)
  {
    out := [];
    for i := 0 to |comps|
      invariant out == Sorted(comps[..i])
    {
      assert comps[..i + 1][..i] == comps[..i];
      out := Placed(out, comps[i]);
    }
    assert comps[..|comps|] == comps;
  }

  lemma SnocIndex(comps: seq<Component>, c: Component)
    ensures IndexOf(comps + [c]) == IndexOf(comps)[KeyOf(c) := c]
  {
    assert (comps + [c])[..|comps|] == comps;
  }

  lemma {:induction false} PlacedIndex(comps: seq<Component>, c: Component)
    ensures IndexOf(Placed(comps, c)) == IndexOf(comps)[KeyOf(c) := c]
  {
    if comps == [] || !KeyBefore(KeyOf(c), KeyOf(comps[|comps| - 1])) {
      SnocIndex(comps, c);
    } else {
      var n := |comps| - 1;
      PlacedIndex(comps[..n], c);
      SnocIndex(Placed(comps[..n], c), comps[n]);
      KeyTotal(KeyOf(c), KeyOf(comps[n]));
    }
  }

  lemma {:induction false} PlacedMembers(comps: seq<Component>, c: Component)
    ensures multiset(Placed(comps, c)) == multiset(comps) + multiset{c}
  {
    if comps != [] && KeyBefore(KeyOf(c), KeyOf(comps[|comps| - 1])) {
      var n := |comps| - 1;
      PlacedMembers(comps[..n], c);
      assert comps == comps[..n] + [comps[n]];
    }
  }

  lemma {:induction false} SortedMembers(comps: seq<Component>)
    ensures multiset(Sorted(comps)) == multiset(comps)
  {
    if comps != [] {
      var n := |comps| - 1;
      SortedMembers(comps[..n]);
      PlacedMembers(Sorted(comps[..n]), comps[n]);
      assert multiset(comps) == multiset(comps[..n]) + multiset{comps[n]} by {
        assert comps == comps[..n] + [comps[n]];
      }
    }
  }

  lemma {:induction false} SortedIndex(comps: seq<Component>)
    ensures IndexOf(Sorted(comps)) == IndexOf(comps)
  {
    if comps != [] {
      var n := |comps| - 1;
      SortedIndex(comps[..n]);
      PlacedIndex(Sorted(comps[..n]), comps[n]);
    }
  }

  lemma SortedLength(comps: seq<Component>)
    ensures |Sorted(comps)| == |comps|
  {
    SortedMembers(comps);
    assert |multiset(Sorted(comps))| == |multiset(comps)|;
  }

  /** No component comes after one it should come before. */
  predicate InOrder(comps: seq<Component>) {
    forall i, j :: 0 <= i < j < |comps| ==> !KeyBefore(KeyOf(comps[j]), KeyOf(comps[i]))
  }

  predicate NoneAfter(comps: seq<Component>, c: Component) {
    forall i :: 0 <= i < |comps| ==> !KeyBefore(KeyOf(c), KeyOf(comps[i]))
  }

  lemma NotBeforeThrough(j: Key, k: Key, l: Key)
    requires !KeyBefore(j, k) && !KeyBefore(k, l)
    ensures !KeyBefore(j, l)
  {
    KeyTotal(j, k);
    KeyTotal(k, l);
    KeyTotal(j, l);
    if j != k && k != l {
      KeyThrough(l, k, j);
    }
  }

  /** Placing before a last component leaves none after it. */
  lemma {:induction false} PlacedNoneAfter(comps: seq<Component>, c: Component, last: Component)
    requires NoneAfter(comps, last) && !KeyBefore(KeyOf(last), KeyOf(c))
    ensures NoneAfter(Placed(comps, c), last)
  {
    if comps != [] && KeyBefore(KeyOf(c), KeyOf(comps[|comps| - 1])) {
      PlacedNoneAfter(comps[..|comps| - 1], c, last);
    }
  }

  lemma {:induction false} PlacedInOrder(comps: seq<Component>, c: Component)
    requires InOrder(comps)
    ensures InOrder(Placed(comps, c))
  {
    if comps != [] {
      var n := |comps| - 1;
      if KeyBefore(KeyOf(c), KeyOf(comps[n])) {
        PlacedInOrder(comps[..n], c);
        KeyTotal(KeyOf(c), KeyOf(comps[n]));
        PlacedNoneAfter(comps[..n], c, comps[n]);
      } else {
        forall i | 0 <= i < n ensures !KeyBefore(KeyOf(c), KeyOf(comps[i])) {
          NotBeforeThrough(KeyOf(c), KeyOf(comps[n]), KeyOf(comps[i]));
        }
      }
    }
  }

  /** Sorting puts a list in order and changes neither its members nor its index. */
  lemma {:induction false} SortedInOrder(comps: seq<Component>)
    ensures InOrder(Sorted(comps)) && multiset(Sorted(comps)) == multiset(comps)
  {
    SortedMembers(comps);
    if comps != [] {
      var n := |comps| - 1;
      SortedInOrder(comps[..n]);
      PlacedInOrder(Sorted(comps[..n]), comps[n]);
    }
  }

  /** The delta between two lists, each half in order. */
  method Diff(base: seq<Component>, next: seq<Component>) returns (added: seq<Component>, removed: seq<Component>)
    ensures added == Sorted(Changed(IndexOf(base), next)) && removed == Sorted(Changed(IndexOf(next), base))
  {
    var baseSet := BuildIndex(base);
    var nextSet := BuildIndex(next);
    var plus := Unmatched(baseSet, next);
    var minus := Unmatched(nextSet, base);
    added := SortedComponents(plus);
    removed := SortedComponents(minus);
  }

  /** The order of a delta's halves does not matter to what it gives. */
  lemma AppliedSorted(base: Index, added: seq<Component>, removed: seq<Component>)
    ensures Applied(base, Sorted(added), Sorted(removed)) == Applied(base, added, removed)
  {
    SortedIndex(added);
    SortedIndex(removed);
    IndexMeans(removed);
    IndexMeans(Sorted(removed));
  }

  /** The list holds exactly the index's components. */
  ghost predicate Lists(comps: seq<Component>, index: Index) {
    && (forall k :: k in index ==> index[k] in comps && KeyOf(index[k]) == k)
    && forall c :: c in comps ==> Same(index, c)
  }

  lemma ListsMeans(comps: seq<Component>, index: Index)
    requires Ordered(comps) && Lists(comps, index)
    ensures IndexOf(comps) == index
  {
    OrderedIsUnique(comps);
    IndexMeans(comps);
    forall k ensures AgreeAt(IndexOf(comps), index, k) {
      if k in index {
        UniqueMeans(comps, index[k]);
      } else {
        assert forall c :: c in comps ==> KeyOf(c) != k;
      }
    }
    SameEverywhere(IndexOf(comps), index);
  }

  /** Puts a component of a new identity where it belongs. */
  method Insert(comps: seq<Component>, c: Component) returns (out: seq<Component>)
    requires Ordered(comps) && forall x :: x in comps ==> KeyOf(x) != KeyOf(c)
    ensures Ordered(out)
    ensures forall x :: x in out <==> x in comps || x == c
  {
    var p := 0;
    while p < |comps| && KeyBefore(KeyOf(comps[p]), KeyOf(c))
      invariant 0 <= p <= |comps|
      invariant forall i :: 0 <= i < p ==> KeyBefore(KeyOf(comps[i]), KeyOf(c))
    {
      p := p + 1;
    }
    InsertedIsOrdered(comps, c, p);
    out := comps[..p] + [c] + comps[p..];
  }

  lemma InsertedIsOrdered(comps: seq<Component>, c: Component, p: nat)
    requires Ordered(comps) && p <= |comps|
    requires forall x :: x in comps ==> KeyOf(x) != KeyOf(c)
    requires forall i :: 0 <= i < p ==> KeyBefore(KeyOf(comps[i]), KeyOf(c))
    requires p < |comps| ==> !KeyBefore(KeyOf(comps[p]), KeyOf(c))
    ensures Ordered(comps[..p] + [c] + comps[p..])
    ensures forall x :: x in comps[..p] + [c] + comps[p..] <==> x in comps || x == c
  {
    forall i | p <= i < |comps| ensures KeyBefore(KeyOf(c), KeyOf(comps[i])) {
      assert comps[p] in comps;
      KeyTotal(KeyOf(c), KeyOf(comps[p]));
      if i > p {
        KeyThrough(KeyOf(c), KeyOf(comps[p]), KeyOf(comps[i]));
      }
    }
    assert comps == comps[..p] + comps[p..];
  }

  /** The components of an index in canonical order. */
  method Listed(index: Index) returns (out: seq<Component>)
    requires forall k :: k in index ==> KeyOf(index[k]) == k
    ensures Ordered(out) && IndexOf(out) == index
  {
    out := [];
    var left := index;
    while left != map[]
      invariant left.Keys <= index.Keys && forall k :: k in left ==> left[k] == index[k]
      invariant Ordered(out) && Lists(out, index - left.Keys)
      decreases |left|
    {
      var k :| k in left;
      var more := Insert(out, left[k]);
      ListedOneMore(index, left, k, out, more);
      left := left - {k};
      out := more;
    }
    assert index - left.Keys == index;
    ListsMeans(out, index);
  }

  lemma ListedOneMore(index: Index, left: Index, k: Key, out: seq<Component>, more: seq<Component>)
    requires left.Keys <= index.Keys && (forall j :: j in left ==> left[j] == index[j]) && k in left
    requires forall j :: j in index ==> KeyOf(index[j]) == j
    requires Lists(out, index - left.Keys)
    requires forall x :: x in more <==> x in out || x == left[k]
    ensures Lists(more, index - (left - {k}).Keys)
    ensures |left - {k}| < |left|
  {
    var done := index - (left - {k}).Keys;
    forall j | j in done ensures done[j] in more && KeyOf(done[j]) == j {
      if j != k {
        assert j in index - left.Keys && (index - left.Keys)[j] == done[j];
      }
    }
    forall c | c in more ensures Same(done, c) {
      if c in out {
        assert Same(index - left.Keys, c);
      }
    }
    assert left == (left - {k})[k := left[k]];
  }

  lemma AppliedIsKeyed(base: seq<Component>, added: seq<Component>, removed: seq<Component>)
    ensures
      var index := Applied(IndexOf(base), added, removed);
      forall k :: k in index ==> KeyOf(index[k]) == k
  {
    IndexMeans(base);
    IndexMeans(added);
  }

  /** The list a base and a delta give: the removed identities go, the added ones come,
      and the rest is in canonical order, one component an identity. */
  method Apply(base: seq<Component>, added: seq<Component>, removed: seq<Component>) returns (out: seq<Component>)
    ensures Ordered(out) && IndexOf(out) == Applied(IndexOf(base), added, removed)
  {
    var index := ApplyToIndex(base, added, removed);
    AppliedIsKeyed(base, added, removed);
    out := Listed(index);
  }

  // ---------------------------------------------------------------------------
  // Why the order is canonical.

  /** The last component of an ordered list has the greatest identity. */
  lemma LastIsGreatest(comps: seq<Component>, c: Component)
    requires Ordered(comps) && c in comps
    ensures c == comps[|comps| - 1] || KeyBefore(KeyOf(c), KeyOf(comps[|comps| - 1]))
  {
  }

  lemma FrontIs(comps: seq<Component>, c: Component)
    requires Ordered(comps) && comps != []
    ensures
      var n := |comps| - 1;
      c in comps[..n] <==> c in comps && c != comps[n]
  {
    var n := |comps| - 1;
    assert comps == comps[..n] + [comps[n]];
    forall i | 0 <= i < n ensures comps[i] != comps[n] {
      KeyTotal(KeyOf(comps[i]), KeyOf(comps[n]));
    }
  }

  lemma {:induction false} SameMembersSameList(a: seq<Component>, b: seq<Component>)
    requires Ordered(a) && Ordered(b) && forall c :: c in a <==> c in b
    ensures a == b
    decreases |a|
  {
    assert a != [] ==> a[0] in b;
    assert b != [] ==> b[0] in a;
    if a != [] {
      var m, n := |a| - 1, |b| - 1;
      assert a[m] in b && b[n] in a;
      LastIsGreatest(a, b[n]);
      LastIsGreatest(b, a[m]);
      KeyTotal(KeyOf(a[m]), KeyOf(b[n]));
      forall c ensures c in a[..m] <==> c in b[..n] {
        FrontIs(a, c);
        FrontIs(b, c);
      }
      SameMembersSameList(a[..m], b[..n]);
      assert a == a[..m] + [a[m]] && b == b[..n] + [b[n]];
    }
  }

  lemma IndexTellsMembers(a: seq<Component>, b: seq<Component>, c: Component)
    requires Ordered(a) && IndexOf(a) == IndexOf(b) && c in a
    ensures c in b
  {
    OrderedIsUnique(a);
    UniqueMeans(a, c);
    IndexMeans(b);
  }

  /** Two ordered lists with one index are the same list, so what the controller encodes
      depends only on the set it rebuilt. */
  lemma OrderIsCanonical(a: seq<Component>, b: seq<Component>)
    requires Ordered(a) && Ordered(b) && IndexOf(a) == IndexOf(b)
    ensures a == b
  {
    forall c ensures c in a <==> c in b {
      if c in a {
        IndexTellsMembers(a, b, c);
      } else if c in b {
        IndexTellsMembers(b, a, c);
      }
    }
    SameMembersSameList(a, b);
  }

  /** Lists with unique identities come back whole and in order from the delta that was
      made for them. */
  lemma RebuiltListIsNext(base: seq<Component>, next: seq<Component>, out: seq<Component>)
    requires UniqueKeys(base) && Ordered(next)
    requires Ordered(out) && IndexOf(out) == Rebuilt(base, next)
    ensures out == next
  {
    OrderedIsUnique(next);
    UniqueHasNoConflict(base, next);
    ApplyUndoesDiffExactly(base, next);
    OrderIsCanonical(out, next);
  }
}
