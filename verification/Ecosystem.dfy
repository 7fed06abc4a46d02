/**
 OSV ecosystem strings: the coarse index key and the precise applicability test. Case
 folding of one character is a parameter; two strings are equal under it when they
 have the same length and fold alike at every place.
 */
module Ecosystem {
  type Fold = char -> char

  predicate IsDigit(c: char) {
    '0' <= c <= '9'
  }

  /** Digits have no letter case. */
  ghost predicate CaseFolding(f: Fold) {
    forall c, d :: f(c) == f(d) && IsDigit(c) ==> c == d
  }

  predicate EqualFold(f: Fold, a: string, b: string) {
    |a| == |b| && forall i :: 0 <= i < |a| ==> f(a[i]) == f(b[i])
  }

  datatype Parts = Parts(family: string, variants: seq<string>, release: string)

  /** The colon-separated tokens of a string; there is always at least one. */
  function Split(s: string): (parts: seq<string>)
    ensures parts != []
  {
    if s == "" then [""]
    else
      var rest := Split(s[1..]);
      if s[0] == ':' then [""] + rest else [[s[0]] + rest[0]] + rest[1..]
  }

  /** An optional v, then a digit. */
  predicate LooksLikeRelease(tok: string) {
    var s := if tok != "" && tok[0] == 'v' then tok[1..] else tok;
    s != "" && IsDigit(s[0])
  }

  /** The qualifiers ahead of the release and the release, read from the tokens after
      the family. */
  function Read(toks: seq<string>): (seq<string>, string) {
    if toks == [] then ([], "")
    else if LooksLikeRelease(toks[0]) then ([], toks[0])
    else
      var rest := Read(toks[1..]);
      ((if toks[0] != "" then [toks[0]] else []) + rest.0, rest.1)
  }

  function Parse(eco: string): Parts {
    var toks := Split(eco);
    var (variants, release) := Read(toks[1..]);
    Parts(toks[0], variants, release)
  }

  method ParseEcosystem(eco: string) returns (p: Parts)
    ensures p == Parse(eco)
  {
    var parts := Split(eco);
    p := Parts(parts[0], [], "");
    var i := 1;
    assert [] + Read(parts[1..]).0 == Read(parts[1..]).0;
    while i < |parts|
      invariant 1 <= i <= |parts|
      invariant Read(parts[1..]) == (p.variants + Read(parts[i..]).0, Read(parts[i..]).1)
      invariant p.family == parts[0] && p.release == ""
    {
      assert parts[i..][0] == parts[i] && parts[i..][1..] == parts[i + 1..];
      if LooksLikeRelease(parts[i]) {
        assert p.variants + [] == p.variants;
        p := p.(release := parts[i]);
        return;
      }
      ghost var rest := Read(parts[i + 1..]).0;
      assert p.variants + ([parts[i]] + rest) == p.variants + [parts[i]] + rest;
      assert p.variants + ([] + rest) == p.variants + rest;
      if parts[i] != "" {
        p := p.(variants := p.variants + [parts[i]]);
      }
      i := i + 1;
    }
    assert p.variants + [] == p.variants;
  }

  function KeyOf(p: Parts): string {
    if p.release == "" then p.family else p.family + ":" + p.release
  }

  function EcosystemKey(eco: string): string {
    KeyOf(Parse(eco))
  }

  predicate HasVariant(f: Fold, have: seq<string>, want: string) {
    exists i :: 0 <= i < |have| && EqualFold(f, have[i], want)
  }

  predicate PartsApply(f: Fold, a: Parts, c: Parts) {
    && EqualFold(f, a.family, c.family)
    && (a.release != "" && c.release != "" ==> EqualFold(f, a.release, c.release))
    && forall j :: 0 <= j < |a.variants| ==> HasVariant(f, c.variants, a.variants[j])
  }

  predicate EcosystemApplies(f: Fold, advisory: string, component: string) {
    advisory == "" || PartsApply(f, Parse(advisory), Parse(component))
  }

  predicate Scoped(eco: string) {
    Parse(eco).release != ""
  }

  // ---------------------------------------------------------------------------
  // The index key.

  predicate NoColon(s: string) {
    forall i :: 0 <= i < |s| ==> s[i] != ':'
  }

  lemma {:induction false} TokensHaveNoColon(s: string)
    ensures forall i :: 0 <= i < |Split(s)| ==> NoColon(Split(s)[i])
  {
    if s != "" {
      TokensHaveNoColon(s[1..]);
    }
  }

  lemma {:induction false} SplitPlain(a: string)
    requires NoColon(a)
    ensures Split(a) == [a]
  {
    if a != "" {
      SplitPlain(a[1..]);
      assert [a[0]] + a[1..] == a;
    }
  }

  lemma {:induction false} SplitAtColon(a: string, b: string)
    requires NoColon(a)
    ensures Split(a + ":" + b) == [a] + Split(b)
    decreases |a|
  {
    var s := a + ":" + b;
    if a == "" {
      assert s[1..] == b;
    } else {
      assert s[1..] == a[1..] + ":" + b;
      SplitAtColon(a[1..], b);
      assert Split(s[1..])[0] == a[1..] && Split(s[1..])[1..] == Split(b);
      assert [a[0]] + a[1..] == a;
    }
  }

  /** The token after which a string splits may be the last one. */
  lemma {:induction false} SplitSnoc(a: string, b: string)
    requires NoColon(b)
    ensures Split(a + ":" + b) == Split(a) + [b]
    decreases |a|
  {
    var s := a + ":" + b;
    if a == "" {
      assert s[1..] == b;
      SplitPlain(b);
    } else {
      assert s[1..] == a[1..] + ":" + b;
      SplitSnoc(a[1..], b);
      var r := Split(a[1..]);
      assert (r + [b])[0] == r[0] && (r + [b])[1..] == r[1..] + [b];
    }
  }

  lemma {:induction false} ReleaseIsAToken(toks: seq<string>)
    ensures Read(toks).1 != "" ==> Read(toks).1 in toks && LooksLikeRelease(Read(toks).1)
  {
    if toks != [] && !LooksLikeRelease(toks[0]) {
      ReleaseIsAToken(toks[1..]);
    }
  }

  /** The tokens put together again. */
  function Rejoined(toks: seq<string>): string {
    if |toks| == 0 then "" else if |toks| == 1 then toks[0] else toks[0] + ":" + Rejoined(toks[1..])
  }

  lemma {:induction false} SplitReadsBack(s: string)
    ensures Rejoined(Split(s)) == s
  {
    if s != "" {
      SplitReadsBack(s[1..]);
      var rest := Split(s[1..]);
      if s[0] == ':' {
        assert ([""] + rest)[1..] == rest;
        assert "" + ":" + s[1..] == s;
      } else {
        var all := [[s[0]] + rest[0]] + rest[1..];
        assert all[1..] == rest[1..];
        assert [s[0]] + s[1..] == s;
        if |rest| > 1 {
          assert [s[0]] + (rest[0] + ":" + Rejoined(rest[1..])) == [s[0]] + rest[0] + ":" + Rejoined(rest[1..]);
        }
      }
    }
  }

  /** A digit first, or a v and then a digit. */
  predicate Versioned(tok: string) {
    tok != "" && (IsDigit(tok[0]) || (tok[0] == 'v' && |tok| > 1 && IsDigit(tok[1])))
  }

  /** Of the tokens after the family, this is the first that names a version. */
  ghost predicate ReleaseAt(toks: seq<string>, i: nat) {
    i < |toks| && Versioned(toks[i]) && forall j :: 0 <= j < i ==> !Versioned(toks[j])
  }

  /** This token is a qualifier: not empty, with no version up to and including it. */
  ghost predicate QualifierAt(toks: seq<string>, i: nat) {
    i < |toks| && toks[i] != "" && forall j :: 0 <= j <= i ==> !Versioned(toks[j])
  }

  lemma Later(toks: seq<string>, i: nat)
    requires toks != [] && !Versioned(toks[0])
    ensures ReleaseAt(toks, i + 1) <==> ReleaseAt(toks[1..], i)
    ensures QualifierAt(toks, i + 1) <==> QualifierAt(toks[1..], i)
  {
    if i < |toks[1..]| {
      assert toks[1..][i] == toks[i + 1];
    }
    assert forall j :: 0 <= j < |toks[1..]| ==> toks[1..][j] == toks[j + 1];
    assert forall j :: 1 <= j < |toks| ==> toks[j] == toks[1..][j - 1];
  }

  /** What is read from the tokens, by their places. */
  lemma {:induction false} ReadMeans(toks: seq<string>)
    ensures Read(toks).1 == "" <==> forall i: nat :: !ReleaseAt(toks, i)
    ensures forall i: nat :: ReleaseAt(toks, i) ==> Read(toks).1 == toks[i]
    ensures forall q :: q in Read(toks).0 <==> exists i: nat :: QualifierAt(toks, i) && toks[i] == q
  {
    if toks != [] {
      if Versioned(toks[0]) {
        assert ReleaseAt(toks, 0);
      } else {
        ReadMeans(toks[1..]);
        forall i: nat ensures ReleaseAt(toks, i) <==> i > 0 && ReleaseAt(toks[1..], i - 1) {
          if i > 0 {
            Later(toks, i - 1);
          }
        }
        ReadQualifiers(toks);
        assert Read(toks).1 == Read(toks[1..]).1;
        if i: nat :| ReleaseAt(toks[1..], i) {
          assert ReleaseAt(toks, i + 1);
        }
      }
    }
  }

  lemma ReadQualifiers(toks: seq<string>)
    requires toks != [] && !Versioned(toks[0])
    requires forall q :: q in Read(toks[1..]).0 <==> exists i: nat :: QualifierAt(toks[1..], i) && toks[1..][i] == q
    ensures forall q :: q in Read(toks).0 <==> exists i: nat :: QualifierAt(toks, i) && toks[i] == q
  {
    forall q ensures q in Read(toks).0 <==> exists i: nat :: QualifierAt(toks, i) && toks[i] == q {
      if i: nat :| QualifierAt(toks[1..], i) && toks[1..][i] == q {
        Later(toks, i);
        assert QualifierAt(toks, i + 1) && toks[i + 1] == q;
      }
      if i: nat :| QualifierAt(toks, i) && toks[i] == q {
        if i > 0 {
          Later(toks, i - 1);
          assert QualifierAt(toks[1..], i - 1) && toks[1..][i - 1] == q;
        }
      }
      if toks[0] != "" {
        assert QualifierAt(toks, 0);
      }
    }
  }

  lemma ParsedHaveNoColon(eco: string)
    ensures NoColon(Parse(eco).family) && NoColon(Parse(eco).release)
    ensures Scoped(eco) ==> LooksLikeRelease(Parse(eco).release)
  {
    TokensHaveNoColon(eco);
    ReleaseIsAToken(Split(eco)[1..]);
  }

  /** Keying is idempotent: a key keys to itself, with the same family and release. */
  lemma KeyIsIdempotent(eco: string)
    ensures EcosystemKey(EcosystemKey(eco)) == EcosystemKey(eco)
    ensures Parse(EcosystemKey(eco)) == Parts(Parse(eco).family, [], Parse(eco).release)
  {
    var p := Parse(eco);
    ParsedHaveNoColon(eco);
    if p.release == "" {
      SplitPlain(p.family);
    } else {
      SplitAtColon(p.family, p.release);
      SplitPlain(p.release);
      assert Split(p.family + ":" + p.release)[1..] == [p.release];
    }
  }

  // ---------------------------------------------------------------------------
  // The applicability test.

  /** Parts that differ in release only apply to each other exactly when one names no
      release or both fold alike. */
  lemma ReleaseDecides(f: Fold, p: Parts, r: string, q: string)
    ensures PartsApply(f, p.(release := r), p.(release := q)) <==> r == "" || q == "" || EqualFold(f, r, q)
  {
    forall j | 0 <= j < |p.variants| ensures HasVariant(f, p.variants, p.variants[j]) {
      assert EqualFold(f, p.variants[j], p.variants[j]);
    }
  }

  ghost predicate HasQualifier(f: Fold, toks: seq<string>, q: string) {
    exists i: nat :: QualifierAt(toks, i) && EqualFold(f, toks[i], q)
  }

  ghost predicate ReleasesAgree(f: Fold, a: seq<string>, c: seq<string>) {
    forall i: nat, j: nat :: ReleaseAt(a, i) && ReleaseAt(c, j) ==> EqualFold(f, a[i], c[j])
  }

  ghost predicate QualifiersCovered(f: Fold, a: seq<string>, c: seq<string>) {
    forall i: nat :: QualifierAt(a, i) ==> HasQualifier(f, c, a[i])
  }

  lemma ReleasesMean(f: Fold, a: seq<string>, c: seq<string>)
    ensures ReleasesAgree(f, a, c) <==>
      (Read(a).1 != "" && Read(c).1 != "" ==> EqualFold(f, Read(a).1, Read(c).1))
  {
    ReadMeans(a);
    ReadMeans(c);
  }

  lemma HasVariantMeans(f: Fold, c: seq<string>, q: string)
    ensures HasVariant(f, Read(c).0, q) <==> HasQualifier(f, c, q)
  {
    ReadMeans(c);
    var have := Read(c).0;
    if i :| 0 <= i < |have| && EqualFold(f, have[i], q) {
      assert have[i] in have;
    }
    if i: nat :| QualifierAt(c, i) && EqualFold(f, c[i], q) {
      assert c[i] in have;
    }
  }

  lemma QualifiersMean(f: Fold, a: seq<string>, c: seq<string>)
    ensures QualifiersCovered(f, a, c) <==>
      forall j :: 0 <= j < |Read(a).0| ==> HasVariant(f, Read(c).0, Read(a).0[j])
  {
    ReadMeans(a);
    var want := Read(a).0;
    forall q ensures HasVariant(f, Read(c).0, q) <==> HasQualifier(f, c, q) {
      HasVariantMeans(f, c, q);
    }
    forall j | 0 <= j < |want| ensures exists i: nat :: QualifierAt(a, i) && a[i] == want[j] {
      assert want[j] in want;
    }
    forall i: nat | QualifierAt(a, i) ensures exists j :: 0 <= j < |want| && want[j] == a[i] {
      assert a[i] in want;
    }
  }

  /** An advisory applies exactly when it names no ecosystem, or the families fold alike,
      the releases do where both name one, and every qualifier of the advisory is among the
      component's. */
  lemma AppliesByTokens(f: Fold, advisory: string, component: string)
    ensures
      var a, c := Split(advisory), Split(component);
      EcosystemApplies(f, advisory, component) <==>
        || advisory == ""
        || (EqualFold(f, a[0], c[0]) && ReleasesAgree(f, a[1..], c[1..]) && QualifiersCovered(f, a[1..], c[1..]))
  {
    ReleasesMean(f, Split(advisory)[1..], Split(component)[1..]);
    QualifiersMean(f, Split(advisory)[1..], Split(component)[1..]);
  }

  lemma AppliesToItself(f: Fold, eco: string)
    ensures EcosystemApplies(f, eco, eco)
  {
    var p := Parse(eco);
    ReleaseDecides(f, p, p.release, p.release);
    assert p.(release := p.release) == p;
  }

  lemma VariantsCarry(f: Fold, a: seq<string>, b: seq<string>, c: seq<string>, j: nat)
    requires j < |a|
    requires forall k :: 0 <= k < |a| ==> HasVariant(f, b, a[k])
    requires forall k :: 0 <= k < |b| ==> HasVariant(f, c, b[k])
    ensures HasVariant(f, c, a[j])
  {
    assert HasVariant(f, b, a[j]);
    var i :| 0 <= i < |b| && EqualFold(f, b[i], a[j]);
    assert HasVariant(f, c, b[i]);
    var k :| 0 <= k < |c| && EqualFold(f, c[k], b[i]);
    assert EqualFold(f, c[k], a[j]);
  }

  lemma AppliesThrough(f: Fold, a: string, b: string, c: string)
    requires Scoped(b)
    requires EcosystemApplies(f, a, b) && EcosystemApplies(f, b, c)
    ensures EcosystemApplies(f, a, c)
  {
    var pa, pb, pc := Parse(a), Parse(b), Parse(c);
    assert b != "" by {
      assert Split("") == [""] && Read([]) == ([], "");
    }
    if a != "" {
      forall j | 0 <= j < |pa.variants| ensures HasVariant(f, pc.variants, pa.variants[j]) {
        VariantsCarry(f, pa.variants, pb.variants, pc.variants, j);
      }
    }
  }

  lemma {:induction false} ReadSnoc(toks: seq<string>, r: string)
    requires Read(toks).1 == "" && LooksLikeRelease(r)
    ensures Read(toks + [r]) == (Read(toks).0, r)
    decreases |toks|
  {
    if toks == [] {
      assert toks + [r] == [r];
    } else {
      assert (toks + [r])[1..] == toks[1..] + [r];
      ReadSnoc(toks[1..], r);
    }
  }

  /** Naming a release on an unscoped string scopes it and changes nothing else. */
  lemma ScopeIt(eco: string, r: string)
    requires !Scoped(eco) && NoColon(r) && LooksLikeRelease(r)
    ensures Parse(eco + ":" + r) == Parse(eco).(release := r)
  {
    SplitSnoc(eco, r);
    var toks := Split(eco);
    assert (toks + [r])[1..] == toks[1..] + [r];
    ReadSnoc(toks[1..], r);
  }

  ghost predicate CarriesThrough(f: Fold, b: string) {
    forall a, c :: EcosystemApplies(f, a, b) && EcosystemApplies(f, b, c) ==> EcosystemApplies(f, a, c)
  }

  lemma OneIsNotTwo(f: Fold)
    requires CaseFolding(f)
    ensures !EqualFold(f, ['1'], ['2'])
  {
    assert f(['1'][0]) != f(['2'][0]);
  }

  /** An unscoped string links two releases that do not apply to each other. */
  lemma UnscopedBreaksTheChain(f: Fold, b: string)
    requires CaseFolding(f) && !Scoped(b)
    ensures !CarriesThrough(f, b)
  {
    var a, c := b + ":" + ['1'], b + ":" + ['2'];
    ScopeIt(b, ['1']);
    ScopeIt(b, ['2']);
    OneIsNotTwo(f);
    var p := Parse(b);
    assert p == p.(release := "");
    ReleaseDecides(f, p, ['1'], "");
    ReleaseDecides(f, p, "", ['2']);
    ReleaseDecides(f, p, ['1'], ['2']);
    assert EcosystemApplies(f, a, b) && EcosystemApplies(f, b, c) && !EcosystemApplies(f, a, c);
  }

  /** Applicability is reflexive everywhere, and carries through a middle ecosystem
      exactly when that ecosystem names a release: it is a preorder on the
      release-scoped ones and on no larger set. */
  lemma PreorderExactlyWhenScoped(f: Fold, b: string)
    requires CaseFolding(f)
    ensures EcosystemApplies(f, b, b)
    ensures CarriesThrough(f, b) <==> Scoped(b)
  {
    AppliesToItself(f, b);
    if Scoped(b) {
      forall a, c | EcosystemApplies(f, a, b) && EcosystemApplies(f, b, c) ensures EcosystemApplies(f, a, c) {
        AppliesThrough(f, a, b, c);
      }
    } else {
      UnscopedBreaksTheChain(f, b);
    }
  }

  // ---------------------------------------------------------------------------
  // Index, then filter.

  lemma FoldedConcat(f: Fold, a: string, b: string, c: string, d: string)
    requires EqualFold(f, a, c) && EqualFold(f, b, d)
    ensures EqualFold(f, a + ":" + b, c + ":" + d)
  {
  }

  /** An entry that applies is found under the component's key, up to letter case,
      exactly when both name a release or neither does. */
  lemma KeyFindsWhatApplies(f: Fold, advisory: string, component: string)
    requires advisory != "" && EcosystemApplies(f, advisory, component)
    ensures EqualFold(f, EcosystemKey(advisory), EcosystemKey(component)) <==>
      (Scoped(advisory) <==> Scoped(component))
  {
    var a, c := Parse(advisory), Parse(component);
    if Scoped(advisory) && Scoped(component) {
      FoldedConcat(f, a.family, a.release, c.family, c.release);
    }
  }

  /** The stores compare keys as they are written. An entry that applies is then found
      exactly when, besides, family and release are spelled in the same letter case. */
  lemma ExactKeyFindsWhatApplies(f: Fold, advisory: string, component: string)
    requires advisory != "" && EcosystemApplies(f, advisory, component)
    ensures EcosystemKey(advisory) == EcosystemKey(component) <==>
      && (Scoped(advisory) <==> Scoped(component))
      && Parse(advisory).family == Parse(component).family
      && Parse(advisory).release == Parse(component).release
  {
    KeyIsIdempotent(advisory);
    KeyIsIdempotent(component);
  }

  /** Selecting by key and then filtering with the precise test gives the same entries
      as filtering everything, for entries scoped like the component. */
  lemma IndexThenFilter(f: Fold, entries: set<string>, component: string)
    requires forall a :: a in entries ==> a != "" && (Scoped(a) <==> Scoped(component))
    ensures
      (set a | a in entries && EqualFold(f, EcosystemKey(a), EcosystemKey(component)) &&
               EcosystemApplies(f, a, component))
      == (set a | a in entries && EcosystemApplies(f, a, component))
  {
    forall a | a in entries && EcosystemApplies(f, a, component)
      ensures EqualFold(f, EcosystemKey(a), EcosystemKey(component))
    {
      KeyFindsWhatApplies(f, a, component);
    }
  }
}
