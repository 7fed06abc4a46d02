/**
 Inventory reporting: an agent that ships full documents and deltas, a network that
 loses, repeats and reorders them, and the controller's store. Encoding, decoding,
 hashing and the classification of component sources are parameters.
 */
module Inventory {
  import opened Prelude
  import opened Sbom
  import opened SbomOrder

  /** The subject name the agent writes into every document. */
  const NODE_REF := "node"

  datatype Library = Library(
    encode: (string, Index) -> Bytes,
    extract: Bytes -> Option<Index>,
    hash: Bytes -> Bytes,
    image: string -> bool,
    external: string -> bool)

  function Digest(lib: Library, ref: string, comps: Index): Bytes {
    lib.hash(lib.encode(ref, comps))
  }

  ghost predicate Keyed(s: Index) {
    forall k :: k in s ==> KeyOf(s[k]) == k
  }

  /** What decoding keeps: a package URL, a name, an ecosystem and a source. */
  ghost predicate Reportable(comps: seq<Component>) {
    forall c :: c in comps ==> c.purl != "" && c.name != "" && c.ecosystem != "" && c.source != ""
  }

  /** A reportable list decodes to what it encodes; documents tell their subject and
      components apart, do not collide, and neither they nor hashes are empty. */
  ghost predicate Sound(lib: Library) {
    && (forall ref, comps :: Reportable(comps) ==> lib.extract(lib.encode(ref, IndexOf(comps))) == Some(IndexOf(comps)))
    && (forall r, s, q, t {:trigger lib.encode(r, s), lib.encode(q, t)} ::
          Keyed(s) && Keyed(t) && lib.encode(r, s) == lib.encode(q, t) ==> r == q && s == t)
    && (forall a, b {:trigger lib.hash(a), lib.hash(b)} :: lib.hash(a) == lib.hash(b) ==> a == b)
    && (forall r, s :: lib.encode(r, s) != [])
    && forall a :: lib.hash(a) != []
  }

  // ---------------------------------------------------------------------------
  // The agent.

  datatype Report =
    | Full(doc: Bytes, hash: Bytes)
    | Delta(base: Bytes, added: seq<Component>, removed: seq<Component>, hash: Bytes)

  datatype Agent = Agent(haveHash: bool, lastHash: Bytes, lastSet: seq<Component>, forceFull: bool)

  /** A new module is armed for a full report. */
  const IDLE := Agent(false, [], [], true)

  predicate Unchanged(lib: Library, a: Agent, comps: seq<Component>) {
    a.haveHash && Digest(lib, NODE_REF, IndexOf(comps)) == a.lastHash && !a.forceFull
  }

  function ReportFor(lib: Library, a: Agent, comps: seq<Component>): Report {
    var doc := lib.encode(NODE_REF, IndexOf(comps));
    var added, removed := Sorted(Changed(IndexOf(a.lastSet), comps)), Sorted(Changed(IndexOf(comps), a.lastSet));
    if a.forceFull || !a.haveHash || |added| + |removed| >= |comps| then Full(doc, lib.hash(doc))
    else Delta(a.lastHash, added, removed, lib.hash(doc))
  }

  function Reported(lib: Library, comps: seq<Component>): Agent {
    Agent(true, Digest(lib, NODE_REF, IndexOf(comps)), comps, false)
  }

  class Module {
    var haveHash: bool
    var lastHash: Bytes
    var lastSet: seq<Component>
    var forceFull: bool

    constructor ()
      ensures View() == IDLE && forceFull && !haveHash
    {
      haveHash, lastHash, lastSet, forceFull := false, [], [], true;
    }

    function View(): Agent
      reads this
    {
      Agent(haveHash, lastHash, lastSet, forceFull)
    }

    method RequestFull()
      modifies this`forceFull
      ensures View() == old(View()).(forceFull := true)
    {
      forceFull := true;
    }

    /** The first section of a cycle: what the state calls for, given what was collected.
        Nothing is sent while no stream is wired. */
    method BeginReport(lib: Library, comps: seq<Component>, wired: bool) returns (r: Option<Report>)
      ensures r.None? <==> Unchanged(lib, View(), comps) || !wired
      ensures r.Some? ==> r.value == ReportFor(lib, View(), comps)
    {
      var index := BuildIndex(comps);
      var doc := lib.encode(NODE_REF, index);
      var hash := lib.hash(doc);
      var full := forceFull || !haveHash;
      if (haveHash && hash == lastHash && !forceFull) || !wired {
        return None;
      }
      var added, removed := Diff(lastSet, comps);
      if full || |added| + |removed| >= |comps| {
        r := Some(Full(doc, hash));
      } else {
        r := Some(Delta(lastHash, added, removed, hash));
      }
    }

    /** The second section, once the report is on its way. It forgets any request for a
        full that came in between. */
    method FinishReport(lib: Library, comps: seq<Component>)
      modifies this
      ensures View() == Reported(lib, comps)
    {
      var index := BuildIndex(comps);
      haveHash, lastHash, lastSet, forceFull := true, lib.hash(lib.encode(NODE_REF, index)), comps, false;
    }

    /** One cycle when nothing comes between its sections. */
    method ReportOnce(lib: Library, comps: seq<Component>, wired: bool) returns (r: Option<Report>)
      modifies this
      ensures r.None? <==> Unchanged(lib, old(View()), comps) || !wired
      ensures r.Some? ==> r.value == ReportFor(lib, old(View()), comps) && View() == Reported(lib, comps)
      ensures r.None? ==> View() == old(View())
    {
      r := BeginReport(lib, comps, wired);
      if r.Some? {
        FinishReport(lib, comps);
      }
    }
  }

  /** A delta never carries as many components as the set it describes. */
  lemma DeltaIsSmaller(lib: Library, a: Agent, comps: seq<Component>)
    requires ReportFor(lib, a, comps).Delta?
    ensures
      var r := ReportFor(lib, a, comps);
      |r.added| + |r.removed| < |comps| && r.base == a.lastHash
  {
  }

  // ---------------------------------------------------------------------------
  // The controller.

  /** Image components are stored elsewhere and external ones are not the agent's. */
  predicate Survives(lib: Library, c: Component) {
    !lib.image(c.source) && !lib.external(c.source)
  }

  /** Rows do not give the source package back. */
  function Bare(c: Component): Component {
    c.(sourceName := "", sourceVersion := "")
  }

  function RowsOf(lib: Library, comps: Index): Index {
    map k | k in comps && Survives(lib, comps[k]) :: Bare(comps[k])
  }

  /** What a full report gives, if its hash and its document are in order. */
  function Taken(lib: Library, r: Report): Option<Index>
    requires r.Full?
  {
    if r.doc == [] || (r.hash != [] && lib.hash(r.doc) != r.hash) then None else lib.extract(r.doc)
  }

  /** What a delta gives on top of these rows, if the result hashes to what it claims. */
  function Rebuild(lib: Library, nodeId: string, rows: Index, r: Report): Option<Index>
    requires r.Delta?
  {
    var next := Applied(rows, r.added, r.removed);
    if r.hash != [] && Digest(lib, nodeId, next) != r.hash then None else Some(next)
  }

  // ---------------------------------------------------------------------------
  // A delta against what the rows kept.

  /** A component that storing as a row loses nothing of: the host's own, with no source
      package. */
  predicate Intact(lib: Library, c: Component) {
    !lib.image(c.source) && !lib.external(c.source) && c.sourceName == "" && c.sourceVersion == ""
  }

  /** The rows are those of the host's own components, as they were but for the source
      package. */
  lemma RowsMean(lib: Library, comps: Index, k: Key)
    ensures k in RowsOf(lib, comps) <==> k in comps && !lib.image(comps[k].source) && !lib.external(comps[k].source)
    ensures k in RowsOf(lib, comps) ==>
      var row, c := RowsOf(lib, comps)[k], comps[k];
      && row.sourceName == "" && row.sourceVersion == ""
      && row == c.(sourceName := "", sourceVersion := "")
  {
  }

  /** A document altered on its way is dropped, whatever it decodes to. */
  lemma AlteredFullIsDropped(lib: Library, doc: Bytes, altered: Bytes)
    requires Sound(lib) && altered != doc
    ensures Taken(lib, Full(altered, lib.hash(doc))).None?
  {
    assert lib.hash(altered) == lib.hash(doc) ==> altered == doc;
  }

  /** Whatever a report that claims a hash is made of, what the controller takes from it
      hashes to the claim. */
  lemma TakenHashesAsClaimed(lib: Library, nodeId: string, rows: Index, r: Report)
    requires r.hash != []
    ensures r.Full? && Taken(lib, r).Some? ==> lib.hash(r.doc) == r.hash && lib.extract(r.doc) == Taken(lib, r)
    ensures r.Delta? && Rebuild(lib, nodeId, rows, r).Some? ==>
      Digest(lib, nodeId, Rebuild(lib, nodeId, rows, r).value) == r.hash
  {
  }

  /** Every component of the new set that did not change reads back as it was. */
  ghost predicate KeptIntact(lib: Library, base: seq<Component>, next: seq<Component>) {
    forall c :: c in next && Same(IndexOf(base), c) ==> Intact(lib, c)
  }

  function RebuiltFromRows(lib: Library, base: seq<Component>, next: seq<Component>): Index {
    Applied(RowsOf(lib, IndexOf(base)), Changed(IndexOf(base), next), Changed(IndexOf(next), base))
  }

  lemma RowAgreesAt(lib: Library, base: seq<Component>, next: seq<Component>, k: Key)
    requires UniqueKeys(base) && UniqueKeys(next)
    ensures AgreeAt(RebuiltFromRows(lib, base, next), IndexOf(next), k) <==>
      (k in IndexOf(next) && Same(IndexOf(base), IndexOf(next)[k]) ==> Intact(lib, IndexOf(next)[k]))
  {
    var b, n := IndexOf(base), IndexOf(next);
    IndexMeans(base);
    IndexMeans(next);
    KeyChanged(b, next, k);
    KeyChanged(n, base, k);
    if k in n {
      if Same(b, n[k]) {
        forall c | (c in base || c in next) && KeyOf(c) == k ensures c == n[k] {
          if c in base {
            UniqueMeans(base, c);
          } else {
            UniqueMeans(next, c);
          }
        }
      } else {
        LastIsChanged(b, next, k);
      }
    }
  }

  /** The controller rebuilds the new set from its rows exactly when every unchanged
      component survived storage whole. */
  lemma RebuildsExactlyWhenIntact(lib: Library, base: seq<Component>, next: seq<Component>)
    requires UniqueKeys(base) && UniqueKeys(next)
    ensures RebuiltFromRows(lib, base, next) == IndexOf(next) <==> KeptIntact(lib, base, next)
  {
    IndexMeans(next);
    SameEverywhere(RebuiltFromRows(lib, base, next), IndexOf(next));
    forall k ensures AgreeAt(RebuiltFromRows(lib, base, next), IndexOf(next), k) <==>
      (k in IndexOf(next) && Same(IndexOf(base), IndexOf(next)[k]) ==> Intact(lib, IndexOf(next)[k]))
    {
      RowAgreesAt(lib, base, next, k);
    }
    forall c | c in next ensures KeyOf(c) in IndexOf(next) && IndexOf(next)[KeyOf(c)] == c {
      UniqueMeans(next, c);
    }
    if !KeptIntact(lib, base, next) {
      var c :| c in next && Same(IndexOf(base), c) && !Intact(lib, c);
      assert !AgreeAt(RebuiltFromRows(lib, base, next), IndexOf(next), KeyOf(c));
    }
  }
}
