/**
 The agent's in-network resolver: zones merged from pushed specs, ordered longest
 suffix first, and a query answered by the first zone that matches. Lower-casing of a
 character and stripping of white space are parameters.
 */
module Dns {
  import opened Prelude

  const DEFAULT_TTL := 15

  datatype Text = Text(lower: char -> char, strip: string -> string)

  /** Lower-casing is idempotent and neither makes nor loses a dot. */
  ghost predicate WellBehaved(t: Text) {
    && (forall c :: t.lower(t.lower(c)) == t.lower(c))
    && forall c :: t.lower(c) == '.' <==> c == '.'
  }

  function Lower(t: Text, s: string): string {
    seq(|s|, i requires 0 <= i < |s| => t.lower(s[i]))
  }

  function TrimLeft(s: string): string {
    if s != "" && s[0] == '.' then TrimLeft(s[1..]) else s
  }

  function TrimRight(s: string): string {
    if s != "" && s[|s| - 1] == '.' then TrimRight(s[..|s| - 1]) else s
  }

  function Trim(s: string): string {
    TrimRight(TrimLeft(s))
  }

  predicate NoDotEnds(s: string) {
    s == "" || (s[0] != '.' && s[|s| - 1] != '.')
  }

  predicate NoDot(s: string) {
    forall i :: 0 <= i < |s| ==> s[i] != '.'
  }

  function KeyOf(t: Text, zone: string): string {
    Lower(t, Trim(zone))
  }

  /** The resolver normalizes its zone once more and ends it with a dot. */
  function SuffixOf(t: Text, z: string): string {
    KeyOf(t, z) + "."
  }

  lemma {:induction false} TrimLeftStarts(s: string)
    ensures TrimLeft(s) == "" || TrimLeft(s)[0] != '.'
  {
    if s != "" && s[0] == '.' {
      TrimLeftStarts(s[1..]);
    }
  }

  lemma {:induction false} TrimRightEnds(s: string)
    ensures TrimRight(s) <= s && (TrimRight(s) == "" || TrimRight(s)[|TrimRight(s)| - 1] != '.')
  {
    if s != "" && s[|s| - 1] == '.' {
      TrimRightEnds(s[..|s| - 1]);
    }
  }

  predicate AllDots(s: string) {
    forall i :: 0 <= i < |s| ==> s[i] == '.'
  }

  lemma {:induction false} TrimLeftDrops(s: string) returns (front: string)
    ensures AllDots(front) && s == front + TrimLeft(s)
  {
    front := "";
    if s != "" && s[0] == '.' {
      front := TrimLeftDrops(s[1..]);
      front := "." + front;
      assert s == "." + s[1..];
    }
  }

  lemma {:induction false} TrimRightDrops(s: string) returns (back: string)
    ensures AllDots(back) && s == TrimRight(s) + back
  {
    back := "";
    if s != "" && s[|s| - 1] == '.' {
      back := TrimRightDrops(s[..|s| - 1]);
      assert s == s[..|s| - 1] + ".";
      assert s == TrimRight(s) + (back + ".");
      back := back + ".";
    }
  }

  /** Normalizing a zone drops dots from its ends and nothing else. */
  lemma TrimDropsDots(zone: string) returns (front: string, back: string)
    ensures AllDots(front) && AllDots(back) && zone == front + Trim(zone) + back && NoDotEnds(Trim(zone))
  {
    front := TrimLeftDrops(zone);
    back := TrimRightDrops(TrimLeft(zone));
    TrimLeftStarts(zone);
    TrimRightEnds(TrimLeft(zone));
    assert front + (Trim(zone) + back) == front + Trim(zone) + back;
  }

  /** A zone key has no dot at either end, so normalizing it again changes nothing. */
  lemma KeysAreNormal(t: Text, zone: string)
    requires WellBehaved(t)
    ensures NoDotEnds(KeyOf(t, zone)) && SuffixOf(t, KeyOf(t, zone)) == KeyOf(t, zone) + "."
  {
    TrimLeftStarts(zone);
    TrimRightEnds(TrimLeft(zone));
    var k := KeyOf(t, zone);
    assert NoDotEnds(k) && Trim(k) == k;
    assert Lower(t, k) == k;
  }

  // ---------------------------------------------------------------------------
  // The record table.

  datatype DnsRecord = DnsRecord(name: string, ip: string, ttl: nat)
  datatype ZoneSpec = ZoneSpec(zone: string, records: seq<DnsRecord>)
  datatype Rec = Rec(ip: string, ttl: nat)
  type Table = map<string, map<string, Rec>>

  function LabelOf(t: Text, r: DnsRecord): string {
    Lower(t, t.strip(r.name))
  }

  predicate Counts(t: Text, r: DnsRecord) {
    LabelOf(t, r) != "" && r.ip != ""
  }

  function Entered(t: Text, m: map<string, Rec>, r: DnsRecord): map<string, Rec> {
    if Counts(t, r) then m[LabelOf(t, r) := Rec(r.ip, r.ttl)] else m
  }

  function Filled(t: Text, m: map<string, Rec>, records: seq<DnsRecord>): map<string, Rec>
    decreases |records|
  {
    if records == [] then m
    else Entered(t, Filled(t, m, records[..|records| - 1]), records[|records| - 1])
  }

  function RecordsOf(table: Table, z: string): map<string, Rec> {
    if z in table then table[z] else map[]
  }

  function Added(t: Text, table: Table, spec: ZoneSpec): Table {
    var z := KeyOf(t, spec.zone);
    if z == "" then table else table[z := Filled(t, RecordsOf(table, z), spec.records)]
  }

  function TableOf(t: Text, specs: seq<ZoneSpec>): Table
    decreases |specs|
  {
    if specs == [] then map[] else Added(t, TableOf(t, specs[..|specs| - 1]), specs[|specs| - 1])
  }

  method Add(t: Text, table: Table, spec: ZoneSpec) returns (out: Table)
    ensures out == Added(t, table, spec)
  {
    var z := KeyOf(t, spec.zone);
    if z == "" {
      return table;
    }
    var m := RecordsOf(table, z);
    for i := 0 to |spec.records|
      invariant m == Filled(t, RecordsOf(table, z), spec.records[..i])
    {
      var r := spec.records[i];
      assert spec.records[..i + 1][..i] == spec.records[..i];
      var lbl := LabelOf(t, r);
      if lbl == "" || r.ip == "" {
        continue;
      }
      m := m[lbl := Rec(r.ip, r.ttl)];
    }
    assert spec.records[..|spec.records|] == spec.records;
    out := table[z := m];
  }

  // ---------------------------------------------------------------------------
  // The zone list.

  datatype Zone = Zone(suffix: string, recs: map<string, Rec>)

  function ZoneFor(t: Text, table: Table, z: string): Zone
    requires z in table
  {
    Zone(SuffixOf(t, z), table[z])
  }

  predicate LongestFirst(zones: seq<Zone>) {
    forall i, j :: 0 <= i < j < |zones| ==> |zones[i].suffix| >= |zones[j].suffix|
  }

  ghost predicate Listed(t: Text, table: Table, keys: set<string>, zone: Zone)
    requires keys <= table.Keys
  {
    exists z :: z in keys && zone == ZoneFor(t, table, z)
  }

  /** The zones of these keys, each once, longest suffix first, ties in any order. */
  ghost predicate Listing(t: Text, table: Table, keys: set<string>, zones: seq<Zone>) {
    && keys <= table.Keys
    && |zones| == |keys|
    && LongestFirst(zones)
    && (forall z :: z in keys ==> ZoneFor(t, table, z) in zones)
    && forall x {:trigger Listed(t, table, keys, x)} :: x in zones ==> Listed(t, table, keys, x)
  }

  method Insert(zones: seq<Zone>, zone: Zone) returns (out: seq<Zone>)
    requires LongestFirst(zones)
    ensures LongestFirst(out) && |out| == |zones| + 1
    ensures forall x :: x in out <==> x in zones || x == zone
  {
    var p := 0;
    while p < |zones| && |zones[p].suffix| >= |zone.suffix|
      invariant 0 <= p <= |zones|
      invariant forall i :: 0 <= i < p ==> |zones[i].suffix| >= |zone.suffix|
    {
      p := p + 1;
    }
    out := zones[..p] + [zone] + zones[p..];
    SplicedIn(zones, p, zone);
  }

  lemma SplicedIn(zones: seq<Zone>, p: nat, zone: Zone)
    requires p <= |zones|
    ensures forall x :: x in zones[..p] + [zone] + zones[p..] <==> x in zones || x == zone
  {
    assert zones == zones[..p] + zones[p..];
  }

  method Merge(t: Text, specs: seq<ZoneSpec>) returns (table: Table)
    ensures table == TableOf(t, specs)
  {
    table := map[];
    for i := 0 to |specs|
      invariant table == TableOf(t, specs[..i])
    {
      assert specs[..i + 1][..i] == specs[..i];
      table := Add(t, table, specs[i]);
    }
    assert specs[..|specs|] == specs;
  }

  lemma MoveOver<T>(a: set<T>, b: set<T>, x: T)
    requires a !! b && x in b
    ensures (a + {x}) + (b - {x}) == a + b && (a + {x}) !! (b - {x}) && |b - {x}| < |b|
  {
  }

  method ZonesOf(t: Text, table: Table) returns (zones: seq<Zone>)
    ensures Listing(t, table, table.Keys, zones)
  {
    zones := [];
    var listed, left := {}, table.Keys;
    while left != {}
      invariant listed + left == table.Keys && listed !! left
      invariant Listing(t, table, listed, zones)
      decreases |left|
    {
      var z :| z in left;
      var more := Insert(zones, ZoneFor(t, table, z));
      ListingGrows(t, table, listed, z, zones, more);
      MoveOver(listed, left, z);
      listed, left, zones := listed + {z}, left - {z}, more;
    }
    assert listed == table.Keys;
  }

  method ZonesFromSpecs(t: Text, specs: seq<ZoneSpec>, managed: seq<ZoneSpec>) returns (zones: seq<Zone>)
    ensures
      var table := TableOf(t, specs + managed);
      Listing(t, table, table.Keys, zones)
  {
    var table := Merge(t, specs + managed);
    zones := ZonesOf(t, table);
  }

  lemma ListingGrows(t: Text, table: Table, keys: set<string>, z: string, zones: seq<Zone>, more: seq<Zone>)
    requires Listing(t, table, keys, zones) && z in table && z !in keys
    requires LongestFirst(more) && |more| == |zones| + 1
    requires forall x :: x in more <==> x in zones || x == ZoneFor(t, table, z)
    ensures Listing(t, table, keys + {z}, more)
  {
    forall x | x in more ensures Listed(t, table, keys + {z}, x) {
      if x in zones {
        assert Listed(t, table, keys, x);
      } else {
        assert z in keys + {z};
      }
    }
  }

  // ---------------------------------------------------------------------------
  // A query.

  predicate EndsWith(s: string, tail: string) {
    |s| >= |tail| && s[|s| - |tail|..] == tail
  }

  predicate Matches(name: string, suffix: string) {
    name == suffix || EndsWith(name, "." + suffix)
  }

  function Chosen(zones: seq<Zone>, name: string): Option<Zone> {
    if zones == [] then None
    else if Matches(name, zones[0].suffix) then Some(zones[0])
    else Chosen(zones[1..], name)
  }

  datatype QType = A | AAAA | Other

  datatype Response = Refused | NoSuchName | NoData | Found(ip: string, ttl: nat)

  /** The single label in front of the zone, if that is all there is. */
  function LabelIn(name: string, suffix: string): Option<string> {
    if name == suffix || !EndsWith(name, "." + suffix) then None
    else
      var lbl := name[..|name| - |suffix| - 1];
      if lbl == "" || !NoDot(lbl) then None else Some(lbl)
  }

  function Respond(t: Text, zone: Zone, name: string, q: QType): Response {
    match LabelIn(name, zone.suffix)
    case None => Refused
    case Some(lbl) =>
      var key := Lower(t, lbl);
      if q.Other? || key !in zone.recs then NoSuchName
      else if q.AAAA? then NoData
      else Found(zone.recs[key].ip, if zone.recs[key].ttl == 0 then DEFAULT_TTL else zone.recs[key].ttl)
  }

  function AnswerOf(t: Text, zones: seq<Zone>, qname: string, q: QType): Response {
    var name := Lower(t, qname);
    match Chosen(zones, name)
    case None => Refused
    case Some(zone) => Respond(t, zone, name, q)
  }

  class Resolver {
    var zones: seq<Zone>

    constructor ()
      ensures zones == []
    {
      zones := [];
    }

    method Update(t: Text, specs: seq<ZoneSpec>, managed: seq<ZoneSpec>)
      modifies this
      ensures
        var table := TableOf(t, specs + managed);
        Listing(t, table, table.Keys, zones)
    {
      zones := ZonesFromSpecs(t, specs, managed);
    }

    method Answer(t: Text, qname: string, q: QType) returns (r: Response)
      ensures r == AnswerOf(t, zones, qname, q)
    {
      var name := Lower(t, qname);
      var i := 0;
      while i < |zones|
        invariant 0 <= i <= |zones|
        invariant Chosen(zones[i..], name) == Chosen(zones, name)
      {
        assert zones[i..][0] == zones[i] && zones[i..][1..] == zones[i + 1..];
        if Matches(name, zones[i].suffix) {
          return Respond(t, zones[i], name, q);
        }
        i := i + 1;
      }
      r := Refused;
    }
  }
}
