/** What the resolver answers, stated on the pushed specs and not on the zone list. */
module DnsAnswers {
  import opened Prelude
  import opened Dns

  // ---------------------------------------------------------------------------
  // The last writer of a name wins.

  datatype Entry = Entry(zone: string, lbl: string, rec: Rec)

  /** Every record with a name and an address, in the order pushed, under its name in lower
      case. */
  function EntriesOf(t: Text, spec: ZoneSpec, records: seq<DnsRecord>): seq<Entry>
    decreases |records|
  {
    if records == [] || KeyOf(t, spec.zone) == "" then []
    else
      var r := records[|records| - 1];
      var lbl := Lower(t, t.strip(r.name));
      EntriesOf(t, spec, records[..|records| - 1]) +
      if lbl != "" && r.ip != "" then [Entry(KeyOf(t, spec.zone), lbl, Rec(r.ip, r.ttl))] else []
  }

  function AllEntries(t: Text, specs: seq<ZoneSpec>): seq<Entry>
    decreases |specs|
  {
    if specs == [] then []
    else
      var s := specs[|specs| - 1];
      AllEntries(t, specs[..|specs| - 1]) + EntriesOf(t, s, s.records)
  }

  function LastEntry(entries: seq<Entry>, z: string, lbl: string): Option<Rec>
    decreases |entries|
  {
    if entries == [] then None
    else
      var e := entries[|entries| - 1];
      if e.zone == z && e.lbl == lbl then Some(e.rec) else LastEntry(entries[..|entries| - 1], z, lbl)
  }

  function Stored(m: map<string, Rec>, lbl: string): Option<Rec> {
    if lbl in m then Some(m[lbl]) else None
  }

  lemma {:induction false} LastOfConcat(a: seq<Entry>, b: seq<Entry>, z: string, lbl: string)
    ensures LastEntry(a + b, z, lbl) ==
      if LastEntry(b, z, lbl).Some? then LastEntry(b, z, lbl) else LastEntry(a, z, lbl)
    decreases |b|
  {
    if b == [] {
      assert a + b == a;
    } else {
      LastOfConcat(a, b[..|b| - 1], z, lbl);
      assert (a + b)[..|a + b| - 1] == a + b[..|b| - 1];
    }
  }

  lemma {:induction false} FilledIs(t: Text, m: map<string, Rec>, spec: ZoneSpec, records: seq<DnsRecord>, lbl: string)
    requires KeyOf(t, spec.zone) != ""
    ensures
      var last := LastEntry(EntriesOf(t, spec, records), KeyOf(t, spec.zone), lbl);
      Stored(Filled(t, m, records), lbl) == if last.Some? then last else Stored(m, lbl)
    decreases |records|
  {
    if records != [] {
      var front := records[..|records| - 1];
      FilledIs(t, m, spec, front, lbl);
      var r := records[|records| - 1];
      var e := if Counts(t, r) then [Entry(KeyOf(t, spec.zone), LabelOf(t, r), Rec(r.ip, r.ttl))] else [];
      LastOfConcat(EntriesOf(t, spec, front), e, KeyOf(t, spec.zone), lbl);
    }
  }

  lemma {:induction false} EntriesZone(t: Text, spec: ZoneSpec, records: seq<DnsRecord>, z: string, lbl: string)
    requires KeyOf(t, spec.zone) != z
    ensures LastEntry(EntriesOf(t, spec, records), z, lbl) == None
    decreases |records|
  {
    if records != [] && KeyOf(t, spec.zone) != "" {
      var front, r := records[..|records| - 1], records[|records| - 1];
      EntriesZone(t, spec, front, z, lbl);
      var e := if Counts(t, r) then [Entry(KeyOf(t, spec.zone), LabelOf(t, r), Rec(r.ip, r.ttl))] else [];
      LastOfConcat(EntriesOf(t, spec, front), e, z, lbl);
    }
  }

  /** A stored record is the last one pushed for its zone and label, specs before managed
      zones; records with a blank zone, label or address do not count. */
  lemma {:induction false} LastWriterWins(t: Text, specs: seq<ZoneSpec>, z: string, lbl: string)
    requires z != ""
    ensures Stored(RecordsOf(TableOf(t, specs), z), lbl) == LastEntry(AllEntries(t, specs), z, lbl)
    decreases |specs|
  {
    if specs != [] {
      var front, s := specs[..|specs| - 1], specs[|specs| - 1];
      LastWriterWins(t, front, z, lbl);
      LastOfConcat(AllEntries(t, front), EntriesOf(t, s, s.records), z, lbl);
      if KeyOf(t, s.zone) == z {
        FilledIs(t, RecordsOf(TableOf(t, front), z), s, s.records, lbl);
      } else {
        EntriesZone(t, s, s.records, z, lbl);
      }
    }
  }

  // ---------------------------------------------------------------------------
  // The longest matching zone answers, whatever order equal lengths took.

  /** Keys come from specs: normal, and not blank. */
  ghost predicate Normal(t: Text, table: Table) {
    forall z :: z in table ==> z != "" && NoDotEnds(z) && SuffixOf(t, z) == z + "."
  }

  lemma {:induction false} TableIsNormal(t: Text, specs: seq<ZoneSpec>)
    requires WellBehaved(t)
    ensures Normal(t, TableOf(t, specs))
    decreases |specs|
  {
    if specs != [] {
      TableIsNormal(t, specs[..|specs| - 1]);
      KeysAreNormal(t, specs[|specs| - 1].zone);
    }
  }

  /** Two zones of one length cannot both match a name. */
  lemma MatchesOfOneLength(name: string, a: string, b: string)
    requires Matches(name, a) && Matches(name, b) && |a| == |b|
    ensures a == b
  {
    assert name == a || name[|name| - |a|..] == a by {
      SuffixTail(name, a);
    }
    assert name == b || name[|name| - |b|..] == b by {
      SuffixTail(name, b);
    }
    assert name == a ==> |name| == |b|;
    assert name[0..] == name;
  }

  lemma SuffixTail(name: string, a: string)
    requires Matches(name, a)
    ensures |a| <= |name| && name[|name| - |a|..] == a
  {
    if name != a {
      var k := |name| - |a| - 1;
      assert name[k..] == "." + a;
      assert name[k + 1..] == name[k..][1..] == a;
    }
  }

  lemma {:induction false} ChosenIsFirst(zones: seq<Zone>, name: string)
    requires LongestFirst(zones)
    ensures Chosen(zones, name).None? <==> forall x :: x in zones ==> !Matches(name, x.suffix)
    ensures Chosen(zones, name).Some? ==>
      var c := Chosen(zones, name).value;
      c in zones && Matches(name, c.suffix) &&
      forall x :: x in zones && Matches(name, x.suffix) ==> |x.suffix| <= |c.suffix|
  {
    if zones != [] {
      assert zones == [zones[0]] + zones[1..];
      ChosenIsFirst(zones[1..], name);
    }
  }

  /** Of the pushed zones that match, the longest. */
  ghost predicate Longest(t: Text, table: Table, name: string, z: string) {
    && z in table && Matches(name, z + ".")
    && forall y :: y in table && Matches(name, y + ".") ==> |y| <= |z|
  }

  lemma LongestIsUnique(t: Text, table: Table, name: string, y: string, z: string)
    requires Longest(t, table, name, y) && Longest(t, table, name, z)
    ensures y == z
  {
    MatchesOfOneLength(name, y + ".", z + ".");
    assert (y + ".")[..|y|] == y && (z + ".")[..|z|] == z;
  }

  /** The answering zone is the longest pushed zone that matches the name. */
  lemma LongestZoneAnswers(t: Text, table: Table, zones: seq<Zone>, name: string)
    requires Normal(t, table) && Listing(t, table, table.Keys, zones)
    ensures Chosen(zones, name).None? <==> forall z :: z in table ==> !Matches(name, z + ".")
    ensures forall z :: Longest(t, table, name, z) ==> Chosen(zones, name) == Some(Zone(z + ".", table[z]))
    ensures Chosen(zones, name).Some? ==> exists z :: Longest(t, table, name, z)
  {
    ChosenIsFirst(zones, name);
    forall z | z in table ensures Zone(z + ".", table[z]) in zones {
      assert ZoneFor(t, table, z) in zones;
    }
    if Chosen(zones, name).Some? {
      var c := Chosen(zones, name).value;
      assert Listed(t, table, table.Keys, c);
      var z :| z in table.Keys && c == ZoneFor(t, table, z);
      forall y | y in table && Matches(name, y + ".") ensures |y| <= |z| {
        assert |Zone(y + ".", table[y]).suffix| <= |c.suffix|;
      }
      assert Longest(t, table, name, z);
      forall y | Longest(t, table, name, y) ensures y == z {
        LongestIsUnique(t, table, name, y, z);
      }
    }
  }

  /** Two resolvers given the same specs answer alike, however their sorts broke ties. */
  lemma OrderIsInvisible(t: Text, specs: seq<ZoneSpec>, a: seq<Zone>, b: seq<Zone>, qname: string, q: QType)
    requires WellBehaved(t)
    requires
      var table := TableOf(t, specs);
      Listing(t, table, table.Keys, a) && Listing(t, table, table.Keys, b)
    ensures AnswerOf(t, a, qname, q) == AnswerOf(t, b, qname, q)
  {
    var table, name := TableOf(t, specs), Lower(t, qname);
    TableIsNormal(t, specs);
    LongestZoneAnswers(t, table, a, name);
    LongestZoneAnswers(t, table, b, name);
  }

  // ---------------------------------------------------------------------------
  // Which stored records can be asked for.

  lemma {:induction false} FilledLower(t: Text, m: map<string, Rec>, records: seq<DnsRecord>)
    requires WellBehaved(t) && forall l :: l in m ==> l != "" && Lower(t, l) == l
    ensures forall l :: l in Filled(t, m, records) ==> l != "" && Lower(t, l) == l
    decreases |records|
  {
    if records != [] {
      FilledLower(t, m, records[..|records| - 1]);
      var l := LabelOf(t, records[|records| - 1]);
      assert Lower(t, l) == l;
    }
  }

  lemma {:induction false} LabelsAreLower(t: Text, specs: seq<ZoneSpec>, z: string)
    requires WellBehaved(t) && z in TableOf(t, specs)
    ensures Lower(t, z) == z
    ensures forall l :: l in TableOf(t, specs)[z] ==> l != "" && Lower(t, l) == l
    decreases |specs|
  {
    var front, s := specs[..|specs| - 1], specs[|specs| - 1];
    if z in TableOf(t, front) {
      LabelsAreLower(t, front, z);
    }
    if KeyOf(t, s.zone) == z {
      FilledLower(t, RecordsOf(TableOf(t, front), z), s.records);
    }
  }

  /** A zone that starts inside the label of lbl.z. does not match it. */
  lemma NoZoneInsideLabel(lbl: string, z: string, y: string)
    requires NoDot(lbl) && |z| < |y| <= |lbl| + |z|
    ensures !Matches(lbl + "." + z + ".", y + ".")
  {
    var name := lbl + "." + z + ".";
    var k := |name| - |y| - 2;
    assert name[k] == lbl[k];
    assert name[k..][0] != ("." + (y + "."))[0];
  }

  /** A zone that matches lbl.z. and is longer than z is lbl.z itself. */
  lemma LongerZone(lbl: string, z: string, y: string)
    requires NoDot(lbl) && |y| > |z| && Matches(lbl + "." + z + ".", y + ".")
    ensures y == lbl + "." + z
  {
    var name := lbl + "." + z + ".";
    if |y| <= |lbl| + |z| {
      NoZoneInsideLabel(lbl, z, y);
    } else {
      SuffixTail(name, y + ".");
      assert |y| == |lbl| + |z| + 1;
      assert name[0..] == name == y + ".";
      assert (y + ".")[..|y|] == y && name[..|y|] == lbl + "." + z;
    }
  }

  lemma LowerConcat(t: Text, lbl: string, z: string)
    requires WellBehaved(t) && Lower(t, lbl) == lbl && Lower(t, z) == z
    ensures Lower(t, lbl + "." + z + ".") == lbl + "." + z + "."
  {
    var name := lbl + "." + z + ".";
    forall i | 0 <= i < |name| ensures t.lower(name[i]) == name[i] {
      if i < |lbl| {
        assert Lower(t, lbl)[i] == t.lower(lbl[i]);
      } else if |lbl| < i < |name| - 1 {
        assert Lower(t, z)[i - |lbl| - 1] == t.lower(z[i - |lbl| - 1]);
      }
    }
  }

  lemma LabelOfName(lbl: string, z: string)
    ensures Matches(lbl + "." + z + ".", z + ".")
    ensures lbl != "" ==> LabelIn(lbl + "." + z + ".", z + ".") == if NoDot(lbl) then Some(lbl) else None
  {
    var name := lbl + "." + z + ".";
    assert name[|lbl|..] == "." + (z + ".");
    assert name[..|lbl|] == lbl;
  }

  lemma LongestUnlessNested(t: Text, table: Table, z: string, lbl: string)
    requires z in table && NoDot(lbl)
    ensures
      var name := lbl + "." + z + ".";
      && (lbl + "." + z !in table ==> Longest(t, table, name, z))
      && (lbl + "." + z in table ==> Longest(t, table, name, lbl + "." + z))
  {
    var name, nested := lbl + "." + z + ".", lbl + "." + z;
    LabelOfName(lbl, z);
    assert nested + "." == name;
    forall y | y in table && Matches(name, y + ".") && |y| > |z| ensures y == nested {
      LongerZone(lbl, z, y);
    }
  }

  /** The label of a name in a zone is what stands in front of the zone, if that is one
      label. */
  lemma LabelMeans(name: string, suffix: string, lbl: string)
    ensures LabelIn(name, suffix) == Some(lbl) <==> lbl != "" && NoDot(lbl) && name == lbl + "." + suffix
  {
    var tail := "." + suffix;
    if EndsWith(name, tail) {
      var cut := |name| - |tail|;
      assert name == name[..cut] + name[cut..];
      assert name[..cut] + tail == name[..cut] + "." + suffix;
    }
    if name == lbl + "." + suffix {
      assert name == lbl + tail;
      assert name[|name| - |tail|..] == tail && name[..|name| - |tail|] == lbl;
    }
  }

  /** A name is in a zone exactly when it is the zone or ends in a dot and the zone. */
  lemma MatchesMeans(name: string, suffix: string)
    ensures Matches(name, suffix) <==> name == suffix || exists front :: name == front + "." + suffix
  {
    var tail := "." + suffix;
    if EndsWith(name, tail) {
      var front := name[..|name| - |tail|];
      assert name == front + name[|name| - |tail|..];
      assert name == front + "." + suffix;
    }
    if front :| name == front + "." + suffix {
      assert name == front + tail;
      assert name[|name| - |tail|..] == tail;
    }
  }

  lemma RespondTo(t: Text, z: string, m: map<string, Rec>, lbl: string)
    requires lbl != "" && lbl in m && Lower(t, lbl) == lbl
    ensures
      var r := m[lbl];
      Respond(t, Zone(z + ".", m), lbl + "." + z + ".", A) ==
        if NoDot(lbl) then Found(r.ip, if r.ttl == 0 then 15 else r.ttl) else Refused
  {
    LabelOfName(lbl, z);
  }

  /** An address query for lbl.z. is answered from the record stored for that label in
      that zone exactly when the label has no dot and lbl.z is not a pushed zone itself.
      A name that is a zone is refused, and so is one with a dotted label unless a longer
      zone answers it. */
  lemma RecordAnswersExactly(t: Text, specs: seq<ZoneSpec>, zones: seq<Zone>, z: string, lbl: string)
    requires WellBehaved(t)
    requires
      var table := TableOf(t, specs);
      Listing(t, table, table.Keys, zones) && z in table && lbl in table[z]
    ensures
      var table := TableOf(t, specs);
      var name, r := lbl + "." + z + ".", table[z][lbl];
      && (NoDot(lbl) && lbl + "." + z !in table ==>
            AnswerOf(t, zones, name, A) == Found(r.ip, if r.ttl == 0 then 15 else r.ttl))
      && (NoDot(lbl) && lbl + "." + z in table ==> AnswerOf(t, zones, name, A) == Refused)
      && (!NoDot(lbl) && Longest(t, table, name, z) ==> AnswerOf(t, zones, name, A) == Refused)
  {
    var table, name := TableOf(t, specs), lbl + "." + z + ".";
    LabelsAreLower(t, specs, z);
    RespondTo(t, z, table[z], lbl);
    TableIsNormal(t, specs);
    LowerConcat(t, lbl, z);
    LongestZoneAnswers(t, table, zones, name);
    if NoDot(lbl) {
      LongestUnlessNested(t, table, z, lbl);
      if lbl + "." + z in table {
        assert Chosen(zones, name) == Some(Zone(name, table[lbl + "." + z]));
      } else {
        assert Chosen(zones, name) == Some(Zone(z + ".", table[z]));
      }
    }
  }

  // ---------------------------------------------------------------------------
  // Every query.

  ghost predicate InSomeZone(table: Table, name: string) {
    exists z :: z in table && Matches(name, z + ".")
  }

  /** What every query gets. Outside all zones it is refused. Inside, with z the longest
      zone, it is refused exactly when the name is not one label in front of z; otherwise
      a name that is not stored, or a type that is not served, does not exist; a stored
      name gives its address, or no data for the other address type. */
  lemma QueryAnswersExactly(t: Text, specs: seq<ZoneSpec>, zones: seq<Zone>, qname: string, q: QType, z: string)
    requires WellBehaved(t)
    requires
      var table := TableOf(t, specs);
      Listing(t, table, table.Keys, zones) && Longest(t, table, Lower(t, qname), z)
    ensures
      var r := AnswerOf(t, zones, qname, q);
      var one := LabelIn(Lower(t, qname), z + ".");
      var known := one.Some? && Lower(t, one.value) in TableOf(t, specs)[z];
      && (r == Refused <==> one.None?)
      && (r == NoSuchName <==> one.Some? && (q.Other? || !known))
      && (r == NoData <==> known && q.AAAA?)
      && (r.Found? <==> known && q.A?)
      && (r.Found? ==> r.ip == TableOf(t, specs)[z][Lower(t, one.value)].ip && r.ttl > 0)
  {
    TableIsNormal(t, specs);
    LongestZoneAnswers(t, TableOf(t, specs), zones, Lower(t, qname));
  }

  lemma OutsideIsRefused(t: Text, specs: seq<ZoneSpec>, zones: seq<Zone>, qname: string, q: QType)
    requires WellBehaved(t)
    requires
      var table := TableOf(t, specs);
      Listing(t, table, table.Keys, zones) && !InSomeZone(table, Lower(t, qname))
    ensures AnswerOf(t, zones, qname, q) == Refused
  {
    TableIsNormal(t, specs);
    LongestZoneAnswers(t, TableOf(t, specs), zones, Lower(t, qname));
  }

  /** The promise that an unknown name inside a zone does not exist holds of a query
      exactly when its name is one label in front of the longest zone. */
  lemma UnknownNameExactly(t: Text, specs: seq<ZoneSpec>, zones: seq<Zone>, qname: string, q: QType, z: string)
    requires WellBehaved(t)
    requires
      var table := TableOf(t, specs);
      var one := LabelIn(Lower(t, qname), z + ".");
      && Listing(t, table, table.Keys, zones) && Longest(t, table, Lower(t, qname), z)
      && (one.Some? ==> Lower(t, one.value) !in table[z])
    ensures AnswerOf(t, zones, qname, q) == NoSuchName <==> LabelIn(Lower(t, qname), z + ".").Some?
  {
    QueryAnswersExactly(t, specs, zones, qname, q, z);
  }

  /** A zone's own name is refused although it is in the zone. */
  lemma ZoneNameIsRefused(t: Text, specs: seq<ZoneSpec>, zones: seq<Zone>, z: string, q: QType)
    requires WellBehaved(t)
    requires
      var table := TableOf(t, specs);
      Listing(t, table, table.Keys, zones) && z in table
    ensures InSomeZone(TableOf(t, specs), Lower(t, z + "."))
    ensures AnswerOf(t, zones, z + ".", q) == Refused
  {
    var table, name := TableOf(t, specs), z + ".";
    LabelsAreLower(t, specs, z);
    LowerDotted(t, z);
    assert Matches(name, z + ".");
    forall y | y in table && Matches(name, y + ".") ensures |y| <= |z| {
      SuffixTail(name, y + ".");
    }
    QueryAnswersExactly(t, specs, zones, name, q, z);
  }

  lemma LowerDotted(t: Text, z: string)
    requires WellBehaved(t) && Lower(t, z) == z
    ensures Lower(t, z + ".") == z + "."
  {
    forall i | 0 <= i < |z| ensures t.lower(z[i]) == z[i] {
      assert Lower(t, z)[i] == z[i];
    }
  }

  /** A name with two labels in front of the longest zone is refused, stored or not. */
  lemma TwoLabelsAreRefused(
    t: Text, specs: seq<ZoneSpec>, zones: seq<Zone>, a: string, b: string, z: string, q: QType)
    requires WellBehaved(t)
    requires
      var table := TableOf(t, specs);
      var name := (a + "." + b) + "." + z + ".";
      Listing(t, table, table.Keys, zones) && Lower(t, name) == name && Longest(t, table, name, z)
    ensures AnswerOf(t, zones, (a + "." + b) + "." + z + ".", q) == Refused
  {
    LabelOfName(a + "." + b, z);
    assert (a + "." + b)[|a|] == '.';
    QueryAnswersExactly(t, specs, zones, (a + "." + b) + "." + z + ".", q, z);
  }

  /** One zone z without records: a.z. does not exist, z. and a.b.z. are refused. */
  lemma UnknownNamesCanBeRefused() returns (t: Text, specs: seq<ZoneSpec>, zones: seq<Zone>)
    ensures WellBehaved(t)
    ensures
      var table := TableOf(t, specs);
      Listing(t, table, table.Keys, zones)
    ensures AnswerOf(t, zones, ['z'] + ".", A) == Refused
    ensures AnswerOf(t, zones, (['a'] + "." + ['b']) + "." + ['z'] + ".", A) == Refused
    ensures AnswerOf(t, zones, ['a'] + "." + ['z'] + ".", A) == NoSuchName
  {
    t, specs, zones := OneZone();
    ZoneNameIsRefused(t, specs, zones, ['z'], A);
    OnlyZoneAnswers(t, specs, zones, ['a'] + "." + ['b'], ['z']);
    OnlyZoneAnswers(t, specs, zones, ['a'], ['z']);
    assert (['a'] + "." + ['b'])[1] == '.';
  }

  lemma OneZone() returns (t: Text, specs: seq<ZoneSpec>, zones: seq<Zone>)
    ensures WellBehaved(t) && forall c :: t.lower(c) == c
    ensures TableOf(t, specs) == map[['z'] := map[]]
    ensures Listing(t, TableOf(t, specs), TableOf(t, specs).Keys, zones)
  {
    t, specs := Text(c => c, s => s), [ZoneSpec(['z'], [])];
    OneZoneTable(t, specs);
    var table := TableOf(t, specs);
    zones := [ZoneFor(t, table, ['z'])];
    assert Listed(t, table, table.Keys, zones[0]);
  }

  /** With one zone, and no such record, a name in front of it is unknown or refused. */
  lemma OnlyZoneAnswers(t: Text, specs: seq<ZoneSpec>, zones: seq<Zone>, lbl: string, z: string)
    requires WellBehaved(t) && (forall c :: t.lower(c) == c) && lbl != ""
    requires
      var table := TableOf(t, specs);
      Listing(t, table, table.Keys, zones) && table.Keys == {z} && lbl !in table[z]
    ensures AnswerOf(t, zones, lbl + "." + z + ".", A) == if NoDot(lbl) then NoSuchName else Refused
  {
    var name := lbl + "." + z + ".";
    LabelOfName(lbl, z);
    assert Lower(t, name) == name && Lower(t, lbl) == lbl;
    QueryAnswersExactly(t, specs, zones, name, A, z);
  }

  lemma OneZoneTable(t: Text, specs: seq<ZoneSpec>)
    requires specs == [ZoneSpec(['z'], [])] && t.lower('z') == 'z'
    ensures TableOf(t, specs) == map[['z'] := map[]]
    ensures SuffixOf(t, ['z']) == ['z'] + "."
  {
    assert specs[..0] == [];
    assert KeyOf(t, ['z']) == ['z'];
    assert TableOf(t, specs) == Added(t, TableOf(t, []), specs[0]);
  }
}
