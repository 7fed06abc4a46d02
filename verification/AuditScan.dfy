/**
 The two independent readers of the audit file: the line scanner that verifies the
 whole chain, and the repairer that cuts a torn final line before it.
 */
module AuditScan {
  import opened Prelude
  import opened AuditRecord
  import opened AuditLines

  /** The scanner's buffer limit: a line and its newline must fit in this many bytes. */
  const MAX_TOKEN := 4 * 1024 * 1024

  datatype Cursor = Cursor(last: string, seqNo: int, count: nat)

  datatype Verdict = Verified | Malformed | ChainBreak | SeqGap | BadMac | TooLong

  datatype Walked = Walked(at: Cursor, verdict: Verdict)

  datatype Reader = Scanner | Repairer

  const START := Cursor("", 0, 0)

  function CursorOf(chain: seq<Event>): Cursor {
    Cursor(LastHash(chain), |chain|, |chain|)
  }

  function DropCR(line: Bytes): Bytes {
    if line != [] && line[|line| - 1] == CR then line[..|line| - 1] else line
  }

  /** The scanner strips a trailing carriage return; the repairer does not. */
  function Prepare(how: Reader, raw: Bytes): Bytes {
    if how.Scanner? then DropCR(raw) else raw
  }

  /** One record against the running chain, with the error each reader reports. */
  function Examine(c: Codec, how: Reader, at: Cursor, e: Event): (v: Verdict)
    ensures v.Verified? <==> Links(c, at.last, at.seqNo, e)
  {
    if e.prev != at.last then ChainBreak
    else if e.seqNo != at.seqNo + 1 then (if how.Scanner? then SeqGap else ChainBreak)
    else if e.hash != c.Tag(e) then BadMac
    else Verified
  }

  /** One raw line against the running chain: a blank line leaves it alone, a record
      must continue it. */
  function Visit(c: Codec, how: Reader, raw: Bytes, at: Cursor): (r: Result<Cursor, Verdict>)
    ensures r.Err? ==> !r.error.Verified?
  {
    if how.Scanner? && |raw| >= MAX_TOKEN then Err(TooLong)
    else
      var line := Prepare(how, raw);
      if line == [] then Ok(at)
      else
        match c.unmarshal(line)
        case None => Err(Malformed)
        case Some(e) =>
          var v := Examine(c, how, at, e);
          if v.Verified? then Ok(Cursor(e.hash, e.seqNo, at.count + 1)) else Err(v)
  }

  /** The error a line is refused with tells what is wrong with it: too long, not a record,
      not linked to the record before, out of number, or not tagged with the key. */
  lemma VerdictMeans(c: Codec, how: Reader, raw: Bytes, at: Cursor)
    ensures
      var r, line := Visit(c, how, raw, at), Prepare(how, raw);
      var fits := how.Scanner? ==> |raw| < MAX_TOKEN;
      && (r == Err(TooLong) <==> !fits)
      && (r == Err(Malformed) <==> fits && line != [] && c.unmarshal(line).None?)
      && (fits && line != [] && c.unmarshal(line).Some? ==>
            var e := c.unmarshal(line).value;
            var numbered := e.seqNo == at.seqNo + 1;
            && (r == Err(ChainBreak) <==> e.prev != at.last || (how.Repairer? && !numbered))
            && (r == Err(SeqGap) <==> e.prev == at.last && how.Scanner? && !numbered)
            && (r == Err(BadMac) <==> e.prev == at.last && numbered && e.hash != c.hmac(c.marshal(e.(hash := "")))))
  {
  }

  /** What a reader concludes from a list of raw lines. */
  function Walk(c: Codec, how: Reader, raws: seq<Bytes>, at: Cursor): Walked {
    if raws == [] then Walked(at, Verified)
    else
      match Visit(c, how, raws[0], at)
      case Err(v) => Walked(at, v)
      case Ok(next) => Walk(c, how, raws[1..], next)
  }

  /** The records a reader sees in a list of raw lines, blank lines skipped; None
      when some line is not a record. */
  ghost function Decoded(c: Codec, how: Reader, raws: seq<Bytes>): Option<seq<Event>> {
    if raws == [] then Some([])
    else
      var line := Prepare(how, raws[0]);
      var rest := Decoded(c, how, raws[1..]);
      if line == [] || rest.None? then rest
      else
        match c.unmarshal(line)
        case None => None
        case Some(e) => Some([e] + rest.value)
  }

  ghost predicate AllFit(raws: seq<Bytes>) {
    forall i :: 0 <= i < |raws| ==> |raws[i]| < MAX_TOKEN
  }

  /** The lines fit the reader, decode, and continue the chain done. */
  ghost predicate Continues(c: Codec, how: Reader, raws: seq<Bytes>, done: seq<Event>) {
    && (how.Scanner? ==> AllFit(raws))
    && Decoded(c, how, raws).Some?
    && ValidChain(c, done + Decoded(c, how, raws).value)
  }

  lemma ContinuesThroughBlank(c: Codec, how: Reader, raws: seq<Bytes>, done: seq<Event>)
    requires raws != [] && Prepare(how, raws[0]) == []
    ensures |raws[0]| < MAX_TOKEN ==> (Continues(c, how, raws, done) <==> Continues(c, how, raws[1..], done))
    ensures Decoded(c, how, raws) == Decoded(c, how, raws[1..])
  {
    FitSplits(raws);
  }

  lemma FitSplits(raws: seq<Bytes>)
    requires raws != []
    ensures AllFit(raws) <==> |raws[0]| < MAX_TOKEN && AllFit(raws[1..])
  {
    assert forall i :: 0 <= i < |raws| - 1 ==> raws[1..][i] == raws[i + 1];
    assert forall i :: 0 < i < |raws| ==> raws[i] == raws[1..][i - 1];
  }

  lemma ChainThrough(c: Codec, done: seq<Event>, e: Event, tail: seq<Event>)
    requires ValidChain(c, done)
    ensures done + ([e] + tail) == done + [e] + tail
    ensures ValidChain(c, done + [e] + tail) ==> Links(c, LastHash(done), |done|, e)
  {
    var all := done + [e] + tail;
    assert LinkedAt(c, all, |done|) <==> Links(c, LastHash(done), |done|, e);
  }

  lemma ContinuesThroughRecord(c: Codec, how: Reader, raws: seq<Bytes>, done: seq<Event>, e: Event)
    requires ValidChain(c, done) && raws != []
    requires Prepare(how, raws[0]) != [] && c.unmarshal(Prepare(how, raws[0])) == Some(e)
    requires how.Scanner? ==> |raws[0]| < MAX_TOKEN
    ensures Continues(c, how, raws, done) <==>
      Links(c, LastHash(done), |done|, e) && Continues(c, how, raws[1..], done + [e])
    ensures Decoded(c, how, raws[1..]).Some? ==>
      && Decoded(c, how, raws).Some?
      && done + Decoded(c, how, raws).value == done + [e] + Decoded(c, how, raws[1..]).value
  {
    FitSplits(raws);
    if Decoded(c, how, raws[1..]).Some? {
      ChainThrough(c, done, e, Decoded(c, how, raws[1..]).value);
    }
  }

  /** One line of such a walk. */
  lemma VisitAccepts(c: Codec, how: Reader, raws: seq<Bytes>, done: seq<Event>)
    requires ValidChain(c, done) && raws != []
    ensures
      match Visit(c, how, raws[0], CursorOf(done))
      case Err(_) => !Continues(c, how, raws, done)
      case Ok(after) =>
        if after == CursorOf(done) then
          && (Continues(c, how, raws, done) <==> Continues(c, how, raws[1..], done))
          && Decoded(c, how, raws) == Decoded(c, how, raws[1..])
        else
          var line := Prepare(how, raws[0]);
          && c.unmarshal(line).Some?
          && var e := c.unmarshal(line).value;
          && after == CursorOf(done + [e])
          && ValidChain(c, done + [e])
          && (Continues(c, how, raws, done) <==> Continues(c, how, raws[1..], done + [e]))
          && (Decoded(c, how, raws[1..]).Some? ==>
              && Decoded(c, how, raws).Some?
              && done + Decoded(c, how, raws).value == done + [e] + Decoded(c, how, raws[1..]).value)
  {
    var line := Prepare(how, raws[0]);
    if how.Scanner? && |raws[0]| >= MAX_TOKEN {
    } else if line == [] {
      ContinuesThroughBlank(c, how, raws, done);
    } else if c.unmarshal(line).Some? {
      var e := c.unmarshal(line).value;
      ContinuesThroughRecord(c, how, raws, done, e);
      ValidChainExtend(c, done, e);
    }
  }

  /** A walk that resumes after the records of done accepts exactly the lines that
      fit, decode, and continue the chain. */
  lemma {:induction false} WalkAccepts(c: Codec, how: Reader, raws: seq<Bytes>, done: seq<Event>)
    requires ValidChain(c, done)
    ensures
      var w := Walk(c, how, raws, CursorOf(done));
      && (w.verdict.Verified? <==> Continues(c, how, raws, done))
      && (w.verdict.Verified? ==> w.at == CursorOf(done + Decoded(c, how, raws).value))
    decreases |raws|
  {
    if raws == [] {
      assert done + [] == done;
    } else {
      VisitAccepts(c, how, raws, done);
      match Visit(c, how, raws[0], CursorOf(done)) {
        case Err(_) =>
        case Ok(after) =>
          if after == CursorOf(done) {
            WalkAccepts(c, how, raws[1..], done);
          } else {
            var e := c.unmarshal(Prepare(how, raws[0])).value;
            WalkAccepts(c, how, raws[1..], done + [e]);
          }
      }
    }
  }

  /** A line the repairer decodes is a line the scanner decodes to the same record. */
  lemma {:induction false} ScannerDecodesWhatRepairerDecodes(c: Codec, raws: seq<Bytes>)
    requires c.Json() && Decoded(c, Repairer, raws).Some?
    ensures Decoded(c, Scanner, raws) == Decoded(c, Repairer, raws)
    decreases |raws|
  {
    if raws != [] {
      ScannerDecodesWhatRepairerDecodes(c, raws[1..]);
      var raw := raws[0];
      if raw != [] && raw[|raw| - 1] == CR {
        assert raw == DropCR(raw) + [CR];
        assert c.unmarshal(DropCR(raw)) == c.unmarshal(raw);
      }
    }
  }

  /** The scanner's tokens from offset i: every terminated line, then an unterminated
      tail if there is one. */
  ghost function TokensFrom(data: Bytes, i: nat): seq<Bytes>
    requires i <= |data|
    decreases |data| - i
  {
    if i == |data| then []
    else
      var k := NextNewline(data, i);
      [data[i..k]] + if k == |data| then [] else TokensFrom(data, k + 1)
  }

  ghost function Tokens(data: Bytes): seq<Bytes> {
    TokensFrom(data, 0)
  }

  lemma {:induction false} TokensAreLines(data: Bytes, i: nat)
    requires i <= |data| && EndFrom(data, i) == |data|
    ensures TokensFrom(data, i) == LinesFrom(data, i)
    decreases |data| - i
  {
    if i < |data| {
      TokensAreLines(data, NextNewline(data, i) + 1);
    }
  }

  ghost function TailToken(data: Bytes, i: nat): seq<Bytes>
    requires i <= |data|
  {
    if EndFrom(data, i) == |data| then [] else [data[EndFrom(data, i)..]]
  }

  /** The scanner's tokens are the terminated lines and then the tail, if there is one. */
  lemma {:induction false} TokensThenTail(data: Bytes, i: nat)
    requires i <= |data|
    ensures TokensFrom(data, i) == LinesFrom(data, i) + TailToken(data, i)
    decreases |data| - i
  {
    var k := NextNewline(data, i);
    if k < |data| {
      TokensThenTail(data, k + 1);
      OneLine(data, i);
      Associates(data[i..k], LinesFrom(data, k + 1), TailToken(data, k + 1), TokensFrom(data, k + 1));
    } else {
      NoLine(data, i);
    }
  }

  lemma OneLine(data: Bytes, i: nat)
    requires i <= |data| && NextNewline(data, i) < |data|
    ensures
      var k := NextNewline(data, i);
      && TokensFrom(data, i) == [data[i..k]] + TokensFrom(data, k + 1)
      && LinesFrom(data, i) == [data[i..k]] + LinesFrom(data, k + 1)
      && TailToken(data, i) == TailToken(data, k + 1)
  {
  }

  lemma NoLine(data: Bytes, i: nat)
    requires i <= |data| && NextNewline(data, i) == |data|
    ensures TokensFrom(data, i) == TailToken(data, i) && LinesFrom(data, i) == []
  {
    assert data[i..|data|] == data[i..];
  }

  lemma Associates(head: Bytes, mid: seq<Bytes>, tail: seq<Bytes>, rest: seq<Bytes>)
    requires rest == mid + tail
    ensures [head] + rest == ([head] + mid) + tail
  {
  }

  lemma NextToken(data: Bytes, i: nat)
    requires i < |data|
    ensures
      var k := NextNewline(data, i);
      TokensFrom(data, i) == [data[i..k]] + TokensFrom(data, if k < |data| then k + 1 else k)
  {
  }

  lemma WalkOne(c: Codec, how: Reader, raw: Bytes, rest: seq<Bytes>, at: Cursor)
    ensures
      var first := Visit(c, how, raw, at);
      Walk(c, how, [raw] + rest, at) ==
        if first.Err? then Walked(at, first.error) else Walk(c, how, rest, first.value)
  {
    assert ([raw] + rest)[1..] == rest;
  }

  method FindNewline(data: Bytes, i: nat) returns (nl: nat)
    requires i <= |data|
    ensures nl == NextNewline(data, i)
  {
    nl := i;
    while nl < |data| && data[nl] != NL
      invariant i <= nl <= |data|
      invariant NoNewlineIn(data, i, nl)
    {
      nl := nl + 1;
    }
    NextNewlineIs(data, i, nl);
  }

  /** The whole-file scan. It stops at the first line that does not continue the
      chain and reports how far it got. */
  method ScanAuditFile(c: Codec, data: Bytes) returns (w: Walked)
    ensures w == Walk(c, Scanner, Tokens(data), START)
  {
    var at := START;
    var i := 0;
    ghost var all := Walk(c, Scanner, Tokens(data), START);
    while i < |data|
      invariant 0 <= i <= |data|
      invariant Walk(c, Scanner, TokensFrom(data, i), at) == all
    {
      var first, next := ScanOne(c, data, i, at);
      if first.Err? {
        return Walked(at, first.error);
      }
      at, i := first.value, next;
    }
    return Walked(at, Verified);
  }

  /** One turn of the scan: the token at i, and where the next one starts. */
  method ScanOne(c: Codec, data: Bytes, i: nat, at: Cursor) returns (first: Result<Cursor, Verdict>, next: nat)
    requires i < |data|
    ensures i < next <= |data|
    ensures Walk(c, Scanner, TokensFrom(data, i), at) ==
      if first.Err? then Walked(at, first.error) else Walk(c, Scanner, TokensFrom(data, next), first.value)
  {
    var nl := FindNewline(data, i);
    next := if nl < |data| then nl + 1 else nl;
    first := Visit(c, Scanner, data[i..nl], at);
    ScanStep(c, data, i, nl, next, at, first);
  }

  lemma ScanStep(
    c: Codec, data: Bytes, i: nat, nl: nat, next: nat, at: Cursor, first: Result<Cursor, Verdict>)
    requires i < |data| && nl == NextNewline(data, i) && next == (if nl < |data| then nl + 1 else nl)
    requires first == Visit(c, Scanner, data[i..nl], at)
    ensures Walk(c, Scanner, TokensFrom(data, i), at) ==
      if first.Err? then Walked(at, first.error) else Walk(c, Scanner, TokensFrom(data, next), first.value)
  {
    NextToken(data, i);
    WalkOne(c, Scanner, data[i..nl], TokensFrom(data, next), at);
  }

  /** One turn of the repair: the line at i if it is complete, and where the next starts. */
  method RepairOne(c: Codec, data: Bytes, i: nat, at: Cursor)
    returns (complete: bool, first: Result<Cursor, Verdict>, next: nat)
    requires i < |data|
    ensures i <= next <= |data| && (first.Err? ==> !first.error.Verified?)
    ensures !complete ==> LinesFrom(data, i) == [] && EndFrom(data, i) == i
    ensures complete ==>
      && i < next && EndFrom(data, i) == EndFrom(data, next)
      && Walk(c, Repairer, LinesFrom(data, i), at) ==
           if first.Err? then Walked(at, first.error) else Walk(c, Repairer, LinesFrom(data, next), first.value)
  {
    var nl := FindNewline(data, i);
    complete, first, next := nl < |data|, Ok(at), i;
    if complete {
      next := nl + 1;
      OneLine(data, i);
      WalkOne(c, Repairer, data[i..nl], LinesFrom(data, next), at);
      first := Visit(c, Repairer, data[i..nl], at);
    }
  }

  /** What repair leaves: the terminated part of a file whose terminated lines all
      continue the chain, or the reason the file is refused untouched. */
  ghost function Repaired(c: Codec, data: Bytes): Result<Bytes, Verdict> {
    var w := Walk(c, Repairer, Lines(data), START);
    if w.verdict.Verified? then Ok(Terminated(data)) else Err(w.verdict)
  }

  method RepairTornTail(c: Codec, data: Bytes) returns (r: Result<Bytes, Verdict>)
    ensures r == Repaired(c, data)
  {
    var at := START;
    var i, lastGoodEnd := 0, 0;
    ghost var all := Walk(c, Repairer, Lines(data), START);
    while i < |data|
      invariant 0 <= i == lastGoodEnd <= |data|
      invariant Walk(c, Repairer, LinesFrom(data, i), at) == all
      invariant EndFrom(data, i) == EndFrom(data, 0)
    {
      var complete, first, next := RepairOne(c, data, i, at);
      if !complete {
        return Ok(data[..lastGoodEnd]);
      }
      if first.Err? {
        return Err(first.error);
      }
      at, i := first.value, next;
      lastGoodEnd := i;
    }
    assert data[..i] == data;
    r := Ok(data);
  }

  /** A file holds these records when its terminated lines decode to them as the
      repairer reads and they form a chain. */
  ghost predicate Holds(c: Codec, data: Bytes, chain: seq<Event>) {
    Decoded(c, Repairer, Lines(data)) == Some(chain) && ValidChain(c, chain)
  }

  /** Repair succeeds exactly on files whose terminated lines are a chain. It then
      leaves the longest newline-terminated prefix, so no terminated line is cut. */
  lemma RepairKeepsEveryCompleteLine(c: Codec, data: Bytes)
    ensures Repaired(c, data).Ok? <==> exists chain :: Holds(c, data, chain)
    ensures Repaired(c, data).Ok? ==>
      && Lines(Repaired(c, data).value) == Lines(data)
      && Repaired(c, data).value <= data && EndsInNewline(Repaired(c, data).value)
      && (forall k :: 0 <= k <= |data| && EndsInNewline(data[..k]) ==> k <= |Repaired(c, data).value|)
  {
    RepairDecides(c, data);
    TerminatedIsLongest(data);
    TerminatedIsFixed(data);
  }

  lemma RepairDecides(c: Codec, data: Bytes)
    ensures Repaired(c, data).Ok? <==> exists chain :: Holds(c, data, chain)
    ensures forall chain :: Holds(c, data, chain) ==>
      Walk(c, Repairer, Lines(data), START) == Walked(CursorOf(chain), Verified)
  {
    WalkAccepts(c, Repairer, Lines(data), []);
    var d := Decoded(c, Repairer, Lines(data));
    if d.Some? {
      assert [] + d.value == d.value;
      if ValidChain(c, d.value) {
        assert Holds(c, data, d.value);
      }
    }
  }

  lemma ScanOfRepaired(c: Codec, data: Bytes, chain: seq<Event>)
    requires c.Json() && Holds(c, data, chain)
    ensures
      var w := Walk(c, Scanner, Tokens(Terminated(data)), START);
      && (w.verdict.Verified? <==> AllFit(Lines(data)))
      && (w.verdict.Verified? ==> w.at == CursorOf(chain))
  {
    TerminatedIsFixed(data);
    TokensAreLines(Terminated(data), 0);
    ScannerDecodesWhatRepairerDecodes(c, Lines(data));
    WalkAccepts(c, Scanner, Lines(data), []);
    assert [] + chain == chain;
  }

  /** After a successful repair the scanner, which reads the file with its own line
      splitting, accepts what is left if and only if every line fits its buffer, and
      then ends on the very hash and sequence number the repairer ended on. */
  lemma ScannerAgreesWithRepairer(c: Codec, data: Bytes)
    requires c.Json() && Repaired(c, data).Ok?
    ensures
      var scan := Walk(c, Scanner, Tokens(Repaired(c, data).value), START);
      && (scan.verdict.Verified? <==> AllFit(Lines(data)))
      && (scan.verdict.Verified? ==> scan.at == Walk(c, Repairer, Lines(data), START).at)
  {
    RepairDecides(c, data);
    var chain :| Holds(c, data, chain);
    ScanOfRepaired(c, data, chain);
  }

  /** Two files the scanner accepts with the same last hash hold the same records. */
  lemma SameHashSameRecords(c: Codec, a: Bytes, b: Bytes)
    requires c.Json() && c.Mac()
    requires Walk(c, Scanner, Tokens(a), START).verdict.Verified?
    requires Walk(c, Scanner, Tokens(b), START).verdict.Verified?
    requires Walk(c, Scanner, Tokens(a), START).at.last == Walk(c, Scanner, Tokens(b), START).at.last
    ensures Decoded(c, Scanner, Tokens(a)).Some?
    ensures Decoded(c, Scanner, Tokens(a)) == Decoded(c, Scanner, Tokens(b))
    ensures Walk(c, Scanner, Tokens(a), START).at == Walk(c, Scanner, Tokens(b), START).at
  {
    WalkAccepts(c, Scanner, Tokens(a), []);
    WalkAccepts(c, Scanner, Tokens(b), []);
    var ra, rb := Decoded(c, Scanner, Tokens(a)).value, Decoded(c, Scanner, Tokens(b)).value;
    assert [] + ra == ra && [] + rb == rb;
    LastHashPinsChain(c, ra, rb);
  }
}
