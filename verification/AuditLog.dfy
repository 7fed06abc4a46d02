/**
 The audit log itself: opening it against its sidecar checkpoint, appending to it,
 and verifying it, over one log file and one checkpoint file.
 */
module AuditLog {
  import opened Prelude
  import opened AuditRecord
  import opened AuditLines
  import opened AuditScan

  datatype Checkpoint = Checkpoint(seqNo: int, hash: string, count: int)

  /** The checkpoint file; it is replaced by rename, so it is never half written. */
  datatype Sidecar = Absent | Corrupt | Saved(chk: Checkpoint)

  datatype OpenError = BadLog(verdict: Verdict) | BadCheckpoint | LogTruncated | HashMismatch

  function CheckpointOf(at: Cursor): Sidecar {
    Saved(Checkpoint(at.seqNo, at.last, at.count))
  }

  /** The cross-check of a verified file against the checkpoint. */
  function CrossCheck(side: Sidecar, at: Cursor): Result<Cursor, OpenError> {
    match side
    case Absent => Ok(at)
    case Corrupt => Err(BadCheckpoint)
    case Saved(k) =>
      if k.seqNo > at.seqNo then Err(LogTruncated)
      else if k.seqNo == at.seqNo && k.hash != at.last then Err(HashMismatch)
      else Ok(at)
  }

  /** What opening a log decides. */
  ghost function Opened(c: Codec, data: Bytes, side: Sidecar): Result<Cursor, OpenError> {
    match Repaired(c, data)
    case Err(v) => Err(BadLog(v))
    case Ok(kept) =>
      var w := Walk(c, Scanner, Tokens(kept), START);
      if w.verdict.Verified? then CrossCheck(side, w.at) else Err(BadLog(w.verdict))
  }

  /** The checkpoint is behind the chain, or names its last record. */
  ghost predicate Agrees(side: Sidecar, chain: seq<Event>) {
    match side
    case Absent => true
    case Corrupt => false
    case Saved(k) => k.seqNo < |chain| || (k.seqNo == |chain| && k.hash == LastHash(chain))
  }

  lemma OpenedFor(c: Codec, data: Bytes, side: Sidecar, chain: seq<Event>)
    requires c.Json() && Holds(c, data, chain)
    ensures Opened(c, data, side).Ok? <==> AllFit(Lines(data)) && Agrees(side, chain)
    ensures Opened(c, data, side).Ok? ==> Opened(c, data, side) == Ok(CursorOf(chain))
    ensures AllFit(Lines(data)) && side.Saved? && side.chk.seqNo > |chain| ==>
      Opened(c, data, side) == Err(LogTruncated)
  {
    RepairDecides(c, data);
    ScanOfRepaired(c, data, chain);
  }

  /** Opening succeeds exactly when the terminated lines are a chain, each fits the
      scanner, and the checkpoint agrees; it then stands on the end of that chain. */
  lemma OpenedDecides(c: Codec, data: Bytes, side: Sidecar)
    requires c.Json()
    ensures Opened(c, data, side).Ok? <==>
      exists chain :: Holds(c, data, chain) && AllFit(Lines(data)) && Agrees(side, chain)
    ensures forall chain :: Holds(c, data, chain) && Opened(c, data, side).Ok? ==>
      && AllFit(Lines(data)) && Agrees(side, chain)
      && Opened(c, data, side) == Ok(CursorOf(chain))
  {
    RepairDecides(c, data);
    if chain :| Holds(c, data, chain) {
      OpenedFor(c, data, side, chain);
      assert forall other :: Holds(c, data, other) ==> other == chain;
    }
  }

  /** A file cut below its checkpoint never opens: whatever byte it is cut at, it
      opens only if every record survived the cut. */
  lemma CutBelowCheckpointIsRefused(c: Codec, data: Bytes, chain: seq<Event>, cut: nat, k: Checkpoint)
    requires c.Json() && Holds(c, data, chain) && cut <= |data|
    requires k.seqNo == |chain|
    requires Opened(c, data[..cut], Saved(k)).Ok?
    ensures Holds(c, data[..cut], chain) && k.hash == LastHash(chain)
  {
    OpenedDecides(c, data[..cut], Saved(k));
    var kept :| Holds(c, data[..cut], kept) && AllFit(Lines(data[..cut])) && Agrees(Saved(k), kept);
    var n := CutLines(data, cut);
    DecodedPrefix(c, Lines(data), n);
    assert kept == chain;
  }

  lemma {:induction false} DecodedPrefix(c: Codec, lines: seq<Bytes>, n: nat)
    requires n <= |lines| && Decoded(c, Repairer, lines).Some?
    ensures Decoded(c, Repairer, lines[..n]).Some?
    ensures Decoded(c, Repairer, lines[..n]).value <= Decoded(c, Repairer, lines).value
    decreases |lines|
  {
    if n > 0 {
      DecodedPrefix(c, lines[1..], n - 1);
      assert lines[..n][1..] == lines[1..][..n - 1];
    }
  }

  /** Tamper evidence: a log that opens against the checkpoint of an n-record chain
      either is longer than n records or holds exactly that chain. */
  lemma CheckpointPinsLog(c: Codec, original: seq<Event>, data: Bytes)
    requires c.Json() && c.Mac() && ValidChain(c, original)
    requires Opened(c, data, CheckpointOf(CursorOf(original))).Ok?
    ensures exists found ::
      && Holds(c, data, found)
      && Opened(c, data, CheckpointOf(CursorOf(original))) == Ok(CursorOf(found))
      && (|found| > |original| || found == original)
  {
    var side := CheckpointOf(CursorOf(original));
    OpenedDecides(c, data, side);
    var found :| Holds(c, data, found) && AllFit(Lines(data)) && Agrees(side, found);
    if |found| == |original| {
      LastHashPinsChain(c, found, original);
    }
  }

  /** The checkpoint of a chain names its last record and its length. */
  lemma CheckpointNames(chain: seq<Event>)
    ensures CheckpointOf(CursorOf(chain)) == Saved(Checkpoint(|chain|, LastHash(chain), |chain|))
  {
  }

  lemma {:induction false} DecodedSplits(c: Codec, how: Reader, a: seq<Bytes>, b: seq<Bytes>)
    requires Decoded(c, how, a).Some?
    ensures Decoded(c, how, a + b).Some? <==> Decoded(c, how, b).Some?
    ensures Decoded(c, how, b).Some? ==>
      Decoded(c, how, a + b).value == Decoded(c, how, a).value + Decoded(c, how, b).value
    decreases |a|
  {
    if a == [] {
      assert a + b == b;
    } else {
      assert (a + b)[1..] == a[1..] + b;
      DecodedSplits(c, how, a[1..], b);
    }
  }

  function LineOf(c: Codec, e: Event): Bytes {
    c.marshal(e) + [NL]
  }

  /** Appending one marshalled record to a terminated file adds one line. */
  lemma AppendedLine(c: Codec, data: Bytes, e: Event)
    requires c.Json() && Whole(data)
    ensures Lines(data + LineOf(c, e)) == Lines(data) + [c.marshal(e)]
    ensures Whole(data + LineOf(c, e))
  {
    var l := c.marshal(e);
    var lines := Lines(data) + [l];
    LinesThenTail(data);
    JoinedSplits(Lines(data), [l]);
    assert Joined([l]) == l + [NL] by {
      assert [l][1..] == [];
    }
    assert data[..|data|] == data;
    assert data + LineOf(c, e) == Joined(lines);
    assert AllLines(lines);
    LinesOfWhole(lines);
  }

  lemma AppendedRecord(c: Codec, data: Bytes, chain: seq<Event>, e: Event)
    requires c.Json() && Whole(data) && Decoded(c, Repairer, Lines(data)) == Some(chain)
    ensures Whole(data + LineOf(c, e))
    ensures Decoded(c, Repairer, Lines(data + LineOf(c, e))) == Some(chain + [e])
  {
    AppendedLine(c, data, e);
    var l := c.marshal(e);
    assert [l][1..] == [];
    assert c.unmarshal(l) == Some(e) && l != [];
    assert [e] + [] == [e] && Decoded(c, Repairer, [l][1..]) == Some([]);
    assert Decoded(c, Repairer, [l]) == Some([e]);
    DecodedSplits(c, Repairer, Lines(data), [l]);
  }

  /** A record longer than the scanner's buffer is appended without complaint, but
      the log holding it can no longer be opened. */
  lemma OversizedRecordBricksLog(c: Codec, data: Bytes, chain: seq<Event>, e: Event, side: Sidecar)
    requires c.Json() && Holds(c, data, chain) && Whole(data)
    requires Links(c, LastHash(chain), |chain|, e) && |c.marshal(e)| >= MAX_TOKEN
    ensures Holds(c, data + LineOf(c, e), chain + [e])
    ensures Opened(c, data + LineOf(c, e), side).Err?
  {
    AppendedRecord(c, data, chain, e);
    AppendedLine(c, data, e);
    ValidChainExtend(c, chain, e);
    OpenedDecides(c, data + LineOf(c, e), side);
    assert Lines(data + LineOf(c, e))[|Lines(data)|] == c.marshal(e);
  }

  /** Retrying inside the process after a failed fsync whose bytes did land writes a
      second record with the same sequence number: the log never opens again. */
  lemma RetryAfterFailedSyncBricksLog(c: Codec, data: Bytes, chain: seq<Event>, e: Event, again: Event, side: Sidecar)
    requires c.Json() && Holds(c, data, chain) && Whole(data)
    requires Links(c, LastHash(chain), |chain|, e) && Links(c, LastHash(chain), |chain|, again)
    ensures Opened(c, data + LineOf(c, e) + LineOf(c, again), side).Err?
  {
    AppendedRecord(c, data, chain, e);
    AppendedRecord(c, data + LineOf(c, e), chain + [e], again);
    ValidChainExtend(c, chain, e);
    ValidChainExtend(c, chain + [e], again);
    OpenedDecides(c, data + LineOf(c, e) + LineOf(c, again), side);
  }

  // ---------------------------------------------------------------------------
  // The open log as an object over its two files.

  class Disk {
    var file: Bytes
    var side: Sidecar

    constructor (file: Bytes, side: Sidecar)
      ensures this.file == file && this.side == side
    {
      this.file, this.side := file, side;
    }
  }

  /** How far the file operations of one append got. */
  datatype AppendIo = AllDone | WriteFails(written: nat) | SyncFails | CheckpointFails

  /** The verdict of a whole-chain verification: records seen, and whether it passed. */
  datatype Checked = Checked(count: nat, ok: bool)

  datatype Cached = Cached(at: int, verdict: Checked)

  const VERIFY_CACHE_TTL := 30_000_000_000

  /** What a rescan of the files reports. The checkpoint counts only where one is
      configured, and an unreadable one is passed over. */
  ghost function Rescan(c: Codec, checkpointed: bool, data: Bytes, side: Sidecar): Checked {
    var w := Walk(c, Scanner, Tokens(data), START);
    Checked(w.at.count,
            w.verdict.Verified? && !(checkpointed && side.Saved? && side.chk.seqNo > w.at.seqNo))
  }

  /** The scanner's tokens fit, decode to these records, and the records are a chain. */
  ghost predicate Scans(c: Codec, tokens: seq<Bytes>, chain: seq<Event>) {
    AllFit(tokens) && Decoded(c, Scanner, tokens) == Some(chain) && ValidChain(c, chain)
  }

  lemma ScansWalks(c: Codec, tokens: seq<Bytes>)
    ensures
      var w := Walk(c, Scanner, tokens, START);
      && (w.verdict.Verified? <==> exists chain :: Scans(c, tokens, chain))
      && (forall chain :: Scans(c, tokens, chain) ==> w.verdict.Verified? && w.at == CursorOf(chain))
  {
    WalkAccepts(c, Scanner, tokens, []);
    var d := Decoded(c, Scanner, tokens);
    if d.Some? {
      assert [] + d.value == d.value;
      assert Walk(c, Scanner, tokens, START).verdict.Verified? ==> Scans(c, tokens, d.value);
    }
  }

  /** A walk that fails stops at a first line: the lines before it pass and leave the
      cursor where the walk stopped, and with it they do not. */
  lemma {:induction false} WalkStops(c: Codec, raws: seq<Bytes>, at: Cursor) returns (n: nat)
    requires !Walk(c, Scanner, raws, at).verdict.Verified?
    ensures n < |raws| && Walk(c, Scanner, raws[..n], at) == Walked(Walk(c, Scanner, raws, at).at, Verified)
    ensures !Walk(c, Scanner, raws[..n + 1], at).verdict.Verified?
    decreases |raws|
  {
    var first := Visit(c, Scanner, raws[0], at);
    if first.Err? {
      n := 0;
    } else {
      n := WalkStops(c, raws[1..], first.value);
      assert raws[..n + 1][1..] == raws[1..][..n] && raws[..n + 2][1..] == raws[1..][..n + 1];
      n := n + 1;
    }
  }

  ghost predicate Scannable(c: Codec, tokens: seq<Bytes>) {
    exists chain :: Scans(c, tokens, chain)
  }

  /** The first n tokens are these records, and with the next one they are no chain. */
  ghost predicate StopsAt(c: Codec, tokens: seq<Bytes>, n: nat, chain: seq<Event>) {
    n < |tokens| && Scans(c, tokens[..n], chain) && !Scannable(c, tokens[..n + 1])
  }

  /** A configured checkpoint that can be read counts no more than these records. */
  predicate NotOutnumbered(checkpointed: bool, side: Sidecar, chain: seq<Event>) {
    checkpointed && side.Saved? ==> side.chk.seqNo <= |chain|
  }

  /** Verification passes exactly when the file's tokens fit and decode to a chain that a
      readable configured checkpoint does not outnumber. It then counts that chain. On a
      bad line it counts the records ahead of the first one; a file that scans but is
      outnumbered is counted whole. */
  lemma RescanDecides(c: Codec, checkpointed: bool, data: Bytes, side: Sidecar)
    ensures
      var r := Rescan(c, checkpointed, data, side);
      && (r.ok ==> Scannable(c, Tokens(data)))
      && (forall chain :: Scans(c, Tokens(data), chain) ==>
            r.count == |chain| && (r.ok <==> NotOutnumbered(checkpointed, side, chain)))
      && (!Scannable(c, Tokens(data)) ==>
            exists n: nat, chain :: StopsAt(c, Tokens(data), n, chain) && r.count == |chain|)
  {
    ScansWalks(c, Tokens(data));
    if !Scannable(c, Tokens(data)) {
      var n := WalkStops(c, Tokens(data), START);
      ScansWalks(c, Tokens(data)[..n]);
      ScansWalks(c, Tokens(data)[..n + 1]);
      var chain :| Scans(c, Tokens(data)[..n], chain);
      assert StopsAt(c, Tokens(data), n, chain);
    }
  }

  /** A log cut at any byte passes verification against its checkpoint only if at most the
      last line was torn and what is left of it still reads as a record. A log cut between
      two lines passes only whole. */
  lemma CutBelowCheckpointFailsVerify(c: Codec, data: Bytes, chain: seq<Event>, cut: nat, k: Checkpoint)
    returns (m: nat, found: seq<Event>)
    requires c.Json() && Holds(c, data, chain) && cut <= |data| && k.seqNo == |chain|
    requires Rescan(c, true, data[..cut], Saved(k)).ok
    ensures m <= |chain| <= m + 1 && Holds(c, data[..cut], chain[..m])
    ensures Scans(c, Tokens(data[..cut]), found) && |chain| <= |found| && chain[..m] <= found
    ensures Whole(data[..cut]) ==> found == chain && Holds(c, data[..cut], chain)
  {
    var left := data[..cut];
    m := RecordsLeft(c, data, chain, cut);
    RescanDecides(c, true, left, Saved(k));
    found :| Scans(c, Tokens(left), found);
    ScansPast(c, left, chain[..m], found);
  }

  /** A cut leaves a log of the first records. */
  lemma RecordsLeft(c: Codec, data: Bytes, chain: seq<Event>, cut: nat) returns (m: nat)
    requires Holds(c, data, chain) && cut <= |data|
    ensures m <= |chain| && Holds(c, data[..cut], chain[..m])
  {
    var n := CutLines(data, cut);
    DecodedPrefix(c, Lines(data), n);
    var kept := Decoded(c, Repairer, Lines(data[..cut])).value;
    m := |kept|;
    assert kept == chain[..m];
    ValidChainPrefix(c, chain, m);
  }

  /** What the scanner reads beyond the terminated lines is one record at most. */
  lemma ScansPast(c: Codec, data: Bytes, kept: seq<Event>, found: seq<Event>)
    requires c.Json() && Holds(c, data, kept) && Scans(c, Tokens(data), found)
    ensures kept <= found && |found| <= |kept| + 1 && (Whole(data) ==> found == kept)
  {
    ScannerDecodesWhatRepairerDecodes(c, Lines(data));
    TokensThenTail(data, 0);
    var tail := TailToken(data, 0);
    DecodedSplits(c, Scanner, Lines(data), tail);
    AtMostOne(c, tail);
  }

  lemma AtMostOne(c: Codec, tail: seq<Bytes>)
    requires |tail| <= 1 && Decoded(c, Scanner, tail).Some?
    ensures |Decoded(c, Scanner, tail).value| <= |tail|
  {
    if tail != [] {
      assert tail[1..] == [];
    }
  }

  class Audit {
    const c: Codec
    const disk: Disk
    const checkpointed: bool
    var last: string
    var seqNo: int
    var count: nat
    var cached: Option<Cached>
    ghost var chain: seq<Event>
    ghost var scannedFile: Bytes
    ghost var scannedSide: Sidecar

    ghost predicate Valid()
      reads this, disk
    {
      && c.Json()
      && Holds(c, disk.file, chain) && Whole(disk.file)
      && Cursor(last, seqNo, count) == CursorOf(chain)
    }

    /** A cached verdict is the rescan of the files as they were when it was taken,
        whatever has been done to them since. */
    ghost predicate CacheOk()
      reads this
    {
      cached.Some? ==> cached.value.verdict == Rescan(c, checkpointed, scannedFile, scannedSide)
    }

    constructor (c: Codec, disk: Disk, checkpointed: bool, at: Cursor, ghost chain: seq<Event>)
      requires c.Json() && Holds(c, disk.file, chain) && Whole(disk.file) && at == CursorOf(chain)
      ensures Valid() && this.disk == disk && this.c == c && this.checkpointed == checkpointed
      ensures this.chain == chain && Cursor(last, seqNo, count) == at && cached == None && CacheOk()
    {
      this.c, this.disk, this.checkpointed := c, disk, checkpointed;
      last, seqNo, count := at.last, at.seqNo, at.count;
      cached := None;
      this.chain := chain;
    }

    /** Extends the chain by one record. On success the record is the last line of the
        file and the checkpoint names it; on a failed checkpoint the record is kept; on
        a failed write or sync the memory state stays and the file is left as it fell. */
    method AppendWS(ws: string, typ: string, actor: string, node: string, session: string,
                    detail: map<string, string>, ts: int, io: AppendIo)
      returns (ok: bool)
      requires Valid()
      modifies this, disk
      ensures ok <==> io.AllDone? || (io.CheckpointFails? && !checkpointed)
      ensures cached == None
      ensures
        var e0 := Event(old(seqNo) + 1, ts, ws, typ, actor, node, session, detail, old(last), "");
        var e := e0.(hash := c.Tag(e0));
        && (io.AllDone? || io.CheckpointFails? ==>
            && Valid() && chain == old(chain) + [e]
            && disk.file == old(disk.file) + LineOf(c, e))
        && (io.WriteFails? || io.SyncFails? ==>
            && chain == old(chain) && last == old(last) && seqNo == old(seqNo) && count == old(count)
            && old(disk.file) <= disk.file <= old(disk.file) + LineOf(c, e)
            && (io.SyncFails? ==> disk.file == old(disk.file) + LineOf(c, e)))
      ensures disk.side ==
        if ok && checkpointed then Saved(Checkpoint(|chain|, LastHash(chain), |chain|)) else old(disk.side)
    {
      cached := None;
      var e := Event(seqNo + 1, ts, ws, typ, actor, node, session, detail, last, "");
      e := e.(hash := c.Tag(e));
      assert Links(c, LastHash(chain), |chain|, e) by {
        assert e.(hash := "") == Event(seqNo + 1, ts, ws, typ, actor, node, session, detail, last, "");
      }
      var line := c.marshal(e) + [NL];
      if io.WriteFails? {
        var k := if io.written < |line| then io.written else |line|;
        disk.file := disk.file + line[..k];
        return false;
      }
      AppendedRecord(c, disk.file, chain, e);
      ValidChainExtend(c, chain, e);
      disk.file := disk.file + line;
      if io.SyncFails? {
        return false;
      }
      last, seqNo, count := e.hash, e.seqNo, count + 1;
      chain := chain + [e];
      if checkpointed {
        if io.CheckpointFails? {
          return false;
        }
        disk.side := CheckpointOf(Cursor(last, seqNo, count));
      }
      return true;
    }

    /** Rescans the file and cross-checks the checkpoint. */
    method Verify() returns (r: Checked)
      ensures r == Rescan(c, checkpointed, disk.file, disk.side)
      ensures r.ok ==> Scannable(c, Tokens(disk.file))
      ensures forall records :: Scans(c, Tokens(disk.file), records) ==>
        r.count == |records| && (r.ok <==> NotOutnumbered(checkpointed, disk.side, records))
    {
      RescanDecides(c, checkpointed, disk.file, disk.side);
      var w := ScanAuditFile(c, disk.file);
      r := Checked(w.at.count, w.verdict.Verified?);
      if w.verdict.Verified? && checkpointed && disk.side.Saved? && disk.side.chk.seqNo > w.at.seqNo {
        r := r.(ok := false);
      }
    }

    /** Within the time to live the verdict is the rescan of the files as they were at the
        last scan; after it, or after an append, it is a rescan of the files now. The two
        are one while nothing has touched the files in between. */
    method VerifyCached(now: int) returns (r: Checked)
      requires CacheOk()
      modifies this`cached, this`scannedFile, this`scannedSide
      ensures CacheOk() && cached.Some? && cached.value.verdict == r
      ensures r == Rescan(c, checkpointed, scannedFile, scannedSide)
      ensures now - cached.value.at < VERIFY_CACHE_TTL
      ensures
        if old(cached).Some? && now - old(cached).value.at < VERIFY_CACHE_TTL
        then cached == old(cached) && scannedFile == old(scannedFile) && scannedSide == old(scannedSide)
        else cached.value.at == now && scannedFile == disk.file && scannedSide == disk.side
    {
      if cached.Some? && now - cached.value.at < VERIFY_CACHE_TTL {
        return cached.value.verdict;
      }
      r := Verify();
      cached := Some(Cached(now, r));
      scannedFile, scannedSide := disk.file, disk.side;
    }
  }

  /** Opens the log: repair, verify, cross-check, then rewrite the checkpoint. A log
      that does not open loses at most its torn tail. */
  method OpenAudit(c: Codec, disk: Disk, checkpointed: bool, saves: bool)
    returns (r: Result<Audit, OpenError>)
    requires c.Json()
    modifies disk
    ensures
      var side := if checkpointed then old(disk.side) else Absent;
      match r
      case Err(err) =>
        && Opened(c, old(disk.file), side) == Err(err) && disk.side == old(disk.side)
        && (disk.file == old(disk.file) || disk.file == Terminated(old(disk.file)))
      case Ok(a) =>
        && fresh(a) && a.Valid() && a.disk == disk && a.checkpointed == checkpointed
        && Holds(c, old(disk.file), a.chain)
        && Opened(c, old(disk.file), side) == Ok(CursorOf(a.chain))
        && disk.file == Terminated(old(disk.file))
        && disk.side == (if checkpointed && saves then Saved(Checkpoint(|a.chain|, LastHash(a.chain), |a.chain|))
                         else old(disk.side))
  {
    ghost var data := disk.file;
    var repaired := RepairTornTail(c, disk.file);
    match repaired {
      case Err(v) => return Err(BadLog(v));
      case Ok(kept) => disk.file := kept;
    }
    var w := ScanAuditFile(c, disk.file);
    if !w.verdict.Verified? {
      return Err(BadLog(w.verdict));
    }
    var side := if checkpointed then disk.side else Absent;
    var checked := CrossCheck(side, w.at);
    if checked.Err? {
      return Err(checked.error);
    }
    OpenedDecides(c, data, side);
    ghost var chain :| Holds(c, data, chain) && AllFit(Lines(data)) && Agrees(side, chain);
    TerminatedIsFixed(data);
    var a := new Audit(c, disk, checkpointed, w.at, chain);
    if checkpointed && saves {
      disk.side := CheckpointOf(w.at);
    }
    r := Ok(a);
  }
}
