/** Newline framing: how a byte file divides into terminated lines and a tail. */
module AuditLines {
  import opened Prelude
  import opened AuditRecord

  ghost predicate NoNewlineIn(data: Bytes, i: nat, k: nat)
    requires i <= k <= |data|
  {
    forall j :: i <= j < k ==> data[j] != NL
  }

  /** Offset of the first newline at or after i, or the length when there is none. */
  ghost function NextNewline(data: Bytes, i: nat): (k: nat)
    requires i <= |data|
    ensures i <= k <= |data| && NoNewlineIn(data, i, k)
    ensures k < |data| ==> data[k] == NL
    decreases |data| - i
  {
    if i == |data| || data[i] == NL then i else NextNewline(data, i + 1)
  }

  lemma NextNewlineIs(data: Bytes, i: nat, k: nat)
    requires i <= k <= |data| && NoNewlineIn(data, i, k)
    requires k < |data| ==> data[k] == NL
    ensures NextNewline(data, i) == k
  {
  }

  /** The newline-terminated lines from offset i on, without their newlines. */
  ghost function LinesFrom(data: Bytes, i: nat): seq<Bytes>
    requires i <= |data|
    decreases |data| - i
  {
    var k := NextNewline(data, i);
    if k == |data| then [] else [data[i..k]] + LinesFrom(data, k + 1)
  }

  /** The offset just after the last newline at or after i, or i when there is none. */
  ghost function EndFrom(data: Bytes, i: nat): (end: nat)
    requires i <= |data|
    ensures i <= end <= |data|
    decreases |data| - i
  {
    var k := NextNewline(data, i);
    if k == |data| then i else EndFrom(data, k + 1)
  }

  ghost function Lines(data: Bytes): seq<Bytes> {
    LinesFrom(data, 0)
  }

  /** The newline-terminated part of a file. */
  ghost function Terminated(data: Bytes): Bytes {
    data[..EndFrom(data, 0)]
  }

  /** What follows the last newline. */
  ghost function Tail(data: Bytes): Bytes {
    data[EndFrom(data, 0)..]
  }

  /** Every line of the file is terminated. */
  ghost predicate Whole(data: Bytes) {
    EndFrom(data, 0) == |data|
  }

  ghost function Joined(lines: seq<Bytes>): Bytes {
    if lines == [] then [] else lines[0] + [NL] + Joined(lines[1..])
  }

  ghost predicate AllLines(lines: seq<Bytes>) {
    forall i :: 0 <= i < |lines| ==> NoNewline(lines[i])
  }

  lemma {:induction false} JoinedSplits(a: seq<Bytes>, b: seq<Bytes>)
    ensures Joined(a + b) == Joined(a) + Joined(b)
  {
    if a == [] {
      assert a + b == b;
    } else {
      assert (a + b)[1..] == a[1..] + b;
      JoinedSplits(a[1..], b);
    }
  }

  lemma Abut(data: Bytes, i: nat, k: nat, end: nat)
    requires i <= k < end <= |data| && data[k] == NL
    ensures data[i..k] + [NL] + data[k + 1..end] == data[i..end]
  {
  }

  lemma {:induction false} EndsAt(data: Bytes, i: nat)
    requires i <= |data|
    ensures NoNewlineIn(data, EndFrom(data, i), |data|)
    ensures EndFrom(data, i) == i || data[EndFrom(data, i) - 1] == NL
    ensures AllLines(LinesFrom(data, i))
    decreases |data| - i
  {
    var k := NextNewline(data, i);
    if k < |data| {
      EndsAt(data, k + 1);
      assert NoNewline(data[i..k]);
    }
  }

  lemma {:induction false} JoinedLines(data: Bytes, i: nat)
    requires i <= |data|
    ensures Joined(LinesFrom(data, i)) == data[i..EndFrom(data, i)]
    decreases |data| - i
  {
    var k := NextNewline(data, i);
    if k < |data| {
      JoinedLines(data, k + 1);
      assert LinesFrom(data, i)[1..] == LinesFrom(data, k + 1);
      Abut(data, i, k, EndFrom(data, i));
    }
  }

  /** Framing loses nothing. */
  lemma LinesThenTail(data: Bytes)
    ensures data == Terminated(data) + Tail(data)
    ensures Terminated(data) == Joined(Lines(data))
    ensures AllLines(Lines(data)) && NoNewline(Tail(data))
  {
    EndsAt(data, 0);
    JoinedLines(data, 0);
  }

  /** Reading back framed lines gives exactly those lines. */
  lemma {:induction false} LinesOfJoinedFrom(data: Bytes, i: nat, lines: seq<Bytes>)
    requires i <= |data| && AllLines(lines)
    requires i + |Joined(lines)| <= |data|
    requires data[i..i + |Joined(lines)|] == Joined(lines)
    requires NoNewlineIn(data, i + |Joined(lines)|, |data|)
    ensures LinesFrom(data, i) == lines
    ensures EndFrom(data, i) == i + |Joined(lines)|
    decreases |lines|
  {
    if lines == [] {
      NextNewlineIs(data, i, |data|);
    } else {
      var k, end := i + |lines[0]|, i + |Joined(lines)|;
      FirstFramed(data, i, lines[0], Joined(lines[1..]));
      assert forall j :: i <= j < k ==> data[j] == data[i..k][j - i];
      NextNewlineIs(data, i, k);
      LinesOfJoinedFrom(data, k + 1, lines[1..]);
      assert lines == [lines[0]] + lines[1..];
    }
  }

  lemma FirstFramed(data: Bytes, i: nat, line: Bytes, rest: Bytes)
    requires i + |line| + 1 + |rest| <= |data|
    requires data[i..i + |line| + 1 + |rest|] == line + [NL] + rest
    ensures
      var k := i + |line|;
      data[i..k] == line && data[k] == NL && data[k + 1..k + 1 + |rest|] == rest
  {
    var k := i + |line|;
    var all := data[i..k + 1 + |rest|];
    assert data[i..k] == all[..|line|] && data[k] == all[|line|];
    assert data[k + 1..k + 1 + |rest|] == all[|line| + 1..];
  }

  lemma LinesOfWhole(lines: seq<Bytes>)
    requires AllLines(lines)
    ensures Lines(Joined(lines)) == lines && Whole(Joined(lines))
  {
    LinesOfJoinedFrom(Joined(lines), 0, lines);
  }

  lemma LinesOfJoined(lines: seq<Bytes>, tail: Bytes)
    requires AllLines(lines) && NoNewline(tail)
    ensures Lines(Joined(lines) + tail) == lines
    ensures Terminated(Joined(lines) + tail) == Joined(lines)
  {
    LinesOfJoinedFrom(Joined(lines) + tail, 0, lines);
  }

  ghost predicate EndsInNewline(data: Bytes) {
    data == [] || data[|data| - 1] == NL
  }

  /** The terminated part is the longest prefix that ends in a newline. */
  lemma TerminatedIsLongest(data: Bytes)
    ensures Terminated(data) <= data && EndsInNewline(Terminated(data))
    ensures forall k :: 0 <= k <= |data| && EndsInNewline(data[..k]) ==> k <= |Terminated(data)|
  {
    EndsAt(data, 0);
  }

  lemma TerminatedIsFixed(data: Bytes)
    ensures Lines(Terminated(data)) == Lines(data) && Whole(Terminated(data))
  {
    LinesThenTail(data);
    LinesOfWhole(Lines(data));
  }

  /** Cutting framed lines at any byte keeps whole lines and part of the next one,
      and keeps at least those that lie wholly before the cut. */
  lemma {:induction false} CutFallsIn(lines: seq<Bytes>, cut: nat, m: nat) returns (n: nat, torn: Bytes)
    requires m <= |lines| && |Joined(lines[..m])| <= cut <= |Joined(lines)|
    ensures m <= n <= |lines|
    ensures Joined(lines)[..cut] == Joined(lines[..n]) + torn
    ensures torn == [] || (n < |lines| && torn <= lines[n])
    decreases |lines|
  {
    if lines == [] {
      n, torn := 0, [];
    } else {
      var rest := lines[1..];
      var first := |lines[0]| + 1;
      assert m > 0 ==> lines[..m][0] == lines[0] && lines[..m][1..] == rest[..m - 1];
      if cut < first {
        n, torn := 0, lines[0][..cut];
      } else {
        assert Joined(rest[..0]) == [];
        n, torn := CutFallsIn(rest, cut - first, if m == 0 then 0 else m - 1);
        CutOneMore(lines, cut, n, torn);
        n := n + 1;
      }
    }
  }

  lemma CutOneMore(lines: seq<Bytes>, cut: nat, n: nat, torn: Bytes)
    requires lines != [] && n < |lines|
    requires |lines[0]| < cut <= |Joined(lines)|
    requires Joined(lines[1..])[..cut - |lines[0]| - 1] == Joined(lines[1..][..n]) + torn
    ensures Joined(lines)[..cut] == Joined(lines[..n + 1]) + torn
  {
    var first := lines[0] + [NL];
    assert lines[..n + 1][1..] == lines[1..][..n];
    assert Joined(lines)[..cut] == first + Joined(lines[1..])[..cut - |first|];
    assert first + (Joined(lines[1..][..n]) + torn) == first + Joined(lines[1..][..n]) + torn;
  }

  lemma CutKeepsPrefix(lines: seq<Bytes>, cut: nat, m: nat) returns (n: nat)
    requires AllLines(lines)
    requires m <= |lines| && |Joined(lines[..m])| <= cut <= |Joined(lines)|
    ensures m <= n <= |lines|
    ensures Lines(Joined(lines)[..cut]) == lines[..n]
    ensures Terminated(Joined(lines)[..cut]) == Joined(lines[..n])
  {
    var torn;
    n, torn := CutFallsIn(lines, cut, m);
    assert torn != [] ==> NoNewline(lines[n]);
    LinesOfJoined(lines[..n], torn);
  }

  /** Cutting a file at any byte keeps a prefix of its lines. */
  lemma CutLines(data: Bytes, cut: nat) returns (n: nat)
    requires cut <= |data|
    ensures n <= |Lines(data)| && Lines(data[..cut]) == Lines(data)[..n]
  {
    LinesThenTail(data);
    var lines, whole := Lines(data), Terminated(data);
    if cut <= |whole| {
      assert data[..cut] == whole[..cut];
      assert Joined(lines[..0]) == [];
      n := CutKeepsPrefix(lines, cut, 0);
    } else {
      var torn := Tail(data)[..cut - |whole|];
      assert data[..cut] == whole + torn;
      LinesOfJoined(lines, torn);
      n := |lines|;
    }
  }
}
