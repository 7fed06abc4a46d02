/**
 The chained audit record: what one line of the log holds, how its keyed tag is
 computed, and what makes a sequence of records a valid chain.
 */
module AuditRecord {
  import opened Prelude

  datatype Event = Event(
    seqNo: int,
    ts: int,
    workspace: string,
    typ: string,
    actor: string,
    node: string,
    session: string,
    detail: map<string, string>,
    prev: string,
    hash: string)

  const NL: Byte := 10
  const CR: Byte := 13

  predicate NoNewline(s: Bytes) {
    forall i :: 0 <= i < |s| ==> s[i] != NL
  }

  /** The two foreign functions a chain depends on: the JSON codec of a record and
      the keyed MAC. Both are parameters of the model. */
  datatype Codec = Codec(
    marshal: Event -> Bytes,
    unmarshal: Bytes -> Option<Event>,
    hmac: Bytes -> string)
  {
    /** The tag covers the record with its own Hash field cleared. */
    function Tag(e: Event): string {
      hmac(marshal(e.(hash := "")))
    }

    /** JSON round-trips a record through one non-empty line that holds no newline
        and ends in no carriage return; a trailing carriage return is white space,
        and nothing is not a record. */
    ghost predicate Json() {
      && (forall e :: unmarshal(marshal(e)) == Some(e))
      && (forall e :: marshal(e) != [] && NoNewline(marshal(e)) && marshal(e)[|marshal(e)| - 1] != CR)
      && (forall l {:trigger unmarshal(l + [CR])} :: unmarshal(l + [CR]) == unmarshal(l))
      && unmarshal([]) == None
    }

    /** The MAC is injective and its hexadecimal text is never empty. */
    ghost predicate Mac() {
      && (forall a, b :: hmac(a) == hmac(b) ==> a == b)
      && (forall a :: hmac(a) != "")
    }
  }

  function LastHash(chain: seq<Event>): string {
    if chain == [] then "" else chain[|chain| - 1].hash
  }

  /** Record e extends a chain of n records whose last hash is prev. */
  predicate Links(c: Codec, prev: string, n: int, e: Event) {
    e.prev == prev && e.seqNo == n + 1 && e.hash == c.Tag(e)
  }

  /** The hash that precedes position i of a chain. */
  function HashBefore(chain: seq<Event>, i: nat): string
    requires i <= |chain|
  {
    if i == 0 then "" else chain[i - 1].hash
  }

  predicate LinkedAt(c: Codec, chain: seq<Event>, i: nat)
    requires i < |chain|
  {
    Links(c, HashBefore(chain, i), i, chain[i])
  }

  ghost predicate ValidChain(c: Codec, chain: seq<Event>) {
    forall i {:trigger LinkedAt(c, chain, i)} :: 0 <= i < |chain| ==> LinkedAt(c, chain, i)
  }

  lemma ValidChainPrefix(c: Codec, chain: seq<Event>, n: nat)
    requires ValidChain(c, chain) && n <= |chain|
    ensures ValidChain(c, chain[..n])
  {
    forall i | 0 <= i < n ensures LinkedAt(c, chain[..n], i) {
      assert LinkedAt(c, chain, i);
    }
  }

  lemma ValidChainExtend(c: Codec, chain: seq<Event>, e: Event)
    requires ValidChain(c, chain)
    ensures ValidChain(c, chain + [e]) <==> Links(c, LastHash(chain), |chain|, e)
  {
    var more := chain + [e];
    assert LinkedAt(c, more, |chain|) <==> Links(c, LastHash(chain), |chain|, e);
    forall i | 0 <= i < |chain| ensures LinkedAt(c, more, i) {
      assert LinkedAt(c, chain, i);
    }
  }

  lemma LastOfChain(c: Codec, chain: seq<Event>)
    requires ValidChain(c, chain) && chain != []
    ensures
      var n := |chain| - 1;
      Links(c, LastHash(chain[..n]), n, chain[n])
  {
    assert LinkedAt(c, chain, |chain| - 1);
  }

  lemma HashTellsEmpty(c: Codec, chain: seq<Event>)
    requires c.Mac() && ValidChain(c, chain)
    ensures LastHash(chain) == "" <==> chain == []
  {
    if chain != [] {
      LastOfChain(c, chain);
    }
  }

  /** The last hash of a valid chain determines every record in it. */
  lemma {:induction false} LastHashPinsChain(c: Codec, a: seq<Event>, b: seq<Event>)
    requires c.Json() && c.Mac()
    requires ValidChain(c, a) && ValidChain(c, b)
    requires LastHash(a) == LastHash(b)
    ensures a == b
    decreases |a|
  {
    HashTellsEmpty(c, a);
    HashTellsEmpty(c, b);
    if a != [] {
      var m, n := |a| - 1, |b| - 1;
      LastOfChain(c, a);
      LastOfChain(c, b);
      SameTagSameRecord(c, a[m], b[n]);
      ValidChainPrefix(c, a, m);
      ValidChainPrefix(c, b, n);
      LastHashPinsChain(c, a[..m], b[..n]);
      assert a == a[..m] + [a[m]] && b == b[..n] + [b[n]];
    }
  }

  lemma SameTagSameRecord(c: Codec, a: Event, b: Event)
    requires c.Json() && c.Mac()
    requires a.hash == c.Tag(a) && b.hash == c.Tag(b) && a.hash == b.hash
    ensures a == b
  {
    var ca, cb := a.(hash := ""), b.(hash := "");
    assert c.unmarshal(c.marshal(ca)) == Some(ca);
    assert c.unmarshal(c.marshal(cb)) == Some(cb);
    assert ca == cb;
    assert a == ca.(hash := a.hash) && b == cb.(hash := b.hash);
  }
}
