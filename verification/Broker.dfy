/** The controller's re-issue of a live session's grant after its relay is lost. */
module Broker {
  import opened Prelude
  import opened Grants

  datatype SessionState = Pending | Active | Detached | Ended | Revoked

  /** The stored session. The recorded grant scope is None when it is absent or does
      not decode. */
  datatype SessionRecord = SessionRecord(
    state: SessionState,
    nodeId: string,
    grantScope: Option<Grant>,
    detachable: bool,
    hostSessionId: string,
    nativeClient: bool,
    rehomeEpoch: int)

  datatype Reissued = Reissued(epoch: int, grant: Grant)

  datatype ReissueError = NoSession | NotRehomeable | NoScope | NodeUnavailable | NoRelay

  /** What the re-issue draws from outside the store. */
  datatype Fresh = Fresh(
    floor: seq<string>,
    candidates: seq<RelayCandidate>,
    token: string,
    now: int,
    ttl: int,
    p2p: bool)

  function Without(xs: seq<string>, dead: string): (r: seq<string>)
    ensures dead !in r
    ensures forall x :: x in r <==> x in xs && x != dead
  {
    if xs == [] then []
    else if xs[0] == dead then Without(xs[1..], dead)
    else [xs[0]] + Without(xs[1..], dead)
  }

  lemma {:induction false} WithoutSnoc(xs: seq<string>, x: string, dead: string)
    ensures Without(xs + [x], dead) == Without(xs, dead) + if x == dead then [] else [x]
  {
    if xs == [] {
      assert [] + [x] == [x] && [x][1..] == [];
    } else {
      assert (xs + [x])[1..] == xs[1..] + [x];
      WithoutSnoc(xs[1..], x, dead);
    }
  }

  function FloorWithout(floor: seq<string>, dead: string): (r: seq<string>)
    ensures dead != "" && dead in r ==> forall x :: x in floor ==> x == dead
    ensures r == [] <==> floor == []
  {
    if dead == "" || Without(floor, dead) == [] then
      assert dead != "" ==> forall x :: x in floor && x != dead ==> x in Without(floor, dead);
      floor
    else Without(floor, dead)
  }

  /** Drops one relay address from a floor, keeping order. The dead relay comes back
      only when the floor lists nothing else. */
  method ExcludeRelayAddr(floor: seq<string>, dead: string) returns (out: seq<string>)
    ensures out == FloorWithout(floor, dead)
  {
    if dead == "" {
      return floor;
    }
    out := [];
    for i := 0 to |floor|
      invariant out == Without(floor[..i], dead)
    {
      WithoutSnoc(floor[..i], floor[i], dead);
      assert floor[..i + 1] == floor[..i] + [floor[i]];
      if floor[i] != dead {
        out := out + [floor[i]];
      }
    }
    assert floor[..|floor|] == floor;
    if out == [] {
      return floor;
    }
  }

  function Survivors(cands: seq<RelayCandidate>, dead: string): (r: seq<RelayCandidate>)
    ensures forall x :: x in r <==> x in cands && x.relayId != dead
  {
    if cands == [] then []
    else if cands[0].relayId == dead then Survivors(cands[1..], dead)
    else [cands[0]] + Survivors(cands[1..], dead)
  }

  lemma {:induction false} SurvivorsSnoc(cands: seq<RelayCandidate>, x: RelayCandidate, dead: string)
    ensures Survivors(cands + [x], dead) == Survivors(cands, dead) + if x.relayId == dead then [] else [x]
  {
    if cands == [] {
      assert [] + [x] == [x] && [x][1..] == [];
    } else {
      assert (cands + [x])[1..] == cands[1..] + [x];
      SurvivorsSnoc(cands[1..], x, dead);
    }
  }

  function CandidatesWithout(cands: seq<RelayCandidate>, dead: string): seq<RelayCandidate> {
    if dead == "" then cands else Survivors(cands, dead)
  }

  method ExcludeRelayCandidate(cands: seq<RelayCandidate>, dead: string) returns (out: seq<RelayCandidate>)
    ensures out == CandidatesWithout(cands, dead)
  {
    if dead == "" {
      return cands;
    }
    out := [];
    for i := 0 to |cands|
      invariant out == Survivors(cands[..i], dead)
    {
      SurvivorsSnoc(cands[..i], cands[i], dead);
      assert cands[..i + 1] == cands[..i] + [cands[i]];
      if cands[i].relayId != dead {
        out := out + [cands[i]];
      }
    }
    assert cands[..|cands|] == cands;
  }

  /** One bump per generation: a request naming an epoch behind the record's is
      answered with the record's, any other advances it by one. */
  function NextEpoch(recorded: int, applied: int): int {
    if applied < recorded then recorded else recorded + 1
  }

  /** Why a session is not re-homed, before its record is touched. */
  function Refusal(sessions: map<string, SessionRecord>, nodes: map<string, Bytes>, id: string): Option<ReissueError> {
    if id !in sessions then Some(NoSession)
    else
      var rec := sessions[id];
      if !rec.state.Active? && !rec.state.Detached? then Some(NotRehomeable)
      else if rec.grantScope.None? then Some(NoScope)
      else if rec.nodeId !in nodes || |nodes[rec.nodeId]| != 32 then Some(NodeUnavailable)
      else None
  }

  /** A session in use, with a recorded scope and a node whose key is known. */
  predicate Rehomeable(sessions: map<string, SessionRecord>, nodes: map<string, Bytes>, id: string) {
    && id in sessions && sessions[id].state in {Active, Detached} && sessions[id].grantScope.Some?
    && sessions[id].nodeId in nodes && |nodes[sessions[id].nodeId]| == 32
  }

  /** Exactly the sessions in use are re-homed. One that has not begun, has ended or was
      revoked is refused whatever else is recorded, and each error has its own reason. */
  lemma RefusedExactly(sessions: map<string, SessionRecord>, nodes: map<string, Bytes>, id: string)
    ensures
      var r := Refusal(sessions, nodes, id);
      && (r.None? <==> Rehomeable(sessions, nodes, id))
      && (r == Some(NoSession) <==> id !in sessions)
      && (r == Some(NotRehomeable) <==> id in sessions && sessions[id].state in {Pending, Ended, Revoked})
      && (r == Some(NoScope) <==>
            id in sessions && sessions[id].state in {Active, Detached} && sessions[id].grantScope.None?)
      && (r == Some(NodeUnavailable) <==>
            && id in sessions && sessions[id].state in {Active, Detached} && sessions[id].grantScope.Some?
            && !Rehomeable(sessions, nodes, id))
      && r != Some(NoRelay)
  {
  }

  /** The grant a re-issue mints from the recorded one, onto a surviving floor. */
  function Minted(orig: Grant, rec: SessionRecord, key: Bytes, deadId: string, floor: seq<string>, env: Fresh): Grant
    requires floor != []
  {
    var attach := rec.detachable && rec.hostSessionId != "" && orig.action.Shell?;
    orig.(action := if attach then Attach else orig.action,
          attachId := if attach then rec.hostSessionId else orig.attachId,
          agentNoisePub := key,
          relayAddr := floor[0],
          relayFloor := floor,
          relayToken := env.token,
          relayCandidates := if env.p2p && rec.nativeClient then CandidatesWithout(env.candidates, deadId) else [],
          issuedAt := env.now,
          expiresAt := env.now + env.ttl)
  }

  /** What a re-issue that is not refused does to the record as it is at the bump: its
      epoch moves, whether or not a relay survives. If one does, a grant goes out, made
      from the record as it was seen when the request was checked. */
  function Reissue(
    rec: SessionRecord, seen: SessionRecord, key: Bytes, deadId: string, deadAddr: string, applied: int, env: Fresh)
    : (SessionRecord, Option<Reissued>)
    requires seen.grantScope.Some?
  {
    var epoch := NextEpoch(rec.rehomeEpoch, applied);
    var floor := FloorWithout(env.floor, deadAddr);
    (rec.(rehomeEpoch := epoch),
     if env.floor == [] then None
     else Some(Reissued(epoch, Minted(seen.grantScope.value, seen, key, deadId, floor, env))))
  }

  /** A re-issued grant keeps the recorded scope, so it implies the same capabilities,
      and it never points back at the dead relay while another one is known. */
  lemma MintedKeepsScope(orig: Grant, rec: SessionRecord, key: Bytes, deadId: string, deadAddr: string, env: Fresh)
    requires env.floor != []
    ensures
      var g := Minted(orig, rec, key, deadId, FloorWithout(env.floor, deadAddr), env);
      && SameScope(orig, g)
      && ImpliedCaps(g) == ImpliedCaps(orig)
      && (deadAddr != "" && (exists a :: a in env.floor && a != deadAddr) ==>
          g.relayAddr != deadAddr && deadAddr !in g.relayFloor)
      && (deadId != "" ==> forall k :: k in g.relayCandidates ==> k.relayId != deadId)
      && (forall k :: k in g.relayCandidates ==> k in env.candidates && env.p2p && rec.nativeClient)
      && (env.p2p && rec.nativeClient ==>
            forall k :: k in env.candidates && (deadId == "" || k.relayId != deadId) ==> k in g.relayCandidates)
      && g.relayAddr == g.relayFloor[0] && (forall a :: a in g.relayFloor ==> a in env.floor)
      && (forall a :: a in env.floor && a != deadAddr ==> a in g.relayFloor)
      && g.agentNoisePub == key && g.issuedAt == env.now && g.expiresAt - g.issuedAt == env.ttl
      && (orig.action.Shell? && rec.detachable && rec.hostSessionId != "" ==>
            g.action.Attach? && g.attachId == rec.hostSessionId)
      && (!(orig.action.Shell? && rec.detachable && rec.hostSessionId != "") ==>
            g.action == orig.action && g.attachId == orig.attachId)
  {
    var g := Minted(orig, rec, key, deadId, FloorWithout(env.floor, deadAddr), env);
    SameScopeSameCaps(orig, g);
    assert g.relayAddr in g.relayFloor;
  }

  /** Every grant a re-issue sends is rebuilt from the recorded scope, which the re-issue
      leaves as it is. */
  lemma ReissueKeepsScope(
    rec: SessionRecord, seen: SessionRecord, key: Bytes, deadId: string, deadAddr: string, applied: int, env: Fresh)
    requires seen.grantScope.Some?
    ensures
      var (after, out) := Reissue(rec, seen, key, deadId, deadAddr, applied, env);
      && after.grantScope == rec.grantScope
      && (out.Some? <==> env.floor != [])
      && (out.Some? ==> SameScope(seen.grantScope.value, out.value.grant) && out.value.epoch == after.rehomeEpoch)
  {
    if env.floor != [] {
      MintedKeepsScope(seen.grantScope.value, seen, key, deadId, deadAddr, env);
    }
  }

  /** A request that names an epoch behind the record's leaves the record alone but gets a
      fresh grant all the same; any other bumps the record, relay or no relay. Nothing is
      minted exactly when no relay is known. */
  lemma LateRequestMintsExactly(
    rec: SessionRecord, seen: SessionRecord, key: Bytes, deadId: string, deadAddr: string, applied: int, env: Fresh)
    requires seen.grantScope.Some?
    ensures
      var (after, out) := Reissue(rec, seen, key, deadId, deadAddr, applied, env);
      && (after == rec <==> applied < rec.rehomeEpoch)
      && (out.None? <==> env.floor == [])
      && (out.Some? ==> out.value.grant.relayToken == env.token && out.value.grant.issuedAt == env.now)
  {
  }

  /** Starts from the recorded scope and swaps only what a re-home re-mints. */
  method MintGrant(orig: Grant, rec: SessionRecord, key: Bytes, deadId: string, floor: seq<string>, env: Fresh)
    returns (g: Grant)
    requires floor != []
    ensures g == Minted(orig, rec, key, deadId, floor, env)
  {
    g := orig.(agentNoisePub := key, relayAddr := floor[0], relayFloor := floor, relayToken := env.token,
               issuedAt := env.now, expiresAt := env.now + env.ttl, relayCandidates := []);
    if rec.detachable && rec.hostSessionId != "" && g.action.Shell? {
      g := g.(action := Attach, attachId := rec.hostSessionId);
    }
    if env.p2p && rec.nativeClient {
      var cands := ExcludeRelayCandidate(env.candidates, deadId);
      g := g.(relayCandidates := cands);
    }
  }

  class Store {
    var sessions: map<string, SessionRecord>
    var nodes: map<string, Bytes>

    constructor ()
      ensures sessions == map[] && nodes == map[]
    {
      sessions, nodes := map[], map[];
    }

    /** The checks of a re-issue, which read the session and its node. */
    method CheckRehome(id: string) returns (r: Result<(SessionRecord, Bytes), ReissueError>)
      ensures
        match Refusal(sessions, nodes, id)
        case Some(err) => r == Err(err)
        case None => r == Ok((sessions[id], nodes[sessions[id].nodeId]))
      ensures r.Ok? <==> Rehomeable(sessions, nodes, id)
    {
      if id !in sessions {
        return Err(NoSession);
      }
      var rec := sessions[id];
      if !rec.state.Active? && !rec.state.Detached? {
        return Err(NotRehomeable);
      }
      if rec.grantScope.None? {
        return Err(NoScope);
      }
      if rec.nodeId !in nodes || |nodes[rec.nodeId]| != 32 {
        return Err(NodeUnavailable);
      }
      return Ok((rec, nodes[rec.nodeId]));
    }

    /** The bump and the mint, in a later transaction: the session may have changed since
        it was seen, or be gone. The store changes only in its re-home epoch. */
    method BumpAndMint(
      id: string, seen: SessionRecord, key: Bytes, deadId: string, deadAddr: string, applied: int, env: Fresh)
      returns (r: Result<Reissued, ReissueError>)
      requires seen.grantScope.Some?
      modifies this`sessions
      ensures
        if id !in old(sessions) then r == Err(NoSession) && sessions == old(sessions)
        else
          var (after, out) := Reissue(old(sessions)[id], seen, key, deadId, deadAddr, applied, env);
          && sessions == old(sessions)[id := after]
          && r == if out.None? then Err(NoRelay) else Ok(out.value)
    {
      if id !in sessions {
        return Err(NoSession);
      }
      var epoch := sessions[id].rehomeEpoch;
      if !(applied < epoch) {
        epoch := epoch + 1;
      }
      sessions := sessions[id := sessions[id].(rehomeEpoch := epoch)];
      var floor := ExcludeRelayAddr(env.floor, deadAddr);
      if floor == [] {
        return Err(NoRelay);
      }
      var g := MintGrant(seen.grantScope.value, seen, key, deadId, floor, env);
      return Ok(Reissued(epoch, g));
    }

    /** A whole re-issue when nothing comes in between. A refused session is left alone;
        otherwise the bump stays even when no relay survives. */
    method ReissueGrant(id: string, deadId: string, deadAddr: string, applied: int, env: Fresh)
      returns (r: Result<Reissued, ReissueError>)
      modifies this`sessions
      ensures
        match Refusal(old(sessions), nodes, id)
        case Some(err) => r == Err(err) && sessions == old(sessions)
        case None =>
          var rec := old(sessions)[id];
          var (after, out) := Reissue(rec, rec, nodes[rec.nodeId], deadId, deadAddr, applied, env);
          && sessions == old(sessions)[id := after]
          && r == if out.None? then Err(NoRelay) else Ok(out.value)
      ensures r.Ok? || sessions != old(sessions) ==> Rehomeable(old(sessions), nodes, id)
      ensures id in old(sessions) && old(sessions)[id].state in {Pending, Ended, Revoked} ==>
        r == Err(NotRehomeable) && sessions == old(sessions)
    {
      var checked := CheckRehome(id);
      match checked {
        case Err(err) => return Err(err);
        case Ok((seen, key)) => r := BumpAndMint(id, seen, key, deadId, deadAddr, applied, env);
      }
    }
  }
}
