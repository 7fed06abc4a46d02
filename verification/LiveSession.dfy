/**
 The agent's enforcement state for one live session: leases, downgrade deltas,
 revokes, the fail-closed lease timer, and the grant swapped in by a re-home.
 */
module LiveSession {
  import opened Prelude
  import opened Grants

  /** A signed message, with whether its signature verified under a trusted grant key. A
      delta carries its caps twice: inside the signed payload, and beside it on the wire.
      The code reads the ones on the wire. */
  datatype Message =
    | Lease(authentic: bool, sessionId: string, clientKey: Bytes, epoch: int, expiry: int)
    | Delta(authentic: bool, sessionId: string, clientKey: Bytes, epoch: int, expiry: int,
            signed: Option<Caps>, wire: Option<Caps>)
    | Revoke(authentic: bool, sessionId: string, clientKey: Bytes, epoch: int)

  /** live: still in the worker's table. torn: the conduit was cancelled. reaped: the
      host PTY was killed too. A deadline of None is the zero time. */
  datatype Session = Session(
    live: bool,
    torn: bool,
    reaped: bool,
    epoch: int,
    deadline: Option<int>,
    caps: Option<Caps>,
    grant: Grant,
    clientKey: Bytes)

  function Registered(g: Grant, graceDeadline: int): Session {
    Session(true, false, false, 0, Some(graceDeadline), None, g, g.clientNoisePub)
  }

  /** The message is signed, names this live session, and is bound to its client key. */
  predicate Bound(s: Session, m: Message) {
    m.authentic && s.live && m.sessionId == s.grant.id && m.clientKey == s.clientKey
  }

  /** The locked section of a lease. */
  function LeaseCommitted(s: Session, m: Message): Session
    requires m.Lease?
  {
    if m.epoch <= s.epoch then s else s.(epoch := m.epoch, deadline := Some(m.expiry))
  }

  datatype Gate = Stale | Refused | Cut | Pass

  /** The first locked section of a delta and the downgrade check that follows it. */
  function DeltaGate(s: Session, m: Message): Gate
    requires m.Delta?
  {
    if m.epoch <= s.epoch then Stale
    else
      match VerifyDowngrade(s.grant, m.wire)
      case Err(_) => Refused
      case Ok(c) => if c.allow then Pass else Cut
  }

  /** The second locked section of a delta, which checks the epoch again. */
  function DeltaCommitted(s: Session, m: Message): Session
    requires m.Delta?
  {
    if m.epoch <= s.epoch then s
    else s.(epoch := m.epoch, caps := m.wire,
            deadline := if m.expiry > 0 then Some(m.expiry) else s.deadline)
  }

  /** The message passes the tests ahead of a denial: a delta that cuts the session, or a
      revoke, which for a session no longer in the table needs the signature alone. */
  predicate Denies(s: Session, m: Message) {
    if m.Revoke? then
      m.authentic && m.sessionId == s.grant.id && (s.live ==> m.clientKey == s.clientKey && m.epoch > s.epoch)
    else m.Delta? && Bound(s, m) && DeltaGate(s, m).Cut?
  }

  /** A bound delta cuts the session exactly when it is newer and takes everything away; one
      that gets past the gate leaves something. */
  lemma GateMeans(s: Session, m: Message)
    requires m.Delta?
    ensures DeltaGate(s, m).Stale? <==> m.epoch <= s.epoch
    ensures DeltaGate(s, m).Cut? <==> m.epoch > s.epoch && m.wire.Some? && !m.wire.value.allow
    ensures DeltaGate(s, m).Pass? <==>
      m.epoch > s.epoch && m.wire.Some? && m.wire.value.allow && NoWider(m.wire.value, s.grant)
  {
    if m.wire.Some? {
      DowngradeMeansNoWider(s.grant, m.wire.value);
    }
  }

  /** An explicit denial: out of the table, host PTY killed, and the conduit torn if the
      session was still in the table. */
  function Denied(s: Session): Session {
    s.(live := false, torn := s.torn || s.live, reaped := true)
  }

  /** Lease starvation: out of the table and conduit torn, host PTY kept. */
  function Starved(s: Session): Session {
    s.(live := false, torn := true)
  }

  /** The timer callback goes on to tear unless the deadline still lies ahead. */
  predicate DeadlinePassed(s: Session, now: int) {
    !(s.deadline.Some? && now < s.deadline.value)
  }

  function Refreshed(s: Session, g: Grant): Session {
    s.(grant := g, clientKey := g.clientNoisePub)
  }

  class Live {
    var live: bool
    var torn: bool
    var reaped: bool
    var epoch: int
    var deadline: Option<int>
    var caps: Option<Caps>
    var grant: Grant
    var clientKey: Bytes

    ghost function View(): Session
      reads this
    {
      Session(live, torn, reaped, epoch, deadline, caps, grant, clientKey)
    }

    constructor (g: Grant, graceDeadline: int)
      ensures View() == Registered(g, graceDeadline)
    {
      live, torn, reaped := true, false, false;
      epoch, deadline, caps := 0, Some(graceDeadline), None;
      grant, clientKey := g, g.clientNoisePub;
    }

    method ApplyLease(m: Message)
      requires m.Lease?
      modifies this
      ensures View() == if Bound(old(View()), m) then LeaseCommitted(old(View()), m) else old(View())
      ensures View() != old(View()) ==> m.authentic && live && m.sessionId == grant.id && m.clientKey == clientKey
    {
      if !m.authentic || !live || m.sessionId != grant.id || m.clientKey != clientKey {
        return;
      }
      if m.epoch <= epoch {
        return;
      }
      epoch := m.epoch;
      deadline := Some(m.expiry);
    }

    method BeginDelta(m: Message) returns (gate: Gate)
      requires m.Delta?
      ensures gate == DeltaGate(View(), m)
    {
      if m.epoch <= epoch {
        return Stale;
      }
      match VerifyDowngrade(grant, m.wire) {
        case Err(_) => gate := Refused;
        case Ok(c) => gate := if !c.allow then Cut else Pass;
      }
    }

    method CommitDelta(m: Message)
      requires m.Delta?
      modifies this
      ensures View() == DeltaCommitted(old(View()), m)
    {
      if m.epoch <= epoch {
        return;
      }
      epoch := m.epoch;
      caps := m.wire;
      if m.expiry > 0 {
        deadline := Some(m.expiry);
      }
    }

    /** A delta run without interference: its two sections back to back. */
    method ApplyDelta(m: Message)
      requires m.Delta?
      modifies this
      ensures
        var s := old(View());
        View() ==
          if !Bound(s, m) then s
          else match DeltaGate(s, m)
               case Cut => Denied(s)
               case Pass => DeltaCommitted(s, m)
               case _ => s
      ensures
        var cut := m.epoch > old(epoch) && m.wire.Some? && !m.wire.value.allow;
        && (Bound(old(View()), m) && cut ==> !live && torn && reaped && epoch == old(epoch) && caps == old(caps))
        && (View() != old(View()) ==>
              m.authentic && old(live) && m.sessionId == old(grant).id && m.clientKey == old(clientKey))
        && (!(Bound(old(View()), m) && cut) ==> live == old(live) && torn == old(torn) && reaped == old(reaped))
    {
      if !m.authentic || !live || m.sessionId != grant.id || m.clientKey != clientKey {
        return;
      }
      var gate := BeginDelta(m);
      match gate {
        case Cut => RevokeLive();
        case Pass => CommitDelta(m);
        case _ =>
      }
    }

    method RevokeLive()
      modifies this
      ensures View() == Denied(old(View()))
    {
      if live {
        torn := true;
      }
      live, reaped := false, true;
    }

    /** A revoke for a live session must be bound and fresh; for a session no longer in
        the table the signature alone is enough to reap it. */
    method ApplyRevoke(m: Message)
      requires m.Revoke?
      modifies this
      ensures
        if m.authentic && m.sessionId == old(grant).id
           && (old(live) ==> m.clientKey == old(clientKey) && m.epoch > old(epoch))
        then !live && reaped && torn == (old(torn) || old(live)) && View() == Denied(old(View()))
        else View() == old(View())
      ensures Denies(old(View()), m) ==> View() == Denied(old(View()))
      ensures !Denies(old(View()), m) ==> View() == old(View())
    {
      if !m.authentic || m.sessionId != grant.id {
        return;
      }
      if live && (m.clientKey != clientKey || m.epoch <= epoch) {
        return;
      }
      RevokeLive();
    }

    /** The timer callback run without interference between its check and its tear. */
    method OnLeaseExpired(now: int)
      modifies this
      ensures
        if old(live) && (old(deadline).None? || old(deadline).value <= now)
        then !live && torn && reaped == old(reaped) && View() == Starved(old(View()))
        else View() == old(View())
    {
      if !live {
        return;
      }
      if deadline.Some? && now < deadline.value {
        return;
      }
      live, torn := false, true;
    }

    method RefreshLiveGrant(g: Grant)
      modifies this
      ensures View() == if old(live) then Refreshed(old(View()), g) else old(View())
      ensures old(live) ==> grant == g && clientKey == g.clientNoisePub
    {
      if live {
        grant, clientKey := g, g.clientNoisePub;
      }
    }
  }
}
