/**
 Every interleaving of lease, delta, revoke, timer and re-home steps on one session.
 A delta's two locked sections and a timer callback's check and tear are separate
 steps, so anything may happen between them; messages may repeat and come in any order.
 */
module LiveSessionRuns {
  import opened Prelude
  import opened Grants
  import opened Broker
  import opened LiveSession

  /** A committed message: its epoch, the caps a delta carried on the wire and those it
      was signed with, and the deadline it set. */
  datatype Committed = Committed(epoch: int, caps: Option<Caps>, signed: Option<Caps>, expiry: Option<int>)

  /** orig is the grant scope recorded for the session; admitted are the leases
      past their binding test and the deltas past their first section; denials are the
      revokes and cutting deltas past their tests; expiring counts callbacks past their
      check; grace is the deadline armed at registration. */
  datatype World = World(
    s: Session,
    orig: Grant,
    grace: int,
    now: int,
    log: seq<Committed>,
    admitted: set<Message>,
    denials: set<Message>,
    expiring: nat)

  ghost predicate Init(w: World) {
    && w.s == Registered(Clamped(w.orig), w.grace)
    && w.log == [] && w.admitted == {} && w.denials == {} && w.expiring == 0
  }

  /** Rehome installs a grant the controller re-issued from the session's record.
      A denial is tested in one section and carried out in another. */
  datatype Step =
    | AdmitLease(m: Message)
    | CommitLease(m: Message)
    | AdmitDelta(m: Message)
    | CommitDelta(m: Message)
    | AdmitDenial(m: Message)
    | Deny(m: Message)
    | CheckTimer
    | TearTimer
    | Rehome(seen: SessionRecord, key: Bytes, deadId: string, deadAddr: string, env: Fresh)
    | Unregister
    | Tick(to: int)

  /** The re-issued grant as the agent's offer gate lets it through. */
  function Rehomed(seen: SessionRecord, key: Bytes, deadId: string, deadAddr: string, env: Fresh): Grant
    requires seen.grantScope.Some? && env.floor != []
  {
    Clamped(Minted(seen.grantScope.value, seen, key, deadId, FloorWithout(env.floor, deadAddr), env))
  }

  ghost predicate Enabled(w: World, step: Step) {
    match step
    case AdmitLease(m) => m.Lease? && Bound(w.s, m)
    case CommitLease(m) => m in w.admitted && m.Lease?
    case AdmitDelta(m) => m.Delta? && Bound(w.s, m) && DeltaGate(w.s, m).Pass?
    case CommitDelta(m) => m in w.admitted && m.Delta?
    case AdmitDenial(m) => Denies(w.s, m)
    case Deny(m) => m in w.denials
    case CheckTimer => true
    case TearTimer => w.expiring > 0
    case Rehome(seen, _, _, _, env) => seen.grantScope == Some(w.orig) && env.floor != []
    case Unregister => true
    case Tick(to) => w.now <= to
  }

  function LogOf(m: Message): Committed
    requires m.Lease? || m.Delta?
  {
    if m.Lease? then Committed(m.epoch, None, None, Some(m.expiry))
    else Committed(m.epoch, m.wire, m.signed, if m.expiry > 0 then Some(m.expiry) else None)
  }

  function Appended(w: World, m: Message): seq<Committed>
    requires m.Lease? || m.Delta?
  {
    if m.epoch <= w.s.epoch then w.log else w.log + [LogOf(m)]
  }

  ghost function After(w: World, step: Step): World
    requires Enabled(w, step)
  {
    match step
    case AdmitLease(m) => w.(admitted := w.admitted + {m})
    case CommitLease(m) =>
      w.(s := LeaseCommitted(w.s, m), log := Appended(w, m), admitted := w.admitted - {m})
    case AdmitDelta(m) => w.(admitted := w.admitted + {m})
    case CommitDelta(m) =>
      w.(s := DeltaCommitted(w.s, m), log := Appended(w, m), admitted := w.admitted - {m})
    case AdmitDenial(m) => w.(denials := w.denials + {m})
    case Deny(m) => w.(s := Denied(w.s), denials := w.denials - {m})
    case CheckTimer => if w.s.live && DeadlinePassed(w.s, w.now) then w.(expiring := w.expiring + 1) else w
    case TearTimer => w.(s := Starved(w.s), expiring := w.expiring - 1)
    case Rehome(seen, key, deadId, deadAddr, env) =>
      if w.s.live then w.(s := Refreshed(w.s, Rehomed(seen, key, deadId, deadAddr, env))) else w
    case Unregister => w.(s := w.s.(live := false))
    case Tick(to) => w.(now := to)
  }

  ghost predicate StepAt(run: seq<World>, steps: seq<Step>, i: nat)
    requires i < |steps| && |run| == |steps| + 1
  {
    Enabled(run[i], steps[i]) && run[i + 1] == After(run[i], steps[i])
  }

  ghost predicate Run(run: seq<World>, steps: seq<Step>) {
    && |run| == |steps| + 1 && Init(run[0])
    && forall i: nat {:trigger StepAt(run, steps, i)} :: i < |steps| ==> StepAt(run, steps, i)
  }

  // ---------------------------------------------------------------------------
  // The invariant.

  ghost predicate Increasing(log: seq<Committed>) {
    forall i, j :: 0 <= i < j < |log| ==> log[i].epoch < log[j].epoch
  }

  ghost predicate EpochOk(w: World) {
    && Increasing(w.log)
    && (forall i :: 0 <= i < |w.log| ==> w.log[i].epoch <= w.s.epoch)
    && (w.log != [] ==> w.s.epoch == w.log[|w.log| - 1].epoch)
  }

  /** Entry i is the committed delta with the highest epoch. */
  ghost predicate HighestDelta(log: seq<Committed>, i: nat) {
    && i < |log| && log[i].caps.Some?
    && forall j :: 0 <= j < |log| && log[j].caps.Some? ==> log[j].epoch <= log[i].epoch
  }

  /** Entry i is the committed message with the highest epoch that carried a deadline. */
  ghost predicate HighestDeadline(log: seq<Committed>, i: nat) {
    && i < |log| && log[i].expiry.Some?
    && forall j :: 0 <= j < |log| && log[j].expiry.Some? ==> log[j].epoch <= log[i].epoch
  }

  ghost predicate CapsOk(w: World) {
    if w.s.caps.None? then forall j :: 0 <= j < |w.log| ==> w.log[j].caps.None?
    else exists i: nat :: HighestDelta(w.log, i) && w.log[i].caps == w.s.caps
  }

  ghost predicate DeadlineOk(w: World) {
    || (w.s.deadline == Some(w.grace) && forall j :: 0 <= j < |w.log| ==> w.log[j].expiry.None?)
    || (exists i: nat :: HighestDeadline(w.log, i) && w.log[i].expiry == w.s.deadline)
  }

  ghost predicate Narrow(m: Message, g: Grant) {
    m.Delta? && m.wire.Some? && m.wire.value.allow && NoWider(m.wire.value, g)
  }

  /** A lease or delta whose signature verified, for this session and client key. */
  ghost predicate SignedFor(m: Message, orig: Grant) {
    (m.Lease? || m.Delta?) && m.authentic && m.sessionId == orig.id && m.clientKey == orig.clientNoisePub
  }

  ghost predicate FromSigned(e: Committed, orig: Grant) {
    exists m :: SignedFor(m, orig) && LogOf(m) == e
  }

  ghost predicate OriginOk(w: World) {
    && (forall m :: m in w.admitted ==> SignedFor(m, w.orig))
    && forall j :: 0 <= j < |w.log| ==> FromSigned(w.log[j], w.orig)
  }

  ghost predicate ScopeOk(w: World) {
    && SameScope(w.orig, w.s.grant) && w.s.clientKey == w.orig.clientNoisePub
    && (forall m :: m in w.admitted && m.Delta? ==> Narrow(m, w.orig))
    && (w.s.caps.Some? ==> NoWider(w.s.caps.value, w.orig))
  }

  /** A revoke of this session, or a delta of it that takes everything away, whose
      signature verified. */
  ghost predicate SignedDenial(m: Message, orig: Grant) {
    && m.authentic && m.sessionId == orig.id
    && (m.Revoke? || (m.Delta? && m.wire.Some? && !m.wire.value.allow))
  }

  ghost predicate DenialsOk(w: World) {
    forall m :: m in w.denials ==> SignedDenial(m, w.orig)
  }

  ghost predicate Inv(w: World) {
    EpochOk(w) && CapsOk(w) && DeadlineOk(w) && ScopeOk(w) && OriginOk(w) && DenialsOk(w)
  }

  lemma Extend(w: World, m: Message)
    requires EpochOk(w) && (m.Lease? || m.Delta?) && m.epoch > w.s.epoch
    ensures EpochOk(w.(s := w.s.(epoch := m.epoch), log := w.log + [LogOf(m)]))
  {
  }

  /** A committed entry is the highest of its kind the moment it is committed. */
  lemma NewestIsHighest(w: World, m: Message)
    requires EpochOk(w) && (m.Lease? || m.Delta?) && m.epoch > w.s.epoch
    ensures LogOf(m).caps.Some? ==> HighestDelta(w.log + [LogOf(m)], |w.log|)
    ensures LogOf(m).expiry.Some? ==> HighestDeadline(w.log + [LogOf(m)], |w.log|)
  {
  }

  lemma HighestStays(log: seq<Committed>, e: Committed, i: nat)
    ensures e.caps.None? && HighestDelta(log, i) ==> HighestDelta(log + [e], i)
    ensures e.expiry.None? && HighestDeadline(log, i) ==> HighestDeadline(log + [e], i)
  {
  }

  lemma CommitKeepsCaps(w: World, v: World, m: Message)
    requires EpochOk(w) && CapsOk(w) && (m.Lease? || m.Delta?) && m.epoch > w.s.epoch
    requires v.log == w.log + [LogOf(m)]
    requires v.s.caps == if m.Lease? then w.s.caps else m.wire
    requires m.Delta? ==> m.wire.Some?
    ensures CapsOk(v)
  {
    if m.Delta? {
      NewestIsHighest(w, m);
      assert v.log[|w.log|] == LogOf(m);
    } else if w.s.caps.Some? {
      var i: nat :| HighestDelta(w.log, i) && w.log[i].caps == w.s.caps;
      HighestStays(w.log, LogOf(m), i);
      assert v.log[i] == w.log[i];
    }
  }

  lemma CommitKeepsDeadline(w: World, v: World, m: Message)
    requires EpochOk(w) && DeadlineOk(w) && (m.Lease? || m.Delta?) && m.epoch > w.s.epoch
    requires v.log == w.log + [LogOf(m)] && v.grace == w.grace
    requires v.s.deadline == if LogOf(m).expiry.Some? then LogOf(m).expiry else w.s.deadline
    ensures DeadlineOk(v)
  {
    if LogOf(m).expiry.Some? {
      NewestIsHighest(w, m);
      assert v.log[|w.log|] == LogOf(m);
    } else if i: nat :| HighestDeadline(w.log, i) && w.log[i].expiry == w.s.deadline {
      HighestStays(w.log, LogOf(m), i);
      assert v.log[i] == w.log[i];
    }
  }

  lemma CommitKeeps(w: World, m: Message)
    requires Inv(w) && (Enabled(w, CommitLease(m)) || Enabled(w, CommitDelta(m)))
    ensures Inv(After(w, if m.Lease? then CommitLease(m) else CommitDelta(m)))
  {
    var v := After(w, if m.Lease? then CommitLease(m) else CommitDelta(m));
    if m.epoch > w.s.epoch {
      Extend(w, m);
      CommitKeepsCaps(w, v, m);
      CommitKeepsDeadline(w, v, m);
      assert FromSigned(LogOf(m), w.orig);
    }
  }

  lemma AdmitKeeps(w: World, m: Message)
    requires Inv(w) && Enabled(w, AdmitDelta(m))
    ensures Inv(After(w, AdmitDelta(m)))
  {
    DowngradeMeansNoWider(w.s.grant, m.wire.value);
    SameScopeSameCaps(w.orig, w.s.grant);
    assert Narrow(m, w.orig) && SignedFor(m, w.orig);
  }

  /** A re-home stays in scope because the grant is rebuilt from the recorded one. */
  lemma RehomeKeeps(w: World, seen: SessionRecord, key: Bytes, deadId: string, deadAddr: string, env: Fresh)
    requires Inv(w) && Enabled(w, Rehome(seen, key, deadId, deadAddr, env))
    ensures Inv(After(w, Rehome(seen, key, deadId, deadAddr, env)))
  {
    MintedKeepsScope(w.orig, seen, key, deadId, deadAddr, env);
    var g := Minted(w.orig, seen, key, deadId, FloorWithout(env.floor, deadAddr), env);
    ClampKeepsScope(w.orig, g);
    SameScopeSameCaps(w.orig, Clamped(g));
  }

  lemma StepKeeps(w: World, step: Step)
    requires Inv(w) && Enabled(w, step)
    ensures Inv(After(w, step))
  {
    match step {
      case CommitLease(m) => CommitKeeps(w, m);
      case CommitDelta(m) => CommitKeeps(w, m);
      case AdmitDelta(m) => AdmitKeeps(w, m);
      case AdmitLease(m) => assert SignedFor(m, w.orig);
      case AdmitDenial(m) => assert SignedDenial(m, w.orig);
      case Rehome(seen, key, deadId, deadAddr, env) => RehomeKeeps(w, seen, key, deadId, deadAddr, env);
      case _ =>
    }
  }

  lemma {:induction false} RunKeeps(run: seq<World>, steps: seq<Step>, i: nat)
    requires Run(run, steps) && i < |run|
    ensures Inv(run[i]) && run[i].orig == run[0].orig
    decreases i
  {
    if i == 0 {
      ClampKeepsScope(run[0].orig, run[0].orig);
      SameScopeSameCaps(run[0].orig, run[0].s.grant);
    } else {
      RunKeeps(run, steps, i - 1);
      assert StepAt(run, steps, i - 1);
      StepKeeps(run[i - 1], steps[i - 1]);
    }
  }

  // ---------------------------------------------------------------------------
  // The theorems.

  /** In every run, committed epochs strictly increase, the stored caps are those of
      the highest-epoch committed delta, and the deadline is that of the highest-epoch
      committed message carrying one (the registration grace when none did). */
  lemma HighestEpochGoverns(run: seq<World>, steps: seq<Step>, i: nat)
    requires Run(run, steps) && i < |run|
    ensures Increasing(run[i].log)
    ensures CapsOk(run[i]) && DeadlineOk(run[i])
  {
    RunKeeps(run, steps, i);
  }

  /** In every reachable state, across any mix of deltas and re-homes, the live caps
      permit nothing the session's current grant does not, and the current grant is
      the recorded scope with only rendezvous fields changed. */
  lemma CapsNeverWiderThanGrant(run: seq<World>, steps: seq<Step>, i: nat)
    requires Run(run, steps) && i < |run|
    ensures SameScope(run[0].orig, run[i].s.grant)
    ensures run[i].s.caps.Some? ==> NoWider(run[i].s.caps.value, run[i].s.grant)
  {
    RunKeeps(run, steps, i);
    SameScopeSameCaps(run[i].orig, run[i].s.grant);
  }

  /** Whatever was committed came from a lease or delta whose signature verified, for this
      session and its client key. */
  lemma CommittedWereSigned(run: seq<World>, steps: seq<Step>, i: nat, j: nat)
    requires Run(run, steps) && i < |run| && j < |run[i].log|
    ensures exists m :: SignedFor(m, run[0].orig) && LogOf(m) == run[i].log[j]
  {
    RunKeeps(run, steps, i);
    assert FromSigned(run[i].log[j], run[i].orig);
  }

  /** The caps in force are the ones the governing delta was signed with. */
  ghost predicate EnforcesSigned(w: World) {
    exists k: nat :: HighestDelta(w.log, k) && w.s.caps == w.log[k].signed
  }

  /** The governing delta carried on the wire what it was signed with. */
  ghost predicate WireIsSigned(w: World) {
    exists k: nat :: HighestDelta(w.log, k) && w.log[k].caps == w.log[k].signed
  }

  /** In every run with a delta in force, what is enforced is what was signed exactly when
      the highest committed delta carried the same caps on the wire. Signed or not, they
      permit nothing the grant does not. */
  lemma EnforcedAreSignedExactly(run: seq<World>, steps: seq<Step>, i: nat)
    requires Run(run, steps) && i < |run| && run[i].s.caps.Some?
    ensures EnforcesSigned(run[i]) <==> WireIsSigned(run[i])
    ensures NoWider(run[i].s.caps.value, run[i].s.grant)
  {
    RunKeeps(run, steps, i);
    CapsNeverWiderThanGrant(run, steps, i);
    var w := run[i];
    var k: nat :| HighestDelta(w.log, k) && w.log[k].caps == w.s.caps;
    forall j: nat | HighestDelta(w.log, j) ensures j == k {
      assert w.log[j].epoch == w.log[k].epoch;
    }
  }

  ghost predicate AllSigned(w: World) {
    && (forall m :: m in w.admitted && m.Delta? ==> m.wire == m.signed)
    && forall j :: 0 <= j < |w.log| ==> w.log[j].caps == w.log[j].signed
  }

  /** So while every delta that gets through carries its signed caps on the wire, the caps
      in force are always the signed ones. */
  lemma {:induction false} SignedWireIsEnforced(run: seq<World>, steps: seq<Step>, i: nat)
    requires Run(run, steps) && i < |run|
    requires forall j :: 0 <= j < |steps| && steps[j].AdmitDelta? ==>
        steps[j].m.Delta? && steps[j].m.wire == steps[j].m.signed
    ensures AllSigned(run[i])
    ensures run[i].s.caps.Some? ==> EnforcesSigned(run[i])
    decreases i
  {
    if i > 0 {
      SignedWireIsEnforced(run, steps, i - 1);
      assert StepAt(run, steps, i - 1);
    }
    RunKeeps(run, steps, i);
  }

  /** Whatever caps a delta was signed with, the grant's full caps on its wire leave the
      session with the full caps. */
  lemma WireCapsOverrideSigned(orig: Grant, signed: Caps, grace: int) returns (run: seq<World>, steps: seq<Step>)
    requires signed != ImpliedCaps(orig)
    ensures Run(run, steps) && |steps| == 2 && run[0].orig == orig
    ensures steps[0].AdmitDelta? && Bound(run[0].s, steps[0].m)
    ensures steps[0].m.Delta? && steps[0].m.signed == Some(signed)
    ensures run[2].s.caps == Some(ImpliedCaps(orig)) && !EnforcesSigned(run[2])
  {
    var s := Registered(Clamped(orig), grace);
    var top := ImpliedCaps(orig);
    var m := Delta(true, orig.id, orig.clientNoisePub, 1, 0, Some(signed), Some(top));
    var w0 := World(s, orig, grace, 0, [], {}, {}, 0);
    assert NoWider(top, s.grant);
    DowngradeMeansNoWider(s.grant, top);
    steps := [AdmitDelta(m), CommitDelta(m)];
    var w1 := After(w0, steps[0]);
    assert m in w1.admitted;
    var w2 := After(w1, steps[1]);
    run := [w0, w1, w2];
    assert w2.log == [LogOf(m)];
    forall i: nat | i < |steps| ensures StepAt(run, steps, i) {
    }
    EnforcedAreSignedExactly(run, steps, 2);
  }

  /** A stale callback, whose check finds the deadline still ahead, does nothing. */
  ghost predicate LeaseAhead(w: World) {
    w.s.deadline.Some? && w.now < w.s.deadline.value
  }

  lemma {:induction false} FreshRunKeepsConduit(run: seq<World>, steps: seq<Step>, i: nat)
    requires Run(run, steps) && i < |run|
    requires forall j :: 0 <= j < i ==> LeaseAhead(run[j]) && !steps[j].Deny?
    ensures !run[i].s.torn && run[i].expiring == 0
    decreases i
  {
    if i > 0 {
      FreshRunKeepsConduit(run, steps, i - 1);
      assert StepAt(run, steps, i - 1);
    }
  }

  /** Starvation tears only a starved session: if the conduit is down and nothing was
      revoked, then at some earlier state the deadline had passed. */
  lemma TornOnlyAfterDeadline(run: seq<World>, steps: seq<Step>, i: nat)
    requires Run(run, steps) && i < |run| && run[i].s.torn
    requires forall j :: 0 <= j < i ==> !steps[j].Deny?
    ensures exists j :: 0 <= j < i && DeadlinePassed(run[j].s, run[j].now)
  {
    if forall j :: 0 <= j < i ==> !DeadlinePassed(run[j].s, run[j].now) {
      assert forall j :: 0 <= j < i ==> LeaseAhead(run[j]);
      FreshRunKeepsConduit(run, steps, i);
    }
  }

  /** The host PTY is killed only by an explicit denial of this session whose signature
      verified, never by starvation. */
  lemma {:induction false} ReapedOnlyByDenial(run: seq<World>, steps: seq<Step>, i: nat)
    requires Run(run, steps) && i < |run| && run[i].s.reaped
    ensures exists j :: 0 <= j < i && steps[j].Deny? && SignedDenial(steps[j].m, run[0].orig)
    decreases i
  {
    if i > 0 {
      RunKeeps(run, steps, i - 1);
      assert StepAt(run, steps, i - 1);
      if run[i - 1].s.reaped {
        ReapedOnlyByDenial(run, steps, i - 1);
      }
    }
  }

  /** A denial that gets past its tests while the session is in the table is bound to its
      client key and newer than everything committed: a replay is turned away. */
  lemma DenialIsFresh(run: seq<World>, steps: seq<Step>, i: nat)
    requires Run(run, steps) && i < |steps| && steps[i].AdmitDenial?
    ensures SignedDenial(steps[i].m, run[0].orig)
    ensures run[i].s.live ==>
      && steps[i].m.clientKey == run[0].orig.clientNoisePub
      && forall j :: 0 <= j < |run[i].log| ==> run[i].log[j].epoch < steps[i].m.epoch
  {
    RunKeeps(run, steps, i);
    assert StepAt(run, steps, i);
  }

  lemma EndedStays(w: World, step: Step)
    requires Enabled(w, step)
    ensures !w.s.live ==> !After(w, step).s.live
    ensures w.s.torn ==> After(w, step).s.torn
    ensures w.s.reaped ==> After(w, step).s.reaped
  {
  }

  /** A session that ended by itself is out of the table from then on. */
  lemma {:induction false} UnregisteredStaysOut(run: seq<World>, steps: seq<Step>, i: nat, j: nat)
    requires Run(run, steps) && i < j < |run| && steps[i].Unregister?
    ensures !run[j].s.live
    decreases j
  {
    assert StepAt(run, steps, j - 1);
    if i < j - 1 {
      UnregisteredStaysOut(run, steps, i, j - 1);
      EndedStays(run[j - 1], steps[j - 1]);
    }
  }

  /** Once the session is out of the table no lease or delta is admitted any more. */
  lemma {:induction false} NothingAdmittedOnceOut(run: seq<World>, steps: seq<Step>, i: nat, j: nat)
    requires Run(run, steps) && i <= j < |steps| && !run[i].s.live
    ensures !run[j].s.live && !steps[j].AdmitLease? && !steps[j].AdmitDelta?
    decreases j
  {
    if i < j {
      NothingAdmittedOnceOut(run, steps, i, j - 1);
      assert StepAt(run, steps, j - 1);
      EndedStays(run[j - 1], steps[j - 1]);
    }
    assert StepAt(run, steps, j);
  }

  /** A re-home of a session in the table puts the re-issued grant in force, with its new
      rendezvous, and leaves epoch, deadline, caps and client key as they were. */
  lemma RehomeTakesGrant(run: seq<World>, steps: seq<Step>, i: nat)
    requires Run(run, steps) && i < |steps| && steps[i].Rehome? && run[i].s.live
    ensures
      var s, t, env := run[i].s, run[i + 1].s, steps[i].env;
      && t.grant.relayToken == env.token && t.grant.agentNoisePub == steps[i].key && t.grant.issuedAt == env.now
      && t.grant.relayFloor != [] && t.grant.relayAddr == t.grant.relayFloor[0] && t.grant.relayAddr in env.floor
      && t.clientKey == t.grant.clientNoisePub == s.clientKey
      && t == s.(grant := t.grant)
  {
    RunKeeps(run, steps, i);
    RunKeeps(run, steps, i + 1);
    var st := steps[i];
    assert StepAt(run, steps, i);
    MintedKeepsScope(run[i].orig, st.seen, st.key, st.deadId, st.deadAddr, st.env);
  }

  /** From the step that carries out a denial on, in every run, the session is out of the
      table and its host PTY killed, and its conduit is torn if it was still in the table. */
  lemma {:induction false} DenialEndsSession(run: seq<World>, steps: seq<Step>, i: nat, j: nat)
    requires Run(run, steps) && i < j < |run| && steps[i].Deny?
    ensures !run[j].s.live && run[j].s.reaped
    ensures run[i].s.live ==> run[j].s.torn
    decreases j
  {
    assert StepAt(run, steps, j - 1);
    if i < j - 1 {
      DenialEndsSession(run, steps, i, j - 1);
      EndedStays(run[j - 1], steps[j - 1]);
    }
  }

  /** A timer check arms a tear exactly when the session is in the table with its deadline
      passed, and from the tear on the
      session is out of the table with its conduit torn. */
  lemma {:induction false} StarvationEndsSession(run: seq<World>, steps: seq<Step>, i: nat, j: nat)
    requires Run(run, steps) && i < j < |run|
    ensures steps[i].CheckTimer? ==>
      (run[i + 1].expiring > run[i].expiring <==>
        run[i].s.live && (run[i].s.deadline.None? || run[i].s.deadline.value <= run[i].now))
    ensures steps[i].TearTimer? ==> !run[j].s.live && run[j].s.torn
    decreases j
  {
    assert StepAt(run, steps, i);
    assert StepAt(run, steps, j - 1);
    if i < j - 1 {
      StarvationEndsSession(run, steps, i, j - 1);
      EndedStays(run[j - 1], steps[j - 1]);
    }
  }
}
