/** Session grants, the capabilities they imply, and downgrade-only capability sets. */
module Grants {
  import opened Prelude

  datatype Action = Shell | Exec | Sftp | Forward | Attach | Vpn

  datatype RelayCandidate = RelayCandidate(relayId: string, turnUrl: string)

  datatype Grant = Grant(
    version: int,
    id: string,
    user: string,
    roles: seq<string>,
    workspace: string,
    vni: int,
    node: string,
    action: Action,
    command: string,
    attachId: string,
    allowPty: bool,
    allowDetach: bool,
    forwardTarget: string,
    clientNoisePub: Bytes,
    agentNoisePub: Bytes,
    relayAddr: string,
    relayFloor: seq<string>,
    relayToken: string,
    relayCandidates: seq<RelayCandidate>,
    clientPath: string,
    issuedAt: int,
    expiresAt: int,
    maxSessionTtl: int,
    recorded: bool,
    service: string,
    serviceKind: string,
    routes: seq<string>,
    overlayIp: string)

  datatype Caps = Caps(
    allow: bool,
    allowPty: bool,
    allowInput: bool,
    forwardTargets: seq<string>,
    allowSftpWrite: bool,
    allowNewChannels: bool)

  /** The maximal capability set a grant authorizes. */
  function ImpliedCaps(g: Grant): Caps {
    Caps(true, g.allowPty, g.allowPty,
         if g.forwardTarget != "" then [g.forwardTarget] else [],
         g.action.Sftp?, true)
  }

  datatype DowngradeError = NoCaps | AddsPty | AddsInput | AddsSftpWrite | AddsTarget(target: string)

  /** The first target of ts that the ceiling does not list. */
  function ForeignTarget(ts: seq<string>, ceiling: seq<string>): (r: Option<string>)
    ensures r.None? <==> forall t :: t in ts ==> t in ceiling
    ensures r.Some? ==> r.value in ts && r.value !in ceiling
  {
    if ts == [] then None
    else if ts[0] !in ceiling then Some(ts[0])
    else ForeignTarget(ts[1..], ceiling)
  }

  function VerifyDowngrade(g: Grant, caps: Option<Caps>): Result<Caps, DowngradeError> {
    match caps
    case None => Err(NoCaps)
    case Some(c) =>
      var top := ImpliedCaps(g);
      if !c.allow then Ok(c)
      else if c.allowPty && !top.allowPty then Err(AddsPty)
      else if c.allowInput && !top.allowInput then Err(AddsInput)
      else if c.allowSftpWrite && !top.allowSftpWrite then Err(AddsSftpWrite)
      else
        match ForeignTarget(c.forwardTargets, top.forwardTargets)
        case Some(t) => Err(AddsTarget(t))
        case None => Ok(c)
  }

  /** One thing a session may try to do. */
  datatype Operation = OpenPty | SendInput | WriteSftp | OpenChannel | ForwardTo(target: string)

  predicate Permits(c: Caps, op: Operation) {
    && c.allow
    && match op
       case OpenPty => c.allowPty
       case SendInput => c.allowInput
       case WriteSftp => c.allowSftpWrite
       case OpenChannel => c.allowNewChannels
       case ForwardTo(t) => t in c.forwardTargets
  }

  /** What the grant itself authorizes: input goes with the terminal, writing with an sftp
      session, forwarding to the one target named. */
  predicate Authorizes(g: Grant, op: Operation) {
    match op
    case OpenPty => g.allowPty
    case SendInput => g.allowPty
    case WriteSftp => g.action.Sftp?
    case OpenChannel => true
    case ForwardTo(t) => t != "" && t == g.forwardTarget
  }

  lemma ImpliedCapsMean(g: Grant, op: Operation)
    ensures Permits(ImpliedCaps(g), op) <==> Authorizes(g, op)
  {
  }

  /** Every operation the caps permit, the grant authorizes. */
  ghost predicate NoWider(c: Caps, g: Grant) {
    forall op :: Permits(c, op) ==> Authorizes(g, op)
  }

  /** The gate accepts exactly the capability sets that permit nothing the grant
      does not. */
  lemma DowngradeMeansNoWider(g: Grant, c: Caps)
    ensures VerifyDowngrade(g, Some(c)).Ok? <==> NoWider(c, g)
  {
    var top := ImpliedCaps(g);
    if VerifyDowngrade(g, Some(c)).Ok? {
      forall op | Permits(c, op) ensures Authorizes(g, op) {
        ImpliedCapsMean(g, op);
      }
    }
    if NoWider(c, g) {
      assert Permits(c, OpenPty) ==> Authorizes(g, OpenPty);
      assert Permits(c, SendInput) ==> Authorizes(g, SendInput);
      assert Permits(c, WriteSftp) ==> Authorizes(g, WriteSftp);
      forall t | c.allow && t in c.forwardTargets ensures t in top.forwardTargets {
        assert Permits(c, ForwardTo(t));
        assert Authorizes(g, ForwardTo(t));
      }
    }
  }

  /** A refusal names the first thing the grant does not authorize. */
  lemma RefusalMeans(g: Grant, c: Caps)
    ensures
      var r := VerifyDowngrade(g, Some(c));
      && (r == Err(AddsPty) <==> c.allow && c.allowPty && !g.allowPty)
      && (r == Err(AddsInput) <==> c.allow && !c.allowPty && c.allowInput && !g.allowPty)
      && (r == Err(AddsSftpWrite) ==> c.allowSftpWrite && !g.action.Sftp?)
      && (r.Err? && r.error.AddsTarget? ==>
            r.error.target in c.forwardTargets && !Authorizes(g, ForwardTo(r.error.target)))
      && r != Err(NoCaps) && (r.Ok? ==> r == Ok(c))
    ensures VerifyDowngrade(g, None) == Err(NoCaps)
  {
  }

  /** Two grants that differ only in rendezvous fields, the validity window, the
      session lifetime ceiling, the agent key, and a shell turned into an attach. */
  ghost predicate SameScope(orig: Grant, g: Grant) {
    && (g.action == orig.action || (orig.action.Shell? && g.action.Attach?))
    && (g.action == orig.action ==> g.attachId == orig.attachId)
    && g == orig.(action := g.action, attachId := g.attachId, agentNoisePub := g.agentNoisePub,
                  relayAddr := g.relayAddr, relayFloor := g.relayFloor, relayToken := g.relayToken,
                  relayCandidates := g.relayCandidates, issuedAt := g.issuedAt,
                  expiresAt := g.expiresAt, maxSessionTtl := g.maxSessionTtl)
  }

  /** A change inside the scope changes no capability. */
  lemma SameScopeSameCaps(orig: Grant, g: Grant)
    requires SameScope(orig, g)
    ensures ImpliedCaps(g) == ImpliedCaps(orig) && forall op :: Authorizes(g, op) <==> Authorizes(orig, op)
    ensures g.clientNoisePub == orig.clientNoisePub && g.id == orig.id
  {
  }

  /** The agent's own ceiling on a session's lifetime, in nanoseconds. */
  const MAX_AGENT_SESSION_TTL := 24 * 3600 * 1_000_000_000

  /** What the agent's offer gate makes of a grant it lets through. */
  function Clamped(g: Grant): Grant {
    if g.maxSessionTtl <= 0 || g.maxSessionTtl > MAX_AGENT_SESSION_TTL
    then g.(maxSessionTtl := MAX_AGENT_SESSION_TTL) else g
  }

  lemma ClampKeepsScope(orig: Grant, g: Grant)
    requires SameScope(orig, g)
    ensures SameScope(orig, Clamped(g)) && 0 < Clamped(g).maxSessionTtl <= MAX_AGENT_SESSION_TTL
    ensures 0 < g.maxSessionTtl <= MAX_AGENT_SESSION_TTL ==> Clamped(g) == g
  {
  }
}
