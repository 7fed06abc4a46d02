/**
 The agent loop that serves a session over successive transports and re-homes it when
 a transport is lost. Everything outside the agent (what the serve path reports, lease
 freshness at each test, the controller's answers, tunnel set-up) is the input.
 */
module RehomeLoop {
  import opened Prelude

  datatype Terminal = Ended | Detached | Rejected

  datatype Event = Finished(kind: Terminal, detail: string) | Established

  const MAX_REHOME_ATTEMPTS := 6

  predicate IsTransportLoss(detail: string) {
    || detail == "tunnel closed"
    || detail == "session host stream lost"
    || detail == "client disconnected"
    || "ssh handshake:" <= detail
  }

  /** One call of emit on the terminal event, with whether the session context was up
      and its lease fresh at that moment. */
  datatype Report = Report(kind: Terminal, detail: string, viable: bool)

  /** One transport generation: the reports of its serve path in order, viability at the
      fallback report, whether the context ended during the backoff, viability after it,
      the epoch of the re-issued grant if one passed the offer gate, whether the new
      tunnel came up, and whether the grant allows detaching. */
  datatype Generation = Generation(
    reports: seq<Report>,
    fallbackViable: bool,
    closedInBackoff: bool,
    viableAfter: bool,
    granted: Option<int>,
    tunnelUp: bool,
    allowDetach: bool)

  /** What the terminal event makes of a generation's reports: only the first counts. */
  datatype Served = Silent | Reported(e: Event) | Lost

  /** The terminal event of one generation. */
  class TerminalEvent {
    var used: bool
    var emitted: bool
    var transportLost: bool

    constructor ()
      ensures !used && !emitted && !transportLost
    {
      used, emitted, transportLost := false, false, false;
    }

    /** The first call emits, or is swallowed when a transport loss can be re-homed;
        every later call does nothing. */
    method Emit(kind: Terminal, detail: string, pending: bool) returns (out: seq<Event>)
      modifies this
      ensures used
      ensures old(used) ==> out == [] && emitted == old(emitted) && transportLost == old(transportLost)
      ensures !old(used) && pending && IsTransportLoss(detail) ==>
        out == [] && transportLost && emitted == old(emitted)
      ensures !old(used) && !(pending && IsTransportLoss(detail)) ==>
        out == [Finished(kind, detail)] && emitted && transportLost == old(transportLost)
    {
      out := [];
      if used {
        return;
      }
      used := true;
      if pending && IsTransportLoss(detail) {
        transportLost := true;
        return;
      }
      emitted := true;
      out := [Finished(kind, detail)];
    }
  }

  /** attempts is the budget spent in the current burst; silent marks a run that ended
      without a terminal event. */
  datatype Loop = Loop(
    attempts: nat,
    applied: int,
    events: seq<Event>,
    done: bool,
    successes: nat,
    silent: bool)

  const START := Loop(0, 0, [], false, 0, false)

  function ServedAs(g: Generation, attempts: nat): Served {
    if g.reports == [] then Silent
    else
      var r := g.reports[0];
      if r.viable && attempts < MAX_REHOME_ATTEMPTS && IsTransportLoss(r.detail) then Lost
      else Reported(Finished(r.kind, r.detail))
  }

  function Finish(st: Loop, kind: Terminal, detail: string): Loop {
    st.(events := st.events + [Finished(kind, detail)], done := true)
  }

  /** The loop after a lost transport, its attempt already counted. */
  function AfterLoss(st: Loop, g: Generation): Loop {
    var exhausted := if g.allowDetach then Detached else Ended;
    if g.closedInBackoff then Finish(st, Ended, "session closed")
    else if !g.viableAfter then Finish(st, exhausted, "relay path lost")
    else if g.granted.None? || g.granted.value <= st.applied then
      if st.attempts >= MAX_REHOME_ATTEMPTS then Finish(st, exhausted, "re-home exhausted") else st
    else
      var st := st.(applied := g.granted.value);
      if g.tunnelUp then st.(attempts := 0, events := st.events + [Established], successes := st.successes + 1)
      else if st.attempts >= MAX_REHOME_ATTEMPTS then Finish(st, exhausted, "re-home transport")
      else st
  }

  function Next(st: Loop, g: Generation): Loop {
    match ServedAs(g, st.attempts)
    case Reported(e) => st.(events := st.events + [e], done := true)
    case Silent =>
      if g.fallbackViable && st.attempts < MAX_REHOME_ATTEMPTS then st.(done := true, silent := true)
      else Finish(st, Ended, "tunnel closed")
    case Lost => AfterLoss(st.(attempts := st.attempts + 1), g)
  }

  /** The loop over a list of generations; it stops at the one that ends it. */
  function Played(st: Loop, gens: seq<Generation>): Loop
    decreases |gens|
  {
    if gens == [] || st.done then st else Played(Next(st, gens[0]), gens[1..])
  }

  /** Serves one generation: all its reports reach one terminal event. */
  method Serve(g: Generation, attempts: nat) returns (end: TerminalEvent, out: seq<Event>)
    ensures fresh(end)
    ensures match ServedAs(g, attempts)
            case Silent => !end.used && !end.emitted && !end.transportLost && out == []
            case Reported(e) => end.used && end.emitted && !end.transportLost && out == [e]
            case Lost => end.used && !end.emitted && end.transportLost && out == []
  {
    end := new TerminalEvent();
    out := [];
    for i := 0 to |g.reports|
      invariant fresh(end)
      invariant i == 0 ==> !end.used && !end.emitted && !end.transportLost && out == []
      invariant i > 0 ==>
        match ServedAs(g, attempts)
        case Silent => false
        case Reported(e) => end.used && end.emitted && !end.transportLost && out == [e]
        case Lost => end.used && !end.emitted && end.transportLost && out == []
    {
      var r := g.reports[i];
      var more := end.Emit(r.kind, r.detail, r.viable && attempts < MAX_REHOME_ATTEMPTS);
      out := out + more;
    }
  }

  /** Backoff, request and rebuild after a lost transport. */
  method Migrate(st0: Loop, g: Generation) returns (st: Loop)
    ensures st == AfterLoss(st0, g)
  {
    st := st0;
    var exhausted := if g.allowDetach then Detached else Ended;
    if g.closedInBackoff {
      return Finish(st, Ended, "session closed");
    }
    if !g.viableAfter {
      return Finish(st, exhausted, "relay path lost");
    }
    if g.granted.None? || g.granted.value <= st.applied {
      if st.attempts >= MAX_REHOME_ATTEMPTS {
        st := Finish(st, exhausted, "re-home exhausted");
      }
      return;
    }
    st := st.(applied := g.granted.value);
    if !g.tunnelUp {
      if st.attempts >= MAX_REHOME_ATTEMPTS {
        st := Finish(st, exhausted, "re-home transport");
      }
      return;
    }
    st := st.(attempts := 0, events := st.events + [Established], successes := st.successes + 1);
  }

  method ServeWithRehome(gens: seq<Generation>) returns (st: Loop)
    ensures st == Played(START, gens)
  {
    st := START;
    var i := 0;
    assert gens[0..] == gens;
    while i < |gens| && !st.done
      invariant 0 <= i <= |gens|
      invariant Played(st, gens[i..]) == Played(START, gens)
      invariant !st.done ==> !st.silent
    {
      var g := gens[i];
      ghost var next := Next(st, g);
      assert st.events + [] == st.events;
      var end, out := Serve(g, st.attempts);
      if end.transportLost {
        st := Migrate(st.(attempts := st.attempts + 1), g);
      } else if end.emitted {
        st := st.(events := st.events + out, done := true);
      } else {
        var more := end.Emit(Ended, "tunnel closed", g.fallbackViable && st.attempts < MAX_REHOME_ATTEMPTS);
        st := st.(events := st.events + more, done := true, silent := !end.emitted);
      }
      assert st == next;
      assert gens[i..][1..] == gens[i + 1..];
      i := i + 1;
    }
  }

  // ---------------------------------------------------------------------------
  // Properties of every run.

  function Terminals(events: seq<Event>): nat {
    if events == [] then 0
    else (if events[0].Finished? then 1 else 0) + Terminals(events[1..])
  }

  lemma {:induction false} TerminalsSnoc(events: seq<Event>, e: Event)
    ensures Terminals(events + [e]) == Terminals(events) + if e.Finished? then 1 else 0
  {
    if events == [] {
      assert [] + [e] == [e] && [e][1..] == [];
    } else {
      assert (events + [e])[1..] == events[1..] + [e];
      TerminalsSnoc(events[1..], e);
    }
  }

  /** While the loop runs nothing terminal is out; once it returns, exactly one terminal
      event is out unless it ended silently. */
  ghost predicate OneTerminal(st: Loop) {
    && (!st.done ==> Terminals(st.events) == 0 && !st.silent)
    && (st.done ==> Terminals(st.events) == if st.silent then 0 else 1)
  }

  lemma NextKeepsOneTerminal(st: Loop, g: Generation)
    requires OneTerminal(st) && !st.done
    ensures OneTerminal(Next(st, g))
  {
    var v := Next(st, g);
    if v.events != st.events {
      var e := v.events[|st.events|];
      assert v.events == st.events + [e];
      TerminalsSnoc(st.events, e);
    }
  }

  lemma {:induction false} PlayedKeepsOneTerminal(st: Loop, gens: seq<Generation>)
    requires OneTerminal(st)
    ensures OneTerminal(Played(st, gens))
    decreases |gens|
  {
    if gens != [] && !st.done {
      NextKeepsOneTerminal(st, gens[0]);
      PlayedKeepsOneTerminal(Next(st, gens[0]), gens[1..]);
    }
  }

  /** Over all transport generations a run emits at most one ended, detached or rejected
      event, and exactly one if it returned and did not end silently. */
  lemma AtMostOneTerminalEvent(gens: seq<Generation>)
    ensures Terminals(Played(START, gens).events) <= 1
    ensures Played(START, gens).done && !Played(START, gens).silent ==> Terminals(Played(START, gens).events) == 1
  {
    PlayedKeepsOneTerminal(START, gens);
  }

  /** The generation that ends a run is the silent one exactly when its serve path
      reported nothing while a re-home was still possible at the fallback report. */
  lemma SilentExactlyWhen(st: Loop, g: Generation)
    requires !st.done && !st.silent
    ensures Next(st, g).silent <==>
      g.reports == [] && g.fallbackViable && st.attempts < MAX_REHOME_ATTEMPTS
  {
  }

  /** A transport counts as lost, and its end is not reported, exactly when the first report
      says the tunnel, the host's stream or the client went away or the handshake failed,
      the session was still viable, and the burst's budget was not spent. */
  lemma LostExactlyWhen(g: Generation, attempts: nat)
    ensures ServedAs(g, attempts).Lost? <==>
      && g.reports != [] && g.reports[0].viable && attempts < 6
      && var d := g.reports[0].detail;
         || d in {"tunnel closed", "session host stream lost", "client disconnected"}
         || (|d| >= 14 && d[..14] == "ssh handshake:")
    ensures ServedAs(g, attempts).Reported? ==>
      ServedAs(g, attempts).e == Finished(g.reports[0].kind, g.reports[0].detail)
  {
  }

  /** A lost transport ends the run exactly when the session closed during the back-off,
      its lease is no longer fresh, or the budget is spent without a newer grant and a
      tunnel. Only a closed session, or one that may not detach, is then ended. */
  lemma GivesUpExactlyWhen(st: Loop, g: Generation)
    requires !st.done && ServedAs(g, st.attempts).Lost?
    ensures
      var v := Next(st, g);
      var newer := g.granted.Some? && g.granted.value > st.applied;
      var spent := st.attempts + 1 >= MAX_REHOME_ATTEMPTS && !(newer && g.tunnelUp);
      && (v.done <==> g.closedInBackoff || !g.viableAfter || spent)
      && (v.done ==>
            && |v.events| == |st.events| + 1
            && v.events[|st.events|].Finished?
            && (v.events[|st.events|].kind.Detached? <==> !g.closedInBackoff && g.allowDetach)
            && (v.events[|st.events|].kind.Ended? <==> g.closedInBackoff || !g.allowDetach)
            && v.events[..|st.events|] == st.events
            && v.events[|st.events|].detail ==
                 if g.closedInBackoff then "session closed"
                 else if !g.viableAfter then "relay path lost"
                 else if newer then "re-home transport" else "re-home exhausted")
      && (v.successes == st.successes + 1 <==> !g.closedInBackoff && g.viableAfter && newer && g.tunnelUp)
      && (v.successes == st.successes + 1 || v.successes == st.successes)
      && (v.successes > st.successes ==>
            v.applied == g.granted.value && v.attempts == 0 && v.events == st.events + [Established])
      && (!v.done && v.successes == st.successes ==> v.attempts == st.attempts + 1 && v.events == st.events)
      && (v.applied != st.applied ==> newer && v.applied == g.granted.value)
      && (!g.closedInBackoff && g.viableAfter && newer ==> v.applied == g.granted.value)
  {
  }

  /** A transport that is not lost ends the run: with its first report, or, where it made
      none and no re-home is possible, as closed. */
  lemma EndsAsReported(st: Loop, g: Generation)
    requires !st.done && !st.silent && !ServedAs(g, st.attempts).Lost?
    ensures
      var v := Next(st, g);
      && v.done && v.attempts == st.attempts && v.applied == st.applied && v.successes == st.successes
      && v.events ==
           if g.reports != [] then st.events + [Finished(g.reports[0].kind, g.reports[0].detail)]
           else if v.silent then st.events else st.events + [Finished(Ended, "tunnel closed")]
  {
  }

  /** Spent generations since the last success are the attempts of the burst. */
  ghost predicate WithinBudget(st: Loop, played: nat) {
    && st.attempts <= MAX_REHOME_ATTEMPTS
    && (!st.done ==> st.attempts < MAX_REHOME_ATTEMPTS && played <= MAX_REHOME_ATTEMPTS * st.successes + st.attempts)
  }

  lemma NextKeepsBudget(st: Loop, g: Generation, played: nat)
    requires WithinBudget(st, played) && !st.done
    ensures WithinBudget(Next(st, g), played + 1)
    ensures Next(st, g).applied >= st.applied && Next(st, g).successes >= st.successes
  {
  }

  lemma {:induction false} PlayedKeepsBudget(st: Loop, gens: seq<Generation>, played: nat)
    requires WithinBudget(st, played)
    ensures WithinBudget(Played(st, gens), played + |gens|)
    decreases |gens|
  {
    if gens != [] && !st.done {
      NextKeepsBudget(st, gens[0], played);
      PlayedKeepsBudget(Next(st, gens[0]), gens[1..], played + 1);
    }
  }

  /** The run reaches generation k, which reports nothing while a re-home still seems
      possible. */
  ghost predicate SilentAt(st: Loop, gens: seq<Generation>, k: nat) {
    k < |gens| && !Played(st, gens[..k]).done && gens[k].reports == [] && gens[k].fallbackViable
  }

  lemma SilentAtNext(st: Loop, gens: seq<Generation>, k: nat)
    requires gens != [] && !st.done
    ensures SilentAt(st, gens, k + 1) <==> SilentAt(Next(st, gens[0]), gens[1..], k)
  {
    if k < |gens[1..]| {
      assert gens[..k + 1][1..] == gens[1..][..k];
      assert Played(st, gens[..k + 1]) == Played(Next(st, gens[0]), gens[1..][..k]);
    }
  }

  lemma {:induction false} SilentFrom(st: Loop, gens: seq<Generation>, played: nat)
    requires WithinBudget(st, played) && !st.done && !st.silent
    ensures Played(st, gens).silent <==> exists k: nat :: SilentAt(st, gens, k)
    decreases |gens|
  {
    if gens != [] {
      var n := Next(st, gens[0]);
      SilentExactlyWhen(st, gens[0]);
      assert gens[..0] == [] && Played(st, gens[..0]) == st;
      assert SilentAt(st, gens, 0) <==> n.silent;
      forall k: nat ensures SilentAt(st, gens, k + 1) <==> SilentAt(n, gens[1..], k) {
        SilentAtNext(st, gens, k);
      }
      if n.done {
        assert Played(st, gens) == n;
        forall k: nat ensures SilentAt(st, gens, k) <==> k == 0 && n.silent {
          if k > 0 {
            SilentAtNext(st, gens, k - 1);
          }
        }
      } else {
        NextKeepsBudget(st, gens[0], played);
        SilentFrom(n, gens[1..], played + 1);
        if k: nat :| SilentAt(n, gens[1..], k) {
          assert SilentAt(st, gens, k + 1);
        } else if k: nat :| SilentAt(st, gens, k) {
          SilentAtNext(st, gens, k - 1);
        }
      }
    }
  }

  /** A run returns without a terminal event exactly when it reaches a generation that
      reports nothing while a re-home still seems possible. */
  lemma SilentRunExactlyWhen(gens: seq<Generation>)
    ensures Played(START, gens).done && Terminals(Played(START, gens).events) == 0 <==>
      exists k: nat :: SilentAt(START, gens, k)
  {
    PlayedKeepsOneTerminal(START, gens);
    SilentFrom(START, gens, 0);
  }

  /** The shortest such run: one transport that closes without a report. */
  lemma RunCanEndSilently() returns (gens: seq<Generation>)
    ensures Played(START, gens).done && Terminals(Played(START, gens).events) == 0
  {
    gens := [Generation([], true, false, true, None, false, false)];
    assert gens[..0] == [] && Played(START, gens[..0]) == START;
    assert SilentAt(START, gens, 0);
    SilentRunExactlyWhen(gens);
  }

  /** A burst without a successful re-home makes at most six attempts, so with s
      successes the loop has returned by generation 6 * (s + 1). */
  lemma ReturnsUnlessRehomesSucceed(gens: seq<Generation>)
    ensures Played(START, gens).attempts <= MAX_REHOME_ATTEMPTS
    ensures |gens| >= MAX_REHOME_ATTEMPTS * (Played(START, gens).successes + 1) ==> Played(START, gens).done
  {
    PlayedKeepsBudget(START, gens, 0);
  }
}
