/** What a session counts and how it begins and ends, read off the events of the run. */
module TerminalTraffic {
  import opened Wrappers
  import opened Terminal
  import opened TerminalRuns

  // ----- how a session begins -----

  /** A ticket that is minted and presented by its last moment, to a node that is online, opens its
      session, with its id and node, at the time its policy arrives; otherwise it opens nothing. */
  lemma SessionBegins(h: Hub, t: Ticket, c: Claims, ttl: nat, minted: int, online: bool, at: int, limits: Limits,
      now: int, q: Hub)
    requires t !in h.opening
    requires q == Loaded(Open(Mint(h, t, c, ttl, minted), t, online, at), t, limits, now)
    ensures if online && at <= minted + ttl then
              c.sessionId in q.sessions
              && q.sessions[c.sessionId] == Session(c.sessionId, c.nodeId, now, limits, now, 0, 0, false)
              && t in q.byTicket && q.byTicket[t] == c.sessionId
            else q.sessions == h.sessions && q.byTicket == h.byTicket
    ensures t !in q.tickets && t !in q.opening
  {
  }

  /** A ticket presented again finds nothing. */
  lemma SecondPresentationOpensNothing(h: Hub, t: Ticket, online: bool, at: int, again: bool, later: int)
    ensures Open(Open(h, t, online, at), t, again, later) == Open(h, t, online, at)
  {
  }

  lemma SweptTickets(h: Hub, now: int, k: Ticket)
    ensures k in SweepTickets(h, now).tickets <==> k in h.tickets && now <= h.tickets[k].expiresAt
    ensures k in SweepTickets(h, now).tickets ==> SweepTickets(h, now).tickets[k] == h.tickets[k]
  {
  }

  /** Sweeping the tickets takes away only what nobody could present any more. */
  lemma TicketSweepIsInvisible(h: Hub, now: int, t: Ticket, online: bool, at: int, q: Hub)
    requires now <= at && q == SweepTickets(h, now)
    ensures Open(q, t, online, at).opening == Open(h, t, online, at).opening
  {
    SweptTickets(h, now, t);
  }

  // ----- how it ends -----

  /** How the event ends the live session `id`, if it does. */
  function Ending(h: Hub, ev: Event, id: SessionId): Option<(Option<int>, string)>
    requires id in h.sessions
  {
    var s := h.sessions[id];
    match ev
    case DoKill(k) => if k == id then Some((None, "killed")) else None
    case DoClose(t) => if t in h.byTicket && h.byTicket[t] == id && id != "" then Some((None, "closed")) else None
    case DoAgent(k, Exit(code, reason)) => if k == id then Some((code, reason)) else None
    case DoAgent(k, Started(ok, error)) => if k == id && !ok then Some((None, "start_failed:" + error)) else None
    case DoSweep(now) =>
      if s.limits.maxMs > 0 && now - s.startedAt >= s.limits.maxMs then Some((None, "max_session"))
      else if s.limits.idleMs > 0 && now - s.lastInputAt >= s.limits.idleMs then Some((None, "idle_timeout"))
      else None
    case _ => None
  }

  /** An event ends a live session exactly as said, once, with what it has counted; any other leaves
      its final states as they are. */
  predicate EndsRight(h: Hub, ev: Event, id: SessionId, q: Hub)
    requires id in h.sessions
  {
    match Ending(h, ev, id)
    case Some((code, reason)) =>
      id !in q.sessions
      && Rows(q.rows, id) == Rows(h.rows, id) + [Final(code, reason, h.sessions[id].bytesIn, h.sessions[id].bytesOut)]
    case None => id in q.sessions && Rows(q.rows, id) == Rows(h.rows, id)
  }

  lemma EndElsewhere(h: Hub, gone: SessionId, code: Option<int>, reason: string, id: SessionId, q: Hub)
    requires Sane(h) && q == End(h, gone, code, reason) && id != gone
    ensures (id in q.sessions <==> id in h.sessions) && (id in h.sessions ==> q.sessions[id] == h.sessions[id])
    ensures Rows(q.rows, id) == Rows(h.rows, id)
  {
  }

  lemma EndHere(h: Hub, id: SessionId, code: Option<int>, reason: string, q: Hub)
    requires Sane(h) && q == End(h, id, code, reason)
    ensures id !in q.sessions
    ensures Rows(q.rows, id) ==
              if id in h.sessions
              then Rows(h.rows, id) + [Final(code, reason, h.sessions[id].bytesIn, h.sessions[id].bytesOut)]
              else Rows(h.rows, id)
  {
  }

  lemma EndAt(h: Hub, gone: SessionId, code: Option<int>, reason: string, id: SessionId, q: Hub)
    requires Sane(h) && q == End(h, gone, code, reason)
    ensures id != gone ==> (id in q.sessions <==> id in h.sessions) && Rows(q.rows, id) == Rows(h.rows, id)
    ensures id != gone && id in h.sessions ==> q.sessions[id] == h.sessions[id]
    ensures id == gone && id in h.sessions ==>
              id !in q.sessions
              && Rows(q.rows, id) == Rows(h.rows, id)
                 + [Final(code, reason, h.sessions[id].bytesIn, h.sessions[id].bytesOut)]
    ensures id == gone && id !in h.sessions ==> id !in q.sessions && Rows(q.rows, id) == Rows(h.rows, id)
    ensures q.relayed == h.relayed
  {
    if id == gone { EndHere(h, id, code, reason, q); } else { EndElsewhere(h, gone, code, reason, id, q); }
  }

  lemma AgentEndsRight(h: Hub, ev: Event, id: SessionId, q: Hub)
    requires Sane(h) && id in h.sessions && ev.DoAgent? && q == OnAgent(h, ev.id, ev.f)
    ensures EndsRight(h, ev, id, q)
  {
    match ev.f
    case Data(_) =>
    case Started(_, code) => EndAt(h, ev.id, None, "start_failed:"
        + code, id, End(h, ev.id, None, "start_failed:" + code));
    case Exit(code, reason) => EndAt(h, ev.id, code, reason, id, End(h, ev.id, code, reason));
  }

  lemma CloseEndsRight(h: Hub, ev: Event, id: SessionId, q: Hub)
    requires Sane(h) && id in h.sessions && ev.DoClose? && q == BrowserClose(h, ev.ticket)
    ensures EndsRight(h, ev, id, q)
  {
    if ev.ticket in h.byTicket && h.byTicket[ev.ticket] != "" {
      EndAt(h.(byTicket := h.byTicket - {ev.ticket}), h.byTicket[ev.ticket], None, "closed", id, q);
    }
  }

  predicate Quiet(ev: Event) { ev.DoMint? || ev.DoOpen? || ev.DoLoaded? || ev.DoInput? || ev.DoSweepTickets? }

  lemma QuietEndsNothing(h: Hub, ev: Event, id: SessionId, q: Hub)
    requires id in h.sessions && Quiet(ev) && q == Step(h, ev)
    ensures EndsRight(h, ev, id, q)
  {
  }

  lemma StepEndsRight(h: Hub, ev: Event, id: SessionId, q: Hub)
    requires Sane(h) && id in h.sessions && q == Step(h, ev)
    ensures EndsRight(h, ev, id, q)
  {
    match ev
    case DoClose(_) => CloseEndsRight(h, ev, id, q);
    case DoAgent(_, _) => AgentEndsRight(h, ev, id, q);
    case DoKill(k) => EndAt(h, k, None, "killed", id, q);
    case DoSweep(_) => SweepEndsRight(h, ev, id, q);
    case _ => QuietEndsNothing(h, ev, id, q);
  }

  lemma SweepEndsRight(h: Hub, ev: Event, id: SessionId, q: Hub)
    requires Sane(h) && id in h.sessions && ev.DoSweep? && q == Sweep(h, ev.now)
    ensures EndsRight(h, ev, id, q)
  {
  }

  /** In every run a live session is ended by the kill, the close of its browser, the exit or the failed
      start its agent reports, or the sweep that finds it over a limit, whichever comes first, with that
      reason; by nothing else. */
  lemma EndsAsSaid(evs: seq<Event>, ev: Event, id: SessionId, h: Hub)
    requires h == Exec(evs) && id in h.sessions
    ensures EndsRight(h, ev, id, Exec(evs + [ev]))
  {
    SessionsAreConserved(evs, id);
    OneMore(evs, ev);
    StepEndsRight(h, ev, id, Exec(evs + [ev]));
  }

  // ----- what it counts -----

  /** The event is input from the browser that opened the session, while it is live. */
  predicate TypedInto(evs: seq<Event>, ev: Event, id: SessionId) {
    ev.DoInput? && (ev.ticket, id) in Opened(evs) && id in Exec(evs).sessions
  }

  /** The sizes of all such input, and the time of the last of it, or of the session's start. */
  function Typed(evs: seq<Event>, id: SessionId): nat {
    if evs == [] then 0
    else
      var n := |evs| - 1;
      Typed(evs[..n], id) + if TypedInto(evs[..n], evs[n], id) then evs[n].size else 0
  }

  predicate IsOpening(evs: seq<Event>, ev: Event, id: SessionId) {
    ev.DoLoaded? && ev.ticket in Exec(evs).opening && Exec(evs).opening[ev.ticket].sessionId == id
  }

  function LastTyped(evs: seq<Event>, id: SessionId): int {
    if evs == [] then 0
    else
      var n := |evs| - 1;
      if IsOpening(evs[..n], evs[n], id) || TypedInto(evs[..n], evs[n], id) then evs[n].now else LastTyped(evs[..n], id)
  }

  /** The sizes of all output its agent sent while it was live. */
  function Shown(evs: seq<Event>, id: SessionId): nat {
    if evs == [] then 0
    else
      var n := |evs| - 1;
      Shown(evs[..n], id) +
      if evs[n].DoAgent? && evs[n].id == id && evs[n].f.Data? && id in Exec(evs[..n]).sessions then evs[n].f.size else 0
  }

  /** The counters of a live session, and those of an ended one, are what was typed and shown. */
  predicate CountedRight(h: Hub, id: SessionId, typed: nat, shown: nat, last: int) {
    && Relayed(h.relayed, id) == typed
    && (id in h.sessions ==>
          h.sessions[id].bytesIn == typed && h.sessions[id].bytesOut == shown && h.sessions[id].lastInputAt == last)
    && (forall i | 0 <= i < |Rows(h.rows, id)| ::
          Rows(h.rows, id)[i].bytesIn == typed && Rows(h.rows, id)[i].bytesOut == shown)
  }

  /** Input reaches a session exactly when it comes from its own browser while it is live. */
  lemma TypedIffNamed(evs: seq<Event>, t: Ticket, id: SessionId)
    requires DistinctMints(evs) && id != ""
    ensures (t, id) in Opened(evs) && id in Exec(evs).sessions <==>
              t in Exec(evs).byTicket && Exec(evs).byTicket[t] == id && id in Exec(evs).sessions
  {
    if t in Exec(evs).byTicket && Exec(evs).byTicket[t] == id { NamesAreOpened(evs, t); }
    if (t, id) in Opened(evs) && id in Exec(evs).sessions { LiveIsNamed(evs, t, id); }
  }

  predicate Reaches(h: Hub, ev: Event, id: SessionId) {
    ev.DoInput? && ev.ticket in h.byTicket && h.byTicket[ev.ticket] == id && id in h.sessions
  }

  predicate Shows(h: Hub, ev: Event, id: SessionId) { ev.DoAgent? && ev.id == id && ev.f.Data? && id in h.sessions }

  lemma EndCountsRight(h: Hub, gone: SessionId, code: Option<int>, reason: string, id: SessionId, q: Hub,
                       typed: nat, shown: nat, last: int)
    requires Sane(h) && q == End(h, gone, code, reason) && CountedRight(h, id, typed, shown, last)
    ensures CountedRight(q, id, typed, shown, last)
  {
    EndAt(h, gone, code, reason, id, q);
  }

  lemma InputCountsRight(h: Hub, ev: Event, id: SessionId, q: Hub, typed: nat, shown: nat, last: int)
    requires Sane(h) && ev.DoInput? && q == Step(h, ev) && id != "" && CountedRight(h, id, typed, shown, last)
    requires Rows(h.rows, id) != [] ==> id !in h.sessions
    ensures if Reaches(h, ev, id) then CountedRight(q, id, typed + ev.size, shown, ev.now)
            else CountedRight(q, id, typed, shown, last)
  {
  }

  lemma AgentCountsRight(h: Hub, ev: Event, id: SessionId, q: Hub, typed: nat, shown: nat, last: int)
    requires Sane(h) && ev.DoAgent? && q == Step(h, ev) && CountedRight(h, id, typed, shown, last)
    requires Rows(h.rows, id) != [] ==> id !in h.sessions
    ensures CountedRight(q, id, typed, if Shows(h, ev, id) then shown + ev.f.size else shown, last)
  {
    match ev.f
    case Data(_) =>
    case Started(ok,
        code) => if !ok { EndCountsRight(h, ev.id, None, "start_failed:"
            + code, id, End(h, ev.id, None, "start_failed:" + code), typed, shown, last); }
    case Exit(code, reason) => EndCountsRight(h, ev.id, code, reason, id, End(h, ev.id, code, reason), typed, shown,
        last);
  }

  lemma CloseCountsRight(h: Hub, ticket: Ticket, id: SessionId, q: Hub, typed: nat, shown: nat, last: int)
    requires Sane(h) && q == BrowserClose(h, ticket) && CountedRight(h, id, typed, shown, last)
    ensures CountedRight(q, id, typed, shown, last)
  {
    if ticket in h.byTicket {
      var h1 := h.(byTicket := h.byTicket - {ticket});
      EndCountsRight(h1, h.byTicket[ticket], None, "closed", id, End(h1, h.byTicket[ticket], None, "closed"), typed,
          shown, last);
    }
  }

  lemma OthersCountRight(h: Hub, ev: Event, id: SessionId, q: Hub, typed: nat, shown: nat, last: int)
    requires (ev.DoMint? || ev.DoOpen? || ev.DoLoaded? || ev.DoSweepTickets?) && q == Step(h, ev)
    requires !(ev.DoLoaded? && ev.ticket in h.opening && h.opening[ev.ticket].sessionId == id)
    requires CountedRight(h, id, typed, shown, last)
    ensures CountedRight(q, id, typed, shown, last)
  {
  }

  /** What one event does to the counters of one session. */
  lemma StepCountsRight(h: Hub, ev: Event, id: SessionId, q: Hub, typed: nat, shown: nat, last: int)
    requires Sane(h) && q == Step(h, ev) && id != "" && CountedRight(h, id, typed, shown, last)
    requires !(ev.DoLoaded? && ev.ticket in h.opening && h.opening[ev.ticket].sessionId == id)
    requires Rows(h.rows, id) != [] ==> id !in h.sessions
    ensures CountedRight(q, id, if Reaches(h, ev, id) then typed + ev.size else typed,
                         if Shows(h, ev, id) then shown + ev.f.size else shown, if Reaches(h, ev, id) then ev.now
                             else last)
  {
    match ev
    case DoInput(_, _, _) => InputCountsRight(h, ev, id, q, typed, shown, last);
    case DoClose(t) => CloseCountsRight(h, t, id, q, typed, shown, last);
    case DoAgent(_, _) => AgentCountsRight(h, ev, id, q, typed, shown, last);
    case DoKill(k) => EndCountsRight(h, k, None, "killed", id, q, typed, shown, last);
    case DoSweep(now) => SweepCountsRight(h, id, now, q, typed, shown, last);
    case _ => OthersCountRight(h, ev, id, q, typed, shown, last);
  }

  lemma SweepCountsRight(h: Hub, id: SessionId, now: int, q: Hub, typed: nat, shown: nat, last: int)
    requires Sane(h) && q == Sweep(h, now) && CountedRight(h, id, typed, shown, last)
    ensures CountedRight(q, id, typed, shown, last)
  {
  }

  /** Before it is opened nothing is counted for a session. */
  lemma UnopenedHasNothing(evs: seq<Event>, id: SessionId)
    requires DistinctMints(evs) && Opens(evs, id) == 0
    ensures Rows(Exec(evs).rows, id) == [] && id !in Exec(evs).sessions && Relayed(Exec(evs).relayed, id) == 0
  {
    SessionsEndOnce(evs, id);
  }

  lemma {:induction false} UnopenedTypesNothing(evs: seq<Event>, id: SessionId)
    requires DistinctMints(evs) && Opens(evs, id) == 0
    ensures Typed(evs, id) == 0 && Shown(evs, id) == 0
  {
    if evs != [] {
      var n := |evs| - 1;
      DistinctPrefix(evs, n);
      OpenedGrows(evs, id, "");
      UnopenedTypesNothing(evs[..n], id);
      UnopenedHasNothing(evs[..n], id);
    }
  }

  lemma OpeningIsFirst(evs: seq<Event>, id: SessionId)
    requires evs != [] && DistinctMints(evs) && IsOpening(evs[..|evs| - 1], evs[|evs| - 1], id)
    ensures Opens(evs[..|evs| - 1], id) == 0
        && OpenedBy(Exec(evs[..|evs| - 1]), evs[|evs| - 1]) == [(evs[|evs| - 1].ticket, id)]
  {
    var n := |evs| - 1;
    OpenedGrows(evs, id, "");
    CountSnoc([], (evs[n].ticket, id), id, "");
    assert [] + [(evs[n].ticket, id)] == [(evs[n].ticket, id)];
    OpensOnce(evs, id);
  }

  /** In every run: the input sent to the agent for a session is exactly what its own browser typed
      while it was live, its output is what the agent sent meanwhile, and its idle time runs from the
      last of the input, or from its start. */
  lemma {:induction false} TrafficIsCounted(evs: seq<Event>, id: SessionId)
    requires DistinctMints(evs) && id != ""
    ensures CountedRight(Exec(evs), id, Typed(evs, id), Shown(evs, id), LastTyped(evs, id))
  {
    if evs != [] {
      var n := |evs| - 1;
      var h, ev := Exec(evs[..n]), evs[n];
      DistinctPrefix(evs, n);
      if IsOpening(evs[..n], ev, id) {
        OpeningIsFirst(evs, id);
        UnopenedHasNothing(evs[..n], id);
        UnopenedTypesNothing(evs[..n], id);
      } else {
        TrafficIsCounted(evs[..n], id);
        SessionsEndOnce(evs[..n], id);
        SessionsAreConserved(evs[..n], id);
        if ev.DoInput? { TypedIffNamed(evs[..n], ev.ticket, id); }
        StepCountsRight(h, ev, id, Exec(evs), Typed(evs[..n], id), Shown(evs[..n], id), LastTyped(evs[..n], id));
      }
    }
  }
}
