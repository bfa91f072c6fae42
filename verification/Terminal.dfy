/** Browser terminals: single-use tickets, live sessions, and how each session ends. */
module Terminal {
  import opened Wrappers

  type Ticket = string
  type SessionId = string

  // ----- limits -----

  datatype Limits = Limits(idleMs: int, maxMs: int)

  function LimitExpired(startedAt: int, lastInputAt: int, l: Limits, now: int): Option<string> {
    if l.maxMs > 0 && now - startedAt >= l.maxMs then Some("max_session")
    else if l.idleMs > 0 && now - lastInputAt >= l.idleMs then Some("idle_timeout")
    else None
  }

  // ----- state -----

  datatype Claims = Claims(sessionId: SessionId, nodeId: string)

  datatype Stored = Stored(claims: Claims, expiresAt: int)

  datatype Session = Session(id: SessionId, nodeId: string, startedAt: int, limits: Limits,
                             lastInputAt: int, bytesIn: nat, bytesOut: nat, finalized: bool)

  /** The final state written for a session when it ends. */
  datatype Final = Final(exitCode: Option<int>, reason: string, bytesIn: nat, bytesOut: nat)

  /** `opening` holds the claims whose policy is still being loaded, `rows` every final state
      written, and `relayed` the input bytes forwarded to the agent, session by session. */
  datatype Hub = Hub(
    tickets: map<Ticket, Stored>,
    opening: map<Ticket, Claims>,
    sessions: map<SessionId, Session>,
    byTicket: map<Ticket, SessionId>,
    rows: map<SessionId, seq<Final>>,
    relayed: map<SessionId, nat>)

  const EMPTY := Hub(map[], map[], map[], map[], map[], map[])

  function Rows(rows: map<SessionId, seq<Final>>, id: SessionId): seq<Final> { if id in rows then rows[id] else [] }

  function Relayed(relayed: map<SessionId, nat>, id: SessionId): nat { if id in relayed then relayed[id] else 0 }

  // ----- tickets -----

  function Mint(h: Hub, ticket: Ticket, claims: Claims, ttl: nat, now: int): Hub {
    h.(tickets := h.tickets[ticket := Stored(claims, now + ttl)])
  }

  /** A ticket is gone once it is presented, whether or not it is still good. */
  function Claim(h: Hub, ticket: Ticket, now: int): (Hub, Option<Claims>) {
    if ticket !in h.tickets then (h, None)
    else
      var t := h.tickets[ticket];
      (h.(tickets := h.tickets - {ticket}), if t.expiresAt < now then None else Some(t.claims))
  }

  function SweepTickets(h: Hub, now: int): Hub {
    h.(tickets := map k | k in h.tickets && h.tickets[k].expiresAt >= now :: h.tickets[k])
  }

  // ----- sessions -----

  function FinalOf(s: Session, exitCode: Option<int>, reason: string): Final {
    Final(exitCode, reason, s.bytesIn, s.bytesOut)
  }

  function Finalize(h: Hub, s: Session, exitCode: Option<int>, reason: string): Hub {
    if s.finalized then h
    else h.(rows := h.rows[s.id := Rows(h.rows, s.id) + [FinalOf(s, exitCode, reason)]])
  }

  /** Takes the session out of the live ones and writes its final state. */
  function End(h: Hub, id: SessionId, exitCode: Option<int>, reason: string): Hub {
    if id !in h.sessions then h
    else Finalize(h.(sessions := h.sessions - {id}), h.sessions[id], exitCode, reason)
  }

  function Open(h: Hub, ticket: Ticket, online: bool, now: int): Hub {
    var (h1, claims) := Claim(h, ticket, now);
    if claims.None? || !online then h1
    else h1.(opening := h1.opening[ticket := claims.value])
  }

  function Loaded(h: Hub, ticket: Ticket, limits: Limits, now: int): Hub {
    if ticket !in h.opening then h
    else
      var c := h.opening[ticket];
      h.(opening := h.opening - {ticket},
         sessions := h.sessions[c.sessionId := Session(c.sessionId, c.nodeId, now, limits, now, 0, 0, false)],
         byTicket := h.byTicket[ticket := c.sessionId])
  }

  function Input(h: Hub, ticket: Ticket, size: nat, now: int): Hub {
    if ticket !in h.byTicket || h.byTicket[ticket] == "" || h.byTicket[ticket] !in h.sessions then h
    else
      var id := h.byTicket[ticket];
      var s := h.sessions[id];
      h.(sessions := h.sessions[id := s.(bytesIn := s.bytesIn + size, lastInputAt := now)],
         relayed := h.relayed[id := Relayed(h.relayed, id) + size])
  }

  function BrowserClose(h: Hub, ticket: Ticket): Hub {
    var h1 := h.(byTicket := h.byTicket - {ticket});
    if ticket in h.byTicket && h.byTicket[ticket] != "" then End(h1, h.byTicket[ticket], None, "closed") else h1
  }

  datatype AgentFrame = Data(size: nat) | Started(ok: bool, code: string) | Exit(exitCode: Option<int>, reason: string)

  function OnAgent(h: Hub, id: SessionId, f: AgentFrame): Hub {
    if id !in h.sessions then h
    else match f
      case Data(size) => h.(sessions := h.sessions[id := h.sessions[id].(bytesOut := h.sessions[id].bytesOut + size)])
      case Started(ok, code) => if ok then h else End(h, id, None, "start_failed:" + code)
      case Exit(exitCode, reason) => End(h, id, exitCode, reason)
  }

  function Kill(h: Hub, id: SessionId): Hub { End(h, id, None, "killed") }

  function Expiry(s: Session, now: int): Option<string> { LimitExpired(s.startedAt, s.lastInputAt, s.limits, now) }

  predicate Over(h: Hub, id: SessionId, now: int) { id in h.sessions && Expiry(h.sessions[id], now).Some? }

  function SweptRows(h: Hub, id: SessionId, now: int): seq<Final> {
    if Over(h, id, now) && !h.sessions[id].finalized
    then Rows(h.rows, id) + [FinalOf(h.sessions[id], None, Expiry(h.sessions[id], now).value)]
    else Rows(h.rows, id)
  }

  /** Ends every live session past its idle time or its maximum length. */
  function Sweep(h: Hub, now: int): Hub {
    h.(sessions := map k | k in h.sessions && !Over(h, k, now) :: h.sessions[k],
       rows := map k | k in h.rows.Keys + h.sessions.Keys && (k in h.rows || SweptRows(h, k, now) != []) ::
                 SweptRows(h, k, now))
  }

  function SweepOne(h: Hub, id: SessionId, now: int): Hub {
    if Over(h, id, now) then End(h, id, None, Expiry(h.sessions[id], now).value) else h
  }

  function SweepList(h: Hub, ids: seq<SessionId>, now: int): Hub {
    if ids == [] then h else SweepOne(SweepList(h, ids[..|ids| - 1], now), ids[|ids| - 1], now)
  }

  predicate NoRepeats(ids: seq<SessionId>) { forall i, j | 0 <= i < j < |ids| :: ids[i] != ids[j] }

  /** What visiting the sessions `ids` leaves of session `k`. */
  lemma {:induction false} SweepListSessions(h: Hub, ids: seq<SessionId>, now: int, k: SessionId)
    requires NoRepeats(ids) && forall id | id in ids :: id in h.sessions && h.sessions[id].id == id
    ensures var q := SweepList(h, ids, now); q == h.(sessions := q.sessions, rows := q.rows)
    ensures k in SweepList(h, ids, now).sessions <==> k in h.sessions && !(k in ids && Over(h, k, now))
    ensures k in SweepList(h, ids, now).sessions ==> SweepList(h, ids, now).sessions[k] == h.sessions[k]
  {
    if ids != [] {
      var front, id := ids[..|ids| - 1], ids[|ids| - 1];
      SweepListSessions(h, front, now, k);
      SweepListSessions(h, front, now, id);
      assert ids == front + [id] && id !in front;
    }
  }

  lemma {:induction false} SweepListRows(h: Hub, ids: seq<SessionId>, now: int, k: SessionId)
    requires NoRepeats(ids) && forall id | id in ids :: id in h.sessions && h.sessions[id].id == id
    ensures k in SweepList(h, ids, now).rows <==> k in h.rows || (k in ids && SweptRows(h, k, now) != [])
    ensures k in SweepList(h, ids, now).rows ==>
              SweepList(h, ids, now).rows[k] == if k in ids then SweptRows(h, k, now) else h.rows[k]
  {
    if ids != [] {
      var front, id := ids[..|ids| - 1], ids[|ids| - 1];
      SweepListRows(h, front, now, k);
      SweepListSessions(h, front, now, id);
      assert ids == front + [id] && id !in front;
    }
  }

  /** Whatever the order in which the live sessions are visited, the sweep is the same. */
  lemma SweepListIsSweep(h: Hub, ids: seq<SessionId>, now: int)
    requires NoRepeats(ids) && forall id :: id in ids <==> id in h.sessions
    requires forall id | id in ids :: h.sessions[id].id == id
    ensures SweepList(h, ids, now) == Sweep(h, now)
  {
    var a, b := SweepList(h, ids, now), Sweep(h, now);
    SweepListSessions(h, ids, now, "");
    assert a.sessions == b.sessions by {
      forall k ensures (k in a.sessions <==> k in b.sessions) && (k in a.sessions ==> a.sessions[k] == b.sessions[k]) {
        SweepListSessions(h, ids, now, k);
      }
    }
    assert a.rows == b.rows by {
      forall k ensures (k in a.rows <==> k in b.rows) && (k in a.rows ==> a.rows[k] == b.rows[k]) {
        SweepListRows(h, ids, now, k);
      }
    }
  }

  // ----- runs -----

  datatype Event =
    | DoMint(ticket: Ticket, claims: Claims, ttl: nat, now: int)
    | DoOpen(ticket: Ticket, online: bool, now: int)
    | DoLoaded(ticket: Ticket, limits: Limits, now: int)
    | DoInput(ticket: Ticket, size: nat, now: int)
    | DoClose(ticket: Ticket)
    | DoAgent(id: SessionId, f: AgentFrame)
    | DoKill(id: SessionId)
    | DoSweep(now: int)
    | DoSweepTickets(now: int)

  function Step(h: Hub, ev: Event): Hub {
    match ev
    case DoMint(ticket, claims, ttl, now) => Mint(h, ticket, claims, ttl, now)
    case DoOpen(ticket, online, now) => Open(h, ticket, online, now)
    case DoLoaded(ticket, limits, now) => Loaded(h, ticket, limits, now)
    case DoInput(ticket, size, now) => Input(h, ticket, size, now)
    case DoClose(ticket) => BrowserClose(h, ticket)
    case DoAgent(id, f) => OnAgent(h, id, f)
    case DoKill(id) => Kill(h, id)
    case DoSweep(now) => Sweep(h, now)
    case DoSweepTickets(now) => SweepTickets(h, now)
  }

  function Exec(evs: seq<Event>): Hub {
    if evs == [] then EMPTY else Step(Exec(evs[..|evs| - 1]), evs[|evs| - 1])
  }

  /** The sessions that have ever come to life, with the ticket each was opened by, in order. */
  function Opened(evs: seq<Event>): seq<(Ticket, SessionId)> {
    if evs == [] then []
    else
      var n := |evs| - 1;
      Opened(evs[..n]) + OpenedBy(Exec(evs[..n]), evs[n])
  }

  function OpenedBy(h: Hub, ev: Event): seq<(Ticket, SessionId)> {
    if ev.DoLoaded? && ev.ticket in h.opening then [(ev.ticket, h.opening[ev.ticket].sessionId)] else []
  }

  function CountId(os: seq<(Ticket, SessionId)>, id: SessionId): nat {
    if os == [] then 0 else CountId(os[..|os| - 1], id) + if os[|os| - 1].1 == id then 1 else 0
  }

  function CountTicket(os: seq<(Ticket, SessionId)>, t: Ticket): nat {
    if os == [] then 0 else CountTicket(os[..|os| - 1], t) + if os[|os| - 1].0 == t then 1 else 0
  }

  function Opens(evs: seq<Event>, id: SessionId): nat { CountId(Opened(evs), id) }

  /** The input bytes of each session `id` that was replaced, while live, by another with its id. */
  function Replaced(evs: seq<Event>, id: SessionId): seq<nat> {
    if evs == [] then []
    else
      var n := |evs| - 1;
      Replaced(evs[..n], id) + ReplacedBy(Exec(evs[..n]), evs[n], id)
  }

  function ReplacedBy(h: Hub, ev: Event, id: SessionId): seq<nat> {
    if ev.DoLoaded? && ev.ticket in h.opening && h.opening[ev.ticket].sessionId == id && id in h.sessions
    then [h.sessions[id].bytesIn] else []
  }

  function Mints(evs: seq<Event>, t: Ticket): nat {
    if evs == [] then 0
    else Mints(evs[..|evs| - 1], t) + if evs[|evs| - 1].DoMint? && evs[|evs| - 1].ticket == t then 1 else 0
  }

  // ----- every session opened is live, ended, or replaced -----

  function Sum(xs: seq<nat>): nat { if xs == [] then 0 else Sum(xs[..|xs| - 1]) + xs[|xs| - 1] }

  function SumIn(rows: seq<Final>): nat {
    if rows == [] then 0 else SumIn(rows[..|rows| - 1]) + rows[|rows| - 1].bytesIn
  }

  function Live(h: Hub, id: SessionId): nat { if id in h.sessions then 1 else 0 }

  function LiveIn(h: Hub, id: SessionId): nat { if id in h.sessions then h.sessions[id].bytesIn else 0 }

  predicate Sane(h: Hub) { forall id | id in h.sessions :: h.sessions[id].id == id && !h.sessions[id].finalized }

  lemma SumSnoc(xs: seq<nat>, x: nat)
    ensures Sum(xs + [x]) == Sum(xs) + x
  {
    assert (xs + [x])[..|xs|] == xs;
  }

  lemma SumInSnoc(rows: seq<Final>, r: Final)
    ensures SumIn(rows + [r]) == SumIn(rows) + r.bytesIn
  {
    assert (rows + [r])[..|rows|] == rows;
  }

  lemma CountSnoc(os: seq<(Ticket, SessionId)>, o: (Ticket, SessionId), id: SessionId, t: Ticket)
    ensures CountId(os + [o], id) == CountId(os, id) + if o.1 == id then 1 else 0
    ensures CountTicket(os + [o], t) == CountTicket(os, t) + if o.0 == t then 1 else 0
  {
    assert (os + [o])[..|os|] == os;
  }

  /** What a step adds to the final states of `id` it takes from the live ones, `opens` and `lost`
      being the sessions it opened and the bytes of those it replaced. */
  predicate Balanced(h: Hub, h1: Hub, id: SessionId, opens: nat, lost: seq<nat>) {
    && Sane(h1)
    && |Rows(h1.rows, id)| + Live(h1, id) + |lost| == |Rows(h.rows, id)| + Live(h, id) + opens
    && SumIn(Rows(h1.rows, id)) + LiveIn(h1, id) + Sum(lost) - Relayed(h1.relayed, id)
       == SumIn(Rows(h.rows, id)) + LiveIn(h, id) - Relayed(h.relayed, id)
  }

  lemma EndBalances(h: Hub, gone: SessionId, exitCode: Option<int>, reason: string, id: SessionId)
    requires Sane(h)
    ensures Balanced(h, End(h, gone, exitCode, reason), id, 0, [])
  {
    if gone in h.sessions {
      SumInSnoc(Rows(h.rows, gone), FinalOf(h.sessions[gone], exitCode, reason));
    }
  }

  lemma SweepBalances(h: Hub, now: int, id: SessionId)
    requires Sane(h)
    ensures Balanced(h, Sweep(h, now), id, 0, [])
  {
    if Over(h, id, now) {
      SumInSnoc(Rows(h.rows, id), FinalOf(h.sessions[id], None, Expiry(h.sessions[id], now).value));
    }
  }

  lemma InputBalances(h: Hub, ticket: Ticket, size: nat, now: int, id: SessionId)
    requires Sane(h)
    ensures Balanced(h, Input(h, ticket, size, now), id, 0, [])
  {}

  lemma LoadedBalances(h: Hub, ticket: Ticket, limits: Limits, now: int, id: SessionId, opens: nat, lost: seq<nat>)
    requires Sane(h) && ticket in h.opening
    requires opens == if h.opening[ticket].sessionId == id then 1 else 0
    requires lost == if h.opening[ticket].sessionId == id && id in h.sessions then [h.sessions[id].bytesIn] else []
    ensures Balanced(h, Loaded(h, ticket, limits, now), id, opens, lost)
  {
    if lost != [] {
      assert lost == [] + [lost[0]];
      SumSnoc([], lost[0]);
    }
  }

  lemma OpenedByCount(h: Hub, ev: Event, id: SessionId)
    requires ev.DoLoaded? && ev.ticket in h.opening
    ensures CountId(OpenedBy(h, ev), id) == if h.opening[ev.ticket].sessionId == id then 1 else 0
  {
    assert OpenedBy(h, ev) == [] + [(ev.ticket, h.opening[ev.ticket].sessionId)];
    CountSnoc([], OpenedBy(h, ev)[0], id, "");
  }

  lemma AgentBalances(h: Hub, gone: SessionId, f: AgentFrame, id: SessionId)
    requires Sane(h)
    ensures Balanced(h, OnAgent(h, gone, f), id, 0, [])
  {
    match f
    case Data(_) =>
    case Started(_, code) => EndBalances(h, gone, None, "start_failed:" + code, id);
    case Exit(exitCode, reason) => EndBalances(h, gone, exitCode, reason, id);
  }

  lemma CloseBalances(h: Hub, ticket: Ticket, id: SessionId)
    requires Sane(h)
    ensures Balanced(h, BrowserClose(h, ticket), id, 0, [])
  {
    if ticket in h.byTicket {
      EndBalances(h.(byTicket := h.byTicket - {ticket}), h.byTicket[ticket], None, "closed", id);
    }
  }

  lemma StepBalances(h: Hub, ev: Event, id: SessionId)
    requires Sane(h)
    ensures Balanced(h, Step(h, ev), id, CountId(OpenedBy(h, ev), id), ReplacedBy(h, ev, id))
  {
    match ev
    case DoMint(_, _, _, _) =>
    case DoOpen(_, _, _) =>
    case DoLoaded(ticket, limits, now) =>
      if ticket in h.opening {
        OpenedByCount(h, ev, id);
        LoadedBalances(h, ticket, limits, now, id, CountId(OpenedBy(h, ev), id), ReplacedBy(h, ev, id));
      }
    case DoInput(ticket, size, now) => InputBalances(h, ticket, size, now, id);
    case DoClose(ticket) => CloseBalances(h, ticket, id);
    case DoAgent(gone, f) => AgentBalances(h, gone, f, id);
    case DoKill(gone) => EndBalances(h, gone, None, "killed", id);
    case DoSweep(now) => SweepBalances(h, now, id);
    case DoSweepTickets(_) =>
  }

  lemma OpenedGrows(evs: seq<Event>, id: SessionId, t: Ticket)
    requires evs != []
    ensures
      var n := |evs| - 1;
      var now := OpenedBy(Exec(evs[..n]), evs[n]);
      CountId(Opened(evs), id) == CountId(Opened(evs[..n]), id) + CountId(now, id)
      && CountTicket(Opened(evs), t) == CountTicket(Opened(evs[..n]), t) + CountTicket(now, t)
  {
    var n := |evs| - 1;
    var now := OpenedBy(Exec(evs[..n]), evs[n]);
    if now == [] { assert Opened(evs) == Opened(evs[..n]); }
    else {
      CountSnoc(Opened(evs[..n]), now[0], id, t);
      CountSnoc([], now[0], id, t);
      assert now == [] + [now[0]];
    }
  }

  /** In every run, whatever the order of its events: each session opened under an id is still
      live, has been given exactly one final state, or was replaced while live; and the input
      bytes sent to the agent are exactly those these sessions account for. */
  lemma {:induction false} SessionsAreConserved(evs: seq<Event>, id: SessionId)
    ensures Sane(Exec(evs))
    ensures
      var h := Exec(evs);
      Opens(evs, id) == |Rows(h.rows, id)| + Live(h, id) + |Replaced(evs, id)|
    ensures
      var h := Exec(evs);
      Relayed(h.relayed, id) == SumIn(Rows(h.rows, id)) + LiveIn(h, id) + Sum(Replaced(evs, id))
    ensures
      var h := Exec(evs);
      Opens(evs, id) > 0 ==> |Rows(h.rows, id)| + Live(h, id) > 0
  {
    if evs != [] {
      var n := |evs| - 1;
      var h := Exec(evs[..n]);
      SessionsAreConserved(evs[..n], id);
      StepBalances(h, evs[n], id);
      OpenedGrows(evs, id, "");
      if ReplacedBy(h, evs[n], id) != [] {
        SumSnoc(Replaced(evs[..n], id), ReplacedBy(h, evs[n], id)[0]);
        SumSnoc([], ReplacedBy(h, evs[n], id)[0]);
      } else {
        assert Replaced(evs, id) == Replaced(evs[..n], id);
      }
    }
  }

  // ----- a ticket is good once -----

  predicate MovesTickets(ev: Event) { ev.DoMint? || ev.DoOpen? || ev.DoLoaded? || ev.DoSweepTickets? }

  lemma TicketsStay(h: Hub, ev: Event)
    requires !MovesTickets(ev)
    ensures Step(h, ev).tickets == h.tickets && Step(h, ev).opening == h.opening
  {}

  function Held(h: Hub, t: Ticket): nat {
    (if t in h.tickets then 1 else 0) + (if t in h.opening then 1 else 0)
  }

  lemma HeldOnce(h: Hub, ev: Event, t: Ticket)
    ensures Held(Step(h, ev), t) + CountTicket(OpenedBy(h, ev), t)
            <= Held(h, t) + if ev.DoMint? && ev.ticket == t then 1 else 0
  {
    if !MovesTickets(ev) { TicketsStay(h, ev); }
    if OpenedBy(h, ev) != [] { CountSnoc([], OpenedBy(h, ev)[0], "", t); }
  }

  /** In every run a ticket opens at most one session for each time it was minted. */
  lemma {:induction false} TicketOpensOncePerMint(evs: seq<Event>, t: Ticket)
    ensures CountTicket(Opened(evs), t) + Held(Exec(evs), t) <= Mints(evs, t)
  {
    if evs != [] {
      var n := |evs| - 1;
      var h := Exec(evs[..n]);
      TicketOpensOncePerMint(evs[..n], t);
      HeldOnce(h, evs[n], t);
      OpenedGrows(evs, "", t);
    }
  }

  /** Tickets are fresh random texts, and every ticket is minted for a session of its own. */
  predicate DistinctMints(evs: seq<Event>) {
    forall i, j | 0 <= i < j < |evs| && evs[i].DoMint? && evs[j].DoMint? ::
      evs[i].ticket != evs[j].ticket && evs[i].claims.sessionId != evs[j].claims.sessionId
  }

  predicate Minted(evs: seq<Event>, ticket: Ticket, id: SessionId) {
    exists i | 0 <= i < |evs| :: evs[i].DoMint? && evs[i].ticket == ticket && evs[i].claims.sessionId == id
  }

  lemma MintedGrows(evs: seq<Event>, n: nat, ticket: Ticket, id: SessionId)
    requires n <= |evs| && Minted(evs[..n], ticket, id)
    ensures Minted(evs, ticket, id)
  {
    var i :| 0 <= i < n && evs[..n][i].DoMint? && evs[..n][i].ticket == ticket && evs[..n][i].claims.sessionId == id;
    assert evs[i] == evs[..n][i];
  }

  /** A ticket held after a step was held before, for the same session, or is being minted. */
  lemma StepMinted(h: Hub, ev: Event, h1: Hub, t: Ticket)
    requires h1 == Step(h, ev)
    ensures t in h1.tickets ==>
              (t in h.tickets && h1.tickets[t] == h.tickets[t])
              || (ev.DoMint? && ev.ticket == t && h1.tickets[t].claims == ev.claims)
    ensures t in h1.opening ==>
              (t in h.opening && h1.opening[t] == h.opening[t])
                  || (t in h.tickets && h1.opening[t] == h.tickets[t].claims)
  {
    if !MovesTickets(ev) { TicketsStay(h, ev); }
  }

  /** Every ticket held and every session opened goes back to a mint. */
  lemma {:induction false} AllMinted(evs: seq<Event>)
    ensures forall t | t in Exec(evs).tickets :: Minted(evs, t, Exec(evs).tickets[t].claims.sessionId)
    ensures forall t | t in Exec(evs).opening :: Minted(evs, t, Exec(evs).opening[t].sessionId)
    ensures forall o | o in Opened(evs) :: Minted(evs, o.0, o.1)
  {
    if evs != [] {
      var n := |evs| - 1;
      AllMinted(evs[..n]);
      forall t { StepMinted(Exec(evs[..n]), evs[n], Exec(evs), t); }
      forall t, id | Minted(evs[..n], t, id) ensures Minted(evs, t, id) { MintedGrows(evs, n, t, id); }
      var h, ev := Exec(evs[..n]), evs[n];
      if ev.DoMint? { assert Minted(evs, ev.ticket, ev.claims.sessionId); }
      assert forall o | o in Opened(evs) :: o in Opened(evs[..n]) || o in OpenedBy(h, ev);
    }
  }

  lemma {:induction false} MintsOnce(evs: seq<Event>, t: Ticket)
    requires DistinctMints(evs)
    ensures Mints(evs, t) <= 1
    ensures Mints(evs, t) == 1 ==> exists i | 0 <= i < |evs| :: evs[i].DoMint? && evs[i].ticket == t
  {
    if evs != [] {
      var n := |evs| - 1;
      MintsOnce(evs[..n], t);
      if Mints(evs[..n], t) == 1 {
        var i :| 0 <= i < n && evs[..n][i].DoMint? && evs[..n][i].ticket == t;
        assert evs[i].DoMint? && evs[i].ticket == t;
      } else if evs[n].DoMint? && evs[n].ticket == t {
        assert Mints(evs, t) == 1;
      }
    }
  }

  /** Where every entry of `id` came by the ticket `t`, there are at most as many as of `t`. */
  lemma {:induction false} CountIdByTicket(os: seq<(Ticket, SessionId)>, id: SessionId, t: Ticket)
    requires forall o | o in os && o.1 == id :: o.0 == t
    ensures CountId(os, id) <= CountTicket(os, t)
  {
    if os != [] {
      assert os[|os| - 1] in os;
      CountIdByTicket(os[..|os| - 1], id, t);
    }
  }

  lemma CountedIsIn(os: seq<(Ticket, SessionId)>, id: SessionId)
    requires CountId(os, id) > 0
    ensures exists o | o in os :: o.1 == id
  {
    if os[|os| - 1].1 != id { CountedIsIn(os[..|os| - 1], id); } else { assert os[|os| - 1] in os; }
  }

  lemma OpensOnce(evs: seq<Event>, id: SessionId)
    requires DistinctMints(evs)
    ensures Opens(evs, id) <= 1
  {
    if Opens(evs, id) > 0 {
      CountedIsIn(Opened(evs), id);
      var o :| o in Opened(evs) && o.1 == id;
      AllMinted(evs);
      forall p | p in Opened(evs) && p.1 == id ensures p.0 == o.0 {
        assert Minted(evs, p.0, id) && Minted(evs, o.0, id);
      }
      CountIdByTicket(Opened(evs), id, o.0);
      TicketOpensOncePerMint(evs, o.0);
      MintsOnce(evs, o.0);
    }
  }

  /** A session that never came to life has left no trace; a live one has no final state yet and
      has counted what was relayed for it; an ended one has exactly one, with the right count. */
  predicate EndsOnce(h: Hub, started: bool, id: SessionId) {
    var rows := Rows(h.rows, id);
    if id in h.sessions then
      started && rows == [] && h.sessions[id].id == id && !h.sessions[id].finalized
      && h.sessions[id].bytesIn == Relayed(h.relayed, id)
    else if started then |rows| == 1 && rows[0].bytesIn == Relayed(h.relayed, id)
    else rows == [] && Relayed(h.relayed, id) == 0
  }

  /** With one session id a ticket, in every interleaving of opens, input, agent frames, browser
      closes, kills and sweeps, every session ends exactly once. */
  lemma SessionsEndOnce(evs: seq<Event>, id: SessionId)
    requires DistinctMints(evs)
    ensures EndsOnce(Exec(evs), Opens(evs, id) == 1, id)
    ensures Opens(evs, id) <= 1
  {
    OpensOnce(evs, id);
    SessionsAreConserved(evs, id);
    var rows := Rows(Exec(evs).rows, id);
    assert Replaced(evs, id) == [];
    if |rows| == 1 { SumInSnoc([], rows[0]); assert rows == [] + [rows[0]]; }
  }

  /** A ticket never opens a second session. */
  lemma TicketOpensOnce(evs: seq<Event>, t: Ticket)
    requires DistinctMints(evs)
    ensures CountTicket(Opened(evs), t) <= 1
    ensures CountTicket(Opened(evs), t) == 1 ==> t !in Exec(evs).tickets && t !in Exec(evs).opening
  {
    TicketOpensOncePerMint(evs, t);
    MintsOnce(evs, t);
  }

  /** Without the assumption on ids, all sessions of an id have ended or are live if and only if
      none of them was opened while another one of that id was live. */
  lemma EndsIffNoneReplaced(evs: seq<Event>, id: SessionId)
    ensures Opens(evs, id) == |Rows(Exec(evs).rows, id)| + Live(Exec(evs), id) <==> Replaced(evs, id) == []
  {
    SessionsAreConserved(evs, id);
  }
}
