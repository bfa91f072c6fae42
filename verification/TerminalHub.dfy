/** The terminal hub as it runs: live sessions are objects whose counters change in place.
    Each method takes the state its specification in `Terminal` describes to the next one. */
module TerminalHub {
  import opened Wrappers
  import M = Terminal

  class LiveSession {
    const id: M.SessionId
    const nodeId: string
    const startedAt: int
    const limits: M.Limits
    var lastInputAt: int
    var bytesIn: nat
    var bytesOut: nat
    var finalized: bool

    constructor (id: M.SessionId, nodeId: string, limits: M.Limits, now: int)
      ensures Snapshot() == M.Session(id, nodeId, now, limits, now, 0, 0, false)
    {
      this.id, this.nodeId, this.startedAt, this.limits := id, nodeId, now, limits;
      lastInputAt, bytesIn, bytesOut, finalized := now, 0, 0, false;
    }

    function Snapshot(): M.Session
      reads this
    {
      M.Session(id, nodeId, startedAt, limits, lastInputAt, bytesIn, bytesOut, finalized)
    }
  }

  class TicketStore {
    var tickets: map<M.Ticket, M.Stored>

    constructor ()
      ensures tickets == map[]
    {
      tickets := map[];
    }

    method Mint(ticket: M.Ticket, claims: M.Claims, ttl: nat, now: int) returns (expiresAt: int)
      modifies this
      ensures tickets == old(tickets)[ticket := M.Stored(claims, expiresAt)] && expiresAt == now + ttl
    {
      expiresAt := now + ttl;
      tickets := tickets[ticket := M.Stored(claims, expiresAt)];
    }

    method Claim(ticket: M.Ticket, now: int) returns (claims: Option<M.Claims>)
      modifies this
      ensures tickets == old(tickets) - {ticket}
      ensures claims == if ticket in old(tickets) && old(tickets)[ticket].expiresAt >= now
                        then Some(old(tickets)[ticket].claims) else None
    {
      if ticket !in tickets { return None; }
      var t := tickets[ticket];
      tickets := tickets - {ticket};
      if t.expiresAt < now { return None; }
      return Some(t.claims);
    }

    method Sweep(now: int)
      modifies this
      ensures tickets == map k | k in old(tickets) && old(tickets)[k].expiresAt >= now :: old(tickets)[k]
    {
      var all := tickets;
      var todo := all.Keys;
      while todo != {}
        invariant todo <= all.Keys
        invariant tickets == map k | k in all && (k in todo || all[k].expiresAt >= now) :: all[k]
        decreases |todo|
      {
        var k :| k in todo;
        if all[k].expiresAt < now { tickets := tickets - {k}; }
        todo := todo - {k};
      }
    }
  }

  /** The keys of a map in some order. */
  method ListOf(keys: set<M.SessionId>) returns (ids: seq<M.SessionId>)
    ensures M.NoRepeats(ids) && forall id :: id in ids <==> id in keys
  {
    ids := [];
    var todo := keys;
    while todo != {}
      invariant M.NoRepeats(ids) && forall id | id in ids :: id !in todo
      invariant forall id :: id in keys <==> id in todo || id in ids
      decreases |todo|
    {
      var id :| id in todo;
      todo, ids := todo - {id}, ids + [id];
    }
  }

  class TerminalHub {
    const store: TicketStore
    /** Claims of the browsers that wait for their organisation's policy. */
    var opening: map<M.Ticket, M.Claims>
    var sessions: map<M.SessionId, LiveSession>
    var byTicket: map<M.Ticket, M.SessionId>
    /** What the database and the agents have been given. */
    var rows: map<M.SessionId, seq<M.Final>>
    var relayed: map<M.SessionId, nat>

    constructor ()
      ensures Valid() && View() == M.EMPTY && fresh(store)
    {
      store := new TicketStore();
      opening, sessions, byTicket, rows, relayed := map[], map[], map[], map[], map[];
    }

    /** Every session sits under its own id, so no object sits under two. */
    ghost predicate Valid()
      reads this, sessions.Values
    {
      forall id | id in sessions :: sessions[id].id == id
    }

    ghost function View(): M.Hub
      reads this, store, sessions.Values
    {
      M.Hub(store.tickets, opening, map id | id in sessions :: sessions[id].Snapshot(), byTicket, rows, relayed)
    }

    method MintTicket(ticket: M.Ticket, claims: M.Claims, ttl: nat, now: int) returns (expiresAt: int)
      requires Valid()
      modifies store
      ensures Valid() && View() == M.Mint(old(View()), ticket, claims, ttl, now)
      ensures expiresAt == now + ttl
    {
      expiresAt := store.Mint(ticket, claims, ttl, now);
    }

    /** The part of an open before the policy is loaded. */
    method OnBrowserOpen(ticket: M.Ticket, online: bool, now: int) returns (waits: bool)
      requires Valid()
      modifies this`opening, store
      ensures Valid() && View() == M.Open(old(View()), ticket, online, now)
      ensures waits == (online && ticket in old(store.tickets) && now <= old(store.tickets)[ticket].expiresAt)
    {
      assert old(ticket !in store.tickets) ==> old(store.tickets) - {ticket} == old(store.tickets);
      var claims := store.Claim(ticket, now);
      if claims.None? || !online { return false; }
      opening := opening[ticket := claims.value];
      return true;
    }

    /** The part of an open after it. */
    method OnPolicyLoaded(ticket: M.Ticket, limits: M.Limits, now: int)
      requires Valid()
      modifies this`opening, this`sessions, this`byTicket
      ensures Valid() && View() == M.Loaded(old(View()), ticket, limits, now)
      ensures forall id | id in sessions ::
                (id in old(sessions) && sessions[id] == old(sessions[id])) || fresh(sessions[id])
    {
      if ticket !in opening { return; }
      var c := opening[ticket];
      opening := opening - {ticket};
      var s := new LiveSession(c.sessionId, c.nodeId, limits, now);
      sessions := sessions[c.sessionId := s];
      byTicket := byTicket[ticket := c.sessionId];
    }

    method OnBrowserInput(ticket: M.Ticket, size: nat, now: int)
      requires Valid()
      modifies this`relayed, sessions.Values
      ensures Valid() && View() == M.Input(old(View()), ticket, size, now)
    {
      if ticket !in byTicket || byTicket[ticket] == "" { return; }
      var id := byTicket[ticket];
      if id !in sessions { return; }
      var s := sessions[id];
      s.bytesIn := s.bytesIn + size;
      s.lastInputAt := now;
      relayed := relayed[id := (if id in relayed then relayed[id] else 0) + size];
    }

    /** Takes a session out of the live ones, then writes its final state. */
    method Close(session: LiveSession, exitCode: Option<int>, reason: string)
      requires Valid() && session.id in sessions && sessions[session.id] == session
      modifies this`sessions, this`rows, session
      ensures Valid() && View() == M.End(old(View()), session.id, exitCode, reason)
      ensures sessions == old(sessions) - {session.id}
    {
      sessions := sessions - {session.id};
      WriteFinal(session, exitCode, reason);
    }

    /** Writes the final state of a session that has left the live ones, once. */
    method WriteFinal(session: LiveSession, exitCode: Option<int>, reason: string)
      requires Valid() && session !in sessions.Values
      modifies this`rows, session`finalized
      ensures Valid() && View() == M.Finalize(old(View()), old(session.Snapshot()), exitCode, reason)
      ensures session.finalized
    {
      if session.finalized { return; }
      session.finalized := true;
      rows := rows[session.id := M.Rows(rows, session.id)
          + [M.Final(exitCode, reason, session.bytesIn, session.bytesOut)]];
    }

    method OnBrowserClose(ticket: M.Ticket)
      requires Valid()
      modifies this`sessions, this`byTicket, this`rows, sessions.Values
      ensures Valid() && View() == M.BrowserClose(old(View()), ticket)
    {
      var id := if ticket in byTicket then byTicket[ticket] else "";
      byTicket := byTicket - {ticket};
      if id == "" || id !in sessions { return; }
      Close(sessions[id], None, "closed");
    }

    method OnAgentTermFrame(id: M.SessionId, f: M.AgentFrame)
      requires Valid()
      modifies this`sessions, this`rows, sessions.Values
      ensures Valid() && View() == M.OnAgent(old(View()), id, f)
    {
      if id !in sessions { return; }
      var session := sessions[id];
      match f {
        case Data(size) => session.bytesOut := session.bytesOut + size;
        case Started(ok, code) => if !ok { Close(session, None, "start_failed:" + code); }
        case Exit(exitCode, reason) => Close(session, exitCode, reason);
      }
    }

    method KillSession(id: M.SessionId) returns (found: bool)
      requires Valid()
      modifies this`sessions, this`rows, sessions.Values
      ensures Valid() && View() == M.Kill(old(View()), id)
      ensures found == (id in old(sessions))
    {
      if id !in sessions { return false; }
      Close(sessions[id], None, "killed");
      return true;
    }

    /** Visits one session, the `i`-th of `ids`, the ones before it having been visited. */
    method SweepNext(ids: seq<M.SessionId>, i: nat, now: int, ghost before: M.Hub)
      requires Valid() && i < |ids| && ids[i] in sessions && View() == M.SweepList(before, ids[..i], now)
      modifies this`sessions, this`rows, sessions[ids[i]]
      ensures Valid() && View() == M.SweepList(before, ids[..i + 1], now)
      ensures sessions == old(sessions) || sessions == old(sessions) - {ids[i]}
    {
      var session := sessions[ids[i]];
      assert View().sessions[session.id] == session.Snapshot();
      assert ids[..i + 1][..i] == ids[..i];
      var reason := M.LimitExpired(session.startedAt, session.lastInputAt, session.limits, now);
      if reason.Some? { Close(session, None, reason.value); }
    }

    method Sweep(now: int)
      requires Valid()
      modifies this`sessions, this`rows, sessions.Values
      ensures Valid() && View() == M.Sweep(old(View()), now)
    {
      var ids := ListOf(sessions.Keys);
      ghost var before, all := View(), sessions;
      assert ids[..0] == [];
      for i := 0 to |ids|
        invariant Valid()
        invariant forall id | id in sessions :: id in all && sessions[id] == all[id]
        invariant forall j | i <= j < |ids| :: ids[j] in sessions
        invariant View() == M.SweepList(before, ids[..i], now)
      {
        SweepNext(ids, i, now, before);
      }
      assert ids[..|ids|] == ids;
      assert before.sessions.Keys == all.Keys;
      M.SweepListIsSweep(before, ids, now);
    }
  }
}
