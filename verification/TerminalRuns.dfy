/** What becomes of a terminal session over a whole run: the close of its browser, and the sweeps. */
module TerminalRuns {
  import opened Wrappers
  import opened Terminal

  // ----- what is opened stays opened -----

  lemma OneMore(evs: seq<Event>, ev: Event)
    ensures Exec(evs + [ev]) == Step(Exec(evs), ev)
  {
    assert (evs + [ev])[..|evs|] == evs;
  }

  lemma InIsCounted(os: seq<(Ticket, SessionId)>, o: (Ticket, SessionId))
    requires o in os
    ensures CountId(os, o.1) > 0 && CountTicket(os, o.0) > 0
  {
    if os[|os| - 1] != o { InIsCounted(os[..|os| - 1], o); }
  }

  lemma {:induction false} CountedHasTicket(os: seq<(Ticket, SessionId)>, t: Ticket)
    requires CountTicket(os, t) > 0
    ensures exists o | o in os :: o.0 == t
  {
    if os[|os| - 1].0 != t { CountedHasTicket(os[..|os| - 1], t); } else { assert os[|os| - 1] in os; }
  }

  lemma DistinctPrefix(evs: seq<Event>, k: nat)
    requires DistinctMints(evs) && k <= |evs|
    ensures DistinctMints(evs[..k])
  {
  }

  lemma {:induction false} OpenedStays(evs: seq<Event>, k: nat)
    requires k <= |evs|
    ensures Opened(evs[..k]) <= Opened(evs)
  {
    if k == |evs| {
      assert evs[..k] == evs;
    } else {
      var n := |evs| - 1;
      assert evs[..n][..k] == evs[..k];
      OpenedStays(evs[..n], k);
    }
  }

  /** Without an opening no session comes to life. */
  lemma StepOpensNone(h: Hub, ev: Event, id: SessionId, q: Hub)
    requires q == Step(h, ev) && OpenedBy(h, ev) == []
    ensures id in q.sessions ==> id in h.sessions
  {
    match ev
    case DoAgent(_, _) =>
    case DoClose(_) =>
    case _ =>
  }

  /** Only its own close takes a ticket's name. */
  lemma StepKeepsNames(h: Hub, ev: Event, t: Ticket, q: Hub)
    requires q == Step(h, ev) && OpenedBy(h, ev) == []
    ensures ev != DoClose(t) && t in h.byTicket ==> t in q.byTicket && q.byTicket[t] == h.byTicket[t]
    ensures t in q.byTicket ==> t in h.byTicket && q.byTicket[t] == h.byTicket[t]
  {
    match ev
    case DoAgent(_, _) =>
    case DoClose(_) =>
    case _ =>
  }

  lemma {:induction false} NamesAreOpened(evs: seq<Event>, t: Ticket)
    requires t in Exec(evs).byTicket
    ensures (t, Exec(evs).byTicket[t]) in Opened(evs)
  {
    if evs != [] {
      var n := |evs| - 1;
      var h := Exec(evs[..n]);
      if OpenedBy(h, evs[n]) == [] { StepKeepsNames(h, evs[n], t, Exec(evs)); }
      if t in h.byTicket && Exec(evs).byTicket[t] == h.byTicket[t] { NamesAreOpened(evs[..n], t); }
    }
  }

  /** Only the session being opened comes to life. */
  lemma OpeningAddsOne(h: Hub, ev: Event, o: (Ticket, SessionId))
    requires OpenedBy(h, ev) == [o]
    ensures forall id | id in Step(h, ev).sessions :: id == o.1 || id in h.sessions
    ensures Step(h, ev).byTicket == h.byTicket[o.0 := o.1]
  {
  }

  lemma OpenedTwice(evs: seq<Event>, t: Ticket, id: SessionId, o: (Ticket, SessionId))
    requires evs != [] && DistinctMints(evs) && (t, id) in Opened(evs[..|evs| - 1])
    requires OpenedBy(Exec(evs[..|evs| - 1]), evs[|evs| - 1]) == [o]
    ensures o.0 != t && o.1 != id
  {
    InIsCounted(Opened(evs[..|evs| - 1]), (t, id));
    OpenedGrows(evs, id, t);
    CountSnoc([], o, id, t);
    assert [] + [o] == [o];
    TicketOpensOnce(evs, t);
    OpensOnce(evs, id);
  }

  /** A live session is found by its ticket, unless its id is empty. */
  lemma {:induction false} LiveIsNamed(evs: seq<Event>, t: Ticket, id: SessionId)
    requires DistinctMints(evs) && (t, id) in Opened(evs) && id != "" && id in Exec(evs).sessions
    ensures t in Exec(evs).byTicket && Exec(evs).byTicket[t] == id
  {
    var n := |evs| - 1;
    var h, ev := Exec(evs[..n]), evs[n];
    var opening := OpenedBy(h, ev);
    if (t, id) !in opening {
      assert (t, id) in Opened(evs[..n]);
      DistinctPrefix(evs, n);
      if opening == [] {
        StepOpensNone(h, ev, id, Exec(evs));
        StepKeepsNames(h, ev, t, Exec(evs));
        LiveIsNamed(evs[..n], t, id);
      } else {
        var o := opening[0];
        OpenedTwice(evs, t, id, o);
        OpeningAddsOne(h, ev, o);
        LiveIsNamed(evs[..n], t, id);
      }
    }
  }

  /** A session that is over stays over. */
  lemma {:induction false} NeverBack(evs: seq<Event>, k: nat, t: Ticket, id: SessionId)
    requires DistinctMints(evs) && k <= |evs| && (t, id) in Opened(evs[..k]) && id !in Exec(evs[..k]).sessions
    ensures id !in Exec(evs).sessions
  {
    if k == |evs| {
      assert evs[..k] == evs;
    } else {
      var n := |evs| - 1;
      var h, ev := Exec(evs[..n]), evs[n];
      assert evs[..n][..k] == evs[..k];
      DistinctPrefix(evs, n);
      NeverBack(evs[..n], k, t, id);
      OpenedStays(evs[..n], k);
      assert (t, id) in Opened(evs[..n]);
      if OpenedBy(h, ev) == [] {
        StepOpensNone(h, ev, id, Exec(evs));
      } else {
        var o := OpenedBy(h, ev)[0];
        OpenedTwice(evs, t, id, o);
        OpeningAddsOne(h, ev, o);
      }
    }
  }

  // ----- a browser that leaves -----

  /** The ticket has opened nothing yet: it is stored, or its policy is being loaded, or it is
      still to be minted. */
  predicate Waiting(evs: seq<Event>, t: Ticket) { Held(Exec(evs), t) > 0 || Mints(evs, t) == 0 }

  /** A ticket that is no longer held opens something only after another mint. */
  lemma {:induction false} HeldIsSpent(evs: seq<Event>, k: nat, t: Ticket)
    requires k <= |evs|
    ensures CountTicket(Opened(evs), t) + Held(Exec(evs), t) + Mints(evs[..k], t)
            <= CountTicket(Opened(evs[..k]), t) + Held(Exec(evs[..k]), t) + Mints(evs, t)
  {
    if k == |evs| {
      assert evs[..k] == evs;
    } else {
      var n := |evs| - 1;
      assert evs[..n][..k] == evs[..k];
      HeldIsSpent(evs[..n], k, t);
      HeldOnce(Exec(evs[..n]), evs[n], t);
      OpenedGrows(evs, "", t);
    }
  }

  lemma {:induction false} MintsStay(evs: seq<Event>, k: nat, t: Ticket)
    requires k <= |evs|
    ensures Mints(evs[..k], t) <= Mints(evs, t)
  {
    if k == |evs| {
      assert evs[..k] == evs;
    } else {
      assert evs[..|evs| - 1][..k] == evs[..k];
      MintsStay(evs[..|evs| - 1], k, t);
    }
  }

  lemma OneSessionATicket(evs: seq<Event>, t: Ticket, id: SessionId, other: SessionId)
    requires DistinctMints(evs) && (t, id) in Opened(evs) && (t, other) in Opened(evs)
    ensures id == other
  {
    AllMinted(evs);
    assert Minted(evs, t, id) && Minted(evs, t, other);
  }

  lemma UnopenedHasNone(evs: seq<Event>, k: nat, t: Ticket, id: SessionId)
    requires DistinctMints(evs) && k <= |evs| && (t, id) in Opened(evs) && (t, id) !in Opened(evs[..k])
    ensures CountTicket(Opened(evs[..k]), t) == 0
  {
    if CountTicket(Opened(evs[..k]), t) > 0 {
      OpenedStays(evs, k);
      CountedHasTicket(Opened(evs[..k]), t);
      var o :| o in Opened(evs[..k]) && o.0 == t;
      OneSessionATicket(evs, t, id, o.1);
    }
  }

  lemma WaitingIffUnopened(evs: seq<Event>, k: nat, t: Ticket, id: SessionId)
    requires DistinctMints(evs) && k <= |evs| && (t, id) in Opened(evs)
    ensures Waiting(evs[..k], t) <==> (t, id) !in Opened(evs[..k])
  {
    OpenedStays(evs, k);
    TicketOpensOncePerMint(evs[..k], t);
    MintsStay(evs, k, t);
    MintsOnce(evs, t);
    if (t, id) in Opened(evs[..k]) {
      InIsCounted(Opened(evs[..k]), (t, id));
    } else {
      UnopenedHasNone(evs, k, t, id);
      InIsCounted(Opened(evs), (t, id));
      HeldIsSpent(evs, k, t);
    }
  }

  lemma CloseWhileWaiting(evs: seq<Event>, t: Ticket)
    requires DistinctMints(evs) && Waiting(evs, t)
    ensures BrowserClose(Exec(evs), t) == Exec(evs)
  {
    if t in Exec(evs).byTicket {
      NamesAreOpened(evs, t);
      InIsCounted(Opened(evs), (t, Exec(evs).byTicket[t]));
      TicketOpensOncePerMint(evs, t);
      MintsOnce(evs, t);
    }
    assert Exec(evs).byTicket - {t} == Exec(evs).byTicket;
  }

  lemma CloseEndsNow(evs: seq<Event>, t: Ticket, id: SessionId)
    requires DistinctMints(evs) && (t, id) in Opened(evs) && id != ""
    ensures id !in BrowserClose(Exec(evs), t).sessions
  {
    var h := Exec(evs);
    if id in h.sessions { LiveIsNamed(evs, t, id); } else { StepOpensNone(h, DoClose(t), id, BrowserClose(h, t)); }
  }

  lemma StillOpened(evs: seq<Event>, k: nat, o: (Ticket, SessionId))
    requires k <= |evs| && o in Opened(evs[..k])
    ensures o in Opened(evs)
  {
    OpenedStays(evs, k);
  }

  lemma CloseEnds(evs: seq<Event>, k: nat, t: Ticket, id: SessionId, pre: seq<Event>, upto: seq<Event>)
    requires DistinctMints(evs) && k < |evs| && evs[k] == DoClose(t) && pre == evs[..k] && upto == evs[..k + 1]
    requires (t, id) in Opened(pre) && id != ""
    ensures id !in Exec(evs).sessions
  {
    DistinctPrefix(evs, k);
    CloseEndsNow(pre, t, id);
    assert upto == pre + [DoClose(t)] && upto[..k] == pre;
    OneMore(pre, DoClose(t));
    StillOpened(upto, k, (t, id));
    NeverBack(evs, k + 1, t, id);
  }

  /** A browser that leaves is noticed if and only if its session has come to life by then. While
      the ticket is still waiting (for its policy, above all) the close changes nothing at all, and
      the session comes to life afterwards and lives until something else ends it; otherwise it is
      over for good from the close on. (The hub takes an empty session id for none.) */
  lemma CloseIsMissedIff(evs: seq<Event>, k: nat, t: Ticket, id: SessionId)
    requires DistinctMints(evs) && k < |evs| && evs[k] == DoClose(t) && (t, id) in Opened(evs)
    ensures Waiting(evs[..k], t) ==> Exec(evs[..k + 1]) == Exec(evs[..k])
    ensures id in Exec(evs).sessions <==> (Waiting(evs[..k], t) || id == "") && Rows(Exec(evs).rows, id) == []
  {
    assert evs[..k + 1][..k] == evs[..k];
    DistinctPrefix(evs, k);
    if Waiting(evs[..k], t) { CloseWhileWaiting(evs[..k], t); }
    WaitingIffUnopened(evs, k, t, id);
    InIsCounted(Opened(evs), (t, id));
    SessionsEndOnce(evs, id);
    if !Waiting(evs[..k], t) && id != "" { CloseEnds(evs, k, t, id, evs[..k], evs[..k + 1]); }
  }

  /** Minted, presented, closed, then loaded: without limits no sweep ever ends the session. */
  lemma MissedCloseExample(evs: seq<Event>, sweep: int)
    requires evs == [DoMint("t", Claims("s", "n"), 30_000, 0), DoOpen("t", true, 1), DoClose("t"),
                     DoLoaded("t", Limits(0, 0), 2), DoSweep(sweep)]
    ensures DistinctMints(evs) && Waiting(evs[..2], "t") && "s" in Exec(evs).sessions
  {
    assert evs[..4][..3] == evs[..3] && evs[..3][..2] == evs[..2] && evs[..2][..1] == evs[..1] && evs[..1][..0] == [];
    var h1 := Mint(EMPTY, "t", Claims("s", "n"), 30_000, 0);
    assert Exec(evs[..1]) == h1;
    assert Exec(evs[..2]) == Open(h1, "t", true, 1) && "t" in Exec(evs[..2]).opening;
    assert Exec(evs[..3]) == BrowserClose(Exec(evs[..2]), "t");
    assert Exec(evs[..4]) == Loaded(Exec(evs[..3]), "t", Limits(0, 0), 2);
  }

  // ----- sweeps -----

  /** Inside both limits at that time; a limit of 0 is none. */
  predicate Within(s: Session, at: int) {
    (s.limits.maxMs > 0 ==> at - s.startedAt < s.limits.maxMs)
        && (s.limits.idleMs > 0 ==> at - s.lastInputAt < s.limits.idleMs)
  }

  /** Sessions are opened and typed into after the k-th event at no earlier time than `at`. */
  predicate NotBefore(evs: seq<Event>, k: nat, at: int) {
    forall j | k < j < |evs| && (evs[j].DoLoaded? || evs[j].DoInput?) :: at <= evs[j].now
  }

  /** The limits of a session and its start stay, and only input moves the time of its last input. */
  lemma StepStaysWithin(h: Hub, ev: Event, at: int, id: SessionId, q: Hub)
    requires q == Step(h, ev) && (id in h.sessions ==> Within(h.sessions[id], at))
    requires ev.DoLoaded? || ev.DoInput? ==> at <= ev.now
    ensures id in q.sessions ==> Within(q.sessions[id], at)
  {
    match ev
    case DoAgent(_, _) =>
    case DoClose(_) =>
    case _ =>
  }

  lemma {:induction false} SweptStayWithin(evs: seq<Event>, k: nat)
    requires k < |evs| && evs[k].DoSweep? && NotBefore(evs, k, evs[k].now)
    ensures forall id | id in Exec(evs).sessions :: Within(Exec(evs).sessions[id], evs[k].now)
  {
    var n := |evs| - 1;
    if k < n {
      assert forall j | k < j < n :: evs[..n][j] == evs[j];
      SweptStayWithin(evs[..n], k);
      forall id { StepStaysWithin(Exec(evs[..n]), evs[n], evs[k].now, id, Exec(evs)); }
    }
  }

  /** With a sweep at most `period` ago, no live session is past its maximum length or its idle time
      by as much as that; right after the sweep, none is past them at all. */
  lemma NoSessionOverstays(evs: seq<Event>, k: nat, id: SessionId, now: int, period: nat)
    requires k < |evs| && evs[k].DoSweep? && NotBefore(evs, k, evs[k].now) && now <= evs[k].now + period
    requires id in Exec(evs).sessions
    ensures Within(Exec(evs).sessions[id], now - period)
  {
    SweptStayWithin(evs, k);
  }

  /** What a sweep is to make of a session: inside its limits it stays as it is, otherwise it is
      given its one final state, with the reason and all it has counted. */
  predicate SweptRight(s: Session, before: seq<Final>, h: Hub, id: SessionId, now: int) {
    if Within(s, now) then id in h.sessions && h.sessions[id] == s && Rows(h.rows, id) == before
    else
      id !in h.sessions &&
      exists reason | reason in {"max_session", "idle_timeout"} ::
        Rows(h.rows, id) == before + [Final(None, reason, s.bytesIn, s.bytesOut)]
  }

  lemma SweepIsRight(h: Hub, id: SessionId, now: int, q: Hub)
    requires id in h.sessions && !h.sessions[id].finalized && q == Sweep(h, now)
    ensures SweptRight(h.sessions[id], Rows(h.rows, id), q, id, now)
  {
    var s := h.sessions[id];
    if !Within(s, now) {
      var reason := Expiry(s, now).value;
      assert reason in {"max_session", "idle_timeout"};
      assert Rows(q.rows, id) == Rows(h.rows, id) + [Final(None, reason, s.bytesIn, s.bytesOut)];
    }
  }

  lemma LiveIsUnfinished(evs: seq<Event>, id: SessionId, h: Hub)
    requires h == Exec(evs) && id in h.sessions
    ensures !h.sessions[id].finalized
  {
    SessionsAreConserved(evs, id);
  }

  lemma SweepEndsTheOthers(evs: seq<Event>, id: SessionId, now: int, h: Hub)
    requires h == Exec(evs) && id in h.sessions
    ensures Exec(evs + [DoSweep(now)]) == Sweep(h, now)
    ensures SweptRight(h.sessions[id], Rows(h.rows, id), Sweep(h, now), id, now)
  {
    LiveIsUnfinished(evs, id, h);
    OneMore(evs, DoSweep(now));
    SweepIsRight(h, id, now, Sweep(h, now));
  }
}
