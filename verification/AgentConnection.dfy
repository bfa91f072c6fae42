/** The agent's reconnecting link: sockets, timers and handlers as a state machine over events. */
module AgentConnection {
  import opened Wrappers

  datatype Config = Config(resolves: bool, idleMs: nat, strandedMs: nat, baseMs: real, maxMs: real, factor: real)

  const MAX_DROPPED: nat := 3

  datatype Ready = Connecting | Open | Closing | Closed

  /** One dial: its socket and the variables its handlers share. */
  datatype Dial = Dial(ready: Ready, settled: bool, timer: bool)

  type Id = nat

  /** A reconnect delay and the attempt it was drawn for. */
  datatype Delay = Delay(ms: real, attempt: nat)

  datatype Conn = Conn(
    ws: Option<Id>, current: Option<Id>, dials: seq<Dial>,
    resolving: nat, timers: nat, fired: nat, delays: seq<Delay>,
    attempt: nat, closed: bool, armed: bool, droppedInARow: nat,
    lastInboundAt: int, lastAliveAt: int, strandedReported: bool)

  const IDLE := Conn(None, None, [], 0, 0, 0, [], 0, false, false, 0, 0, 0, false)

  datatype Message = Heartbeat | Ping | RegisterAck | Command | Unreadable(hasId: bool)

  /** `random` is what the clock and the dice add to an event that may schedule a reconnect. */
  datatype Event =
    | Start(now: int)
    | Resolved(now: int)
    | DialTimeout(id: Id, random: real)
    | SocketOpens(id: Id)
    | Received(id: Id, m: Message, now: int, random: real)
    | SocketCloses(id: Id, random: real)
    | Watchdog(now: int, random: real)
    | ReconnectFires(now: int)
    | StableFires
    | Redial(now: int)
    | Stop

  // ----- pieces -----

  function Power(x: real, n: nat): real { if n == 0 then 1.0 else x * Power(x, n - 1) }

  function Min(x: real, y: real): real { if x <= y then x else y }

  function Ceiling(c: Config, attempt: nat): real { Min(c.maxMs, c.baseMs * Power(c.factor, attempt)) }

  function Scale(random: real, ceiling: real): real { random * ceiling }

  function Schedule(c: Config, s: Conn, random: real): Conn {
    s.(timers := s.timers + 1, attempt := s.attempt + 1,
       delays := s.delays + [Delay(Scale(random, Ceiling(c, s.attempt)), s.attempt)])
  }

  predicate LinkIsDead(c: Config, s: Conn, now: int) { s.armed && now - s.lastInboundAt > c.idleMs }

  function StartDial(s: Conn, now: int): Conn {
    s.(dials := s.dials + [Dial(Connecting, false, true)], ws := Some(|s.dials|), current := Some(|s.dials|),
       lastInboundAt := now, armed := false)
  }

  function Connect(c: Config, s: Conn, now: int): Conn {
    if c.resolves then s.(resolving := s.resolving + 1) else StartDial(s, now)
  }

  function CloseSocket(d: Dial): Dial {
    if d.ready == Closed then d else d.(ready := Closing)
  }

  /** Settles a dial once: the socket is given up and, unless stopped, a reconnect scheduled. */
  function Settle(c: Config, s: Conn, id: Id, d: Dial, random: real): Conn
    requires id < |s.dials|
  {
    var s1 := s.(dials := s.dials[id := d.(settled := true, timer := false)],
                 ws := if s.ws == Some(id) then None else s.ws);
    if s.closed then s1 else Schedule(c, s1, random)
  }

  function Abandon(c: Config, s: Conn, id: Id, random: real): Conn
    requires id < |s.dials|
  {
    if s.dials[id].settled then s else Settle(c, s, id, CloseSocket(s.dials[id]), random)
  }

  function AbandonCurrent(c: Config, s: Conn, random: real): Conn {
    if s.current.Some? && s.current.value < |s.dials| then Abandon(c, s, s.current.value, random) else s
  }

  function Drop(c: Config, s: Conn, random: real): Conn {
    var s1 := s.(droppedInARow := s.droppedInARow + 1);
    if s1.droppedInARow >= MAX_DROPPED then AbandonCurrent(c, s1.(droppedInARow := 0), random) else s1
  }

  function Receive(c: Config, s: Conn, id: Id, m: Message, now: int, random: real): Conn {
    if s.ws != Some(id) then s
    else
      var s1 := s.(lastInboundAt := now, lastAliveAt := now, strandedReported := false);
      match m
      case Unreadable(hasId) => if hasId then Drop(c, s1, random) else s1
      case Heartbeat => s1.(armed := true)
      case Ping => s1.(armed := true, droppedInARow := 0)
      case RegisterAck => s1
      case Command => s1.(droppedInARow := 0)
  }

  function CheckLink(c: Config, s: Conn, now: int, random: real): Conn {
    if s.closed then s
    else
      var open := s.ws.Some? && s.ws.value < |s.dials| && s.dials[s.ws.value].ready == Open;
      var s1 := if open && LinkIsDead(c, s, now) then AbandonCurrent(c, s, random) else s;
      if !s1.strandedReported && now - s1.lastAliveAt > c.strandedMs then s1.(strandedReported := true) else s1
  }

  predicate Live(s: Conn) {
    s.ws.Some? && s.ws.value < |s.dials| && s.dials[s.ws.value].ready in {Connecting, Open}
  }

  function CloseCurrent(s: Conn): Conn {
    if s.ws.Some? && s.ws.value < |s.dials|
    then s.(dials := s.dials[s.ws.value := CloseSocket(s.dials[s.ws.value])]) else s
  }

  /** The event can happen: sockets and timers fire what they still have to fire. */
  predicate Possible(s: Conn, ev: Event) {
    match ev
    case Resolved(_) => s.resolving > 0
    case DialTimeout(id, _) => id < |s.dials| && s.dials[id].timer
    case SocketOpens(id) => id < |s.dials| && s.dials[id].ready == Connecting
    case Received(id, _, _, _) => id < |s.dials|
    case SocketCloses(id, _) => id < |s.dials| && s.dials[id].ready != Closed
    case ReconnectFires(_) => s.timers > 0
    case _ => true
  }

  function Step(c: Config, s: Conn, ev: Event): Conn
    requires Possible(s, ev)
  {
    match ev
    case Start(now) => Connect(c, s.(lastAliveAt := now), now)
    case Resolved(now) =>
      var s1 := s.(resolving := s.resolving - 1);
      if s.closed then s1 else StartDial(s1, now)
    case DialTimeout(id, random) =>
      if s.dials[id].ready == Open || s.dials[id].settled then s.(dials := s.dials[id := s.dials[id].(timer := false)])
      else Abandon(c, s, id, random)
    case SocketOpens(id) =>
      s.(dials := s.dials[id := s.dials[id].(ready := Open, timer := false)], droppedInARow := 0)
    case Received(id, m, now, random) => Receive(c, s, id, m, now, random)
    case SocketCloses(id, random) =>
      var d := s.dials[id].(ready := Closed, timer := false);
      if d.settled then s.(dials := s.dials[id := d]) else Settle(c, s, id, d, random)
    case Watchdog(now, random) => CheckLink(c, s, now, random)
    case ReconnectFires(now) =>
      var s1 := s.(timers := s.timers - 1, fired := s.fired + 1);
      if s.closed then s1 else Connect(c, s1, now)
    case StableFires => s.(attempt := 0)
    case Redial(now) =>
      var s1 := s.(attempt := 0);
      if Live(s) then CloseCurrent(s1) else Connect(c, s1, now)
    case Stop => CloseCurrent(s.(closed := true))
  }

  // ----- tokens -----

  function Unsettled(dials: seq<Dial>): nat {
    if dials == [] then 0
    else Unsettled(dials[..|dials| - 1]) + if dials[|dials| - 1].settled then 0 else 1
  }

  /** The pending causes of a future dial: an address being resolved, a dial that is not settled,
      a reconnect timer. */
  function Tokens(s: Conn): nat { s.resolving + Unsettled(s.dials) + s.timers }

  lemma {:induction false} UnsettledUpdate(dials: seq<Dial>, i: nat, d: Dial)
    requires i < |dials|
    ensures Unsettled(dials[i := d]) + (if dials[i].settled then 0 else 1)
            == Unsettled(dials) + if d.settled then 0 else 1
  {
    var n := |dials| - 1;
    if i < n {
      assert dials[i := d][..n] == dials[..n][i := d];
      UnsettledUpdate(dials[..n], i, d);
    } else {
      assert dials[i := d][..n] == dials[..n];
    }
  }

  lemma UnsettledAppend(dials: seq<Dial>, d: Dial)
    ensures Unsettled(dials + [d]) == Unsettled(dials) + if d.settled then 0 else 1
  {
    assert (dials + [d])[..|dials|] == dials;
  }

  /** The current dial is the latest one, and the socket in use is its own and not settled. */
  ghost predicate Tidy(s: Conn) {
    && s.current == (if s.dials == [] then None else Some(|s.dials| - 1))
    && (s.ws.Some? ==> s.ws == s.current && !s.dials[s.ws.value].settled)
  }

  ghost predicate InRange(ev: Event) {
    match ev
    case DialTimeout(_, r) => 0.0 <= r < 1.0
    case Received(_, _, _, r) => 0.0 <= r < 1.0
    case SocketCloses(_, r) => 0.0 <= r < 1.0
    case Watchdog(_, r) => 0.0 <= r < 1.0
    case _ => true
  }

  predicate ValidConfig(c: Config) { c.baseMs >= 0.0 && c.maxMs >= 0.0 && c.factor >= 0.0 }

  ghost predicate Paced(c: Config, s: Conn) {
    forall i | 0 <= i < |s.delays| :: 0.0 <= s.delays[i].ms <= Ceiling(c, s.delays[i].attempt)
  }

  lemma {:induction false} PowerPositive(x: real, n: nat)
    requires x >= 0.0
    ensures Power(x, n) >= 0.0
  {
    if n > 0 { PowerPositive(x, n - 1); }
  }

  lemma ProductIsPositive(x: real, y: real)
    requires x >= 0.0 && y >= 0.0
    ensures x * y >= 0.0
  {
  }

  lemma ScaleDown(r: real, x: real)
    requires 0.0 <= r < 1.0 && x >= 0.0
    ensures 0.0 <= Scale(r, x) <= x
  {
    ProductIsPositive(r, x);
    ProductIsPositive(1.0 - r, x);
    assert (1.0 - r) * x == x - r * x;
  }

  lemma CeilingIsPositive(c: Config, attempt: nat)
    requires ValidConfig(c)
    ensures Ceiling(c, attempt) >= 0.0
  {
    PowerPositive(c.factor, attempt);
    assert c.baseMs * Power(c.factor, attempt) >= 0.0;
  }

  lemma ScheduleIsPaced(c: Config, s: Conn, random: real)
    requires ValidConfig(c) && 0.0 <= random < 1.0 && Paced(c, s)
    ensures Paced(c, Schedule(c, s, random))
  {
    CeilingIsPositive(c, s.attempt);
    var ceiling := Ceiling(c, s.attempt);
    ScaleDown(random, ceiling);
    var q := Schedule(c, s, random);
    forall i | 0 <= i < |q.delays| ensures 0.0 <= q.delays[i].ms <= Ceiling(c, q.delays[i].attempt) {
      assert q.delays[i] == if i < |s.delays| then s.delays[i] else Delay(Scale(random, ceiling), s.attempt);
    }
  }

  lemma SettleCounts(c: Config, s: Conn, id: Id, d: Dial, random: real, q: Conn)
    requires id < |s.dials| && !s.dials[id].settled && q == Settle(c, s, id, d, random)
    requires ValidConfig(c) && 0.0 <= random < 1.0 && Paced(c, s)
    ensures Tokens(q) == Tokens(s) - (if s.closed then 1 else 0)
    ensures Paced(c, q) && |q.dials| == |s.dials| && q.resolving == s.resolving && q.fired == s.fired
        && q.closed == s.closed
    ensures Tidy(s) ==> Tidy(q)
  {
    UnsettledUpdate(s.dials, id, d.(settled := true, timer := false));
    var s1 := s.(dials := s.dials[id := d.(settled := true, timer := false)],
                 ws := if s.ws == Some(id) then None else s.ws);
    assert Paced(c, s1);
    if !s.closed { ScheduleIsPaced(c, s1, random); }
  }

  lemma ConnectCounts(c: Config, s: Conn, now: int, q: Conn)
    requires q == Connect(c, s, now)
    ensures Tokens(q) == Tokens(s) + 1 && |q.dials| + q.resolving == |s.dials| + s.resolving + 1
    ensures q.fired == s.fired && q.closed == s.closed && q.delays == s.delays
    ensures Tidy(s) ==> Tidy(q)
  {
    UnsettledAppend(s.dials, Dial(Connecting, false, true));
    if !c.resolves { DialIsTidy(s, now, q); }
  }

  lemma DialIsTidy(s: Conn, now: int, q: Conn)
    requires q == StartDial(s, now)
    ensures Tidy(q)
  {
    var n := |s.dials|;
    assert |q.dials| == n + 1 && q.dials[n] == Dial(Connecting, false, true);
  }

  /** What every event but a start, a redial and a stop keeps. */
  ghost predicate Keeps(c: Config, s: Conn, q: Conn) {
    && Tokens(q) == Tokens(s) && Tidy(q) && Paced(c, q) && !q.closed
    && |q.dials| + q.resolving - q.fired == |s.dials| + s.resolving - s.fired
  }

  lemma AbandonKeeps(c: Config, s: Conn, random: real)
    requires ValidConfig(c) && 0.0 <= random < 1.0 && Tidy(s) && Paced(c, s) && !s.closed
    ensures Keeps(c, s, AbandonCurrent(c, s, random))
  {
    if s.current.Some? && !s.dials[s.current.value].settled {
      var id := s.current.value;
      SettleCounts(c, s, id, CloseSocket(s.dials[id]), random, AbandonCurrent(c, s, random));
    }
  }

  predicate Ordinary(ev: Event) { !ev.Start? && !ev.Redial? && !ev.Stop? }

  lemma SettleKeeps(c: Config, s: Conn, id: Id, d: Dial, random: real)
    requires ValidConfig(c) && 0.0 <= random < 1.0 && Tidy(s) && Paced(c, s) && !s.closed && id < |s.dials|
    requires s.dials[id].settled ==> d.settled
    ensures Keeps(c, s, if s.dials[id].settled then s.(dials := s.dials[id := d]) else Settle(c, s, id, d, random))
  {
    if s.dials[id].settled {
      UnsettledUpdate(s.dials, id, d);
    } else {
      SettleCounts(c, s, id, d, random, Settle(c, s, id, d, random));
    }
  }

  lemma UpdateKeeps(c: Config, s: Conn, id: Id, d: Dial, q: Conn)
    requires Tidy(s) && Paced(c, s) && !s.closed && id < |s.dials| && d.settled == s.dials[id].settled
    requires q == s.(dials := s.dials[id := d], droppedInARow := q.droppedInARow)
    ensures Keeps(c, s, q)
  {
    UnsettledUpdate(s.dials, id, d);
  }

  lemma StepKeeps(c: Config, s: Conn, ev: Event)
    requires ValidConfig(c) && InRange(ev) && Tidy(s) && Paced(c, s) && !s.closed && Possible(s, ev) && Ordinary(ev)
    ensures Keeps(c, s, Step(c, s, ev))
  {
    match ev
    case Resolved(now) => UnsettledAppend(s.dials, Dial(Connecting, false, true));
    case DialTimeout(id, random) =>
      var d := s.dials[id];
      if d.ready == Open || d.settled { UpdateKeeps(c, s, id, d.(timer := false), Step(c, s, ev)); }
      else { SettleKeeps(c, s, id, CloseSocket(d), random); }
    case SocketOpens(id) => UpdateKeeps(c, s, id, s.dials[id].(ready := Open, timer := false), Step(c, s, ev));
    case Received(id, m, now, random) => ReceiveKeeps(c, s, id, m, now, random);
    case SocketCloses(id, random) => SettleKeeps(c, s, id, s.dials[id].(ready := Closed, timer := false), random);
    case Watchdog(now, random) => AbandonKeeps(c, s, random);
    case ReconnectFires(now) => ConnectCounts(c, s.(timers := s.timers - 1, fired := s.fired + 1), now, Step(c, s, ev));
    case StableFires =>
  }

  lemma ReceiveKeeps(c: Config, s: Conn, id: Id, m: Message, now: int, random: real)
    requires ValidConfig(c) && 0.0 <= random < 1.0 && Tidy(s) && Paced(c, s) && !s.closed
    ensures Keeps(c, s, Receive(c, s, id, m, now, random))
  {
    var s1 := s.(lastInboundAt := now, lastAliveAt := now, strandedReported := false);
    if s.ws == Some(id) && m == Unreadable(true) {
      var s2 := s1.(droppedInARow := if s1.droppedInARow + 1 >= MAX_DROPPED then 0 else s1.droppedInARow + 1);
      AbandonKeeps(c, s2, random);
    }
  }

  // ----- runs -----

  /** The state after a list of events, if each of them can happen in its turn. */
  function Exec(c: Config, s: Conn, evs: seq<Event>): Option<Conn> {
    if evs == [] then Some(s)
    else
      var before := Exec(c, s, evs[..|evs| - 1]);
      if before.Some? && Possible(before.value, evs[|evs| - 1])
      then Some(Step(c, before.value, evs[|evs| - 1])) else None
  }

  /** The event begins a dial or a lookup by itself: no timer and no lost link asked for it. */
  predicate Begins(s: Conn, ev: Event) { ev.Start? || (ev.Redial? && !Live(s)) }

  /** How often that happens in a run. */
  function Begun(c: Config, s: Conn, evs: seq<Event>): nat {
    if evs == [] then 0
    else
      var before := Exec(c, s, evs[..|evs| - 1]);
      Begun(c, s, evs[..|evs| - 1]) + if before.Some? && Begins(before.value, evs[|evs| - 1]) then 1 else 0
  }

  lemma RedialCounts(c: Config, s: Conn, now: int, q: Conn)
    requires q == Step(c, s, Redial(now))
    ensures Tokens(q) == Tokens(s) + (if Live(s) then 0 else 1) && q.closed == s.closed && q.delays == s.delays
    ensures |q.dials| + q.resolving - q.fired == |s.dials| + s.resolving - s.fired + if Live(s) then 0 else 1
    ensures Tidy(s) ==> Tidy(q)
  {
    var s1 := s.(attempt := 0);
    if Live(s) {
      UnsettledUpdate(s1.dials, s.ws.value, CloseSocket(s.dials[s.ws.value]));
    } else {
      ConnectCounts(c, s1, now, q);
      assert Tidy(s) ==> Tidy(s1);
    }
  }

  lemma StepCounts(c: Config, s: Conn, ev: Event, q: Conn)
    requires ValidConfig(c) && InRange(ev) && Tidy(s) && Paced(c, s) && !s.closed && Possible(s, ev) && !ev.Stop?
    requires q == Step(c, s, ev)
    ensures Tidy(q) && Paced(c, q) && !q.closed
    ensures Tokens(q) == Tokens(s) + if Begins(s, ev) then 1 else 0
    ensures |q.dials| + q.resolving - q.fired == |s.dials| + s.resolving - s.fired + if Begins(s, ev) then 1 else 0
  {
    match ev
    case Start(now) => ConnectCounts(c, s.(lastAliveAt := now), now, q);
    case Redial(now) => RedialCounts(c, s, now, q);
    case _ => StepKeeps(c, s, ev);
  }

  lemma {:induction false} RunCounts(c: Config, s: Conn, evs: seq<Event>, q: Conn)
    requires ValidConfig(c) && Tidy(s) && Paced(c, s) && !s.closed && Exec(c, s, evs) == Some(q)
    requires forall ev | ev in evs :: !ev.Stop? && InRange(ev)
    ensures Tidy(q) && Paced(c, q) && !q.closed && Tokens(q) == Tokens(s) + Begun(c, s, evs)
    ensures |q.dials| + q.resolving - q.fired == |s.dials| + s.resolving - s.fired + Begun(c, s, evs)
  {
    if evs != [] {
      var n := |evs| - 1;
      var m := Exec(c, s, evs[..n]).value;
      RunCounts(c, s, evs[..n], m);
      StepCounts(c, m, evs[n], q);
    }
  }

  /** A connection that has done nothing yet. */
  ghost predicate New(c: Config, s: Conn) {
    Tidy(s) && Paced(c, s) && !s.closed && Tokens(s) == 0 && s.dials == [] && s.resolving == s.fired == 0
  }

  lemma IdleIsNew(c: Config)
    ensures New(c, IDLE)
  {
  }

  /** In every run up to a stop, whatever the interleaving of dial timeouts, late close events,
      watchdog and dropped-frame drops, commands and timers: there are exactly as many pending causes
      of a future dial as there were starts, and redials without a live socket. */
  lemma TokensAreCounted(c: Config, s: Conn, evs: seq<Event>, q: Conn)
    requires ValidConfig(c) && New(c, s) && Exec(c, s, evs) == Some(q)
    requires forall ev | ev in evs :: !ev.Stop? && InRange(ev)
    ensures Tokens(q) == Begun(c, s, evs) && |q.dials| + q.resolving == q.fired + Begun(c, s, evs) && Paced(c, q)
  {
    RunCounts(c, s, evs, q);
  }

  lemma {:induction false} OrdinaryBeginsNothing(c: Config, s: Conn, evs: seq<Event>)
    requires forall ev | ev in evs :: Ordinary(ev)
    ensures Begun(c, s, evs) == 0
  {
    if evs != [] {
      assert evs[|evs| - 1] in evs;
      OrdinaryBeginsNothing(c, s, evs[..|evs| - 1]);
    }
  }

  lemma StartIsOne(c: Config, now: int, idle: Conn, s: Conn)
    requires idle == IDLE && s == Step(c, idle, Start(now))
    ensures Tidy(s) && Paced(c, s) && !s.closed && Tokens(s) == 1 && |s.dials| + s.resolving == 1 && s.fired == 0
  {
    assert Unsettled([]) == 0;
    ConnectCounts(c, idle.(lastAliveAt := now), now, s);
  }

  /** In every run after one start, without redial or stop, whatever the interleaving of dial
      timeouts, late close events, watchdog and dropped-frame drops: exactly one cause of a future
      dial is pending, the dials started are those of the start and of the timers that fired, and
      every delay is within its backoff ceiling. */
  lemma OneReconnectToken(c: Config, now: int, evs: seq<Event>, s: Conn, q: Conn)
    requires ValidConfig(c) && s == Step(c, IDLE, Start(now)) && Exec(c, s, evs) == Some(q)
    requires forall ev | ev in evs :: Ordinary(ev) && InRange(ev)
    ensures Tokens(q) == 1 && |q.dials| + q.resolving == q.fired + 1 && Paced(c, q)
  {
    StartIsOne(c, now, IDLE, s);
    RunCounts(c, s, evs, q);
    OrdinaryBeginsNothing(c, s, evs);
  }

  /** A redial keeps the one token exactly when there is a connecting or open socket to close;
      at any other moment it starts a second dial beside the pending one. */
  lemma RedialKeepsTokenIff(c: Config, now: int, evs: seq<Event>, s: Conn, q: Conn, later: int)
    requires ValidConfig(c) && s == Step(c, IDLE, Start(now)) && Exec(c, s, evs) == Some(q)
    requires forall ev | ev in evs :: Ordinary(ev) && InRange(ev)
    ensures Tokens(Step(c, q, Redial(later))) == 1 <==> Live(q)
  {
    OneReconnectToken(c, now, evs, s, q);
    RedialCounts(c, q, later, Step(c, q, Redial(later)));
  }

  /** A run that loses it: once the first socket has closed, a reconnect timer is pending and no
      socket is alive. */
  lemma RedialBesideTimer(c: Config, now: int)
    requires ValidConfig(c) && !c.resolves
    ensures var q := Exec(c, Step(c, IDLE, Start(now)), [SocketCloses(0, 0.0)]);
            q.Some? && !Live(q.value) && Tokens(q.value) == 1 && Tokens(Step(c, q.value, Redial(now))) == 2
  {
    var s, evs := Step(c, IDLE, Start(now)), [SocketCloses(0, 0.0)];
    assert evs[..0] == [] && Exec(c, s, []) == Some(s);
    var q := Exec(c, s, evs).value;
    OneReconnectToken(c, now, evs, s, q);
    RedialCounts(c, q, now, Step(c, q, Redial(now)));
  }

  // ----- after a stop -----

  /** In a stopped connection no timer is ever set, and a dial or an address lookup is started
      exactly by a start, and by a redial that finds no connecting or open socket. */
  lemma StoppedStepIff(c: Config, s: Conn, ev: Event, q: Conn)
    requires s.closed && Possible(s, ev) && q == Step(c, s, ev)
    ensures q.closed && q.timers <= s.timers && q.delays == s.delays
    ensures |q.dials| > |s.dials| || q.resolving > s.resolving <==> Begins(s, ev)
    ensures |q.dials| == |s.dials| + if Begins(s, ev) && !c.resolves then 1 else 0
    ensures q.resolving <= s.resolving + if Begins(s, ev) && c.resolves then 1 else 0
  {
    if ev.DialTimeout? || ev.Received? || ev.SocketCloses? || ev.Watchdog? { LostWhenStopped(c, s, ev, q); }
  }

  lemma LostWhenStopped(c: Config, s: Conn, ev: Event, q: Conn)
    requires s.closed && Possible(s, ev) && q == Step(c, s, ev)
    requires ev.DialTimeout? || ev.Received? || ev.SocketCloses? || ev.Watchdog?
    ensures q.closed && q.timers == s.timers && q.delays == s.delays && |q.dials| == |s.dials|
        && q.resolving == s.resolving
  {}

  /** After a stop, whatever happens: no reconnect is scheduled, the dials are one more for each
      start and each redial without a live socket, and none of them if the address is looked up
      first, because the lookup finds the connection stopped. */
  lemma {:induction false} StopIsFinal(c: Config, s: Conn, evs: seq<Event>)
    requires s.closed && Exec(c, s, evs).Some?
    ensures var q := Exec(c, s, evs).value;
            && q.closed && q.timers <= s.timers && q.delays == s.delays
            && |q.dials| == |s.dials| + (if c.resolves then 0 else Begun(c, s, evs))
            && q.resolving <= s.resolving + if c.resolves then Begun(c, s, evs) else 0
  {
    if evs != [] {
      var n := |evs| - 1;
      StopIsFinal(c, s, evs[..n]);
      StoppedStepIff(c, Exec(c, s, evs[..n]).value, evs[n], Exec(c, s, evs).value);
    }
  }

  /** A run that dials after a stop: once the socket has closed, a redial starts another. */
  lemma RedialAfterStop(c: Config, now: int)
    requires !c.resolves
    ensures var evs := [Start(now), Stop, SocketCloses(0, 0.0), Redial(now)];
            var q := Exec(c, IDLE, evs);
            q.Some? && q.value.closed && |q.value.dials| == 2 && q.value.timers == 0
  {
    var evs := [Start(now), Stop, SocketCloses(0, 0.0), Redial(now)];
    assert evs[..3][..2] == evs[..2] && evs[..2][..1] == evs[..1] && evs[..1][..0] == [];
    var s := Step(c, IDLE, Start(now));
    assert Exec(c, IDLE, evs[..1]) == Some(s);
    assert Exec(c, IDLE, evs[..2]) == Some(Step(c, s, Stop));
    assert Exec(c, IDLE, evs[..3]) == Some(Step(c, Step(c, s, Stop), SocketCloses(0, 0.0)));
  }

  // ----- when a link is given up -----

  /** The link is open and has been silent for too long, on a controller known to send heartbeats. */
  predicate Silent(c: Config, s: Conn, now: int) {
    s.ws.Some? && s.ws.value < |s.dials| && s.dials[s.ws.value].ready == Open && s.armed
        && now - s.lastInboundAt > c.idleMs
  }

  /** The dial in use is given up: its socket is closed and no longer used, its timer is gone, and one
      reconnect is scheduled. */
  predicate GivenUp(s: Conn, q: Conn) {
    && s.ws.Some? && s.ws.value < |s.dials| && |q.dials| == |s.dials|
    && q.ws.None? && q.timers == s.timers + 1 && q.attempt == s.attempt + 1
    && q.dials[s.ws.value].settled && !q.dials[s.ws.value].timer && q.dials[s.ws.value].ready in {Closing, Closed}
    && forall i | 0 <= i < |s.dials| && i != s.ws.value :: q.dials[i] == s.dials[i]
  }

  predicate LinkKept(s: Conn, q: Conn) {
    q.ws == s.ws && q.dials == s.dials && q.timers == s.timers && q.attempt == s.attempt
  }

  /** The watchdog gives a link up if and only if it is silent, reports a stranded agent once, and does
      nothing after a stop. */
  lemma WatchdogDropsIff(c: Config, s: Conn, now: int, random: real, q: Conn)
    requires Tidy(s) && q == Step(c, s, Watchdog(now, random))
    ensures s.closed ==> q == s
    ensures !s.closed ==> if Silent(c, s, now) then GivenUp(s, q) else LinkKept(s, q)
    ensures !s.closed ==> (q.strandedReported <==> s.strandedReported || now - s.lastAliveAt > c.strandedMs)
  {
  }

  /** Any frame on the socket in use keeps the link for the idle time from then on; one on another
      socket is ignored. */
  lemma FrameKeepsLink(c: Config, s: Conn, id: Id, m: Message, at: int, random: real, q: Conn, now: int)
    requires s.ws == Some(id) && m != Unreadable(true) && q == Receive(c, s, id, m, at, random) && now - at <= c.idleMs
    ensures !Silent(c, q, now) && q.ws == s.ws && q.dials == s.dials && q.lastAliveAt == at && !q.strandedReported
    ensures m.Heartbeat? || m.Ping? ==> q.armed
    ensures forall other: Id | other != id :: Receive(c, s, other, m, at, random) == s
  {
  }

  /** The third unreadable command in a row gives the link up; a readable one starts the count again,
      heartbeats and acknowledgements do not count. */
  lemma ThirdUnreadableDrops(c: Config, s: Conn, id: Id, m: Message, at: int, random: real, q: Conn)
    requires Tidy(s) && !s.closed && s.ws == Some(id) && q == Receive(c, s, id, m, at, random)
    ensures m == Unreadable(true) && s.droppedInARow >= 2 ==> GivenUp(s, q) && q.droppedInARow == 0
    ensures m == Unreadable(true) && s.droppedInARow < 2 ==> LinkKept(s, q) && q.droppedInARow == s.droppedInARow + 1
    ensures m.Command? || m.Ping? ==> LinkKept(s, q) && q.droppedInARow == 0
    ensures m.Heartbeat? || m.RegisterAck? || m == Unreadable(false) ==>
        LinkKept(s, q) && q.droppedInARow == s.droppedInARow
  {
  }

  /** A new dial is the one in use, connecting, with its timer set, and not yet silent: it can only
      become so once the controller has been seen to send heartbeats on it. */
  lemma NewDialIsInUse(c: Config, s: Conn, now: int, q: Conn, later: int)
    requires q == StartDial(s, now)
    ensures q.dials == s.dials + [Dial(Connecting, false, true)] && q.ws == q.current == Some(|s.dials|)
    ensures !q.armed && !Silent(c, q, later) && Live(q) && q.lastInboundAt == now
  {
  }

  /** An open socket's timer is gone, and its count of unreadable commands starts at none. */
  lemma OpeningResets(c: Config, s: Conn, id: Id, q: Conn)
    requires Possible(s, SocketOpens(id)) && q == Step(c, s, SocketOpens(id))
    ensures q.dials[id] == Dial(Open, s.dials[id].settled, false) && q.droppedInARow == 0
    ensures q.timers == s.timers && q.ws == s.ws && q.attempt == s.attempt
  {
  }

  /** A timer that fires dials, or looks the address up first; so does an address that arrives; none
      of them after a stop. The first stable moment starts the attempts again. */
  lemma TimersDial(c: Config, s: Conn, now: int)
    ensures s.timers > 0 && !s.closed ==>
              var q := Step(c, s, ReconnectFires(now));
              |q.dials| + q.resolving == |s.dials| + s.resolving + 1 && (c.resolves <==> q.resolving == s.resolving + 1)
    ensures s.resolving > 0 && !s.closed ==>
              var q := Step(c, s, Resolved(now));
              |q.dials| == |s.dials| + 1 && q.resolving == s.resolving - 1 && q.ws == Some(|s.dials|)
    ensures Step(c, s, StableFires).attempt == 0 && Step(c, s, Stop).closed
    ensures Live(s) ==> Step(c, s, Stop).dials[s.ws.value].ready == Closing
    ensures Live(s) ==>
        Step(c, s, Redial(now)).dials[s.ws.value].ready == Closing && Step(c, s, Redial(now)).attempt == 0
  {
  }

  /** A dial that runs out of time is given up unless it has opened or been settled. */
  lemma DialTimeoutDropsIff(c: Config, s: Conn, id: Id, random: real, q: Conn)
    requires Tidy(s) && !s.closed && Possible(s, DialTimeout(id, random)) && q == Step(c, s, DialTimeout(id, random))
    ensures s.dials[id].ready == Open || s.dials[id].settled ==>
              q == s.(dials := s.dials[id := s.dials[id].(timer := false)])
    ensures s.dials[id].ready != Open && !s.dials[id].settled ==>
              q.timers == s.timers + 1 && q.dials[id].settled && q.dials[id].ready in {Closing, Closed}
                  && q.ws != Some(id)
  {
  }

  /** Every delay is below the maximum and below what its attempt allows, and each attempt allows more
      by the factor. */
  lemma DelaysAreBounded(c: Config, s: Conn, i: nat)
    requires Paced(c, s) && i < |s.delays|
    ensures 0.0 <= s.delays[i].ms <= c.maxMs && s.delays[i].ms <= c.baseMs * Power(c.factor, s.delays[i].attempt)
    ensures Power(c.factor, 0) == 1.0 && Power(c.factor, i + 1) == c.factor * Power(c.factor, i)
  {
  }

  /** Between resets each reconnect counts as one attempt more. */
  lemma AttemptsCount(c: Config, s: Conn, ev: Event, q: Conn)
    requires Possible(s, ev) && !ev.StableFires? && !ev.Redial? && q == Step(c, s, ev)
    ensures s.delays <= q.delays && q.attempt == s.attempt + |q.delays| - |s.delays| && |q.delays| <= |s.delays| + 1
    ensures |q.delays| == |s.delays| + 1 ==> q.delays[|s.delays|].attempt == s.attempt && q.timers == s.timers + 1
  {
    if ev.Received? { ReceiveCounts(c, s, ev, q); }
  }

  lemma ReceiveCounts(c: Config, s: Conn, ev: Event, q: Conn)
    requires Possible(s, ev) && ev.Received? && q == Step(c, s, ev)
    ensures s.delays <= q.delays && q.attempt == s.attempt + |q.delays| - |s.delays| && |q.delays| <= |s.delays| + 1
    ensures |q.delays| == |s.delays| + 1 ==> q.delays[|s.delays|].attempt == s.attempt && q.timers == s.timers + 1
  {
  }

  // ----- the object -----

  class Connection {
    const c: Config
    var ws: Option<Id>
    var current: Option<Id>
    var dials: seq<Dial>
    var resolving: nat
    var timers: nat
    var fired: nat
    var delays: seq<Delay>
    var attempt: nat
    var closed: bool
    var armed: bool
    var droppedInARow: nat
    var lastInboundAt: int
    var lastAliveAt: int
    var strandedReported: bool

    constructor (c: Config)
      ensures this.c == c && View() == IDLE
    {
      this.c := c;
      ws, current, dials, resolving, timers, fired, delays := None, None, [], 0, 0, 0, [];
      attempt, closed, armed, droppedInARow := 0, false, false, 0;
      lastInboundAt, lastAliveAt, strandedReported := 0, 0, false;
    }

    ghost function View(): Conn
      reads this
    {
      Conn(ws, current, dials, resolving, timers, fired, delays, attempt, closed, armed, droppedInARow,
           lastInboundAt, lastAliveAt, strandedReported)
    }

    method DoDial(now: int)
      modifies this
      ensures View() == StartDial(old(View()), now)
    {
      dials := dials + [Dial(Connecting, false, true)];
      ws := Some(|dials| - 1);
      lastInboundAt := now;
      armed := false;
      current := ws;
    }

    method DoConnect(now: int)
      modifies this
      ensures View() == Connect(c, old(View()), now)
    {
      if c.resolves { resolving := resolving + 1; } else { DoDial(now); }
    }

    method ScheduleReconnect(random: real)
      modifies this
      ensures View() == Schedule(c, old(View()), random)
    {
      var ceiling := Ceiling(c, attempt);
      delays := delays + [Delay(Scale(random, ceiling), attempt)];
      attempt := attempt + 1;
      timers := timers + 1;
    }

    method OnAbandon(id: Id, random: real)
      requires id < |dials|
      modifies this
      ensures View() == Abandon(c, old(View()), id, random)
    {
      if dials[id].settled { return; }
      dials := dials[id := CloseSocket(dials[id]).(settled := true, timer := false)];
      if ws == Some(id) { ws := None; }
      if !closed { ScheduleReconnect(random); }
    }

    method OnStart(now: int)
      modifies this
      ensures View() == Step(c, old(View()), Start(now))
    {
      lastAliveAt := now;
      DoConnect(now);
    }

    method OnResolved(now: int)
      requires resolving > 0
      modifies this
      ensures View() == Step(c, old(View()), Resolved(now))
    {
      resolving := resolving - 1;
      if !closed { DoDial(now); }
    }

    method OnDialTimeout(id: Id, random: real)
      requires id < |dials| && dials[id].timer
      modifies this
      ensures View() == Step(c, old(View()), DialTimeout(id, random))
    {
      if dials[id].ready == Open || dials[id].settled {
        dials := dials[id := dials[id].(timer := false)];
        return;
      }
      OnAbandon(id, random);
    }

    method OnOpen(id: Id)
      requires id < |dials| && dials[id].ready == Connecting
      modifies this
      ensures View() == Step(c, old(View()), SocketOpens(id))
    {
      dials := dials[id := dials[id].(ready := Open, timer := false)];
      droppedInARow := 0;
    }

    method OnDroppedFrame(random: real)
      modifies this
      ensures View() == Drop(c, old(View()), random)
    {
      droppedInARow := droppedInARow + 1;
      if droppedInARow >= MAX_DROPPED {
        droppedInARow := 0;
        if current.Some? && current.value < |dials| { OnAbandon(current.value, random); }
      }
    }

    method OnMessage(id: Id, m: Message, now: int, random: real)
      modifies this
      ensures View() == Receive(c, old(View()), id, m, now, random)
    {
      if ws != Some(id) { return; }
      lastInboundAt := now;
      lastAliveAt := now;
      strandedReported := false;
      match m
      case Unreadable(hasId) => if hasId { OnDroppedFrame(random); }
      case Heartbeat => armed := true;
      case Ping =>
        armed := true;
        droppedInARow := 0;
      case RegisterAck =>
      case Command => droppedInARow := 0;
    }

    method OnClose(id: Id, random: real)
      requires id < |dials| && dials[id].ready != Closed
      modifies this
      ensures View() == Step(c, old(View()), SocketCloses(id, random))
    {
      dials := dials[id := dials[id].(ready := Closed, timer := false)];
      if dials[id].settled { return; }
      dials := dials[id := dials[id].(settled := true)];
      if ws == Some(id) { ws := None; }
      if !closed { ScheduleReconnect(random); }
    }

    method OnWatchdog(now: int, random: real) returns (stranded: bool)
      modifies this
      ensures View() == CheckLink(c, old(View()), now, random)
      ensures stranded <==> !old(closed) && strandedReported && !old(strandedReported)
    {
      stranded := false;
      if closed { return; }
      if ws.Some? && ws.value < |dials| && dials[ws.value].ready == Open && armed && now - lastInboundAt > c.idleMs {
        if current.Some? && current.value < |dials| { OnAbandon(current.value, random); }
      }
      if !strandedReported && now - lastAliveAt > c.strandedMs {
        strandedReported := true;
        stranded := true;
      }
    }

    method OnReconnectTimer(now: int)
      requires timers > 0
      modifies this
      ensures View() == Step(c, old(View()), ReconnectFires(now))
    {
      timers := timers - 1;
      fired := fired + 1;
      if !closed { DoConnect(now); }
    }

    method OnRedial(now: int)
      modifies this
      ensures View() == Step(c, old(View()), Redial(now))
    {
      attempt := 0;
      if ws.Some? && ws.value < |dials| && dials[ws.value].ready in {Connecting, Open} {
        dials := dials[ws.value := CloseSocket(dials[ws.value])];
      } else {
        DoConnect(now);
      }
    }

    method OnStop()
      modifies this
      ensures View() == Step(c, old(View()), Stop)
    {
      closed := true;
      if ws.Some? && ws.value < |dials| { dials := dials[ws.value := CloseSocket(dials[ws.value])]; }
    }
  }
}
