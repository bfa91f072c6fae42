/** The two-level locks of the tiered store, for any number of edges sharing one replica. */
module TieredLocks {
  import opened TieredModel

  type Name = string
  type EdgeId = nat

  /** How a held lock was obtained: in both tiers, or in the local tier alone. */
  datatype Grant = Shared | Alone

  datatype Edge = Edge(breaker: Breaker, held: map<Name, Grant>, replicaLocks: set<Name>)

  /** What the environment does during one Lock. A replica lock call that fails may still have
      left the lock behind; `expired` says that the caller's context ended meanwhile. */
  datatype LockAnswers = LockAnswers(local: bool, probe: bool, locked: bool, landed: bool, expired: bool, reprobe: bool)

  datatype LockResult = LockResult(edge: Edge, table: map<Name, EdgeId>, ok: bool)

  function Probed(c: Config, b: Breaker, now: Time, answered: bool): Breaker {
    if answered then Reset(b) else Tripped(c, now)
  }

  predicate Reachable(c: Config, b: Breaker, now: Time) { c.mirrored && BreakerClosed(b, now) }

  function LockStep(c: Config, e: Edge, table: map<Name, EdgeId>, id: EdgeId, name: Name, now: Time,
      a: LockAnswers): LockResult
  {
    if name in e.held || !a.local then LockResult(e, table, false)
    else
      var alone := e.(held := e.held[name := Alone]);
      if !Reachable(c, e.breaker, now) then LockResult(alone, table, true)
      else if !a.probe then LockResult(alone.(breaker := Tripped(c, now)), table, true)
      else
        var b := Reset(e.breaker);
        if a.locked && name !in table then
          LockResult(Edge(b, e.held[name := Shared], e.replicaLocks + {name}), table[name := id], true)
        else
          var left := if a.landed && name !in table then table[name := id] else table;
          if !a.expired && !a.reprobe then LockResult(alone.(breaker := Tripped(c, now)), left, true)
          else LockResult(e.(breaker := b), left, false)
  }

  /** The lock was granted without the replica: it was skipped, or a probe of it failed. */
  predicate FailedOpen(c: Config, e: Edge, now: Time, a: LockAnswers) {
    !Reachable(c, e.breaker, now) || !a.probe || (!a.expired && !a.reprobe)
  }

  datatype UnlockResult = UnlockResult(edge: Edge, table: map<Name, EdgeId>)

  function UnlockStep(e: Edge, table: map<Name, EdgeId>, name: Name, landed: bool): UnlockResult
  {
    UnlockResult(e.(held := e.held - {name}, replicaLocks := e.replicaLocks - {name}),
                 if name in e.replicaLocks && landed then table - {name} else table)
  }

  // ----- the object -----

  class LockTable {
    var owners: map<Name, EdgeId>

    constructor ()
      ensures owners == map[]
    {
      owners := map[];
    }
  }

  /** One edge's locks, over the table the replica keeps for all edges. */
  class EdgeLocks {
    const id: EdgeId
    const backoff: nat
    const replica: LockTable?
    var breaker: Breaker
    var held: map<Name, Grant>
    var replicaLocks: set<Name>

    constructor (id: EdgeId, replica: LockTable?, backoff: nat)
      ensures this.id == id && this.replica == replica && this.backoff == backoff
      ensures View() == Edge(Breaker(false, 0, false), map[], {})
    {
      this.id, this.replica, this.backoff := id, replica, backoff;
      breaker, held, replicaLocks := Breaker(false, 0, false), map[], {};
    }

    ghost function Cfg(): Config { Config(replica != null, backoff) }

    ghost function View(): Edge
      reads this
    {
      Edge(breaker, held, replicaLocks)
    }

    ghost function Owners(): map<Name, EdgeId>
      reads this, replica
    {
      if replica == null then map[] else replica.owners
    }

    method ProbeReplica(now: Time, answered: bool)
      modifies this
      ensures View() == old(View()).(breaker := Probed(Cfg(), old(breaker), now, answered))
    {
      breaker := if answered then breaker.(down := false, downUntil := 0) else Breaker(true, now + backoff, true);
    }

    method Lock(name: Name, now: Time, a: LockAnswers) returns (ok: bool)
      modifies this, replica
      ensures LockResult(View(), Owners(), ok) == LockStep(Cfg(), old(View()), old(Owners()), id, name, now, a)
    {
      if name in held || !a.local { return false; }
      held := held[name := Alone];
      if replica == null || now < breaker.downUntil { return true; }
      ProbeReplica(now, a.probe);
      if !a.probe { return true; }
      if a.locked && name !in replica.owners {
        replica.owners := replica.owners[name := id];
        replicaLocks := replicaLocks + {name};
        held := held[name := Shared];
        return true;
      }
      if a.landed && name !in replica.owners { replica.owners := replica.owners[name := id]; }
      if !a.expired {
        ProbeReplica(now, a.reprobe);
        if !a.reprobe { return true; }
      }
      held := held - {name};
      assert held == old(held);
      ok := false;
    }

    method Unlock(name: Name, landed: bool)
      requires name in replicaLocks ==> replica != null
      modifies this, replica
      ensures UnlockResult(View(), Owners()) == UnlockStep(old(View()), old(Owners()), name, landed)
    {
      var shared := name in replicaLocks;
      replicaLocks := replicaLocks - {name};
      if shared && landed { replica.owners := replica.owners - {name}; }
      held := held - {name};
    }
  }

  // ----- a fleet of edges -----

  datatype Fleet = Fleet(edges: seq<Edge>, table: map<Name, EdgeId>)

  /** A replica lock expires only while no edge counts on it. */
  datatype Event =
    | DoLock(i: EdgeId, name: Name, now: Time, a: LockAnswers)
    | DoUnlock(i: EdgeId, name: Name, landed: bool)
    | DoExpire(name: Name)

  function Step(c: Config, f: Fleet, ev: Event): Fleet {
    match ev
    case DoLock(i, name, now, a) =>
      if i >= |f.edges| then f
      else var r := LockStep(c, f.edges[i], f.table, i, name, now, a); Fleet(f.edges[i := r.edge], r.table)
    case DoUnlock(i, name, landed) =>
      if i >= |f.edges| then f
      else var r := UnlockStep(f.edges[i], f.table, name, landed); Fleet(f.edges[i := r.edge], r.table)
    case DoExpire(name) =>
      if exists e :: e in f.edges && name in e.replicaLocks then f else f.(table := f.table - {name})
  }

  function Exec(c: Config, f: Fleet, evs: seq<Event>): Fleet {
    if evs == [] then f else Step(c, Exec(c, f, evs[..|evs| - 1]), evs[|evs| - 1])
  }

  /** A lock the edge believes to hold on the replica is its own there, and it is one that the
      edge holds in both tiers. */
  predicate Owns(f: Fleet, i: EdgeId, n: Name)
    requires i < |f.edges|
  {
    var e := f.edges[i];
    && (n in e.replicaLocks ==> n in f.table && f.table[n] == i)
    && (n in e.replicaLocks <==> n in e.held && e.held[n] == Shared)
  }

  ghost predicate Consistent(f: Fleet) {
    forall i: EdgeId, n | i < |f.edges| :: Owns(f, i, n)
  }

  lemma StepKeepsConsistent(c: Config, f: Fleet, ev: Event)
    requires Consistent(f)
    ensures Consistent(Step(c, f, ev))
  {
    var g := Step(c, f, ev);
    forall i: EdgeId, n | i < |g.edges| ensures Owns(g, i, n) {
      assert Owns(f, i, n) && f.edges[i] in f.edges;
      assert ev.DoUnlock? && ev.i < |f.edges| ==> Owns(f, ev.i, n);
    }
  }

  ghost predicate Unlocked(f: Fleet) {
    forall i | 0 <= i < |f.edges| :: f.edges[i].held == map[] && f.edges[i].replicaLocks == {}
  }

  lemma {:induction false} RunsStayConsistent(c: Config, f: Fleet, evs: seq<Event>)
    requires Unlocked(f)
    ensures Consistent(Exec(c, f, evs)) && |Exec(c, f, evs).edges| == |f.edges|
  {
    if evs != [] {
      RunsStayConsistent(c, f, evs[..|evs| - 1]);
      StepKeepsConsistent(c, Exec(c, f, evs[..|evs| - 1]), evs[|evs| - 1]);
    }
  }

  predicate Grants(c: Config, g: Fleet, ev: Event, i: EdgeId, name: Name) {
    && ev.DoLock? && ev.i == i && ev.name == name && i < |g.edges|
    && name !in g.edges[i].held && FailedOpen(c, g.edges[i], ev.now, ev.a)
  }

  predicate Releases(ev: Event, i: EdgeId, name: Name) { ev.DoUnlock? && ev.i == i && ev.name == name }

  /** The k-th event granted edge i the lock without the replica, and i has not released it since. */
  ghost predicate GrantedAlone(c: Config, f: Fleet, evs: seq<Event>, k: nat, i: EdgeId, name: Name) {
    && k < |evs| && Grants(c, Exec(c, f, evs[..k]), evs[k], i, name)
    && forall m | k < m < |evs| :: !Releases(evs[m], i, name)
  }

  lemma StepGrantsAlone(c: Config, g: Fleet, ev: Event, i: EdgeId, name: Name)
    requires i < |g.edges| && name in Step(c, g, ev).edges[i].held && Step(c, g, ev).edges[i].held[name] == Alone
    ensures Grants(c, g, ev, i, name) ||
            (name in g.edges[i].held && g.edges[i].held[name] == Alone && !Releases(ev, i, name))
  {
  }

  lemma GrantCarries(c: Config, f: Fleet, evs: seq<Event>, k: nat, i: EdgeId, name: Name)
    requires evs != [] && GrantedAlone(c, f, evs[..|evs| - 1], k, i, name) && !Releases(evs[|evs| - 1], i, name)
    ensures GrantedAlone(c, f, evs, k, i, name)
  {
    var front := evs[..|evs| - 1];
    assert front[..k] == evs[..k];
    forall m | k < m < |evs| ensures !Releases(evs[m], i, name) {
      if m < |front| { assert front[m] == evs[m]; }
    }
  }

  lemma {:induction false} AloneWasFailedOpen(c: Config, f: Fleet, evs: seq<Event>, i: EdgeId, name: Name)
      returns (k: nat)
    requires Unlocked(f) && i < |f.edges|
    requires i < |Exec(c, f, evs).edges| && name in Exec(c, f, evs).edges[i].held
    requires Exec(c, f, evs).edges[i].held[name] == Alone
    ensures GrantedAlone(c, f, evs, k, i, name)
  {
    k := 0;
    if evs != [] {
      var n := |evs| - 1;
      RunsStayConsistent(c, f, evs[..n]);
      StepGrantsAlone(c, Exec(c, f, evs[..n]), evs[n], i, name);
      if Grants(c, Exec(c, f, evs[..n]), evs[n], i, name) {
        k := n;
      } else {
        k := AloneWasFailedOpen(c, f, evs[..n], i, name);
        GrantCarries(c, f, evs, k, i, name);
      }
    }
  }

  /** In every run, at most one edge holds a lock on the replica; when two edges hold the same
      lock at once, one of them was granted it with its breaker open or after a failed probe. */
  lemma TwoHoldersMeanFailedOpen(c: Config, f: Fleet, evs: seq<Event>, i: EdgeId, j: EdgeId, name: Name)
    requires Unlocked(f) && i < |f.edges| && j < |f.edges| && i != j
    ensures var g := Exec(c, f, evs);
            && |g.edges| == |f.edges|
            && !(name in g.edges[i].replicaLocks && name in g.edges[j].replicaLocks)
            && (name in g.edges[i].held && name in g.edges[j].held ==>
                  exists k :: GrantedAlone(c, f, evs, k, i, name) || GrantedAlone(c, f, evs, k, j, name))
  {
    RunsStayConsistent(c, f, evs);
    var g := Exec(c, f, evs);
    assert Owns(g, i, name) && Owns(g, j, name);
    if name in g.edges[i].held && name in g.edges[j].held {
      if g.edges[i].held[name] == Alone {
        var k := AloneWasFailedOpen(c, f, evs, i, name);
      } else {
        var k := AloneWasFailedOpen(c, f, evs, j, name);
      }
    }
  }

  /** A Lock that returns an error, at any point of a run, leaves what the edge holds as it was,
      so the local lock is free again, and it happens only if the replica answered the probe. */
  lemma FailedLockHoldsNothing(c: Config, f: Fleet, evs: seq<Event>, i: EdgeId, name: Name, now: Time, a: LockAnswers,
                               g: Fleet, r: LockResult)
    requires Unlocked(f) && i < |f.edges| && g == Exec(c, f, evs) && |g.edges| == |f.edges|
    requires r == LockStep(c, g.edges[i], g.table, i, name, now, a) && !r.ok && name !in g.edges[i].held
    ensures r.edge.held == g.edges[i].held && r.edge.replicaLocks == g.edges[i].replicaLocks
    ensures a.local ==> Reachable(c, g.edges[i].breaker, now) && a.probe && (name in g.table || !a.locked)
    ensures Consistent(Fleet(g.edges[i := r.edge], r.table))
  {
    RunsStayConsistent(c, f, evs);
    StepKeepsConsistent(c, g, DoLock(i, name, now, a));
  }

  // ----- what a lock and an unlock do -----

  /** The replica could be asked: it is there, the breaker lets it, and it answered the probe. */
  predicate Asked(c: Config, e: Edge, now: Time, a: LockAnswers) {
    c.mirrored && e.breaker.downUntil <= now && a.probe
  }

  /** A Lock succeeds if and only if the edge does not hold it, the local lock is free, and the
      replica could not be asked, gave its lock, or stopped answering. What succeeds is held: on the
      replica exactly where it gave its lock, and nothing else is held or given up. */
  lemma LockHolds(c: Config, e: Edge, table: map<Name, EdgeId>, id: EdgeId, name: Name, now: Time, a: LockAnswers)
    requires name in e.replicaLocks ==> name in e.held
    ensures var r := LockStep(c, e, table, id, name, now, a);
            var given := Asked(c, e, now, a) && a.locked && name !in table;
            && (r.ok <==> (name !in e.held && a.local
                           && (!Asked(c, e, now, a) || given || (!a.expired && !a.reprobe))))
            && (r.ok ==> name in r.edge.held && (name in r.edge.replicaLocks <==> given))
            && (r.ok && given ==> name in r.table && r.table[name] == id)
            && (!r.ok ==> r.edge.held == e.held && r.edge.replicaLocks == e.replicaLocks)
            && (forall n | n != name ::
                  (n in r.edge.held <==> n in e.held) && (n in r.edge.replicaLocks <==> n in e.replicaLocks)
                  && (n in r.table <==> n in table) && (n in table ==> r.table[n] == table[n]))
  {
  }

  /** A Lock that reaches the replica leaves the breaker by its last answer: open for the backoff if a
      probe failed, closed otherwise. */
  lemma LockProbes(c: Config, e: Edge, table: map<Name, EdgeId>, id: EdgeId, name: Name, now: Time, a: LockAnswers)
    requires c.mirrored && e.breaker.downUntil <= now && name !in e.held && a.local
    ensures var r := LockStep(c, e, table, id, name, now, a);
            var given := a.probe && a.locked && name !in table;
            r.edge.breaker.downUntil == if !a.probe || (!given && !a.expired && !a.reprobe) then now + c.backoff else 0
  {
  }

  /** An Unlock leaves nothing held under the name, and gives the replica's lock back if it was taken
      there and the replica hears of it; other names stay. */
  lemma UnlockFrees(e: Edge, table: map<Name, EdgeId>, name: Name, landed: bool)
    ensures var r := UnlockStep(e, table, name, landed);
            && name !in r.edge.held && name !in r.edge.replicaLocks
            && (name in r.table <==> name in table && !(name in e.replicaLocks && landed))
            && (forall n | n != name ::
                  (n in r.edge.held <==> n in e.held) && (n in r.edge.replicaLocks <==> n in e.replicaLocks)
                  && (n in r.table <==> n in table) && (n in table ==> r.table[n] == table[n]))
  {
  }

  /** A lock given back is there for the next edge that asks for it, from any state of a run. */
  lemma LockPassesOn(c: Config, f: Fleet, evs: seq<Event>, i: EdgeId, j: EdgeId, name: Name, now: Time,
      a: LockAnswers, g: Fleet)
    requires Unlocked(f) && i < |f.edges| && j < |f.edges| && i != j && g == Exec(c, f, evs) && |g.edges| == |f.edges|
    requires name in g.edges[i].replicaLocks && name !in g.edges[j].held
    requires a.local && Asked(c, g.edges[j], now, a) && a.locked
    ensures var h := Step(c, Step(c, g, DoUnlock(i, name, true)), DoLock(j, name, now, a));
            && |h.edges| == |f.edges| && name in h.edges[j].replicaLocks && name !in h.edges[i].held
            && name in h.table && h.table[name] == j
  {
    UnlockFrees(g.edges[i], g.table, name, true);
    var u := Step(c, g, DoUnlock(i, name, true));
    assert u.edges[j] == g.edges[j] && name !in u.table;
  }
}
