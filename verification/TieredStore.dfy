/** The tiered store as the object the edge runs: its fields are updated in place, its loops
    visit the keys in any order, and every method does exactly what TieredModel says. */
module TieredStore {
  import opened Wrappers
  import opened M = TieredModel

  /** The shared object store. Each call is told how it turns out. */
  class Replica {
    var objects: map<Key, Entry>
    var calls: seq<Call>

    constructor ()
      ensures objects == map[] && calls == []
    {
      objects, calls := map[], [];
    }

    /** A call that only reads: an unanswered one tells the caller nothing. */
    method Ask(now: Time, answered: bool) returns (ok: bool)
      modifies this
      ensures ok == answered && objects == old(objects) && calls == old(calls) + [Call(now, answered)]
    {
      calls := calls + [Call(now, answered)];
      ok := answered;
    }

    method Store(key: Key, value: Value, now: Time, o: Answers) returns (ok: bool)
      modifies this
      ensures ok == o.answered && calls == old(calls) + [Call(now, ok)]
      ensures objects == if Landed(o) then old(objects)[key := Entry(value, o.stamp)] else old(objects)
    {
      ok := Ask(now, o.answered);
      if Landed(o) { objects := objects[key := Entry(value, o.stamp)]; }
    }

    method Delete(key: Key, now: Time, o: Answers) returns (ok: bool)
      modifies this
      ensures ok == o.answered && calls == old(calls) + [Call(now, ok)]
      ensures objects == if Landed(o) then old(objects) - {key} else old(objects)
    {
      ok := Ask(now, o.answered);
      if Landed(o) { objects := objects - {key}; }
    }
  }

  // ----- visiting orders -----

  method Enumerate(keys: set<Key>) returns (order: seq<Key>)
    ensures Enumerates(order, keys)
  {
    order := [];
    var rest := keys;
    while rest != {}
      invariant rest <= keys && Enumerates(order, keys - rest)
      decreases rest
    {
      var k :| k in rest;
      order, rest := order + [k], rest - {k};
    }
  }

  ghost function SomeOrder(keys: set<Key>): (order: seq<Key>)
    ensures Enumerates(order, keys)
  {
    if keys == {} then []
    else
      var k :| k in keys;
      SomeOrder(keys - {k}) + [k]
  }

  /** Orders for the loops that an early return leaves out. */
  ghost function Rest(c: Config, s: State, now: Time, deletes: seq<Key>, e: SyncEnv): (ord: Orders)
    requires Enumerates(deletes, s.pendingDeletes)
    ensures ord.deletes == deletes && SyncFits(c, s, now, ord, e)
  {
    var listed := SomeOrder(Times(SyncReplayed(c, s, now, deletes, e).st.remote).Keys);
    var st := SyncListed(c, s, now, Orders(deletes, listed, []), e).st;
    Orders(deletes, listed, SomeOrder(Times(st.local).Keys + Times(st.remote).Keys))
  }

  lemma {:induction false} StatKeepsTiers(c: Config, p: Progress, keys: seq<Key>, now: Time, os: Key -> bool)
    ensures var q := StatEach(c, p, keys, now, os);
            q.st.local == p.st.local && q.st.remote == p.st.remote && q.st.pendingDeletes == p.st.pendingDeletes
  {
    if keys != [] { StatKeepsTiers(c, p, keys[..|keys| - 1], now, os); }
  }

  // ----- a failed loop stays where it is -----

  lemma {:induction false} ReplayStops(c: Config, p: Progress, keys: seq<Key>, i: nat, now: Time, os: Key -> Answers)
    requires i <= |keys| && !Replay(c, p, keys[..i], now, os).ok
    ensures Replay(c, p, keys, now, os) == Replay(c, p, keys[..i], now, os)
  {
    if i < |keys| {
      assert keys[..|keys| - 1][..i] == keys[..i];
      ReplayStops(c, p, keys[..|keys| - 1], i, now, os);
    } else {
      assert keys[..i] == keys;
    }
  }

  lemma {:induction false} StatStops(c: Config, p: Progress, keys: seq<Key>, i: nat, now: Time, os: Key -> bool)
    requires i <= |keys| && !StatEach(c, p, keys[..i], now, os).ok
    ensures StatEach(c, p, keys, now, os) == StatEach(c, p, keys[..i], now, os)
  {
    if i < |keys| {
      assert keys[..|keys| - 1][..i] == keys[..i];
      StatStops(c, p, keys[..|keys| - 1], i, now, os);
    } else {
      assert keys[..i] == keys;
    }
  }

  lemma {:induction false} SyncStops(c: Config, p: Progress, keys: seq<Key>, i: nat, l: map<Key, Time>,
                                     r: map<Key, Time>, skip: set<Key>, now: Time, os: Key -> Answers)
    requires i <= |keys| && !SyncEach(c, p, keys[..i], l, r, skip, now, os).ok
    ensures SyncEach(c, p, keys, l, r, skip, now, os) == SyncEach(c, p, keys[..i], l, r, skip, now, os)
  {
    if i < |keys| {
      assert keys[..|keys| - 1][..i] == keys[..i];
      SyncStops(c, p, keys[..|keys| - 1], i, l, r, skip, now, os);
    } else {
      assert keys[..i] == keys;
    }
  }

  /** The node's store. A null replica makes it plain local storage. */
  class Tiered {
    const replica: Replica?
    const backoff: nat
    var local: map<Key, Entry>
    var down: bool
    var downUntil: Time
    var dirty: bool
    var pendingDeletes: set<Key>

    constructor (replica: Replica?, backoff: nat, local: map<Key, Entry>)
      ensures this.replica == replica && this.backoff == backoff
      ensures View() == State(local, if replica == null then map[] else replica.objects, Breaker(false, 0, false), {},
                              if replica == null then [] else replica.calls)
    {
      this.replica, this.backoff, this.local := replica, backoff, local;
      down, downUntil, dirty, pendingDeletes := false, 0, false, {};
    }

    ghost function Cfg(): Config { Config(replica != null, backoff) }

    ghost function View(): State
      reads this, replica
    {
      State(local, if replica == null then map[] else replica.objects, Breaker(down, downUntil, dirty), pendingDeletes,
            if replica == null then [] else replica.calls)
    }

    predicate Up(now: Time)
      reads this, replica
      ensures Up(now) == ReplicaUp(Cfg(), View(), now)
    {
      replica != null && downUntil <= now
    }

    method GoDown(now: Time)
      modifies this
      ensures View() == MarkDown(Cfg(), old(View()), now)
    {
      down, downUntil, dirty := true, now + backoff, true;
    }

    method GoUp()
      modifies this
      ensures View() == MarkUp(old(View()))
    {
      down, downUntil := false, 0;
    }

    method AlignMtime(key: Key, now: Time, answered: bool)
      requires replica != null
      modifies this, replica
      ensures View() == Align(old(View()), key, now, answered)
    {
      var ok := replica.Ask(now, answered);
      if ok && key in replica.objects && replica.objects[key].mtime != 0 && key in local {
        local := local[key := local[key].(mtime := replica.objects[key].mtime)];
      }
    }

    method Load(key: Key, now: Time, o: Answers) returns (found: Lookup)
      modifies this, replica
      ensures (View(), found) == M.Load(Cfg(), old(View()), key, now, o)
    {
      if key in local { return Found(local[key].value); }
      if Below(local.Keys, key) != {} { return NotAFile; }
      if NodeLocal(key) || !Up(now) { return Missing; }
      var ok := replica.Ask(now, o.answered);
      if !ok {
        GoDown(now);
        return Missing;
      }
      GoUp();
      if key !in replica.objects { return Missing; }
      found := Found(replica.objects[key].value);
      local := local[key := Entry(found.value, now)];
      AlignMtime(key, now, o.stat);
    }

    method Store(key: Key, value: Value, now: Time, o: Answers)
      modifies this, replica
      ensures View() == M.Store(Cfg(), old(View()), key, value, now, o)
    {
      local := local[key := Entry(value, now)];
      if replica == null || NodeLocal(key) { return; }
      pendingDeletes := pendingDeletes - {key};
      if !Up(now) {
        dirty := true;
        return;
      }
      var ok := replica.Store(key, value, now, o);
      if !ok {
        GoDown(now);
        return;
      }
      GoUp();
      AlignMtime(key, now, o.stat);
    }

    method Stat(key: Key, now: Time, o: Answers) returns (info: Info)
      modifies this, replica
      ensures (View(), info) == M.Stat(Cfg(), old(View()), key, now, o)
    {
      if key in local { return File(local[key].mtime); }
      if Below(local.Keys, key) != {} { return Directory; }
      if NodeLocal(key) || !Up(now) { return Absent; }
      var ok := replica.Ask(now, o.answered);
      if !ok {
        GoDown(now);
        return Absent;
      }
      GoUp();
      info := if key in replica.objects then File(replica.objects[key].mtime) else Absent;
    }

    method DeleteFromReplica(key: Key, now: Time, o: Answers)
      modifies this, replica
      ensures View() == DeleteReplica(Cfg(), old(View()), key, now, o)
    {
      if Up(now) {
        var ok := replica.Delete(key, now, o);
        if ok { return; }
        GoDown(now);
      }
      pendingDeletes := pendingDeletes + {key};
      dirty := true;
    }

    method DeleteAllFromReplica(targets: seq<Key>, now: Time, os: Key -> Answers)
      modifies this, replica
      ensures View() == DeleteEach(Cfg(), old(View()), targets, now, os)
    {
      ghost var s := View();
      assert targets[..0] == [];
      for i := 0 to |targets|
        invariant View() == DeleteEach(Cfg(), s, targets[..i], now, os)
      {
        assert targets[..i + 1][..i] == targets[..i];
        DeleteFromReplica(targets[i], now, os(targets[i]));
      }
      assert targets[..|targets|] == targets;
    }

    method Delete(key: Key, now: Time, listed: bool, os: Key -> Answers) returns (ghost order: seq<Key>)
      modifies this, replica
      ensures DeleteFits(Cfg(), old(View()), key, now, listed, order)
      ensures View() == M.Delete(Cfg(), old(View()), key, now, listed, order, os)
    {
      var keys := if key !in local && Below(local.Keys, key) != {} then Below(local.Keys, key) else {key};
      ghost var up := Up(now);
      order := SomeOrder(DeleteTargets(View(), key, up && listed));
      local := local - Doomed(local, key);
      if replica == null || NodeLocal(key) { return; }
      if Up(now) {
        var ok := replica.Ask(now, listed);
        if ok { keys := keys + Below(replica.objects.Keys, key); }
      }
      var targets := Enumerate(keys - {""});
      order := targets;
      DeleteAllFromReplica(targets, now, os);
    }

    /** Replays the remembered deletes; stops at the first one that fails. */
    method ReplayDeletes(targets: seq<Key>, now: Time, os: Key -> Answers, ghost p: Progress)
        returns (ok: bool, deleted: nat)
      requires replica != null && p == Progress(View(), true, Stats(0, 0, 0))
      modifies this, replica
      ensures Replay(Cfg(), p, targets, now, os) == Progress(View(), ok, Stats(0, 0, deleted))
    {
      deleted := 0;
      for i := 0 to |targets|
        invariant Replay(Cfg(), p, targets[..i], now, os) == Progress(View(), true, Stats(0, 0, deleted))
      {
        var k := targets[i];
        assert targets[..i + 1][..i] == targets[..i];
        ok := replica.Delete(k, now, os(k));
        if !ok {
          GoDown(now);
          ReplayStops(Cfg(), p, targets, i + 1, now, os);
          return false, deleted;
        }
        pendingDeletes := pendingDeletes - {k};
        deleted := deleted + 1;
      }
      assert targets[..|targets|] == targets;
      ok := true;
    }

    /** The mtimes of the syncable replica keys, one Stat each. */
    method GatherRemote(keys: seq<Key>, now: Time, os: Key -> bool, ghost p: Progress)
        returns (ok: bool, remote: map<Key, Time>)
      requires replica != null && p.ok && p.st == View()
      requires forall k | k in keys :: k in replica.objects
      modifies this, replica
      ensures StatEach(Cfg(), p, keys, now, os) == p.(st := View(), ok := ok)
      ensures View().remote == old(View().remote)
      ensures ok ==> forall k :: k in remote <==> k in keys
      ensures forall k | k in remote :: k in View().remote && remote[k] == View().remote[k].mtime
    {
      remote := map[];
      for i := 0 to |keys|
        invariant StatEach(Cfg(), p, keys[..i], now, os) == p.(st := View())
        invariant replica.objects == old(replica.objects)
        invariant forall k :: k in remote <==> k in keys[..i]
        invariant forall k | k in remote :: k in replica.objects && remote[k] == replica.objects[k].mtime
      {
        var k := keys[i];
        assert keys[..i + 1][..i] == keys[..i] && keys[..i + 1] == keys[..i] + [k];
        ok := replica.Ask(now, os(k));
        if !ok {
          GoDown(now);
          StatStops(Cfg(), p, keys, i + 1, now, os);
          return false, remote;
        }
        remote := remote[k := replica.objects[k].mtime];
      }
      assert keys[..|keys|] == keys;
      ok := true;
    }

    method PushKey(key: Key, now: Time, o: Answers) returns (ok: bool)
      requires replica != null
      modifies this, replica
      ensures forall stats :: Push(Cfg(), Progress(old(View()), true, stats), key, now, o) ==
                Progress(View(), ok, if ok then stats.(pushed := stats.pushed + 1) else stats)
    {
      if key !in local { return true; }
      ok := replica.Store(key, local[key].value, now, o);
      if !ok { GoDown(now); } else { AlignMtime(key, now, o.stat); }
    }

    method PullKey(key: Key, modified: Time, now: Time, o: Answers) returns (ok: bool, changed: bool)
      requires replica != null
      modifies this, replica
      ensures forall stats :: Pull(Cfg(), Progress(old(View()), true, stats), key, modified, now, o) ==
                Progress(View(), ok, if changed then stats.(pulled := stats.pulled + 1) else stats)
    {
      ok := replica.Ask(now, o.answered);
      changed := false;
      if !ok {
        GoDown(now);
      } else if key in replica.objects {
        var value := replica.objects[key].value;
        if !(key in local && local[key].value == value) {
          changed := true;
          local := local[key := Entry(value, now)];
        }
        if modified != 0 { local := local[key := local[key].(mtime := modified)]; }
      }
    }

    /** The reconcile loop; stops at the first failure or when the caller gives up. */
    method CopyEach(keys: seq<Key>, l: map<Key, Time>, r: map<Key, Time>, skip: set<Key>, deleted: nat, now: Time,
                     os: Key -> Answers, ghost p: Progress) returns (ok: bool, stats: Stats)
      requires replica != null && p == Progress(View(), true, Stats(0, 0, deleted))
      modifies this, replica
      ensures SyncEach(Cfg(), p, keys, l, r, skip, now, os) == Progress(View(), ok, stats)
    {
      stats := Stats(0, 0, deleted);
      for i := 0 to |keys|
        invariant SyncEach(Cfg(), p, keys[..i], l, r, skip, now, os) == Progress(View(), true, stats)
      {
        var k := keys[i];
        assert keys[..i + 1][..i] == keys[..i];
        if os(k).cancelled {
          SyncStops(Cfg(), p, keys, i + 1, l, r, skip, now, os);
          return false, stats;
        }
        ok := true;
        if ShouldPush(l, r, k) {
          ok := PushKey(k, now, os(k));
          if ok { stats := stats.(pushed := stats.pushed + 1); }
        } else if ShouldPull(l, r, k) && k !in skip {
          var changed;
          ok, changed := PullKey(k, r[k], now, os(k));
          if changed { stats := stats.(pulled := stats.pulled + 1); }
        }
        if !ok {
          SyncStops(Cfg(), p, keys, i + 1, l, r, skip, now, os);
          return;
        }
      }
      assert keys[..|keys|] == keys;
      ok := true;
    }

    /** Lists the replica, compares the tiers and copies both ways. */
    method SyncTiers(deleted: nat, now: Time, e: SyncEnv, ghost p: Progress)
      returns (ok: bool, stats: Stats, ghost listed: seq<Key>, ghost keys: seq<Key>)
      requires replica != null && p == Progress(View(), true, Stats(0, 0, deleted))
      modifies this, replica
      ensures Enumerates(listed, Times(p.st.remote).Keys)
      ensures var m := Listing(Cfg(), p, now, listed, e);
              && Enumerates(keys, Times(m.st.local).Keys + Times(m.st.remote).Keys)
              && M.Reconcile(Cfg(), m, now, keys, e) == Progress(View(), ok, stats)
    {
      stats := Stats(0, 0, deleted);
      var l := Times(local);
      keys := SomeOrder(l.Keys + Times(replica.objects).Keys);
      var rkeys := Enumerate(Times(replica.objects).Keys);
      listed := rkeys;
      ok := replica.Ask(now, e.listed);
      if !ok {
        GoDown(now);
        return;
      }
      ghost var before := View();
      var r;
      ok, r := GatherRemote(rkeys, now, e.stats, Progress(before, true, stats));
      StatKeepsTiers(Cfg(), Progress(before, true, stats), rkeys, now, e.stats);
      if !ok { return; }
      assert r == Times(replica.objects);
      var all := Enumerate(l.Keys + r.Keys);
      keys := all;
      ok, stats := CopyEach(all, l, r, pendingDeletes, deleted, now, e.copies, Progress(View(), true, stats));
    }

    method SyncOnce(now: Time, e: SyncEnv) returns (ok: bool, stats: Stats, ghost ord: Orders)
      modifies this, replica
      ensures replica != null ==> SyncFits(Cfg(), old(View()), now, ord, e)
      ensures M.Sync(Cfg(), old(View()), now, ord, e) == Progress(View(), ok, stats)
    {
      ghost var s := View();
      stats := Stats(0, 0, 0);
      ord := Orders([], [], []);
      if replica == null { return true, stats, ord; }
      ok := replica.Ask(now, e.probe);
      if !ok {
        GoDown(now);
        ghost var d := SomeOrder(s.pendingDeletes);
        ord := Rest(Cfg(), s, now, d, e);
        ReplayStops(Cfg(), Progress(View(), false, stats), d, 0, now, e.deletes);
        return;
      }
      GoUp();
      var deletes := Enumerate(pendingDeletes);
      var deleted;
      ok, deleted := ReplayDeletes(deletes, now, e.deletes, Progress(View(), true, stats));
      stats := Stats(0, 0, deleted);
      if !ok {
        ord := Rest(Cfg(), s, now, deletes, e);
        return;
      }
      ghost var listed, keys;
      ok, stats, listed, keys := SyncTiers(deleted, now, e, Progress(View(), true, stats));
      ord := Orders(deletes, listed, keys);
      if ok { dirty := false; }
    }
  }
}
