/** What the tiered store answers, and what single operations do to the two tiers. */
module TieredAnswers {
  import opened Strings
  import opened Wrappers
  import opened TieredModel
  import opened TieredSync
  import opened TieredRuns

  // ----- loading -----

  /** In every run, through any replica failures, a Load of a key that was written and not deleted
      since answers the last value written, without asking the replica. */
  lemma LoadFindsTheWrite(c: Config, s: State, evs: seq<Event>, key: Key, now: Time, o: Answers)
    requires c.mirrored && Startable(s) && AllFit(c, s, evs) && key in Written(evs)
    requires forall i | 0 <= i < |evs| :: Spaced(c, Exec(c, s, evs[..i]), evs[i])
    ensures Load(c, Exec(c, s, evs), key, now, o) == (Exec(c, s, evs), Found(Written(evs)[key]))
  {
    NoLostWrite(c, s, evs);
  }

  /** Neither a file nor a directory on the disk, and not kept from the replica. */
  predicate AskedFor(c: Config, s: State, key: Key) {
    c.mirrored && key !in s.local && (forall k | k in s.local :: !(key + "/" <= k)) && key != "" && !("ocsp/" <= key)
  }

  /** A key the disk does not have is looked up on the replica if and only if the breaker lets it: found
      exactly if the replica answers and holds it, and then kept, so that the next Load finds it without a
      call, whatever happens to the replica. A replica that does not answer trips the breaker. */
  lemma LoadAsksTheReplica(c: Config, s: State, key: Key, now: Time, o: Answers)
    requires AskedFor(c, s, key)
    ensures var (q, found) := Load(c, s, key, now, o);
            && (forall v :: found == Found(v) <==>
                  s.breaker.downUntil <= now && o.answered && key in s.remote && s.remote[key].value == v)
            && (found.Found? || found == Missing)
            && q.remote == s.remote && q.pendingDeletes == s.pendingDeletes
            && (q.calls == s.calls <==> now < s.breaker.downUntil)
            && (found == Missing ==> q.local == s.local)
            && (s.breaker.downUntil <= now ==> q.breaker.downUntil == if o.answered then 0 else now + c.backoff)
  {
  }

  lemma SecondLoadIsLocal(c: Config, s: State, key: Key, now: Time, o: Answers, q: State, v: Value, later: Time,
      o2: Answers)
    requires AskedFor(c, s, key) && Load(c, s, key, now, o) == (q, Found(v))
    ensures Load(c, q, key, later, o2) == (q, Found(v))
    ensures forall k | k != key :: Get(q.local, k) == Get(s.local, k)
  {
  }

  /** A file the disk has is answered from the disk, and a directory there is no file. */
  lemma LoadIsLocalFirst(c: Config, s: State, key: Key, now: Time, o: Answers)
    ensures key in s.local ==> Load(c, s, key, now, o) == (s, Found(s.local[key].value))
    ensures key !in s.local && (exists k | k in s.local :: key + "/" <= k) ==> Load(c, s, key, now, o) == (s, NotAFile)
  {
    if key !in s.local && exists k | k in s.local :: key + "/" <= k {
      var k :| k in s.local && key + "/" <= k;
      assert k in Below(s.local.Keys, key);
    }
  }

  // ----- asking for a file's time -----

  lemma StatAnswers(c: Config, s: State, key: Key, now: Time, o: Answers)
    ensures key in s.local ==> Stat(c, s, key, now, o) == (s, File(s.local[key].mtime))
    ensures key !in s.local && (exists k | k in s.local :: key + "/" <= k) ==> Stat(c, s, key, now, o) == (s, Directory)
    ensures AskedFor(c, s, key) ==>
              var (q, info) := Stat(c, s, key, now, o);
              && (forall t :: info == File(t) <==>
                    s.breaker.downUntil <= now && o.answered && key in s.remote && s.remote[key].mtime == t)
              && (info.File? || info == Absent)
              && q.local == s.local && q.remote == s.remote && (q.calls == s.calls <==> now < s.breaker.downUntil)
  {
    if key !in s.local && exists k | k in s.local :: key + "/" <= k {
      var k :| k in s.local && key + "/" <= k;
      assert k in Below(s.local.Keys, key);
    }
  }

  /** A listing asks the replica if and only if the breaker lets it, and trips or resets the breaker by
      the answer; the tiers stay. */
  lemma ListAsks(c: Config, s: State, now: Time, o: Answers)
    ensures var q := ListCall(c, s, now, o);
            var asked := c.mirrored && s.breaker.downUntil <= now;
            && q.local == s.local && q.remote == s.remote && q.pendingDeletes == s.pendingDeletes
            && q.calls == (if asked then s.calls + [Call(now, o.answered)] else s.calls)
            && q.breaker.downUntil
               == (if !asked then s.breaker.downUntil else if o.answered then 0 else now + c.backoff)
  {
  }

  /** A delete on the replica: it is gone there if the replica is asked and it lands; otherwise, or
      without an answer, it is remembered, and a call without an answer trips the breaker. */
  lemma DeleteReplicaAsks(c: Config, s: State, key: Key, now: Time, o: Answers)
    ensures var q := DeleteReplica(c, s, key, now, o);
            var asked := c.mirrored && s.breaker.downUntil <= now;
            && (asked && (o.answered || o.landed) ==> key !in q.remote)
            && (!(asked && (o.answered || o.landed)) ==> q.remote == s.remote)
            && (asked && o.answered ==> q.pendingDeletes == s.pendingDeletes && q.breaker == s.breaker)
            && (!(asked && o.answered) ==> q.pendingDeletes == s.pendingDeletes + {key} && q.breaker.dirty)
            && (asked && !o.answered ==> q.breaker.downUntil == now + c.backoff)
            && (!asked ==> q.calls == s.calls && q.breaker.downUntil == s.breaker.downUntil)
  {
  }

  // ----- storing -----

  /** A write is on the disk at once; it is mirrored in the same step if and only if the replica may
      be asked and answers, or lands in spite of it. Otherwise the store is left dirty. */
  lemma StoreMirrors(c: Config, s: State, key: Key, value: Value, now: Time, o: Answers)
    requires c.mirrored && !("ocsp/" <= key)
    ensures var q := Store(c, s, key, value, now, o);
            && key in q.local && q.local[key].value == value && key !in q.pendingDeletes
            && (s.breaker.downUntil <= now && (o.answered || o.landed) ==>
               Get(q.remote, key) == Some(Entry(value, o.stamp)))
            && (!(s.breaker.downUntil <= now && (o.answered || o.landed)) ==> q.remote == s.remote)
            && (q.breaker.dirty <==> s.breaker.dirty || !(s.breaker.downUntil <= now && o.answered))
            && (q.calls == s.calls <==> now < s.breaker.downUntil)
  {
  }

  /** The call trips the breaker or resets it, and after an answer the file takes over the time that the
      replica gave its copy, if it says which. */
  lemma StoreAligns(c: Config, s: State, key: Key, value: Value, now: Time, o: Answers)
    requires c.mirrored && !("ocsp/" <= key)
    ensures var q := Store(c, s, key, value, now, o);
            var asked := s.breaker.downUntil <= now;
            && q.breaker.downUntil
               == (if !asked then s.breaker.downUntil else if o.answered then 0 else now + c.backoff)
            && q.local[key].mtime == (if asked && o.answered && o.stat && o.stamp != 0 then o.stamp else now)
            && (forall k | k != key :: Get(q.local, k) == Get(s.local, k) && Get(q.remote, k) == Get(s.remote, k))
  {
  }

  /** So it is with a file fetched by a Load. */
  lemma LoadAligns(c: Config, s: State, key: Key, now: Time, o: Answers, q: State, v: Value)
    requires AskedFor(c, s, key) && Load(c, s, key, now, o) == (q, Found(v))
    ensures key in q.local && q.local[key].mtime ==
              if o.stat && s.remote[key].mtime != 0 then s.remote[key].mtime else now
  {
  }

  /** A pull writes the disk only if the value differs, and sets the time to the replica's if it gives
      one; the replica stays as it is. */
  lemma PullWrites(c: Config, p: Progress, key: Key, modified: Time, now: Time, o: Answers)
    requires o.answered && key in p.st.remote
    ensures var q, copy := Pull(c, p, key, modified, now, o), p.st.remote[key].value;
            var same := key in p.st.local && p.st.local[key].value == copy;
            && q.ok == p.ok && q.st.remote == p.st.remote && key in q.st.local && q.st.local[key].value == copy
            && q.st.local[key].mtime
               == (if modified != 0 then modified else if same then p.st.local[key].mtime else now)
            && (forall k | k != key :: Get(q.st.local, k) == Get(p.st.local, k))
  {
  }

  /** The empty key is the directory that holds everything. */
  lemma RootIsDirectory(c: Config, s: State, now: Time, o: Answers, listed: bool)
    requires s.local != map[] && "" !in s.local
    ensures Load(c, s, "", now, o) == (s, NotAFile) && Stat(c, s, "", now, o) == (s, Directory)
    ensures AfterLocalDelete(c, s, "", now, listed).local == map[]
  {
    var k :| k in s.local;
    assert k in Below(s.local.Keys, "") && Below(s.local.Keys, "") == s.local.Keys;
  }

  /** Staples stay on their node: they are never sent to the replica, nor asked of it. */
  lemma NodeLocalStays(c: Config, s: State, key: Key, value: Value, now: Time, o: Answers)
    requires "ocsp/" <= key
    ensures Store(c, s, key, value, now, o) == s.(local := s.local[key := Entry(value, now)])
    ensures Load(c, s, key, now, o).0 == s && Stat(c, s, key, now, o).0 == s
  {
  }

  // ----- deleting a directory -----

  /** Deleting a directory deletes every file below it, and with a replica that answers the listing,
      all that the replica has below it as well. */
  lemma DeleteMakesTreeGone(c: Config, s: State, dir: Key, k: Key, now: Time, listed: bool, order: seq<Key>,
                            os: Key -> Answers, q: State)
    requires c.mirrored && !("ocsp/" <= dir) && dir != "" && dir !in s.local && dir + "/" <= k
    requires DeleteFits(c, s, dir, now, listed, order) && q == Delete(c, s, dir, now, listed, order, os)
    ensures k in s.local || (listed && s.breaker.downUntil <= now) ==> Gone(q, k)
    ensures k !in q.local
  {
    var s1 := AfterLocalDelete(c, s, dir, now, listed);
    DeleteEachCuts(c, s1, order, now, os, q);
    assert Under(dir, k);
    if k in s.local { assert k in Below(s.local.Keys, dir) && k in order; }
    if k in s.remote && listed && s.breaker.downUntil <= now { assert k in Below(s.remote.Keys, dir) && k in order; }
  }

  // ----- what a sync reports -----

  /** The keys the reconcile loop is to push and to pull, read off the tiers as they stand once the
      remembered deletes have been replayed. */
  predicate ToPush(a: Cell) {
    a.l.Some? && (a.r.None? || a.l.value.mtime > a.r.value.mtime + 2000)
  }

  predicate ToPull(a: Cell) {
    a.r.Some? && (a.l.None? || (a.r.value.mtime > a.l.value.mtime + 2000 && a.l.value.value != a.r.value.value))
  }

  function Count(keys: seq<Key>, f: Key -> bool): nat {
    if keys == [] then 0 else Count(keys[..|keys| - 1], f) + if f(keys[|keys| - 1]) then 1 else 0
  }

  lemma OneCounts(c: Config, p: Progress, key: Key, l: map<Key, Time>, r: map<Key, Time>, now: Time, o: Answers,
      q: Progress)
    requires p.ok && Gathered(p.st, key, l, r) && q == SyncOne(c, p, key, l, r, {}, now, o) && q.ok
    ensures q.stats.pushed == p.stats.pushed + if ToPush(At(p.st, key)) then 1 else 0
    ensures q.stats.pulled == p.stats.pulled + if ToPull(At(p.st, key)) then 1 else 0
  {
  }

  lemma {:induction false} EachCounts(c: Config, p: Progress, keys: seq<Key>, l: map<Key, Time>, r: map<Key, Time>,
                                      now: Time, os: Key -> Answers, q: Progress, push: Key -> bool, pull: Key -> bool)
    requires p.ok && q == SyncEach(c, p, keys, l, r, {}, now, os) && q.ok
    requires forall i, j | 0 <= i < j < |keys| :: keys[i] != keys[j]
    requires forall k | k in keys ::
               Gathered(p.st, k, l, r) && push(k) == ToPush(At(p.st, k)) && pull(k) == ToPull(At(p.st, k))
    ensures q.stats.pushed == p.stats.pushed + Count(keys, push) && q.stats.pulled == p.stats.pulled + Count(keys, pull)
  {
    if keys != [] {
      var n := |keys| - 1;
      var m := SyncEach(c, p, keys[..n], l, r, {}, now, os);
      assert keys == keys[..n] + [keys[n]];
      EachCounts(c, p, keys[..n], l, r, now, os, m, push, pull);
      EachSettles(c, p, keys[..n], l, r, now, os, m);
      assert At(m.st, keys[n]) == At(p.st, keys[n]) && Gathered(p.st, keys[n], l, r);
      OneCounts(c, m, keys[n], l, r, now, os(keys[n]), q);
    }
  }

  lemma {:induction false} CountIsSize(keys: seq<Key>, f: Key -> bool)
    requires forall i, j | 0 <= i < j < |keys| :: keys[i] != keys[j]
    ensures Count(keys, f) == |set k | k in keys && f(k)|
  {
    var all := set k | k in keys && f(k);
    if keys == [] {
      assert all == {};
    } else {
      var n := |keys| - 1;
      var init := set k | k in keys[..n] && f(k);
      CountIsSize(keys[..n], f);
      assert keys == keys[..n] + [keys[n]];
      assert all == if f(keys[n]) then init + {keys[n]} else init;
    }
  }

  function Pushes(s: State): Key -> bool { k => ToPush(Replayed(s, k)) }

  function Pulls(s: State): Key -> bool { k => ToPull(Replayed(s, k)) }

  lemma ReconcileCounts(c: Config, s: State, p: Progress, now: Time, keys: seq<Key>, e: SyncEnv, m: Progress)
    requires p.ok && p.st.pendingDeletes == {} && m == Reconcile(c, p, now, keys, e) && m.ok
    requires Enumerates(keys, Times(p.st.local).Keys + Times(p.st.remote).Keys)
    requires forall k :: At(p.st, k) == Replayed(s, k)
    ensures m.stats.pushed == p.stats.pushed + Count(keys, Pushes(s))
    ensures m.stats.pulled == p.stats.pulled + Count(keys, Pulls(s))
  {
    EachCounts(c, p, keys, Times(p.st.local), Times(p.st.remote), now, e.copies, m, Pushes(s), Pulls(s));
  }

  /** The syncable keys of either tier of which f holds. */
  function Which(s: State, f: Key -> bool): set<Key> {
    set k | k in s.local.Keys + s.remote.Keys && Syncable(k) && f(k)
  }

  lemma KeysAreAll(s: State, p: State, keys: seq<Key>, f: Key -> bool)
    requires Enumerates(keys, Times(p.local).Keys + Times(p.remote).Keys) && forall k :: At(p, k) == Replayed(s, k)
    requires forall k | f(k) :: Replayed(s, k).l.Some? || Replayed(s, k).r.Some?
    ensures Count(keys, f) == |Which(s, f)|
  {
    CountIsSize(keys, f);
    forall k ensures k in keys && f(k) <==> k in Which(s, f) { assert At(p, k) == Replayed(s, k); }
    assert (set k | k in keys && f(k)) == Which(s, f);
  }

  lemma ListedIsReplayed(c: Config, s: State, now: Time, ord: Orders, e: SyncEnv, p: Progress)
    requires SyncFits(c, s, now, ord, e) && p == SyncListed(c, s, now, ord, e) && p.ok
    ensures p.st.pendingDeletes == {} && p.stats == Stats(0, 0, |ord.deletes|) && forall k ::
        At(p.st, k) == Replayed(s, k)
  {
    ListedCuts(c, s, now, ord, e, p);
    forall k ensures At(p.st, k) == Replayed(s, k) {}
  }

  /** A completed sync reports exactly how many remembered deletes it replayed, how many syncable keys
      it pushed, and how many it pulled with a different value. */
  lemma SyncReports(c: Config, s: State, now: Time, ord: Orders, e: SyncEnv, q: Progress)
    requires c.mirrored && SyncFits(c, s, now, ord, e) && q == Sync(c, s, now, ord, e) && q.ok
    ensures q.stats == Stats(|Which(s, Pulls(s))|, |Which(s, Pushes(s))|, |ord.deletes|)
  {
    var p, m := SyncListed(c, s, now, ord, e), SyncReconciled(c, s, now, ord, e);
    ListedIsReplayed(c, s, now, ord, e, p);
    ReconcileCounts(c, s, p, now, ord.keys, e, m);
    ReconcileSettles(c, p, now, ord.keys, e, m);
    KeysAreAll(s, p.st, ord.keys, Pushes(s));
    KeysAreAll(s, p.st, ord.keys, Pulls(s));
  }

  // ----- how a sync starts and stops -----

  lemma {:induction false} ReplayKeepsBreaker(c: Config, p: Progress, keys: seq<Key>, now: Time, os: Key -> Answers,
      q: Progress)
    requires q == Replay(c, p, keys, now, os)
    ensures q.ok ==> p.ok && q.st.breaker == p.st.breaker
  {
    if keys != [] { ReplayKeepsBreaker(c, p, keys[..|keys| - 1], now, os, Replay(c, p, keys[..|keys| - 1], now, os)); }
  }

  lemma {:induction false} StatsKeepBreaker(c: Config, p: Progress, keys: seq<Key>, now: Time, os: Key -> bool,
      q: Progress)
    requires q == StatEach(c, p, keys, now, os)
    ensures q.ok ==> p.ok && q.st.breaker == p.st.breaker
  {
    if keys != [] { StatsKeepBreaker(c, p, keys[..|keys| - 1], now, os, StatEach(c, p, keys[..|keys| - 1], now, os)); }
  }

  lemma ListedKeepsBreaker(c: Config, s: State, now: Time, ord: Orders, e: SyncEnv, p: Progress)
    requires p == SyncListed(c, s, now, ord, e) && p.ok
    ensures e.probe && e.listed && p.st.breaker == Reset(s.breaker)
  {
    var p0 := Progress(Probe(c, s, now, e.probe), e.probe, Stats(0, 0, 0));
    var r := SyncReplayed(c, s, now, ord.deletes, e);
    ReplayKeepsBreaker(c, p0, ord.deletes, now, e.deletes, r);
    if r.ok && e.listed { StatsKeepBreaker(c, r.(st := Called(r.st, now, true)), ord.listed, now, e.stats, p); }
  }

  lemma {:induction false} EachIsCancelled(c: Config, p: Progress, keys: seq<Key>, l: map<Key, Time>, r: map<Key, Time>,
                                           skip: set<Key>, now: Time, os: Key -> Answers)
    requires SyncEach(c, p, keys, l, r, skip, now, os).ok
    ensures forall k | k in keys :: !os(k).cancelled
  {
    if keys != [] {
      assert keys == keys[..|keys| - 1] + [keys[|keys| - 1]];
      EachIsCancelled(c, p, keys[..|keys| - 1], l, r, skip, now, os);
    }
  }

  /** A sync completes only if the probe and the listing were answered and nobody cancelled it, and it
      then leaves the breaker closed. */
  lemma CompletedSync(c: Config, s: State, now: Time, ord: Orders, e: SyncEnv, q: Progress)
    requires c.mirrored && SyncFits(c, s, now, ord, e) && q == Sync(c, s, now, ord, e) && q.ok
    ensures e.probe && e.listed && forall k | k in ord.keys :: !e.copies(k).cancelled
    ensures !q.st.breaker.down && q.st.breaker.downUntil == 0 && !q.st.breaker.dirty
  {
    var p, m := SyncListed(c, s, now, ord, e), SyncReconciled(c, s, now, ord, e);
    ListedKeepsBreaker(c, s, now, ord, e, p);
    ListedIsReplayed(c, s, now, ord, e, p);
    ReconcileSettles(c, p, now, ord.keys, e, m);
    EachIsCancelled(c, p, ord.keys, Times(p.st.local), Times(p.st.remote), p.st.pendingDeletes, now, e.copies);
  }

  // ----- which keys are synced -----

  lemma {:induction false} LastSegmentIs(dir: string, name: string)
    requires '/' !in name
    ensures LastSegment(dir + "/" + name) == name
  {
    var key := dir + "/" + name;
    if name != "" {
      var front := name[..|name| - 1];
      assert key[..|key| - 1] == dir + "/" + front && name == front + [name[|name| - 1]];
      LastSegmentIs(dir, front);
    }
  }

  /** A file in a directory is synced unless it is a lock, a challenge token or a staple, or its name
      begins with a dot; a file at the root is not. */
  lemma WhatIsSynced(dir: string, name: string)
    requires name != "" && '/' !in name
    ensures var key := dir + "/" + name;
            Syncable(key) <==> !("locks/" <= key) && !("challenge_tokens/" <= key) && !("ocsp/" <= key)
                               && !HasSuffix(key, ".lock") && name[0] != '.'
    ensures !Syncable(name)
  {
    var key := dir + "/" + name;
    LastSegmentIs(dir, name);
    assert name[|name| - 1] in name && key[|key| - 1] == name[|name| - 1] && key[|dir|] == '/';
    assert TrimSlashes(key) == key;
  }
}
