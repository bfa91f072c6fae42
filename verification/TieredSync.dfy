/** What one background sync does to each key, and that syncing again moves nothing. */
module TieredSync {
  import opened Wrappers
  import opened TieredModel

  /** One key as both tiers see it. */
  datatype Cell = Cell(l: Option<Entry>, r: Option<Entry>)

  function Get(tier: map<Key, Entry>, key: Key): Option<Entry> {
    if key in tier then Some(tier[key]) else None
  }

  function At(s: State, key: Key): Cell { Cell(Get(s.local, key), Get(s.remote, key)) }

  predicate Apart(x: Time, y: Time) { x > y + TOLERANCE || y > x + TOLERANCE }

  /** Both tiers have the key with one value, or neither has it. */
  predicate Equal(c: Cell) {
    if c.l.None? || c.r.None? then c.l.None? && c.r.None? else c.l.value.value == c.r.value.value
  }

  /** The mtimes leave the sync nothing to do. */
  predicate Level(c: Cell) {
    if c.l.None? || c.r.None? then c.l.None? && c.r.None? else !Apart(c.l.value.mtime, c.r.value.mtime)
  }

  predicate BothHold(c: Cell, value: Value) {
    c.l.Some? && c.r.Some? && c.l.value.value == value && c.r.value.value == value
  }

  /** `b` is what reconciling makes of `a`: one-sided keys are copied, a copy newer by more
      than the tolerance wins on both sides, anything closer is left alone; a pull never
      touches the replica. */
  predicate Settled(a: Cell, b: Cell) {
    if a.l.None? && a.r.None? then b == a
    else if a.r.None? then BothHold(b, a.l.value.value)
    else if a.l.None? then BothHold(b, a.r.value.value) && b.r == a.r
    else if a.l.value.mtime > a.r.value.mtime + TOLERANCE then BothHold(b, a.l.value.value)
    else if a.r.value.mtime > a.l.value.mtime + TOLERANCE then BothHold(b, a.r.value.value) && b.r == a.r
    else b == a
  }

  /** The mtimes leave nothing to do, as far as the replica reports any. */
  predicate Aligned(b: Cell) {
    b.r.Some? && b.r.value.mtime != 0 ==> Level(b)
  }

  // ----- one phase at a time -----

  lemma {:induction false} ReplayStuck(c: Config, p: Progress, keys: seq<Key>, now: Time, os: Key -> Answers)
    requires !p.ok
    ensures Replay(c, p, keys, now, os) == p
  {
    if keys != [] { ReplayStuck(c, p, keys[..|keys| - 1], now, os); }
  }

  lemma {:induction false} ReplayCuts(c: Config, p: Progress, keys: seq<Key>, now: Time, os: Key -> Answers,
      q: Progress)
    requires p.ok && q == Replay(c, p, keys, now, os)
    ensures q.st.local == p.st.local
    ensures q.st.pendingDeletes <= p.st.pendingDeletes
    ensures forall k | k in q.st.remote :: k in p.st.remote && q.st.remote[k] == p.st.remote[k]
    ensures forall k | k !in keys ::
              At(q.st, k) == At(p.st, k) && (k in q.st.pendingDeletes <==> k in p.st.pendingDeletes)
    ensures forall k | k in keys :: k !in q.st.remote || k in q.st.pendingDeletes || k !in p.st.pendingDeletes
    ensures q.ok ==>
        q.st.breaker == p.st.breaker && forall k | k in keys :: k !in q.st.remote && k !in q.st.pendingDeletes
    ensures q.ok ==> q.stats == p.stats.(deleted := p.stats.deleted + |keys|)
    ensures !q.ok ==> q.st.breaker.dirty
    ensures (forall k | k in keys :: os(k).answered) ==> q.ok
  {
    if keys != [] {
      var n := |keys| - 1;
      ReplayCuts(c, p, keys[..n], now, os, Replay(c, p, keys[..n], now, os));
      assert keys == keys[..n] + [keys[n]];
    }
  }

  lemma {:induction false} StatsLog(c: Config, p: Progress, keys: seq<Key>, now: Time, os: Key -> bool, q: Progress)
    requires p.ok && q == StatEach(c, p, keys, now, os)
    ensures q.st == p.st.(calls := q.st.calls, breaker := q.st.breaker) && q.stats == p.stats
    ensures if q.ok then q.st.breaker == p.st.breaker else q.st.breaker.dirty
    ensures (forall k | k in keys :: os(k)) ==> q.ok
  {
    if keys != [] {
      var n := |keys| - 1;
      StatsLog(c, p, keys[..n], now, os, StatEach(c, p, keys[..n], now, os));
    }
  }

  predicate ListingAnswered(e: SyncEnv, ord: Orders) {
    && e.probe && e.listed
    && (forall k | k in ord.deletes :: e.deletes(k).answered)
    && (forall k | k in ord.listed :: e.stats(k))
  }

  /** Everything before the reconcile loop only replays the remembered deletes. */
  lemma ListedCuts(c: Config, s: State, now: Time, ord: Orders, e: SyncEnv, q: Progress)
    requires SyncFits(c, s, now, ord, e) && q == SyncListed(c, s, now, ord, e)
    ensures q.st.local == s.local
    ensures q.st.pendingDeletes <= s.pendingDeletes
    ensures forall k | k in q.st.remote :: k in s.remote && q.st.remote[k] == s.remote[k]
    ensures forall k | k !in s.pendingDeletes :: At(q.st, k) == At(s, k)
    ensures forall k | k in s.pendingDeletes :: k !in q.st.remote || k in q.st.pendingDeletes
    ensures s.breaker.dirty || !q.ok ==> q.st.breaker.dirty
    ensures q.ok ==> q.st.pendingDeletes == {} && forall k | k in s.pendingDeletes :: k !in q.st.remote
    ensures q.ok || ord.deletes == [] ==> q.stats == Stats(0, 0, |ord.deletes|)
    ensures ListingAnswered(e, ord) ==> q.ok
  {
    var p0 := Progress(Probe(c, s, now, e.probe), e.probe, Stats(0, 0, 0));
    if e.probe {
      var p := SyncReplayed(c, s, now, ord.deletes, e);
      ReplayCuts(c, p0, ord.deletes, now, e.deletes, p);
      if p.ok && e.listed { StatsLog(c, p.(st := Called(p.st, now, true)), ord.listed, now, e.stats, q); }
    } else {
      ReplayStuck(c, p0, ord.deletes, now, e.deletes);
    }
  }

  /** The gathered mtimes are those of the key's present cell. */
  predicate Gathered(s: State, key: Key, l: map<Key, Time>, r: map<Key, Time>) {
    && (key in l <==> key in s.local) && (key in l ==> l[key] == s.local[key].mtime)
    && (key in r <==> key in s.remote) && (key in r ==> r[key] == s.remote[key].mtime)
  }

  /** One round of the loop touches its key only, and a completed round settles it. */
  lemma OneSettles(c: Config, p: Progress, key: Key, l: map<Key, Time>, r: map<Key, Time>, now: Time, o: Answers,
      q: Progress)
    requires p.ok && Gathered(p.st, key, l, r) && q == SyncOne(c, p, key, l, r, {}, now, o)
    ensures forall k | k != key :: At(q.st, k) == At(p.st, k)
    ensures q.st.pendingDeletes == p.st.pendingDeletes && q.stats.deleted == p.stats.deleted
    ensures q.ok ==> q.st.breaker == p.st.breaker && Settled(At(p.st, key), At(q.st, key))
    ensures p.st.breaker.dirty || (!q.ok && !o.cancelled) ==> q.st.breaker.dirty
    ensures q.ok && o.stat ==> Aligned(At(q.st, key))
    ensures Level(At(p.st, key)) ==> q.st == p.st && q.stats == p.stats
    ensures o.answered && !o.cancelled ==> q.ok
  {
  }

  /** The whole loop: keys it does not visit keep their cells, a completed loop settles the rest. */
  lemma {:induction false} EachSettles(c: Config, p: Progress, keys: seq<Key>, l: map<Key, Time>, r: map<Key, Time>,
                                       now: Time, os: Key -> Answers, q: Progress)
    requires p.ok && q == SyncEach(c, p, keys, l, r, {}, now, os)
    requires forall i, j | 0 <= i < j < |keys| :: keys[i] != keys[j]
    requires forall k | k in keys :: Gathered(p.st, k, l, r)
    ensures forall k | k !in keys :: At(q.st, k) == At(p.st, k)
    ensures q.st.pendingDeletes == p.st.pendingDeletes && q.stats.deleted == p.stats.deleted
    ensures q.ok ==> q.st.breaker == p.st.breaker
    ensures q.ok ==> forall k | k in keys :: Settled(At(p.st, k), At(q.st, k)) && (os(k).stat ==> Aligned(At(q.st, k)))
    ensures (forall k | k in keys :: Level(At(p.st, k))) ==> q.st == p.st && q.stats == p.stats
    ensures (forall k | k in keys :: os(k).answered && !os(k).cancelled) ==> q.ok
  {
    if keys != [] {
      var n := |keys| - 1;
      var m := SyncEach(c, p, keys[..n], l, r, {}, now, os);
      EachSettles(c, p, keys[..n], l, r, now, os, m);
      assert keys == keys[..n] + [keys[n]];
      if m.ok {
        assert At(m.st, keys[n]) == At(p.st, keys[n]);
        assert Gathered(p.st, keys[n], l, r);
        OneSettles(c, m, keys[n], l, r, now, os(keys[n]), q);
      }
    }
  }

  // ----- the whole sync -----

  /** The key's cell once the remembered deletes have been replayed. */
  function Replayed(s: State, key: Key): Cell {
    if key in s.pendingDeletes then Cell(Get(s.local, key), None) else At(s, key)
  }

  predicate AllAnswered(e: SyncEnv, ord: Orders) {
    ListingAnswered(e, ord) && forall k | k in ord.keys :: e.copies(k).answered && !e.copies(k).cancelled
  }

  /** The reconcile loop settles every key of either tier. */
  lemma ReconcileSettles(c: Config, p: Progress, now: Time, keys: seq<Key>, e: SyncEnv, m: Progress)
    requires p.ok && p.st.pendingDeletes == {} && m == Reconcile(c, p, now, keys, e)
    requires Enumerates(keys, Times(p.st.local).Keys + Times(p.st.remote).Keys)
    ensures m.ok ==> m.st.breaker == p.st.breaker && m.st.pendingDeletes == {} && m.stats.deleted == p.stats.deleted
    ensures forall k | !Syncable(k) :: At(m.st, k) == At(p.st, k)
    ensures m.ok ==> forall k | Syncable(k) :: Settled(At(p.st, k), At(m.st, k))
    ensures m.ok ==>
        forall k | Syncable(k) && e.copies(k).stat && (k in p.st.local || k in p.st.remote) :: Aligned(At(m.st, k))
    ensures (forall k | k in keys :: e.copies(k).answered && !e.copies(k).cancelled) ==> m.ok
  {
    EachSettles(c, p, keys, Times(p.st.local), Times(p.st.remote), now, e.copies, m);
    forall k | Syncable(k) && k !in keys ensures At(p.st, k) == Cell(None, None) {}
  }

  /** A completed sync leaves nothing pending and settles every syncable key of both tiers;
      other keys change only by the replayed deletes. A sync whose calls are all answered completes. */
  lemma SyncSettles(c: Config, s: State, now: Time, ord: Orders, e: SyncEnv, q: Progress)
    requires c.mirrored && SyncFits(c, s, now, ord, e) && q == Sync(c, s, now, ord, e)
    ensures q.ok ==> !Pending(q.st) && q.stats.deleted == |ord.deletes|
    ensures q.ok ==>
        forall k :: if Syncable(k) then Settled(Replayed(s, k), At(q.st, k)) else At(q.st, k) == Replayed(s, k)
    ensures q.ok ==>
        forall k | Syncable(k) && e.copies(k).stat && (k in s.local || k in s.remote) :: Aligned(At(q.st, k))
    ensures AllAnswered(e, ord) ==> q.ok
  {
    var p := SyncListed(c, s, now, ord, e);
    ListedCuts(c, s, now, ord, e, p);
    if p.ok {
      ReconcileSettles(c, p, now, ord.keys, e, SyncReconciled(c, s, now, ord, e));
      forall k ensures At(p.st, k) == Replayed(s, k) {}
    }
  }

  /** The key has reached both tiers or neither, with mtimes that do not call for a copy. */
  ghost predicate Quiet(s: State) {
    s.pendingDeletes == {} && forall k | Syncable(k) :: Level(At(s, k))
  }

  lemma NothingToVisit(order: seq<Key>, keys: set<Key>)
    requires Enumerates(order, keys)
    ensures order == [] <==> keys == {}
  {
    if order != [] { assert order[0] in keys; }
  }

  /** Syncing a quiet store moves nothing, however the replica answers. */
  lemma QuietSync(c: Config, s: State, now: Time, ord: Orders, e: SyncEnv, q: Progress)
    requires Quiet(s) && SyncFits(c, s, now, ord, e) && q == Sync(c, s, now, ord, e)
    ensures q.stats == Stats(0, 0, 0) && q.st.local == s.local && q.st.remote == s.remote
  {
    if c.mirrored {
      NothingToVisit(ord.deletes, s.pendingDeletes);
      var p := SyncListed(c, s, now, ord, e);
      ListedCuts(c, s, now, ord, e, p);
      forall k ensures At(p.st, k) == At(s, k) && (k in p.st.remote <==> k in s.remote) {}
      assert p.st.remote == s.remote;
      if p.ok {
        EachSettles(c, p, ord.keys, Times(p.st.local), Times(p.st.remote), now, e.copies,
            SyncReconciled(c, s, now, ord, e));
      }
    }
  }

  ghost predicate ReportsMtimes(s: State) {
    forall k | k in s.remote :: s.remote[k].mtime != 0
  }

  lemma AnsweredSyncIsQuiet(c: Config, s: State, now: Time, ord: Orders, e: SyncEnv, q: Progress)
    requires c.mirrored && SyncFits(c, s, now, ord, e) && q == Sync(c, s, now, ord, e)
    requires AllAnswered(e, ord) && forall k :: e.copies(k).stat
    ensures ReportsMtimes(q.st) ==> Quiet(q.st)
  {
    SyncSettles(c, s, now, ord, e, q);
    forall k | Syncable(k) && ReportsMtimes(q.st) ensures Level(At(q.st, k)) {
      assert Settled(Replayed(s, k), At(q.st, k));
    }
  }

  /** No ping-pong: once a sync has had every call answered by a replica that reports mtimes,
      the next one reports nothing pulled, pushed or deleted and changes neither tier, however
      late it runs and whatever the replica answers then. */
  lemma SyncIsQuiescent(c: Config, s: State, now: Time, ord: Orders, e: SyncEnv, q: Progress,
                        later: Time, ord2: Orders, e2: SyncEnv, q2: Progress)
    requires c.mirrored && SyncFits(c, s, now, ord, e) && q == Sync(c, s, now, ord, e)
    requires AllAnswered(e, ord) && (forall k :: e.copies(k).stat) && ReportsMtimes(q.st)
    requires SyncFits(c, q.st, later, ord2, e2) && q2 == Sync(c, q.st, later, ord2, e2)
    ensures q2.stats == Stats(0, 0, 0) && q2.st.local == q.st.local && q2.st.remote == q.st.remote
  {
    AnsweredSyncIsQuiet(c, s, now, ord, e, q);
    QuietSync(c, q.st, later, ord2, e2, q2);
  }

  /** The tiers agree on everything a sync is responsible for. */
  ghost predicate Agree(s: State) {
    forall k | Syncable(k) :: Equal(At(s, k))
  }

  /** Wherever the tiers hold different values, the mtimes are far enough apart to tell
      which one is newer. */
  ghost predicate Reconcilable(s: State) {
    forall k | Syncable(k) && k !in s.pendingDeletes && k in s.local && k in s.remote ::
      s.local[k].value == s.remote[k].value || Apart(s.local[k].mtime, s.remote[k].mtime)
  }

  lemma SettledAgreesIff(a: Cell, b: Cell)
    requires Settled(a, b)
    ensures Equal(b) <==> (a.l.Some? && a.r.Some? ==>
                             a.l.value.value == a.r.value.value || Apart(a.l.value.mtime, a.r.value.mtime))
  {}

  /** A completed sync makes the tiers agree exactly when it could tell every newer value. */
  lemma SyncAgreesIff(c: Config, s: State, now: Time, ord: Orders, e: SyncEnv)
    requires c.mirrored && SyncFits(c, s, now, ord, e) && Sync(c, s, now, ord, e).ok
    ensures Agree(Sync(c, s, now, ord, e).st) <==> Reconcilable(s)
  {
    var q := Sync(c, s, now, ord, e);
    SyncSettles(c, s, now, ord, e, q);
    forall k | Syncable(k)
      ensures Equal(At(q.st, k)) <==>
        (k !in s.pendingDeletes && k in s.local && k in s.remote ==>
          s.local[k].value == s.remote[k].value || Apart(s.local[k].mtime, s.remote[k].mtime))
    {
      var a, b := Replayed(s, k), At(q.st, k);
      assert Settled(a, b);
      SettledAgreesIff(a, b);
    }
  }
}
