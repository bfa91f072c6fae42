/** Runs of the tiered store: no write is lost, no deleted key comes back, and a dead
    replica is called at most once per backoff. */
module TieredRuns {
  import opened Wrappers
  import opened TieredModel
  import opened TieredSync

  datatype Event =
    | DoLoad(key: Key, now: Time, o: Answers)
    | DoStore(key: Key, value: Value, now: Time, o: Answers)
    | DoStat(key: Key, now: Time, o: Answers)
    | DoList(now: Time, o: Answers)
    | DoDelete(key: Key, now: Time, listed: bool, order: seq<Key>, os: Key -> Answers)
    | DoSync(now: Time, ord: Orders, e: SyncEnv)

  function Step(c: Config, s: State, ev: Event): State {
    match ev
    case DoLoad(key, now, o) => Load(c, s, key, now, o).0
    case DoStore(key, value, now, o) => Store(c, s, key, value, now, o)
    case DoStat(key, now, o) => Stat(c, s, key, now, o).0
    case DoList(now, o) => ListCall(c, s, now, o)
    case DoDelete(key, now, listed, order, os) => Delete(c, s, key, now, listed, order, os)
    case DoSync(now, ord, e) => Sync(c, s, now, ord, e).st
  }

  /** The event's loops visit the keys the code visits. */
  ghost predicate Fits(c: Config, s: State, ev: Event) {
    match ev
    case DoDelete(key, now, listed, order, os) => DeleteFits(c, s, key, now, listed, order)
    case DoSync(now, ord, e) => SyncFits(c, s, now, ord, e)
    case _ => true
  }

  function Exec(c: Config, s: State, evs: seq<Event>): State {
    if evs == [] then s else Step(c, Exec(c, s, evs[..|evs| - 1]), evs[|evs| - 1])
  }

  ghost predicate AllFit(c: Config, s: State, evs: seq<Event>) {
    forall i | 0 <= i < |evs| :: Fits(c, Exec(c, s, evs[..i]), evs[i])
  }

  // ----- no lost write -----

  /** A write lands more than the tolerance after the replica's copy was written, and a file on
      the disk is not a directory there as well. */
  predicate Spaced(c: Config, s: State, ev: Event) {
    match ev
    case DoStore(key, _, now, _) => key in s.remote ==> now > s.remote[key].mtime + TOLERANCE
    case DoDelete(key, _, _, _, _) => key in s.local ==> Below(s.local.Keys, key) == {}
    case _ => true
  }

  /** The writes that have not been deleted since, read off the history alone. */
  function Written(evs: seq<Event>): map<Key, Value> {
    if evs == [] then map[]
    else
      var w := Written(evs[..|evs| - 1]);
      match evs[|evs| - 1]
      case DoStore(key, value, _, _) => w[key := value]
      case DoDelete(key, _, _, _, _) => w - Below(w.Keys, key) - {key}
      case _ => w
  }

  /** Different values are far enough apart, and for our own writes the local one is newer. */
  predicate Orderly(s: State, w: map<Key, Value>, k: Key) {
    k in s.local && k in s.remote && s.local[k].value != s.remote[k].value ==>
      && Apart(s.local[k].mtime, s.remote[k].mtime)
      && (k in w ==> s.local[k].mtime > s.remote[k].mtime + TOLERANCE)
  }

  ghost predicate Sound(s: State, w: map<Key, Value>) {
    && (forall k | k in w :: k in s.local && s.local[k].value == w[k])
    && (forall k | Syncable(k) :: Orderly(s, w, k))
    && (!s.breaker.dirty ==> Agree(s) && s.pendingDeletes == {})
  }

  lemma LoadKeepsSound(c: Config, s: State, w: map<Key, Value>, key: Key, now: Time, o: Answers)
    requires Sound(s, w)
    ensures Sound(Load(c, s, key, now, o).0, w)
  {
    var s2 := Load(c, s, key, now, o).0;
    forall k | Syncable(k) ensures Orderly(s2, w, k) && (Equal(At(s, k)) ==> Equal(At(s2, k))) {
      assert Orderly(s, w, k);
    }
  }

  lemma StoreTouches(c: Config, s: State, key: Key, value: Value, now: Time, o: Answers, q: State)
    requires c.mirrored && q == Store(c, s, key, value, now, o)
    ensures forall k | k != key :: At(q, k) == At(s, k)
    ensures key in q.local && q.local[key].value == value
    ensures (At(q, key).r == At(s, key).r && q.local[key].mtime == now) || BothHold(At(q, key), value)
    ensures q.pendingDeletes <= s.pendingDeletes
    ensures s.breaker.dirty ==> q.breaker.dirty
    ensures !q.breaker.dirty && !NodeLocal(key) ==> BothHold(At(q, key), value)
  {
  }

  lemma StoreKeepsSound(c: Config, s: State, w: map<Key, Value>, key: Key, value: Value, now: Time, o: Answers)
    requires c.mirrored && Sound(s, w) && Spaced(c, s, DoStore(key, value, now, o))
    ensures Sound(Store(c, s, key, value, now, o), w[key := value])
  {
    var q := Store(c, s, key, value, now, o);
    StoreTouches(c, s, key, value, now, o, q);
    forall k | Syncable(k)
      ensures Orderly(q, w[key := value], k)
      ensures !q.breaker.dirty ==> Equal(At(q, k))
    {
      assert Orderly(s, w, k) && At(q, k) == At(q, k);
      assert !s.breaker.dirty ==> Equal(At(s, k));
      if k != key { assert At(q, k) == At(s, k); }
    }
    forall k | k in w[key := value] ensures k in q.local && q.local[k].value == w[key := value][k] {
      if k != key { assert At(q, k) == At(s, k); }
    }
  }

  lemma {:induction false} DeleteEachCuts(c: Config, s: State, keys: seq<Key>, now: Time, os: Key -> Answers, q: State)
    requires q == DeleteEach(c, s, keys, now, os)
    ensures q.local == s.local
    ensures forall k | k in q.remote :: k in s.remote && q.remote[k] == s.remote[k]
    ensures forall k | k !in keys :: At(q, k) == At(s, k)
    ensures forall k | k in keys :: k !in q.remote || k in q.pendingDeletes
    ensures s.pendingDeletes <= q.pendingDeletes
    ensures s.breaker.dirty || q.pendingDeletes != s.pendingDeletes ==> q.breaker.dirty
  {
    if keys != [] {
      var n := |keys| - 1;
      DeleteEachCuts(c, s, keys[..n], now, os, DeleteEach(c, s, keys[..n], now, os));
      assert keys == keys[..n] + [keys[n]];
    }
  }

  lemma DeleteKeepsSound(c: Config, s: State, w: map<Key, Value>, key: Key, now: Time, listed: bool,
                         order: seq<Key>, os: Key -> Answers)
    requires c.mirrored && Sound(s, w)
    requires DeleteFits(c, s, key, now, listed, order)
    requires key in s.local ==> Below(s.local.Keys, key) == {}
    ensures Sound(Delete(c, s, key, now, listed, order, os), w - Below(w.Keys, key) - {key})
  {
    var q := Delete(c, s, key, now, listed, order, os);
    var w2 := w - Below(w.Keys, key) - {key};
    var s1 := AfterLocalDelete(c, s, key, now, listed);
    if Mirrors(c, key) { DeleteEachCuts(c, s1, order, now, os, q); }
    forall k | Syncable(k)
      ensures Orderly(q, w2, k)
      ensures !q.breaker.dirty ==> Equal(At(q, k))
    {
      assert Orderly(s, w, k);
      if !q.breaker.dirty {
        assert Equal(At(s, k));
        if Mirrors(c, key) && k in s.local && Under(key, k) {
          assert k in Below(s.local.Keys, key);
          assert k in order;
        }
      }
    }
  }

  /** A round of the reconcile loop overwrites a local value only with a newer one, and our
      own writes are never the older. */
  lemma OneKeepsSound(c: Config, p: Progress, w: map<Key, Value>, key: Key, l: map<Key, Time>, r: map<Key, Time>,
                      now: Time, o: Answers, q: Progress)
    requires p.ok && Syncable(key) && Gathered(p.st, key, l, r) && Sound(p.st, w)
    requires q == SyncOne(c, p, key, l, r, {}, now, o)
    ensures Sound(q.st, w)
  {
    OneSettles(c, p, key, l, r, now, o, q);
    assert Orderly(p.st, w, key);
    assert !p.st.breaker.dirty ==> Equal(At(p.st, key));
    OneKeepsKey(c, p, w, key, l, r, now, o, q);
    forall k | Syncable(k)
      ensures Orderly(q.st, w, k) && (!q.st.breaker.dirty ==> Equal(At(q.st, k)))
    {
      assert Orderly(p.st, w, k);
      assert !p.st.breaker.dirty ==> Equal(At(p.st, k));
      if k != key { assert At(q.st, k) == At(p.st, k); }
    }
    forall k | k in w ensures k in q.st.local && q.st.local[k].value == w[k] {
      if k != key { assert At(q.st, k) == At(p.st, k); }
    }
  }

  lemma OneKeepsKey(c: Config, p: Progress, w: map<Key, Value>, key: Key, l: map<Key, Time>, r: map<Key, Time>,
                    now: Time, o: Answers, q: Progress)
    requires p.ok && Gathered(p.st, key, l, r) && q == SyncOne(c, p, key, l, r, {}, now, o)
    requires Orderly(p.st, w, key) && (key in w ==> key in p.st.local && p.st.local[key].value == w[key])
    requires !p.st.breaker.dirty ==> Equal(At(p.st, key))
    ensures Orderly(q.st, w, key) && (key in w ==> key in q.st.local && q.st.local[key].value == w[key])
    ensures !q.st.breaker.dirty ==> !p.st.breaker.dirty && Equal(At(q.st, key))
  {
  }

  lemma {:induction false} EachKeepsSound(c: Config, p: Progress, w: map<Key, Value>, keys: seq<Key>,
      l: map<Key, Time>, r: map<Key, Time>, now: Time, os: Key -> Answers, q: Progress)
    requires p.ok && Sound(p.st, w) && q == SyncEach(c, p, keys, l, r, {}, now, os)
    requires forall i, j | 0 <= i < j < |keys| :: keys[i] != keys[j]
    requires forall k | k in keys :: Syncable(k) && Gathered(p.st, k, l, r)
    ensures Sound(q.st, w)
  {
    if keys != [] {
      var n := |keys| - 1;
      var m := SyncEach(c, p, keys[..n], l, r, {}, now, os);
      EachKeepsSound(c, p, w, keys[..n], l, r, now, os, m);
      EachSettles(c, p, keys[..n], l, r, now, os, m);
      if m.ok {
        assert At(m.st, keys[n]) == At(p.st, keys[n]) && Gathered(p.st, keys[n], l, r);
        OneKeepsSound(c, m, w, keys[n], l, r, now, os(keys[n]), q);
      }
    }
  }

  lemma ListedKeepsSound(c: Config, s: State, w: map<Key, Value>, now: Time, ord: Orders, e: SyncEnv, p: Progress)
    requires Sound(s, w) && SyncFits(c, s, now, ord, e) && p == SyncListed(c, s, now, ord, e)
    ensures Sound(p.st, w)
  {
    ListedCuts(c, s, now, ord, e, p);
    forall k | Syncable(k)
      ensures Orderly(p.st, w, k) && (!p.st.breaker.dirty ==> Equal(At(p.st, k)))
    {
      assert Orderly(s, w, k);
      assert !s.breaker.dirty ==> Equal(At(s, k));
      if k !in s.pendingDeletes { assert At(p.st, k) == At(s, k); }
    }
  }

  lemma SyncKeepsSound(c: Config, s: State, w: map<Key, Value>, now: Time, ord: Orders, e: SyncEnv)
    requires c.mirrored && Sound(s, w) && SyncFits(c, s, now, ord, e)
    ensures Sound(Sync(c, s, now, ord, e).st, w)
  {
    var p := SyncListed(c, s, now, ord, e);
    ListedKeepsSound(c, s, w, now, ord, e, p);
    if p.ok {
      ListedCuts(c, s, now, ord, e, p);
      var q := SyncReconciled(c, s, now, ord, e);
      EachKeepsSound(c, p, w, ord.keys, Times(p.st.local), Times(p.st.remote), now, e.copies, q);
      if q.ok {
        SyncAgreesIff(c, s, now, ord, e);
        forall k | Syncable(k) ensures Orderly(s, w, k) {}
        assert Reconcilable(s);
        var done := Sync(c, s, now, ord, e).st;
        SyncSettles(c, s, now, ord, e, Sync(c, s, now, ord, e));
        forall k | Syncable(k) ensures Orderly(done, w, k) {
          assert Orderly(q.st, w, k);
        }
      }
    }
  }

  lemma StepKeepsSound(c: Config, s: State, w: map<Key, Value>, ev: Event, w2: map<Key, Value>)
    requires c.mirrored && Sound(s, w) && Fits(c, s, ev) && Spaced(c, s, ev)
    requires match ev
             case DoStore(key, value, _, _) => w2 == w[key := value]
             case DoDelete(key, _, _, _, _) => w2 == w - Below(w.Keys, key) - {key}
             case _ => w2 == w
    ensures Sound(Step(c, s, ev), w2)
  {
    match ev
    case DoLoad(key, now, o) => LoadKeepsSound(c, s, w, key, now, o);
    case DoStore(key, value, now, o) => StoreKeepsSound(c, s, w, key, value, now, o);
    case DoStat(key, now, o) => SameTiersKeepSound(s, w, Step(c, s, ev));
    case DoList(now, o) => SameTiersKeepSound(s, w, Step(c, s, ev));
    case DoDelete(key, now, listed, order, os) => DeleteKeepsSound(c, s, w, key, now, listed, order, os);
    case DoSync(now, ord, e) => SyncKeepsSound(c, s, w, now, ord, e);
  }

  lemma SameTiersKeepSound(s: State, w: map<Key, Value>, q: State)
    requires Sound(s, w)
    requires q == s.(breaker := q.breaker, calls := q.calls) && (s.breaker.dirty ==> q.breaker.dirty)
    ensures Sound(q, w)
  {
    forall k | Syncable(k) ensures Orderly(q, w, k) && At(q, k) == At(s, k) {
      assert Orderly(s, w, k);
    }
  }

  /** A store to start from: tiers that agree with nothing pending, or a dirty store whose
      differences a sync can tell. */
  ghost predicate Startable(s: State) {
    Sound(s, map[])
  }

  lemma {:induction false} RunsAreSound(c: Config, s: State, evs: seq<Event>)
    requires c.mirrored && Startable(s) && AllFit(c, s, evs)
    requires forall i | 0 <= i < |evs| :: Spaced(c, Exec(c, s, evs[..i]), evs[i])
    ensures Sound(Exec(c, s, evs), Written(evs))
  {
    if evs != [] {
      var n := |evs| - 1;
      forall i | 0 <= i < n ensures evs[..n][..i] == evs[..i] && evs[..n][i] == evs[i] {}
      RunsAreSound(c, s, evs[..n]);
      StepKeepsSound(c, Exec(c, s, evs[..n]), Written(evs[..n]), evs[n], Written(evs));
    }
  }

  /** No lost write: in every state a run reaches, through any replica failures, every write
      that was not deleted since is the local value, and once nothing is pending the tiers
      agree on every syncable key, so the replica holds it too. */
  lemma NoLostWrite(c: Config, s: State, evs: seq<Event>)
    requires c.mirrored && Startable(s) && AllFit(c, s, evs)
    requires forall i | 0 <= i < |evs| :: Spaced(c, Exec(c, s, evs[..i]), evs[i])
    ensures var q, w := Exec(c, s, evs), Written(evs);
            && (forall k | k in w :: k in q.local && q.local[k].value == w[k])
            && (!Pending(q) ==>
               Agree(q) && forall k | k in w && Syncable(k) :: k in q.remote && q.remote[k].value == w[k])
  {
    RunsAreSound(c, s, evs);
    var q := Exec(c, s, evs);
    forall k | k in Written(evs) && Syncable(k) && !Pending(q) ensures Equal(At(q, k)) {}
  }

  /** When a write that never reached the replica lands on agreeing tiers, the next completed
      sync brings it to both exactly when it is newer than the replica's copy by more than the
      tolerance (or changes nothing). Otherwise, with nothing left pending, it is forgotten or lost:
      inside the tolerance the replica keeps the old value for good, and where the replica's copy is
      newer by more than that the old value replaces the write on the disk as well. */
  lemma MissedWriteIff(c: Config, s: State, key: Key, value: Value, now: Time, o: Answers, q: State,
                       later: Time, ord: Orders, e: SyncEnv, done: Progress)
    requires c.mirrored && Agree(s) && Syncable(key) && key in s.remote
    requires q == Store(c, s, key, value, now, o) && (Landed(o) ==> !ReplicaUp(c, s, now))
    requires SyncFits(c, q, later, ord, e) && done == Sync(c, q, later, ord, e) && done.ok
    ensures !Pending(done.st)
    ensures BothHold(At(done.st, key), value) <==> value == s.remote[key].value || now > s.remote[key].mtime + TOLERANCE
    ensures BothHold(At(done.st, key), s.remote[key].value) <==>
              value == s.remote[key].value || s.remote[key].mtime > now + TOLERANCE
    ensures Agree(done.st) <==> value == s.remote[key].value || Apart(now, s.remote[key].mtime)
  {
    SyncSettles(c, q, later, ord, e, done);
    SyncAgreesIff(c, q, later, ord, e);
    StoreTouches(c, s, key, value, now, o, q);
    forall k | Syncable(k) && k != key && k in q.local && k in q.remote
      ensures q.local[k].value == q.remote[k].value
    {
      assert At(q, k) == At(s, k) && Equal(At(s, k));
    }
    assert q.remote == s.remote && q.local[key] == Entry(value, now) && key !in q.pendingDeletes;
    assert Settled(Replayed(q, key), At(done.st, key));
  }

  const ANSWER := Answers(true, true, 10_000, true, false)

  const ALL_ANSWERED := SyncEnv(true, (k: Key) => ANSWER, true, (k: Key) => true, (k: Key) => ANSWER)

  lemma OneKeyFits(c: Config, s: State, key: Key, now: Time, ord: Orders)
    requires c.mirrored && Syncable(key) && s.local.Keys == {key} && s.remote.Keys == {key} && s.pendingDeletes == {}
    requires ord == Orders([], [key], [key])
    ensures SyncFits(c, s, now, ord, ALL_ANSWERED) && Sync(c, s, now, ord, ALL_ANSWERED).ok
  {
    var p := SyncReplayed(c, s, now, [], ALL_ANSWERED);
    assert p.ok && p.st.remote == s.remote && p.st.local == s.local;
    assert Times(p.st.remote).Keys == {key};
    var m := SyncListed(c, s, now, ord, ALL_ANSWERED);
    ListedFits(c, p, now, key, m);
    assert Times(m.st.local).Keys + Times(m.st.remote).Keys == {key};
    assert ord.keys[..0] == [] && ord.keys[0] == key;
    SyncSettles(c, s, now, ord, ALL_ANSWERED, Sync(c, s, now, ord, ALL_ANSWERED));
  }

  lemma ListedFits(c: Config, p: Progress, now: Time, key: Key, m: Progress)
    requires p.ok && m == Listing(c, p, now, [key], ALL_ANSWERED)
    ensures m.ok && m.st.remote == p.st.remote && m.st.local == p.st.local
  {
    var p1 := p.(st := Called(p.st, now, true));
    assert [key][..0] == [] && StatEach(c, p1, [key][..0], now, ALL_ANSWERED.stats) == p1;
    assert StatEach(c, p1, [key], now, ALL_ANSWERED.stats) == StatOne(c, p1, now, ALL_ANSWERED.stats(key));
  }

  lemma SyncableExample(key: Key)
    requires key == "a/b"
    ensures Syncable(key)
  {
    assert key[..2] == "a/" && LastSegment("a/") == "" && LastSegment(key) == "b";
    assert key[1] == '/' && TrimSlashes(key) == key;
    assert LastSegment(TrimSlashes(key))[0] == 'b';
  }

  /** The lost write by example: one second after the replica's copy was written, a write whose
      mirror was held back by the breaker; a sync with every call answered then forgets it. */
  lemma CloseWriteIsLost(c: Config, s: State, q: State, ord: Orders, done: Progress)
    requires c.mirrored && ord == Orders([], ["a/b"], ["a/b"])
    requires var copy := map["a/b" := Entry([0], 10_000)]; s == State(copy, copy, Breaker(true, 20_000, false), {}, [])
    requires q == Store(c, s, "a/b", [1], 11_000, ANSWER) && done == Sync(c, q, 12_000, ord, ALL_ANSWERED)
    ensures Pending(q) && SyncFits(c, q, 12_000, ord, ALL_ANSWERED) && done.ok && !Pending(done.st)
    ensures At(done.st, "a/b") == Cell(Some(Entry([1], 11_000)), Some(Entry([0], 10_000)))
  {
    var key := "a/b";
    SyncableExample(key);
    OneKeyFits(c, q, key, 12_000, ord);
    MissedWriteIff(c, s, key, [1], 11_000, ANSWER, q, 12_000, ord, ALL_ANSWERED, done);
    SyncSettles(c, q, 12_000, ord, ALL_ANSWERED, done);
    assert Settled(Replayed(q, key), At(done.st, key));
  }

  /** The overwritten write by example: the replica's clock is ahead, and the same sync puts the old
      value back on the disk. */
  lemma EarlyWriteIsOverwritten(c: Config, s: State, q: State, ord: Orders, done: Progress)
    requires c.mirrored && ord == Orders([], ["a/b"], ["a/b"])
    requires var copy := map["a/b" := Entry([0], 20_000)]; s == State(copy, copy, Breaker(true, 30_000, false), {}, [])
    requires q == Store(c, s, "a/b", [1], 11_000, ANSWER) && done == Sync(c, q, 40_000, ord, ALL_ANSWERED)
    ensures Pending(q) && q.local["a/b"].value == [1]
    ensures SyncFits(c, q, 40_000, ord, ALL_ANSWERED) && done.ok && !Pending(done.st)
    ensures BothHold(At(done.st, "a/b"), [0])
  {
    var key := "a/b";
    SyncableExample(key);
    OneKeyFits(c, q, key, 40_000, ord);
    MissedWriteIff(c, s, key, [1], 11_000, ANSWER, q, 40_000, ord, ALL_ANSWERED, done);
  }

  // ----- deleted keys stay deleted -----

  /** The key is deleted here, and on the replica or remembered as still to be deleted there. */
  predicate Gone(s: State, key: Key) {
    key !in s.local && (key !in s.remote || key in s.pendingDeletes)
  }

  predicate Vanished(s: State, key: Key) {
    key !in s.local && key !in s.remote
  }

  predicate Revives(ev: Event, key: Key) {
    (ev.DoLoad? && ev.key == key) || (ev.DoStore? && ev.key == key)
  }

  lemma DeleteMakesGone(c: Config, s: State, key: Key, now: Time, listed: bool, order: seq<Key>, os: Key -> Answers)
    requires Mirrors(c, key) && key != "" && (key in s.local || Below(s.local.Keys, key) == {})
    requires DeleteFits(c, s, key, now, listed, order)
    ensures Gone(Delete(c, s, key, now, listed, order, os), key)
  {
    var s1 := AfterLocalDelete(c, s, key, now, listed);
    DeleteEachCuts(c, s1, order, now, os, DeleteEach(c, s1, order, now, os));
    assert key in order;
  }

  lemma DeleteKeepsGone(c: Config, s: State, k: Key, now: Time, listed: bool, order: seq<Key>, os: Key -> Answers,
                        key: Key, q: State)
    requires q == Delete(c, s, k, now, listed, order, os) && DeleteFits(c, s, k, now, listed, order)
    ensures Gone(s, key) ==> Gone(q, key)
    ensures Vanished(s, key) ==> Vanished(q, key)
  {
    if Mirrors(c, k) {
      var s1 := AfterLocalDelete(c, s, k, now, listed);
      DeleteEachCuts(c, s1, order, now, os, q);
      assert key !in order ==> At(q, key) == At(s1, key);
    }
  }

  lemma SyncKeepsGone(c: Config, s: State, now: Time, ord: Orders, e: SyncEnv, key: Key, q: Progress)
    requires c.mirrored && SyncFits(c, s, now, ord, e) && q == Sync(c, s, now, ord, e)
    ensures Gone(s, key) ==> Gone(q.st, key)
    ensures Vanished(s, key) ==> Vanished(q.st, key)
    ensures q.ok && Gone(s, key) ==> Vanished(q.st, key)
  {
    var p := SyncListed(c, s, now, ord, e);
    ListedCuts(c, s, now, ord, e, p);
    assert key !in s.pendingDeletes ==> At(p.st, key) == At(s, key);
    if p.ok && Gone(s, key) {
      EachSettles(c, p, ord.keys, Times(p.st.local), Times(p.st.remote), now, e.copies,
          SyncReconciled(c, s, now, ord, e));
      assert key !in ord.keys;
      assert At(q.st, key) == At(p.st, key);
    }
  }

  lemma StepKeepsGone(c: Config, s: State, ev: Event, key: Key)
    requires c.mirrored && Fits(c, s, ev) && !Revives(ev, key)
    ensures Gone(s, key) ==> Gone(Step(c, s, ev), key)
    ensures Vanished(s, key) ==> Vanished(Step(c, s, ev), key)
    ensures ev.DoSync? && Gone(s, key) && Sync(c, s, ev.now, ev.ord, ev.e).ok ==> Vanished(Step(c, s, ev), key)
  {
    match ev
    case DoDelete(k, now, listed, order, os) => DeleteKeepsGone(c, s, k, now, listed, order, os, key, Step(c, s, ev));
    case DoSync(now, ord, e) => SyncKeepsGone(c, s, now, ord, e, key, Sync(c, s, now, ord, e));
    case _ =>
  }

  predicate EverSynced(c: Config, s: State, evs: seq<Event>) {
    evs != [] &&
    var n := |evs| - 1;
    EverSynced(c, s, evs[..n]) ||
    (evs[n].DoSync? && Sync(c, Exec(c, s, evs[..n]), evs[n].now, evs[n].ord, evs[n].e).ok)
  }

  /** A deleted key never comes back through a sync: as long as nobody loads or stores it, it
      stays absent here and absent or remembered on the replica, and from the first completed
      sync on it is absent from both tiers. */
  lemma {:induction false} DeletedStaysDeleted(c: Config, s: State, evs: seq<Event>, key: Key)
    requires c.mirrored && Gone(s, key) && AllFit(c, s, evs)
    requires forall i | 0 <= i < |evs| :: !Revives(evs[i], key)
    ensures Gone(Exec(c, s, evs), key)
    ensures EverSynced(c, s, evs) ==> Vanished(Exec(c, s, evs), key)
  {
    if evs != [] {
      var n := |evs| - 1;
      forall i | 0 <= i < n ensures evs[..n][..i] == evs[..i] && evs[..n][i] == evs[i] {}
      DeletedStaysDeleted(c, s, evs[..n], key);
      StepKeepsGone(c, Exec(c, s, evs[..n]), evs[n], key);
    }
  }

  // ----- the cost of a dead replica -----

  predicate Reads(ev: Event) { ev.DoLoad? || ev.DoStore? || ev.DoStat? || ev.DoList? }

  predicate NoneAnswered(calls: seq<Call>) { forall i | 0 <= i < |calls| :: !calls[i].answered }

  ghost predicate WellSpaced(c: Config, s: State) {
    && (forall i, j | 0 <= i < j < |s.calls| :: s.calls[j].at >= s.calls[i].at + (j - i) * c.backoff)
    && (s.calls != [] ==> s.breaker.downUntil >= s.calls[|s.calls| - 1].at + c.backoff)
  }

  /** A step makes no call, or one call through a closed breaker that trips it, or an answered one. */
  predicate OneCall(c: Config, s: State, q: State, now: Time) {
    || (q.calls == s.calls && q.breaker.downUntil == s.breaker.downUntil)
    || (q.calls == s.calls + [Call(now, false)] && s.breaker.downUntil <= now && q.breaker.downUntil == now + c.backoff)
    || (s.calls < q.calls && q.calls[|s.calls|].answered)
  }

  lemma StepCallsOnce(c: Config, s: State, ev: Event)
    requires Reads(ev)
    ensures OneCall(c, s, Step(c, s, ev), ev.now)
  {
  }

  lemma OneCallKeepsSpacing(c: Config, s: State, q: State, now: Time)
    requires WellSpaced(c, s) && OneCall(c, s, q, now) && NoneAnswered(q.calls)
    ensures WellSpaced(c, q)
  {
    var n := |s.calls|;
    forall i | 0 <= i < n && |q.calls| == n + 1 ensures q.calls[n].at >= q.calls[i].at + (n - i) * c.backoff {
      assert (n - i) * c.backoff == (n - 1 - i) * c.backoff + c.backoff;
      assert i < n - 1 ==> s.calls[n - 1].at >= s.calls[i].at + (n - 1 - i) * c.backoff;
    }
  }

  /** However many keys are asked for, a replica that never answers is called at most once per
      backoff: n calls need at least (n - 1) backoffs of elapsed time. */
  lemma {:induction false} DeadReplicaIsCheap(c: Config, s: State, evs: seq<Event>)
    requires s.calls == [] && NoneAnswered(Exec(c, s, evs).calls)
    requires forall i | 0 <= i < |evs| :: Reads(evs[i])
    ensures WellSpaced(c, Exec(c, s, evs))
  {
    if evs != [] {
      var m := Exec(c, s, evs[..|evs| - 1]);
      var ev := evs[|evs| - 1];
      StepCallsOnce(c, m, ev);
      assert m.calls <= Step(c, m, ev).calls;
      DeadReplicaIsCheap(c, s, evs[..|evs| - 1]);
      OneCallKeepsSpacing(c, m, Step(c, m, ev), ev.now);
    }
  }
}
