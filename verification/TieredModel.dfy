/** The tiered certificate store as a value: the two tiers, the circuit breaker, the
    remembered deletes, and every operation as a function of the state, the time and
    the replica's answers. The class in TieredStore.dfy carries out these functions. */
module TieredModel {
  import opened Strings
  import opened Wrappers

  type Key = string
  type Value = seq<bv8>
  /** Milliseconds; 0 is the zero time, which a replica without mtimes reports. */
  type Time = nat

  const TOLERANCE: Time := 2000

  // ----- keys -----

  function TrimSlashes(s: string): string {
    if s != "" && s[|s| - 1] == '/' then TrimSlashes(s[..|s| - 1]) else s
  }

  function LastSegment(s: string): string
  {
    if s == "" then ""
    else if s[|s| - 1] == '/' then ""
    else LastSegment(s[..|s| - 1]) + [s[|s| - 1]]
  }

  predicate NodeLocal(key: Key) { "ocsp/" <= key }

  /** Certificate material only: no root files, locks, challenge tokens, staples or temp files. */
  predicate Syncable(key: Key) {
    && '/' in key
    && !("locks/" <= key) && !("challenge_tokens/" <= key) && !NodeLocal(key)
    && !HasSuffix(key, ".lock") && !("." <= LastSegment(TrimSlashes(key)))
  }

  predicate Under(dir: Key, key: Key) {
    dir == "" || dir + "/" <= key
  }

  function Below(keys: set<Key>, dir: Key): set<Key> {
    set k | k in keys && Under(dir, k)
  }

  // ----- state -----

  datatype Config = Config(mirrored: bool, backoff: nat)

  datatype Entry = Entry(value: Value, mtime: Time)

  datatype Breaker = Breaker(down: bool, downUntil: Time, dirty: bool)

  datatype Call = Call(at: Time, answered: bool)

  datatype State = State(
    local: map<Key, Entry>,
    remote: map<Key, Entry>,
    breaker: Breaker,
    pendingDeletes: set<Key>,
    calls: seq<Call>)

  /** What the replica does with one step's calls. A write that fails may still have landed
      (a timeout after the fact). `stamp` is the mtime the replica gives the object, `stat`
      whether the alignment Stat after a copy is answered, `cancelled` the caller's context. */
  datatype Answers = Answers(answered: bool, landed: bool, stamp: Time, stat: bool, cancelled: bool)

  predicate Landed(o: Answers) { o.answered || o.landed }

  ghost predicate Enumerates(xs: seq<Key>, s: set<Key>) {
    && (forall i, j | 0 <= i < j < |xs| :: xs[i] != xs[j])
    && (forall x :: x in xs <==> x in s)
  }

  predicate Pending(s: State) { s.breaker.dirty || s.pendingDeletes != {} }

  // ----- circuit breaker -----

  predicate BreakerClosed(b: Breaker, now: Time) { b.downUntil <= now }

  function Tripped(c: Config, now: Time): Breaker {
    Breaker(true, now + c.backoff, true)
  }

  function Reset(b: Breaker): Breaker { b.(down := false, downUntil := 0) }

  predicate ReplicaUp(c: Config, s: State, now: Time) {
    c.mirrored && BreakerClosed(s.breaker, now)
  }

  predicate Mirrors(c: Config, key: Key) { c.mirrored && !NodeLocal(key) }

  function MarkDown(c: Config, s: State, now: Time): State { s.(breaker := Tripped(c, now)) }

  function MarkUp(s: State): State { s.(breaker := Reset(s.breaker)) }

  function Called(s: State, now: Time, answered: bool): State {
    s.(calls := s.calls + [Call(now, answered)])
  }

  // ----- single-key steps -----

  /** The replica Stat after a copy; on a non-zero mtime the local file takes it over. */
  function Align(s: State, key: Key, now: Time, answered: bool): State
  {
    var s1 := Called(s, now, answered);
    if answered && key in s.remote && s.remote[key].mtime != 0 && key in s.local then
      s1.(local := s.local[key := s.local[key].(mtime := s.remote[key].mtime)])
    else s1
  }

  function PutRemote(s: State, key: Key, value: Value, o: Answers): State {
    if Landed(o) then s.(remote := s.remote[key := Entry(value, o.stamp)]) else s
  }

  function CutRemote(s: State, key: Key, o: Answers): State {
    if Landed(o) then s.(remote := s.remote - {key}) else s
  }

  datatype Lookup = Found(value: Value) | Missing | NotAFile

  function Load(c: Config, s: State, key: Key, now: Time, o: Answers): (State, Lookup)
  {
    if key in s.local then (s, Found(s.local[key].value))
    else if Below(s.local.Keys, key) != {} then (s, NotAFile)
    else if NodeLocal(key) || !ReplicaUp(c, s, now) then (s, Missing)
    else
      var s1 := Called(s, now, o.answered);
      if !o.answered then (MarkDown(c, s1, now), Missing)
      else if key !in s.remote then (MarkUp(s1), Missing)
      else
        var value := s.remote[key].value;
        var s2 := MarkUp(s1).(local := s.local[key := Entry(value, now)]);
        (Align(s2, key, now, o.stat), Found(value))
  }

  function Store(c: Config, s: State, key: Key, value: Value, now: Time, o: Answers): State
  {
    var s1 := s.(local := s.local[key := Entry(value, now)]);
    if !Mirrors(c, key) then s1
    else
      var s2 := s1.(pendingDeletes := s.pendingDeletes - {key});
      if !ReplicaUp(c, s2, now) then s2.(breaker := s2.breaker.(dirty := true))
      else
        var s3 := PutRemote(Called(s2, now, o.answered), key, value, o);
        if o.answered then Align(MarkUp(s3), key, now, o.stat) else MarkDown(c, s3, now)
  }

  datatype Info = File(mtime: Time) | Directory | Absent

  function Stat(c: Config, s: State, key: Key, now: Time, o: Answers): (State, Info)
  {
    if key in s.local then (s, File(s.local[key].mtime))
    else if Below(s.local.Keys, key) != {} then (s, Directory)
    else if NodeLocal(key) || !ReplicaUp(c, s, now) then (s, Absent)
    else
      var s1 := Called(s, now, o.answered);
      if !o.answered then (MarkDown(c, s1, now), Absent)
      else (MarkUp(s1), if key in s.remote then File(s.remote[key].mtime) else Absent)
  }

  /** The part of List that touches the breaker and the replica. */
  function ListCall(c: Config, s: State, now: Time, o: Answers): State
  {
    if !ReplicaUp(c, s, now) then s
    else if o.answered then MarkUp(Called(s, now, true))
    else MarkDown(c, Called(s, now, false), now)
  }

  // ----- delete -----

  /** The local files that deleting `key` removes: the file, or everything below a directory. */
  function Doomed(local: map<Key, Entry>, key: Key): set<Key> {
    if key in local then {key} else Below(local.Keys, key)
  }

  function DeleteTargets(s: State, key: Key, listed: bool): set<Key> {
    var mine := if key !in s.local && Below(s.local.Keys, key) != {} then Below(s.local.Keys, key) else {key};
    (mine + if listed then Below(s.remote.Keys, key) else {}) - {""}
  }

  function Remember(s: State, key: Key): State {
    s.(pendingDeletes := s.pendingDeletes + {key}, breaker := s.breaker.(dirty := true))
  }

  function DeleteReplica(c: Config, s: State, key: Key, now: Time, o: Answers): State
  {
    if !ReplicaUp(c, s, now) then Remember(s, key)
    else
      var s1 := CutRemote(Called(s, now, o.answered), key, o);
      if o.answered then s1 else Remember(MarkDown(c, s1, now), key)
  }

  function DeleteEach(c: Config, s: State, keys: seq<Key>, now: Time, os: Key -> Answers): State
  {
    if keys == [] then s
    else
      var n := |keys| - 1;
      DeleteReplica(c, DeleteEach(c, s, keys[..n], now, os), keys[n], now, os(keys[n]))
  }

  function AfterLocalDelete(c: Config, s: State, key: Key, now: Time, listed: bool): State
  {
    var s1 := s.(local := s.local - Doomed(s.local, key));
    if Mirrors(c, key) && ReplicaUp(c, s1, now) then Called(s1, now, listed) else s1
  }

  /** `order` is the order in which the replica deletes are sent, `listed` whether the
      replica answers the listing, `os` how it answers each delete. */
  ghost predicate DeleteFits(c: Config, s: State, key: Key, now: Time, listed: bool, order: seq<Key>) {
    Enumerates(order, DeleteTargets(s, key, ReplicaUp(c, s, now) && listed))
  }

  function Delete(c: Config, s: State, key: Key, now: Time, listed: bool, order: seq<Key>, os: Key -> Answers): State
  {
    var s1 := AfterLocalDelete(c, s, key, now, listed);
    if !Mirrors(c, key) then s1 else DeleteEach(c, s1, order, now, os)
  }

  // ----- background sync -----

  datatype Stats = Stats(pulled: nat, pushed: nat, deleted: nat)

  datatype Progress = Progress(st: State, ok: bool, stats: Stats)

  /** The replica's answers during one sync: to the probe, the deletes, the listing, the
      Stat of each listed key, and the copy of each key. */
  datatype SyncEnv = SyncEnv(probe: bool, deletes: Key -> Answers, listed: bool, stats: Key -> bool,
      copies: Key -> Answers)

  /** The order in which each loop of a sync visits its keys. */
  datatype Orders = Orders(deletes: seq<Key>, listed: seq<Key>, keys: seq<Key>)

  function Failed(c: Config, p: Progress, s: State, now: Time): Progress {
    p.(st := MarkDown(c, s, now), ok := false)
  }

  function Probe(c: Config, s: State, now: Time, answered: bool): State {
    if answered then MarkUp(Called(s, now, true)) else MarkDown(c, Called(s, now, false), now)
  }

  function ReplayOne(c: Config, p: Progress, key: Key, now: Time, o: Answers): Progress
  {
    if !p.ok then p
    else
      var s1 := CutRemote(Called(p.st, now, o.answered), key, o);
      if !o.answered then Failed(c, p, s1, now)
      else p.(st := s1.(pendingDeletes := s1.pendingDeletes - {key}),
              stats := p.stats.(deleted := p.stats.deleted + 1))
  }

  function Replay(c: Config, p: Progress, keys: seq<Key>, now: Time, os: Key -> Answers): Progress
  {
    if keys == [] then p
    else
      var n := |keys| - 1;
      ReplayOne(c, Replay(c, p, keys[..n], now, os), keys[n], now, os(keys[n]))
  }

  /** The Stat of a listed key: only the call log and, on a failure, the breaker change. */
  function StatOne(c: Config, p: Progress, now: Time, answered: bool): Progress
  {
    if !p.ok then p
    else if answered then p.(st := Called(p.st, now, true))
    else Failed(c, p, Called(p.st, now, false), now)
  }

  function StatEach(c: Config, p: Progress, keys: seq<Key>, now: Time, os: Key -> bool): Progress
  {
    if keys == [] then p
    else
      var n := |keys| - 1;
      StatOne(c, StatEach(c, p, keys[..n], now, os), now, os(keys[n]))
  }

  function Times(tier: map<Key, Entry>): map<Key, Time> {
    map k | k in tier && Syncable(k) :: tier[k].mtime
  }

  predicate ShouldPush(l: map<Key, Time>, r: map<Key, Time>, key: Key) {
    key in l && (key !in r || l[key] > r[key] + TOLERANCE)
  }

  predicate ShouldPull(l: map<Key, Time>, r: map<Key, Time>, key: Key) {
    key in r && (key !in l || r[key] > l[key] + TOLERANCE)
  }

  function Push(c: Config, p: Progress, key: Key, now: Time, o: Answers): Progress
  {
    var counted := p.stats.(pushed := p.stats.pushed + 1);
    if key !in p.st.local then p.(stats := counted)
    else
      var s1 := PutRemote(Called(p.st, now, o.answered), key, p.st.local[key].value, o);
      if o.answered then p.(st := Align(s1, key, now, o.stat), stats := counted)
      else Failed(c, p, s1, now)
  }

  function Pull(c: Config, p: Progress, key: Key, modified: Time, now: Time, o: Answers): Progress
  {
    var s1 := Called(p.st, now, o.answered);
    if !o.answered then Failed(c, p, s1, now)
    else if key !in s1.remote then p.(st := s1)
    else
      var value := s1.remote[key].value;
      var changed := !(key in s1.local && s1.local[key].value == value);
      var written := if changed then s1.local[key := Entry(value, now)] else s1.local;
      var aligned := if modified != 0 then written[key := written[key].(mtime := modified)] else written;
      p.(st := s1.(local := aligned),
         stats := if changed then p.stats.(pulled := p.stats.pulled + 1) else p.stats)
  }

  /** One round of the reconcile loop, deciding by the mtimes gathered before it. */
  function SyncOne(c: Config, p: Progress, key: Key, l: map<Key, Time>, r: map<Key, Time>, skip: set<Key>,
                   now: Time, o: Answers): Progress
  {
    if !p.ok then p
    else if o.cancelled then p.(ok := false)
    else if ShouldPush(l, r, key) then Push(c, p, key, now, o)
    else if ShouldPull(l, r, key) && key !in skip then Pull(c, p, key, r[key], now, o)
    else p
  }

  function SyncEach(c: Config, p: Progress, keys: seq<Key>, l: map<Key, Time>, r: map<Key, Time>, skip: set<Key>,
                    now: Time, os: Key -> Answers): Progress
  {
    if keys == [] then p
    else
      var n := |keys| - 1;
      SyncOne(c, SyncEach(c, p, keys[..n], l, r, skip, now, os), keys[n], l, r, skip, now, os(keys[n]))
  }

  function SyncReplayed(c: Config, s: State, now: Time, deletes: seq<Key>, e: SyncEnv): Progress {
    Replay(c, Progress(Probe(c, s, now, e.probe), e.probe, Stats(0, 0, 0)), deletes, now, e.deletes)
  }

  /** Listing the replica and gathering its mtimes. */
  function Listing(c: Config, p: Progress, now: Time, listed: seq<Key>, e: SyncEnv): Progress
  {
    if !p.ok then p
    else if !e.listed then Failed(c, p, Called(p.st, now, false), now)
    else StatEach(c, p.(st := Called(p.st, now, true)), listed, now, e.stats)
  }

  /** The reconcile loop over the mtimes of both tiers. */
  function Reconcile(c: Config, p: Progress, now: Time, keys: seq<Key>, e: SyncEnv): Progress
  {
    if !p.ok then p
    else SyncEach(c, p, keys, Times(p.st.local), Times(p.st.remote), p.st.pendingDeletes, now, e.copies)
  }

  function SyncListed(c: Config, s: State, now: Time, ord: Orders, e: SyncEnv): Progress {
    Listing(c, SyncReplayed(c, s, now, ord.deletes, e), now, ord.listed, e)
  }

  /** Each loop visits its keys once: the remembered deletes, the syncable replica keys,
      the syncable keys of either tier. */
  ghost predicate SyncFits(c: Config, s: State, now: Time, ord: Orders, e: SyncEnv) {
    && Enumerates(ord.deletes, s.pendingDeletes)
    && Enumerates(ord.listed, Times(SyncReplayed(c, s, now, ord.deletes, e).st.remote).Keys)
    && var st := SyncListed(c, s, now, ord, e).st;
       Enumerates(ord.keys, Times(st.local).Keys + Times(st.remote).Keys)
  }

  function SyncReconciled(c: Config, s: State, now: Time, ord: Orders, e: SyncEnv): Progress {
    Reconcile(c, SyncListed(c, s, now, ord, e), now, ord.keys, e)
  }

  function Sync(c: Config, s: State, now: Time, ord: Orders, e: SyncEnv): Progress
  {
    if !c.mirrored then Progress(s, true, Stats(0, 0, 0))
    else
      var p := SyncReconciled(c, s, now, ord, e);
      if !p.ok then p else p.(st := p.st.(breaker := p.st.breaker.(dirty := false)))
  }
}
