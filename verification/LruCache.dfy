/** The response cache: a map in insertion order that serves as the recency list. */
module LruCache {
  import opened Sets
  import opened Wrappers

  type Value = string

  datatype Entry = Entry(value: Value, at: int)

  /** The entries in the map's insertion order, oldest first; every key occurs once. */
  type Cache = seq<(string, Entry)>

  function Keys(m: Cache): set<string> { set e | e in m :: e.0 }

  /** The position of the key, or |m|. */
  function IndexOf(m: Cache, key: string): (i: nat)
    ensures i <= |m| && (i < |m| ==> m[i].0 == key)
    ensures forall j | 0 <= j < i :: m[j].0 != key
  {
    if m == [] || m[0].0 == key then 0 else 1 + IndexOf(m[1..], key)
  }

  function Remove(m: Cache, key: string): Cache {
    var i := IndexOf(m, key);
    if i < |m| then m[..i] + m[i + 1..] else m
  }

  function Find(m: Cache, key: string): Option<Entry> {
    var i := IndexOf(m, key);
    if i < |m| then Some(m[i].1) else None
  }

  function Get(m: Cache, ttl: nat, key: string, now: int): (Cache, Option<Value>) {
    var hit := Find(m, key);
    if hit.None? then (m, None)
    else if now - hit.value.at > ttl then (Remove(m, key), None)
    else (Remove(m, key) + [(key, hit.value)], Some(hit.value.value))
  }

  function Trim(m: Cache, max: nat): Cache { if |m| <= max then m else m[|m| - max..] }

  function Set(m: Cache, max: nat, key: string, value: Value, now: int): Cache {
    Trim(Remove(m, key) + [(key, Entry(value, now))], max)
  }

  class TtlLruCache {
    const max: nat
    const ttlMs: nat
    var entries: Cache

    constructor (max: nat, ttlMs: nat)
      ensures this.max == max && this.ttlMs == ttlMs && entries == []
    {
      this.max, this.ttlMs, entries := max, ttlMs, [];
    }

    method Lookup(key: string, now: int) returns (value: Option<Value>)
      modifies this
      ensures (entries, value) == Get(old(entries), ttlMs, key, now)
    {
      var hit := Find(entries, key);
      if hit.None? { return None; }
      entries := Remove(entries, key);
      if now - hit.value.at > ttlMs { return None; }
      entries := entries + [(key, hit.value)];
      value := Some(hit.value.value);
    }

    method Insert(key: string, value: Value, now: int)
      modifies this
      ensures entries == Set(old(entries), max, key, value, now)
    {
      entries := Remove(entries, key);
      entries := entries + [(key, Entry(value, now))];
      ghost var all := entries;
      while |entries| > max
        invariant |entries| <= |all| && entries == all[|all| - |entries|..]
        invariant |entries| >= max || entries == all
      {
        entries := entries[1..];
      }
    }
  }

  // ----- histories -----

  datatype Op = DoSet(key: string, value: Value, now: int) | DoGet(key: string, now: int)

  function Step(m: Cache, max: nat, ttl: nat, op: Op): Cache {
    match op
    case DoSet(key, value, now) => Set(m, max, key, value, now)
    case DoGet(key, now) => Get(m, ttl, key, now).0
  }

  function Exec(h: seq<Op>, max: nat, ttl: nat): Cache {
    if h == [] then [] else Step(Exec(h[..|h| - 1], max, ttl), max, ttl, h[|h| - 1])
  }

  /** The latest write of the key. */
  function LastSet(h: seq<Op>, key: string): Option<Entry> {
    if h == [] then None
    else match h[|h| - 1]
      case DoSet(k, value, now) => if k == key then Some(Entry(value, now)) else LastSet(h[..|h| - 1], key)
      case DoGet(_, _) => LastSet(h[..|h| - 1], key)
  }

  /** The operation touches its key: it writes it, or reads it with a hit. */
  predicate Touches(m: Cache, ttl: nat, op: Op) {
    op.DoSet? || Get(m, ttl, op.key, op.now).1.Some?
  }

  /** The other keys touched since the key was last touched. */
  function Others(h: seq<Op>, max: nat, ttl: nat, key: string): set<string> {
    if h == [] then {}
    else
      var n := |h| - 1;
      var before := Others(h[..n], max, ttl, key);
      if !Touches(Exec(h[..n], max, ttl), ttl, h[n]) then before
      else if h[n].key == key then {}
      else before + {h[n].key}
  }

  predicate Ordered(h: seq<Op>) { forall i, j | 0 <= i < j < |h| :: h[i].now <= h[j].now }

  function Now(h: seq<Op>): int
    requires h != []
  {
    h[|h| - 1].now
  }

  // ----- the list as a map -----

  ghost predicate Distinct(m: Cache) { forall i, j | 0 <= i < j < |m| :: m[i].0 != m[j].0 }

  /** A list of entries with distinct keys has as many keys. */
  lemma {:induction false} KeyCount(m: Cache)
    requires Distinct(m)
    ensures |Keys(m)| == |m|
  {
    if m == [] {
      assert Keys(m) == {};
    } else {
      var n := |m| - 1;
      KeyCount(m[..n]);
      assert m == m[..n] + [m[n]];
      assert Keys(m) == Keys(m[..n]) + {m[n].0};
      assert m[n].0 !in Keys(m[..n]);
    }
  }

  // ----- the invariant of every run -----

  /** The entry that ends up at position i was at this position before the removal at k. */
  function Before(i: nat, k: nat): nat { if i < k then i else i + 1 }

  lemma RemoveShifts(m: Cache, key: string)
    requires Distinct(m)
    ensures var r, k := Remove(m, key), IndexOf(m, key);
            && |r| == (if k < |m| then |m| - 1 else |m|)
            && (forall i: nat | i < |r| :: Before(i, k) < |m| && r[i] == m[Before(i, k)] && r[i].0 != key)
  {}

  lemma RemoveKeys(m: Cache, key: string)
    requires Distinct(m)
    ensures Keys(Remove(m, key)) == Keys(m) - {key}
  {
    var k := IndexOf(m, key);
    if k < |m| { assert m == m[..k] + [m[k]] + m[k + 1..]; }
    RemoveShifts(m, key);
  }

  /** The other keys seen by k after the operation. */
  lemma OthersStep(h: seq<Op>, op: Op, max: nat, ttl: nat, k: string)
    ensures Others(h + [op], max, ttl, k) ==
            if !Touches(Exec(h, max, ttl), ttl, op) then Others(h, max, ttl, k)
            else if op.key == k then {} else Others(h, max, ttl, k) + {op.key}
    ensures Exec(h + [op], max, ttl) == Step(Exec(h, max, ttl), max, ttl, op)
    ensures LastSet(h + [op], k) == if op.DoSet? && op.key == k then Some(Entry(op.value, op.now)) else LastSet(h, k)
  {
    assert (h + [op])[..|h|] == h;
  }

  ghost predicate Backed(h: seq<Op>, m: Cache) {
    forall i | 0 <= i < |m| :: LastSet(h, m[i].0) == Some(m[i].1)
  }

  ghost predicate Recent(h: seq<Op>, max: nat, ttl: nat, m: Cache) {
    forall i, j | 0 <= i < j < |m| :: m[j].0 in Others(h, max, ttl, m[i].0)
  }

  ghost predicate Excused(h: seq<Op>, max: nat, ttl: nat, k: string) {
    LastSet(h, k).Some? ==>
      (h != [] && Now(h) - LastSet(h, k).value.at > ttl) || |Others(h, max, ttl, k)| >= max
  }

  ghost predicate Agrees(h: seq<Op>, max: nat, ttl: nat, m: Cache) {
    Distinct(m) && Backed(h, m) && Recent(h, max, ttl, m) && forall k | k !in Keys(m) :: Excused(h, max, ttl, k)
  }

  /** A touched key moves, or comes, to the end. */
  lemma MovedToEnd(h: seq<Op>, op: Op, max: nat, ttl: nat, m: Cache, e: Entry, r: Cache)
    requires m == Exec(h, max, ttl) && Agrees(h, max, ttl, m) && Touches(m, ttl, op) && Ordered(h + [op])
    requires LastSet(h + [op], op.key) == Some(e) && r == Remove(m, op.key) + [(op.key, e)]
    ensures Agrees(h + [op], max, ttl, r)
  {
    var key, h2 := op.key, h + [op];
    MovedStaysDistinct(m, key, e, r);
    MovedStaysRecent(h, op, max, ttl, m, e, r);
    forall k | k !in Keys(r) ensures Excused(h2, max, ttl, k) { StaysExcused(h, op, max, ttl, k); }
  }

  lemma MovedStaysDistinct(m: Cache, key: string, e: Entry, r: Cache)
    requires Distinct(m) && r == Remove(m, key) + [(key, e)]
    ensures Distinct(r) && Keys(r) == Keys(m) + {key}
  {
    RemoveShifts(m, key);
    RemoveKeys(m, key);
    assert Keys(r) == Keys(Remove(m, key)) + {key};
  }

  lemma MovedStaysRecent(h: seq<Op>, op: Op, max: nat, ttl: nat, m: Cache, e: Entry, r: Cache)
    requires m == Exec(h, max, ttl) && Distinct(m) && Backed(h, m) && Recent(h, max, ttl, m) && Touches(m, ttl, op)
    requires LastSet(h + [op], op.key) == Some(e) && r == Remove(m, op.key) + [(op.key, e)]
    ensures Backed(h + [op], r) && Recent(h + [op], max, ttl, r)
  {
    var h2 := h + [op];
    forall i | 0 <= i < |r| ensures LastSet(h2, r[i].0) == Some(r[i].1) {
      RemoveShifts(m, op.key);
      OthersStep(h, op, max, ttl, r[i].0);
      if i < |r| - 1 { assert r[i] == Remove(m, op.key)[i]; }
    }
    forall i, j | 0 <= i < j < |r| ensures r[j].0 in Others(h2, max, ttl, r[i].0) {
      MovedPair(h, op, max, ttl, m, e, r, i, j);
    }
  }

  lemma MovedPair(h: seq<Op>, op: Op, max: nat, ttl: nat, m: Cache, e: Entry, r: Cache, i: nat, j: nat)
    requires m == Exec(h, max, ttl) && Distinct(m) && Recent(h, max, ttl, m) && Touches(m, ttl, op)
    requires r == Remove(m, op.key) + [(op.key, e)] && i < j < |r|
    ensures r[j].0 in Others(h + [op], max, ttl, r[i].0)
  {
    RemoveShifts(m, op.key);
    OthersStep(h, op, max, ttl, r[i].0);
    assert r[i] == Remove(m, op.key)[i];
    var k := IndexOf(m, op.key);
    if j < |r| - 1 { assert r[j] == Remove(m, op.key)[j] && Before(i, k) < Before(j, k); }
  }

  lemma StaysExcused(h: seq<Op>, op: Op, max: nat, ttl: nat, k: string)
    requires Excused(h, max, ttl, k) && Ordered(h + [op]) && (op.key != k || !Touches(Exec(h, max, ttl), ttl, op))
    ensures Excused(h + [op], max, ttl, k)
  {
    OthersStep(h, op, max, ttl, k);
    if Touches(Exec(h, max, ttl), ttl, op) { SubsetSize(Others(h, max, ttl, k), Others(h + [op], max, ttl, k)); }
    if h != [] { assert (h + [op])[|h| - 1] == h[|h| - 1] && (h + [op])[|h|] == op; }
  }

  /** What the eviction drops was followed by at least max other keys. */
  lemma TrimmedAgrees(h: seq<Op>, max: nat, ttl: nat, r: Cache)
    requires Agrees(h, max, ttl, r)
    ensures Agrees(h, max, ttl, Trim(r, max))
  {
    if |r| > max {
      var m := Trim(r, max);
      forall a | |r| - max <= a < |r| ensures r[a] in m { assert r[a] == m[a - (|r| - max)]; }
      forall k | k !in Keys(m) ensures Excused(h, max, ttl, k) {
        if k in Keys(r) {
          var i :| 0 <= i < |r| && r[i].0 == k;
          var later := r[i + 1..];
          KeyCount(later);
          forall x | x in Keys(later) ensures x in Others(h, max, ttl, k) {
            var j :| 0 <= j < |later| && later[j].0 == x;
            assert r[i + 1 + j] == later[j];
          }
          SubsetSize(Keys(later), Others(h, max, ttl, k));
        }
      }
    }
  }

  lemma StepAgrees(h: seq<Op>, op: Op, max: nat, ttl: nat)
    requires Agrees(h, max, ttl, Exec(h, max, ttl)) && Ordered(h + [op])
    ensures Agrees(h + [op], max, ttl, Exec(h + [op], max, ttl))
  {
    var m, key, h2 := Exec(h, max, ttl), op.key, h + [op];
    OthersStep(h, op, max, ttl, key);
    var k := IndexOf(m, key);
    if op.DoSet? {
      var e := Entry(op.value, op.now);
      MovedToEnd(h, op, max, ttl, m, e, Remove(m, key) + [(key, e)]);
      TrimmedAgrees(h2, max, ttl, Remove(m, key) + [(key, e)]);
    } else if Touches(m, ttl, op) {
      MovedToEnd(h, op, max, ttl, m, m[k].1, Remove(m, key) + [(key, m[k].1)]);
    } else {
      Untouched(h, op, max, ttl, m, Step(m, max, ttl, op));
    }
  }

  /** A miss changes nothing; an expired entry goes. */
  lemma Untouched(h: seq<Op>, op: Op, max: nat, ttl: nat, m: Cache, r: Cache)
    requires m == Exec(h, max, ttl) && Agrees(h, max, ttl, m) && !Touches(m, ttl, op) && Ordered(h + [op])
    requires r == Step(m, max, ttl, op)
    ensures Agrees(h + [op], max, ttl, r)
  {
    var h2 := h + [op];
    UntouchedExcused(h, op, max, ttl, m, r);
    forall k ensures Others(h2, max, ttl, k) == Others(h, max, ttl, k) && LastSet(h2, k) == LastSet(h, k) {
      OthersStep(h, op, max, ttl, k);
    }
    assert r == m || r == Remove(m, op.key);
    RemoveShifts(m, op.key);
  }

  lemma UntouchedExcused(h: seq<Op>, op: Op, max: nat, ttl: nat, m: Cache, r: Cache)
    requires m == Exec(h, max, ttl) && Agrees(h, max, ttl, m) && !Touches(m, ttl, op) && Ordered(h + [op])
    requires r == Step(m, max, ttl, op)
    ensures forall k | k !in Keys(r) :: Excused(h + [op], max, ttl, k)
  {
    RemoveKeys(m, op.key);
    forall k | k !in Keys(r) ensures Excused(h + [op], max, ttl, k) {
      if k !in Keys(m) {
        StaysExcused(h, op, max, ttl, k);
      } else {
        OthersStep(h, op, max, ttl, k);
        assert Now(h + [op]) == op.now && m[IndexOf(m, op.key)] in m;
      }
    }
  }

  lemma {:induction false} RunsAgree(h: seq<Op>, max: nat, ttl: nat)
    requires Ordered(h)
    ensures Agrees(h, max, ttl, Exec(h, max, ttl))
  {
    if h != [] {
      var n := |h| - 1;
      assert h == h[..n] + [h[n]];
      RunsAgree(h[..n], max, ttl);
      StepAgrees(h[..n], h[n], max, ttl);
    }
  }

  lemma {:induction false} SizeIsBounded(h: seq<Op>, max: nat, ttl: nat)
    ensures |Exec(h, max, ttl)| <= max
  {
    if h != [] { SizeIsBounded(h[..|h| - 1], max, ttl); }
  }

  /** A hit is the key's latest value, not older than the time to live; and a value that is not
      older is a hit whenever fewer than max other keys were touched since the key was. */
  lemma GetIsRight(h: seq<Op>, max: nat, ttl: nat, key: string, now: int)
    requires Ordered(h + [DoGet(key, now)])
    ensures var hit := Get(Exec(h, max, ttl), ttl, key, now).1;
            var last := LastSet(h, key);
            && |Exec(h, max, ttl)| <= max
            && (hit.Some? ==> last.Some? && hit.value == last.value.value && now - last.value.at <= ttl)
            && (last.Some? && now - last.value.at <= ttl && |Others(h, max, ttl, key)| < max ==> hit.Some?)
  {
    var op := DoGet(key, now);
    assert forall i | 0 <= i < |h| :: (h + [op])[i] == h[i];
    assert (h + [op])[|h|] == op;
    RunsAgree(h, max, ttl);
    SizeIsBounded(h, max, ttl);
    var m := Exec(h, max, ttl);
    if IndexOf(m, key) == |m| { assert key !in Keys(m) && Excused(h, max, ttl, key); }
  }
}
