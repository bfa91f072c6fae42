/** The redelivery filter: a bounded map in insertion order whose purge stops at the first
    entry worth keeping. */
module DeliveryDeduper {
  import opened Sets
  import opened Wrappers

  /** Delivery ids with the time they were first seen, oldest first. */
  type Seen = seq<(string, int)>

  predicate Knows(m: Seen, id: string) { exists i | 0 <= i < |m| :: m[i].0 == id }

  /** Drops from the front until an entry is fresh and the map is not too big. */
  function Purge(m: Seen, ttl: nat, max: nat, now: int): (r: Seen)
    ensures |r| <= |m| && r == m[|m| - |r|..]
  {
    if m == [] || (now - m[0].1 < ttl && |m| <= max) then m else Purge(m[1..], ttl, max, now)
  }

  /** An absent or empty id cannot be told apart and is always let through. */
  function FirstSeen(m: Seen, ttl: nat, max: nat, id: Option<string>, now: int): (Seen, bool) {
    if id.None? || id.value == "" then (m, true)
    else
      var kept := Purge(m, ttl, max, now);
      if Knows(kept, id.value) then (kept, false) else (kept + [(id.value, now)], true)
  }

  class Deduper {
    const ttlMs: nat
    const max: nat
    var seen: Seen

    constructor (ttlMs: nat, max: nat)
      ensures this.ttlMs == ttlMs && this.max == max && seen == []
    {
      this.ttlMs, this.max, seen := ttlMs, max, [];
    }

    method OnDelivery(id: Option<string>, now: int) returns (first: bool)
      modifies this
      ensures (seen, first) == FirstSeen(old(seen), ttlMs, max, id, now)
    {
      if id.None? || id.value == "" { return true; }
      while seen != []
        invariant Purge(seen, ttlMs, max, now) == Purge(old(seen), ttlMs, max, now)
        decreases |seen|
      {
        if now - seen[0].1 < ttlMs && |seen| <= max { break; }
        seen := seen[1..];
      }
      if Knows(seen, id.value) { return false; }
      seen := seen + [(id.value, now)];
      first := true;
    }
  }

  // ----- histories -----

  datatype Delivery = Delivery(id: Option<string>, now: int)

  function Exec(h: seq<Delivery>, ttl: nat, max: nat): Seen {
    if h == [] then []
    else var n := |h| - 1; FirstSeen(Exec(h[..n], ttl, max), ttl, max, h[n].id, h[n].now).0
  }

  /** The i-th delivery was let through under an id. */
  predicate Accepted(h: seq<Delivery>, ttl: nat, max: nat, i: nat)
    requires i < |h|
  {
    h[i].id.Some? && h[i].id.value != "" &&
    FirstSeen(Exec(h[..i], ttl, max), ttl, max, h[i].id, h[i].now).1
  }

  /** When the id was last let through, and the other ids let through since. */
  function LastAccepted(h: seq<Delivery>, ttl: nat, max: nat, id: string): Option<int> {
    if h == [] then None
    else
      var n := |h| - 1;
      if Accepted(h, ttl, max, n) && h[n].id.value == id then Some(h[n].now) else LastAccepted(h[..n], ttl, max, id)
  }

  function Since(h: seq<Delivery>, ttl: nat, max: nat, id: string): set<string> {
    if h == [] then {}
    else
      var n := |h| - 1;
      var before := Since(h[..n], ttl, max, id);
      if !Accepted(h, ttl, max, n) then before
      else if h[n].id.value == id then {}
      else before + {h[n].id.value}
  }

  predicate Ordered(h: seq<Delivery>) { forall i, j | 0 <= i < j < |h| :: h[i].now <= h[j].now }

  ghost predicate Sorted(m: Seen) { forall i, j | 0 <= i < j < |m| :: m[i].1 <= m[j].1 }

  ghost predicate Distinct(m: Seen) { forall i, j | 0 <= i < j < |m| :: m[i].0 != m[j].0 }

  function Ids(m: Seen): set<string> { set e | e in m :: e.0 }

  // ----- the map and the history agree -----

  type Last = string -> Option<int>
  type Others = string -> set<string>

  /** An accepted id that is gone has expired by `now` or was crowded out. */
  predicate Excused(last: Last, since: Others, ttl: nat, max: nat, now: int, id: string) {
    last(id).Some? ==> now - last(id).value >= ttl || |since(id)| >= max
  }

  /** Every remembered id has its latest acceptance, the ids after it were accepted since, and a
      forgotten id is excused. */
  ghost predicate Agrees(last: Last, since: Others, ttl: nat, max: nat, now: int, m: Seen) {
    && Distinct(m) && Sorted(m) && (m != [] ==> m[|m| - 1].1 <= now)
    && (forall i | 0 <= i < |m| :: last(m[i].0) == Some(m[i].1))
    && (forall i, j | 0 <= i < j < |m| :: m[j].0 in since(m[i].0))
    && (forall id | id !in Ids(m) :: Excused(last, since, ttl, max, now, id))
  }

  lemma {:induction false} IdCount(m: Seen)
    requires Distinct(m)
    ensures |Ids(m)| == |m|
  {
    if m == [] {
      assert Ids(m) == {};
    } else {
      var n := |m| - 1;
      IdCount(m[..n]);
      assert m == m[..n] + [m[n]];
      assert Ids(m) == Ids(m[..n]) + {m[n].0} && m[n].0 !in Ids(m[..n]);
    }
  }

  lemma LaterAgrees(last: Last, since: Others, ttl: nat, max: nat, t: int, now: int, m: Seen)
    requires Agrees(last, since, ttl, max, t, m) && t <= now
    ensures Agrees(last, since, ttl, max, now, m)
  {
    forall id | id !in Ids(m) ensures Excused(last, since, ttl, max, now, id) {
      assert Excused(last, since, ttl, max, t, id);
    }
  }

  lemma FollowersAreSince(last: Last, since: Others, ttl: nat, max: nat, now: int, m: Seen)
    requires Agrees(last, since, ttl, max, now, m) && m != []
    ensures |since(m[0].0)| >= |m| - 1
  {
    var rest := m[1..];
    IdCount(rest);
    forall x | x in Ids(rest) ensures x in since(m[0].0) {
      var j :| 0 <= j < |rest| && rest[j].0 == x;
      assert m[j + 1] == rest[j];
    }
    SubsetSize(Ids(rest), since(m[0].0));
  }

  lemma DropAgrees(last: Last, since: Others, ttl: nat, max: nat, now: int, m: Seen)
    requires Agrees(last, since, ttl, max, now, m) && m != []
    requires now - m[0].1 >= ttl || |m| > max
    ensures Agrees(last, since, ttl, max, now, m[1..])
  {
    var rest := m[1..];
    FollowersAreSince(last, since, ttl, max, now, m);
    assert m == [m[0]] + rest;
    assert Ids(m) == {m[0].0} + Ids(rest);
    forall id | id !in Ids(rest) ensures Excused(last, since, ttl, max, now, id) {
      assert id in Ids(m) ==> id == m[0].0;
    }
  }

  /** The purge drops only what is expired or crowded out. */
  lemma {:induction false} PurgeAgrees(last: Last, since: Others, ttl: nat, max: nat, now: int, m: Seen)
    requires Agrees(last, since, ttl, max, now, m)
    ensures Agrees(last, since, ttl, max, now, Purge(m, ttl, max, now))
    decreases |m|
  {
    if m != [] && (now - m[0].1 >= ttl || |m| > max) {
      DropAgrees(last, since, ttl, max, now, m);
      PurgeAgrees(last, since, ttl, max, now, m[1..]);
    }
  }

  lemma AppendAgrees(last: Last, since: Others, last2: Last, since2: Others, ttl: nat, max: nat, now: int, m: Seen,
      id: string)
    requires Agrees(last, since, ttl, max, now, m) && !Knows(m, id)
    requires last2(id) == Some(now) && forall k | k != id :: last2(k) == last(k) && since2(k) == since(k) + {id}
    ensures Agrees(last2, since2, ttl, max, now, m + [(id, now)])
  {
    var r := m + [(id, now)];
    assert Ids(r) == Ids(m) + {id};
    forall k | k !in Ids(r) ensures Excused(last2, since2, ttl, max, now, k) {
      assert Excused(last, since, ttl, max, now, k);
      SubsetSize(since(k), since2(k));
    }
  }

  lemma SameAgrees(last: Last, since: Others, last2: Last, since2: Others, ttl: nat, max: nat, now: int, m: Seen)
    requires Agrees(last, since, ttl, max, now, m)
    requires forall k :: last2(k) == last(k) && since2(k) == since(k)
    ensures Agrees(last2, since2, ttl, max, now, m)
  {
    forall k | k !in Ids(m) ensures Excused(last2, since2, ttl, max, now, k) {
      assert Excused(last, since, ttl, max, now, k);
    }
  }

  // ----- runs -----

  function LastIn(h: seq<Delivery>, ttl: nat, max: nat): Last { id => LastAccepted(h, ttl, max, id) }

  function SinceIn(h: seq<Delivery>, ttl: nat, max: nat): Others { id => Since(h, ttl, max, id) }

  lemma AcceptedStep(h: seq<Delivery>, d: Delivery, ttl: nat, max: nat)
    requires Accepted(h + [d], ttl, max, |h|)
    ensures LastIn(h + [d], ttl, max)(d.id.value) == Some(d.now)
    ensures forall k | k != d.id.value ::
              && LastIn(h + [d], ttl, max)(k) == LastIn(h, ttl, max)(k)
              && SinceIn(h + [d], ttl, max)(k) == SinceIn(h, ttl, max)(k) + {d.id.value}
  {
    assert (h + [d])[..|h|] == h;
  }

  lemma RejectedStep(h: seq<Delivery>, d: Delivery, ttl: nat, max: nat)
    requires !Accepted(h + [d], ttl, max, |h|)
    ensures forall k ::
              && LastIn(h + [d], ttl, max)(k) == LastIn(h, ttl, max)(k)
              && SinceIn(h + [d], ttl, max)(k) == SinceIn(h, ttl, max)(k)
  {
    assert (h + [d])[..|h|] == h;
  }

  lemma WasAccepted(h: seq<Delivery>, d: Delivery, ttl: nat, max: nat, m: Seen)
    requires m == Exec(h, ttl, max)
    ensures var kept := Purge(m, ttl, max, d.now);
            Accepted(h + [d], ttl, max, |h|) ==>
              d.id.Some? && !Knows(kept, d.id.value)
                  && FirstSeen(m, ttl, max, d.id, d.now).0 == kept + [(d.id.value, d.now)]
    ensures !Accepted(h + [d], ttl, max, |h|) ==>
        FirstSeen(m, ttl, max, d.id, d.now).0 in {m, Purge(m, ttl, max, d.now)}
  {
    assert (h + [d])[..|h|] == h;
  }

  /** The whole step, from a map that agrees with the history so far. */
  lemma StepAgrees(h: seq<Delivery>, d: Delivery, ttl: nat, max: nat, m: Seen, r: Seen)
    requires m == Exec(h, ttl, max) && r == FirstSeen(m, ttl, max, d.id, d.now).0
    requires Agrees(LastIn(h, ttl, max), SinceIn(h, ttl, max), ttl, max, d.now, m)
    ensures Agrees(LastIn(h + [d], ttl, max), SinceIn(h + [d], ttl, max), ttl, max, d.now, r)
  {
    var last, since := LastIn(h, ttl, max), SinceIn(h, ttl, max);
    var last2, since2 := LastIn(h + [d], ttl, max), SinceIn(h + [d], ttl, max);
    PurgeAgrees(last, since, ttl, max, d.now, m);
    WasAccepted(h, d, ttl, max, m);
    if Accepted(h + [d], ttl, max, |h|) {
      AcceptedStep(h, d, ttl, max);
      AppendAgrees(last, since, last2, since2, ttl, max, d.now, Purge(m, ttl, max, d.now), d.id.value);
    } else {
      RejectedStep(h, d, ttl, max);
      SameAgrees(last, since, last2, since2, ttl, max, d.now, r);
    }
  }

  /** At any time from the last delivery on, the map agrees with the whole history. */
  lemma {:induction false} RunsAgree(h: seq<Delivery>, ttl: nat, max: nat, now: int)
    requires Ordered(h) && (h != [] ==> h[|h| - 1].now <= now)
    ensures Agrees(LastIn(h, ttl, max), SinceIn(h, ttl, max), ttl, max, now, Exec(h, ttl, max))
  {
    if h != [] {
      var n := |h| - 1;
      assert h == h[..n] + [h[n]];
      RunsAgree(h[..n], ttl, max, h[n].now);
      StepAgrees(h[..n], h[n], ttl, max, Exec(h[..n], ttl, max), Exec(h, ttl, max));
      LaterAgrees(LastIn(h, ttl, max), SinceIn(h, ttl, max), ttl, max, h[n].now, now, Exec(h, ttl, max));
    }
  }

  lemma OrderedPrefix(h: seq<Delivery>, d: Delivery)
    requires Ordered(h + [d])
    ensures Ordered(h) && (h != [] ==> h[|h| - 1].now <= d.now)
  {
    assert (h + [d])[|h|] == d && forall i | 0 <= i < |h| :: (h + [d])[i] == h[i];
  }

  /** The early exit is sound: after any delivery with an id, every remembered id is fresh and in
      time order, and the map holds at most max ids and the new one. */
  lemma NothingStale(h: seq<Delivery>, d: Delivery, ttl: nat, max: nat)
    requires Ordered(h + [d]) && d.id.Some? && d.id.value != "" && ttl > 0
    ensures var m := FirstSeen(Exec(h, ttl, max), ttl, max, d.id, d.now).0;
            |m| <= max + 1 && Fresh(m, ttl, d.now)
  {
    OrderedPrefix(h, d);
    RunsAgree(h, ttl, max, d.now);
    AgreesInOrder(LastIn(h, ttl, max), SinceIn(h, ttl, max), ttl, max, d.now, Exec(h, ttl, max));
    PurgeLeavesFresh(Exec(h, ttl, max), ttl, max, d.now);
    AppendFresh(Purge(Exec(h, ttl, max), ttl, max, d.now), ttl, d.id.value, d.now);
  }

  ghost predicate Fresh(m: Seen, ttl: nat, now: int) {
    Sorted(m) && forall i | 0 <= i < |m| :: now - m[i].1 < ttl && m[i].1 <= now
  }

  ghost predicate InOrder(m: Seen, now: int) { Sorted(m) && forall i | 0 <= i < |m| :: m[i].1 <= now }

  lemma {:induction false} PurgeLeavesFresh(m: Seen, ttl: nat, max: nat, now: int)
    requires InOrder(m, now)
    ensures Fresh(Purge(m, ttl, max, now), ttl, now) && |Purge(m, ttl, max, now)| <= max
    decreases |m|
  {
    if m != [] && (now - m[0].1 >= ttl || |m| > max) { PurgeLeavesFresh(m[1..], ttl, max, now); }
  }

  lemma AgreesInOrder(last: Last, since: Others, ttl: nat, max: nat, now: int, m: Seen)
    requires Agrees(last, since, ttl, max, now, m)
    ensures InOrder(m, now)
  {
    forall i | 0 <= i < |m| ensures m[i].1 <= now {
      assert i < |m| - 1 ==> m[i].1 <= m[|m| - 1].1;
    }
  }

  lemma AppendFresh(kept: Seen, ttl: nat, id: string, now: int)
    requires Fresh(kept, ttl, now) && ttl > 0
    ensures Fresh(kept + [(id, now)], ttl, now)
  {
  }

  /** A redelivery within the time to live is let through again only if at least max other ids
      were let through since its last time. */
  lemma AcceptedTwice(h: seq<Delivery>, d: Delivery, ttl: nat, max: nat)
    requires Ordered(h + [d]) && d.id.Some? && d.id.value != ""
    ensures var last := LastAccepted(h, ttl, max, d.id.value);
            last.Some? && d.now - last.value < ttl && FirstSeen(Exec(h, ttl, max), ttl, max, d.id, d.now).1 ==>
              |Since(h, ttl, max, d.id.value)| >= max
  {
    OrderedPrefix(h, d);
    RunsAgree(h, ttl, max, d.now);
    var last, since, m := LastIn(h, ttl, max), SinceIn(h, ttl, max), Exec(h, ttl, max);
    PurgeAgrees(last, since, ttl, max, d.now, m);
    if FirstSeen(m, ttl, max, d.id, d.now).1 {
      ForgottenIsExcused(last, since, ttl, max, d.now, Purge(m, ttl, max, d.now), d.id.value);
    }
  }

  lemma ForgottenIsExcused(last: Last, since: Others, ttl: nat, max: nat, now: int, m: Seen, id: string)
    requires Agrees(last, since, ttl, max, now, m) && !Knows(m, id)
    ensures Excused(last, since, ttl, max, now, id)
  {
    assert id !in Ids(m);
  }

  // ----- what is let through -----

  /** The ids let through since a remembered one was are all remembered behind it. */
  ghost predicate Behind(since: Others, m: Seen) {
    forall i, x | 0 <= i < |m| && x in since(m[i].0) :: exists j :: i < j < |m| && m[j].0 == x
  }

  lemma PurgeKeepsBehind(since: Others, m: Seen, r: Seen)
    requires Behind(since, m) && |r| <= |m| && r == m[|m| - |r|..]
    ensures Behind(since, r)
  {
    var k := |m| - |r|;
    forall i, x | 0 <= i < |r| && x in since(r[i].0) ensures exists j :: i < j < |r| && r[j].0 == x {
      assert r[i] == m[k + i];
      var j :| k + i < j < |m| && m[j].0 == x;
      assert r[j - k] == m[j];
    }
  }

  lemma AppendKeepsBehind(since: Others, since2: Others, m: Seen, id: string, now: int)
    requires Behind(since, m) && !Knows(m, id) && since2(id) == {}
    requires forall k | k != id :: since2(k) == since(k) + {id}
    ensures Behind(since2, m + [(id, now)])
  {
    var r := m + [(id, now)];
    forall i, x | 0 <= i < |r| && x in since2(r[i].0) ensures exists j :: i < j < |r| && r[j].0 == x {
      if x == id {
        assert r[|m|].0 == x;
      } else {
        var j :| i < j < |m| && m[j].0 == x;
        assert r[j] == m[j];
      }
    }
  }

  lemma StepKeepsBehind(h: seq<Delivery>, d: Delivery, ttl: nat, max: nat, m: Seen, r: Seen, since: Others,
      since2: Others)
    requires m == Exec(h, ttl, max) && r == FirstSeen(m, ttl, max, d.id, d.now).0 && Behind(since, m)
    requires since == SinceIn(h, ttl, max) && since2 == SinceIn(h + [d], ttl, max)
    ensures Behind(since2, r)
  {
    var kept := Purge(m, ttl, max, d.now);
    PurgeKeepsBehind(since, m, kept);
    WasAccepted(h, d, ttl, max, m);
    if Accepted(h + [d], ttl, max, |h|) {
      AcceptedStep(h, d, ttl, max);
      AcceptedResets(h, d, ttl, max);
      AppendKeepsBehind(since, since2, kept, d.id.value, d.now);
    } else {
      RejectedStep(h, d, ttl, max);
      SameBehind(since, since2, r);
    }
  }

  lemma SameBehind(since: Others, since2: Others, m: Seen)
    requires Behind(since, m) && forall k :: since2(k) == since(k)
    ensures Behind(since2, m)
  {
  }

  lemma AcceptedResets(h: seq<Delivery>, d: Delivery, ttl: nat, max: nat)
    requires Accepted(h + [d], ttl, max, |h|)
    ensures SinceIn(h + [d], ttl, max)(d.id.value) == {}
  {
    assert (h + [d])[..|h|] == h;
  }

  lemma {:induction false} RunsKeepBehind(h: seq<Delivery>, ttl: nat, max: nat)
    ensures Behind(SinceIn(h, ttl, max), Exec(h, ttl, max))
  {
    if h != [] {
      var n := |h| - 1;
      assert h == h[..n] + [h[n]];
      RunsKeepBehind(h[..n], ttl, max);
      StepKeepsBehind(h[..n], h[n], ttl, max, Exec(h[..n], ttl, max), Exec(h, ttl, max),
                      SinceIn(h[..n], ttl, max), SinceIn(h, ttl, max));
    }
  }

  /** A crowded-out id is no longer remembered. */
  lemma CrowdedIsGone(since: Others, m: Seen, max: nat, id: string)
    requires Behind(since, m) && |m| <= max && Knows(m, id)
    ensures |since(id)| < max
  {
    var i :| 0 <= i < |m| && m[i].0 == id;
    var behind := set j: nat | i < j < |m| :: m[j].0;
    forall x | x in since(id) ensures x in behind {
      var j :| i < j < |m| && m[j].0 == x;
      assert m[j].0 in behind;
    }
    SubsetSize(since(id), behind);
    RangeSize(m, i + 1, |m|);
    assert behind == set j: nat | i + 1 <= j < |m| :: m[j].0;
  }

  lemma {:induction false} RangeSize(m: Seen, lo: nat, hi: nat)
    requires lo <= hi <= |m|
    ensures |set j: nat | lo <= j < hi :: m[j].0| <= hi - lo
    decreases hi - lo
  {
    var all := set j: nat | lo <= j < hi :: m[j].0;
    if lo < hi {
      var init := set j: nat | lo <= j < hi - 1 :: m[j].0;
      RangeSize(m, lo, hi - 1);
      assert all <= init + {m[hi - 1].0};
      SubsetSize(all, init + {m[hi - 1].0});
    } else {
      assert all == {};
    }
  }

  /** What a purge leaves, and what is known of it. */
  ghost predicate Purged(last: Last, since: Others, ttl: nat, max: nat, now: int, kept: Seen) {
    Agrees(last, since, ttl, max, now, kept) && Behind(since, kept) && Fresh(kept, ttl, now) && |kept| <= max
  }

  lemma PurgeIsPurged(last: Last, since: Others, ttl: nat, max: nat, now: int, m: Seen)
    requires Agrees(last, since, ttl, max, now, m) && Behind(since, m)
    ensures Purged(last, since, ttl, max, now, Purge(m, ttl, max, now))
  {
    PurgeAgrees(last, since, ttl, max, now, m);
    AgreesInOrder(last, since, ttl, max, now, m);
    PurgeLeavesFresh(m, ttl, max, now);
    PurgeKeepsBehind(since, m, Purge(m, ttl, max, now));
  }

  lemma KeptIff(last: Last, since: Others, ttl: nat, max: nat, now: int, kept: Seen, id: string)
    requires Purged(last, since, ttl, max, now, kept)
    ensures Knows(kept, id) <==> last(id).Some? && now - last(id).value < ttl && |since(id)| < max
  {
    if Knows(kept, id) { CrowdedIsGone(since, kept, max, id); }
        else { ForgottenIsExcused(last, since, ttl, max, now, kept, id); }
  }

  /** A delivery is let through if and only if it has no id, or its id was never let through, or
      was so at least the time to live ago, or at least max other ids were since then. */
  lemma AcceptedIff(h: seq<Delivery>, d: Delivery, ttl: nat, max: nat, m: Seen)
    requires Ordered(h + [d]) && m == Exec(h, ttl, max)
    ensures FirstSeen(m, ttl, max, d.id, d.now).1 <==>
              d.id.None? || d.id.value == "" || Due(h, d.id.value, d.now, ttl, max)
  {
    if d.id.Some? && d.id.value != "" {
      OrderedPrefix(h, d);
      RunsAgree(h, ttl, max, d.now);
      RunsKeepBehind(h, ttl, max);
      PurgeIsPurged(LastIn(h, ttl, max), SinceIn(h, ttl, max), ttl, max, d.now, m);
      KeptIff(LastIn(h, ttl, max), SinceIn(h, ttl, max), ttl, max, d.now, Purge(m, ttl, max, d.now), d.id.value);
    }
  }

  predicate Due(h: seq<Delivery>, id: string, now: int, ttl: nat, max: nat) {
    var last := LastAccepted(h, ttl, max, id);
    last.None? || now - last.value >= ttl || |Since(h, ttl, max, id)| >= max
  }
}
