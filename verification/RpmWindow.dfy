/** The sliding-window rate limiter: a pruned list that agrees with the whole history. */
module RpmWindow {
  const WINDOW: int := 60_000

  type Hits = map<string, seq<int>>

  function Kept(times: seq<int>, now: int): seq<int> {
    if times == [] then []
    else
      var n := |times| - 1;
      Kept(times[..n], now) + if now - times[n] < WINDOW then [times[n]] else []
  }

  function Stored(hits: Hits, key: string): seq<int> { if key in hits then hits[key] else [] }

  function Allowed(hits: Hits, key: string, rpm: nat, now: int): bool { |Kept(Stored(hits, key), now)| < rpm }

  function Next(hits: Hits, key: string, rpm: nat, now: int): Hits {
    var kept := Kept(Stored(hits, key), now);
    hits[key := if |kept| >= rpm then kept else kept + [now]]
  }

  class Limiter {
    var hits: Hits

    constructor ()
      ensures hits == map[]
    {
      hits := map[];
    }

    method Allow(key: string, rpm: nat, now: int) returns (ok: bool)
      modifies this
      ensures ok == Allowed(old(hits), key, rpm, now) && hits == Next(old(hits), key, rpm, now)
    {
      var times := if key in hits then hits[key] else [];
      var kept := [];
      for i := 0 to |times|
        invariant kept == Kept(times[..i], now)
      {
        assert times[..i + 1][..i] == times[..i];
        if now - times[i] < WINDOW { kept := kept + [times[i]]; }
      }
      assert times[..|times|] == times;
      ok := |kept| < rpm;
      if ok { kept := kept + [now]; }
      hits := hits[key := kept];
    }
  }

  // ----- the whole history -----

  datatype Call = Call(key: string, rpm: nat, now: int)

  function Exec(h: seq<Call>): Hits {
    if h == [] then map[]
    else var c := h[|h| - 1]; Next(Exec(h[..|h| - 1]), c.key, c.rpm, c.now)
  }

  /** The times at which the key was let through, over the whole history. */
  function Granted(h: seq<Call>, key: string): seq<int> {
    if h == [] then []
    else
      var n := |h| - 1;
      Granted(h[..n], key) +
      if h[n].key == key && Allowed(Exec(h[..n]), key, h[n].rpm, h[n].now) then [h[n].now] else []
  }

  predicate Ordered(h: seq<Call>) { forall i, j | 0 <= i < j < |h| :: h[i].now <= h[j].now }

  lemma {:induction false} KeptConcat(a: seq<int>, b: seq<int>, now: int)
    ensures Kept(a + b, now) == Kept(a, now) + Kept(b, now)
  {
    if b == [] {
      assert a + b == a;
    } else {
      assert (a + b)[..|a + b| - 1] == a + b[..|b| - 1];
      KeptConcat(a, b[..|b| - 1], now);
    }
  }

  /** What was pruned earlier would be pruned later as well. */
  lemma {:induction false} KeptTwice(times: seq<int>, t: int, now: int)
    requires t <= now
    ensures Kept(Kept(times, t), now) == Kept(times, now)
  {
    if times != [] {
      var n := |times| - 1;
      KeptTwice(times[..n], t, now);
      var last := if t - times[n] < WINDOW then [times[n]] else [];
      KeptConcat(Kept(times[..n], t), last, now);
    }
  }

  /** However often the list was pruned, its window is that of all the granted hits. */
  lemma {:induction false} WindowIsHistory(h: seq<Call>, key: string, now: int)
    requires Ordered(h) && (h != [] ==> h[|h| - 1].now <= now)
    ensures Kept(Stored(Exec(h), key), now) == Kept(Granted(h, key), now)
  {
    if h != [] {
      var n := |h| - 1;
      var c, hits := h[n], Exec(h[..n]);
      WindowIsHistory(h[..n], key, now);
      assert Granted(h[..n], key) + [] == Granted(h[..n], key);
      if c.key == key {
        var stored := Stored(hits, key);
        KeptTwice(stored, c.now, now);
        KeptConcat(Kept(stored, c.now), [c.now], now);
        KeptConcat(Granted(h[..n], key), [c.now], now);
      }
    }
  }

  /** How many of the times lie in the minute that ends at t. */
  function InMinute(times: seq<int>, t: int): nat {
    if times == [] then 0
    else
      var n := |times| - 1;
      InMinute(times[..n], t) + if t - 60_000 < times[n] <= t then 1 else 0
  }

  lemma {:induction false} GrantedByNow(h: seq<Call>, key: string, now: int)
    requires Ordered(h) && (h != [] ==> h[|h| - 1].now <= now)
    ensures forall i | 0 <= i < |Granted(h, key)| :: Granted(h, key)[i] <= now
  {
    if h != [] {
      var n := |h| - 1;
      GrantedByNow(h[..n], key, now);
    }
  }

  lemma {:induction false} KeptIsInMinute(times: seq<int>, now: int)
    requires forall i | 0 <= i < |times| :: times[i] <= now
    ensures |Kept(times, now)| == InMinute(times, now)
  {
    if times != [] {
      KeptIsInMinute(times[..|times| - 1], now);
    }
  }

  /** A call is let through exactly when, of all the calls of its key ever let through, fewer than
      rpm lie in the 60 seconds that end with it. */
  lemma AllowedIff(h: seq<Call>, c: Call)
    requires Ordered(h + [c])
    ensures Allowed(Exec(h), c.key, c.rpm, c.now) <==> InMinute(Granted(h, c.key), c.now) < c.rpm
  {
    assert forall i | 0 <= i < |h| :: (h + [c])[i] == h[i];
    assert (h + [c])[|h|] == c;
    WindowIsHistory(h, c.key, c.now);
    GrantedByNow(h, c.key, c.now);
    KeptIsInMinute(Granted(h, c.key), c.now);
  }

  /** A later minute has no more of the times that have passed. */
  lemma {:induction false} LaterMinute(times: seq<int>, t: int, now: int)
    requires now <= t && forall i | 0 <= i < |times| :: times[i] <= now
    ensures InMinute(times, t) <= InMinute(times, now)
  {
    if times != [] {
      LaterMinute(times[..|times| - 1], t, now);
    }
  }

  lemma OneMore(times: seq<int>, x: int, t: int)
    ensures InMinute(times + [x], t) == InMinute(times, t) + if t - 60_000 < x <= t then 1 else 0
  {
    assert (times + [x])[..|times|] == times;
  }

  /** With one limit for the key, no minute whatsoever holds more granted hits than the limit. */
  lemma {:induction false} MinuteIsBounded(h: seq<Call>, key: string, rpm: nat, t: int)
    requires Ordered(h) && forall c | c in h && c.key == key :: c.rpm == rpm
    ensures InMinute(Granted(h, key), t) <= rpm
  {
    if h != [] {
      var n := |h| - 1;
      var c := h[n];
      assert h[..n] + [c] == h && c in h;
      MinuteIsBounded(h[..n], key, rpm, t);
      var before := Granted(h[..n], key);
      assert before + [] == before;
      if c.key == key && Allowed(Exec(h[..n]), key, c.rpm, c.now) {
        OneMore(before, c.now, t);
        if c.now <= t {
          AllowedIff(h[..n], c);
          GrantedByNow(h[..n], key, c.now);
          LaterMinute(before, t, c.now);
        }
      }
    }
  }
}
