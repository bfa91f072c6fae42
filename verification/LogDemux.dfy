/** The splitter for Docker's multiplexed log stream: an incremental decoder whose output does
    not depend on how the stream is cut into chunks. */
module LogDemux {
  import opened Wrappers

  type Byte = b: int | 0 <= b < 256

  datatype Name = Stdout | Stderr

  datatype Emit = Emit(stream: Name, bytes: seq<Byte>)

  // ----- frames -----

  predicate IsHeader(buf: seq<Byte>)
    requires |buf| >= 8
  {
    buf[0] <= 2 && buf[1] == 0 && buf[2] == 0 && buf[3] == 0
  }

  function Size(buf: seq<Byte>): nat
    requires |buf| >= 8
  {
    ((buf[4] as int * 256 + buf[5]) * 256 + buf[6]) * 256 + buf[7]
  }

  function Payload(kind: Byte, payload: seq<Byte>): seq<Emit> {
    if payload == [] then [] else [Emit(if kind == 2 then Stderr else Stdout, payload)]
  }

  /** What one pass over the buffer emits, what it leaves, and whether it met bytes that are
      no frame header. */
  datatype Drained = Drained(emits: seq<Emit>, rest: seq<Byte>, lost: bool)

  function Drain(buf: seq<Byte>): Drained
    decreases |buf|
  {
    if |buf| < 8 then Drained([], buf, false)
    else if !IsHeader(buf) then Drained([], buf, true)
    else if |buf| < 8 + Size(buf) then Drained([], buf, false)
    else
      var d := Drain(buf[8 + Size(buf)..]);
      d.(emits := Payload(buf[0], buf[8..8 + Size(buf)]) + d.emits)
  }

  lemma DrainStep(buf: seq<Byte>, n: nat)
    requires |buf| >= 8 && IsHeader(buf) && n == 8 + Size(buf) && n <= |buf|
    ensures Drain(buf).rest == Drain(buf[n..]).rest && Drain(buf).lost == Drain(buf[n..]).lost
    ensures Drain(buf).emits == Payload(buf[0], buf[8..n]) + Drain(buf[n..]).emits
  {
    var d := Drain(buf[8 + Size(buf)..]);
    assert Drain(buf) == d.(emits := Payload(buf[0], buf[8..8 + Size(buf)]) + d.emits);
  }

  lemma Regroup(a: seq<Emit>, b: seq<Emit>, c: seq<Emit>)
    ensures a + (b + c) == (a + b) + c
  {}

  datatype State = State(buf: seq<Byte>, raw: Option<bool>)

  function Feed(s: State, chunk: seq<Byte>): (State, seq<Emit>) {
    if s.raw == Some(true) then (s, [Emit(Stdout, chunk)])
    else
      var buf := s.buf + chunk;
      var d := Drain(buf);
      var framed := |buf| >= 8 && IsHeader(buf);
      if d.lost then
        (State([], Some(s.raw.None? && !framed)), d.emits + [Emit(Stdout, d.rest)])
      else (State(d.rest, if framed then Some(false) else s.raw), d.emits)
  }

  class Demuxer {
    var buf: seq<Byte>
    var raw: Option<bool>
    var emitted: seq<Emit>

    constructor ()
      ensures View() == State([], None) && emitted == []
    {
      buf, raw, emitted := [], None, [];
    }

    ghost function View(): State
      reads this
    {
      State(buf, raw)
    }

    /** Emits the frame at the front of the buffer; what is still to be drained loses just that. */
    method TakeFrame(size: nat)
      requires |buf| >= 8 && IsHeader(buf) && size == Size(buf) && 8 + size <= |buf|
      modifies this`buf, this`emitted
      ensures buf == old(buf)[8 + size..] && emitted == old(emitted) + Payload(old(buf)[0], old(buf)[8..8 + size])
      ensures Drain(buf).rest == Drain(old(buf)).rest && Drain(buf).lost == Drain(old(buf)).lost
      ensures emitted + Drain(buf).emits == old(emitted) + Drain(old(buf)).emits
    {
      var kind, payload := buf[0], buf[8..8 + size];
      DrainStep(buf, 8 + size);
      Regroup(emitted, Payload(kind, payload), Drain(buf[8 + size..]).emits);
      if |payload| > 0 { emitted := emitted + [Emit(if kind == 2 then Stderr else Stdout, payload)]; }
      assert emitted == old(emitted) + Payload(kind, payload);
      buf := buf[8 + size..];
    }

    /** The loop over the buffered frames: emits the complete ones and says whether it met bytes
        that are no header. */
    method DrainFrames() returns (lost: bool)
      modifies this
      ensures var d := Drain(old(buf));
              && emitted == old(emitted) + d.emits && buf == d.rest && lost == d.lost
              && raw == if |old(buf)| >= 8 && IsHeader(old(buf)) then Some(false) else old(raw)
    {
      ghost var all, whole := buf, Drain(buf);
      lost := false;
      while |buf| >= 8
        invariant |buf| <= |all| && emitted + Drain(buf).emits == old(emitted) + whole.emits
        invariant whole.rest == Drain(buf).rest && whole.lost == Drain(buf).lost
        invariant buf == all || (|all| >= 8 && IsHeader(all))
        invariant raw == if buf == all then old(raw) else Some(false)
        decreases |buf|
      {
        if !IsHeader(buf) { return true; }
        raw := Some(false);
        var size := Size(buf);
        if |buf| < 8 + size { return; }
        TakeFrame(size);
      }
    }

    method OnChunk(chunk: seq<Byte>)
      modifies this
      ensures View() == Feed(old(View()), chunk).0
      ensures emitted == old(emitted) + Feed(old(View()), chunk).1
    {
      if raw == Some(true) {
        emitted := emitted + [Emit(Stdout, chunk)];
        return;
      }
      buf := if |buf| > 0 then buf + chunk else chunk;
      assert buf == old(buf) + chunk;
      ghost var d := Drain(buf);
      var lost := DrainFrames();
      if lost {
        Regroup(old(emitted), d.emits, [Emit(Stdout, buf)]);
        raw := Some(raw == None);
        emitted := emitted + [Emit(Stdout, buf)];
        buf := [];
      }
    }
  }

  // ----- chunks -----

  function Concat(chunks: seq<seq<Byte>>): seq<Byte> {
    if chunks == [] then [] else Concat(chunks[..|chunks| - 1]) + chunks[|chunks| - 1]
  }

  function FeedAll(chunks: seq<seq<Byte>>): (State, seq<Emit>) {
    if chunks == [] then (State([], None), [])
    else
      var (s, emits) := FeedAll(chunks[..|chunks| - 1]);
      var (s2, more) := Feed(s, chunks[|chunks| - 1]);
      (s2, emits + more)
  }

  /** Draining what was left together with what comes next is draining it all at once; stray bytes
      stop the draining for good. */
  lemma {:induction false} DrainAppend(a: seq<Byte>, b: seq<Byte>)
    ensures Drain(a).lost ==> Drain(a + b) == Drain(a).(rest := Drain(a).rest + b) && |Drain(a).rest| >= 8
    ensures !Drain(a).lost ==>
              Drain(a + b).emits == Drain(a).emits + Drain(Drain(a).rest + b).emits
              && Drain(a + b).rest == Drain(Drain(a).rest + b).rest
              && Drain(a + b).lost == Drain(Drain(a).rest + b).lost
    decreases |a|
  {
    if |a| >= 8 && IsHeader(a) && |a| >= 8 + Size(a) {
      var n := 8 + Size(a);
      assert (a + b)[8..n] == a[8..n] && (a + b)[n..] == a[n..] + b;
      DrainAppend(a[n..], b);
      DrainStep(a, n);
      DrainStep(a + b, n);
      Regroup(Payload(a[0], a[8..n]), Drain(a[n..]).emits, Drain(Drain(a[n..]).rest + b).emits);
    }
  }

  /** However a stream without stray bytes is cut, the decoder emits what one pass over the whole
      stream emits, and holds what that pass leaves. */
  lemma {:induction false} ChunkingIsInvisible(chunks: seq<seq<Byte>>)
    requires !Drain(Concat(chunks)).lost
    ensures var (s, emits) := FeedAll(chunks);
            s.buf == Drain(Concat(chunks)).rest && emits == Drain(Concat(chunks)).emits && s.raw != Some(true)
  {
    if chunks != [] {
      var n := |chunks| - 1;
      DrainAppend(Concat(chunks[..n]), chunks[n]);
      ChunkingIsInvisible(chunks[..n]);
    }
  }

  // ----- stray bytes -----

  /** The beginning of a frame, not yet all of it. */
  predicate Partial(tail: seq<Byte>) {
    |tail| < 8 || (IsHeader(tail) && |tail| < 8 + Size(tail))
  }

  /** While no more than eight stray bytes have come, the decoder still waits for the last of them. */
  lemma {:induction false} LostAtTheEnd(chunks: seq<seq<Byte>>)
    requires Drain(Concat(chunks)).lost && |Drain(Concat(chunks)).rest| == 8 && IsHeader(Concat(chunks))
    requires |Concat(chunks)| >= 8
    ensures var d := Drain(Concat(chunks));
            FeedAll(chunks) == (State([], Some(false)), d.emits + [Emit(Stdout, d.rest)])
  {
    var n := |chunks| - 1;
    var front, last := Concat(chunks[..n]), chunks[n];
    DrainAppend(front, last);
    if last == [] {
      assert front + last == front && Concat(chunks) == front;
      LostAtTheEnd(chunks[..n]);
      FeedNothing();
      assert FeedAll(chunks[..n]).1 + [] == FeedAll(chunks[..n]).1;
    } else {
      assert !Drain(front).lost;
      ChunkingIsInvisible(chunks[..n]);
      HeaderSeen(chunks[..n]);
      LostFeed(chunks[..n], last);
    }
  }

  lemma FeedNothing()
    ensures Feed(State([], Some(false)), []) == (State([], Some(false)), [])
  {
    var none: seq<Byte> := [];
    assert none + [] == none;
  }

  /** Once eight bytes have come, the decoder knows that the stream is framed. */
  lemma {:induction false} HeaderSeen(chunks: seq<seq<Byte>>)
    requires !Drain(Concat(chunks)).lost
    ensures FeedAll(chunks).0.raw == if |Concat(chunks)| >= 8 then Some(false) else None
  {
    if chunks != [] {
      var n := |chunks| - 1;
      DrainAppend(Concat(chunks[..n]), chunks[n]);
      HeaderSeen(chunks[..n]);
      ChunkingIsInvisible(chunks[..n]);
      if |Concat(chunks[..n])| < 8 { assert Drain(Concat(chunks[..n])).rest == Concat(chunks[..n]); }
    }
  }

  lemma LostFeed(chunks: seq<seq<Byte>>, last: seq<Byte>)
    requires !Drain(Concat(chunks)).lost && Drain(Concat(chunks) + last).lost && IsHeader(Concat(chunks) + last)
    requires |Concat(chunks) + last| >= 8
    ensures var d, (s, emits) := Drain(Concat(chunks) + last), FeedAll(chunks);
            Feed(s, last).0 == State([], Some(false)) && emits + Feed(s, last).1 == d.emits + [Emit(Stdout, d.rest)]
  {
    DrainAppend(Concat(chunks), last);
    ChunkingIsInvisible(chunks);
    HeaderSeen(chunks);
    var (s, emits) := FeedAll(chunks);
    if |Concat(chunks)| < 8 { assert s.buf == Concat(chunks); }
    Regroup(emits, Drain(s.buf + last).emits, [Emit(Stdout, Drain(s.buf + last).rest)]);
  }

  lemma OneChunk(b: seq<Byte>)
    requires |b| >= 8 && IsHeader(b) && Drain(b).lost
    ensures Concat([b]) == b && FeedAll([b]) == (State([], Some(false)), Drain(b).emits + [Emit(Stdout, Drain(b).rest)])
  {
    var chunks, none := [b], [];
    assert chunks[..0] == none && Concat(none) == [] && [] + b == b;
    LostFeed(none, b);
  }

  lemma TwoChunks(x: seq<Byte>, y: seq<Byte>)
    ensures Concat([x, y]) == Concat([x]) + y
    ensures FeedAll([x, y]).1 == FeedAll([x]).1 + Feed(FeedAll([x]).0, y).1
  {
    assert [x, y][..1] == [x];
  }

  lemma OneByteMore(p: seq<Byte>, last: seq<Byte>)
    requires Partial(p) && |last| == 1
    ensures Drain(p + last).lost ==> |Drain(p + last).rest| <= 8
  {
    var all := p + last;
    if |p| >= 8 {
      assert IsHeader(all) && Size(all) == Size(p);
      if |all| == 8 + Size(all) { assert all[8 + Size(all)..] == []; }
    }
  }

  lemma StrayBeforeTheLast(b: seq<Byte>, front: seq<Byte>, last: seq<Byte>)
    requires |b| >= 8 && IsHeader(b) && Drain(b).lost && |Drain(b).rest| > 8 && b == front + last && |last| == 1
    ensures |front| >= 8 && IsHeader(front) && Drain(front).lost
    ensures Drain(front).emits == Drain(b).emits && |Drain(front).rest| == |Drain(b).rest| - 1
  {
    DrainAppend(front, last);
    ShortRest(front);
    if !Drain(front).lost { OneByteMore(Drain(front).rest, last); }
    assert forall i | 0 <= i < |front| :: front[i] == b[i];
  }

  /** A framed stream with more than eight stray bytes: its last byte, sent on its own, is held back
      as the beginning of a frame. */
  lemma LastByteIsHeld(b: seq<Byte>, front: seq<Byte>, last: seq<Byte>)
    requires |b| >= 8 && IsHeader(b) && Drain(b).lost && |Drain(b).rest| > 8
    requires |last| == 1 && b == front + last
    ensures Concat([front, last]) == b
    ensures FeedAll([front, last]).1 == Drain(b).emits + [Emit(Stdout, Drain(front).rest)]
    ensures |Drain(front).rest| < |Drain(b).rest|
  {
    StrayBeforeTheLast(b, front, last);
    OneChunk(front);
    TwoChunks(front, last);
    var none: seq<Byte> := [];
    assert none + last == last;
  }

  /** What a pass leaves of a stream without stray bytes is less than eight bytes or a frame that is
      not complete. */
  lemma {:induction false} ShortRest(a: seq<Byte>)
    ensures !Drain(a).lost ==> Partial(Drain(a).rest)
    decreases |a|
  {
    if |a| >= 8 && IsHeader(a) && |a| >= 8 + Size(a) { ShortRest(a[8 + Size(a)..]); }
  }

  /** However the stream is cut, the same comes out. */
  ghost predicate CutAtWill(b: seq<Byte>) {
    forall x, y | Concat(x) == b && Concat(y) == b :: FeedAll(x).1 == FeedAll(y).1
  }

  lemma CutAtWillWhile(b: seq<Byte>)
    requires |b| >= 8 && IsHeader(b) && (!Drain(b).lost || |Drain(b).rest| == 8)
    ensures CutAtWill(b)
  {
    var out := if Drain(b).lost then Drain(b).emits + [Emit(Stdout, Drain(b).rest)] else Drain(b).emits;
    forall x | Concat(x) == b ensures FeedAll(x).1 == out {
      if Drain(b).lost { LostAtTheEnd(x); } else { ChunkingIsInvisible(x); }
    }
  }

  lemma TwoCutsDiffer(b: seq<Byte>)
    requires |b| >= 8 && IsHeader(b) && Drain(b).lost && |Drain(b).rest| > 8
    ensures !CutAtWill(b)
  {
    var front, last := b[..|b| - 1], b[|b| - 1..];
    assert b == front + last;
    OneChunk(b);
    LastByteIsHeld(b, front, last);
    LastDiffers(Drain(b).emits, Drain(b).rest, Drain(front).rest);
  }

  lemma LastDiffers(emits: seq<Emit>, x: seq<Byte>, y: seq<Byte>)
    requires x != y
    ensures emits + [Emit(Stdout, x)] != emits + [Emit(Stdout, y)]
  {
    assert (emits + [Emit(Stdout, x)])[|emits|] != (emits + [Emit(Stdout, y)])[|emits|];
  }

  lemma {:induction false} LostIsEight(b: seq<Byte>)
    ensures Drain(b).lost ==> |Drain(b).rest| >= 8
    decreases |b|
  {
    if |b| >= 8 && IsHeader(b) && |b| >= 8 + Size(b) { LostIsEight(b[8 + Size(b)..]); }
  }

  /** An empty frame, then nine bytes that are none. */
  lemma StrayExample(b: seq<Byte>)
    requires b == [1, 0, 0, 0, 0, 0, 0, 0] + [9, 9, 9, 9, 9, 9, 9, 9, 9]
    ensures !CutAtWill(b)
  {
    assert b[8..] == [9, 9, 9, 9, 9, 9, 9, 9, 9] && Size(b) == 0;
    assert Drain(b[8..]) == Drained([], b[8..], true);
    TwoCutsDiffer(b);
  }

  /** How a framed stream is cut makes no difference to what comes out if and only if it has at most
      eight stray bytes: after more of them, decoding starts again wherever the next chunk begins. */
  lemma CuttingIsInvisibleIff(b: seq<Byte>)
    requires |b| >= 8 && IsHeader(b)
    ensures CutAtWill(b) <==> !Drain(b).lost || |Drain(b).rest| == 8
  {
    LostIsEight(b);
    if !Drain(b).lost || |Drain(b).rest| == 8 { CutAtWillWhile(b); } else { TwoCutsDiffer(b); }
  }

  // ----- encoded streams -----

  const LIMIT: nat := 0x1_0000_0000

  datatype Frame = Frame(kind: Byte, payload: seq<Byte>)

  predicate ValidFrame(f: Frame) { f.kind <= 2 && |f.payload| < LIMIT }

  function Header(f: Frame): seq<Byte>
    requires ValidFrame(f)
  {
    var n := |f.payload|;
    [f.kind, 0, 0, 0, n / 0x100_0000, n / 0x1_0000 % 256, n / 256 % 256, n % 256]
  }

  function Encode(frames: seq<Frame>): seq<Byte>
    requires forall f | f in frames :: ValidFrame(f)
  {
    if frames == [] then [] else Header(frames[0]) + frames[0].payload + Encode(frames[1..])
  }

  /** The non-empty payloads in order, each on its stream. */
  function Payloads(frames: seq<Frame>): seq<Emit> {
    if frames == [] then [] else Payload(frames[0].kind, frames[0].payload) + Payloads(frames[1..])
  }

  lemma HeaderReads(f: Frame, rest: seq<Byte>)
    requires ValidFrame(f)
    ensures |Header(f) + rest| >= 8 && IsHeader(Header(f) + rest) && Size(Header(f) + rest) == |f.payload|
  {
    var n, h := |f.payload|, Header(f) + rest;
    assert h[4] == n / 0x100_0000 && h[5] == n / 0x1_0000 % 256 && h[6] == n / 256 % 256 && h[7] == n % 256;
    assert n / 0x100_0000 * 256 + n / 0x1_0000 % 256 == n / 0x1_0000;
    assert n / 0x1_0000 * 256 + n / 256 % 256 == n / 256;
  }

  lemma FrameDrains(f: Frame, rest: seq<Byte>, all: seq<Byte>)
    requires ValidFrame(f) && all == Header(f) + (f.payload + rest)
    ensures Drain(all).rest == Drain(rest).rest && Drain(all).lost == Drain(rest).lost
    ensures Drain(all).emits == Payload(f.kind, f.payload) + Drain(rest).emits
  {
    var n := 8 + |f.payload|;
    HeaderReads(f, f.payload + rest);
    assert all[8..n] == f.payload && all[n..] == rest;
    DrainStep(all, n);
  }

  lemma {:induction false} DrainEncoded(frames: seq<Frame>, tail: seq<Byte>)
    requires (forall f | f in frames :: ValidFrame(f)) && Partial(tail)
    ensures Drain(Encode(frames) + tail) == Drained(Payloads(frames), tail, false)
  {
    if frames == [] {
      assert Encode(frames) + tail == tail;
    } else {
      var f := frames[0];
      assert f in frames;
      var rest := Encode(frames[1..]) + tail;
      assert Encode(frames) + tail == Header(f) + (f.payload + rest);
      FrameDrains(f, rest, Encode(frames) + tail);
      DrainEncoded(frames[1..], tail);
    }
  }

  /** Every list of frames in every cutting comes out as its non-empty payloads in order on the
      right streams; nothing stays buffered at the end but a frame that is not all there yet. */
  lemma FramesComeOut(frames: seq<Frame>, tail: seq<Byte>, chunks: seq<seq<Byte>>)
    requires (forall f | f in frames :: ValidFrame(f)) && Partial(tail) && Concat(chunks) == Encode(frames) + tail
    ensures FeedAll(chunks).1 == Payloads(frames) && FeedAll(chunks).0.buf == tail
  {
    DrainEncoded(frames, tail);
    ChunkingIsInvisible(chunks);
  }

  /** The frames that carry anything. */
  function NonEmpty(frames: seq<Frame>): seq<Frame> {
    if frames == [] then []
    else (if frames[0].payload == [] then [] else [frames[0]]) + NonEmpty(frames[1..])
  }

  lemma {:induction false} PayloadsAre(frames: seq<Frame>)
    ensures |Payloads(frames)| == |NonEmpty(frames)|
    ensures forall i | 0 <= i < |NonEmpty(frames)| ::
              Payloads(frames)[i].bytes == NonEmpty(frames)[i].payload
              && (Payloads(frames)[i].stream == Stderr <==> NonEmpty(frames)[i].kind == 2)
  {
    if frames != [] { PayloadsAre(frames[1..]); }
  }

  /** One chunk of output for each frame that carries anything, in order, with just its payload: on
      stderr those of type 2, on stdout the others. */
  lemma FramesComeOutRight(frames: seq<Frame>, tail: seq<Byte>, chunks: seq<seq<Byte>>)
    requires (forall f | f in frames :: ValidFrame(f)) && Partial(tail) && Concat(chunks) == Encode(frames) + tail
    ensures var out, sent := FeedAll(chunks).1, NonEmpty(frames);
            |out| == |sent| && forall i | 0 <= i < |sent| ::
              out[i].bytes == sent[i].payload && (out[i].stream == Stderr <==> sent[i].kind == 2)
  {
    FramesComeOut(frames, tail, chunks);
    PayloadsAre(frames);
  }

  /** How many frames are complete within the first n bytes. */
  function Complete(frames: seq<Frame>, n: nat): nat {
    if frames == [] || n < 8 + |frames[0].payload| then 0 else 1 + Complete(frames[1..], n - 8 - |frames[0].payload|)
  }

  lemma RegroupBytes(a: seq<Byte>, b: seq<Byte>, c: seq<Byte>)
    ensures a + (b + c) == (a + b) + c
  {}

  lemma {:induction false} CutSplits(frames: seq<Frame>, n: nat) returns (tail: seq<Byte>)
    requires (forall f | f in frames :: ValidFrame(f)) && n <= |Encode(frames)|
    ensures Complete(frames, n) <= |frames| && Partial(tail)
    ensures Encode(frames)[..n] == Encode(frames[..Complete(frames, n)]) + tail
  {
    if frames == [] {
      tail := [];
    } else {
      var f := frames[0];
      assert f in frames;
      var m := 8 + |f.payload|;
      if n < m {
        tail := Encode(frames)[..n];
        if n >= 8 {
          assert tail == Header(f) + f.payload[..n - 8];
          HeaderReads(f, f.payload[..n - 8]);
        }
      } else {
        tail := CutSplits(frames[1..], n - m);
        var k := Complete(frames[1..], n - m);
        var first, rest := Header(f) + f.payload, Encode(frames[1..]);
        assert Encode(frames) == first + rest && (first + rest)[..n] == first + rest[..n - m];
        assert frames[..k + 1][1..] == frames[1..][..k];
        assert Encode(frames[..k + 1]) == first + Encode(frames[1..][..k]);
        RegroupBytes(first, Encode(frames[1..][..k]), tail);
      }
    }
  }

  /** A stream cut off anywhere has emitted exactly its complete frames. */
  lemma CutOffStream(frames: seq<Frame>, n: nat, chunks: seq<seq<Byte>>)
    requires (forall f | f in frames :: ValidFrame(f)) && n <= |Encode(frames)| && Concat(chunks) == Encode(frames)[..n]
    ensures Complete(frames, n) <= |frames| && FeedAll(chunks).1 == Payloads(frames[..Complete(frames, n)])
  {
    var tail := CutSplits(frames, n);
    FramesComeOut(frames[..Complete(frames, n)], tail, chunks);
  }

  // ----- streams that are not framed -----

  /** A header is a type of 0, 1 or 2, three zeros and a size, most significant byte first. */
  lemma HeaderIff(buf: seq<Byte>)
    requires |buf| >= 8
    ensures IsHeader(buf) <==> buf[0] in [0, 1, 2] && buf[1..4] == [0, 0, 0]
    ensures Size(buf) == (buf[4] as int) * 0x100_0000 + (buf[5] as int) * 0x1_0000 + (buf[6] as int) * 0x100 + buf[7]
  {
    assert buf[1..4] == [buf[1], buf[2], buf[3]];
  }

  function Bytes(emits: seq<Emit>): seq<Byte> {
    if emits == [] then [] else Bytes(emits[..|emits| - 1]) + emits[|emits| - 1].bytes
  }

  /** A stream whose first eight bytes are no header passes through whole, on stdout; until eight
      bytes have come it is held back. */
  lemma {:induction false} RawPassesThrough(chunks: seq<seq<Byte>>)
    requires |Concat(chunks)| >= 8 ==> !IsHeader(Concat(chunks))
    ensures var (s, emits) := FeedAll(chunks);
            && (forall e | e in emits :: e.stream == Stdout)
            && if |Concat(chunks)| < 8 then s == State(Concat(chunks), None) && emits == []
               else s == State([], Some(true)) && Bytes(emits) == Concat(chunks)
  {
    if chunks != [] {
      var n := |chunks| - 1;
      RawPassesThrough(chunks[..n]);
      var (s, emits) := FeedAll(chunks[..n]);
      var (_, more) := Feed(s, chunks[n]);
      if |more| == 1 { assert (emits + more)[..|emits|] == emits; }
      if s.raw.None? { assert Bytes([]) == []; }
    }
  }
}
