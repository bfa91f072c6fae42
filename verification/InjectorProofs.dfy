/** What reaches the client does not depend on how the body was cut into writes. */
module InjectorProofs {
  import opened Strings
  import opened Wrappers
  import opened Injector

  // ----- occurrences under extension -----

  lemma OccursExtend(s: string, t: string, pattern: string, i: int)
    requires 0 <= i && i + |pattern| <= |s|
    ensures OccursAt(s, pattern, i) <==> OccursAt(s + t, pattern, i)
  {
    assert (s + t)[i..i + |pattern|] == s[i..i + |pattern|];
  }

  lemma ContainsExtend(s: string, t: string, pattern: string)
    ensures Contains(s, pattern) ==> Contains(s + t, pattern)
  {
    if Contains(s, pattern) {
      var i :| 0 <= i <= |s| && OccursAt(s, pattern, i);
      OccursExtend(s, t, pattern, i);
    }
  }

  /** The head end, once seen, stays; one that appears later reaches past what was held. */
  lemma HeadEndExtend(p: string, q: string)
    ensures HeadEnd(p).Some? ==> HeadEnd(p + q) == HeadEnd(p)
    ensures HeadEnd(p).None? && HeadEnd(p + q).Some? ==> |p| < HeadEnd(p + q).value + 6 <= |p + q|
  {
    ToLowerConcat(p, q);
    var i, j := IndexOf(ToLower(p), HEAD_CLOSE), IndexOf(ToLower(p + q), HEAD_CLOSE);
    if i <= |p| {
      OccursExtend(ToLower(p), ToLower(q), HEAD_CLOSE, i);
      if j < i { OccursExtend(ToLower(p), ToLower(q), HEAD_CLOSE, j); }
    } else if j <= |p + q| && j + 6 <= |p| {
      OccursExtend(ToLower(p), ToLower(q), HEAD_CLOSE, j);
    }
  }

  /** A pattern without '<' that ends before the '<' at `end` is completed by "/head" ends before `end`. */
  lemma EndsBefore(s: string, end: nat, pattern: string, k: nat)
    requires end < |s| && s[end] == '<' && '<' !in pattern && |pattern| >= 6
    requires OccursAt(s, pattern, k) && k + |pattern| < end + 6
    ensures k + |pattern| <= end && OccursAt(s[..end], pattern, k)
  {
    forall m | k <= m < k + |pattern| ensures s[m] != '<' {
      assert s[m] == s[k..k + |pattern|][m - k] && pattern[m - k] in pattern;
    }
    assert k + |pattern| <= end;
    assert s[..end][k..k + |pattern|] == s[k..k + |pattern|];
  }

  /** So a long pattern that occurs in p occurs before the head end that a longer body turns out
      to have, of which p holds less than all. */
  lemma OccursBeforeEnd(p: string, q: string, pattern: string)
    requires HeadEnd(p).None? && HeadEnd(p + q).Some?
    requires |pattern| >= 6 && '<' !in pattern && Contains(ToLower(p), pattern)
    ensures Contains(ToLower((p + q)[..HeadEnd(p + q).value]), pattern)
  {
    HeadEndExtend(p, q);
    ToLowerConcat(p, q);
    var s, end := ToLower(p + q), HeadEnd(p + q).value;
    var k :| 0 <= k <= |p| && OccursAt(ToLower(p), pattern, k);
    OccursExtend(ToLower(p), ToLower(q), pattern, k);
    assert s[end] == s[end..end + 6][0] == HEAD_CLOSE[0];
    EndsBefore(s, end, pattern, k);
    assert ToLower((p + q)[..end]) == s[..end];
  }

  lemma HasMetaExtend(p: string, q: string)
    ensures HasMeta(p) ==> HasMeta(p + q)
    ensures HasMeta(p) && HeadEnd(p).None? && HeadEnd(p + q).Some? ==> HasMeta((p + q)[..HeadEnd(p + q).value])
  {
    ToLowerConcat(p, q);
    ContainsExtend(ToLower(p), ToLower(q), META_NAME);
    ContainsExtend(ToLower(p), ToLower(q), META_ATTR);
    if HasMeta(p) && HeadEnd(p).None? && HeadEnd(p + q).Some? {
      OccursBeforeEnd(p, q, META_NAME);
      OccursBeforeEnd(p, q, META_ATTR);
    }
  }

  // ----- what the client gets -----

  /** The document has an end of head, and no policy of its own before it. */
  predicate Editable(body: string) {
    var end := HeadEnd(body);
    end.Some? && !HasMeta(body[..end.value])
  }

  /** No write fills the scan window before the end of head is complete. */
  predicate InTime(c: Config, chunks: seq<string>, end: nat) {
    && (|Concat(chunks)| < end + |HEAD_CLOSE| ==> |Concat(chunks)| < c.maxScan)
    && (chunks != [] ==> InTime(c, chunks[..|chunks| - 1], end))
  }

  predicate Tagged(c: Config, chunks: seq<string>) {
    var body := Concat(chunks);
    Editable(body) && InTime(c, chunks, HeadEnd(body).value)
  }

  /** The body with the tag in front of its first end of head, or the body as it is. */
  function Edited(body: string, tag: string, inject: bool): string {
    if inject && HeadEnd(body).Some? then body[..HeadEnd(body).value] + tag + body[HeadEnd(body).value..] else body
  }

  lemma {:induction false} AllInWindow(c: Config, chunks: seq<string>, end: nat)
    requires |Concat(chunks)| < c.maxScan
    ensures InTime(c, chunks, end)
  {
    if chunks != [] { AllInWindow(c, chunks[..|chunks| - 1], end); }
  }

  ghost predicate Scanning(c: Config, w0: Writer, w: Writer, chunks: seq<string>) {
    var body := Concat(chunks);
    && w == w0.(buf := body)
    && HeadEnd(body).None? && !HasMeta(body) && |body| < c.maxScan
  }

  /** The decision is made: it is right for the body so far, and nothing that may still come
      can change it. */
  ghost predicate Streaming(c: Config, tag: string -> string, w0: Writer, w: Writer, chunks: seq<string>) {
    var body := Concat(chunks);
    && w.mode.Stream? && w.plan == w0.plan && w.buf == "" && w.head.Some?
    && Settled(c, body)
    && w.sent == Edited(body, tag(w0.plan.nonce), Tagged(c, chunks))
    && (w.head.value.rum.Injected? <==> Tagged(c, chunks)) && !w.head.value.rum.Untouched?
    && w.head == Some(EditedHead(c, w0, c.clientGzip, w.head.value.rum))
  }

  ghost predicate ScanStart(c: Config, w: Writer) {
    w.mode.Scan? && w.buf == "" && w.sent == "" && c.maxScan > 0
  }

  lemma HeadFits(p: string)
    ensures HeadEnd(p).Some? ==> HeadEnd(p).value + |HEAD_CLOSE| <= |p|
  {
  }

  ghost predicate Settled(c: Config, body: string) {
    HeadEnd(body).None? ==> HasMeta(body) || |body| >= c.maxScan
  }

  lemma EditableExtend(p: string, q: string)
    requires HeadEnd(p).Some?
    ensures Editable(p + q) == Editable(p)
  {
    HeadEndExtend(p, q);
    assert (p + q)[..HeadEnd(p).value] == p[..HeadEnd(p).value];
  }

  lemma TaggedAfterEnd(c: Config, chunks: seq<string>, p: string, q: string)
    requires chunks != [] && p == Concat(chunks[..|chunks| - 1]) && q == chunks[|chunks| - 1] && HeadEnd(p).Some?
    ensures HeadEnd(p + q) == HeadEnd(p) && (Tagged(c, chunks) <==> Tagged(c, chunks[..|chunks| - 1]))
  {
    HeadEndExtend(p, q);
    EditableExtend(p, q);
    HeadFits(p);
    assert Concat(chunks) == p + q;
    var end := HeadEnd(p).value;
    assert InTime(c, chunks, end) == InTime(c, chunks[..|chunks| - 1], end);
  }

  lemma NeverTagged(c: Config, chunks: seq<string>, p: string, q: string)
    requires chunks != [] && p == Concat(chunks[..|chunks| - 1]) && q == chunks[|chunks| - 1]
    requires HeadEnd(p).None? && Settled(c, p)
    ensures Settled(c, p + q) && !Tagged(c, chunks)
  {
    HasMetaExtend(p, q);
    HeadEndExtend(p, q);
    assert Concat(chunks) == p + q;
    if HeadEnd(p + q).Some? && !HasMeta(p) {
      assert !InTime(c, chunks[..|chunks| - 1], HeadEnd(p + q).value);
    }
  }

  lemma TaggedOneMore(c: Config, chunks: seq<string>)
    requires chunks != [] && Settled(c, Concat(chunks[..|chunks| - 1]))
    ensures Settled(c, Concat(chunks)) && (Tagged(c, chunks) <==> Tagged(c, chunks[..|chunks| - 1]))
    ensures HeadEnd(Concat(chunks[..|chunks| - 1])).None? ==> !Tagged(c, chunks)
  {
    if HeadEnd(Concat(chunks[..|chunks| - 1])).Some? {
      TaggedAfterEnd(c, chunks, Concat(chunks[..|chunks| - 1]), chunks[|chunks| - 1]);
    } else {
      NeverTagged(c, chunks, Concat(chunks[..|chunks| - 1]), chunks[|chunks| - 1]);
    }
  }

  lemma EditedOneMore(p: string, q: string, tag: string, inject: bool)
    requires inject ==> HeadEnd(p).Some?
    ensures Edited(p + q, tag, inject) == Edited(p, tag, inject) + q
  {
    if inject {
      HeadEndExtend(p, q);
      var i := HeadEnd(p).value;
      assert (p + q)[..i] == p[..i] && (p + q)[i..] == p[i..] + q;
    }
  }

  lemma StreamWrites(c: Config, tag: string -> string, w: Writer, p: string, generated: string)
    requires w.mode.Stream?
    ensures Write(c, tag, w, p, generated) == w.(sent := w.sent + p)
  {}

  lemma StreamOneMore(c: Config, tag: string -> string, w0: Writer, w: Writer, chunks: seq<string>, generated: string)
    requires chunks != []
    requires Streaming(c, tag, w0, w, chunks[..|chunks| - 1])
    ensures Streaming(c, tag, w0, Write(c, tag, w, chunks[|chunks| - 1], generated), chunks)
  {
    var n := |chunks| - 1;
    StreamWrites(c, tag, w, chunks[n], generated);
    TaggedOneMore(c, chunks);
    EditedOneMore(Concat(chunks[..n]), chunks[n], tag(w0.plan.nonce), Tagged(c, chunks));
  }

  /** Judging a body whose earlier writes all left it undecided. */
  lemma JudgeIsRight(c: Config, chunks: seq<string>, final: bool)
    requires chunks != [] ==> |Concat(chunks[..|chunks| - 1])| < c.maxScan
    requires chunks == [] ==> c.maxScan > 0
    ensures var body := Concat(chunks);
            match Judge(c, body, final)
            case Wait => HeadEnd(body).None? && !HasMeta(body) && |body| < c.maxScan
            case Insert(at) => Tagged(c, chunks) && HeadEnd(body) == Some(at)
            case GiveUp(_) => !Tagged(c, chunks) && (final || Settled(c, body))
  {
    var body := Concat(chunks);
    if HeadEnd(body).Some? && chunks != [] {
      AllInWindow(c, chunks[..|chunks| - 1], HeadEnd(body).value);
      HeadFits(body);
    }
  }

  lemma ScanFollows(c: Config, tag: string -> string, w0: Writer, chunks: seq<string>)
    requires ScanStart(c, w0) && chunks != [] && |Concat(chunks[..|chunks| - 1])| < c.maxScan
    ensures var w2 := ScanHead(c, tag, w0.(buf := Concat(chunks)), c.clientGzip, false);
            Scanning(c, w0, w2, chunks) || Streaming(c, tag, w0, w2, chunks)
  {
    JudgeIsRight(c, chunks, false);
    ScanSendsEdited(c, tag, w0.(buf := Concat(chunks)), chunks);
  }

  lemma ScanSendsEdited(c: Config, tag: string -> string, w: Writer, chunks: seq<string>)
    requires w.buf == Concat(chunks) && w.sent == ""
    ensures match Judge(c, w.buf, false)
            case Wait => ScanHead(c, tag, w, c.clientGzip, false) == w
            case Insert(at) => HeadEnd(w.buf) == Some(at) ==>
              ScanHead(c, tag, w, c.clientGzip, false).sent == Edited(w.buf, tag(w.plan.nonce), true)
            case GiveUp(_) => ScanHead(c, tag, w, c.clientGzip, false).sent == Edited(w.buf, tag(w.plan.nonce), false)
  {
    if Judge(c, w.buf, false).Insert? {
      assert "" + w.buf[..Judge(c, w.buf, false).at] == w.buf[..Judge(c, w.buf, false).at];
    }
  }

  lemma ScanOneMore(c: Config, tag: string -> string, w0: Writer, w: Writer, chunks: seq<string>, generated: string)
    requires ScanStart(c, w0) && chunks != []
    requires Scanning(c, w0, w, chunks[..|chunks| - 1])
    ensures var w2 := Write(c, tag, w, chunks[|chunks| - 1], generated);
            Scanning(c, w0, w2, chunks) || Streaming(c, tag, w0, w2, chunks)
  {
    ScanFollows(c, tag, w0, chunks);
  }

  lemma {:induction false} WritesFollow(c: Config, tag: string -> string, w0: Writer, chunks: seq<string>,
      generated: string)
    requires ScanStart(c, w0)
    ensures var w := WriteAll(c, tag, w0, chunks, generated);
            Scanning(c, w0, w, chunks) || Streaming(c, tag, w0, w, chunks)
  {
    if chunks == [] {
      assert w0.(buf := Concat([])) == w0;
      assert !HasMeta("");
    } else {
      var n := |chunks| - 1;
      WritesFollow(c, tag, w0, chunks[..n], generated);
      var w := WriteAll(c, tag, w0, chunks[..n], generated);
      if Scanning(c, w0, w, chunks[..n]) {
        ScanOneMore(c, tag, w0, w, chunks, generated);
      } else {
        StreamOneMore(c, tag, w0, w, chunks, generated);
      }
    }
  }

  /** For every body and every way of cutting it into writes, the client gets the body with the
      tag inserted once before the first end of head, or the body unchanged. It is the former
      exactly when the document is editable and no write filled the scan window too early. */
  lemma ScanSends(c: Config, tag: string -> string, gunzip: string -> Option<string>, w0: Writer, chunks: seq<string>,
      generated: string)
    requires ScanStart(c, w0)
    ensures var w := Finish(c, tag, gunzip, WriteAll(c, tag, w0, chunks, generated));
            && w.sent == Edited(Concat(chunks), tag(w0.plan.nonce), Tagged(c, chunks))
            && w.head.Some? && (w.head.value.rum.Injected? <==> Tagged(c, chunks))
            && w.head.value.csp == (if Tagged(c, chunks) && w0.plan.changed then w0.plan.policies else w0.response.csp)
            && w.head.value.code == w0.code && w.head.value.gzip == c.clientGzip && !w.head.value.rum.Untouched?
  {
    WritesFollow(c, tag, w0, chunks, generated);
    var w := WriteAll(c, tag, w0, chunks, generated);
    if Scanning(c, w0, w, chunks) {
      JudgeIsRight(c, chunks, true);
    }
  }

  /** A body shorter than the window is edited or not by its own content alone: however it is cut,
      the client gets the same bytes. */
  lemma ChunkingIsInvisible(c: Config, tag: string -> string, gunzip: string -> Option<string>, w0: Writer,
                            chunks: seq<string>, others: seq<string>, generated: string)
    requires ScanStart(c, w0) && Concat(chunks) == Concat(others) && |Concat(chunks)| < c.maxScan
    ensures var w := Finish(c, tag, gunzip, WriteAll(c, tag, w0, chunks, generated));
            && w.sent == Finish(c, tag, gunzip, WriteAll(c, tag, w0, others, generated)).sent
            && w.sent == Edited(Concat(chunks), tag(w0.plan.nonce), Editable(Concat(chunks)))
  {
    ScanSends(c, tag, gunzip, w0, chunks, generated);
    ScanSends(c, tag, gunzip, w0, others, generated);
    if HeadEnd(Concat(chunks)).Some? {
      AllInWindow(c, chunks, HeadEnd(Concat(chunks)).value);
      AllInWindow(c, others, HeadEnd(Concat(chunks)).value);
    }
  }

  // ----- responses that are not scanned as they come -----

  lemma {:induction false} PassSends(c: Config, tag: string -> string, w0: Writer, chunks: seq<string>,
      generated: string)
    requires w0.mode.Pass?
    ensures WriteAll(c, tag, w0, chunks, generated) == w0.(sent := w0.sent + Concat(chunks))
  {
    if chunks == [] {
      assert w0.sent + "" == w0.sent;
    } else {
      PassSends(c, tag, w0, chunks[..|chunks| - 1], generated);
      var n := |chunks| - 1;
      assert w0.sent + Concat(chunks) == w0.sent + Concat(chunks[..n]) + chunks[n];
    }
  }

  lemma {:induction false} GzipHolds(c: Config, tag: string -> string, w0: Writer, chunks: seq<string>,
      generated: string)
    requires w0.mode.GzipBuffer? && w0.buf == "" && w0.sent == ""
    ensures WriteAll(c, tag, w0, chunks, generated) == Held(c, w0, Concat(chunks))
  {
    if chunks == [] {
      assert w0.(buf := Concat(chunks)) == w0;
    } else {
      var n := |chunks| - 1;
      GzipHolds(c, tag, w0, chunks[..n], generated);
      GzipOneMore(c, tag, w0, Concat(chunks[..n]), chunks[n], generated);
    }
  }

  /** What is held of a compressed body, or sent of one that is too large. */
  function Held(c: Config, w0: Writer, body: string): Writer {
    if |body| > c.maxSize then Passed(w0, Skipped("too-large")).(sent := body) else w0.(buf := body)
  }

  lemma GzipOneMore(c: Config, tag: string -> string, w0: Writer, body: string, chunk: string, generated: string)
    requires w0.mode.GzipBuffer? && w0.buf == "" && w0.sent == ""
    ensures Write(c, tag, Held(c, w0, body), chunk, generated) == Held(c, w0, body + chunk)
  {
    assert "" + (body + chunk) == body + chunk;
  }

  /** What a response becomes, whatever its header, its body and the cutting of the body: an edited
      text (of the decompressed body, then compressed again, if it came compressed), or every byte
      as it came. Only an edited document carries the rewritten policies. */
  predicate SentRight(c: Config, tag: string -> string, gunzip: string -> Option<string>, start: Writer,
      chunks: seq<string>, w: Writer)
    requires w.head.Some?
  {
    var body := Concat(chunks);
    var plain := if start.mode.GzipBuffer? then gunzip(body) else Some(body);
    var inject := match start.mode
      case Scan => Tagged(c, chunks)
      case GzipBuffer => |body| <= c.maxSize && plain.Some? && Editable(plain.value)
      case _ => false;
    && (w.head.value.rum.Injected? <==> inject)
    && w.sent == (if inject then Edited(plain.value, tag(start.plan.nonce), true)
                  else if start.mode.GzipBuffer? && |body| <= c.maxSize && plain.Some? then plain.value else body)
    && w.head.value.csp == (if inject && start.plan.changed then start.plan.policies else start.response.csp)
  }

  lemma GzipSends(c: Config, tag: string -> string, gunzip: string -> Option<string>, start: Writer,
                  chunks: seq<string>, generated: string)
    requires start.mode.GzipBuffer? && start.buf == "" && start.sent == ""
    ensures var w := Finish(c, tag, gunzip, WriteAll(c, tag, start, chunks, generated));
            w.head.Some? && SentRight(c, tag, gunzip, start, chunks, w)
  {
    GzipHolds(c, tag, start, chunks, generated);
    var body := Concat(chunks);
    if |body| <= c.maxSize && gunzip(body).Some? {
      var plain := gunzip(body).value;
      var e := HeadEnd(plain);
      assert "" + plain == plain;
      if Editable(plain) { assert "" + plain[..e.value] == plain[..e.value]; }
    } else {
      assert "" + body == body;
    }
  }

  lemma ResponseSent(c: Config, tag: string -> string, gunzip: string -> Option<string>, r: Response, code: int,
                     chunks: seq<string>, generated: string)
    requires c.maxScan > 0 && !(100 <= code < 200)
    ensures var start := WriteHeader(c, Fresh(r), code, generated);
            var w := Finish(c, tag, gunzip, WriteAll(c, tag, start, chunks, generated));
            w.head.Some? && SentRight(c, tag, gunzip, start, chunks, w)
  {
    var start := WriteHeader(c, Fresh(r), code, generated);
    match start.mode
    case Scan => ScanSends(c, tag, gunzip, start, chunks, generated);
    case GzipBuffer => GzipSends(c, tag, gunzip, start, chunks, generated);
    case _ => PassSends(c, tag, start, chunks, generated);
  }
}
