/** What becomes of a whole response, in terms of the response alone: which ones get the tag, and that
    every other one is left as it came. */
module InjectorAnswers {
  import opened Strings
  import opened Wrappers
  import opened Injector
  import opened InjectorProofs
  import Csp

  // ----- what the scan looks for -----

  /** A document can be edited if and only if it has a "</head", in any case, and no policy of its own
      in a meta element before the first one. */
  lemma EditableIff(body: string)
    ensures Editable(body) <==>
              exists i: nat :: FirstAt(ToLower(body), "</head", i)
                && !(Contains(ToLower(body[..i]), "content-security-policy")
                   && Contains(ToLower(body[..i]), "http-equiv"))
  {
    if HeadEnd(body).Some? {
      assert FirstAt(ToLower(body), "</head", HeadEnd(body).value);
    }
  }

  predicate FirstAt(s: string, pattern: string, i: nat) {
    i <= |s| && OccursAt(s, pattern, i) && forall j | 0 <= j < i :: !OccursAt(s, pattern, j)
  }

  /** The tag goes right before that "</head", and nothing else of the document changes. */
  lemma EditedAt(body: string, tag: string, i: nat)
    requires FirstAt(ToLower(body), "</head", i)
    ensures Edited(body, tag, true) == body[..i] + tag + body[i..]
  {
  }

  // ----- which responses get the tag -----

  /** The run of a response: its status, its body in pieces, and the end of the body. */
  function Respond(c: Config, tag: string -> string, gunzip: string -> Option<string>, r: Response, code: int,
                   chunks: seq<string>, generated: string): Writer
  {
    Finish(c, tag, gunzip, WriteAll(c, tag, WriteHeader(c, Fresh(r), code, generated), chunks, generated))
  }

  /** A whole document of a known encoding that may be transformed and is not declared too large. */
  predicate Candidate(c: Config, r: Response, code: int) {
    && r.html && code == 200 && !r.noTransform && !r.ranged && (r.length.Some? ==> r.length.value <= c.maxSize)
    && (r.encoding == Identity || r.encoding == Gzip)
  }

  function PlanOf(c: Config, r: Response, generated: string): Csp.Plan {
    if r.csp == [] then Csp.Plan("", "", [], false) else Csp.PlanCSP(r.csp, c.host, generated)
  }

  /** Its policies, if it has any, may be rewritten and can be made to admit the tag. */
  predicate PoliciesLetIt(c: Config, r: Response, generated: string) {
    r.csp == [] || (c.rewriteCsp && PlanOf(c, r, generated).skip == "")
  }

  /** The text to edit: the body itself, or what it decompresses to. */
  function Plain(r: Response, gunzip: string -> Option<string>, body: string): Option<string> {
    if r.encoding == Gzip then gunzip(body) else Some(body)
  }

  /** The body takes the tag. */
  predicate BodyTakesIt(c: Config, r: Response, gunzip: string -> Option<string>, chunks: seq<string>) {
    if r.encoding == Gzip then
      |Concat(chunks)| <= c.maxSize && gunzip(Concat(chunks)).Some? && Editable(gunzip(Concat(chunks)).value)
    else Tagged(c, chunks)
  }

  predicate GetsTag(c: Config, r: Response, code: int, gunzip: string -> Option<string>, chunks: seq<string>,
      generated: string) {
    Candidate(c, r, code) && PoliciesLetIt(c, r, generated) && BodyTakesIt(c, r, gunzip, chunks)
  }

  /** What the header decides, by the mode it leaves the writer in. */
  lemma HeaderDecides(c: Config, r: Response, code: int, generated: string, start: Writer)
    requires start == WriteHeader(c, Fresh(r), code, generated) && !(100 <= code < 200)
    ensures start.code == code && start.response == r && start.sent == "" && start.buf == ""
    ensures start.mode.Scan? || start.mode.GzipBuffer? <==> Candidate(c, r, code) && PoliciesLetIt(c, r, generated)
    ensures start.mode.GzipBuffer? ==> r.encoding == Gzip
    ensures start.mode.Scan? ==> r.encoding == Identity
    ensures start.mode.Scan? || start.mode.GzipBuffer? ==> start.plan == PlanOf(c, r, generated)
    ensures !(start.mode.Scan? || start.mode.GzipBuffer?) ==>
              start.mode.Pass? && start.head.Some?
              && start.head.value == Head(code, start.head.value.rum, r.csp, r.encoding == Gzip)
              && !start.head.value.rum.Injected? && (start.head.value.rum.Untouched? <==> !r.html)
  {
  }

  /** A response gets the tag if and only if it is a candidate, its policies let it and its body takes
      it; then it is the edited text with the rewritten policies, and says so. */
  lemma InjectedIff(c: Config, tag: string -> string, gunzip: string -> Option<string>, r: Response, code: int,
                    chunks: seq<string>, generated: string, w: Writer)
    requires c.maxScan > 0 && !(100 <= code < 200) && w == Respond(c, tag, gunzip, r, code, chunks, generated)
    ensures w.head.Some? && w.head.value.code == code
    ensures w.head.value.rum.Injected? <==> GetsTag(c, r, code, gunzip, chunks, generated)
    ensures w.head.value.rum.Untouched? <==> !r.html
    ensures var plan := PlanOf(c, r, generated);
            if GetsTag(c, r, code, gunzip, chunks, generated) then
              && w.sent == Edited(Plain(r, gunzip, Concat(chunks)).value, tag(plan.nonce), true)
              && w.head.value.csp == if plan.changed then plan.policies else r.csp
            else w.head.value.csp == r.csp
  {
    var start := WriteHeader(c, Fresh(r), code, generated);
    HeaderDecides(c, r, code, generated, start);
    match start.mode
    case Scan => ScanSends(c, tag, gunzip, start, chunks, generated);
    case GzipBuffer =>
      GzipSends(c, tag, gunzip, start, chunks, generated);
      GzipHeads(c, tag, gunzip, start, chunks, generated);
    case _ => PassSends(c, tag, start, chunks, generated);
  }

  lemma GzipHeads(c: Config, tag: string -> string, gunzip: string -> Option<string>, start: Writer,
      chunks: seq<string>,
                  generated: string)
    requires start.mode.GzipBuffer? && start.buf == "" && start.sent == "" && start.response.encoding == Gzip
    ensures var w := Finish(c, tag, gunzip, WriteAll(c, tag, start, chunks, generated));
            w.head.Some? && w.head.value.code == start.code && w.head.value.gzip && !w.head.value.rum.Untouched?
  {
    GzipHolds(c, tag, start, chunks, generated);
  }

  /** Every other response keeps its policies and its text: byte for byte as it came, except that a
      compressed one that was opened in vain is sent as its own text, compressed again. */
  lemma LeftAlone(c: Config, tag: string -> string, gunzip: string -> Option<string>, r: Response, code: int,
                  chunks: seq<string>, generated: string, w: Writer)
    requires c.maxScan > 0 && !(100 <= code < 200) && w == Respond(c, tag, gunzip, r, code, chunks, generated)
    requires !GetsTag(c, r, code, gunzip, chunks, generated)
    ensures w.sent == Concat(chunks) ||
              (r.encoding == Gzip && Candidate(c, r, code) && PoliciesLetIt(c, r, generated)
               && gunzip(Concat(chunks)) == Some(w.sent))
    ensures !Candidate(c, r, code) || !PoliciesLetIt(c, r, generated) ==> w.sent == Concat(chunks)
    ensures w.head.Some? && w.head.value.csp == r.csp
  {
    var start := WriteHeader(c, Fresh(r), code, generated);
    HeaderDecides(c, r, code, generated, start);
    match start.mode
    case Scan => ScanSends(c, tag, gunzip, start, chunks, generated);
    case GzipBuffer => GzipSends(c, tag, gunzip, start, chunks, generated);
    case _ => PassSends(c, tag, start, chunks, generated);
  }

  /** The body is compressed on the way out exactly when it came compressed, or was scanned for a
      client that takes compressed ones. */
  lemma CompressedIff(c: Config, tag: string -> string, gunzip: string -> Option<string>, r: Response, code: int,
                      chunks: seq<string>, generated: string, w: Writer)
    requires c.maxScan > 0 && !(100 <= code < 200) && w == Respond(c, tag, gunzip, r, code, chunks, generated)
    ensures w.head.Some? &&
            (w.head.value.gzip <==>
               r.encoding == Gzip ||
               (c.clientGzip && r.encoding == Identity && Candidate(c, r, code) && PoliciesLetIt(c, r, generated)))
  {
    var start := WriteHeader(c, Fresh(r), code, generated);
    HeaderDecides(c, r, code, generated, start);
    match start.mode
    case Scan => ScanSends(c, tag, gunzip, start, chunks, generated);
    case GzipBuffer => GzipHeads(c, tag, gunzip, start, chunks, generated);
    case _ => PassSends(c, tag, start, chunks, generated);
  }

  /** An html response that is not scanned says why: the first of these reasons. */
  lemma HeaderSaysWhy(c: Config, r: Response, code: int, generated: string, start: Writer)
    requires start == WriteHeader(c, Fresh(r), code, generated) && !(100 <= code < 200) && r.html
    requires !(Candidate(c, r, code) && PoliciesLetIt(c, r, generated))
    ensures start.head.Some? && start.head.value.rum ==
              Skipped(if code != 200 then "status"
                      else if r.noTransform then "no-transform"
                      else if r.ranged then "range"
                      else if r.length.Some? && r.length.value > c.maxSize then "too-large"
                      else if r.encoding.Other? then "encoding-" + r.encoding.name
                      else if !c.rewriteCsp then "csp"
                      else PlanOf(c, r, generated).skip)
  {
  }

  // ----- the status -----

  /** Informational statuses pass by, a second final one is ignored, and a body without one is a 200. */
  lemma FirstFinalStatus(c: Config, r: Response, info: int, code: int, later: int, generated: string)
    requires 100 <= info < 200 && !(100 <= code < 200)
    ensures WriteHeader(c, Fresh(r), info, generated) == Fresh(r)
    ensures var w := WriteHeader(c, Fresh(r), code, generated); WriteHeader(c, w, later, generated) == w
  {
  }

  lemma {:induction false} BodyMeansOk(c: Config, tag: string -> string, r: Response, chunks: seq<string>,
      generated: string)
    requires chunks != []
    ensures WriteAll(c, tag, Fresh(r), chunks, generated)
            == WriteAll(c, tag, WriteHeader(c, Fresh(r), 200, generated), chunks, generated)
  {
    var n := |chunks| - 1;
    FirstFinalStatus(c, r, 100, 200, 200, generated);
    if n == 0 {
      assert chunks[..0] == [];
    } else {
      BodyMeansOk(c, tag, r, chunks[..n], generated);
    }
  }
}
