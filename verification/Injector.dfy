/** The response writer that inserts a tag into an HTML document while it streams through. */
module Injector {
  import opened Strings
  import opened Wrappers
  import Csp

  // ----- responses -----

  datatype Encoding = Identity | Gzip | Other(name: string)

  /** What the header decision looks at. */
  datatype Response = Response(html: bool, noTransform: bool, ranged: bool, length: Option<int>, encoding: Encoding,
                               csp: seq<string>)

  datatype Config = Config(maxScan: nat, maxSize: nat, rewriteCsp: bool, host: string, clientGzip: bool)

  datatype Rum = Untouched | Injected | Skipped(reason: string)

  /** The header as sent: the status, what it says about the tag, the policies, and whether
      the body is compressed on the way out. */
  datatype Head = Head(code: int, rum: Rum, csp: seq<string>, gzip: bool)

  datatype Mode = Undecided | Pass | Scan | GzipBuffer | Stream

  datatype Writer = Writer(mode: Mode, code: int, response: Response, plan: Csp.Plan, buf: string, sent: string,
                           head: Option<Head>)

  const NO_PLAN := Csp.Plan("", "", [], false)

  function Fresh(r: Response): Writer { Writer(Undecided, 0, r, NO_PLAN, "", "", None) }

  // ----- deciding on a response -----

  function EarlyReason(c: Config, r: Response, code: int): string {
    if code != 200 then "status"
    else if r.noTransform then "no-transform"
    else if r.ranged then "range"
    else if r.length.Some? && r.length.value > c.maxSize then "too-large"
    else if r.encoding.Other? then "encoding-" + r.encoding.name
    else if r.csp != [] && !c.rewriteCsp then "csp"
    else ""
  }

  function PlanFor(c: Config, r: Response, generated: string): Csp.Plan {
    if r.csp == [] then NO_PLAN else Csp.PlanCSP(r.csp, c.host, generated)
  }

  function Passed(w: Writer, rum: Rum): Writer {
    w.(mode := Pass, head := Some(Head(w.code, rum, w.response.csp, w.response.encoding.Gzip?)))
  }

  /** The status arrives: informational ones pass by, the first final one decides. */
  function WriteHeader(c: Config, w: Writer, code: int, generated: string): Writer
  {
    if !w.mode.Undecided? || 100 <= code < 200 then w
    else
      var w1 := w.(code := code);
      var early := EarlyReason(c, w.response, code);
      if !w.response.html then Passed(w1, Untouched)
      else if early != "" then Passed(w1, Skipped(early))
      else
        var plan := PlanFor(c, w.response, generated);
        var w2 := w1.(plan := plan);
        if plan.skip != "" then Passed(w2, Skipped(plan.skip))
        else w2.(mode := if w.response.encoding.Gzip? then GzipBuffer else Scan)
  }

  // ----- scanning -----

  const HEAD_CLOSE := "</head"
  const META_NAME := "content-security-policy"
  const META_ATTR := "http-equiv"

  lemma OccursShift(s: string, pattern: string, j: int)
    requires 1 <= j <= |s|
    ensures OccursAt(s, pattern, j) <==> OccursAt(s[1..], pattern, j - 1)
  {
    if j + |pattern| <= |s| {
      var a, b := s[j..j + |pattern|], s[1..][j - 1..j - 1 + |pattern|];
      assert forall k | 0 <= k < |pattern| :: a[k] == s[j + k] == s[1..][j - 1 + k] == b[k];
      assert a == b;
    }
  }

  /** Where `pattern` first occurs in `s`, or |s| + 1. */
  function IndexOf(s: string, pattern: string): (i: nat)
    ensures i <= |s| + 1
    ensures i <= |s| ==> OccursAt(s, pattern, i)
    ensures forall j | 0 <= j < i :: !OccursAt(s, pattern, j)
    decreases |s|
  {
    if OccursAt(s, pattern, 0) then 0
    else if s == "" then 1
    else
      var i := IndexOf(s[1..], pattern);
      assert forall j | 1 <= j < i + 1 :: !OccursAt(s, pattern, j) by {
        forall j | 1 <= j < i + 1 ensures !OccursAt(s, pattern, j) { OccursShift(s, pattern, j); }
      }
      assert i + 1 <= |s| ==> OccursAt(s, pattern, i + 1) by {
        if i + 1 <= |s| { OccursShift(s, pattern, i + 1); }
      }
      i + 1
  }

  function HeadEnd(body: string): Option<nat> {
    var i := IndexOf(ToLower(body), HEAD_CLOSE);
    if i <= |body| then Some(i) else None
  }

  predicate HasMeta(head: string) {
    Contains(ToLower(head), META_NAME) && Contains(ToLower(head), META_ATTR)
  }

  datatype Verdict = Wait | Insert(at: nat) | GiveUp(reason: string)

  function Judge(c: Config, held: string, final: bool): (v: Verdict)
    ensures v.Insert? ==> v.at <= |held|
  {
    var end := HeadEnd(held);
    if HasMeta(if end.Some? then held[..end.value] else held) then GiveUp("csp-meta")
    else if end.Some? then Insert(end.value)
    else if final || |held| >= c.maxScan then GiveUp("no-head")
    else Wait
  }

  function EditedHead(c: Config, w: Writer, gzip: bool, rum: Rum): Head {
    Head(w.code, rum, if rum.Injected? && w.plan.changed then w.plan.policies else w.response.csp, gzip)
  }

  /** Looks at what is held; once decided, sends it and streams the rest. */
  function ScanHead(c: Config, tag: string -> string, w: Writer, gzip: bool, final: bool): Writer
  {
    match Judge(c, w.buf, final)
    case Wait => w
    case Insert(at) =>
      w.(mode := Stream, buf := "", sent := w.sent + w.buf[..at] + tag(w.plan.nonce) + w.buf[at..],
         head := Some(EditedHead(c, w, gzip, Injected)))
    case GiveUp(reason) =>
      w.(mode := Stream, buf := "", sent := w.sent + w.buf, head := Some(EditedHead(c, w, gzip, Skipped(reason))))
  }

  function Write(c: Config, tag: string -> string, w: Writer, p: string, generated: string): Writer
  {
    var w1 := WriteHeader(c, w, 200, generated);
    match w1.mode
    case Undecided => w1
    case Pass => w1.(sent := w1.sent + p)
    case Stream => w1.(sent := w1.sent + p)
    case GzipBuffer =>
      if |w1.buf| + |p| > c.maxSize then Passed(w1, Skipped("too-large")).(buf := "", sent := w1.sent + w1.buf + p)
      else w1.(buf := w1.buf + p)
    case Scan => ScanHead(c, tag, w1.(buf := w1.buf + p), c.clientGzip, false)
  }

  function Finish(c: Config, tag: string -> string, gunzip: string -> Option<string>, w: Writer): Writer
  {
    match w.mode
    case Scan => ScanHead(c, tag, w, c.clientGzip, true)
    case GzipBuffer =>
      var plain := gunzip(w.buf);
      if plain.None? then Passed(w, Skipped("bad-gzip")).(sent := w.sent + w.buf)
      else ScanHead(c, tag, w.(buf := plain.value), true, true)
    case _ => w
  }

  function WriteAll(c: Config, tag: string -> string, w: Writer, chunks: seq<string>, generated: string): Writer
  {
    if chunks == [] then w
    else Write(c, tag, WriteAll(c, tag, w, chunks[..|chunks| - 1], generated), chunks[|chunks| - 1], generated)
  }

  function Concat(chunks: seq<string>): string {
    if chunks == [] then "" else Concat(chunks[..|chunks| - 1]) + chunks[|chunks| - 1]
  }

  // ----- the object -----

  class InjectWriter {
    const c: Config
    const tag: string -> string
    const gunzip: string -> Option<string>
    const response: Response
    var mode: Mode
    var code: int
    var plan: Csp.Plan
    var buf: string
    var sent: string
    var head: Option<Head>

    constructor (c: Config, tag: string -> string, gunzip: string -> Option<string>, response: Response)
      ensures this.c == c && this.tag == tag && this.gunzip == gunzip && View() == Fresh(response)
    {
      this.c, this.tag, this.gunzip, this.response := c, tag, gunzip, response;
      mode, code, plan, buf, sent, head := Undecided, 0, NO_PLAN, "", "", None;
    }

    ghost function View(): Writer
      reads this
    {
      Writer(mode, code, response, plan, buf, sent, head)
    }

    method PassOn(rum: Rum)
      modifies this
      ensures View() == Passed(old(View()), rum)
    {
      mode := Pass;
      head := Some(Head(code, rum, response.csp, response.encoding.Gzip?));
    }

    method OnHeader(status: int, generated: string)
      modifies this
      ensures View() == WriteHeader(c, old(View()), status, generated)
    {
      if mode != Undecided || 100 <= status < 200 { return; }
      code := status;
      if !response.html {
        PassOn(Untouched);
        return;
      }
      var reason := EarlyReason(c, response, status);
      if reason == "" && response.csp != [] {
        plan := Csp.PlanCSP(response.csp, c.host, generated);
        reason := plan.skip;
      } else if reason == "" {
        plan := NO_PLAN;
      }
      if reason != "" {
        PassOn(Skipped(reason));
        return;
      }
      mode := if response.encoding.Gzip? then GzipBuffer else Scan;
    }

    method Scanned(gzip: bool, final: bool)
      modifies this
      ensures View() == ScanHead(c, tag, old(View()), gzip, final)
    {
      var verdict := Judge(c, buf, final);
      if verdict.Wait? { return; }
      mode := Stream;
      if verdict.Insert? {
        head := Some(Head(code, Injected, if plan.changed then plan.policies else response.csp, gzip));
        sent := sent + buf[..verdict.at];
        sent := sent + tag(plan.nonce);
        sent := sent + buf[verdict.at..];
      } else {
        head := Some(Head(code, Skipped(verdict.reason), response.csp, gzip));
        sent := sent + buf;
      }
      buf := "";
    }

    method OnWrite(p: string, generated: string)
      modifies this
      ensures View() == Write(c, tag, old(View()), p, generated)
    {
      if mode == Undecided { OnHeader(200, generated); }
      match mode
      case Undecided =>
      case Pass => sent := sent + p;
      case Stream => sent := sent + p;
      case GzipBuffer =>
        if |buf| + |p| > c.maxSize {
          PassOn(Skipped("too-large"));
          sent := sent + buf;
          buf := "";
          sent := sent + p;
        } else {
          buf := buf + p;
        }
      case Scan =>
        buf := buf + p;
        Scanned(c.clientGzip, false);
    }

    method OnFinish()
      modifies this
      ensures View() == Finish(c, tag, gunzip, old(View()))
    {
      if mode == Scan {
        Scanned(c.clientGzip, true);
      } else if mode == GzipBuffer {
        var plain := gunzip(buf);
        if plain.None? {
          PassOn(Skipped("bad-gzip"));
          sent := sent + buf;
        } else {
          buf := plain.value;
          Scanned(true, true);
        }
      }
    }
  }
}
