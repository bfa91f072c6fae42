/** Content-Security-Policy texts and the planner that admits one same-origin script tag. */
module Csp {
  import opened Strings
  import opened Wrappers

  // ----- text -----

  /** The Unicode white space at which policy fields are split. */
  predicate IsSpace(c: char) {
    var n := c as int;
    || 0x9 <= n <= 0xD || n == 0x20 || n == 0x85 || n == 0xA0 || n == 0x1680
    || 0x2000 <= n <= 0x200A || n == 0x2028 || n == 0x2029 || n == 0x202F || n == 0x205F || n == 0x3000
  }

  function WordEnd(s: string): (n: nat)
    ensures n <= |s| && (n < |s| ==> IsSpace(s[n]))
    ensures forall i | 0 <= i < n :: !IsSpace(s[i])
  {
    if s == "" || IsSpace(s[0]) then 0 else 1 + WordEnd(s[1..])
  }

  function Fields(s: string): (words: seq<string>)
    ensures forall w | w in words :: w != "" && forall c | c in w :: c in s && !IsSpace(c)
    decreases |s|
  {
    if s == "" then []
    else if IsSpace(s[0]) then Fields(s[1..])
    else var n := WordEnd(s); [s[..n]] + Fields(s[n..])
  }

  datatype Directive = Directive(name: string, tokens: seq<string>)

  function ParseOne(part: string): seq<Directive> {
    var f := Fields(part);
    if f == [] then [] else [Directive(ToLower(f[0]), f[1..])]
  }

  function ParseParts(parts: seq<string>): seq<Directive> {
    if parts == [] then [] else ParseParts(parts[..|parts| - 1]) + ParseOne(parts[|parts| - 1])
  }

  function Parse(policy: string): seq<Directive> { ParseParts(Split(policy, ';')) }

  function Text(d: Directive): string {
    if d.tokens == [] then d.name else d.name + " " + Join(d.tokens, " ")
  }

  function Texts(ds: seq<Directive>): seq<string> {
    seq(|ds|, i requires 0 <= i < |ds| => Text(ds[i]))
  }

  function Serialize(ds: seq<Directive>): string { Join(Texts(ds), "; ") }

  function Normalise(policy: string): string { Serialize(Parse(policy)) }

  // ----- planning -----

  predicate EqualFold(a: string, b: string) { ToLower(a) == ToLower(b) }

  predicate HasToken(tokens: seq<string>, want: string) {
    exists t | t in tokens :: EqualFold(t, want)
  }

  const NONCE_PREFIX := "'nonce-"

  predicate LooksLikeNonce(t: string) {
    |t| > 8 && NONCE_PREFIX <= ToLower(t) && t[|t| - 1] == '\''
  }

  function ExistingNonce(tokens: seq<string>): string {
    if tokens == [] then ""
    else if LooksLikeNonce(tokens[0]) then tokens[0][7..|tokens[0]| - 1]
    else ExistingNonce(tokens[1..])
  }

  predicate LooksLikeHash(t: string) {
    var lt := ToLower(t);
    "'sha256-" <= lt || "'sha384-" <= lt || "'sha512-" <= lt
  }

  predicate HasHash(tokens: seq<string>) { exists t | t in tokens :: LooksLikeHash(t) }

  predicate IsSameOrigin(t: string, host: string) {
    var lt, h := ToLower(t), ToLower(host);
    lt == "'self'" || lt == "*" || (host != "" && (lt == h || lt == "https://" + h || lt == "http://" + h))
  }

  predicate AllowsSameOrigin(tokens: seq<string>, host: string) {
    exists t | t in tokens :: IsSameOrigin(t, host)
  }

  /** The index of the first directive of that name, or |ds|. */
  function Find(ds: seq<Directive>, name: string): (i: nat)
    ensures i <= |ds| && (i < |ds| ==> ds[i].name == name)
    ensures forall j | 0 <= j < i :: ds[j].name != name
  {
    if ds == [] || ds[0].name == name then 0 else 1 + Find(ds[1..], name)
  }

  /** The index of the directive that governs a fallback chain, or |ds|. */
  function Effective(ds: seq<Directive>, chain: seq<string>): (i: nat)
    ensures i <= |ds|
    ensures i < |ds| ==> ds[i].name in chain
  {
    if chain == [] then |ds|
    else if Find(ds, chain[0]) < |ds| then Find(ds, chain[0])
    else Effective(ds, chain[1..])
  }

  const SCRIPT_CHAIN := ["script-src-elem", "script-src", "default-src"]
  const CONNECT_CHAIN := ["connect-src", "default-src"]

  predicate IsNone(tokens: seq<string>) { HasToken(tokens, "'none'") && |tokens| == 1 }

  predicate NeedsNonce(tokens: seq<string>) {
    HasToken(tokens, "'strict-dynamic'") || HasHash(tokens) || ExistingNonce(tokens) != ""
  }

  function NonceToken(nonce: string): string { NONCE_PREFIX + nonce + "'" }

  /** The source to add to the script list, if any. */
  function ScriptSource(tokens: seq<string>, host: string, nonce: string): Option<string> {
    if NeedsNonce(tokens) then if ExistingNonce(tokens) != nonce then Some(NonceToken(nonce)) else None
    else if !AllowsSameOrigin(tokens, host) then Some("'self'")
    else None
  }

  function ConnectSource(tokens: seq<string>, host: string): Option<string> {
    if AllowsSameOrigin(tokens, host) then None else Some("'self'")
  }

  /** Adds the source to the governing directive; default-src is never widened but copied
      into a directive of its own. */
  function AddSource(ds: seq<Directive>, i: nat, own: string, source: Option<string>): seq<Directive>
    requires i < |ds|
  {
    if source.None? then ds
    else
      var tokens := ds[i].tokens + [source.value];
      if ds[i].name == "default-src" then ds + [Directive(own, tokens)]
      else ds[i := ds[i].(tokens := tokens)]
  }

  function AdmitScript(ds: seq<Directive>, host: string, nonce: string): seq<Directive> {
    var i := Effective(ds, SCRIPT_CHAIN);
    if i == |ds| then ds else AddSource(ds, i, "script-src", ScriptSource(ds[i].tokens, host, nonce))
  }

  function AdmitConnect(ds: seq<Directive>, host: string): seq<Directive> {
    var i := Effective(ds, CONNECT_CHAIN);
    if i == |ds| then ds else AddSource(ds, i, "connect-src", ConnectSource(ds[i].tokens, host))
  }

  function Admit(ds: seq<Directive>, host: string, nonce: string): seq<Directive> {
    AdmitConnect(AdmitScript(ds, host, nonce), host)
  }

  datatype Plan = Plan(skip: string, nonce: string, policies: seq<string>, changed: bool)

  function Skipped(reason: string): Plan { Plan(reason, "", [], false) }

  function GoverningNonce(ds: seq<Directive>): string {
    var i := Effective(ds, SCRIPT_CHAIN);
    if i == |ds| then "" else ExistingNonce(ds[i].tokens)
  }

  /** A nonce that some policy already uses for scripts; the first one found. */
  function FirstNonce(policies: seq<string>): string {
    if policies == [] then ""
    else if GoverningNonce(Parse(policies[0])) != "" then GoverningNonce(Parse(policies[0]))
    else FirstNonce(policies[1..])
  }

  predicate ScriptsNeedNonce(ds: seq<Directive>) {
    var i := Effective(ds, SCRIPT_CHAIN);
    i < |ds| && NeedsNonce(ds[i].tokens)
  }

  predicate Forbids(ds: seq<Directive>, chain: seq<string>) {
    var i := Effective(ds, chain);
    i < |ds| && IsNone(ds[i].tokens)
  }

  function PlanOne(plan: Plan, policy: string, host: string, generated: string): Plan {
    var ds := Parse(policy);
    if Forbids(ds, SCRIPT_CHAIN) then Skipped("csp-script-none")
    else
      var nonce := if ScriptsNeedNonce(ds) && plan.nonce == "" then generated else plan.nonce;
      if Forbids(AdmitScript(ds, host, nonce), CONNECT_CHAIN) then Skipped("csp-connect-none")
      else
        var text := Serialize(Admit(ds, host, nonce));
        if text != Normalise(policy) then Plan("", nonce, plan.policies + [text], true)
        else plan.(nonce := nonce, policies := plan.policies + [policy])
  }

  function PlanEach(policies: seq<string>, host: string, nonce: string, generated: string): Plan {
    if policies == [] then Plan("", nonce, [], false)
    else
      var n := |policies| - 1;
      var plan := PlanEach(policies[..n], host, nonce, generated);
      if plan.skip != "" then plan else PlanOne(plan, policies[n], host, generated)
  }

  /** `generated` is the nonce that the generator would return. */
  function PlanCSP(policies: seq<string>, host: string, generated: string): Plan {
    PlanEach(policies, host, FirstNonce(policies), generated)
  }
}
