/** Policies on which the planner does less than it is meant to. */
module CspExamples {
  import opened Strings
  import opened Wrappers
  import opened Csp
  import opened CspText
  import opened CspMeaning
  import opened CspPlan
  import opened CspTheorems

  // ----- where the tokens are malformed -----

  function OneScriptPolicy(tokens: seq<string>): seq<string> { [Serialize([Directive("script-src", tokens)])] }

  lemma OneScriptLists(tokens: seq<string>)
    requires forall t | t in tokens :: Word(t)
    ensures var ds := Parse(OneScriptPolicy(tokens)[0]);
            SourceList(ds, ScriptElem) == Some(tokens) && SourceList(ds, Connect) == None
  {
    OwnWords();
    var ds := [Directive("script-src", tokens)];
    ReadsBack(ds);
    ListsUnrolled(ds);
    assert ds[1..] == [];
  }

  lemma OneScriptPlan(tokens: seq<string>, host: string, generated: string, plan: Plan)
    requires IsBase64(generated) && !IsNone(tokens) && (forall t | t in tokens :: Word(t))
    requires plan == PlanCSP(OneScriptPolicy(tokens), host, generated)
    ensures plan.skip == "" && |plan.policies| == 1
    ensures SourceList(Parse(plan.policies[0]), ScriptElem)
        == Plus(Some(tokens), ScriptSource(tokens, host, plan.nonce))
    ensures plan.nonce == if ExistingNonce(tokens) != "" then ExistingNonce(tokens)
                          else if NeedsNonce(tokens) then generated else ""
  {
    var ps := OneScriptPolicy(tokens);
    var ds := Parse(ps[0]);
    OneScriptLists(tokens);
    GoverningLists(ds);
    PlanRefusesIff(ps, host, generated);
    OneNonce(ps);
    Base64IsSafe(generated);
    FirstNonceIsSafe(ps);
    PlanRewrites(ps, host, FirstNonce(ps), generated, plan);
    PlanPolicy(ps, host, generated, plan, 0);
    AdmitLists(ds, host, plan.nonce, ScriptElem);
  }

  lemma AnyOfOne(xs: seq<string>, f: string -> bool)
    requires |xs| == 1
    ensures Any(xs, f) <==> f(xs[0])
  {}

  lemma OneNonce(ps: seq<string>)
    requires |ps| == 1
    ensures FirstNonce(ps) == GoverningNonce(Parse(ps[0])) && (Any(ps, Needs) <==> Needs(ps[0]))
  {
    assert ps[1..] == [] && FirstNonce([]) == "";
    AnyOfOne(ps, Needs);
  }

  /** Any token that begins like a nonce but is none by the grammar is taken for the page's nonce:
      where it stands alone nothing is added to the list, and the browser refuses the tag. */
  lemma MalformedNonceLosesTag(page: Page, generated: string, t: string, plan: Plan)
    requires IsBase64(generated) && IsHost(page.host) && Word(t) && LooksLikeNonce(t) && !IsNonceSource(t)
    requires plan == PlanCSP(OneScriptPolicy([t]), page.host, generated)
    ensures plan.skip == "" && |plan.policies| == 1
    ensures !AdmitsTag(SourceList(Parse(plan.policies[0]), ScriptElem), plan.nonce, page)
  {
    NonceLikeReads(t);
    OneScriptPlan([t], page.host, generated, plan);
    QuotedMatchesNothing(t, page);
    OneTokenRefused(t, plan.nonce, page);
  }

  lemma NonceLikeReads(t: string)
    requires LooksLikeNonce(t)
    ensures t[0] == '\'' && ToLower(t)[1] == 'n' && !IsNone([t]) && ExistingNonce([t]) == t[7..|t| - 1] != ""
  {
    var lt := ToLower(t);
    assert lt[..7] == NONCE_PREFIX;
    assert lt[0] == '\'' && lt[1] == 'n' && lt[4] == 'c' && ToLower("'none'")[4] == 'e';
  }

  lemma OneTokenRefused(t: string, nonce: string, page: Page)
    requires !IsNonceSource(t) && !MatchesOrigin(t, page)
    ensures !AdmitsTag(Some([t]), nonce, page)
  {
  }

  lemma MalformedNonceExample(t: string)
    requires t == "'nonce-$'"
    ensures Word(t) && LooksLikeNonce(t) && !IsNonceSource(t)
  {
    assert ToLower(t) == t && t[7..|t| - 1] == "$";
    assert DropPad("$") == "$" && '$' in "$";
  }

  /** A token that begins like a hash but is none by the grammar makes the planner add a nonce,
      and the page's inline scripts, which ran before, stop running. */
  lemma MalformedHashStopsInline(host: string, generated: string, tokens: seq<string>, plan: Plan)
    requires IsBase64(generated)
    requires tokens == ["'unsafe-inline'", "'sha256-"] && plan == PlanCSP(OneScriptPolicy(tokens), host, generated)
    ensures plan.skip == "" && |plan.policies| == 1
    ensures AllowsInline(tokens) && !InlineRuns(SourceList(Parse(plan.policies[0]), ScriptElem))
  {
    MalformedHash(tokens);
    OneScriptPlan(tokens, host, generated, plan);
    InlineKeptIff(tokens, host, generated);
  }

  lemma UnsafeInlineToken(a: string)
    requires a == "'unsafe-inline'"
    ensures ToLower(a) == a && Word(a) && !LooksLikeNonce(a) && !LooksLikeHash(a) && !EqualFold(a, "'strict-dynamic'")
  {
    assert ToLower(a) == a && a[1] == 'u' && ToLower("'strict-dynamic'")[1] == 's';
  }

  lemma CutHashToken(b: string)
    requires b == "'sha256-"
    ensures ToLower(b) == b && Word(b) && !LooksLikeNonce(b) && LooksLikeHash(b) && !IsHashSource(b)
    ensures !EqualFold(b, "'strict-dynamic'")
  {
    assert ToLower(b) == b && b[2] == 'h' && ToLower("'strict-dynamic'")[2] == 't';
  }

  lemma MalformedHash(tokens: seq<string>)
    requires tokens == ["'unsafe-inline'", "'sha256-"]
    ensures AllowsInline(tokens) && NeedsNonce(tokens) && ExistingNonce(tokens) == "" && !IsNone(tokens)
    ensures forall t | t in tokens :: Word(t)
  {
    var a, b := tokens[0], tokens[1];
    UnsafeInlineToken(a);
    CutHashToken(b);
    assert a in tokens && b in tokens && EqualFold(a, "'unsafe-inline'");
    assert tokens[1..] == [b] && ExistingNonce([b]) == ExistingNonce([b][1..]);
  }

  // ----- an http page named by its https address -----

  /** A token without quotes is no keyword, nonce or hash. */
  lemma PlainToken(t: string)
    requires t != "" && t[0] != '\''
    ensures !LooksLikeNonce(t) && !LooksLikeHash(t) && !EqualFold(t, "'none'") && !EqualFold(t, "'strict-dynamic'")
  {
    var lt := ToLower(t);
    assert lt[0] != '\'' && NONCE_PREFIX[0] == "'sha256-"[0] == "'sha384-"[0] == "'sha512-"[0] == '\'';
    assert ToLower("'none'")[0] == ToLower("'strict-dynamic'")[0] == '\'';
  }

  lemma HttpsMisses(t: string, page: Page)
    requires !page.https && page.host != "" && ToLower(t) == "https://" + ToLower(page.host)
    ensures !MatchesOrigin(t, page) && IsSameOrigin(t, page.host) && t != "" && t[0] != '\''
  {
    var lt, h := ToLower(t), ToLower(page.host);
    HttpSchemes(h);
    assert lt[0] == 'h' && lt[4] == 's' && |lt| > 8;
    assert lt[0] == LowerChar(t[0]);
  }

  lemma OnlyHttps(t: string, page: Page)
    requires !page.https && page.host != "" && ToLower(t) == "https://" + ToLower(page.host)
    ensures !NeedsNonce([t]) && !IsNone([t]) && OnlyByHttps([t], page)
  {
    HttpsMisses(t, page);
    PlainToken(t);
    assert [t][1..] == [] && ExistingNonce([]) == "" && t in [t];
  }

  /** An http page whose list has it by its https address only: the planner adds nothing, and the
      browser refuses the tag. */
  lemma HttpsAddressLosesTag(page: Page, generated: string, t: string)
    requires IsBase64(generated) && IsHost(page.host) && page.host != "" && !page.https
    requires Word(t) && ToLower(t) == "https://" + ToLower(page.host)
    ensures var plan := PlanCSP(OneScriptPolicy([t]), page.host, generated);
            && plan.skip == "" && |plan.policies| == 1
            && !AdmitsTag(SourceList(Parse(plan.policies[0]), ScriptElem), plan.nonce, page)
  {
    var plan := PlanCSP(OneScriptPolicy([t]), page.host, generated);
    OnlyHttps(t, page);
    OneScriptLists([t]);
    OneScriptPlan([t], page.host, generated, plan);
    PlanAdmitsIff(OneScriptPolicy([t]), page, generated, 0);
  }

  // ----- two policies with a nonce each -----

  lemma NonceAlone(nonce: string)
    requires Safe(nonce) && nonce != ""
    ensures var list := [NonceToken(nonce)];
            NeedsNonce(list) && ExistingNonce(list) == nonce && !IsNone(list) && forall t | t in list :: Word(t)
  {
    NonceTokenReads(nonce);
    assert [NonceToken(nonce)][1..] == [];
  }

  function TwoPolicies(a: string, b: string): seq<string> {
    OneScriptPolicy([NonceToken(a)]) + OneScriptPolicy([NonceToken(b)])
  }

  lemma OneNonceReads(nonce: string, policy: string)
    requires Safe(nonce) && nonce != "" && policy == OneScriptPolicy([NonceToken(nonce)])[0]
    ensures GoverningNonce(Parse(policy)) == nonce && !ByNone(policy)
  {
    NonceAlone(nonce);
    OneScriptLists([NonceToken(nonce)]);
    GoverningLists(Parse(policy));
  }

  lemma OneNonceDisagrees(nonce: string, policy: string, other: string)
    requires Safe(nonce) && nonce != "" && policy == OneScriptPolicy([NonceToken(nonce)])[0] && other != nonce
    ensures Disagreement(other)(policy)
  {
    NonceAlone(nonce);
    OneScriptLists([NonceToken(nonce)]);
  }

  lemma AnyOfTwo(x: string, y: string, f: string -> bool)
    ensures Any([x, y], f) <==> f(x) || f(y)
  {
    assert [x, y][0] == x && [x, y][1] == y;
  }

  lemma TwoPoliciesRead(a: string, b: string, policies: seq<string>)
    requires Safe(a) && Safe(b) && a != "" && b != "" && a != b && policies == TwoPolicies(a, b)
    ensures FirstNonce(policies) == a && !Any(policies, ByNone) && Any(policies, Disagreement(a))
  {
    var x, y := OneScriptPolicy([NonceToken(a)])[0], OneScriptPolicy([NonceToken(b)])[0];
    assert policies == [x, y];
    OneNonceReads(a, x);
    OneNonceReads(b, y);
    OneNonceDisagrees(b, y, a);
    AnyOfTwo(x, y, ByNone);
    AnyOfTwo(x, y, Disagreement(a));
  }

  /** Whatever the two nonces are, planning the planned policies again adds one a second time. */
  lemma TwoNoncesGrow(a: string, b: string, host: string, generated: string, generated2: string)
    requires Safe(a) && Safe(b) && a != "" && b != "" && a != b && IsBase64(generated) && IsBase64(generated2)
    ensures var plan := PlanCSP(TwoPolicies(a, b), host, generated);
            plan.skip == "" && PlanCSP(plan.policies, host, generated2).changed
  {
    var policies := TwoPolicies(a, b);
    TwoPoliciesRead(a, b, policies);
    PlanRefusesIff(policies, host, generated);
    Base64IsSafe(generated);
    PlanRewrites(policies, host, a, generated, PlanCSP(policies, host, generated));
    PlanTwiceIff(policies, host, generated, generated2);
  }
}
