/** Planning all the policies of a response. */
module CspTheorems {
  import opened Strings
  import opened Wrappers
  import opened Csp
  import opened CspText
  import opened CspMeaning
  import opened CspPlan

  /** A nonce that can stand in a policy text. */
  predicate Safe(nonce: string) { Word(NonceToken(nonce)) }

  lemma Base64IsSafe(nonce: string)
    requires IsBase64(nonce)
    ensures Safe(nonce)
  {
    var t := NonceToken(nonce);
    forall c | c in nonce ensures c != ';' && !IsSpace(c) {
      assert c == '=' || c in DropPad(DropPad(nonce));
    }
    forall c | c in t ensures c != ';' && !IsSpace(c) {
      assert c in NONCE_PREFIX || c in nonce || c == '\'';
    }
  }

  lemma AddSourceIsClean(ds: seq<Directive>, i: nat, own: string, source: Option<string>)
    requires Clean(ds) && i < |ds| && Word(own) && ToLower(own) == own && (source.Some? ==> Word(source.value))
    ensures Clean(AddSource(ds, i, own, source))
  {
    assert CleanDirective(ds[i]);
    if source.Some? {
      forall d | d in AddSource(ds, i, own, source) ensures CleanDirective(d) {
        assert d in ds || d.tokens == ds[i].tokens + [source.value];
      }
    }
  }

  lemma OwnWords()
    ensures Word("script-src") && ToLower("script-src") == "script-src"
    ensures Word("connect-src") && ToLower("connect-src") == "connect-src"
    ensures Word("'self'")
  {
  }

  lemma AdmitScriptIsClean(ds: seq<Directive>, host: string, nonce: string)
    requires Clean(ds) && (ScriptsNeedNonce(ds) ==> Safe(nonce))
    ensures Clean(AdmitScript(ds, host, nonce))
  {
    OwnWords();
    var i := Effective(ds, SCRIPT_CHAIN);
    if i < |ds| { AddSourceIsClean(ds, i, "script-src", ScriptSource(ds[i].tokens, host, nonce)); }
  }

  lemma AdmitIsClean(ds: seq<Directive>, host: string, nonce: string)
    requires Clean(ds) && (ScriptsNeedNonce(ds) ==> Safe(nonce))
    ensures Clean(Admit(ds, host, nonce))
  {
    OwnWords();
    AdmitScriptIsClean(ds, host, nonce);
    var ds2 := AdmitScript(ds, host, nonce);
    var i := Effective(ds2, CONNECT_CHAIN);
    if i < |ds2| { AddSourceIsClean(ds2, i, "connect-src", ConnectSource(ds2[i].tokens, host)); }
  }

  lemma ForbidsSameConnect(ds: seq<Directive>, host: string, nonce: string)
    ensures Forbids(AdmitScript(ds, host, nonce), CONNECT_CHAIN) == Forbids(ds, CONNECT_CHAIN)
  {
    GoverningLists(ds);
    GoverningLists(AdmitScript(ds, host, nonce));
    AdmitScriptOthers(ds, host, nonce, Connect);
  }

  predicate Refused(policy: string) {
    Forbids(Parse(policy), SCRIPT_CHAIN) || Forbids(Parse(policy), CONNECT_CHAIN)
  }

  predicate Needs(policy: string) { ScriptsNeedNonce(Parse(policy)) }

  /** A policy and what the plan makes of it. */
  predicate Rewritten(policy: string, out: string, host: string, nonce: string) {
    && Parse(out) == Admit(Parse(policy), host, nonce)
    && (Parse(out) == Parse(policy) ==> out == policy)
    && (Needs(policy) ==> nonce != "")
  }

  // ----- lists of policies -----

  predicate Any(xs: seq<string>, f: string -> bool) { exists i | 0 <= i < |xs| :: f(xs[i]) }

  predicate AnyPair(xs: seq<string>, ys: seq<string>, f: (string, string) -> bool)
    requires |xs| == |ys|
  {
    exists i | 0 <= i < |xs| :: f(xs[i], ys[i])
  }

  predicate AllPairs(xs: seq<string>, ys: seq<string>, f: (string, string) -> bool)
    requires |xs| == |ys|
  {
    forall i | 0 <= i < |xs| :: f(xs[i], ys[i])
  }

  lemma AnyOneMore(xs: seq<string>, n: nat, f: string -> bool)
    requires |xs| == n + 1
    ensures Any(xs, f) <==> Any(xs[..n], f) || f(xs[n])
  {
    forall i | 0 <= i < n ensures xs[..n][i] == xs[i] {}
    if Any(xs[..n], f) {
      var i :| 0 <= i < n && f(xs[..n][i]);
      assert f(xs[i]);
    }
  }

  lemma AnyPairOneMore(xs: seq<string>, ys: seq<string>, n: nat, f: (string, string) -> bool)
    requires |xs| == |ys| == n + 1
    ensures AnyPair(xs, ys, f) <==> AnyPair(xs[..n], ys[..n], f) || f(xs[n], ys[n])
  {
    if AnyPair(xs[..n], ys[..n], f) {
      var i :| 0 <= i < n && f(xs[..n][i], ys[..n][i]);
      assert f(xs[i], ys[i]);
    }
    if AnyPair(xs, ys, f) {
      var i :| 0 <= i <= n && f(xs[i], ys[i]);
      assert i < n ==> f(xs[..n][i], ys[..n][i]);
    }
  }

  lemma AllPairsOneMore(xs: seq<string>, ys: seq<string>, n: nat, f: (string, string) -> bool,
      g: (string, string) -> bool)
    requires |xs| == |ys| == n + 1 && AllPairs(xs[..n], ys[..n], f) && g(xs[n], ys[n])
    requires forall x, y | f(x, y) :: g(x, y)
    ensures AllPairs(xs, ys, g)
  {
    forall i | 0 <= i < n ensures g(xs[i], ys[i]) {
      assert f(xs[..n][i], ys[..n][i]);
    }
  }

  function Rewrites(host: string, nonce: string): (string, string) -> bool {
    (policy, out) => Rewritten(policy, out, host, nonce)
  }

  predicate Changes(policy: string, out: string) { Parse(out) != Parse(policy) }

  // ----- the whole plan -----

  lemma PlanOneRewrites(plan: Plan, policy: string, host: string, generated: string, next: Plan)
    requires Safe(generated) && Safe(plan.nonce) && generated != "" && plan.skip == ""
    requires next == PlanOne(plan, policy, host, generated)
    ensures next.skip != "" <==> Refused(policy)
    ensures next.skip == "" ==>
              && next.nonce == (if Needs(policy) && plan.nonce == "" then generated else plan.nonce)
              && |next.policies| == |plan.policies| + 1 && next.policies[..|plan.policies|] == plan.policies
              && Rewritten(policy, next.policies[|plan.policies|], host, next.nonce)
              && (next.changed <==> plan.changed || Parse(next.policies[|plan.policies|]) != Parse(policy))
  {
    var ds := Parse(policy);
    var nonce := if ScriptsNeedNonce(ds) && plan.nonce == "" then generated else plan.nonce;
    ForbidsSameConnect(ds, host, nonce);
    ParseIsClean(policy);
    var ds2 := Admit(ds, host, nonce);
    AdmitIsClean(ds, host, nonce);
    ReadsBack(ds2);
    if Serialize(ds2) == Normalise(policy) { SerializeInjective(ds2, ds); }
  }

  lemma NonceUnused(host: string, nonce: string, later: string)
    requires nonce == "" || nonce == later
    ensures forall policy, out | Rewrites(host, nonce)(policy, out) :: Rewrites(host, later)(policy, out)
  {
    forall policy, out | Rewrites(host, nonce)(policy, out) ensures Rewrites(host, later)(policy, out) {
      var ds := Parse(policy);
      assert !ScriptsNeedNonce(ds) ==> AdmitScript(ds, host, nonce) == AdmitScript(ds, host, later);
    }
  }

  lemma RewritesOneMore(policies: seq<string>, outs: seq<string>, n: nat, host: string, nonce: string, later: string)
    requires |policies| == |outs| == n + 1 && AllPairs(policies[..n], outs[..n], Rewrites(host, nonce))
    requires Rewritten(policies[n], outs[n], host, later)
    requires forall policy, out | Rewrites(host, nonce)(policy, out) :: Rewrites(host, later)(policy, out)
    ensures AllPairs(policies, outs, Rewrites(host, later))
  {
    AllPairsOneMore(policies, outs, n, Rewrites(host, nonce), Rewrites(host, later));
  }

  /** The plan, policy by policy: it is refused exactly when some policy forbids scripts or
      connections outright; otherwise every policy is rewritten with the one nonce of the plan. */
  lemma {:induction false} PlanRewrites(policies: seq<string>, host: string, nonce: string, generated: string,
      plan: Plan)
    requires Safe(generated) && Safe(nonce) && generated != "" && plan == PlanEach(policies, host, nonce, generated)
    ensures plan.skip != "" <==> Any(policies, Refused)
    ensures plan.skip == "" ==> |plan.policies| == |policies|
    ensures plan.skip == "" ==> AllPairs(policies, plan.policies, Rewrites(host, plan.nonce))
    ensures plan.skip == "" ==> (plan.changed <==> AnyPair(policies, plan.policies, Changes))
    ensures plan.skip == "" ==> plan.nonce == if nonce == "" && Any(policies, Needs) then generated else nonce
  {
    if policies != [] {
      var n := |policies| - 1;
      var init := PlanEach(policies[..n], host, nonce, generated);
      PlanRewrites(policies[..n], host, nonce, generated, init);
      AnyOneMore(policies, n, Refused);
      AnyOneMore(policies, n, Needs);
      if init.skip == "" {
        PlanOneRewrites(init, policies[n], host, generated, plan);
        if plan.skip == "" {
          assert plan.policies[..n] == init.policies;
          NonceUnused(host, init.nonce, plan.nonce);
          RewritesOneMore(policies, plan.policies, n, host, init.nonce, plan.nonce);
          AnyPairOneMore(policies, plan.policies, n, Changes);
        }
      }
    }
  }

  // ----- the nonce of the plan -----

  lemma GoverningNonceIsSafe(policy: string)
    requires GoverningNonce(Parse(policy)) != ""
    ensures Safe(GoverningNonce(Parse(policy)))
  {
    var ds := Parse(policy);
    ParseIsClean(policy);
    var i := Effective(ds, SCRIPT_CHAIN);
    var t := ExistingNonceIsThere(ds[i].tokens);
    assert CleanDirective(ds[i]) && Word(t);
    var nonce := t[7..|t| - 1];
    forall c | c in NonceToken(nonce) ensures c != ';' && !IsSpace(c) {
      assert c in NONCE_PREFIX || c in nonce || c == '\'';
      assert c in nonce ==> c in t;
    }
  }

  lemma {:induction false} FirstNonceIsSafe(policies: seq<string>)
    ensures Safe(FirstNonce(policies))
  {
    if policies == [] || GoverningNonce(Parse(policies[0])) != "" {
      if policies != [] { GoverningNonceIsSafe(policies[0]); }
    } else {
      FirstNonceIsSafe(policies[1..]);
    }
  }

  /** The script list of the policy has only well-formed nonces and hashes. */
  predicate Proper(policy: string) { WellFormedList(SourceList(Parse(policy), ScriptElem)) }

  lemma {:induction false} FirstNonceIsBase64(policies: seq<string>)
    requires forall p | p in policies :: Proper(p)
    ensures FirstNonce(policies) == "" || IsBase64(FirstNonce(policies))
  {
    if policies != [] {
      var ds := Parse(policies[0]);
      GoverningLists(ds);
      assert Proper(policies[0]);
      if GoverningNonce(ds) != "" {
        var t := ExistingNonceIsThere(ds[Effective(ds, SCRIPT_CHAIN)].tokens);
        assert WellFormed(t);
      } else {
        FirstNonceIsBase64(policies[1..]);
      }
    }
  }

  lemma PlanPolicy(policies: seq<string>, host: string, generated: string, plan: Plan, i: nat)
    requires IsBase64(generated) && plan == PlanCSP(policies, host, generated) && plan.skip == "" && i < |policies|
    ensures |plan.policies| == |policies|
    ensures Rewritten(policies[i], plan.policies[i], host, plan.nonce)
    ensures Needs(policies[i]) ==> (IsBase64(plan.nonce) <==> NonceIsGood(policies))
  {
    Base64IsSafe(generated);
    FirstNonceIsSafe(policies);
    PlanRewrites(policies, host, FirstNonce(policies), generated, plan);
    assert Rewrites(host, plan.nonce)(policies[i], plan.policies[i]);
  }

  /** The nonce that the policies bring along, if they do, is one by the grammar. */
  predicate NonceIsGood(policies: seq<string>) { FirstNonce(policies) == "" || IsBase64(FirstNonce(policies)) }

  lemma RefusedIffByNone(policy: string)
    ensures Refused(policy) == ByNone(policy)
  {
    var ds := Parse(policy);
    GoverningLists(ds);
    var scripts, connections := SourceList(ds, ScriptElem), SourceList(ds, Connect);
    if scripts.Some? { NoneIsAlone(scripts.value); }
    if connections.Some? { NoneIsAlone(connections.value); }
  }

  /** The response is left alone exactly when one of its policies governs scripts, or connections,
      by 'none' alone. */
  lemma PlanRefusesIff(policies: seq<string>, host: string, generated: string)
    requires IsBase64(generated)
    ensures PlanCSP(policies, host, generated).skip != "" <==> Any(policies, ByNone)
  {
    Base64IsSafe(generated);
    FirstNonceIsSafe(policies);
    PlanRewrites(policies, host, FirstNonce(policies), generated, PlanCSP(policies, host, generated));
    forall p | p in policies ensures Refused(p) == ByNone(p) { RefusedIffByNone(p); }
    assert forall i | 0 <= i < |policies| :: policies[i] in policies && Refused(policies[i]) == ByNone(policies[i]);
  }

  /** The list is the one keyword 'none', in any case. */
  predicate NoneList(list: Option<seq<string>>) {
    list.Some? && |list.value| == 1 && ToLower(list.value[0]) == "'none'"
  }

  lemma NoneIsAlone(list: seq<string>)
    ensures IsNone(list) <==> NoneList(Some(list))
  {
    assert ToLower("'none'") == "'none'";
    if |list| == 1 { assert list[0] in list && forall t | t in list :: t == list[0]; }
  }

  predicate ByNone(policy: string) {
    NoneList(SourceList(Parse(policy), ScriptElem)) || NoneList(SourceList(Parse(policy), Connect))
  }

  // ----- what the plan means to a browser -----

  /** The list of every fetch type is kept, or is one that scripts or connections use and has got
      at most one source more: what the script list needs, or 'self'. */
  predicate KeepsList(was: seq<Directive>, now: seq<Directive>, f: Fetch, host: string, nonce: string) {
    || SourceList(now, f) == SourceList(was, f)
    || (IsScript(f) && SourceList(was, f) == SourceList(was, ScriptElem)
        && SourceList(now, f) == Plus(SourceList(was, f), Sourced(was, host, nonce)))
    || (f.Connect? && SourceList(now, f) == Plus(SourceList(was, f), Some("'self'")))
  }

  /** No fetch type other than scripts and connections sees a different list. */
  lemma PlanKeepsLists(policies: seq<string>, host: string, generated: string, i: nat, f: Fetch)
    requires IsBase64(generated) && i < |policies|
    ensures var plan := PlanCSP(policies, host, generated);
            plan.skip == "" ==>
              |plan.policies| == |policies|
                  && KeepsList(Parse(policies[i]), Parse(plan.policies[i]), f, host, plan.nonce)
  {
    var plan := PlanCSP(policies, host, generated);
    if plan.skip == "" {
      PlanPolicy(policies, host, generated, plan, i);
      AdmitLists(Parse(policies[i]), host, plan.nonce, f);
    }
  }

  /** The rewritten policy admits the tag exactly when the old one could be made to. */
  predicate TagAdmitted(was: Option<seq<string>>, now: Option<seq<string>>, nonce: string, nonceIsGood: bool,
      page: Page) {
    AdmitsTag(now, nonce, page) <==> (was.Some? ==> TagAdmissible(was.value, nonceIsGood, page))
  }

  predicate ConnectionAdmitted(was: Option<seq<string>>, now: Option<seq<string>>, page: Page) {
    AdmitsConnection(now, page) <==> (was.Some? ==> !OnlyByHttps(was.value, page))
  }

  /** Whatever the policies, the one that comes out admits the tag exactly when the old one could be
      made to: it needs a nonce and the one brought along is good, or it is no http page that the list
      names only by its https address. Connections know the second exception only. */
  lemma PlanAdmitsIff(policies: seq<string>, page: Page, generated: string, i: nat)
    requires IsBase64(generated) && IsHost(page.host) && i < |policies|
    ensures var plan := PlanCSP(policies, page.host, generated);
            plan.skip == "" ==>
              && |plan.policies| == |policies|
              && var was, now := Parse(policies[i]), Parse(plan.policies[i]);
                 TagAdmitted(SourceList(was, ScriptElem), SourceList(now, ScriptElem), plan.nonce,
                     NonceIsGood(policies), page)
                 && ConnectionAdmitted(SourceList(was, Connect), SourceList(now, Connect), page)
  {
    var plan := PlanCSP(policies, page.host, generated);
    if plan.skip == "" {
      PlanPolicy(policies, page.host, generated, plan, i);
      var ds := Parse(policies[i]);
      GoverningLists(ds);
      AdmitLists(ds, page.host, plan.nonce, ScriptElem);
      AdmitLists(ds, page.host, plan.nonce, Connect);
      var list, conn := SourceList(ds, ScriptElem), SourceList(ds, Connect);
      if list.Some? { ScriptListAdmitsIff(list.value, plan.nonce, page); }
      if conn.Some? { ConnectListAdmitsIff(conn.value, page); }
    }
  }

  /** On an https page well-formed policies always come out admitting the tag and its connections. */
  lemma PlanAdmits(policies: seq<string>, page: Page, generated: string, i: nat)
    requires IsBase64(generated) && IsHost(page.host) && page.https && i < |policies|
    ensures var plan := PlanCSP(policies, page.host, generated);
            plan.skip == "" && (forall p | p in policies :: Proper(p)) ==>
              && |plan.policies| == |policies|
              && AdmitsTag(SourceList(Parse(plan.policies[i]), ScriptElem), plan.nonce, page)
              && AdmitsConnection(SourceList(Parse(plan.policies[i]), Connect), page)
  {
    if forall p | p in policies :: Proper(p) {
      FirstNonceIsBase64(policies);
      PlanAdmitsIff(policies, page, generated, i);
    }
  }

  /** A good nonce was added to a script list that let inline scripts run. */
  predicate LosesInline(policy: string, nonce: string) {
    var list := SourceList(Parse(policy), ScriptElem);
    list.Some? && InlineLost(list.value, nonce)
  }

  predicate SameInline(was: seq<Directive>, now: seq<Directive>, f: Fetch) {
    InlineRuns(SourceList(now, f)) == InlineRuns(SourceList(was, f))
  }

  /** Inline scripts run under the rewritten policy exactly when they ran before, unless a good nonce
      was added to a list that let them run; event handlers are never worse off than that. */
  lemma PlanKeepsInlineIff(policies: seq<string>, host: string, generated: string, i: nat)
    requires IsBase64(generated) && i < |policies|
    ensures var plan := PlanCSP(policies, host, generated);
            plan.skip == "" ==>
              && |plan.policies| == |policies|
              && var was, now := Parse(policies[i]), Parse(plan.policies[i]);
                 (SameInline(was, now, ScriptElem) <==> !LosesInline(policies[i], plan.nonce))
                 && (!LosesInline(policies[i], plan.nonce) ==> forall f | IsScript(f) :: SameInline(was, now, f))
  {
    var plan := PlanCSP(policies, host, generated);
    if plan.skip == "" {
      PlanPolicy(policies, host, generated, plan, i);
      AdmitKeepsInlineIff(Parse(policies[i]), host, plan.nonce);
    }
  }

  lemma AdmitKeepsInlineIff(ds: seq<Directive>, host: string, nonce: string)
    requires ScriptsNeedNonce(ds) ==> nonce != ""
    ensures var list, now := SourceList(ds, ScriptElem), Admit(ds, host, nonce);
            var lost := list.Some? && InlineLost(list.value, nonce);
            (SameInline(ds, now, ScriptElem) <==> !lost) && (!lost ==> forall f | IsScript(f) :: SameInline(ds, now, f))
  {
    GoverningLists(ds);
    AdmitLists(ds, host, nonce, ScriptElem);
    var list := SourceList(ds, ScriptElem);
    if list.Some? { InlineKeptIff(list.value, host, nonce); }
    if InlineRuns(Plus(list, Sourced(ds, host, nonce))) == InlineRuns(list) {
      forall f | IsScript(f) ensures SameInline(ds, Admit(ds, host, nonce), f) { AdmitLists(ds, host, nonce, f); }
    }
  }

  /** Under well-formed policies nothing changes for inline scripts and event handlers. */
  lemma PlanKeepsInline(policies: seq<string>, host: string, generated: string, i: nat, f: Fetch)
    requires IsBase64(generated) && i < |policies| && IsScript(f)
    ensures var plan := PlanCSP(policies, host, generated);
            plan.skip == "" && Proper(policies[i]) ==>
              |plan.policies| == |policies| && SameInline(Parse(policies[i]), Parse(plan.policies[i]), f)
  {
    if Proper(policies[i]) {
      PlanKeepsInlineIff(policies, host, generated, i);
      var list := SourceList(Parse(policies[i]), ScriptElem);
      if list.Some? && NeedsNonce(list.value) { WellFormedListBlocksInline(list.value); }
    }
  }

  // ----- planning twice -----

  lemma {:induction false} OutputNonce(policies: seq<string>, outs: seq<string>, host: string, nonce: string)
    requires |outs| == |policies| && AllPairs(policies, outs, Rewrites(host, nonce)) && !Any(policies, Refused)
    requires FirstNonce(policies) in {"", nonce}
    ensures FirstNonce(outs) == if Any(policies, Needs) then nonce else ""
  {
    if policies != [] {
      var ds := Parse(policies[0]);
      assert Rewrites(host, nonce)(policies[0], outs[0]) && !Refused(policies[0]);
      AdmitTwice(ds, host, nonce);
      GoverningNonceNeeds(ds);
      GoverningNonceNeeds(Parse(outs[0]));
      if !Needs(policies[0]) {
        ShiftRest(policies, outs, host, nonce);
        OutputNonce(policies[1..], outs[1..], host, nonce);
      } else {
        assert Any(policies, Needs);
      }
    }
  }

  lemma GoverningNonceNeeds(ds: seq<Directive>)
    ensures GoverningNonce(ds) != "" ==> ScriptsNeedNonce(ds)
  {
  }

  lemma ShiftRest(policies: seq<string>, outs: seq<string>, host: string, nonce: string)
    requires |outs| == |policies| && AllPairs(policies, outs, Rewrites(host, nonce)) && !Any(policies, Refused)
    requires policies != []
    ensures AllPairs(policies[1..], outs[1..], Rewrites(host, nonce)) && !Any(policies[1..], Refused)
    ensures !Needs(policies[0]) ==> (Any(policies, Needs) <==> Any(policies[1..], Needs))
  {
    ShiftAll(policies, outs, Rewrites(host, nonce));
    ShiftAny(policies, Refused);
    ShiftAny(policies, Needs);
  }

  lemma ShiftAll(xs: seq<string>, ys: seq<string>, f: (string, string) -> bool)
    requires |xs| == |ys| && AllPairs(xs, ys, f) && xs != []
    ensures AllPairs(xs[1..], ys[1..], f)
  {
    forall i | 0 <= i < |xs| - 1 ensures f(xs[1..][i], ys[1..][i]) {
      assert f(xs[i + 1], ys[i + 1]);
    }
  }

  lemma ShiftAny(xs: seq<string>, f: string -> bool)
    requires xs != []
    ensures Any(xs, f) <==> f(xs[0]) || Any(xs[1..], f)
  {
    if Any(xs, f) {
      var i :| 0 <= i < |xs| && f(xs[i]);
      assert i > 0 ==> f(xs[1..][i - 1]);
    }
    if Any(xs[1..], f) {
      var i :| 0 <= i < |xs| - 1 && f(xs[1..][i]);
      assert f(xs[i + 1]);
    }
  }

  function Disagreement(nonce: string): string -> bool { policy => Disagrees(Parse(policy), nonce) }

  lemma OutputStaysOpen(policy: string, out: string, host: string, nonce: string)
    requires Rewritten(policy, out, host, nonce) && !Refused(policy)
    ensures !Refused(out) && Needs(out) == Needs(policy)
    ensures Parse(out) != Admit(Parse(out), host, nonce) <==> Disagrees(Parse(policy), nonce)
  {
    AdmitTwice(Parse(policy), host, nonce);
  }

  /** Planning the planned policies again changes something exactly when some governing script
      list already carried a nonce other than the plan's: the planner looks at the first nonce
      of a list only, and appends its own again each time. */
  lemma PlanTwiceIff(policies: seq<string>, host: string, generated: string, generated2: string)
    requires IsBase64(generated) && IsBase64(generated2)
    ensures var plan := PlanCSP(policies, host, generated);
            var plan2 := PlanCSP(plan.policies, host, generated2);
            plan.skip == "" ==>
              && plan2.skip == "" && plan2.nonce == (if Any(policies, Needs) then plan.nonce else "")
              && (plan2.changed <==> Any(policies, Disagreement(plan.nonce)))
  {
    var plan := PlanCSP(policies, host, generated);
    if plan.skip == "" {
      var plan2, outs, nonce := PlanCSP(plan.policies, host, generated2), plan.policies, plan.nonce;
      Base64IsSafe(generated);
      Base64IsSafe(generated2);
      FirstNonceIsSafe(policies);
      FirstNonceIsSafe(outs);
      PlanRewrites(policies, host, FirstNonce(policies), generated, plan);
      OutputNonce(policies, outs, host, nonce);
      PlanRewrites(outs, host, FirstNonce(outs), generated2, plan2);
      OutputsStayOpen(policies, outs, host, nonce);
      SecondChanges(policies, outs, plan2.policies, host, nonce, plan2.nonce);
    }
  }

  lemma OutputsStayOpen(policies: seq<string>, outs: seq<string>, host: string, nonce: string)
    requires |policies| == |outs| && AllPairs(policies, outs, Rewrites(host, nonce)) && !Any(policies, Refused)
    ensures !Any(outs, Refused) && (Any(outs, Needs) <==> Any(policies, Needs))
  {
    forall i | 0 <= i < |outs| ensures !Refused(outs[i]) && Needs(outs[i]) == Needs(policies[i]) {
      assert Rewrites(host, nonce)(policies[i], outs[i]) && !Refused(policies[i]);
      OutputStaysOpen(policies[i], outs[i], host, nonce);
    }
  }

  lemma SecondChanges(policies: seq<string>, outs: seq<string>, again: seq<string>, host: string, nonce: string,
      nonce2: string)
    requires |policies| == |outs| == |again| && !Any(policies, Refused)
    requires AllPairs(policies, outs, Rewrites(host, nonce)) && AllPairs(outs, again, Rewrites(host, nonce2))
    requires nonce2 == nonce || !Any(policies, Needs)
    ensures AnyPair(outs, again, Changes) <==> Any(policies, Disagreement(nonce))
  {
    forall i | 0 <= i < |outs| ensures Changes(outs[i], again[i]) <==> Disagreement(nonce)(policies[i]) {
      assert Rewrites(host, nonce)(policies[i], outs[i]) && !Refused(policies[i]);
      assert Rewrites(host, nonce2)(outs[i], again[i]);
      ChangesAgain(policies[i], outs[i], again[i], host, nonce, nonce2);
    }
    PairsMatch(outs, again, Changes, policies, Disagreement(nonce));
  }

  lemma ChangesAgain(policy: string, out: string, again: string, host: string, nonce: string, nonce2: string)
    requires Rewritten(policy, out, host, nonce) && !Refused(policy)
    requires Rewritten(out, again, host, nonce2) && (nonce2 == nonce || !Needs(policy))
    ensures Changes(out, again) <==> Disagrees(Parse(policy), nonce)
  {
    OutputStaysOpen(policy, out, host, nonce);
    var ds := Parse(out);
    assert !ScriptsNeedNonce(ds) ==> AdmitScript(ds, host, nonce) == AdmitScript(ds, host, nonce2);
  }

  lemma PairsMatch(xs: seq<string>, ys: seq<string>, g: (string, string) -> bool, zs: seq<string>, f: string -> bool)
    requires |xs| == |ys| == |zs| && forall i | 0 <= i < |xs| :: g(xs[i], ys[i]) <==> f(zs[i])
    ensures AnyPair(xs, ys, g) <==> Any(zs, f)
  {
  }
}
