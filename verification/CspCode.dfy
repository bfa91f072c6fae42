/** The parser's and the planner's loops, proved to compute Csp.Parse and Csp.PlanCSP. */
module CspCode {
  import opened Strings
  import opened Wrappers
  import opened Csp

  method ParsePolicy(policy: string) returns (out: seq<Directive>)
    ensures out == Parse(policy)
  {
    out := [];
    var parts := Split(policy, ';');
    for i := 0 to |parts|
      invariant out == ParseParts(parts[..i])
    {
      assert parts[..i + 1][..i] == parts[..i];
      var f := Fields(parts[i]);
      if f == [] { continue; }
      out := out + [Directive(ToLower(f[0]), f[1..])];
    }
    assert parts[..|parts|] == parts;
  }

  method FindNonce(policies: seq<string>) returns (nonce: string)
    ensures nonce == FirstNonce(policies)
  {
    nonce := "";
    for i := 0 to |policies|
      invariant FirstNonce(policies) == FirstNonce(policies[i..])
    {
      var ds := ParsePolicy(policies[i]);
      var s := Effective(ds, SCRIPT_CHAIN);
      assert policies[i..][1..] == policies[i + 1..];
      if s < |ds| {
        var n := ExistingNonce(ds[s].tokens);
        if n != "" { return n; }
      }
    }
  }

  lemma {:induction false} PlanStops(policies: seq<string>, i: nat, host: string, nonce: string, generated: string)
    requires i <= |policies| && PlanEach(policies[..i], host, nonce, generated).skip != ""
    ensures PlanEach(policies, host, nonce, generated) == PlanEach(policies[..i], host, nonce, generated)
  {
    if i < |policies| {
      assert policies[..|policies| - 1][..i] == policies[..i];
      PlanStops(policies[..|policies| - 1], i, host, nonce, generated);
    } else {
      assert policies[..i] == policies;
    }
  }

  method AddTo(ds: seq<Directive>, i: nat, own: string, source: string) returns (out: seq<Directive>)
    requires i < |ds|
    ensures out == AddSource(ds, i, own, Some(source))
  {
    if ds[i].name == "default-src" {
      out := ds + [Directive(own, ds[i].tokens + [source])];
    } else {
      out := ds[i := ds[i].(tokens := ds[i].tokens + [source])];
    }
  }

  /** Admits the tag in one policy, or gives the reason why it must not be. */
  method AdmitIn(policy: string, host: string, nonce: string, generated: string)
    returns (skip: string, used: string, ds: seq<Directive>)
    ensures var was := Parse(policy);
            var n := if ScriptsNeedNonce(was) && nonce == "" then generated else nonce;
            && skip == (if Forbids(was, SCRIPT_CHAIN) then "csp-script-none"
                        else if Forbids(AdmitScript(was, host, n), CONNECT_CHAIN) then "csp-connect-none" else "")
            && (skip == "" ==> used == n && ds == Admit(was, host, n))
  {
    skip, used := "", nonce;
    ds := ParsePolicy(policy);
    var s := Effective(ds, SCRIPT_CHAIN);
    if s < |ds| {
      var tokens := ds[s].tokens;
      if IsNone(tokens) { return "csp-script-none", used, ds; }
      if NeedsNonce(tokens) {
        if used == "" { used := generated; }
        if ExistingNonce(tokens) != used { ds := AddTo(ds, s, "script-src", NonceToken(used)); }
      } else if !AllowsSameOrigin(tokens, host) {
        ds := AddTo(ds, s, "script-src", "'self'");
      }
    }
    assert ds == AdmitScript(Parse(policy), host, used);
    var c := Effective(ds, CONNECT_CHAIN);
    if c < |ds| {
      var tokens := ds[c].tokens;
      if IsNone(tokens) { return "csp-connect-none", used, ds; }
      if !AllowsSameOrigin(tokens, host) {
        ds := AddTo(ds, c, "connect-src", "'self'");
      }
    }
  }

  method PlanNext(plan: Plan, policy: string, host: string, generated: string) returns (next: Plan)
    requires plan.skip == ""
    ensures next == PlanOne(plan, policy, host, generated)
  {
    var skip, used, ds := AdmitIn(policy, host, plan.nonce, generated);
    if skip != "" { return Skipped(skip); }
    var text := Serialize(ds);
    if text != Normalise(policy) {
      next := Plan("", used, plan.policies + [text], true);
    } else {
      next := plan.(nonce := used, policies := plan.policies + [policy]);
    }
  }

  method PlanPolicies(policies: seq<string>, host: string, generated: string) returns (plan: Plan)
    ensures plan == PlanCSP(policies, host, generated)
  {
    var nonce := FindNonce(policies);
    plan := Plan("", nonce, [], false);
    for i := 0 to |policies|
      invariant plan.skip == "" && plan == PlanEach(policies[..i], host, nonce, generated)
    {
      assert policies[..i + 1][..i] == policies[..i];
      plan := PlanNext(plan, policies[i], host, generated);
      if plan.skip != "" {
        PlanStops(policies, i + 1, host, nonce, generated);
        return;
      }
    }
    assert policies[..|policies|] == policies;
  }
}
