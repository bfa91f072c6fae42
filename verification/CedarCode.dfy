/** The translator's loops, and the escaping of the string literals it prints. */
module CedarCode {
  import opened Strings
  import opened Wrappers
  import opened AbacModel
  import opened CedarTranslation
  import C = Cedar

  method PushListConds(d: Doc) returns (conds: seq<C.Expr>)
    ensures conds == ActionConds(d) + RoleConds(d) + TypeConds(d)
  {
    conds := [];
    if Restricts(d.actions) && "*" !in d.actions.value {
      conds := conds + [C.Contains(C.Strings(d.actions.value), C.Context("action"))];
    }
    if Restricts(d.roles) && "*" !in d.roles.value {
      conds := conds + [C.ContainsAny(C.Context("roles"), C.Strings(d.roles.value))];
    }
    if Restricts(d.resourceTypes) && "*" !in d.resourceTypes.value {
      conds := conds + [HAS_RESOURCE, C.Contains(C.Strings(d.resourceTypes.value), C.Context("resourceType"))];
    }
  }

  method PushLabels(before: seq<C.Expr>, entries: seq<(string, Json)>) returns (conds: seq<C.Expr>)
    ensures conds == before + LabelConds(entries)
  {
    conds := before;
    for i := 0 to |entries|
      invariant conds == before + LabelConds(entries[..i])
    {
      assert entries[..i + 1][..i] == entries[..i];
      conds := conds + [HAS_RESOURCE] + EntryConds("labels", entries[i]);
    }
    assert entries[..|entries|] == entries;
  }

  method PushAttributes(before: seq<C.Expr>, entries: seq<(string, Json)>) returns (conds: seq<C.Expr>)
    ensures conds == before + AttributeConds(entries)
  {
    conds := before;
    for i := 0 to |entries|
      invariant conds == before + AttributeConds(entries[..i])
    {
      assert entries[..i + 1][..i] == entries[..i];
      conds := conds + EntryConds("attributes", entries[i]);
    }
    assert entries[..|entries|] == entries;
  }

  method PushConditions(before: seq<C.Expr>, cs: seq<Condition>) returns (conds: seq<C.Expr>)
    ensures conds == before + ConditionConds(cs)
  {
    conds := before;
    for i := 0 to |cs|
      invariant conds == before + ConditionConds(cs[..i])
    {
      assert cs[..i + 1][..i] == cs[..i];
      conds := conds + [ConditionExpr(cs[i])];
    }
    assert cs[..|cs|] == cs;
  }

  method PolicyDocToCedar(p: Policy) returns (policy: C.Policy)
    ensures policy == Translate(p)
  {
    var d := p.doc;
    var conds := PushListConds(d);
    conds := PushLabels(conds, OrNone(d.resourceLabels));
    conds := PushAttributes(conds, OrNone(d.attributes));
    conds := conds + OwnerConds(d) + RelationConds(d) + GroupConds(d) + MemberConds(d);
    conds := PushConditions(conds, OrNone(d.conditions));
    policy := C.Policy(p.effect.Permit?, When(conds));
  }

  /** The attribute record, one lookup a path; an attribute without values has no key. */
  method PrecomputeAttrs(paths: seq<string>, q: Request) returns (attrs: map<string, C.Value>)
    ensures attrs == AttrRecord((set p | p in paths), q)
  {
    attrs := map[];
    for i := 0 to |paths|
      invariant attrs == AttrRecord((set p | p in paths[..i]), q)
    {
      assert paths[..i + 1] == paths[..i] + [paths[i]];
      var values := LookupAttr(paths[i], q.principal, q.resource);
      if values != [] { attrs := attrs[paths[i] := Strs(values)]; }
    }
    assert paths[..|paths|] == paths;
  }

  // ----- string literals -----

  const BACKSLASH: char := '\\'
  const QUOTE: char := '"'

  function Esc(v: string): string {
    Replace(Replace(v, BACKSLASH, [BACKSLASH, BACKSLASH]), QUOTE, [BACKSLASH, QUOTE])
  }

  function EscChar(c: char): string {
    if c == BACKSLASH || c == QUOTE then [BACKSLASH, c] else [c]
  }

  /** Cedar's reading of a literal after the opening quote: the value and what follows the closing
      one; None for an unclosed literal or an escape that the printer never writes. */
  function ReadLiteral(s: string): Option<(string, string)> {
    if s == "" then None
    else if s[0] == QUOTE then Some(("", s[1..]))
    else if s[0] == BACKSLASH then
      if |s| > 1 && (s[1] == BACKSLASH || s[1] == QUOTE) then
        var r := ReadLiteral(s[2..]);
        if r.Some? then Some(([s[1]] + r.value.0, r.value.1)) else None
      else None
    else
      var r := ReadLiteral(s[1..]);
      if r.Some? then Some(([s[0]] + r.value.0, r.value.1)) else None
  }

  /** The two passes escape character by character. */
  lemma EscSteps(v: string)
    requires v != ""
    ensures Esc(v) == EscChar(v[0]) + Esc(v[1..])
  {
    var pair := [BACKSLASH, BACKSLASH];
    var first := if v[0] == BACKSLASH then pair else [v[0]];
    ReplaceConcat(first, Replace(v[1..], BACKSLASH, pair), QUOTE, [BACKSLASH, QUOTE]);
    EscOne(v[0]);
  }

  lemma EscOne(c: char)
    ensures Replace(if c == BACKSLASH then [BACKSLASH, BACKSLASH] else [c], QUOTE, [BACKSLASH, QUOTE]) == EscChar(c)
  {
    ReplaceOne(c, QUOTE, [BACKSLASH, QUOTE]);
    var pair := [BACKSLASH, BACKSLASH];
    assert pair[1..] == [BACKSLASH];
  }

  /** A printed literal is read back whole: no value can end its literal early or reach past it. */
  lemma {:induction false} LiteralRoundTrip(v: string, rest: string)
    ensures ReadLiteral(Esc(v) + [QUOTE] + rest) == Some((v, rest))
  {
    if v == "" {
      assert Esc(v) + [QUOTE] + rest == [QUOTE] + rest;
    } else {
      EscSteps(v);
      LiteralRoundTrip(v[1..], rest);
      var tail := Esc(v[1..]) + [QUOTE] + rest;
      assert Esc(v) + [QUOTE] + rest == EscChar(v[0]) + tail;
      assert (EscChar(v[0]) + tail)[|EscChar(v[0])|..] == tail;
      assert v == [v[0]] + v[1..];
    }
  }
}
