/** The Cedar translation and the JSON engine decide alike, and exactly where a clause of a
    document does not translate faithfully. */
module CedarProofs {
  import opened Wrappers
  import opened AbacModel
  import opened CedarTranslation
  import C = Cedar

  /** The context of a request as a whole: what each field holds. */
  ghost predicate IsContext(ctx: C.Record, q: Request, paths: set<string>)
    requires RepresentableRequest(q)
  {
    && C.Eval(C.Context("userId"), ctx) == Some(C.VStr(q.principal.userId))
    && C.Eval(C.Context("memberId"), ctx)
       == Some(C.VStr(if q.principal.memberId.Some? then q.principal.memberId.value else ""))
    && C.Eval(C.Context("groups"), ctx) == Some(Strs(PrincipalGroups(q.principal)))
    && C.Eval(C.Context("attrs"), ctx) == Some(C.VRec(AttrRecord(paths, q)))
    && C.Eval(C.Context("action"), ctx) == Some(C.VStr(q.action))
    && C.Eval(C.Context("roles"), ctx) == Some(Strs(q.principal.roles))
    && C.Eval(C.Context("attributes"), ctx) == Some(ToRecord(q.principal.attributes))
    && C.Eval(HAS_RESOURCE, ctx) == Some(C.VBool(q.resource.Some?))
    && C.Eval(C.Context("resourceType"), ctx) == Some(C.VStr(if q.resource.Some? then q.resource.value.kind else ""))
    && C.Eval(C.Context("labels"), ctx)
       == Some(if q.resource.Some? then ToRecord(q.resource.value.labels) else C.VRec(map[]))
    && C.Eval(C.Context("relations"), ctx) == Some(Strs(if q.resource.Some? then q.resource.value.relations else []))
    && C.Eval(C.Context("isOwner"), ctx) == Some(C.VBool(CedarOwner(q)))
  }

  lemma BuildHoldsPrincipal(q: Request, paths: set<string>, ctx: C.Record)
    requires RepresentableRequest(q) && ctx == BuildContext(q, paths)
    ensures C.Eval(C.Context("userId"), ctx) == Some(C.VStr(q.principal.userId))
    ensures C.Eval(C.Context("memberId"), ctx)
        == Some(C.VStr(if q.principal.memberId.Some? then q.principal.memberId.value else ""))
    ensures C.Eval(C.Context("groups"), ctx) == Some(Strs(PrincipalGroups(q.principal)))
    ensures C.Eval(C.Context("attrs"), ctx) == Some(C.VRec(AttrRecord(paths, q)))
  {}

  lemma BuildHoldsRequest(q: Request, paths: set<string>, ctx: C.Record)
    requires RepresentableRequest(q) && ctx == BuildContext(q, paths)
    ensures C.Eval(C.Context("action"), ctx) == Some(C.VStr(q.action))
    ensures C.Eval(C.Context("roles"), ctx) == Some(Strs(q.principal.roles))
    ensures C.Eval(C.Context("attributes"), ctx) == Some(ToRecord(q.principal.attributes))
    ensures C.Eval(HAS_RESOURCE, ctx) == Some(C.VBool(q.resource.Some?))
  {}

  lemma BuildHoldsResource(q: Request, paths: set<string>, ctx: C.Record)
    requires RepresentableRequest(q) && ctx == BuildContext(q, paths)
    ensures C.Eval(C.Context("resourceType"), ctx)
        == Some(C.VStr(if q.resource.Some? then q.resource.value.kind else ""))
    ensures C.Eval(C.Context("labels"), ctx)
        == Some(if q.resource.Some? then ToRecord(q.resource.value.labels) else C.VRec(map[]))
    ensures C.Eval(C.Context("relations"), ctx)
        == Some(Strs(if q.resource.Some? then q.resource.value.relations else []))
    ensures C.Eval(C.Context("isOwner"), ctx) == Some(C.VBool(CedarOwner(q)))
  {}

  lemma BuildIsContext(q: Request, paths: set<string>, ctx: C.Record)
    requires RepresentableRequest(q) && ctx == BuildContext(q, paths)
    ensures IsContext(ctx, q, paths)
  {
    BuildHoldsPrincipal(q, paths, ctx);
    BuildHoldsRequest(q, paths, ctx);
    BuildHoldsResource(q, paths, ctx);
  }

  /** Cedar's integers are the signed ones of 64 bits. */
  lemma LongIff(digits: string)
    requires IsDigits(digits)
    ensures IsLong(digits) <==> Number(digits) <= 9_223_372_036_854_775_807
    ensures IsLong("-" + digits) <==> Number(digits) <= 9_223_372_036_854_775_808
  {
    assert digits[0] != '-' && ("-" + digits)[1..] == digits;
  }

  // ----- evaluation steps -----

  lemma AllTrueOne(e: C.Expr, ctx: C.Record)
    ensures AllTrue([e], ctx) <==> C.Eval(e, ctx) == Some(C.VBool(true))
  {
    assert e in [e];
  }

  lemma AllTrueTwo(e: C.Expr, f: C.Expr, ctx: C.Record)
    ensures AllTrue([e, f], ctx) <==> C.Eval(e, ctx) == Some(C.VBool(true)) && C.Eval(f, ctx) == Some(C.VBool(true))
  {
    assert e in [e, f] && f in [e, f];
  }

  lemma EvalContains(list: seq<string>, x: C.Expr, v: string, ctx: C.Record)
    requires C.Eval(x, ctx) == Some(C.VStr(v))
    ensures C.Eval(C.Contains(C.Strings(list), x), ctx) == Some(C.VBool(v in list))
  {
    assert C.Eval(C.Strings(list), ctx) == Some(C.VSet(C.StrSet(list)));
    assert C.VStr(v) in C.StrSet(list) <==> v in list;
  }

  lemma EvalHolds(e: C.Expr, xs: seq<string>, v: string, ctx: C.Record)
    requires C.Eval(e, ctx) == Some(Strs(xs))
    ensures C.Eval(C.Contains(e, C.Lit(C.VStr(v))), ctx) == Some(C.VBool(v in xs))
  {
    assert C.VStr(v) in C.StrSet(xs) <==> v in xs;
  }

  lemma EvalContainsAny(e: C.Expr, xs: seq<string>, list: seq<string>, ctx: C.Record)
    requires C.Eval(e, ctx) == Some(Strs(xs))
    ensures C.Eval(C.ContainsAny(e, C.Strings(list)), ctx) == Some(C.VBool(Meets(xs, list)))
    ensures Meets(xs, list) <==> Meets(list, xs)
  {
    MeetsIsIntersection(xs, list);
    assert C.Eval(C.Strings(list), ctx) == Some(C.VSet(C.StrSet(list)));
  }

  // ----- clause by clause -----

  lemma ActionsAgree(d: Doc, q: Request, ctx: C.Record)
    requires C.Eval(C.Context("action"), ctx) == Some(C.VStr(q.action))
    ensures AllTrue(ActionConds(d), ctx) <==> ListMatches(d.actions, q.action)
  {
    if d.actions.Some? {
      EvalContains(d.actions.value, C.Context("action"), q.action, ctx);
      AllTrueOne(C.Contains(C.Strings(d.actions.value), C.Context("action")), ctx);
    }
  }

  lemma RolesAgree(d: Doc, q: Request, ctx: C.Record)
    requires C.Eval(C.Context("roles"), ctx) == Some(Strs(q.principal.roles))
    ensures AllTrue(RoleConds(d), ctx) <==> RolesMatch(d, q)
  {
    if d.roles.Some? {
      EvalContainsAny(C.Context("roles"), q.principal.roles, d.roles.value, ctx);
      AllTrueOne(C.ContainsAny(C.Context("roles"), C.Strings(d.roles.value)), ctx);
    }
  }

  /** A resource-type list with the wildcard still demands a resource; its translation does not. */
  predicate TypeGap(d: Doc, q: Request) {
    d.resourceTypes.Some? && "*" in d.resourceTypes.value && q.resource.None?
  }

  lemma TypesAgreeIff(d: Doc, q: Request, ctx: C.Record, paths: set<string>)
    requires RepresentableRequest(q) && IsContext(ctx, q, paths)
    ensures (AllTrue(TypeConds(d), ctx) <==> TypesMatch(d, q)) <==> !TypeGap(d, q)
  {
    if d.resourceTypes.Some? {
      var kind := if q.resource.Some? then q.resource.value.kind else "";
      EvalContains(d.resourceTypes.value, C.Context("resourceType"), kind, ctx);
      AllTrueTwo(HAS_RESOURCE, C.Contains(C.Strings(d.resourceTypes.value), C.Context("resourceType")), ctx);
    }
  }

  /** The document wants something else than a text, a truth value or a number, which no value of a
      request is the same as; its translation asks for the text that String() makes of it. */
  predicate EntryGap(m: map<string, Json>, e: (string, Json)) {
    !Scalar(e.1) && Field(m, e.0) == Some(Str(Text(e.1)))
  }

  predicate Scalar(v: Json) { v.Str? || v.Bool? || v.Num? }

  /** Field by field, equality in the record is strict equality of the values, but for that text. */
  lemma EntryAgreesIff(field: string, m: map<string, Json>, e: (string, Json), ctx: C.Record)
    requires RepresentableMap(m) && C.Eval(C.Context(field), ctx) == Some(ToRecord(m))
        && (e.1.Num? ==> IsLong(e.1.text))
    ensures AllTrue(EntryConds(field, e), ctx) <==> Same(Field(m, e.0), e.1) || EntryGap(m, e)
  {
    var has, get := C.Has(C.Context(field), e.0), C.Get(C.Context(field), e.0);
    AllTrueTwo(has, C.Equal(get, C.Lit(Literal(e.1))), ctx);
    assert C.Eval(has, ctx) == Some(C.VBool(e.0 in m));
    if e.0 in m {
      assert C.Eval(get, ctx) == Some(ToValue(m[e.0]));
      assert ToValue(m[e.0]) == Literal(e.1) <==> m[e.0] == if Scalar(e.1) then e.1 else Str(Text(e.1));
    }
  }

  ghost predicate AllSame(m: map<string, Json>, entries: seq<(string, Json)>) {
    forall e | e in entries :: Same(Field(m, e.0), e.1)
  }

  /** Every entry has its value or, one of them at least, only the text of it. */
  predicate EntriesGap(m: map<string, Json>, entries: seq<(string, Json)>) {
    && (forall e | e in entries :: Same(Field(m, e.0), e.1) || EntryGap(m, e))
    && (exists e | e in entries :: EntryGap(m, e))
  }

  lemma GapIsNotSame(m: map<string, Json>, entries: seq<(string, Json)>)
    ensures EntriesGap(m, entries) ==> !AllSame(m, entries)
    ensures (forall e | e in entries :: Same(Field(m, e.0), e.1) || EntryGap(m, e)) <==>
              AllSame(m, entries) || EntriesGap(m, entries)
  {}

  lemma {:induction false} EntriesAgree(entries: seq<(string, Json)>, m: map<string, Json>, ctx: C.Record)
    requires RepresentableMap(m) && C.Eval(C.Context("attributes"), ctx) == Some(ToRecord(m))
        && ReadableEntries(entries)
    ensures AllTrue(AttributeConds(entries), ctx)
        <==> forall e | e in entries :: Same(Field(m, e.0), e.1) || EntryGap(m, e)
  {
    if entries != [] {
      var n := |entries| - 1;
      EntriesAgree(entries[..n], m, ctx);
      EntryAgreesIff("attributes", m, entries[n], ctx);
      AllTrueConcat(AttributeConds(entries[..n]), EntryConds("attributes", entries[n]), ctx);
      assert entries == entries[..n] + [entries[n]];
    }
  }

  predicate AttributeGap(d: Doc, q: Request) {
    d.attributes.Some? && EntriesGap(q.principal.attributes, d.attributes.value)
  }

  lemma AttributesAgreeIff(d: Doc, q: Request, ctx: C.Record, paths: set<string>)
    requires RepresentableRequest(q) && IsContext(ctx, q, paths) && ReadableEntries(OrNone(d.attributes))
    ensures (AllTrue(AttributeConds(OrNone(d.attributes)), ctx) <==> AttributesMatch(d, q)) <==> !AttributeGap(d, q)
  {
    EntriesAgree(OrNone(d.attributes), q.principal.attributes, ctx);
    GapIsNotSame(q.principal.attributes, OrNone(d.attributes));
  }

  lemma {:induction false} LabelsAgree(entries: seq<(string, Json)>, m: Option<map<string, Json>>, ctx: C.Record)
    requires C.Eval(HAS_RESOURCE, ctx) == Some(C.VBool(m.Some?)) && ReadableEntries(entries)
    requires m.Some? ==> RepresentableMap(m.value) && C.Eval(C.Context("labels"), ctx) == Some(ToRecord(m.value))
    ensures AllTrue(LabelConds(entries), ctx) <==>
              (entries != [] ==>
                 m.Some? && forall e | e in entries :: Same(Field(m.value, e.0), e.1) || EntryGap(m.value, e))
  {
    if entries != [] {
      var n := |entries| - 1;
      var init := LabelConds(entries[..n]);
      LabelsAgree(entries[..n], m, ctx);
      AllTrueConcat(init + [HAS_RESOURCE], EntryConds("labels", entries[n]), ctx);
      AllTrueConcat(init, [HAS_RESOURCE], ctx);
      AllTrueOne(HAS_RESOURCE, ctx);
      if m.Some? { EntryAgreesIff("labels", m.value, entries[n], ctx); }
      assert entries == entries[..n] + [entries[n]];
    }
  }

  /** An empty label clause still demands a resource, and its translation is empty; otherwise labels
      part where an entry does. */
  predicate LabelGap(d: Doc, q: Request) {
    d.resourceLabels.Some? &&
    if q.resource.None? then d.resourceLabels.value == []
    else EntriesGap(q.resource.value.labels, d.resourceLabels.value)
  }

  lemma LabelsAgreeIff(d: Doc, q: Request, ctx: C.Record, paths: set<string>)
    requires RepresentableRequest(q) && IsContext(ctx, q, paths) && ReadableEntries(OrNone(d.resourceLabels))
    ensures (AllTrue(LabelConds(OrNone(d.resourceLabels)), ctx) <==> LabelsMatch(d, q)) <==> !LabelGap(d, q)
  {
    LabelsAgree(OrNone(d.resourceLabels), if q.resource.Some? then Some(q.resource.value.labels) else None, ctx);
    if q.resource.Some? { GapIsNotSame(q.resource.value.labels, OrNone(d.resourceLabels)); }
  }

  /** The engines know ownership by different facts: only the JSON one counts a resource owned
      through the user id or a team. */
  predicate OwnerGap(d: Doc, q: Request) {
    d.ownerOnly == Some(true) && q.resource.Some? && !CedarOwner(q) &&
    var r := q.resource.value;
    (Given(r.ownerMemberId) && r.ownerMemberId == Some(q.principal.userId)) ||
    (Given(r.ownerTeamId) && r.ownerTeamId.value in TeamIds(q.principal))
  }

  lemma OwnerAgreesIff(d: Doc, q: Request, ctx: C.Record, paths: set<string>)
    requires RepresentableRequest(q) && IsContext(ctx, q, paths)
    ensures (AllTrue(OwnerConds(d), ctx) <==> OwnerMatches(d, q)) <==> !OwnerGap(d, q)
  {
    AllTrueTwo(HAS_RESOURCE, C.Context("isOwner"), ctx);
  }

  lemma RelationsAgree(d: Doc, q: Request, ctx: C.Record, paths: set<string>)
    requires RepresentableRequest(q) && IsContext(ctx, q, paths)
    ensures AllTrue(RelationConds(d), ctx) <==> RelationsMatch(d, q)
  {
    if d.relations.Some? {
      var held := if q.resource.Some? then q.resource.value.relations else [];
      EvalContainsAny(C.Context("relations"), held, d.relations.value, ctx);
      AllTrueTwo(HAS_RESOURCE, C.ContainsAny(C.Context("relations"), C.Strings(d.relations.value)), ctx);
    }
  }

  lemma GroupsAgree(d: Doc, q: Request, ctx: C.Record)
    requires C.Eval(C.Context("groups"), ctx) == Some(Strs(PrincipalGroups(q.principal)))
    ensures AllTrue(GroupConds(d), ctx) <==> GroupsMatch(d, q)
  {
    if d.groups.Some? {
      EvalContainsAny(C.Context("groups"), PrincipalGroups(q.principal), d.groups.value, ctx);
      AllTrueOne(C.ContainsAny(C.Context("groups"), C.Strings(d.groups.value)), ctx);
    }
  }

  /** The empty member id stands for a missing one in the context, but names nobody in the engine. */
  predicate MemberGap(d: Doc, q: Request) {
    Restricts(d.members) && "" in d.members.value && (!Given(q.principal.memberId) || q.principal.userId == "") &&
    !Meets(d.members.value, Ids(q.principal))
  }

  lemma MeetsIds(list: seq<string>, p: Principal)
    ensures var m := if p.memberId.Some? then p.memberId.value else "";
            Meets(list, Ids(p)) <==> (m != "" && m in list) || (p.userId != "" && p.userId in list)
  {
    var m := if p.memberId.Some? then p.memberId.value else "";
    assert forall x :: x in Ids(p) <==> x != "" && (x == m || x == p.userId);
  }

  lemma MembersAgreeIff(d: Doc, q: Request, ctx: C.Record, paths: set<string>)
    requires RepresentableRequest(q) && IsContext(ctx, q, paths)
    ensures (AllTrue(MemberConds(d), ctx) <==> MembersMatch(d, q)) <==> !MemberGap(d, q)
  {
    if Restricts(d.members) {
      var list, p := d.members.value, q.principal;
      var m := if p.memberId.Some? then p.memberId.value else "";
      MeetsIds(list, p);
      EvalContains(list, C.Context("memberId"), m, ctx);
      EvalContains(list, C.Context("userId"), p.userId, ctx);
      AllTrueOne(MemberConds(d)[0], ctx);
    }
  }

  /** The pre-computed record stands in for the lookup on every path it was built for. */
  lemma ConditionAgrees(c: Condition, q: Request, ctx: C.Record, paths: set<string>)
    requires C.Eval(C.Context("attrs"), ctx) == Some(C.VRec(AttrRecord(paths, q))) && c.attr in paths
    ensures C.Eval(ConditionExpr(c), ctx)
        == Some(C.VBool(ConditionHolds(c.test, LookupAttr(c.attr, q.principal, q.resource))))
  {
    var values := LookupAttr(c.attr, q.principal, q.resource);
    var has, get := C.Has(C.Context("attrs"), c.attr), C.Get(C.Context("attrs"), c.attr);
    assert C.Eval(has, ctx) == Some(C.VBool(values != []));
    if values != [] {
      assert C.Eval(get, ctx) == Some(Strs(values));
      match c.test
      case Eq(v) => EvalHolds(get, values, v, ctx);
      case Ne(v) => EvalHolds(get, values, v, ctx);
      case In(vs) => EvalContainsAny(get, values, vs, ctx);
      case NotIn(vs) => EvalContainsAny(get, values, vs, ctx);
      case _ =>
    }
  }

  ghost predicate AllHold(cs: seq<Condition>, q: Request) {
    forall c | c in cs :: ConditionHolds(c.test, LookupAttr(c.attr, q.principal, q.resource))
  }

  lemma {:induction false} ConditionsAgree(cs: seq<Condition>, q: Request, ctx: C.Record, paths: set<string>)
    requires C.Eval(C.Context("attrs"), ctx) == Some(C.VRec(AttrRecord(paths, q)))
    requires forall c | c in cs :: c.attr in paths
    ensures AllTrue(ConditionConds(cs), ctx) <==> AllHold(cs, q)
  {
    if cs != [] {
      var n := |cs| - 1;
      ConditionsAgree(cs[..n], q, ctx, paths);
      ConditionAgrees(cs[n], q, ctx, paths);
      AllTrueConcat(ConditionConds(cs[..n]), [ConditionExpr(cs[n])], ctx);
      AllTrueOne(ConditionExpr(cs[n]), ctx);
      assert cs == cs[..n] + [cs[n]];
    }
  }

  // ----- documents and engines -----

  /** What the translated document asks of a request: the document, but for the clauses that part. */
  predicate MatchesTranslated(d: Doc, q: Request) {
    && ListMatches(d.actions, q.action) && RolesMatch(d, q) && (TypesMatch(d, q) || TypeGap(d, q))
    && (LabelsMatch(d, q) || LabelGap(d, q)) && (AttributesMatch(d, q) || AttributeGap(d, q))
    && OwnerMatches(d, q) && !OwnerGap(d, q) && RelationsMatch(d, q) && GroupsMatch(d, q)
    && (MembersMatch(d, q) || MemberGap(d, q)) && ConditionsMatch(d, q)
  }

  /** The document translates faithfully for this request. */
  predicate Faithful(d: Doc, q: Request) {
    !TypeGap(d, q) && !LabelGap(d, q) && !AttributeGap(d, q) && !OwnerGap(d, q) && !MemberGap(d, q)
  }

  /** A document that translates faithfully for every request. */
  predicate Supported(d: Doc) {
    && (forall e | e in OrNone(d.resourceLabels) + OrNone(d.attributes) :: Scalar(e.1))
    && d.ownerOnly != Some(true) && d.resourceLabels != Some([])
    && (d.resourceTypes.Some? ==> "*" !in d.resourceTypes.value)
    && (d.members.Some? ==> "" !in d.members.value)
  }

  /** Every document, whatever its values: exactly what its translation asks for. */
  lemma DocTranslates(d: Doc, q: Request, ctx: C.Record, paths: set<string>)
    requires RepresentableRequest(q) && IsContext(ctx, q, paths) && Readable(d) && DocAttrs(d) <= paths
    ensures C.Eval(When(Conds(d)), ctx) == Some(C.VBool(true)) <==> MatchesTranslated(d, q)
  {
    var conditions := OrNone(d.conditions);
    ActionsAgree(d, q, ctx);
    RolesAgree(d, q, ctx);
    TypesAgreeIff(d, q, ctx, paths);
    LabelsAgreeIff(d, q, ctx, paths);
    AttributesAgreeIff(d, q, ctx, paths);
    OwnerAgreesIff(d, q, ctx, paths);
    RelationsAgree(d, q, ctx, paths);
    GroupsAgree(d, q, ctx);
    MembersAgreeIff(d, q, ctx, paths);
    forall c | c in conditions ensures c.attr in paths { assert c.attr in DocAttrs(d); }
    ConditionsAgree(conditions, q, ctx, paths);
    ConjunctionSplits(d, ctx);
    WhenIsAll(Conds(d), ctx);
    GapsWiden(d, q);
  }

  /** A clause that parts is one the request fails, except for ownership, which it meets. */
  lemma GapsWiden(d: Doc, q: Request)
    ensures TypeGap(d, q) ==> !TypesMatch(d, q)
    ensures LabelGap(d, q) ==> !LabelsMatch(d, q)
    ensures AttributeGap(d, q) ==> !AttributesMatch(d, q)
    ensures MemberGap(d, q) ==> !MembersMatch(d, q)
    ensures OwnerGap(d, q) ==> OwnerMatches(d, q)
  {
    if d.attributes.Some? { GapIsNotSame(q.principal.attributes, d.attributes.value); }
    if d.resourceLabels.Some? && q.resource.Some? { GapIsNotSame(q.resource.value.labels, d.resourceLabels.value); }
  }

  lemma ConjunctionSplits(d: Doc, ctx: C.Record)
    ensures AllTrue(Conds(d), ctx) <==>
            && AllTrue(ActionConds(d), ctx) && AllTrue(RoleConds(d), ctx) && AllTrue(TypeConds(d), ctx)
            && AllTrue(LabelConds(OrNone(d.resourceLabels)), ctx) && AllTrue(AttributeConds(OrNone(d.attributes)), ctx)
            && AllTrue(OwnerConds(d), ctx) && AllTrue(RelationConds(d), ctx) && AllTrue(GroupConds(d), ctx)
            && AllTrue(MemberConds(d), ctx) && AllTrue(ConditionConds(OrNone(d.conditions)), ctx)
  {
    var c1 := ActionConds(d) + RoleConds(d);
    var c2 := c1 + TypeConds(d);
    var c3 := c2 + LabelConds(OrNone(d.resourceLabels));
    var c4 := c3 + AttributeConds(OrNone(d.attributes));
    var c5 := c4 + OwnerConds(d);
    var c6 := c5 + RelationConds(d);
    var c7 := c6 + GroupConds(d);
    var c8 := c7 + MemberConds(d);
    AllTrueConcat(ActionConds(d), RoleConds(d), ctx);
    AllTrueConcat(c1, TypeConds(d), ctx);
    AllTrueConcat(c2, LabelConds(OrNone(d.resourceLabels)), ctx);
    AllTrueConcat(c3, AttributeConds(OrNone(d.attributes)), ctx);
    AllTrueConcat(c4, OwnerConds(d), ctx);
    AllTrueConcat(c5, RelationConds(d), ctx);
    AllTrueConcat(c6, GroupConds(d), ctx);
    AllTrueConcat(c7, MemberConds(d), ctx);
    AllTrueConcat(c8, ConditionConds(OrNone(d.conditions)), ctx);
  }

  // ----- the JSON engine's decision -----

  /** The first of the policies with the highest priority. */
  ghost predicate IsFirstHighest(ps: seq<Policy>, p: Policy) {
    exists i | 0 <= i < |ps| :: ps[i] == p
      && (forall j | 0 <= j < |ps| :: ps[j].priority <= p.priority)
      && (forall j | 0 <= j < i :: ps[j].priority < p.priority)
  }

  ghost predicate Descending(s: seq<Policy>) {
    forall i, j | 0 <= i < j < |s| :: s[i].priority >= s[j].priority
  }

  lemma {:induction false} InsertMembers(sorted: seq<Policy>, p: Policy)
    ensures |Insert(sorted, p)| == |sorted| + 1
    ensures forall x :: x in Insert(sorted, p) <==> x in sorted || x == p
  {
    if sorted != [] {
      var n := |sorted| - 1;
      assert sorted == sorted[..n] + [sorted[n]];
      InsertMembers(sorted[..n], p);
    }
  }

  lemma {:induction false} InsertHead(sorted: seq<Policy>, p: Policy)
    requires Descending(sorted)
    ensures Descending(Insert(sorted, p))
    ensures Insert(sorted, p)[0] == if sorted != [] && sorted[0].priority >= p.priority then sorted[0] else p
  {
    if sorted != [] {
      var n := |sorted| - 1;
      if sorted[n].priority < p.priority {
        InsertHead(sorted[..n], p);
        InsertMembers(sorted[..n], p);
        var r := Insert(sorted[..n], p);
        forall i | 0 <= i < |r| ensures r[i].priority >= sorted[n].priority {
          assert r[i] in sorted[..n] || r[i] == p;
        }
      }
    }
  }

  lemma {:induction false} SortedHead(ps: seq<Policy>)
    ensures Descending(SortByPriority(ps)) && |SortByPriority(ps)| == |ps|
    ensures ps != [] ==> IsFirstHighest(ps, SortByPriority(ps)[0])
  {
    if ps != [] {
      var n := |ps| - 1;
      SortedHead(ps[..n]);
      InsertHead(SortByPriority(ps[..n]), ps[n]);
      InsertMembers(SortByPriority(ps[..n]), ps[n]);
      if n == 0 {
        assert ps[0] == SortByPriority(ps)[0];
      } else {
        FirstHighestOneMore(ps, n, SortByPriority(ps[..n])[0]);
      }
    }
  }

  lemma FirstHighestOneMore(ps: seq<Policy>, n: nat, h: Policy)
    requires |ps| == n + 1 && IsFirstHighest(ps[..n], h)
    ensures IsFirstHighest(ps, if h.priority >= ps[n].priority then h else ps[n])
  {
    var i :| 0 <= i < n && ps[..n][i] == h
      && (forall j | 0 <= j < n :: ps[..n][j].priority <= h.priority)
      && (forall j | 0 <= j < i :: ps[..n][j].priority < h.priority);
    assert forall j | 0 <= j < n :: ps[..n][j] == ps[j];
    assert ps[if h.priority >= ps[n].priority then i else n] == if h.priority >= ps[n].priority then h else ps[n];
  }

  /** Forbid wins, nothing matching means deny, and the policy named is the first of the
      matching ones of the deciding effect with the highest priority. */
  lemma EvaluateDecides(ps: seq<Policy>, q: Request)
    ensures var d := Evaluate(ps, q);
            && (d.verdict == Allow <==> Applies(ps, Permit, q) && !Applies(ps, Forbid, q))
            && (d.policyId.None? <==> !(exists p | p in ps :: Matches(p.doc, q)))
            && (d.policyId.Some? ==>
                  exists p :: IsFirstHighest(Select(ps, if d.verdict == Allow then Permit else Forbid, q), p)
                      && p.id == d.policyId.value)
  {
    var forbids, permits := Select(ps, Forbid, q), Select(ps, Permit, q);
    SortedHead(forbids);
    SortedHead(permits);
    SelectIff(ps, Forbid, q);
    SelectIff(ps, Permit, q);
    assert Applies(ps, Forbid, q) || Applies(ps, Permit, q) <==> exists p | p in ps :: Matches(p.doc, q);
  }

  predicate Applies(ps: seq<Policy>, effect: Effect, q: Request) {
    exists p | p in ps :: p.effect == effect && Matches(p.doc, q)
  }

  lemma SelectIff(ps: seq<Policy>, effect: Effect, q: Request)
    ensures Select(ps, effect, q) != [] <==> Applies(ps, effect, q)
  {
    if Select(ps, effect, q) != [] { assert Select(ps, effect, q)[0] in Select(ps, effect, q); }
  }

  lemma PolicyTranslates(ps: seq<Policy>, q: Request, i: nat, ctx: C.Record)
    requires RepresentableRequest(q) && i < |ps| && Readable(ps[i].doc) && ctx == BuildContext(q, ReferencedAttrs(ps))
    ensures C.Satisfied(Translate(ps[i]), ctx) <==> MatchesTranslated(ps[i].doc, q)
  {
    BuildIsContext(q, ReferencedAttrs(ps), ctx);
    assert ps[i] in ps;
    forall a | a in DocAttrs(ps[i].doc) ensures a in ReferencedAttrs(ps) {}
    DocTranslates(ps[i].doc, q, ctx, ReferencedAttrs(ps));
  }

  /** Some policy of this effect matches the request as translated. */
  predicate AppliesTranslated(ps: seq<Policy>, effect: Effect, q: Request) {
    exists p | p in ps :: p.effect == effect && MatchesTranslated(p.doc, q)
  }

  lemma EffectTranslates(ps: seq<Policy>, effect: Effect, q: Request, ctx: C.Record)
    requires RepresentableRequest(q) && (forall p | p in ps :: Readable(p.doc))
        && ctx == BuildContext(q, ReferencedAttrs(ps))
    ensures (exists c | c in TranslateAll(ps) :: c.permits == effect.Permit? && C.Satisfied(c, ctx))
            <==> AppliesTranslated(ps, effect, q)
  {
    var cs := TranslateAll(ps);
    if c :| c in cs && c.permits == effect.Permit? && C.Satisfied(c, ctx) {
      var i :| 0 <= i < |cs| && cs[i] == c;
      assert ps[i] in ps;
      PolicyTranslates(ps, q, i, ctx);
    }
    if p :| p in ps && p.effect == effect && MatchesTranslated(p.doc, q) {
      var i :| 0 <= i < |ps| && ps[i] == p;
      assert cs[i] in cs;
      PolicyTranslates(ps, q, i, ctx);
    }
  }

  /** For all policies and requests that Cedar can read: it allows what some translated permit, and
      no translated forbid, matches. */
  lemma CedarDecides(ps: seq<Policy>, q: Request)
    ensures CedarAnswer(ps, q).Some? ==>
              (CedarAnswer(ps, q).value <==> AppliesTranslated(ps, Permit, q) && !AppliesTranslated(ps, Forbid, q))
  {
    if CedarAnswer(ps, q).Some? {
      var ctx := BuildContext(q, ReferencedAttrs(ps));
      EffectTranslates(ps, Permit, q, ctx);
      EffectTranslates(ps, Forbid, q, ctx);
    }
  }

  lemma FaithfulApplies(ps: seq<Policy>, effect: Effect, q: Request)
    requires forall p | p in ps :: Faithful(p.doc, q)
    ensures AppliesTranslated(ps, effect, q) <==> Applies(ps, effect, q)
  {
    forall p | p in ps ensures MatchesTranslated(p.doc, q) <==> Matches(p.doc, q) { assert Faithful(p.doc, q); }
  }

  /** The translation preserves meaning: for every policy set and every request that the documents
      translate faithfully for, the engine over Cedar decides as the JSON engine does. */
  lemma EnginesAgree(ps: seq<Policy>, q: Request)
    requires forall p | p in ps :: Faithful(p.doc, q)
    ensures CedarEvaluate(ps, q) == Evaluate(ps, q).verdict
  {
    CedarDecides(ps, q);
    FaithfulApplies(ps, Permit, q);
    FaithfulApplies(ps, Forbid, q);
    EvaluateDecides(ps, q);
  }

  /** Documents of the supported shape agree on every request. */
  lemma SupportedDocsAgree(ps: seq<Policy>, q: Request)
    requires forall p | p in ps :: Supported(p.doc)
    ensures CedarEvaluate(ps, q) == Evaluate(ps, q).verdict
  {
    forall p | p in ps ensures Faithful(p.doc, q) { SupportedIsFaithful(p.doc, q); }
    EnginesAgree(ps, q);
  }

  lemma SupportedIsFaithful(d: Doc, q: Request)
    requires Supported(d)
    ensures Faithful(d, q)
  {
    forall e | e in OrNone(d.resourceLabels) || e in OrNone(d.attributes) ensures Scalar(e.1) {
      assert e in OrNone(d.resourceLabels) + OrNone(d.attributes);
    }
  }

  // ----- where the engines part -----

  /** A single permit is decided alike by both engines exactly when Cedar cannot read it, or no
      clause that parts makes a difference to it. */
  lemma OnePermitAgreesIff(p: Policy, q: Request)
    requires p.effect == Permit
    ensures CedarEvaluate([p], q) == Evaluate([p], q).verdict <==>
              CedarAnswer([p], q).None? || (MatchesTranslated(p.doc, q) <==> Matches(p.doc, q))
  {
    CedarDecides([p], q);
    EvaluateDecides([p], q);
    OneApplies(p, Permit, q);
    OneApplies(p, Forbid, q);
  }

  lemma OneApplies(p: Policy, effect: Effect, q: Request)
    ensures AppliesTranslated([p], effect, q) <==> p.effect == effect && MatchesTranslated(p.doc, q)
    ensures Applies([p], effect, q) <==> p.effect == effect && Matches(p.doc, q)
  {
    assert p in [p] && forall x | x in [p] :: x == p;
  }

  function Permits(d: Doc): Policy { Policy("p", "p", Permit, 0, d) }

  /** The engines decide differently on the one policy that permits by the document. */
  predicate Part(d: Doc, q: Request) { CedarEvaluate([Permits(d)], q) != Evaluate([Permits(d)], q).verdict }

  const ANY := Doc(None, None, None, None, None, None, None, None, None, None)

  const SOMEONE := Principal("u", None, [], [], [], map[])

  lemma PartsByOneClause(d: Doc, q: Request)
    requires RepresentableRequest(q) && Readable(d) && MatchesTranslated(d, q) != Matches(d, q)
    ensures Part(d, q)
  {
    OnePermitAgreesIff(Permits(d), q);
    assert forall p | p in [Permits(d)] :: p.doc == d;
  }

  lemma TypeGapExample(d: Doc, q: Request)
    requires d == ANY.(resourceTypes := Some(["*"])) && q == Request(SOMEONE, "read", None)
    ensures Part(d, q)
  {
    assert TypeGap(d, q);
    PartsByOneClause(d, q);
  }

  lemma LabelGapExample(d: Doc, q: Request)
    requires d == ANY.(resourceLabels := Some([])) && q == Request(SOMEONE, "read", None)
    ensures Part(d, q)
  {
    assert LabelGap(d, q);
    PartsByOneClause(d, q);
  }

  /** A list in the document is asked for as the text of its items. */
  lemma AttributeGapExample(d: Doc, q: Request)
    requires d == ANY.(attributes := Some([("team", Arr([Str("a")]))]))
    requires q == Request(SOMEONE.(attributes := map["team" := Str("a")]), "read", None)
    ensures Part(d, q)
  {
    var e := ("team", Arr([Str("a")]));
    assert d.attributes.value == [e] && e in [e];
    assert ItemTexts([Str("a")]) == "a";
    assert EntryGap(q.principal.attributes, e);
    assert AttributeGap(d, q);
    PartsByOneClause(d, q);
  }

  lemma OwnerGapExample(d: Doc, q: Request)
    requires d == ANY.(ownerOnly := Some(true))
    requires q == Request(SOMEONE, "read", Some(Resource("node", "n", map[], None, Some("u"), None, [])))
    ensures Part(d, q)
  {
    assert OwnerGap(d, q);
    PartsByOneClause(d, q);
  }

  lemma MemberGapExample(d: Doc, q: Request)
    requires d == ANY.(members := Some([""])) && q == Request(SOMEONE, "read", None)
    ensures Part(d, q)
  {
    assert "" in d.members.value;
    assert MemberGap(d, q);
    PartsByOneClause(d, q);
  }
}
