/** Policy documents as Cedar policies, the context computed from a request, and the engine that
    asks Cedar and falls back to the JSON engine where Cedar cannot read what it is given. */
module CedarTranslation {
  import opened Wrappers
  import opened AbacModel
  import C = Cedar

  // ----- translating a document -----

  /** A literal for a document value; lists, objects and null become the text String() makes. */
  function Literal(v: Json): C.Value {
    match v
    case Str(s) => C.VStr(s)
    case Bool(b) => C.VBool(b)
    case Num(text) => C.VLong(text)
    case _ => C.VStr(Text(v))
  }

  const HAS_RESOURCE := C.Context("hasResource")

  function EntryConds(record: string, e: (string, Json)): seq<C.Expr> {
    [C.Has(C.Context(record), e.0), C.Equal(C.Get(C.Context(record), e.0), C.Lit(Literal(e.1)))]
  }

  function ActionConds(d: Doc): seq<C.Expr> {
    if Restricts(d.actions) && "*" !in d.actions.value
    then [C.Contains(C.Strings(d.actions.value), C.Context("action"))] else []
  }

  function RoleConds(d: Doc): seq<C.Expr> {
    if Restricts(d.roles) && "*" !in d.roles.value
    then [C.ContainsAny(C.Context("roles"), C.Strings(d.roles.value))] else []
  }

  function TypeConds(d: Doc): seq<C.Expr> {
    if Restricts(d.resourceTypes) && "*" !in d.resourceTypes.value
    then [HAS_RESOURCE, C.Contains(C.Strings(d.resourceTypes.value), C.Context("resourceType"))] else []
  }

  function LabelConds(entries: seq<(string, Json)>): seq<C.Expr> {
    if entries == [] then []
    else LabelConds(entries[..|entries| - 1]) + [HAS_RESOURCE] + EntryConds("labels", entries[|entries| - 1])
  }

  function AttributeConds(entries: seq<(string, Json)>): seq<C.Expr> {
    if entries == [] then []
    else AttributeConds(entries[..|entries| - 1]) + EntryConds("attributes", entries[|entries| - 1])
  }

  function OwnerConds(d: Doc): seq<C.Expr> {
    if d.ownerOnly == Some(true) then [HAS_RESOURCE, C.Context("isOwner")] else []
  }

  function RelationConds(d: Doc): seq<C.Expr> {
    if Restricts(d.relations)
    then [HAS_RESOURCE, C.ContainsAny(C.Context("relations"), C.Strings(d.relations.value))] else []
  }

  function GroupConds(d: Doc): seq<C.Expr> {
    if Restricts(d.groups) && "*" !in d.groups.value
    then [C.ContainsAny(C.Context("groups"), C.Strings(d.groups.value))] else []
  }

  function MemberConds(d: Doc): seq<C.Expr> {
    if Restricts(d.members)
    then [C.Or(C.Contains(C.Strings(d.members.value), C.Context("memberId")),
               C.Contains(C.Strings(d.members.value), C.Context("userId")))]
    else []
  }

  /** A condition reads the pre-computed values of its attribute; an absent key means unset. */
  function ConditionExpr(c: Condition): C.Expr {
    var has := C.Has(C.Context("attrs"), c.attr);
    var values := C.Get(C.Context("attrs"), c.attr);
    match c.test
    case Eq(v) => C.And(has, C.Contains(values, C.Lit(C.VStr(v))))
    case Ne(v) => C.Not(C.And(has, C.Contains(values, C.Lit(C.VStr(v)))))
    case In(vs) => C.And(has, C.ContainsAny(values, C.Strings(vs)))
    case NotIn(vs) => C.Not(C.And(has, C.ContainsAny(values, C.Strings(vs))))
    case Exists => has
    case NotExists => C.Not(has)
  }

  function ConditionConds(cs: seq<Condition>): seq<C.Expr> {
    if cs == [] then [] else ConditionConds(cs[..|cs| - 1]) + [ConditionExpr(cs[|cs| - 1])]
  }

  function OrNone<T>(o: Option<seq<T>>): seq<T> { if o.Some? then o.value else [] }

  function Conds(d: Doc): seq<C.Expr> {
    ActionConds(d) + RoleConds(d) + TypeConds(d) + LabelConds(OrNone(d.resourceLabels))
        + AttributeConds(OrNone(d.attributes))
    + OwnerConds(d) + RelationConds(d) + GroupConds(d) + MemberConds(d) + ConditionConds(OrNone(d.conditions))
  }

  /** The conjunction, as the joined text parses: to the left. */
  function When(conds: seq<C.Expr>): C.Expr {
    if conds == [] then C.Lit(C.VBool(true))
    else if |conds| == 1 then conds[0]
    else C.And(When(conds[..|conds| - 1]), conds[|conds| - 1])
  }

  function Translate(p: Policy): C.Policy { C.Policy(p.effect.Permit?, When(Conds(p.doc))) }

  function TranslateAll(ps: seq<Policy>): seq<C.Policy> {
    seq(|ps|, i requires 0 <= i < |ps| => Translate(ps[i]))
  }

  // ----- the context of a request -----

  predicate AllDigits(s: string) { forall i | 0 <= i < |s| :: '0' <= s[i] <= '9' }

  predicate IsDigits(s: string) { s != "" && AllDigits(s) }

  function Number(digits: string): nat
    requires AllDigits(digits)
  {
    if digits == "" then 0
    else Number(digits[..|digits| - 1]) * 10 + (digits[|digits| - 1] as int - '0' as int)
  }

  const LIMIT: nat := 0x8000_0000_0000_0000

  /** A number that Cedar reads as an integer of its own: 64 bits, signed, no fraction. */
  predicate IsLong(text: string) {
    if "-" <= text then IsDigits(text[1..]) && Number(text[1..]) <= LIMIT
    else IsDigits(text) && Number(text) < LIMIT
  }

  /** The value can be part of a Cedar context: no null and no fractions. */
  predicate Representable(v: Json)
    decreases v
  {
    match v
    case Null => false
    case Num(text) => IsLong(text)
    case Arr(items) => forall x | x in items :: Representable(x)
    case Obj(entries) => forall e | e in entries :: Representable(e.1)
    case _ => true
  }

  function ToValue(v: Json): C.Value
    requires Representable(v)
    decreases v
  {
    match v
    case Bool(b) => C.VBool(b)
    case Num(text) => C.VLong(text)
    case Str(s) => C.VStr(s)
    case Arr(items) => C.VSet(set x | x in items :: ToValue(x))
    case Obj(entries) => C.VRec(map i: nat | i < |entries|
        && (forall j | i < j < |entries| :: entries[j].0 != entries[i].0)
                                :: entries[i].0 := ToValue(entries[i].1))
  }

  predicate RepresentableMap(m: map<string, Json>) { forall k | k in m :: Representable(m[k]) }

  predicate RepresentableRequest(q: Request) {
    RepresentableMap(q.principal.attributes) && (q.resource.Some? ==> RepresentableMap(q.resource.value.labels))
  }

  function ToRecord(m: map<string, Json>): C.Value
    requires RepresentableMap(m)
  {
    C.VRec(map k | k in m :: ToValue(m[k]))
  }

  function Strs(xs: seq<string>): C.Value { C.VSet(C.StrSet(xs)) }

  function AttrRecord(paths: set<string>, q: Request): map<string, C.Value> {
    map path | path in paths && LookupAttr(path, q.principal, q.resource) != [] ::
      Strs(LookupAttr(path, q.principal, q.resource))
  }

  predicate CedarOwner(q: Request) {
    q.resource.Some? &&
    var r := q.resource.value;
    "owner" in r.relations || (Given(r.ownerMemberId) && r.ownerMemberId == q.principal.memberId)
  }

  function BuildContext(q: Request, paths: set<string>): C.Record
    requires RepresentableRequest(q)
  {
    map["userId" := C.VStr(q.principal.userId),
        "memberId" := C.VStr(if q.principal.memberId.Some? then q.principal.memberId.value else ""),
        "groups" := Strs(PrincipalGroups(q.principal)),
        "attrs" := C.VRec(AttrRecord(paths, q)),
        "action" := C.VStr(q.action),
        "roles" := Strs(q.principal.roles),
        "attributes" := ToRecord(q.principal.attributes),
        "hasResource" := C.VBool(q.resource.Some?),
        "resourceType" := C.VStr(if q.resource.Some? then q.resource.value.kind else ""),
        "labels" := if q.resource.Some? then ToRecord(q.resource.value.labels) else C.VRec(map[]),
        "relations" := Strs(if q.resource.Some? then q.resource.value.relations else []),
        "isOwner" := C.VBool(CedarOwner(q))]
  }

  // ----- the engine -----

  /** The literals that are printed as numbers are numbers to Cedar. */
  predicate ReadableEntries(entries: seq<(string, Json)>) {
    forall e | e in entries :: e.1.Num? ==> IsLong(e.1.text)
  }

  predicate Readable(d: Doc) { ReadableEntries(OrNone(d.resourceLabels)) && ReadableEntries(OrNone(d.attributes)) }

  /** What Cedar answers, if it can read the policies, which are one text, and the context. */
  function CedarAnswer(ps: seq<Policy>, q: Request): Option<bool> {
    if RepresentableRequest(q) && forall p | p in ps :: Readable(p.doc)
    then Some(C.Allows(TranslateAll(ps), BuildContext(q, ReferencedAttrs(ps)))) else None
  }

  /** The engine over Cedar: without an answer the JSON engine decides. */
  function CedarEvaluate(ps: seq<Policy>, q: Request): Verdict {
    match CedarAnswer(ps, q)
    case Some(allowed) => if allowed then Allow else Deny
    case None => Evaluate(ps, q).verdict
  }

  function DocAttrs(d: Doc): set<string> { set c | c in OrNone(d.conditions) :: c.attr }

  function ReferencedAttrs(ps: seq<Policy>): set<string> {
    set p, a | p in ps && a in DocAttrs(p.doc) :: a
  }

  // ----- truth of a conjunction -----

  ghost predicate AllTrue(conds: seq<C.Expr>, ctx: C.Record) {
    forall e | e in conds :: C.Eval(e, ctx) == Some(C.VBool(true))
  }

  lemma {:induction false} WhenIsAll(conds: seq<C.Expr>, ctx: C.Record)
    ensures C.Eval(When(conds), ctx) == Some(C.VBool(true)) <==> AllTrue(conds, ctx)
  {
    if |conds| > 1 {
      var n := |conds| - 1;
      WhenIsAll(conds[..n], ctx);
      assert conds == conds[..n] + [conds[n]];
    }
  }

  lemma AllTrueConcat(a: seq<C.Expr>, b: seq<C.Expr>, ctx: C.Record)
    ensures AllTrue(a + b, ctx) <==> AllTrue(a, ctx) && AllTrue(b, ctx)
  {
    forall e | e in a || e in b ensures e in a + b {}
  }

  lemma MeetsIsIntersection(xs: seq<string>, ys: seq<string>)
    ensures C.StrSet(xs) * C.StrSet(ys) != {} <==> Meets(xs, ys)
    ensures Meets(xs, ys) <==> Meets(ys, xs)
  {
    if Meets(xs, ys) {
      var x :| x in xs && x in ys;
      assert C.VStr(x) in C.StrSet(xs) * C.StrSet(ys);
    }
    if C.StrSet(xs) * C.StrSet(ys) != {} {
      var v :| v in C.StrSet(xs) * C.StrSet(ys);
      assert v.s in xs && v.s in ys;
    }
  }
}
