/** Attribute-based access control: requests, policy documents, attribute lookup and matching. */
module AbacModel {
  import opened Strings
  import opened Wrappers

  /** JSON values; a number is known by its canonical text. */
  datatype Json =
    | Null
    | Bool(b: bool)
    | Num(text: string)
    | Str(s: string)
    | Arr(items: seq<Json>)
    | Obj(entries: seq<(string, Json)>)

  /** The text that String() makes of a value. */
  function Text(v: Json): string
    decreases v
  {
    match v
    case Null => "null"
    case Bool(b) => if b then "true" else "false"
    case Num(text) => text
    case Str(s) => s
    case Arr(items) => ItemTexts(items)
    case Obj(_) => "[object Object]"
  }

  function ItemTexts(items: seq<Json>): string
    decreases items
  {
    if items == [] then ""
    else
      var first := if items[0].Null? then "" else Text(items[0]);
      if |items| == 1 then first else first + "," + ItemTexts(items[1..])
  }

  // ----- requests -----

  datatype Principal = Principal(
    userId: string, memberId: Option<string>, roles: seq<string>, teamIds: seq<string>, groups: seq<string>,
    attributes: map<string, Json>)

  datatype Resource = Resource(
    kind: string, id: string, labels: map<string, Json>, env: Option<string>,
    ownerMemberId: Option<string>, ownerTeamId: Option<string>, relations: seq<string>)

  datatype Request = Request(principal: Principal, action: string, resource: Option<Resource>)

  // ----- attributes -----

  const ENV_LABEL := "swarmy.env"
  const APP_ENV_LABEL := "swarmy.app.environment"

  function EnvAlias(v: string): string {
    if v in {"prod", "prd", "production", "live"} then "production"
    else if v in {"stage", "staging", "stg"} then "staging"
    else if v in {"dev", "development"} then "development"
    else v
  }

  function Field(m: map<string, Json>, key: string): Option<Json> {
    if key in m then Some(m[key]) else None
  }

  function NormaliseEnv(value: Option<Json>): Option<string> {
    if value.None? || !value.value.Str? then None
    else
      var v := ToLower(Trim(value.value.s));
      if v == "" then None else Some(EnvAlias(v))
  }

  function ResourceEnv(r: Option<Resource>): Option<string> {
    if r.None? then None
    else if r.value.env.Some? then NormaliseEnv(Some(Str(r.value.env.value)))
    else
      var own := NormaliseEnv(Field(r.value.labels, ENV_LABEL));
      if own.Some? then own else NormaliseEnv(Field(r.value.labels, APP_ENV_LABEL))
  }

  function ItemStrings(items: seq<Json>): seq<string> {
    if items == [] then []
    else (if items[0].Null? then [] else [Text(items[0])]) + ItemStrings(items[1..])
  }

  function Values(v: Option<Json>): seq<string> {
    if v.None? || v.value == Null || v.value == Str("") || v.value.Obj? then []
    else if v.value.Arr? then ItemStrings(v.value.items)
    else [Text(v.value)]
  }

  function Dedupe(xs: seq<string>): (ys: seq<string>)
    ensures forall x :: x in ys <==> x in xs
  {
    if xs == [] then []
    else
      var init := Dedupe(xs[..|xs| - 1]);
      assert xs == xs[..|xs| - 1] + [xs[|xs| - 1]];
      if xs[|xs| - 1] in init then init else init + [xs[|xs| - 1]]
  }

  function GroupsFromAttributes(a: map<string, Json>): seq<string> {
    Dedupe(Values(Field(a, "groups")) + Values(Field(a, "ssoGroups")) + Values(Field(a, "teamIds")))
  }

  function PrincipalGroups(p: Principal): seq<string> {
    Dedupe(p.groups + p.teamIds + GroupsFromAttributes(p.attributes))
  }

  const LABEL_PREFIX := "resource.label."
  const PRINCIPAL_PREFIX := "principal."

  predicate IsAttrPath(attr: string) {
    if attr in {"resource.env", "resource.type", "resource.id"} then true
    else if LABEL_PREFIX <= attr then |attr| > |LABEL_PREFIX|
    else PRINCIPAL_PREFIX <= attr && |attr| > |PRINCIPAL_PREFIX|
  }

  function OptionJson(o: Option<string>): Option<Json> { if o.Some? then Some(Str(o.value)) else None }

  function LookupAttr(attr: string, p: Principal, r: Option<Resource>): seq<string> {
    if attr == "resource.env" then Values(OptionJson(ResourceEnv(r)))
    else if attr == "resource.type" then if r.Some? then Values(Some(Str(r.value.kind))) else []
    else if attr == "resource.id" then if r.Some? then Values(Some(Str(r.value.id))) else []
    else if LABEL_PREFIX <= attr then
      if r.Some? then Values(Field(r.value.labels, attr[|LABEL_PREFIX|..])) else []
    else if attr == "principal.role" then p.roles
    else if attr == "principal.groups" then PrincipalGroups(p)
    else if PRINCIPAL_PREFIX <= attr then Values(Field(p.attributes, attr[|PRINCIPAL_PREFIX|..]))
    else []
  }

  // ----- policy documents -----

  datatype Test =
    | Eq(value: string)
    | Ne(value: string)
    | In(values: seq<string>)
    | NotIn(values: seq<string>)
    | Exists
    | NotExists

  datatype Condition = Condition(attr: string, test: Test)

  datatype Doc = Doc(
    actions: Option<seq<string>>, roles: Option<seq<string>>, resourceTypes: Option<seq<string>>,
    resourceLabels: Option<seq<(string, Json)>>, attributes: Option<seq<(string, Json)>>, ownerOnly: Option<bool>,
    relations: Option<seq<string>>, groups: Option<seq<string>>, members: Option<seq<string>>,
    conditions: Option<seq<Condition>>)

  // ----- matching -----

  predicate Meets(xs: seq<string>, ys: seq<string>) { exists x | x in xs :: x in ys }

  predicate Restricts(list: Option<seq<string>>) { list.Some? && list.value != [] }

  predicate ListMatches(list: Option<seq<string>>, value: string) {
    !Restricts(list) || "*" in list.value || value in list.value
  }

  predicate ConditionHolds(t: Test, values: seq<string>) {
    match t
    case Eq(v) => v in values
    case Ne(v) => v !in values
    case In(vs) => Meets(values, vs)
    case NotIn(vs) => !Meets(values, vs)
    case Exists => values != []
    case NotExists => values == []
  }

  predicate RolesMatch(d: Doc, q: Request) {
    Restricts(d.roles) ==> "*" in d.roles.value || Meets(d.roles.value, q.principal.roles)
  }

  predicate TypesMatch(d: Doc, q: Request) {
    Restricts(d.resourceTypes) ==> q.resource.Some? && ListMatches(d.resourceTypes, q.resource.value.kind)
  }

  /** Strict equality: lists and objects of a document are never those of a request. */
  predicate Same(mine: Option<Json>, wanted: Json) {
    mine == Some(wanted) && !wanted.Arr? && !wanted.Obj?
  }

  predicate LabelsMatch(d: Doc, q: Request) {
    d.resourceLabels.Some? ==>
      && q.resource.Some?
      && forall e | e in d.resourceLabels.value :: Same(Field(q.resource.value.labels, e.0), e.1)
  }

  predicate AttributesMatch(d: Doc, q: Request) {
    d.attributes.Some? ==>
      forall e | e in d.attributes.value :: Same(Field(q.principal.attributes, e.0), e.1)
  }

  function TeamIds(p: Principal): seq<string> {
    if p.teamIds != [] then p.teamIds
    else match Field(p.attributes, "teamIds")
      case Some(Arr(items)) => seq(|items|, i requires 0 <= i < |items| => Text(items[i]))
      case _ => []
  }

  predicate Given(o: Option<string>) { o.Some? && o.value != "" }

  predicate Owns(p: Principal, r: Resource) {
    || "owner" in r.relations
    || (Given(r.ownerMemberId) && (r.ownerMemberId == p.memberId || r.ownerMemberId == Some(p.userId)))
    || (Given(r.ownerTeamId) && r.ownerTeamId.value in TeamIds(p))
  }

  predicate OwnerMatches(d: Doc, q: Request) {
    d.ownerOnly == Some(true) ==> q.resource.Some? && Owns(q.principal, q.resource.value)
  }

  predicate RelationsMatch(d: Doc, q: Request) {
    Restricts(d.relations) ==> q.resource.Some? && Meets(d.relations.value, q.resource.value.relations)
  }

  predicate GroupsMatch(d: Doc, q: Request) {
    Restricts(d.groups) ==> "*" in d.groups.value || Meets(d.groups.value, PrincipalGroups(q.principal))
  }

  /** The non-empty ids the principal goes by. */
  function Ids(p: Principal): seq<string> {
    (if Given(p.memberId) then [p.memberId.value] else []) + (if p.userId != "" then [p.userId] else [])
  }

  predicate MembersMatch(d: Doc, q: Request) {
    Restricts(d.members) ==> Meets(d.members.value, Ids(q.principal))
  }

  predicate ConditionsMatch(d: Doc, q: Request) {
    d.conditions.Some? ==>
      forall c | c in d.conditions.value :: ConditionHolds(c.test, LookupAttr(c.attr, q.principal, q.resource))
  }

  predicate Matches(d: Doc, q: Request) {
    && ListMatches(d.actions, q.action) && RolesMatch(d, q) && TypesMatch(d, q) && LabelsMatch(d, q)
    && AttributesMatch(d, q) && OwnerMatches(d, q) && RelationsMatch(d, q) && GroupsMatch(d, q)
    && MembersMatch(d, q) && ConditionsMatch(d, q)
  }

  // ----- the engine -----

  datatype Effect = Permit | Forbid

  datatype Policy = Policy(id: string, name: string, effect: Effect, priority: int, doc: Doc)

  datatype Verdict = Allow | Deny

  datatype Decision = Decision(verdict: Verdict, policyId: Option<string>)

  function Select(ps: seq<Policy>, effect: Effect, q: Request): (r: seq<Policy>)
    ensures forall p | p in r :: p in ps && p.effect == effect && Matches(p.doc, q)
    ensures forall p | p in ps && p.effect == effect && Matches(p.doc, q) :: p in r
  {
    if ps == [] then []
    else
      var n := |ps| - 1;
      var init := Select(ps[..n], effect, q);
      assert ps == ps[..n] + [ps[n]];
      if ps[n].effect == effect && Matches(ps[n].doc, q) then init + [ps[n]] else init
  }

  /** A stable insertion by descending priority. */
  function Insert(sorted: seq<Policy>, p: Policy): seq<Policy> {
    if sorted == [] then [p]
    else
      var n := |sorted| - 1;
      if sorted[n].priority >= p.priority then sorted + [p] else Insert(sorted[..n], p) + [sorted[n]]
  }

  function SortByPriority(ps: seq<Policy>): seq<Policy> {
    if ps == [] then [] else Insert(SortByPriority(ps[..|ps| - 1]), ps[|ps| - 1])
  }

  function Evaluate(ps: seq<Policy>, q: Request): Decision {
    var forbids := SortByPriority(Select(ps, Forbid, q));
    if forbids != [] then Decision(Deny, Some(forbids[0].id))
    else
      var permits := SortByPriority(Select(ps, Permit, q));
      if permits != [] then Decision(Allow, Some(permits[0].id)) else Decision(Deny, None)
  }
}
