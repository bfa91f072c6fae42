/** What the engine decides on a single clause, in terms of the request's own fields. */
module AbacDecisions {
  import opened Strings
  import opened Wrappers
  import opened AbacModel
  import opened AbacParse
  import opened CedarProofs

  // ----- one permit -----

  /** One permit allows exactly the requests its document matches. */
  lemma OnePermitDecides(d: Doc, q: Request)
    ensures Evaluate([Permits(d)], q).verdict == Allow <==> Matches(d, q)
  {
    EvaluateDecides([Permits(d)], q);
    OneApplies(Permits(d), Permit, q);
    OneApplies(Permits(d), Forbid, q);
  }

  /** The engine allows the request by one permit with this one condition. */
  predicate AllowedIf(path: string, t: Test, q: Request) {
    Evaluate([Permits(ANY.(conditions := Some([Condition(path, t)])))], q).verdict == Allow
  }

  lemma ConditionDecides(path: string, t: Test, q: Request)
    ensures AllowedIf(path, t, q) <==> ConditionHolds(t, LookupAttr(path, q.principal, q.resource))
  {
    var c := Condition(path, t);
    OnePermitDecides(ANY.(conditions := Some([c])), q);
    assert c in [c];
  }

  lemma TestsOf(values: seq<string>, allowed: Test -> bool, v: string, vs: seq<string>)
    requires forall t :: allowed(t) <==> ConditionHolds(t, values)
    ensures allowed(Ne(v)) <==> !allowed(Eq(v))
    ensures allowed(In(vs)) <==> exists x | x in vs :: allowed(Eq(x))
    ensures allowed(NotIn(vs)) <==> !allowed(In(vs))
    ensures allowed(Exists) <==> exists x :: allowed(Eq(x))
    ensures allowed(NotExists) <==> !allowed(Exists)
  {
    forall x ensures allowed(Eq(x)) <==> x in values {}
    if values != [] { assert allowed(Eq(values[0])); }
    if x :| x in values && x in vs { assert allowed(Eq(x)); }
  }

  function AllowedFor(path: string, q: Request): Test -> bool { t => AllowedIf(path, t, q) }

  /** The five other tests, by the test for one value. */
  lemma TestsDecide(path: string, v: string, vs: seq<string>, q: Request, allowed: Test -> bool)
    requires allowed == AllowedFor(path, q)
    ensures allowed(Ne(v)) <==> !allowed(Eq(v))
    ensures allowed(In(vs)) <==> exists x | x in vs :: allowed(Eq(x))
    ensures allowed(NotIn(vs)) <==> !allowed(In(vs))
    ensures allowed(Exists) <==> exists x :: allowed(Eq(x))
    ensures allowed(NotExists) <==> !allowed(Exists)
  {
    var values := LookupAttr(path, q.principal, q.resource);
    forall t ensures allowed(t) <==> ConditionHolds(t, values) { ConditionDecides(path, t, q); }
    TestsOf(values, allowed, v, vs);
  }

  // ----- what a value says -----

  /** The text of a value that is neither a list nor an object. */
  predicate Writes(j: Json, v: string) {
    match j
    case Str(s) => s == v
    case Num(text) => text == v
    case Bool(b) => v == if b then "true" else "false"
    case _ => false
  }

  /** The field is v, or a list with v among its items. */
  predicate Says(m: map<string, Json>, key: string, v: string) {
    key in m
        && (Writes(m[key], v) || (m[key].Arr? && exists i | 0 <= i < |m[key].items| :: ItemWrites(m[key].items[i], v)))
  }

  /** An item that is a list or an object of its own stands for the text that String() makes of it. */
  predicate ItemWrites(j: Json, v: string) {
    if j.Arr? || j.Obj? then Text(j) == v else Writes(j, v)
  }

  /** That text: the items of a list joined by commas, with nothing for a null, and one fixed text for
      any object. */
  lemma TextReads(items: seq<Json>, entries: seq<(string, Json)>)
    ensures Text(Obj(entries)) == "[object Object]" && Text(Null) == "null" && Text(Arr([])) == ""
    ensures items != [] ==>
              var first := if items[0].Null? then "" else Text(items[0]);
              Text(Arr(items)) == if |items| == 1 then first else first + "," + Text(Arr(items[1..]))
    ensures forall j, v | Writes(j, v) :: Text(j) == v
  {
  }

  lemma {:induction false} ItemsSay(items: seq<Json>, v: string)
    ensures v in ItemStrings(items) <==> exists i | 0 <= i < |items| :: ItemWrites(items[i], v)
  {
    if items != [] {
      ItemsSay(items[1..], v);
      if i :| 0 <= i < |items| && ItemWrites(items[i], v) {
        assert i > 0 ==> items[1..][i - 1] == items[i];
      }
      if i :| 0 <= i < |items[1..]| && ItemWrites(items[1..][i], v) { assert items[i + 1] == items[1..][i]; }
    }
  }

  lemma ValuesSay(m: map<string, Json>, key: string, v: string)
    requires v != ""
    ensures v in Values(Field(m, key)) <==> Says(m, key, v)
  {
    if key in m && m[key].Arr? { ItemsSay(m[key].items, v); }
  }

  // ----- the paths -----

  lemma TypeDecides(v: string, q: Request)
    requires v != ""
    ensures AllowedIf("resource.type", Eq(v), q) <==> q.resource.Some? && q.resource.value.kind == v
  {
    ConditionDecides("resource.type", Eq(v), q);
  }

  lemma IdDecides(v: string, q: Request)
    requires v != ""
    ensures AllowedIf("resource.id", Eq(v), q) <==> q.resource.Some? && q.resource.value.id == v
  {
    ConditionDecides("resource.id", Eq(v), q);
  }

  lemma LabelDecides(name: string, v: string, q: Request)
    requires v != ""
    ensures AllowedIf("resource.label." + name, Eq(v), q)
        <==> q.resource.Some? && Says(q.resource.value.labels, name, v)
  {
    var path := "resource.label." + name;
    ConditionDecides(path, Eq(v), q);
    assert path[9] == 'l' && "resource.env"[9] == 'e' && "resource.type"[9] == 't' && "resource.id"[9] == 'i';
    assert path[|LABEL_PREFIX|..] == name;
    if q.resource.Some? { ValuesSay(q.resource.value.labels, name, v); }
  }

  lemma PrincipalPath(key: string, path: string)
    requires path == "principal." + key
    ensures path[|PRINCIPAL_PREFIX|..] == key && PRINCIPAL_PREFIX <= path && !(LABEL_PREFIX <= path)
    ensures path !in {"resource.env", "resource.type", "resource.id"}
    ensures path == "principal.role" <==> key == "role"
    ensures path == "principal.groups" <==> key == "groups"
  {
    assert path[0] == 'p' && LABEL_PREFIX[0] == 'r';
    assert "principal.role"[10..] == "role" && "principal.groups"[10..] == "groups" && path[10..] == key;
  }

  lemma RoleDecides(v: string, q: Request)
    ensures AllowedIf("principal.role", Eq(v), q) <==> v in q.principal.roles
  {
    assert "principal.role" == "principal." + "role";
    PrincipalPath("role", "principal.role");
    ConditionDecides("principal.role", Eq(v), q);
  }

  lemma AttributeDecides(key: string, v: string, q: Request)
    requires v != "" && key != "role" && key != "groups"
    ensures AllowedIf("principal." + key, Eq(v), q) <==> Says(q.principal.attributes, key, v)
  {
    PrincipalPath(key, "principal." + key);
    ConditionDecides("principal." + key, Eq(v), q);
    ValuesSay(q.principal.attributes, key, v);
  }

  /** Groups come with the principal, by its teams, and by three of its attributes. */
  predicate InGroup(p: Principal, v: string) {
    || v in p.groups || v in p.teamIds
    || Says(p.attributes, "groups", v) || Says(p.attributes, "ssoGroups", v) || Says(p.attributes, "teamIds", v)
  }

  lemma GroupsAre(p: Principal, v: string)
    requires v != ""
    ensures v in PrincipalGroups(p) <==> InGroup(p, v)
  {
    ValuesSay(p.attributes, "groups", v);
    ValuesSay(p.attributes, "ssoGroups", v);
    ValuesSay(p.attributes, "teamIds", v);
  }

  lemma GroupsDecide(v: string, q: Request)
    requires v != ""
    ensures AllowedIf("principal.groups", Eq(v), q) <==> InGroup(q.principal, v)
  {
    assert "principal.groups" == "principal." + "groups";
    PrincipalPath("groups", "principal.groups");
    ConditionDecides("principal.groups", Eq(v), q);
    GroupsAre(q.principal, v);
  }

  // ----- environments -----

  /** The text names the environment e: by one of its aliases, in any case and with blanks around it. */
  predicate NamesEnv(text: string, e: string) {
    var t := ToLower(Trim(text));
    t != "" &&
    if t in ["prod", "prd", "production", "live"] then e == "production"
    else if t in ["stage", "staging", "stg"] then e == "staging"
    else if t in ["dev", "development"] then e == "development"
    else e == t
  }

  lemma EnvIsNamed(text: string, e: string)
    ensures NormaliseEnv(Some(Str(text))) == Some(e) <==> NamesEnv(text, e)
  {
  }

  predicate LabelNamesEnv(r: Resource, name: string, e: string) {
    name in r.labels && r.labels[name].Str? && NamesEnv(r.labels[name].s, e)
  }

  /** An explicit environment, even a blank one, hides the labels; and of the labels the first that
      names any environment counts. */
  ghost predicate InEnv(r: Resource, e: string) {
    if r.env.Some? then NamesEnv(r.env.value, e)
    else
      LabelNamesEnv(r, "swarmy.env", e) ||
      (LabelNamesEnv(r, "swarmy.app.environment", e) && !exists other :: LabelNamesEnv(r, "swarmy.env", other))
  }

  lemma LabelEnv(r: Resource, name: string)
    ensures forall e :: NormaliseEnv(Field(r.labels, name)) == Some(e) <==> LabelNamesEnv(r, name, e)
    ensures NormaliseEnv(Field(r.labels, name)).None? <==> !exists e :: LabelNamesEnv(r, name, e)
  {
    forall e ensures NormaliseEnv(Field(r.labels, name)) == Some(e) <==> LabelNamesEnv(r, name, e) {
      if name in r.labels && r.labels[name].Str? { EnvIsNamed(r.labels[name].s, e); }
    }
    if NormaliseEnv(Field(r.labels, name)).Some? {
      assert LabelNamesEnv(r, name, NormaliseEnv(Field(r.labels, name)).value);
    }
  }

  lemma EnvIsIn(r: Resource, e: string)
    ensures ResourceEnv(Some(r)) == Some(e) <==> InEnv(r, e)
  {
    if r.env.Some? {
      EnvIsNamed(r.env.value, e);
    } else {
      LabelEnv(r, "swarmy.env");
      LabelEnv(r, "swarmy.app.environment");
    }
  }

  lemma EnvDecides(e: string, q: Request)
    requires e != ""
    ensures AllowedIf("resource.env", Eq(e), q) <==> q.resource.Some? && InEnv(q.resource.value, e)
  {
    ConditionDecides("resource.env", Eq(e), q);
    if q.resource.Some? {
      EnvIsIn(q.resource.value, e);
      var env := ResourceEnv(q.resource);
      assert e in Values(OptionJson(env)) <==> env == Some(e);
    }
  }

  // ----- the list clauses -----

  predicate AllowedBy(d: Doc, q: Request) { Evaluate([Permits(d)], q).verdict == Allow }

  /** A list clause restricts nothing when it is empty or has the wildcard; otherwise one of its items
      has to be met. */
  lemma ActionsDecide(list: seq<string>, q: Request)
    ensures AllowedBy(ANY.(actions := Some(list)), q) <==> list == [] || "*" in list || q.action in list
  {
    OnePermitDecides(ANY.(actions := Some(list)), q);
  }

  lemma RolesDecide(list: seq<string>, q: Request)
    ensures AllowedBy(ANY.(roles := Some(list)), q) <==>
              list == [] || "*" in list || exists x | x in list :: x in q.principal.roles
  {
    OnePermitDecides(ANY.(roles := Some(list)), q);
  }

  /** A list of resource types, even one with the wildcard, demands a resource. */
  lemma TypesDecide(list: seq<string>, q: Request)
    ensures AllowedBy(ANY.(resourceTypes := Some(list)), q) <==>
              list == [] || (q.resource.Some? && ("*" in list || q.resource.value.kind in list))
  {
    OnePermitDecides(ANY.(resourceTypes := Some(list)), q);
  }

  lemma RelationsDecide(list: seq<string>, q: Request)
    ensures AllowedBy(ANY.(relations := Some(list)), q) <==>
              list == [] || (q.resource.Some? && exists x | x in list :: x in q.resource.value.relations)
  {
    OnePermitDecides(ANY.(relations := Some(list)), q);
  }

  lemma GroupListDecides(list: seq<string>, q: Request)
    requires "" !in list
    ensures AllowedBy(ANY.(groups := Some(list)), q) <==>
              list == [] || "*" in list || exists x | x in list :: InGroup(q.principal, x)
  {
    OnePermitDecides(ANY.(groups := Some(list)), q);
    forall x | x in list ensures x in PrincipalGroups(q.principal)
        <==> InGroup(q.principal, x) { GroupsAre(q.principal, x); }
  }

  /** Members are known by their member id or their user id, where these are not empty. */
  lemma MemberListDecides(list: seq<string>, q: Request)
    ensures AllowedBy(ANY.(members := Some(list)), q) <==>
              list == [] || exists x | x in list ::
                x != "" && (q.principal.memberId == Some(x) || q.principal.userId == x)
  {
    OnePermitDecides(ANY.(members := Some(list)), q);
    assert forall x :: x in Ids(q.principal) <==>
        x != "" && (q.principal.memberId == Some(x) || q.principal.userId == x);
  }

  /** The teams given with the principal, or if there are none those of its attribute. */
  predicate InTeam(p: Principal, team: string) {
    if p.teamIds != [] then team in p.teamIds
    else "teamIds" in p.attributes && p.attributes["teamIds"].Arr?
         && exists i | 0 <= i < |p.attributes["teamIds"].items| :: Text(p.attributes["teamIds"].items[i]) == team
  }

  lemma TeamsAre(p: Principal, team: string)
    ensures team in TeamIds(p) <==> InTeam(p, team)
  {
    if p.teamIds == [] && "teamIds" in p.attributes && p.attributes["teamIds"].Arr? {
      var items, teams := p.attributes["teamIds"].items, TeamIds(p);
      assert |teams| == |items| && forall i | 0 <= i < |items| :: teams[i] == Text(items[i]);
      if InTeam(p, team) {
        var i :| 0 <= i < |items| && Text(items[i]) == team;
        assert teams[i] == team;
      }
    }
  }

  /** A resource is the principal's own by its relation, by the member or user that owns it, or by a
      team of the principal that does. */
  predicate IsOwn(p: Principal, r: Resource) {
    || "owner" in r.relations
    || (r.ownerMemberId.Some? && r.ownerMemberId.value != "" && r.ownerMemberId in [p.memberId, Some(p.userId)])
    || (r.ownerTeamId.Some? && r.ownerTeamId.value != "" && InTeam(p, r.ownerTeamId.value))
  }

  lemma OwnIs(p: Principal, r: Resource)
    ensures Owns(p, r) <==> IsOwn(p, r)
  {
    if r.ownerTeamId.Some? { TeamsAre(p, r.ownerTeamId.value); }
  }

  lemma OwnerDecides(q: Request)
    ensures AllowedBy(ANY.(ownerOnly := Some(true)), q) <==> q.resource.Some? && IsOwn(q.principal, q.resource.value)
  {
    OnePermitDecides(ANY.(ownerOnly := Some(true)), q);
    if q.resource.Some? { OwnIs(q.principal, q.resource.value); }
  }

  // ----- what the parser takes, and what it makes of it -----

  predicate StringsOrAbsent(es: Entries, key: string) {
    Find(es, key).None? || (Find(es, key).value.Arr? && forall x | x in Find(es, key).value.items :: x.Str?)
  }

  predicate ObjectOrAbsent(es: Entries, key: string) { Find(es, key).None? || Find(es, key).value.Obj? }

  /** A condition as the parser demands it: a known path, one of six operators, and the value it takes. */
  predicate GoodCondition(c: Json) {
    c.Obj? &&
    var attr, op, value := Find(c.entries, "attr"), Find(c.entries, "op"), Find(c.entries, "value");
    && attr.Some? && attr.value.Str? && KnownPath(attr.value.s) && op.Some? && op.value.Str?
    && op.value.s in ["eq", "ne", "in", "notIn", "exists", "notExists"]
    && (op.value.s in ["eq", "ne"] ==> value.Some? && (value.value.Str? || value.value.Num? || value.value.Bool?))
    && (op.value.s in ["in", "notIn"] ==>
          value.Some? && value.value.Arr? && value.value.items != [] && forall x | x in value.value.items :: x.Str?)
  }

  predicate KnownPath(attr: string) {
    || attr in ["resource.env", "resource.type", "resource.id"]
    || ("resource.label." <= attr && attr != "resource.label.")
    || ("principal." <= attr && attr != "principal.")
  }

  predicate GoodSource(es: Entries) {
    && StringsOrAbsent(es, "actions") && StringsOrAbsent(es, "roles") && StringsOrAbsent(es, "resourceTypes")
    && ObjectOrAbsent(es, "resourceLabels") && ObjectOrAbsent(es, "attributes")
    && (Find(es, "ownerOnly").Some? ==> Find(es, "ownerOnly").value.Bool?)
    && StringsOrAbsent(es, "relations") && StringsOrAbsent(es, "groups") && StringsOrAbsent(es, "members")
    && (Find(es, "relations").Some? ==> forall x | x in Find(es, "relations").value.items :: IsRelation(x))
    && ConditionsGood(es)
  }

  lemma PathIsKnown(attr: string)
    ensures IsAttrPath(attr) <==> KnownPath(attr)
  {
    assert "resource.label."[0] == 'r' && "principal."[0] == 'p';
  }

  lemma ConditionParsesIff(c: Json)
    ensures ParseCondition(c).Ok? <==> GoodCondition(c)
  {
    if c.Obj? && Find(c.entries, "attr").Some? && Find(c.entries, "attr").value.Str? {
      PathIsKnown(Find(c.entries, "attr").value.s);
    }
  }

  lemma {:induction false} AllParseIff(cs: seq<Json>)
    ensures ParseAll(cs).Ok? <==> forall c | c in cs :: GoodCondition(c)
  {
    if cs != [] {
      var n := |cs| - 1;
      AllParseIff(cs[..n]);
      ConditionParsesIff(cs[n]);
      assert cs == cs[..n] + [cs[n]];
    }
  }

  predicate IsRelation(x: Json) { x in [Str("owner"), Str("operator"), Str("viewer")] }

  lemma RelationIs(x: string)
    ensures IsRelation(Str(x)) <==> x in RELATIONS
  {
  }

  lemma RelationsParseIff(es: Entries)
    ensures Relations(es).Ok? <==>
              StringsOrAbsent(es, "relations") &&
              (Find(es, "relations").Some? ==> forall x | x in Find(es, "relations").value.items :: IsRelation(x))
  {
    var r := StrArray(es, "relations");
    if r.Ok? && r.value.Some? {
      var items := Find(es, "relations").value.items;
      forall x | x in r.value.value ensures x in RELATIONS <==> IsRelation(Str(x)) { RelationIs(x); }
      forall i | 0 <= i < |items| ensures items[i] == Str(r.value.value[i]) && r.value.value[i] in r.value.value {}
      if forall x | x in items :: IsRelation(x) {
        forall i | 0 <= i < |items| ensures r.value.value[i] in RELATIONS { assert items[i] in items; }
      }
    }
  }

  predicate ConditionsGood(es: Entries) {
    Find(es, "conditions").Some? ==>
      Find(es, "conditions").value.Arr? && forall c | c in Find(es, "conditions").value.items :: GoodCondition(c)
  }

  lemma ConditionsParseIff(es: Entries)
    ensures Conditions(es).Ok? <==> ConditionsGood(es)
  {
    var cs := Find(es, "conditions");
    if cs.Some? && cs.value.Arr? { AllParseIff(cs.value.items); }
  }

  lemma ListParsesIff(es: Entries, key: string)
    ensures StrArray(es, key).Ok? <==> StringsOrAbsent(es, key)
  {
  }

  /** A document is taken if and only if every clause of it has the right type, every relation is one of
      the three, and every condition is as demanded; anything else is refused. */
  lemma ParsesIff(source: Json)
    ensures ParseDoc(source).Ok? <==> source.Obj? && GoodSource(source.entries)
  {
    if source.Obj? {
      var es := source.entries;
      ListParsesIff(es, "actions");
      ListParsesIff(es, "roles");
      ListParsesIff(es, "resourceTypes");
      ListParsesIff(es, "groups");
      ListParsesIff(es, "members");
      RelationsParseIff(es);
      ConditionsParseIff(es);
    }
  }

  /** A condition on the environment is read by the environment it names, any other by its text. */
  lemma ConditionReads(c: Json, attr: string, v: string)
    requires c == Obj([("attr", Str(attr)), ("op", Str("eq")), ("value", Str(v))]) && KnownPath(attr)
    ensures ParseCondition(c).Ok? && ParseCondition(c).value.attr == attr && ParseCondition(c).value.test.Eq?
    ensures attr != "resource.env" ==> ParseCondition(c).value.test.value == v
    ensures forall e :: attr == "resource.env" && NamesEnv(v, e) ==> ParseCondition(c).value.test.value == e
  {
    var es := c.entries;
    PathIsKnown(attr);
    assert "attr" != "op" && "op" != "value"
        && "attr" != "value" by { assert |"attr"| == 4 && |"op"| == 2 && |"value"| == 5; }
    assert es[..2] == [("attr", Str(attr)), ("op", Str("eq"))] && es[..2][..1] == [("attr", Str(attr))];
    assert Find(es, "value") == Some(Str(v));
    assert Find(es[..2], "op") == Some(Str("eq")) && Find(es, "op") == Find(es[..2], "op");
    assert Find(es[..2][..1], "attr") == Some(Str(attr)) && Find(es, "attr") == Find(es[..2], "attr");
    forall e ensures NormaliseEnv(Some(Str(v))) == Some(e) <==> NamesEnv(v, e) { EnvIsNamed(v, e); }
  }
}
