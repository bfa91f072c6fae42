/** Reading a policy document from its JSON source, and writing it back. */
module AbacParse {
  import opened Strings
  import opened Wrappers
  import opened AbacModel

  type Entries = seq<(string, Json)>

  /** The value of a field; JSON.parse keeps the last of equal keys. */
  function Find(es: Entries, key: string): Option<Json> {
    if es == [] then None
    else if es[|es| - 1].0 == key then Some(es[|es| - 1].1)
    else Find(es[..|es| - 1], key)
  }

  predicate AllStrings(items: seq<Json>) { forall x | x in items :: x.Str? }

  function Unwrap(items: seq<Json>): (r: seq<string>)
    requires AllStrings(items)
    ensures |r| == |items| && forall i | 0 <= i < |items| :: items[i] == Str(r[i])
  {
    assert forall i | 0 <= i < |items| :: items[i] in items && items[i].Str?;
    seq(|items|, i requires 0 <= i < |items| => items[i].s)
  }

  function Wrap(xs: seq<string>): seq<Json> { seq(|xs|, i requires 0 <= i < |xs| => Str(xs[i])) }

  type Outcome<T> = Result<T, string>

  function StrArray(es: Entries, key: string): Outcome<Option<seq<string>>> {
    match Find(es, key)
    case None => Ok(None)
    case Some(Arr(items)) => if AllStrings(items) then Ok(Some(Unwrap(items))) else Err(key)
    case _ => Err(key)
  }

  function Record(es: Entries, key: string): Outcome<Option<Entries>> {
    match Find(es, key)
    case None => Ok(None)
    case Some(Obj(fields)) => Ok(Some(fields))
    case _ => Err(key)
  }

  function Flag(es: Entries, key: string): Outcome<Option<bool>> {
    match Find(es, key)
    case None => Ok(None)
    case Some(Bool(b)) => Ok(Some(b))
    case _ => Err(key)
  }

  const RELATIONS := {"owner", "operator", "viewer"}

  function Relations(es: Entries): Outcome<Option<seq<string>>> {
    var r := StrArray(es, "relations");
    if r.Ok? && r.value.Some? && exists x | x in r.value.value :: x !in RELATIONS then Err("relations") else r
  }

  /** Environment values are normalised where they are compared with resource.env. */
  function Norm(attr: string, v: string): string {
    if attr == "resource.env" then
      var n := NormaliseEnv(Some(Str(v)));
      if n.Some? then n.value else v
    else v
  }

  function NormAll(attr: string, vs: seq<string>): seq<string> {
    seq(|vs|, i requires 0 <= i < |vs| => Norm(attr, vs[i]))
  }

  predicate IsScalar(v: Option<Json>) { v.Some? && (v.value.Str? || v.value.Num? || v.value.Bool?) }

  predicate IsStringList(v: Option<Json>) {
    v.Some? && v.value.Arr? && v.value.items != [] && AllStrings(v.value.items)
  }

  function ParseTest(attr: string, op: string, value: Option<Json>): Outcome<Test> {
    if op == "eq" then if IsScalar(value) then Ok(Eq(Norm(attr, Text(value.value)))) else Err("value")
    else if op == "ne" then if IsScalar(value) then Ok(Ne(Norm(attr, Text(value.value)))) else Err("value")
    else if op == "in" then
      if IsStringList(value) then Ok(In(NormAll(attr, Unwrap(value.value.items)))) else Err("value")
    else if op == "notIn" then
      if IsStringList(value) then Ok(NotIn(NormAll(attr, Unwrap(value.value.items)))) else Err("value")
    else if op == "exists" then Ok(Exists)
    else if op == "notExists" then Ok(NotExists)
    else Err("op")
  }

  function ParseCondition(c: Json): Outcome<Condition> {
    if !c.Obj? then Err("condition")
    else
      var attr, op := Find(c.entries, "attr"), Find(c.entries, "op");
      if attr.None? || !attr.value.Str? || !IsAttrPath(attr.value.s) then Err("attr")
      else if op.None? || !op.value.Str? then Err("op")
      else
        var t := ParseTest(attr.value.s, op.value.s, Find(c.entries, "value"));
        if t.Err? then Err(t.error) else Ok(Condition(attr.value.s, t.value))
  }

  function ParseAll(cs: seq<Json>): Outcome<seq<Condition>> {
    if cs == [] then Ok([])
    else
      var n := |cs| - 1;
      var init := ParseAll(cs[..n]);
      if init.Err? then init
      else
        var last := ParseCondition(cs[n]);
        if last.Err? then Err(last.error) else Ok(init.value + [last.value])
  }

  function Conditions(es: Entries): Outcome<Option<seq<Condition>>> {
    match Find(es, "conditions")
    case None => Ok(None)
    case Some(Arr(items)) => var r := ParseAll(items); if r.Ok? then Ok(Some(r.value)) else Err(r.error)
    case _ => Err("conditions")
  }

  function ParseEntries(es: Entries): Outcome<Doc> {
    var actions, roles, types := StrArray(es, "actions"), StrArray(es, "roles"), StrArray(es, "resourceTypes");
    var labels, attributes := Record(es, "resourceLabels"), Record(es, "attributes");
    var owner, relations := Flag(es, "ownerOnly"), Relations(es);
    var groups, members, conditions := StrArray(es, "groups"), StrArray(es, "members"), Conditions(es);
    if actions.Err? then Err(actions.error)
    else if roles.Err? then Err(roles.error)
    else if types.Err? then Err(types.error)
    else if labels.Err? then Err(labels.error)
    else if attributes.Err? then Err(attributes.error)
    else if owner.Err? then Err(owner.error)
    else if relations.Err? then Err(relations.error)
    else if groups.Err? then Err(groups.error)
    else if members.Err? then Err(members.error)
    else if conditions.Err? then Err(conditions.error)
    else Ok(Doc(actions.value, roles.value, types.value, labels.value, attributes.value, owner.value,
                relations.value, groups.value, members.value, conditions.value))
  }

  function ParseDoc(source: Json): Outcome<Doc> {
    if source.Obj? then ParseEntries(source.entries) else Err("policy source must be a JSON object")
  }

  // ----- writing a document -----

  function ListValue(o: Option<seq<string>>): Option<Json> { if o.Some? then Some(Arr(Wrap(o.value))) else None }

  function RecordValue(o: Option<Entries>): Option<Json> { if o.Some? then Some(Obj(o.value)) else None }

  function TestEntries(t: Test): Entries {
    match t
    case Eq(v) => [("op", Str("eq")), ("value", Str(v))]
    case Ne(v) => [("op", Str("ne")), ("value", Str(v))]
    case In(vs) => [("op", Str("in")), ("value", Arr(Wrap(vs)))]
    case NotIn(vs) => [("op", Str("notIn")), ("value", Arr(Wrap(vs)))]
    case Exists => [("op", Str("exists"))]
    case NotExists => [("op", Str("notExists"))]
  }

  function WriteCondition(c: Condition): Json { Obj([("attr", Str(c.attr))] + TestEntries(c.test)) }

  function WriteConditions(cs: seq<Condition>): seq<Json> {
    seq(|cs|, i requires 0 <= i < |cs| => WriteCondition(cs[i]))
  }

  type Slots = seq<(string, Option<Json>)>

  /** The clauses of a document by name, in the order of the type. */
  function Clauses(d: Doc): Slots {
    [("actions", ListValue(d.actions)), ("roles", ListValue(d.roles)), ("resourceTypes", ListValue(d.resourceTypes)),
     ("resourceLabels", RecordValue(d.resourceLabels)), ("attributes", RecordValue(d.attributes)),
     ("ownerOnly", if d.ownerOnly.Some? then Some(Bool(d.ownerOnly.value)) else None),
     ("relations", ListValue(d.relations)), ("groups", ListValue(d.groups)), ("members", ListValue(d.members)),
     ("conditions", if d.conditions.Some? then Some(Arr(WriteConditions(d.conditions.value))) else None)]
  }

  function Present(slots: Slots): Entries {
    if slots == [] then []
    else
      var n := |slots| - 1;
      Present(slots[..n]) + if slots[n].1.Some? then [(slots[n].0, slots[n].1.value)] else []
  }

  /** JSON.stringify of the document: absent clauses are absent keys. */
  function WriteDoc(d: Doc): Json { Obj(Present(Clauses(d))) }

  // ----- normalising is done once -----

  lemma EnvNormalisesOnce(v: string)
    ensures var n := NormaliseEnv(Some(Str(v)));
            n.Some? ==> NormaliseEnv(Some(Str(n.value))) == n
  {
    var low := ToLower(Trim(v));
    if low != "" {
      TrimTrims(v);
      assert IsTrimmed(low);
      TrimmedStays(low);
      assert ToLower(low) == low;
      if EnvAlias(low) != low { CanonicalEnvs(); }
    }
  }

  lemma CanonicalEnvs()
    ensures forall e | e in {"production", "staging", "development"} ::
              IsTrimmed(e) && ToLower(e) == e && Trim(e) == e && EnvAlias(e) == e
  {
    forall e | e in {"production", "staging", "development"}
      ensures IsTrimmed(e) && ToLower(e) == e && Trim(e) == e && EnvAlias(e) == e
    {
      assert ToLower(e) == e;
      TrimmedStays(e);
    }
  }

  lemma NormTwice(attr: string, v: string)
    ensures Norm(attr, Norm(attr, v)) == Norm(attr, v)
  {
    EnvNormalisesOnce(v);
  }

  /** The condition could have come out of the parser. */
  predicate Canonical(c: Condition) {
    IsAttrPath(c.attr) &&
    match c.test
    case Eq(v) => Norm(c.attr, v) == v
    case Ne(v) => Norm(c.attr, v) == v
    case In(vs) => vs != [] && NormAll(c.attr, vs) == vs
    case NotIn(vs) => vs != [] && NormAll(c.attr, vs) == vs
    case _ => true
  }

  lemma ParsedIsCanonical(c: Json)
    ensures ParseCondition(c).Ok? ==> Canonical(ParseCondition(c).value)
  {
    if ParseCondition(c).Ok? {
      var attr := ParseCondition(c).value.attr;
      forall v { NormTwice(attr, v); }
    }
  }

  lemma {:induction false} AllCanonical(cs: seq<Json>)
    ensures ParseAll(cs).Ok? ==> forall c | c in ParseAll(cs).value :: Canonical(c)
  {
    if cs != [] {
      AllCanonical(cs[..|cs| - 1]);
      ParsedIsCanonical(cs[|cs| - 1]);
    }
  }

  // ----- reading back what was written -----

  lemma UnwrapWrap(xs: seq<string>)
    ensures AllStrings(Wrap(xs)) && Unwrap(Wrap(xs)) == xs
  {
  }

  lemma FindSnoc(es: Entries, e: (string, Json), key: string)
    ensures Find(es + [e], key) == if e.0 == key then Some(e.1) else Find(es, key)
  {
    assert (es + [e])[..|es|] == es;
  }

  /** The three fields of a condition are found under their names. */
  lemma FindsField(attr: Json, op: Json, value: Option<Json>, es: Entries, key: string)
    requires es == [("attr", attr), ("op", op)] + if value.Some? then [("value", value.value)] else []
    ensures Find(es, key) == if key == "attr" then Some(attr) else if key == "op" then Some(op)
                             else if key == "value" then value else None
  {
    var one, two := [("attr", attr)], [("attr", attr), ("op", op)];
    assert one == [] + [("attr", attr)] && two == one + [("op", op)];
    FindSnoc([], ("attr", attr), key);
    FindSnoc(one, ("op", op), key);
    if value.Some? { FindSnoc(two, ("value", value.value), key); } else { assert es == two; }
    assert |"attr"| == 4 && |"op"| == 2 && |"value"| == 5;
  }

  lemma ReadsCondition(c: Condition)
    requires Canonical(c)
    ensures ParseCondition(WriteCondition(c)) == Ok(c)
  {
    var es, tail := WriteCondition(c).entries, TestEntries(c.test);
    assert es == [("attr", Str(c.attr)), tail[0]] + tail[1..];
    var value := if |tail| == 2 then Some(tail[1].1) else None;
    FindsField(Str(c.attr), tail[0].1, value, es, "attr");
    FindsField(Str(c.attr), tail[0].1, value, es, "op");
    FindsField(Str(c.attr), tail[0].1, value, es, "value");
    if c.test.In? { UnwrapWrap(c.test.values); }
    if c.test.NotIn? { UnwrapWrap(c.test.values); }
  }

  lemma {:induction false} ReadsConditions(cs: seq<Condition>)
    requires forall c | c in cs :: Canonical(c)
    ensures ParseAll(WriteConditions(cs)) == Ok(cs)
  {
    if cs != [] {
      var n := |cs| - 1;
      assert WriteConditions(cs)[..n] == WriteConditions(cs[..n]);
      ReadsConditions(cs[..n]);
      ReadsCondition(cs[n]);
      assert cs == cs[..n] + [cs[n]];
    }
  }

  lemma FindPresentLast(slots: Slots, key: string)
    requires slots != []
    ensures var n := |slots| - 1;
            Find(Present(slots), key) ==
              if slots[n].0 == key && slots[n].1.Some? then slots[n].1 else Find(Present(slots[..n]), key)
  {
    var n := |slots| - 1;
    var rest := Present(slots[..n]);
    if slots[n].1.Some? { assert Present(slots)[..|rest|] == rest; } else { assert rest + [] == rest; }
  }

  lemma {:induction false} FindPresent(slots: Slots, i: nat)
    requires i < |slots| && forall j, k | 0 <= j < k < |slots| :: slots[j].0 != slots[k].0
    ensures Find(Present(slots), slots[i].0) == slots[i].1
  {
    var n := |slots| - 1;
    FindPresentLast(slots, slots[i].0);
    if i < n {
      FindPresent(slots[..n], i);
    } else {
      FindAbsent(slots[..n], slots[n].0);
    }
  }

  lemma {:induction false} FindAbsent(slots: Slots, key: string)
    requires forall j | 0 <= j < |slots| :: slots[j].0 != key
    ensures Find(Present(slots), key) == None
  {
    if slots != [] {
      FindPresentLast(slots, key);
      FindAbsent(slots[..|slots| - 1], key);
    }
  }

  lemma SlotKeysDiffer(d: Doc)
    ensures forall j, k | 0 <= j < k < 10 :: Clauses(d)[j].0 != Clauses(d)[k].0
  {
    var s := Clauses(d);
    assert |s[0].0| == 7 && |s[1].0| == 5 && |s[2].0| == 13 && |s[3].0| == 14 && |s[4].0| == 10
        && |s[5].0| == 9 && |s[6].0| == 9 && |s[7].0| == 6 && |s[8].0| == 7 && |s[9].0| == 10;
    assert s[5].0[0] == 'o' && s[6].0[0] == 'r' && s[0].0[0] == 'a' && s[8].0[0] == 'm' && s[4].0[0] == 'a'
        && s[9].0[0] == 'c';
  }

  /** The document could have come out of the parser. */
  predicate CanonicalDoc(d: Doc) {
    && (d.relations.Some? ==> forall x | x in d.relations.value :: x in RELATIONS)
    && (d.conditions.Some? ==> forall c | c in d.conditions.value :: Canonical(c))
  }

  lemma ParsedDocIsCanonical(source: Json)
    ensures ParseDoc(source).Ok? ==> CanonicalDoc(ParseDoc(source).value)
  {
    if ParseDoc(source).Ok? {
      var c := Find(source.entries, "conditions");
      if c.Some? && c.value.Arr? { AllCanonical(c.value.items); }
    }
  }

  lemma ReadsList(es: Entries, key: string, o: Option<seq<string>>)
    requires Find(es, key) == ListValue(o)
    ensures StrArray(es, key) == Ok(o)
  {
    if o.Some? { UnwrapWrap(o.value); }
  }

  lemma ReadsSlots(d: Doc, es: Entries)
    requires es == Present(Clauses(d))
    ensures forall i | 0 <= i < 10 :: Find(es, Clauses(d)[i].0) == Clauses(d)[i].1
  {
    SlotKeysDiffer(d);
    forall i | 0 <= i < 10 ensures Find(es, Clauses(d)[i].0) == Clauses(d)[i].1 { FindPresent(Clauses(d), i); }
  }

  lemma ReadsBack(d: Doc)
    requires CanonicalDoc(d)
    ensures ParseDoc(WriteDoc(d)) == Ok(d)
  {
    var es, s := Present(Clauses(d)), Clauses(d);
    ReadsSlots(d, es);
    assert Find(es, s[0].0) == s[0].1 && Find(es, s[1].0) == s[1].1 && Find(es, s[2].0) == s[2].1;
    assert Find(es, s[3].0) == s[3].1 && Find(es, s[4].0) == s[4].1 && Find(es, s[5].0) == s[5].1;
    assert Find(es, s[6].0) == s[6].1 && Find(es, s[7].0) == s[7].1 && Find(es, s[8].0) == s[8].1
        && Find(es, s[9].0) == s[9].1;
    ReadsList(es, "actions", d.actions);
    ReadsList(es, "roles", d.roles);
    ReadsList(es, "resourceTypes", d.resourceTypes);
    ReadsList(es, "relations", d.relations);
    ReadsList(es, "groups", d.groups);
    ReadsList(es, "members", d.members);
    if d.conditions.Some? { ReadsConditions(d.conditions.value); }
  }

  /** A parsed document written out and parsed again is the same document: values normalised on
      the way in stay as they are, and absent clauses stay absent. */
  lemma ParseRoundTrip(source: Json)
    requires ParseDoc(source).Ok?
    ensures ParseDoc(WriteDoc(ParseDoc(source).value)) == ParseDoc(source)
  {
    ParsedDocIsCanonical(source);
    ReadsBack(ParseDoc(source).value);
  }
}
