/** Cedar policies, as far as the translation uses them: expressions over a context record,
    their evaluation with errors, and the decision over a set of policies. */
module Cedar {
  import opened Wrappers

  datatype Value =
    | VStr(s: string)
    | VBool(b: bool)
    | VLong(text: string)
    | VSet(items: set<Value>)
    | VRec(fields: map<string, Value>)

  datatype Expr =
    | Lit(v: Value)
    | Strings(items: seq<string>)
    | Context(field: string)
    | Has(e: Expr, key: string)
    | Get(e: Expr, key: string)
    | Contains(e: Expr, x: Expr)
    | ContainsAny(e: Expr, x: Expr)
    | Equal(a: Expr, b: Expr)
    | Not(e: Expr)
    | And(a: Expr, b: Expr)
    | Or(a: Expr, b: Expr)

  type Record = map<string, Value>

  function StrSet(items: seq<string>): set<Value> { set x | x in items :: VStr(x) }

  /** None is an evaluation error: an absent attribute or a value of the wrong type. */
  function Eval(e: Expr, ctx: Record): Option<Value>
  {
    match e
    case Lit(v) => Some(v)
    case Strings(items) => Some(VSet(StrSet(items)))
    case Context(field) => if field in ctx then Some(ctx[field]) else None
    case Has(r, key) =>
      var v := Eval(r, ctx);
      if v.Some? && v.value.VRec? then Some(VBool(key in v.value.fields)) else None
    case Get(r, key) =>
      var v := Eval(r, ctx);
      if v.Some? && v.value.VRec? && key in v.value.fields then Some(v.value.fields[key]) else None
    case Contains(s, x) =>
      var v, w := Eval(s, ctx), Eval(x, ctx);
      if v.Some? && v.value.VSet? && w.Some? then Some(VBool(w.value in v.value.items)) else None
    case ContainsAny(s, x) =>
      var v, w := Eval(s, ctx), Eval(x, ctx);
      if v.Some? && v.value.VSet? && w.Some? && w.value.VSet?
      then Some(VBool(v.value.items * w.value.items != {})) else None
    case Equal(a, b) =>
      var v, w := Eval(a, ctx), Eval(b, ctx);
      if v.Some? && w.Some? then Some(VBool(v.value == w.value)) else None
    case Not(a) =>
      var v := Eval(a, ctx);
      if v.Some? && v.value.VBool? then Some(VBool(!v.value.b)) else None
    case And(a, b) =>
      var v := Eval(a, ctx);
      if v.None? || !v.value.VBool? then None
      else if !v.value.b then v
      else
        var w := Eval(b, ctx);
        if w.Some? && w.value.VBool? then w else None
    case Or(a, b) =>
      var v := Eval(a, ctx);
      if v.None? || !v.value.VBool? then None
      else if v.value.b then v
      else
        var w := Eval(b, ctx);
        if w.Some? && w.value.VBool? then w else None
  }

  /** A policy with a wildcard head: it applies when its condition is true. A policy whose
      condition cannot be evaluated does not apply. */
  datatype Policy = Policy(permits: bool, when: Expr)

  predicate Satisfied(p: Policy, ctx: Record) { Eval(p.when, ctx) == Some(VBool(true)) }

  /** Forbid overrides permit; the default is to deny. */
  predicate Allows(ps: seq<Policy>, ctx: Record) {
    && (exists p | p in ps :: p.permits && Satisfied(p, ctx))
    && !(exists p | p in ps :: !p.permits && Satisfied(p, ctx))
  }
}
