/** What a policy means to a browser (Content Security Policy Level 3): which list governs a fetch,
    and what a list admits. */
module CspMeaning {
  import opened Strings
  import opened Wrappers
  import opened Csp
  import opened CspText

  // ----- directive fallback, section 6.8.3 -----

  function Lookup(ds: seq<Directive>, name: string): Option<seq<string>> {
    if ds == [] then None
    else if ds[0].name == name then Some(ds[0].tokens)
    else Lookup(ds[1..], name)
  }

  function Or<T>(a: Option<T>, b: Option<T>): Option<T> { if a.Some? then a else b }

  datatype Fetch =
    | Connect | Font | Image | Manifest | Media | Object | Prefetch | Child | Frame
    | Script | ScriptElem | ScriptAttr | Style | StyleElem | StyleAttr | Worker

  /** The directives that govern a fetch before default-src does, in order. */
  function OwnNames(f: Fetch): seq<string> {
    match f
    case Connect => ["connect-src"]
    case Font => ["font-src"]
    case Image => ["img-src"]
    case Manifest => ["manifest-src"]
    case Media => ["media-src"]
    case Object => ["object-src"]
    case Prefetch => ["prefetch-src"]
    case Child => ["child-src"]
    case Frame => ["frame-src", "child-src"]
    case Script => ["script-src"]
    case ScriptElem => ["script-src-elem", "script-src"]
    case ScriptAttr => ["script-src-attr", "script-src"]
    case Style => ["style-src"]
    case StyleElem => ["style-src-elem", "style-src"]
    case StyleAttr => ["style-src-attr", "style-src"]
    case Worker => ["worker-src", "child-src", "script-src"]
  }

  function FirstOf(ds: seq<Directive>, names: seq<string>): Option<seq<string>> {
    if names == [] then Lookup(ds, "default-src") else Or(Lookup(ds, names[0]), FirstOf(ds, names[1..]))
  }

  /** The source list that governs a fetch; None when nothing restricts it. */
  function SourceList(ds: seq<Directive>, f: Fetch): Option<seq<string>> { FirstOf(ds, OwnNames(f)) }

  predicate IsScript(f: Fetch) { f.Script? || f.ScriptElem? || f.ScriptAttr? || f.Worker? }

  // ----- sources, sections 2.3.1, 6.7.2 and 6.7.3.2 -----

  predicate IsBase64Char(c: char) {
    'A' <= c <= 'Z' || 'a' <= c <= 'z' || '0' <= c <= '9' || c == '+' || c == '/' || c == '-' || c == '_'
  }

  function DropPad(v: string): string { if v != "" && v[|v| - 1] == '=' then v[..|v| - 1] else v }

  predicate IsBase64(v: string) {
    var body := DropPad(DropPad(v));
    body != "" && forall c | c in body :: IsBase64Char(c)
  }

  predicate IsNonceSource(t: string) { LooksLikeNonce(t) && IsBase64(t[7..|t| - 1]) }

  predicate IsHashSource(t: string) { LooksLikeHash(t) && |t| > 9 && t[|t| - 1] == '\'' && IsBase64(t[8..|t| - 1]) }

  /** The token is a nonce or a hash by the grammar whenever its beginning says so. */
  predicate WellFormed(t: string) {
    (LooksLikeNonce(t) ==> IsNonceSource(t)) && (LooksLikeHash(t) ==> IsHashSource(t))
  }

  predicate AllowsInline(list: seq<string>) {
    && HasToken(list, "'unsafe-inline'") && !HasToken(list, "'strict-dynamic'")
    && forall t | t in list :: !IsNonceSource(t) && !IsHashSource(t)
  }

  predicate InlineRuns(list: Option<seq<string>>) { list.None? || AllowsInline(list.value) }

  /** The page a policy comes with. `other` says which sources with a port or a path of their own
      the browser matches against the page's URLs. */
  datatype Page = Page(https: bool, host: string, other: string -> bool)

  /** A host name, or one with a port, has no quotes and no slashes in it. */
  predicate IsHost(host: string) { '\'' !in host && '/' !in host }

  /** A source that is a scheme: http also stands for https, and ws for both. */
  predicate MatchesScheme(lt: string, https: bool) {
    lt == "http:" || lt == "ws:" || (https && (lt == "https:" || lt == "wss:"))
  }

  predicate IsScheme(lt: string) { MatchesScheme(lt, true) }

  function AfterScheme(lt: string): string {
    if "http://" <= lt then lt[7..]
    else if "https://" <= lt then lt[8..]
    else if "ws://" <= lt then lt[5..]
    else if "wss://" <= lt then lt[6..]
    else lt
  }

  /** A host by its name, by a name it lies under, or any host on the default port. */
  predicate MatchesHost(p: string, h: string) {
    h != "" && (p == h || ("*." <= p && |p| > 2 && HasSuffix(h, p[1..])) || (p == "*" && ':' !in h))
  }

  predicate HasPortOrPath(lt: string, h: string) {
    '\'' !in lt && !IsScheme(lt) && AfterScheme(lt) != h && (':' in AfterScheme(lt) || '/' in AfterScheme(lt))
  }

  /** A source that matches the URLs of the page's own origin: 'self', the wildcard, the page's
      scheme, or a host source, where an http page is not matched by an https source. */
  predicate MatchesOrigin(t: string, page: Page) {
    var lt, h := ToLower(t), ToLower(page.host);
    || lt == "'self'" || lt == "*" || MatchesScheme(lt, page.https)
    || ((page.https || !("https://" <= lt || "wss://" <= lt)) && MatchesHost(AfterScheme(lt), h))
    || (HasPortOrPath(lt, h) && page.other(lt))
  }

  predicate AdmitsOrigin(list: seq<string>, page: Page) { exists t | t in list :: MatchesOrigin(t, page) }

  predicate AdmitsNonce(list: seq<string>, nonce: string) {
    nonce != "" && exists t | t in list :: IsNonceSource(t) && t[7..|t| - 1] == nonce
  }

  /** The pre-request check for a parser-inserted script element of the page's own origin. */
  predicate AdmitsTag(list: Option<seq<string>>, nonce: string, page: Page) {
    list.None? || AdmitsNonce(list.value, nonce) ||
    (!HasToken(list.value, "'strict-dynamic'") && AdmitsOrigin(list.value, page))
  }

  predicate AdmitsConnection(list: Option<seq<string>>, page: Page) {
    list.None? || AdmitsOrigin(list.value, page)
  }

  // ----- the planner's lookups are the standard's -----

  lemma {:induction false} FindIsLookup(ds: seq<Directive>, name: string)
    ensures Lookup(ds, name) == if Find(ds, name) < |ds| then Some(ds[Find(ds, name)].tokens) else None
  {
    if ds != [] && ds[0].name != name { FindIsLookup(ds[1..], name); }
  }

  lemma {:induction false} LookupAppend(ds: seq<Directive>, d: Directive, name: string)
    ensures Lookup(ds + [d], name) == Or(Lookup(ds, name), if d.name == name then Some(d.tokens) else None)
  {
    if ds == [] {
      assert ds + [d] == [d];
    } else {
      assert (ds + [d])[1..] == ds[1..] + [d];
      LookupAppend(ds[1..], d, name);
    }
  }

  lemma {:induction false} LookupUpdate(ds: seq<Directive>, i: nat, tokens: seq<string>, name: string)
    requires i < |ds| && i == Find(ds, ds[i].name)
    ensures Lookup(ds[i := ds[i].(tokens := tokens)], name)
            == if name == ds[i].name then Some(tokens) else Lookup(ds, name)
  {
    var ds2 := ds[i := ds[i].(tokens := tokens)];
    if i > 0 {
      assert ds2[1..] == ds[1..][i - 1 := ds[i].(tokens := tokens)];
      LookupUpdate(ds[1..], i - 1, tokens, name);
    } else {
      assert ds2[1..] == ds[1..];
    }
  }

  function Plus(list: Option<seq<string>>, source: Option<string>): Option<seq<string>> {
    if list.Some? && source.Some? then Some(list.value + [source.value]) else list
  }

  lemma EffectiveIsFind(ds: seq<Directive>, chain: seq<string>)
    ensures var i := Effective(ds, chain); i < |ds| ==> i == Find(ds, ds[i].name)
  {
  }

  /** Adding a source at the directive that governs a chain whose last resort is default-src:
      default-src itself and all unrelated directives keep their lists. */
  lemma AddSourceLookup(ds: seq<Directive>, i: nat, own: string, source: Option<string>, name: string)
    requires i < |ds| && i == Find(ds, ds[i].name) && own != "default-src"
    requires ds[i].name == "default-src" ==> Lookup(ds, own).None?
    ensures Lookup(AddSource(ds, i, own, source), name) ==
            if source.None? then Lookup(ds, name)
            else if ds[i].name == "default-src" then
              if name == own then Plus(Lookup(ds, "default-src"), source) else Lookup(ds, name)
            else if name == ds[i].name then Plus(Lookup(ds, name), source) else Lookup(ds, name)
  {
    FindIsLookup(ds, ds[i].name);
    if source.Some? {
      var tokens := ds[i].tokens + [source.value];
      if ds[i].name == "default-src" { LookupAppend(ds, Directive(own, tokens), name); }
      else { LookupUpdate(ds, i, tokens, name); }
    }
  }

  lemma {:induction false} EffectiveIsFirstOf(ds: seq<Directive>, names: seq<string>)
    ensures var i := Effective(ds, names + ["default-src"]);
            FirstOf(ds, names) == if i < |ds| then Some(ds[i].tokens) else None
  {
    var chain := names + ["default-src"];
    FindIsLookup(ds, chain[0]);
    if names != [] {
      assert chain[1..] == names[1..] + ["default-src"];
      EffectiveIsFirstOf(ds, names[1..]);
    }
  }

  /** The planner's two governing lists are the browser's. */
  lemma GoverningLists(ds: seq<Directive>)
    ensures var i := Effective(ds, SCRIPT_CHAIN);
            SourceList(ds, ScriptElem) == if i < |ds| then Some(ds[i].tokens) else None
    ensures var i := Effective(ds, CONNECT_CHAIN);
            SourceList(ds, Connect) == if i < |ds| then Some(ds[i].tokens) else None
  {
    EffectiveIsFirstOf(ds, OwnNames(ScriptElem));
    EffectiveIsFirstOf(ds, OwnNames(Connect));
    assert OwnNames(ScriptElem) + ["default-src"] == SCRIPT_CHAIN
        && OwnNames(Connect) + ["default-src"] == CONNECT_CHAIN;
  }
}
