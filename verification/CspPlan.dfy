/** The planner's theorems: every rewritten policy admits the tag, no fetch type's list
    changes otherwise, inline scripts run as before, and planning twice changes nothing more. */
module CspPlan {
  import opened Strings
  import opened Wrappers
  import opened Csp
  import opened CspText
  import opened CspMeaning

  // ----- one policy -----

  function Sourced(ds: seq<Directive>, host: string, nonce: string): Option<string> {
    var list := SourceList(ds, ScriptElem);
    if list.None? then None else ScriptSource(list.value, host, nonce)
  }

  function Connected(ds: seq<Directive>, host: string): Option<string> {
    var list := SourceList(ds, Connect);
    if list.None? then None else ConnectSource(list.value, host)
  }

  /** The directive that takes the script source. */
  function ScriptHome(ds: seq<Directive>): string {
    if Lookup(ds, "script-src-elem").Some? then "script-src-elem" else "script-src"
  }

  lemma GoverningName(ds: seq<Directive>)
    ensures var i := Effective(ds, SCRIPT_CHAIN);
            i < |ds| ==> ds[i].name == (if Lookup(ds, ScriptHome(ds)).Some? then ScriptHome(ds) else "default-src")
    ensures var i := Effective(ds, CONNECT_CHAIN);
            i < |ds| ==> ds[i].name == (if Lookup(ds, "connect-src").Some? then "connect-src" else "default-src")
  {
    FindIsLookup(ds, "script-src-elem");
    FindIsLookup(ds, "script-src");
    FindIsLookup(ds, "connect-src");
    assert SCRIPT_CHAIN[1..] == ["script-src", "default-src"];
    assert CONNECT_CHAIN[1..] == ["default-src"];
  }

  lemma AdmitScriptLookup(ds: seq<Directive>, host: string, nonce: string, name: string)
    ensures Lookup(AdmitScript(ds, host, nonce), name) ==
            if name == ScriptHome(ds) && Sourced(ds, host, nonce).Some?
            then Plus(SourceList(ds, ScriptElem), Sourced(ds, host, nonce)) else Lookup(ds, name)
  {
    var i := Effective(ds, SCRIPT_CHAIN);
    GoverningLists(ds);
    if i < |ds| {
      GoverningName(ds);
      EffectiveIsFind(ds, SCRIPT_CHAIN);
      FindIsLookup(ds, ds[i].name);
      AddSourceLookup(ds, i, "script-src", ScriptSource(ds[i].tokens, host, nonce), name);
    }
  }

  lemma AdmitConnectLookup(ds: seq<Directive>, host: string, name: string)
    ensures Lookup(AdmitConnect(ds, host), name) ==
            if name == "connect-src" && Connected(ds, host).Some?
            then Plus(SourceList(ds, Connect), Connected(ds, host)) else Lookup(ds, name)
  {
    var i := Effective(ds, CONNECT_CHAIN);
    GoverningLists(ds);
    if i < |ds| {
      GoverningName(ds);
      EffectiveIsFind(ds, CONNECT_CHAIN);
      FindIsLookup(ds, ds[i].name);
      AddSourceLookup(ds, i, "connect-src", ConnectSource(ds[i].tokens, host), name);
    }
  }

  lemma {:induction false} SameFirst(a: seq<Directive>, b: seq<Directive>, names: seq<string>)
    requires Lookup(a, "default-src") == Lookup(b, "default-src")
    requires forall n | n in names :: Lookup(a, n) == Lookup(b, n)
    ensures FirstOf(a, names) == FirstOf(b, names)
  {
    if names != [] { SameFirst(a, b, names[1..]); }
  }

  lemma AdmitScriptOthers(ds: seq<Directive>, host: string, nonce: string, f: Fetch)
    requires !IsScript(f)
    ensures SourceList(AdmitScript(ds, host, nonce), f) == SourceList(ds, f)
  {
    var ds2 := AdmitScript(ds, host, nonce);
    AdmitScriptLookup(ds, host, nonce, "default-src");
    forall n | n in OwnNames(f) ensures Lookup(ds2, n) == Lookup(ds, n) {
      AdmitScriptLookup(ds, host, nonce, n);
    }
    SameFirst(ds2, ds, OwnNames(f));
  }

  /** A chain that ends in `home`, where only home's list has grown. */
  lemma {:induction false} LastGrows(a: seq<Directive>, b: seq<Directive>, before: seq<string>, home: string,
      source: Option<string>)
    requires Lookup(a, "default-src") == Lookup(b, "default-src")
    requires forall n | n in before :: Lookup(a, n) == Lookup(b, n)
    requires source.Some? && Lookup(b, home) == Plus(Or(Lookup(a, home), Lookup(a, "default-src")), source)
    ensures var was, now := FirstOf(a, before + [home]), FirstOf(b, before + [home]);
            if forall n | n in before :: Lookup(a, n).None?
            then was == Or(Lookup(a, home), Lookup(a, "default-src")) && now == Plus(was, source) else now == was
  {
    if before == [] {
      assert FirstOf(a, []) == Lookup(a, "default-src");
      assert [home][1..] == [] && before + [home] == [home];
    } else {
      assert (before + [home])[1..] == before[1..] + [home];
      assert before == [before[0]] + before[1..];
      if Lookup(a, before[0]).None? { LastGrows(a, b, before[1..], home, source); }
    }
  }

  lemma ListsUnrolled(ds: seq<Directive>)
    ensures SourceList(ds, Connect) == Or(Lookup(ds, "connect-src"), Lookup(ds, "default-src"))
    ensures SourceList(ds, ScriptElem) ==
            Or(Lookup(ds, "script-src-elem"), Or(Lookup(ds, "script-src"), Lookup(ds, "default-src")))
  {
    assert FirstOf(ds, []) == Lookup(ds, "default-src");
    assert OwnNames(Connect)[1..] == [] && OwnNames(ScriptElem)[1..] == ["script-src"] && ["script-src"][1..] == [];
    assert FirstOf(ds, ["script-src"]) == Or(Lookup(ds, "script-src"), FirstOf(ds, []));
    assert FirstOf(ds, OwnNames(ScriptElem)) == Or(Lookup(ds, "script-src-elem"), FirstOf(ds, ["script-src"]));
  }

  lemma AdmitScriptScripts(ds: seq<Directive>, host: string, nonce: string, f: Fetch)
    requires IsScript(f)
    ensures var was, now := SourceList(ds, f), SourceList(AdmitScript(ds, host, nonce), f);
            now == was || (was == SourceList(ds, ScriptElem) && now == Plus(was, Sourced(ds, host, nonce)))
    ensures f.ScriptElem? ==>
              SourceList(AdmitScript(ds, host, nonce), f) == Plus(SourceList(ds, f), Sourced(ds, host, nonce))
  {
    var names, home := OwnNames(f), ScriptHome(ds);
    var ds2 := AdmitScript(ds, host, nonce);
    forall n | n in names + ["default-src", home] && (n != home || Sourced(ds, host, nonce).None?)
      ensures Lookup(ds2, n) == Lookup(ds, n)
    {
      AdmitScriptLookup(ds, host, nonce, n);
    }
    AdmitScriptLookup(ds, host, nonce, home);
    AdmitScriptLookup(ds, host, nonce, "default-src");
    ListsUnrolled(ds);
    ListsUnrolled(ds2);
    if home !in names || Sourced(ds, host, nonce).None? {
      SameFirst(ds2, ds, names);
    } else if home == "script-src" {
      var n := |names| - 1;
      assert names[n] == home && names == names[..n] + [home];
      assert f.ScriptElem? ==> names[..n] == ["script-src-elem"];
      LastGrows(ds, ds2, names[..n], home, Sourced(ds, host, nonce));
    }
  }

  lemma AdmitConnectLists(ds: seq<Directive>, host: string, f: Fetch)
    ensures SourceList(AdmitConnect(ds, host), f) ==
            if f.Connect? then Plus(SourceList(ds, f), Connected(ds, host)) else SourceList(ds, f)
  {
    var ds2 := AdmitConnect(ds, host);
    AdmitConnectLookup(ds, host, "default-src");
    forall n | n in OwnNames(f) ensures Lookup(ds2, n) == Lookup(ds, n) || n == "connect-src" {
      AdmitConnectLookup(ds, host, n);
    }
    if f.Connect? {
      AdmitConnectLookup(ds, host, "connect-src");
      ListsUnrolled(ds);
      ListsUnrolled(ds2);
    } else {
      SameFirst(ds2, ds, OwnNames(f));
    }
  }

  /** Admitting the tag adds at most one source to the list that governs script elements, for those
      fetches it governs, and at most 'self' to what governs connections; the list of every other
      fetch type stays as it was. */
  lemma AdmitLists(ds: seq<Directive>, host: string, nonce: string, f: Fetch)
    ensures var was, now := SourceList(ds, f), SourceList(Admit(ds, host, nonce), f);
            now == was
                || (IsScript(f) && was == SourceList(ds, ScriptElem) && now == Plus(was, Sourced(ds, host, nonce)))
                       || (f.Connect? && now == Plus(was, Connected(ds, host)))
    ensures f.ScriptElem? ==>
              SourceList(Admit(ds, host, nonce), f) == Plus(SourceList(ds, f), Sourced(ds, host, nonce))
    ensures f.Connect? ==> SourceList(Admit(ds, host, nonce), f) == Plus(SourceList(ds, f), Connected(ds, host))
  {
    if IsScript(f) { AdmitScriptScripts(ds, host, nonce, f); } else { AdmitScriptOthers(ds, host, nonce, f); }
    AdmitScriptOthers(ds, host, nonce, Connect);
    AdmitConnectLists(AdmitScript(ds, host, nonce), host, f);
  }

  // ----- which source is added -----

  /** A token that makes the list one of nonces and hashes. */
  predicate AsksForNonce(t: string) {
    var lt := ToLower(t);
    || lt == "'strict-dynamic'" || "'sha256-" <= lt || "'sha384-" <= lt || "'sha512-" <= lt
    || ("'nonce-" <= lt && |t| > 8 && t[|t| - 1] == '\'')
  }

  /** A token that names the page's own origin. */
  predicate NamesOrigin(t: string, host: string) {
    var lt := ToLower(t);
    || lt == "'self'" || lt == "*"
    || (host != "" && lt in [ToLower(host), "http://" + ToLower(host), "https://" + ToLower(host)])
  }

  /** A list of nonces and hashes gets the nonce unless that is its first; any other gets 'self', unless
      one of its tokens names the origin, and is then left alone. */
  lemma WhatIsAdded(list: seq<string>, host: string, nonce: string)
    ensures (exists t | t in list :: AsksForNonce(t)) ==>
              ScriptSource(list, host, nonce) ==
                if ExistingNonce(list) == nonce then None else Some("'nonce-" + nonce + "'")
    ensures !(exists t | t in list :: AsksForNonce(t)) ==>
              ScriptSource(list, host, nonce) ==
                if exists t | t in list :: NamesOrigin(t, host) then None else Some("'self'")
    ensures ConnectSource(list, host) == if exists t | t in list :: NamesOrigin(t, host) then None else Some("'self'")
  {
    assert ToLower("'strict-dynamic'") == "'strict-dynamic'";
    if ExistingNonce(list) != "" { var t := ExistingNonceIsThere(list); } else { NoExistingNonce(list); }
    forall t ensures NamesOrigin(t, host) <==> IsSameOrigin(t, host) {}
    forall t ensures AsksForNonce(t) <==> EqualFold(t, "'strict-dynamic'") || LooksLikeHash(t) || LooksLikeNonce(t) {}
  }

  // ----- one source list -----

  lemma {:induction false} ExistingNonceIsThere(tokens: seq<string>) returns (t: string)
    requires ExistingNonce(tokens) != ""
    ensures t in tokens && LooksLikeNonce(t) && t[7..|t| - 1] == ExistingNonce(tokens)
  {
    t := tokens[0];
    if !LooksLikeNonce(tokens[0]) { t := ExistingNonceIsThere(tokens[1..]); }
  }

  lemma {:induction false} NoExistingNonce(tokens: seq<string>)
    requires ExistingNonce(tokens) == ""
    ensures forall t | t in tokens :: !LooksLikeNonce(t)
  {
    if tokens != [] { NoExistingNonce(tokens[1..]); }
  }

  lemma NonceTokenReads(nonce: string)
    requires nonce != ""
    ensures LooksLikeNonce(NonceToken(nonce)) && NonceToken(nonce)[7..|NonceToken(nonce)| - 1] == nonce
    ensures !LooksLikeHash(NonceToken(nonce)) && !EqualFold(NonceToken(nonce), "'unsafe-inline'")
    ensures !EqualFold(NonceToken(nonce), "'strict-dynamic'") && !EqualFold(NonceToken(nonce), "'none'")
  {
    var t, lt := NonceToken(nonce), ToLower(NonceToken(nonce));
    assert lt[..7] == NONCE_PREFIX;
    assert t[7..|t| - 1] == nonce;
    assert lt[1] == 'n' && lt[2] == 'o' && lt[3] == 'n' && lt[4] == 'c';
    assert ToLower("'none'")[4] == 'e' && ToLower("'unsafe-inline'")[1] == 'u' && ToLower("'strict-dynamic'")[1] == 's';
  }

  /** The planner finds the page's origin in the list, but a browser that shows it over http does
      not: the list has it by its https address only. */
  predicate OnlyByHttps(list: seq<string>, page: Page) {
    !page.https && AllowsSameOrigin(list, page.host) && !AdmitsOrigin(list, page)
  }

  predicate WellFormedList(list: Option<seq<string>>) {
    list.Some? ==> forall t | t in list.value :: WellFormed(t)
  }

  lemma NotPrefix(p: string, h: string, i: nat)
    requires i < |p| && p[i] !in h
    ensures !(p <= h)
  {
    if i < |h| { assert h[i] in h; }
  }

  lemma NoScheme(h: string)
    requires '/' !in h
    ensures AfterScheme(h) == h && !("https://" <= h) && !("wss://" <= h)
  {
    NotPrefix("http://", h, 6);
    NotPrefix("https://", h, 7);
    NotPrefix("ws://", h, 4);
    NotPrefix("wss://", h, 5);
  }

  lemma HttpSchemes(h: string)
    ensures AfterScheme("http://" + h) == h && AfterScheme("https://" + h) == h
    ensures !("https://" <= "http://" + h) && !("wss://" <= "http://" + h)
  {
    var a, b := "http://" + h, "https://" + h;
    assert a[4] == ':' && b[4] == 's' && a[0] == 'h' && a[7..] == h && b[8..] == h;
    assert "http://"[4] == ':' && "https://"[4] == 's' && "wss://"[0] == 'w';
  }

  lemma SameOriginMatches(t: string, page: Page)
    requires IsHost(page.host) && IsSameOrigin(t, page.host)
    ensures !MatchesOrigin(t, page) ==> !page.https && ToLower(t) == "https://" + ToLower(page.host)
  {
    var h := ToLower(page.host);
    LowerKeepsOut(page.host, '/');
    NoScheme(h);
    HttpSchemes(h);
  }

  lemma LowerKeepsOut(s: string, c: char)
    requires c !in s && !('a' <= c <= 'z')
    ensures c !in ToLower(s)
  {
    forall i | 0 <= i < |s| ensures ToLower(s)[i] != c { assert s[i] in s; }
  }

  /** What the planner takes for the page's origin is that, but for its https address on http. */
  lemma AllowedIsAdmitted(list: seq<string>, page: Page)
    requires IsHost(page.host) && AllowsSameOrigin(list, page.host) && !AdmitsOrigin(list, page)
    ensures OnlyByHttps(list, page)
    ensures forall t | t in list && IsSameOrigin(t, page.host) :: ToLower(t) == "https://" + ToLower(page.host)
  {
    forall t | t in list && IsSameOrigin(t, page.host)
      ensures !page.https && ToLower(t) == "https://" + ToLower(page.host)
    {
      SameOriginMatches(t, page);
    }
  }

  lemma SelfAdmits(list: seq<string>, page: Page)
    ensures AdmitsOrigin(list + ["'self'"], page)
  {
    var t := "'self'";
    assert t in list + [t] && ToLower(t) == t && MatchesOrigin(t, page);
  }

  /** Before the rewrite: the list needs a nonce and the one to be used is a nonce by the grammar,
      or it names the page's origin in a way that the browser takes for it too. */
  predicate TagAdmissible(list: seq<string>, nonceIsGood: bool, page: Page) {
    if NeedsNonce(list) then nonceIsGood || (!HasToken(list, "'strict-dynamic'") && AdmitsOrigin(list, page))
    else !OnlyByHttps(list, page)
  }

  lemma NonceTokenMatchesNothing(nonce: string, page: Page)
    requires IsHost(page.host) && nonce != ""
    ensures !MatchesOrigin(NonceToken(nonce), page)
  {
    NonceTokenReads(nonce);
    QuotedMatchesNothing(NonceToken(nonce), page);
  }

  /** A token that begins with a quote is no host, scheme or wildcard. */
  lemma QuotedMatchesNothing(t: string, page: Page)
    requires IsHost(page.host) && |t| > 1 && t[0] == '\'' && ToLower(t)[1] != 's'
    ensures !MatchesOrigin(t, page)
  {
    var lt, h := ToLower(t), ToLower(page.host);
    LowerKeepsOut(page.host, '\'');
    assert lt[0] == '\'' && lt[0] in lt && AfterScheme(lt) == lt;
    assert ToLower("'self'")[1] == 's';
  }

  /** The nonce of the plan, as this list then has it, admits the tag exactly when it is one. */
  lemma NonceAdmitsIff(list: seq<string>, host: string, nonce: string)
    requires NeedsNonce(list) && nonce != ""
    ensures AdmitsNonce(Plus(Some(list), ScriptSource(list, host, nonce)).value, nonce) <==> IsBase64(nonce)
  {
    var source := ScriptSource(list, host, nonce);
    if source.Some? {
      NonceTokenReads(nonce);
      assert NonceToken(nonce) in list + [source.value];
    } else {
      var t := ExistingNonceIsThere(list);
    }
  }

  /** The script list that comes out admits the tag exactly when it was admissible: a nonce that is
      none by the grammar does not help, nor does an https address on an http page. */
  lemma ScriptListAdmitsIff(list: seq<string>, nonce: string, page: Page)
    requires IsHost(page.host) && (NeedsNonce(list) ==> nonce != "")
    ensures AdmitsTag(Plus(Some(list), ScriptSource(list, page.host, nonce)), nonce, page)
       <==> TagAdmissible(list, IsBase64(nonce), page)
  {
    if NeedsNonce(list) {
      NonceAdmitsIff(list, page.host, nonce);
      NonceWidensNothing(list, nonce, page, Plus(Some(list), ScriptSource(list, page.host, nonce)).value);
    } else {
      SelfAdmitsIff(list, nonce, page);
    }
  }

  /** A nonce in the list changes nothing for a page matched by its origin. */
  lemma NonceWidensNothing(list: seq<string>, nonce: string, page: Page, now: seq<string>)
    requires IsHost(page.host) && nonce != "" && (now == list || now == list + [NonceToken(nonce)])
    ensures HasToken(now, "'strict-dynamic'") == HasToken(list, "'strict-dynamic'")
    ensures AdmitsOrigin(now, page) == AdmitsOrigin(list, page)
  {
    NonceTokenReads(nonce);
    NonceTokenMatchesNothing(nonce, page);
    forall t | t in now ensures t in list || t == NonceToken(nonce) {}
    forall t | t in list ensures t in now {}
  }

  lemma SelfAdmitsIff(list: seq<string>, nonce: string, page: Page)
    requires IsHost(page.host) && !NeedsNonce(list)
    ensures AdmitsTag(Plus(Some(list), ScriptSource(list, page.host, nonce)), nonce, page)
       <==> !OnlyByHttps(list, page)
  {
    var now := Plus(Some(list), ScriptSource(list, page.host, nonce)).value;
    NoExistingNonce(list);
    if AllowsSameOrigin(list, page.host) && !AdmitsOrigin(list, page) { AllowedIsAdmitted(list, page); }
    SelfAdmits(list, page);
    SelfIsInert();
    assert forall t | t in now :: t in list || t == "'self'";
    assert !HasToken(now, "'strict-dynamic'");
    assert !AdmitsNonce(now, nonce);
  }

  lemma ConnectListAdmitsIff(list: seq<string>, page: Page)
    requires IsHost(page.host)
    ensures AdmitsConnection(Plus(Some(list), ConnectSource(list, page.host)), page)
       <==> !OnlyByHttps(list, page)
  {
    if AllowsSameOrigin(list, page.host) && !AdmitsOrigin(list, page) { AllowedIsAdmitted(list, page); }
    SelfAdmits(list, page);
  }

  /** A good nonce is added to a list that still let inline scripts run: one whose hash- or
      nonce-like tokens are all malformed. */
  predicate InlineLost(list: seq<string>, nonce: string) {
    AllowsInline(list) && NeedsNonce(list) && ExistingNonce(list) != nonce && IsBase64(nonce)
  }

  lemma InlineKeptIff(list: seq<string>, host: string, nonce: string)
    requires NeedsNonce(list) ==> nonce != ""
    ensures AllowsInline(Plus(Some(list), ScriptSource(list, host, nonce)).value) == AllowsInline(list)
        <==> !InlineLost(list, nonce)
  {
    var source := ScriptSource(list, host, nonce);
    if source.Some? {
      var s := source.value;
      var now := list + [s];
      assert forall t :: t in now <==> t in list || t == s;
      if NeedsNonce(list) {
        NonceTokenReads(nonce);
        assert s in now && (IsNonceSource(s) <==> IsBase64(nonce));
      } else {
        SelfIsInert();
      }
    }
  }

  lemma SelfIsInert()
    ensures var s := "'self'";
            !IsNonceSource(s) && !IsHashSource(s) && !EqualFold(s, "'unsafe-inline'")
                && !EqualFold(s, "'strict-dynamic'")
  {
    var s := "'self'";
    assert ToLower(s)[1] == 's' && ToLower(s)[2] == 'e' && ToLower("'unsafe-inline'")[1] == 'u'
        && ToLower("'strict-dynamic'")[2] == 't';
  }

  /** In a list of well-formed tokens, one that needs a nonce never let inline scripts run. */
  lemma WellFormedListBlocksInline(list: seq<string>)
    requires NeedsNonce(list) && forall t | t in list :: WellFormed(t)
    ensures !AllowsInline(list)
  {
    if ExistingNonce(list) != "" { var t := ExistingNonceIsThere(list); }
  }

  // ----- the list that came out, planned again -----

  lemma {:induction false} ExistingNonceAppend(list: seq<string>, t: string)
    ensures ExistingNonce(list + [t]) ==
            if ExistingNonce(list) != "" then ExistingNonce(list)
            else if LooksLikeNonce(t) then t[7..|t| - 1] else ""
  {
    if list == [] {
      assert list + [t] == [t];
      assert [t][1..] == [];
    } else {
      assert (list + [t])[1..] == list[1..] + [t];
      ExistingNonceAppend(list[1..], t);
    }
  }

  lemma SelfTokenReads(host: string)
    ensures var s := "'self'";
            !LooksLikeNonce(s) && !LooksLikeHash(s) && IsSameOrigin(s, host) && !EqualFold(s, "'none'")
                && !EqualFold(s, "'strict-dynamic'")
  {
    var s := "'self'";
    assert ToLower(s)[1] == 's' && ToLower(s)[2] == 'e' && ToLower("'strict-dynamic'")[2] == 't'
        && ToLower("'none'")[1] == 'n';
  }

  lemma ScriptSourceTwice(list: seq<string>, host: string, nonce: string)
    requires NeedsNonce(list) ==> nonce != ""
    requires !IsNone(list)
    ensures var now := Plus(Some(list), ScriptSource(list, host, nonce)).value;
            && NeedsNonce(now) == NeedsNonce(list) && !IsNone(now)
            && (NeedsNonce(list) ==>
               ExistingNonce(now) == if ExistingNonce(list) != "" then ExistingNonce(list) else nonce)
            && (ScriptSource(now, host, nonce).Some? <==> NeedsNonce(list) && ExistingNonce(list) !in {"", nonce})
  {
    var source := ScriptSource(list, host, nonce);
    if source.Some? {
      var s := source.value;
      var now := list + [s];
      assert forall t :: t in now <==> t in list || t == s;
      ExistingNonceAppend(list, s);
      if NeedsNonce(list) {
        NonceTokenReads(nonce);
        assert list != [];
      } else {
        SelfTokenReads(host);
        assert s in now;
      }
    }
  }

  lemma ConnectSourceTwice(list: seq<string>, host: string)
    requires !IsNone(list)
    ensures var now := Plus(Some(list), ConnectSource(list, host)).value;
            ConnectSource(now, host).None? && !IsNone(now)
  {
    var s := "'self'";
    assert ToLower(s)[1] == 's' && ToLower("'none'")[1] == 'n';
    assert IsSameOrigin(s, host) && s in list + [s];
  }

  lemma AdmitScriptIffSourced(ds: seq<Directive>, host: string, nonce: string)
    ensures AdmitScript(ds, host, nonce) == ds <==> Sourced(ds, host, nonce).None?
  {
    GoverningLists(ds);
  }

  lemma AdmitConnectIffConnected(ds: seq<Directive>, host: string)
    ensures AdmitConnect(ds, host) == ds <==> Connected(ds, host).None?
  {
    GoverningLists(ds);
    var i := Effective(ds, CONNECT_CHAIN);
    if i < |ds| && ConnectSource(ds[i].tokens, host).Some? {
      assert |ds[i].tokens + ["'self'"]| > |ds[i].tokens|;
      assert ds[i].name != "default-src" ==> AdmitConnect(ds, host)[i] != ds[i];
    }
  }

  /** The governing list already carries a nonce, and it is not the plan's. */
  predicate Disagrees(ds: seq<Directive>, nonce: string) {
    var list := SourceList(ds, ScriptElem);
    list.Some? && NeedsNonce(list.value) && ExistingNonce(list.value) !in {"", nonce}
  }

  predicate Open(ds: seq<Directive>) {
    !Forbids(ds, SCRIPT_CHAIN) && !Forbids(ds, CONNECT_CHAIN)
  }

  /** Admitting again with the same nonce changes something exactly when the policy has a
      different nonce of its own. */
  lemma AdmitTwice(ds: seq<Directive>, host: string, nonce: string)
    requires Open(ds) && (ScriptsNeedNonce(ds) ==> nonce != "")
    ensures var now := Admit(ds, host, nonce);
            && Open(now) && ScriptsNeedNonce(now) == ScriptsNeedNonce(ds)
            && (Admit(now, host, nonce) != now <==> Disagrees(ds, nonce))
            && (ScriptsNeedNonce(ds) ==>
               GoverningNonce(now) == if GoverningNonce(ds) != "" then GoverningNonce(ds) else nonce)
  {
    var now := Admit(ds, host, nonce);
    GoverningLists(ds);
    GoverningLists(now);
    AdmitLists(ds, host, nonce, ScriptElem);
    AdmitLists(ds, host, nonce, Connect);
    var list, conn := SourceList(ds, ScriptElem), SourceList(ds, Connect);
    if list.Some? { ScriptSourceTwice(list.value, host, nonce); }
    if conn.Some? { ConnectSourceTwice(conn.value, host); }
    AdmitScriptIffSourced(now, host, nonce);
    var again := AdmitScript(now, host, nonce);
    AdmitScriptOthers(now, host, nonce, Connect);
    AdmitConnectIffConnected(again, host);
  }
}
