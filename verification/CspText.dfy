/** Printing and parsing policies undo each other. */
module CspText {
  import opened Strings
  import opened Csp

  predicate Word(w: string) {
    w != "" && ';' !in w && forall c | c in w :: !IsSpace(c)
  }

  predicate CleanDirective(d: Directive) {
    Word(d.name) && ToLower(d.name) == d.name && forall t | t in d.tokens :: Word(t)
  }

  predicate Clean(ds: seq<Directive>) {
    forall d | d in ds :: CleanDirective(d)
  }

  // ----- everything the parser produces is clean -----

  lemma PartIsClean(part: string)
    requires ';' !in part
    ensures Clean(ParseOne(part))
  {
    var f := Fields(part);
    if f != [] {
      forall w | w in f ensures Word(w) {}
      var name := ToLower(f[0]);
      assert f[0] in f;
      forall i | 0 <= i < |name| ensures name[i] != ';' && !IsSpace(name[i]) {
        assert f[0][i] in f[0];
      }
      assert ToLower(name) == name;
    }
  }

  lemma {:induction false} PartsAreClean(parts: seq<string>)
    requires forall p | p in parts :: ';' !in p
    ensures Clean(ParseParts(parts))
  {
    if parts != [] {
      PartsAreClean(parts[..|parts| - 1]);
      PartIsClean(parts[|parts| - 1]);
    }
  }

  lemma ParseIsClean(policy: string)
    ensures Clean(Parse(policy))
  {
    SplitParts(policy, ';');
    PartsAreClean(Split(policy, ';'));
  }

  // ----- the parser reads back what the printer wrote -----

  lemma {:induction false} WordEndAt(w: string, rest: string)
    requires Word(w) && (rest == "" || IsSpace(rest[0]))
    ensures WordEnd(w + rest) == |w|
  {
    assert (w + rest)[1..] == w[1..] + rest;
    assert w[0] in w;
    if |w| > 1 { WordEndAt(w[1..], rest); }
  }

  lemma FieldsFirst(w: string, rest: string)
    requires Word(w) && (rest == "" || IsSpace(rest[0]))
    ensures Fields(w + rest) == [w] + Fields(rest)
  {
    WordEndAt(w, rest);
    assert w[0] in w;
    assert (w + rest)[..|w|] == w && (w + rest)[|w|..] == rest;
  }

  lemma FieldsSkipsSpace(s: string)
    ensures Fields(" " + s) == Fields(s)
  {
    assert (" " + s)[1..] == s;
  }

  lemma {:induction false} FieldsOfJoin(words: seq<string>)
    requires forall w | w in words :: Word(w)
    ensures Fields(Join(words, " ")) == words
  {
    if |words| == 1 {
      assert words[0] + "" == words[0];
      FieldsFirst(words[0], "");
    } else if words != [] {
      var rest := Join(words[1..], " ");
      assert Join(words, " ") == words[0] + (" " + rest);
      FieldsFirst(words[0], " " + rest);
      FieldsSkipsSpace(rest);
      FieldsOfJoin(words[1..]);
    }
  }

  lemma TextIsJoin(d: Directive)
    ensures Text(d) == Join([d.name] + d.tokens, " ")
  {
    if d.tokens != [] { assert ([d.name] + d.tokens)[1..] == d.tokens; }
  }

  lemma {:induction false} JoinAvoids(words: seq<string>, sep: string, c: char)
    requires c !in sep && forall w | w in words :: c !in w
    ensures c !in Join(words, sep)
  {
    if |words| > 1 { JoinAvoids(words[1..], sep, c); }
  }

  lemma ParsesText(d: Directive)
    requires CleanDirective(d)
    ensures ';' !in Text(d) && ParseOne(Text(d)) == [d] && ParseOne(" " + Text(d)) == [d]
  {
    TextIsJoin(d);
    var words := [d.name] + d.tokens;
    JoinAvoids(words, " ", ';');
    FieldsOfJoin(words);
    FieldsSkipsSpace(Text(d));
  }

  lemma {:induction false} ParsePartsConcat(a: seq<string>, b: seq<string>)
    ensures ParseParts(a + b) == ParseParts(a) + ParseParts(b)
  {
    if b == [] {
      assert a + b == a;
    } else {
      assert (a + b)[..|a + b| - 1] == a + b[..|b| - 1];
      ParsePartsConcat(a, b[..|b| - 1]);
    }
  }

  lemma ParseNone(a: string)
    requires ';' !in a
    ensures Parse(a) == ParseOne(a)
  {
    SplitNone(a, ';');
    assert [a][..0] == [];
  }

  lemma ParseFirst(a: string, b: string)
    requires ';' !in a
    ensures Parse(a + [';'] + b) == ParseOne(a) + Parse(b)
  {
    SplitFirst(a, b, ';');
    ParsePartsConcat([a], Split(b, ';'));
    assert [a][..0] == [];
  }

  lemma SerializeFirst(ds: seq<Directive>)
    requires |ds| > 1
    ensures Serialize(ds) == Text(ds[0]) + [';'] + (" " + Serialize(ds[1..]))
  {
    assert Texts(ds)[1..] == Texts(ds[1..]);
    assert "; " == [';'] + " ";
  }

  lemma ParsesEmpty(lead: string)
    requires lead == "" || lead == " "
    ensures Parse(lead + Serialize([])) == []
  {
    ParseNone(lead);
    assert lead + Serialize([]) == lead;
    FieldsSkipsSpace("");
  }

  lemma ParsesOne(d: Directive, lead: string)
    requires CleanDirective(d) && (lead == "" || lead == " ")
    ensures ';' !in lead + Text(d) && ParseOne(lead + Text(d)) == [d]
  {
    ParsesText(d);
    if lead == "" { assert lead + Text(d) == Text(d); }
  }

  lemma Regroup(a: string, b: string, c: string, d: string)
    ensures a + (b + c + d) == (a + b) + c + d
  {}

  /** A leading space, as the separator leaves one, changes nothing. */
  lemma {:induction false} ParsesSerialized(ds: seq<Directive>, lead: string)
    requires Clean(ds) && (lead == "" || lead == " ")
    ensures Parse(lead + Serialize(ds)) == ds
  {
    if ds == [] {
      ParsesEmpty(lead);
    } else {
      var first := lead + Text(ds[0]);
      ParsesOne(ds[0], lead);
      if |ds| == 1 {
        ParseNone(first);
        assert Serialize(ds) == Text(ds[0]);
      } else {
        var rest := " " + Serialize(ds[1..]);
        ParsesSerialized(ds[1..], " ");
        SerializeFirst(ds);
        Regroup(lead, Text(ds[0]), [';'], rest);
        ParseFirst(first, rest);
      }
    }
  }

  /** Whatever the parser can produce is printed to a text that parses back to it; so two
      parsed policies print alike only if they are the same. */
  lemma RoundTrip(policy: string)
    ensures Parse(Serialize(Parse(policy))) == Parse(policy)
    ensures Normalise(Normalise(policy)) == Normalise(policy)
  {
    ParseIsClean(policy);
    ParsesSerialized(Parse(policy), "");
    assert "" + Serialize(Parse(policy)) == Serialize(Parse(policy));
  }

  lemma SerializeInjective(a: seq<Directive>, b: seq<Directive>)
    requires Clean(a) && Clean(b) && Serialize(a) == Serialize(b)
    ensures a == b
  {
    ParsesSerialized(a, "");
    ParsesSerialized(b, "");
    assert "" + Serialize(a) == Serialize(a) && "" + Serialize(b) == Serialize(b);
  }

  /** What a clean directive list prints is read back as that list. */
  lemma ReadsBack(ds: seq<Directive>)
    requires Clean(ds)
    ensures Parse(Serialize(ds)) == ds
  {
    ParsesSerialized(ds, "");
    assert "" + Serialize(ds) == Serialize(ds);
  }

  // ----- policies as people write them -----

  predicate Blank(gap: string) { forall c | c in gap :: IsSpace(c) }

  /** The words with a gap before each and one after the last. */
  function Laid(words: seq<string>, gaps: seq<string>): string
    requires |gaps| == |words| + 1
  {
    if words == [] then gaps[0] else gaps[0] + words[0] + Laid(words[1..], gaps[1..])
  }

  /** Gaps are white space, and there is one between any two words. */
  predicate Apart(gaps: seq<string>) {
    (forall g | g in gaps :: Blank(g) && ';' !in g) && forall i | 0 < i < |gaps| - 1 :: gaps[i] != ""
  }

  lemma {:induction false} FieldsSkipBlank(gap: string, s: string)
    requires Blank(gap)
    ensures Fields(gap + s) == Fields(s)
  {
    if gap == "" {
      assert gap + s == s;
    } else {
      assert gap[0] in gap && (gap + s)[1..] == gap[1..] + s;
      FieldsSkipBlank(gap[1..], s);
    }
  }

  lemma {:induction false} FieldsOfLaid(words: seq<string>, gaps: seq<string>)
    requires |gaps| == |words| + 1 && Apart(gaps) && forall w | w in words :: Word(w)
    ensures Fields(Laid(words, gaps)) == words && ';' !in Laid(words, gaps)
  {
    assert gaps[0] in gaps;
    if words == [] {
      FieldsSkipBlank(gaps[0], "");
      assert gaps[0] + "" == gaps[0];
    } else {
      var rest := Laid(words[1..], gaps[1..]);
      assert words[0] in words && forall i | 0 < i < |gaps[1..]| - 1 :: gaps[1..][i] == gaps[i + 1];
      FieldsOfLaid(words[1..], gaps[1..]);
      assert rest == "" || IsSpace(rest[0]) by { StartsBlank(words[1..], gaps[1..]); }
      FieldsFirst(words[0], rest);
      FieldsSkipBlank(gaps[0], words[0] + rest);
      assert gaps[0] + words[0] + rest == gaps[0] + (words[0] + rest);
    }
  }

  lemma StartsBlank(words: seq<string>, gaps: seq<string>)
    requires |gaps| == |words| + 1 && (forall g | g in gaps :: Blank(g)) && (words != [] ==> gaps[0] != "")
    ensures Laid(words, gaps) == "" || IsSpace(Laid(words, gaps)[0])
  {
    assert gaps[0] in gaps;
    if gaps[0] != "" { assert gaps[0][0] in gaps[0] && Laid(words, gaps)[0] == gaps[0][0]; }
  }

  /** A policy reads as its directives in order, however they are spaced and cased: each one is a name,
      which is taken in lower case, and its tokens, which are taken as they stand; blank ones do not
      count. */
  lemma ReadsDirective(name: string, tokens: seq<string>, gaps: seq<string>, rest: string)
    requires |gaps| == |tokens| + 2 && Apart(gaps) && Word(name) && forall t | t in tokens :: Word(t)
    ensures Parse(Laid([name] + tokens, gaps)) == [Directive(ToLower(name), tokens)]
    ensures Parse(Laid([name] + tokens, gaps) + [';'] + rest) == [Directive(ToLower(name), tokens)] + Parse(rest)
  {
    var words := [name] + tokens;
    assert words[0] == name && words[1..] == tokens;
    FieldsOfLaid(words, gaps);
    ParseNone(Laid(words, gaps));
    ParseFirst(Laid(words, gaps), rest);
  }

  lemma ReadsBlank(gap: string, rest: string)
    requires Blank(gap) && ';' !in gap
    ensures Parse(gap) == [] && Parse(gap + [';'] + rest) == Parse(rest)
  {
    FieldsSkipBlank(gap, "");
    assert gap + "" == gap;
    ParseNone(gap);
    ParseFirst(gap, rest);
  }
}
