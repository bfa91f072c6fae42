/** Parsing what was printed gives back the variables. */
module DotenvProofs {
  import opened Strings
  import opened Wrappers
  import opened Dotenv

  // ----- escaping -----

  function Escape(value: string): string {
    Replace(Replace(Replace(value, BACKSLASH, [BACKSLASH, BACKSLASH]), QUOTE, [BACKSLASH, QUOTE]), NEWLINE,
        [BACKSLASH, 'n'])
  }

  function EscapeChar(c: char): string {
    if c == BACKSLASH then [BACKSLASH, BACKSLASH]
    else if c == QUOTE then [BACKSLASH, QUOTE]
    else if c == NEWLINE then [BACKSLASH, 'n']
    else [c]
  }

  lemma ReplaceTwo(a: char, b: char, c: char, text: string)
    ensures Replace([a, b], c, text) == (if a == c then text else [a]) + (if b == c then text else [b])
  {
    assert [a, b] == [a] + [b];
    ReplaceConcat([a], [b], c, text);
    ReplaceOne(a, c, text);
    ReplaceOne(b, c, text);
  }

  /** The three passes escape character by character. */
  lemma EscapeStep(value: string)
    requires value != ""
    ensures Escape(value) == EscapeChar(value[0]) + Escape(value[1..])
  {
    var c := value[0];
    var rest1 := Replace(value[1..], BACKSLASH, [BACKSLASH, BACKSLASH]);
    var rest2 := Replace(rest1, QUOTE, [BACKSLASH, QUOTE]);
    var one := if c == BACKSLASH then [BACKSLASH, BACKSLASH] else [c];
    var two := if c == QUOTE then [BACKSLASH, QUOTE] else one;
    ReplaceConcat(one, rest1, QUOTE, [BACKSLASH, QUOTE]);
    ReplaceOne(c, QUOTE, [BACKSLASH, QUOTE]);
    ReplaceTwo(BACKSLASH, BACKSLASH, QUOTE, [BACKSLASH, QUOTE]);
    assert Replace(one, QUOTE, [BACKSLASH, QUOTE]) == two;
    ReplaceConcat(two, rest2, NEWLINE, [BACKSLASH, 'n']);
    ReplaceOne(c, NEWLINE, [BACKSLASH, 'n']);
    ReplaceTwo(BACKSLASH, BACKSLASH, NEWLINE, [BACKSLASH, 'n']);
    ReplaceTwo(BACKSLASH, QUOTE, NEWLINE, [BACKSLASH, 'n']);
  }

  lemma {:induction false} EscapeConcat(a: string, b: string)
    ensures Escape(a + b) == Escape(a) + Escape(b)
  {
    if a == "" {
      assert a + b == b;
    } else {
      assert (a + b)[1..] == a[1..] + b;
      EscapeStep(a);
      EscapeStep(a + b);
      EscapeConcat(a[1..], b);
    }
  }

  lemma {:induction false} EscapeHasNoNewline(value: string)
    ensures NEWLINE !in Escape(value)
    ensures '\r' !in value ==> '\r' !in Escape(value)
  {
    if value != "" {
      EscapeStep(value);
      EscapeHasNoNewline(value[1..]);
    }
  }

  /** No quote closes this text, and none of its characters hides the one that follows it. */
  ghost predicate Unclosed(s: string) {
    forall t :: ClosingQuote(s + t, QUOTE) == |s| + ClosingQuote(t, QUOTE)
  }

  lemma UnclosedConcat(a: string, b: string)
    requires Unclosed(a) && Unclosed(b)
    ensures Unclosed(a + b)
  {
    forall t ensures ClosingQuote(a + b + t, QUOTE) == |a + b| + ClosingQuote(t, QUOTE) {
      assert a + b + t == a + (b + t);
    }
  }

  lemma CharUnclosed(c: char)
    ensures Unclosed(EscapeChar(c)) && (c != QUOTE && c != BACKSLASH ==> Unclosed([c]))
  {
    var e := EscapeChar(c);
    forall t ensures ClosingQuote(e + t, QUOTE) == |e| + ClosingQuote(t, QUOTE) { assert (e + t)[|e|..] == t; }
    if c != QUOTE && c != BACKSLASH {
      forall t ensures ClosingQuote([c] + t, QUOTE) == 1 + ClosingQuote(t, QUOTE) { assert ([c] + t)[1..] == t; }
    }
  }

  lemma {:induction false} EscapeUnclosed(value: string)
    ensures Unclosed(Escape(value))
  {
    if value == "" {
      forall t ensures ClosingQuote("" + t, QUOTE) == ClosingQuote(t, QUOTE) { assert "" + t == t; }
    } else {
      EscapeStep(value);
      EscapeUnclosed(value[1..]);
      CharUnclosed(value[0]);
      UnclosedConcat(EscapeChar(value[0]), Escape(value[1..]));
    }
  }

  lemma {:induction false} EscapeRoundTrip(value: string)
    ensures Unescape(Escape(value)) == value
  {
    if value != "" {
      EscapeStep(value);
      EscapeRoundTrip(value[1..]);
      var head, tail := EscapeChar(value[0]), Escape(value[1..]);
      assert (head + tail)[|head|..] == tail;
      assert value == [value[0]] + value[1..];
    }
  }

  // ----- one line -----

  lemma {:induction false} CommentNeedsBlank(s: string)
    requires forall c | c in s :: !IsBlank(c)
    ensures CommentStart(s) == |s|
  {
    if |s| >= 2 { CommentNeedsBlank(s[1..]); }
  }

  lemma BareHasNoBlank(value: string)
    requires IsBare(value)
    ensures forall c | c in value :: !IsBlank(c) && c != QUOTE && c != SINGLE && c != NEWLINE && c != '\r'
  {
    forall c | c in value ensures !IsBlank(c) && c != QUOTE && c != SINGLE && c != NEWLINE && c != '\r' {
      assert IsLetter(c) || IsDigit(c) || c in ['_', '.', '/', ':', '@', '%', '+', ',', '-'];
    }
  }

  lemma KeyChars(key: string)
    requires IsKey(key)
    ensures forall c | c in key :: !IsBlank(c) && c != '=' && c != '#' && c != NEWLINE && c != '\r'
  {
    forall c | c in key ensures !IsBlank(c) && c != '=' && c != '#' && c != NEWLINE && c != '\r' {
      assert IsLetter(c) || IsDigit(c) || c in ['_', '.', '-'];
    }
  }

  lemma {:induction false} EqualsIsFound(key: string, rest: string)
    requires '=' !in key
    ensures IndexOfChar(key + "=" + rest, '=') == |key|
  {
    if key == "" {
      assert key + "=" + rest == "=" + rest;
    } else {
      assert (key + "=" + rest)[1..] == key[1..] + "=" + rest;
      EqualsIsFound(key[1..], rest);
    }
  }

  /** An assignment to a key is never taken for an export. */
  lemma NoExport(key: string, rest: string)
    requires IsKey(key)
    ensures !("export " <= key + "=" + rest)
  {
    KeyChars(key);
    var line, e := key + "=" + rest, "export ";
    assert e[6] == ' ' && forall j | 0 <= j < 6 :: 'a' <= e[j] <= 'z';
    var i := if |key| < 6 then |key| else 6;
    assert line[i] == if i < |key| then key[i] else '=';
    assert line[i] != e[i];
  }

  lemma QuoteTrimmed(value: string)
    ensures IsTrimmed(Quote(value)) && NEWLINE !in Quote(value) && ('\r' !in value ==> '\r' !in Quote(value))
  {
    if IsBare(value) {
      BareHasNoBlank(value);
      if value != "" { assert value[0] in value && value[|value| - 1] in value; }
    } else {
      EscapeHasNoNewline(value);
    }
  }

  lemma ValueReads(value: string, lines: seq<string>)
    ensures var q := Quote(value);
            if q != "" && (q[0] == QUOTE || q[0] == SINGLE)
            then Continue(q[1..], q[0], lines) == (q[1..], lines) && Body(q[1..], q[0]) == value
            else BareValue(q) == value
  {
    if IsBare(value) {
      BareHasNoBlank(value);
      CommentNeedsBlank(value);
      if value != "" { assert value[0] in value; }
    } else {
      var q := Quote(value);
      EscapeUnclosed(value);
      assert q[1..] == Escape(value) + [QUOTE];
      assert q[1..][..|Escape(value)|] == Escape(value);
      EscapeRoundTrip(value);
    }
  }

  lemma AssignmentReads(key: string, value: string, lines: seq<string>)
    requires IsKey(key)
    ensures ParseLine(key + "=" + Quote(value), lines) == (Some(Assignment(key, value)), lines)
  {
    var q := Quote(value);
    var line := key + "=" + q;
    KeyChars(key);
    QuoteTrimmed(value);
    assert key[0] in key && key[|key| - 1] in key;
    assert line[0] == key[0] && line[|line| - 1] == if q == "" then '=' else q[|q| - 1];
    TrimmedStays(line);
    NoExport(key, q);
    EqualsIsFound(key, q);
    assert line[..|key|] == key && line[|key| + 1..] == q;
    TrimmedStays(key);
    TrimmedStays(q);
    ValueReads(value, lines);
  }

  lemma CommentIsSkipped(line: string, lines: seq<string>)
    requires line == "" || line[0] == '#'
    ensures ParseLine(line, lines) == (None, lines)
  {
    if line != "" {
      assert TrimLeft(line) == line;
      TrimRightKeeps(line);
      FirstStays(line);
    }
  }

  lemma {:induction false} FirstStays(s: string)
    requires s != "" && !IsBlank(s[0])
    ensures TrimRight(s) != "" && TrimRight(s)[0] == s[0]
  {
    if IsBlank(s[|s| - 1]) { FirstStays(s[..|s| - 1]); }
  }

  // ----- a value with carriage returns -----

  const RETURN: char := '\r'

  /** A text in which every carriage return has become a newline. */
  function Lines(s: string): string { Replace(s, RETURN, [NEWLINE]) }

  /** What the parser makes of a printed value: with a carriage return in it, the text is cut into
      lines, the first of which is trimmed, and comes back with newlines in their place. */
  function Reread(value: string): string {
    var i := IndexOfChar(value, RETURN);
    if i == |value| then value
    else Unescape(TrimRight(Escape(value[..i])) + [NEWLINE] + Lines(Escape(value[i + 1..])))
  }

  lemma {:induction false} EscapeTrimmed(value: string) returns (kept: string)
    ensures kept <= value && TrimRight(Escape(value)) == Escape(kept)
  {
    kept := value;
    if value != "" {
      var n := |value| - 1;
      assert value == value[..n] + [value[n]];
      EscapeConcat(value[..n], [value[n]]);
      EscapeStep([value[n]]);
      assert Escape(value) == Escape(value[..n]) + EscapeChar(value[n]);
      if EscapeChar(value[n]) == [value[n]] && IsBlank(value[n]) {
        assert Escape(value)[..|Escape(value)| - 1] == Escape(value[..n]);
        kept := EscapeTrimmed(value[..n]);
      }
    }
  }

  lemma {:induction false} UnescapeKeepsOut(s: string)
    requires RETURN !in s
    ensures RETURN !in Unescape(s)
    decreases |s|
  {
    if s != "" {
      UnescapeKeepsOut(s[1..]);
      if |s| > 1 { UnescapeKeepsOut(s[2..]); }
    }
  }

  lemma {:induction false} NoneLeft(s: string)
    ensures RETURN !in Lines(s) && (RETURN !in s ==> Lines(s) == s)
  {
    if s != "" { NoneLeft(s[1..]); }
  }

  lemma CutAtReturn(value: string, i: nat)
    requires i == IndexOfChar(value, RETURN) < |value|
    ensures RETURN in value && RETURN !in value[..i] && value == value[..i] + [RETURN] + value[i + 1..]
  {
    CutAt(value, i);
    NotBefore(value, i, RETURN);
  }

  lemma CutAt(s: string, i: nat)
    requires i < |s|
    ensures s == s[..i] + [s[i]] + s[i + 1..] && s[i] in s
  {}

  lemma NotBefore(s: string, i: nat, c: char)
    requires i <= |s| && forall j | 0 <= j < i :: s[j] != c
    ensures c !in s[..i]
  {}

  lemma RereadHasNone(first: string, text: string)
    requires RETURN !in first
    ensures RETURN !in Unescape(TrimRight(Escape(first)) + [NEWLINE] + Lines(text))
  {
    var kept := EscapeTrimmed(first);
    assert forall c | c in kept :: c in first;
    EscapeHasNoNewline(kept);
    NoneLeft(text);
    UnescapeKeepsOut(TrimRight(Escape(first)) + [NEWLINE] + Lines(text));
  }

  lemma RereadIff(value: string)
    ensures Reread(value) == value <==> RETURN !in value
  {
    var i := IndexOfChar(value, RETURN);
    if i < |value| {
      CutAtReturn(value, i);
      RereadHasNone(value[..i], Escape(value[i + 1..]));
    } else {
      assert forall j | 0 <= j < |value| :: value[j] != RETURN;
    }
  }

  /** A carriage return in the value is one in the escaped text. */
  lemma EscapeBroken(first: string, later: string, value: string)
    requires RETURN !in first && value == first + [RETURN] + later
    ensures Escape(value) == Escape(first) + [RETURN] + Escape(later)
    ensures RETURN !in Escape(first)
  {
    assert value == first + ([RETURN] + later);
    EscapeConcat(first, [RETURN] + later);
    EscapeStep([RETURN] + later);
    EscapeHasNoNewline(first);
  }

  lemma LinesBroken(a: string, b: string)
    requires RETURN !in a
    ensures Lines(a + [RETURN] + b) == a + [NEWLINE] + Lines(b)
    ensures Split(a + [RETURN] + b + [QUOTE], RETURN) == [a] + Split(b + [QUOTE], RETURN)
  {
    NoneLeft(a);
    assert a + [RETURN] + b == a + ([RETURN] + b);
    ReplaceConcat(a, [RETURN] + b, RETURN, [NEWLINE]);
    assert a + [RETURN] + b + [QUOTE] == a + [RETURN] + (b + [QUOTE]);
    SplitFirst(a, b + [QUOTE], RETURN);
  }

  lemma ExtendUnclosed(rest: string, first: string)
    requires Unclosed(rest)
    ensures Unclosed(rest + [NEWLINE] + Escape(first)) && ClosingQuote(rest, QUOTE) == |rest|
    ensures ClosingQuote(rest + [NEWLINE] + Escape(first) + [QUOTE], QUOTE) == |rest| + 1 + |Escape(first)|
  {
    EscapeUnclosed(first);
    CharUnclosed(NEWLINE);
    UnclosedConcat(rest, [NEWLINE]);
    UnclosedConcat(rest + [NEWLINE], Escape(first));
    assert rest + "" == rest;
  }

  lemma OneLineMore(rest: string, line: string, lines: seq<string>)
    requires ClosingQuote(rest, QUOTE) == |rest|
    ensures Continue(rest, QUOTE, [line] + lines) == Continue(rest + [NEWLINE] + line, QUOTE, lines)
  {
    assert ([line] + lines)[1..] == lines;
  }

  predicate Joined(rest: string, text: string, after: seq<string>) {
    var whole := rest + [NEWLINE] + Lines(text) + [QUOTE];
    Continue(rest, QUOTE, Split(text + [QUOTE], RETURN) + after) == (whole, after)
        && ClosingQuote(whole, QUOTE) == |whole| - 1
  }

  lemma LastLineJoins(rest: string, value: string, after: seq<string>)
    requires Unclosed(rest) && RETURN !in value
    ensures Joined(rest, Escape(value), after)
  {
    ExtendUnclosed(rest, value);
    EscapeHasNoNewline(value);
    NoneLeft(Escape(value));
    SplitNone(Escape(value) + [QUOTE], RETURN);
    OneLineMore(rest, Escape(value) + [QUOTE], after);
    assert rest + [NEWLINE] + Escape(value) + [QUOTE] == rest + [NEWLINE] + (Escape(value) + [QUOTE]);
  }

  lemma FirstLineJoins(rest: string, a: string, b: string, after: seq<string>)
    requires ClosingQuote(rest, QUOTE) == |rest| && RETURN !in a && Joined(rest + [NEWLINE] + a, b, after)
    ensures Joined(rest, a + [RETURN] + b, after)
  {
    LinesBroken(a, b);
    var lines := Split(b + [QUOTE], RETURN);
    Prepend(a, lines, after);
    OneLineMore(rest, a, lines + after);
    Regroup(rest + [NEWLINE], a, [NEWLINE], Lines(b), [QUOTE]);
  }

  lemma Prepend(a: string, lines: seq<string>, after: seq<string>)
    ensures ([a] + lines) + after == [a] + (lines + after)
  {}

  lemma Regroup(a: string, b: string, c: string, d: string, e: string)
    ensures a + b + c + d + e == a + (b + c + d) + e
  {}

  /** The lines of a quoted text are joined up to the one that closes it, and no further. */
  lemma {:induction false} JoinsLines(rest: string, value: string, after: seq<string>)
    requires Unclosed(rest)
    ensures Joined(rest, Escape(value), after)
    decreases |value|
  {
    var i := IndexOfChar(value, RETURN);
    if i == |value| {
      LastLineJoins(rest, value, after);
    } else {
      var first, later := value[..i], value[i + 1..];
      ExtendUnclosed(rest, first);
      EscapeBroken(first, later, value);
      JoinsLines(rest + [NEWLINE] + Escape(first), later, after);
      FirstLineJoins(rest, Escape(first), Escape(later), after);
    }
  }

  /** The pieces into which a printed assignment falls at its carriage returns are read as one. */
  lemma PiecesRead(key: string, value: string, after: seq<string>)
    requires IsKey(key)
    ensures var pieces := Split(key + "=" + Quote(value), RETURN);
            ParseLine(pieces[0], pieces[1..] + after) == (Some(Assignment(key, Reread(value))), after)
  {
    var i := IndexOfChar(value, RETURN);
    if i == |value| {
      assert RETURN !in value by { assert forall j | 0 <= j < |value| :: value[j] != RETURN; }
      WholeReads(key, value, after);
    } else {
      CutAtReturn(value, i);
      BrokenReads(key, value[..i], value[i + 1..], value, after);
    }
  }

  lemma WholeReads(key: string, value: string, after: seq<string>)
    requires IsKey(key) && RETURN !in value
    ensures var pieces := Split(key + "=" + Quote(value), RETURN);
            ParseLine(pieces[0], pieces[1..] + after) == (Some(Assignment(key, value)), after)
  {
    var line := key + "=" + Quote(value);
    KeyChars(key);
    QuoteTrimmed(value);
    assert RETURN !in line;
    SplitNone(line, RETURN);
    assert [line][1..] + after == after;
    AssignmentReads(key, value, after);
  }

  lemma BrokenSplits(key: string, first: string, later: string, value: string)
    requires IsKey(key) && RETURN !in first && value == first + [RETURN] + later
    ensures Split(key + "=" + Quote(value), RETURN)
            == [key + "=" + [QUOTE] + Escape(first)] + Split(Escape(later) + [QUOTE], RETURN)
  {
    var start := key + "=" + [QUOTE] + Escape(first);
    KeyChars(key);
    EscapeHasNoNewline(first);
    assert RETURN in value;
    if IsBare(value) { BareHasNoBlank(value); }
    EscapeBroken(first, later, value);
    assert Quote(value) == [QUOTE] + (Escape(first) + [RETURN] + Escape(later)) + [QUOTE];
    assert key + "=" + Quote(value) == start + [RETURN] + (Escape(later) + [QUOTE]);
    SplitFirst(start, Escape(later) + [QUOTE], RETURN);
  }

  /** The first line, once it is trimmed: the key, and the beginning of a quoted text. */
  lemma StartReads(key: string, kept: string, start: string, more: seq<string>)
    requires IsKey(key) && Trim(start) == key + "=" + [QUOTE] + Escape(kept)
    ensures var (rest, after) := Continue(Escape(kept), QUOTE, more);
            ParseLine(start, more) == (Some(Assignment(key, Body(rest, QUOTE))), after)
  {
    var text := [QUOTE] + Escape(kept);
    var line := key + "=" + text;
    assert Trim(start) == line;
    KeyChars(key);
    NoExport(key, text);
    EqualsIsFound(key, text);
    assert line[..|key|] == key && line[|key| + 1..] == text && text[1..] == Escape(kept);
    assert line[0] == key[0] && key[0] in key && key[|key| - 1] in key;
    TrimmedStays(key);
    TrimTrims(start);
    assert text[|text| - 1] == line[|line| - 1];
    TrimmedStays(text);
  }

  lemma BrokenReads(key: string, first: string, later: string, value: string, after: seq<string>)
    requires IsKey(key) && RETURN !in first && value == first + [RETURN] + later
    ensures var pieces := Split(key + "=" + Quote(value), RETURN);
            var body := TrimRight(Escape(first)) + [NEWLINE] + Lines(Escape(later));
            ParseLine(pieces[0], pieces[1..] + after) == (Some(Assignment(key, Unescape(body))), after)
  {
    BrokenSplits(key, first, later, value);
    var start := key + "=" + [QUOTE] + Escape(first);
    var kept := EscapeTrimmed(first);
    KeyChars(key);
    TrimRightStops(key + "=" + [QUOTE], Escape(first));
    assert start[0] in key && TrimLeft(start) == start;
    assert start == (key + "=" + [QUOTE]) + Escape(first);
    StartReads(key, kept, start, Split(Escape(later) + [QUOTE], RETURN) + after);
    EscapeUnclosed(kept);
    JoinsLines(Escape(kept), later, after);
  }

  /** Trimming stops at a character that is not blank. */
  lemma {:induction false} TrimRightStops(a: string, b: string)
    requires a != "" && !IsBlank(a[|a| - 1])
    ensures TrimRight(a + b) == a + TrimRight(b)
  {
    if b == "" {
      assert a + b == a;
    } else {
      assert (a + b)[..|a + b| - 1] == a + b[..|b| - 1];
      TrimRightStops(a, b[..|b| - 1]);
    }
  }

  // ----- the whole file -----

  /** What the printer is meant for: keys the parser knows, any values, and notes that stay on
      their line. */
  predicate Printable(v: Var) {
    IsKey(v.key) && (v.note.Some? ==> RETURN !in v.note.value && NEWLINE !in v.note.value)
  }

  predicate OneLine(line: string) { NEWLINE !in line && RETURN !in line }

  /** A printed line: it has no newline, and a carriage return is not its end. */
  predicate Printed(line: string) { NEWLINE !in line && (line != "" ==> line[|line| - 1] != RETURN) }

  lemma {:induction false} UnreturnLine(a: string, b: string)
    requires Printed(a)
    ensures Unreturn(a + [NEWLINE] + b) == Lines(a) + [NEWLINE] + Unreturn(b)
  {
    if a == "" {
      assert a + [NEWLINE] + b == [NEWLINE] + b;
    } else {
      assert (a + [NEWLINE] + b)[1..] == a[1..] + [NEWLINE] + b;
      UnreturnLine(a[1..], b);
    }
  }

  lemma {:induction false} SplitLines(a: string, b: string)
    requires NEWLINE !in a
    ensures Split(Lines(a) + [NEWLINE] + b, NEWLINE) == Split(a, RETURN) + Split(b, NEWLINE)
  {
    if a == "" {
      assert Lines(a) + [NEWLINE] + b == [NEWLINE] + b;
    } else {
      var c := if a[0] == RETURN then NEWLINE else a[0];
      assert Lines(a) + [NEWLINE] + b == [c] + (Lines(a[1..]) + [NEWLINE] + b);
      SplitLines(a[1..], b);
    }
  }

  /** The lines that the parser sees. */
  function Pieces(lines: seq<string>): seq<string> {
    if lines == [] then [] else Split(lines[0], RETURN) + Pieces(lines[1..])
  }

  lemma {:induction false} PiecesConcat(a: seq<string>, b: seq<string>)
    ensures Pieces(a + b) == Pieces(a) + Pieces(b)
  {
    if a == [] {
      assert a + b == b;
    } else {
      assert (a + b)[1..] == a[1..] + b;
      PiecesConcat(a[1..], b);
    }
  }

  lemma {:induction false} WholePieces(lines: seq<string>)
    requires forall l | l in lines :: OneLine(l)
    ensures Pieces(lines) == lines
  {
    if lines != [] {
      assert OneLine(lines[0]);
      SplitNone(lines[0], RETURN);
      WholePieces(lines[1..]);
    }
  }

  lemma {:induction false} SplitJoin(lines: seq<string>)
    requires lines != [] && forall l | l in lines :: Printed(l)
    ensures Split(Unreturn(Join(lines, [NEWLINE]) + [NEWLINE]), NEWLINE) == Pieces(lines) + [""]
  {
    assert Printed(lines[0]);
    var rest := if |lines| == 1 then "" else Join(lines[1..], [NEWLINE]) + [NEWLINE];
    assert Join(lines, [NEWLINE]) + [NEWLINE] == lines[0] + [NEWLINE] + rest;
    UnreturnLine(lines[0], rest);
    SplitLines(lines[0], Unreturn(rest));
    if |lines| == 1 {
      assert Pieces(lines[1..]) == [];
    } else {
      SplitJoin(lines[1..]);
    }
  }

  lemma VarLineIsPrinted(v: Var)
    requires Printable(v)
    ensures Printed(VarLine(v)) && (v.value.None? ==> OneLine(VarLine(v)))
  {
    KeyChars(v.key);
    if v.value.Some? {
      QuoteTrimmed(v.value.value);
      var q := Quote(v.value.value);
      assert q != "" ==> VarLine(v)[|VarLine(v)| - 1] == q[|q| - 1];
    }
  }

  lemma HeaderLinesAreOne(header: string)
    requires '\r' !in header
    ensures forall l | l in HeaderLines(header) :: OneLine(l) && (l == "" || l[0] == '#')
  {
    if header != "" {
      SplitParts(header, NEWLINE);
      forall l | l in HeaderLines(header) ensures OneLine(l) && (l == "" || l[0] == '#') {
        if l != "" {
          var i :| 0 <= i < |Split(header, NEWLINE)| && l == "# " + Split(header, NEWLINE)[i];
          assert Split(header, NEWLINE)[i] in Split(header, NEWLINE);
        }
      }
    }
  }

  lemma {:induction false} CommentsAreSkipped(comments: seq<string>, lines: seq<string>, out: map<string, string>)
    requires forall l | l in comments :: l == "" || l[0] == '#'
    ensures ParseLines(comments + lines, out) == ParseLines(lines, out)
  {
    if comments == [] {
      assert comments + lines == lines;
    } else {
      assert (comments + lines)[1..] == comments[1..] + lines;
      CommentIsSkipped(comments[0], comments[1..] + lines);
      CommentsAreSkipped(comments[1..], lines, out);
    }
  }

  function Assigned(v: Var): Option<Assignment> {
    if v.value.Some? then Some(Assignment(v.key, Reread(v.value.value))) else None
  }

  /** The assignments in order, as the object takes them. */
  function Collect(vars: seq<Var>, out: map<string, string>): map<string, string> {
    if vars == [] then out else Collect(vars[1..], Assign(out, Assigned(vars[0])))
  }

  lemma VarReads(v: Var, rest: seq<string>)
    requires Printable(v)
    ensures var pieces := Split(VarLine(v), RETURN); ParseLine(pieces[0], pieces[1..] + rest) == (Assigned(v), rest)
  {
    if v.value.Some? {
      PiecesRead(v.key, v.value.value, rest);
    } else {
      VarLineIsPrinted(v);
      SplitNone(VarLine(v), RETURN);
      assert Split(VarLine(v), RETURN)[1..] + rest == rest;
      CommentIsSkipped(VarLine(v), rest);
    }
  }

  lemma FirstAndRest(pieces: seq<string>, more: seq<string>, lines: seq<string>)
    requires pieces != []
    ensures (pieces + more) + lines == [pieces[0]] + (pieces[1..] + (more + lines))
  {
  }

  lemma PiecesOfVars(vars: seq<Var>, lines: seq<string>, pieces: seq<string>, rest: seq<string>)
    requires vars != [] && pieces == Split(VarLine(vars[0]), RETURN) && rest == Pieces(VarLines(vars[1..])) + lines
    ensures Pieces(VarLines(vars)) + lines == [pieces[0]] + (pieces[1..] + rest)
  {
    assert VarLines(vars)[1..] == VarLines(vars[1..]);
    FirstAndRest(pieces, Pieces(VarLines(vars[1..])), lines);
  }

  lemma {:induction false} VarsAreCollected(vars: seq<Var>, lines: seq<string>, out: map<string, string>)
    requires forall v | v in vars :: Printable(v)
    ensures ParseLines(Pieces(VarLines(vars)) + lines, out) == ParseLines(lines, Collect(vars, out))
  {
    if vars == [] {
      assert Pieces(VarLines(vars)) + lines == lines;
    } else {
      var v, rest := vars[0], Pieces(VarLines(vars[1..])) + lines;
      PiecesOfVars(vars, lines, Split(VarLine(v), RETURN), rest);
      assert v in vars;
      VarReads(v, rest);
      VarsAreCollected(vars[1..], lines, Assign(out, Assigned(v)));
    }
  }

  lemma EmptyFile()
    ensures Parse([NEWLINE]) == map[]
  {
    assert "" + [NEWLINE] + "" == [NEWLINE];
    UnreturnLine("", "");
    SplitLines("", "");
    CommentsAreSkipped(["", ""], [], map[]);
    assert ["", ""] + [] == [""] + [""];
  }

  lemma ParsesToCollected(vars: seq<Var>, header: string)
    requires (forall v | v in vars :: Printable(v)) && RETURN !in header
    ensures Parse(Serialize(vars, header)) == Collect(vars, map[])
  {
    var comments := HeaderLines(header);
    var lines := comments + VarLines(vars);
    HeaderLinesAreOne(header);
    forall l | l in lines ensures Printed(l) {
      if l !in comments {
        var i :| 0 <= i < |vars| && VarLines(vars)[i] == l;
        VarLineIsPrinted(vars[i]);
      }
    }
    if lines == [] {
      assert |VarLines(vars)| == 0 && Serialize(vars, header) == [NEWLINE];
      EmptyFile();
    } else {
      SplitJoin(lines);
      PiecesConcat(comments, VarLines(vars));
      WholePieces(comments);
      assert Pieces(lines) + [""] == comments + (Pieces(VarLines(vars)) + [""]);
      CommentsAreSkipped(comments, Pieces(VarLines(vars)) + [""], map[]);
      VarsAreCollected(vars, [""], map[]);
      CommentsAreSkipped([""], [], Collect(vars, map[]));
      assert [""] + [] == [""];
    }
  }

  // ----- the promise -----

  /** The value of the last variable of that key that has one. */
  function LastValue(vars: seq<Var>, key: string): Option<string> {
    if vars == [] then None
    else
      var v := vars[|vars| - 1];
      if v.key == key && v.value.Some? then v.value else LastValue(vars[..|vars| - 1], key)
  }

  lemma {:induction false} CollectSnoc(vars: seq<Var>, v: Var, out: map<string, string>)
    ensures Collect(vars + [v], out) == Assign(Collect(vars, out), Assigned(v))
  {
    if vars == [] {
      assert vars + [v] == [v];
    } else {
      assert (vars + [v])[1..] == vars[1..] + [v];
      CollectSnoc(vars[1..], v, Assign(out, Assigned(vars[0])));
    }
  }

  lemma {:induction false} CollectIsLast(vars: seq<Var>, key: string)
    ensures var m := Collect(vars, map[]);
            if key == "__proto__" || LastValue(vars, key).None? then key !in m
            else key in m && m[key] == Reread(LastValue(vars, key).value)
  {
    if vars != [] {
      var n := |vars| - 1;
      assert vars == vars[..n] + [vars[n]];
      CollectSnoc(vars[..n], vars[n], map[]);
      CollectIsLast(vars[..n], key);
    }
  }

  /** The map gives for this key the last value it was given, or nothing if there was none. */
  predicate LastWins(m: map<string, string>, vars: seq<Var>, key: string) {
    if LastValue(vars, key).Some? then key in m && m[key] == LastValue(vars, key).value else key !in m
  }

  /** What the file format cannot hold: a carriage return, or the key "__proto__", which a plain
      object drops. */
  predicate Survives(vars: seq<Var>, key: string) {
    LastValue(vars, key).Some? ==> key != "__proto__" && RETURN !in LastValue(vars, key).value
  }

  /** Parsing the printed file gives for a key the last value it was given, whatever that value,
      exactly when the key is not "__proto__" and the value has no carriage return in it; so the
      whole map comes back exactly when that is so for every key. */
  lemma RoundTripIff(vars: seq<Var>, header: string)
    requires (forall v | v in vars :: Printable(v)) && RETURN !in header
    ensures forall key :: LastWins(Parse(Serialize(vars, header)), vars, key) <==> Survives(vars, key)
  {
    ParsesToCollected(vars, header);
    forall key ensures LastWins(Collect(vars, map[]), vars, key) <==> Survives(vars, key) {
      CollectIsLast(vars, key);
      if LastValue(vars, key).Some? { RereadIff(LastValue(vars, key).value); }
    }
  }

  // ----- lines that people write -----

  /** A line ends at a newline, at a carriage return, or at both together, which count as one. */
  lemma {:induction false} LineEndsRead(line: string, rest: string)
    requires RETURN !in line && NEWLINE !in line
    ensures Split(Unreturn(line + [NEWLINE] + rest), NEWLINE) == [line] + Split(Unreturn(rest), NEWLINE)
    ensures Split(Unreturn(line + [RETURN, NEWLINE] + rest), NEWLINE) == [line] + Split(Unreturn(rest), NEWLINE)
    ensures rest != "" && rest[0] != NEWLINE ==>
              Split(Unreturn(line + [RETURN] + rest), NEWLINE) == [line] + Split(Unreturn(rest), NEWLINE)
  {
    UnreturnPlain(line, [NEWLINE] + rest);
    UnreturnPlain(line, [RETURN, NEWLINE] + rest);
    UnreturnPlain(line, [RETURN] + rest);
    assert line + [NEWLINE] + rest == line + ([NEWLINE] + rest);
    assert line + [RETURN, NEWLINE] + rest == line + ([RETURN, NEWLINE] + rest);
    assert line + [RETURN] + rest == line + ([RETURN] + rest);
    assert ([RETURN, NEWLINE] + rest)[2..] == rest;
    SplitFirst(line, Unreturn(rest), NEWLINE);
    assert line + ([NEWLINE] + Unreturn(rest)) == line + [NEWLINE] + Unreturn(rest);
  }

  lemma {:induction false} UnreturnPlain(line: string, rest: string)
    requires RETURN !in line
    ensures Unreturn(line + rest) == line + Unreturn(rest)
  {
    if line == "" {
      assert line + rest == rest;
    } else {
      assert (line + rest)[1..] == line[1..] + rest;
      UnreturnPlain(line[1..], rest);
    }
  }

  /** Three escapes stand for a quote, a backslash and a newline; any other backslash for itself. */
  lemma UnescapeReads(c: char, rest: string)
    ensures Unescape("\\\"" + rest) == "\"" + Unescape(rest)
    ensures Unescape("\\\\" + rest) == "\\" + Unescape(rest)
    ensures Unescape("\\n" + rest) == "\n" + Unescape(rest)
    ensures c !in "\"\\n" ==> Unescape("\\" + [c] + rest) == "\\" + Unescape([c] + rest)
    ensures c != BACKSLASH ==> Unescape([c] + rest) == [c] + Unescape(rest)
  {
    forall e: string | |e| == 2 ensures (e + rest)[2..] == rest {}
    assert ("\\" + [c] + rest)[1..] == [c] + rest && ([c] + rest)[1..] == rest;
  }

  /** White space around a line does not count. */
  lemma BlanksAround(lead: string, line: string, trail: string, lines: seq<string>)
    requires IsTrimmed(line) && (forall c | c in lead :: IsBlank(c)) && forall c | c in trail :: IsBlank(c)
    ensures ParseLine(lead + line + trail, lines) == ParseLine(line, lines)
  {
    TrimPeels(lead, line, trail);
    TrimmedStays(line);
  }

  /** An assignment may be written as an export. */
  lemma ExportReads(key: string, text: string, lines: seq<string>)
    requires IsKey(key) && IsTrimmed(key + "=" + text)
    ensures ParseLine("export " + (key + "=" + text), lines) == ParseLine(key + "=" + text, lines)
  {
    var line := key + "=" + text;
    var whole := "export " + line;
    assert whole[0] == 'e' && whole[|whole| - 1] == line[|line| - 1] && whole[7..] == line;
    TrimmedStays(whole);
    TrimmedStays(line);
    NoExport(key, text);
  }

  /** The parts of a trimmed assignment. */
  lemma LineReads(key: string, text: string, lines: seq<string>)
    requires IsKey(key) && IsTrimmed(key + "=" + text)
    ensures var value := Trim(text);
            ParseLine(key + "=" + text, lines) ==
              if value != "" && (value[0] == QUOTE || value[0] == SINGLE) then
                var (rest, after) := Continue(value[1..], value[0],
                    lines); (Some(Assignment(key, Body(rest, value[0]))), after)
              else (Some(Assignment(key, BareValue(value))), lines)
  {
    var line := key + "=" + text;
    KeyChars(key);
    TrimmedStays(line);
    NoExport(key, text);
    EqualsIsFound(key, text);
    assert line[..|key|] == key && line[|key| + 1..] == text;
    assert key[0] in key && key[|key| - 1] in key;
    TrimmedStays(key);
  }

  lemma {:induction false} SingleIsFound(value: string, after: string)
    requires SINGLE !in value
    ensures ClosingQuote(value + [SINGLE] + after, SINGLE) == |value|
  {
    if value == "" {
      assert value + [SINGLE] + after == [SINGLE] + after;
    } else {
      assert (value + [SINGLE] + after)[1..] == value[1..] + [SINGLE] + after;
      SingleIsFound(value[1..], after);
    }
  }

  lemma ClosedAtOnce(rest: string, q: char, n: nat, lines: seq<string>)
    requires ClosingQuote(rest, q) == n < |rest|
    ensures Continue(rest, q, lines) == (rest, lines)
    ensures Body(rest, q) == if q == QUOTE then Unescape(rest[..n]) else rest[..n]
  {
  }

  lemma QuotedSplits(q: char, body: string, after: string, text: string)
    requires text == [q] + body + [q] + after
    ensures text[0] == q && text[1..] == body + [q] + after && (body + [q] + after)[..|body|] == body
  {
  }

  lemma TextIsTrimmed(key: string, text: string)
    requires text != "" && !IsBlank(text[0]) && IsTrimmed(key + "=" + text)
    ensures Trim(text) == text
  {
    var line := key + "=" + text;
    assert line[|line| - 1] == text[|text| - 1];
    TrimmedStays(text);
  }

  lemma QuotedReads(key: string, q: char, body: string, after: string, text: string, lines: seq<string>)
    requires IsKey(key) && (q == QUOTE || q == SINGLE) && text == [q] + body + [q] + after
    requires IsTrimmed(key + "=" + text) && ClosingQuote(body + [q] + after, q) == |body|
    ensures ParseLine(key + "=" + text, lines)
            == (Some(Assignment(key, if q == QUOTE then Unescape(body) else body)), lines)
  {
    QuotedSplits(q, body, after, text);
    TextIsTrimmed(key, text);
    LineReads(key, text, lines);
    ClosedAtOnce(body + [q] + after, q, |body|, lines);
  }

  /** Between single quotes everything stands for itself, and what comes after is a comment. */
  lemma SingleQuotesRead(key: string, value: string, after: string, text: string, lines: seq<string>)
    requires IsKey(key) && SINGLE !in value && text == [SINGLE] + value + [SINGLE] + after
        && IsTrimmed(key + "=" + text)
    ensures ParseLine(key + "=" + text, lines) == (Some(Assignment(key, value)), lines)
  {
    SingleIsFound(value, after);
    QuotedReads(key, SINGLE, value, after, text, lines);
  }

  /** So it is behind a double quote that closes. */
  lemma AfterQuoteIsComment(key: string, value: string, after: string, text: string, lines: seq<string>)
    requires IsKey(key) && text == [QUOTE] + Escape(value) + [QUOTE] + after && IsTrimmed(key + "=" + text)
    ensures ParseLine(key + "=" + text, lines) == (Some(Assignment(key, value)), lines)
  {
    EscapeUnclosed(value);
    assert Escape(value) + [QUOTE] + after == Escape(value) + ([QUOTE] + after);
    QuotedReads(key, QUOTE, Escape(value), after, text, lines);
    EscapeRoundTrip(value);
  }

  lemma {:induction false} CommentIsFound(value: string, blank: char, after: string)
    requires (forall c | c in value :: !IsBlank(c)) && IsBlank(blank)
    ensures CommentStart(value + ([blank, '#'] + after)) == |value|
  {
    if value == "" {
      assert value + ([blank, '#'] + after) == [blank, '#'] + after;
    } else {
      assert (value + ([blank, '#'] + after))[1..] == value[1..] + ([blank, '#'] + after);
      assert value[0] in value;
      CommentIsFound(value[1..], blank, after);
    }
  }

  /** A value without quotes ends at a '#' with white space before it. */
  lemma BareCommentReads(key: string, value: string, blank: char, after: string, lines: seq<string>)
    requires IsKey(key) && value != "" && value[0] != QUOTE && value[0] != SINGLE
    requires (forall c | c in value :: !IsBlank(c)) && IsBlank(blank)
    requires IsTrimmed(key + "=" + (value + ([blank, '#'] + after)))
    ensures ParseLine(key + "=" + (value + ([blank, '#'] + after)), lines) == (Some(Assignment(key, value)), lines)
  {
    var text := value + ([blank, '#'] + after);
    var line := key + "=" + text;
    assert line[|line| - 1] == text[|text| - 1] && value[0] in value && value[|value| - 1] in value;
    TrimmedStays(text);
    LineReads(key, text, lines);
    CommentIsFound(value, blank, after);
    assert text[..|value|] == value;
    TrimmedStays(value);
  }

  /** A '#' that nothing but the value precedes belongs to it. */
  lemma HashStays(key: string, value: string, lines: seq<string>)
    requires IsKey(key) && value != "" && value[0] != QUOTE && value[0] != SINGLE && forall c | c in value ::
        !IsBlank(c)
    ensures ParseLine(key + "=" + value, lines) == (Some(Assignment(key, value)), lines)
  {
    var line := key + "=" + value;
    KeyChars(key);
    assert key[0] in key && value[0] in value && value[|value| - 1] in value;
    assert line[0] == key[0] && line[|line| - 1] == value[|value| - 1];
    TrimmedStays(value);
    LineReads(key, value, lines);
    CommentNeedsBlank(value);
  }
}
