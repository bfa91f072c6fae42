/** The .env printer and parser of the command line. */
module Dotenv {
  import opened Strings
  import opened Wrappers

  // ----- characters -----

  predicate IsLetter(c: char) { 'A' <= c <= 'Z' || 'a' <= c <= 'z' }

  predicate IsDigit(c: char) { '0' <= c <= '9' }

  /** Keys as the parser accepts them. */
  predicate IsKey(s: string) {
    s != "" && (IsLetter(s[0]) || s[0] == '_') &&
    forall i | 1 <= i < |s| :: IsLetter(s[i]) || IsDigit(s[i]) || s[i] in "_.-"
  }

  /** Values that need no quotes. */
  predicate IsBare(value: string) {
    forall c | c in value :: IsLetter(c) || IsDigit(c) || c in "_./:@%+,-"
  }

  const QUOTE: char := '"'
  const SINGLE: char := '\''
  const BACKSLASH: char := '\\'
  const NEWLINE: char := '\n'

  // ----- printing -----

  function Quote(value: string): string {
    if IsBare(value) then value
    else
      [QUOTE] + Replace(Replace(Replace(value, BACKSLASH, [BACKSLASH, BACKSLASH]), QUOTE, [BACKSLASH, QUOTE]),
                        NEWLINE, [BACKSLASH, 'n']) + [QUOTE]
  }

  datatype Var = Var(key: string, value: Option<string>, note: Option<string>)

  function VarLine(v: Var): string {
    if v.value.Some? then v.key + "=" + Quote(v.value.value)
    else "# " + v.key + "=" + if v.note.Some? && v.note.value != "" then "  (" + v.note.value + ")" else ""
  }

  function VarLines(vars: seq<Var>): seq<string> { seq(|vars|, i requires 0 <= i < |vars| => VarLine(vars[i])) }

  function Commented(lines: seq<string>): seq<string> { seq(|lines|, i requires 0 <= i < |lines| => "# " + lines[i]) }

  function HeaderLines(header: string): seq<string> {
    if header == "" then [] else Commented(Split(header, NEWLINE)) + [""]
  }

  function Serialize(vars: seq<Var>, header: string): string {
    Join(HeaderLines(header) + VarLines(vars), [NEWLINE]) + [NEWLINE]
  }

  // ----- parsing -----

  /** Carriage returns, alone or before a newline, become newlines. */
  function Unreturn(text: string): string {
    if text == "" then ""
    else if text[0] != '\r' then [text[0]] + Unreturn(text[1..])
    else if |text| > 1 && text[1] == NEWLINE then [NEWLINE] + Unreturn(text[2..])
    else [NEWLINE] + Unreturn(text[1..])
  }

  function IndexOfChar(s: string, c: char): (i: nat)
    ensures i <= |s| && (i < |s| ==> s[i] == c) && forall j | 0 <= j < i :: s[j] != c
  {
    if s == "" || s[0] == c then 0 else 1 + IndexOfChar(s[1..], c)
  }

  /** The index of the closing quote, or |s|; a backslash hides the next character in a
      double-quoted text. */
  function ClosingQuote(s: string, q: char): (i: nat)
    ensures i <= |s|
    decreases |s|
  {
    if s == "" then 0
    else if q == QUOTE && s[0] == BACKSLASH then if |s| == 1 then 1 else 2 + ClosingQuote(s[2..], q)
    else if s[0] == q then 0
    else 1 + ClosingQuote(s[1..], q)
  }

  function Unescape(s: string): string
    decreases |s|
  {
    if s == "" then ""
    else if s[0] == BACKSLASH && |s| > 1 && s[1] in [QUOTE, BACKSLASH, 'n'] then
      [if s[1] == 'n' then NEWLINE else s[1]] + Unescape(s[2..])
    else [s[0]] + Unescape(s[1..])
  }

  /** Where white space is followed by '#', or |s|: the start of a trailing comment. */
  function CommentStart(s: string): (i: nat)
    ensures i <= |s|
  {
    if |s| < 2 then |s|
    else if IsBlank(s[0]) && s[1] == '#' then 0
    else
      var i := CommentStart(s[1..]);
      1 + i
  }

  /** A quoted value that is not closed on its line goes on over the lines that follow. */
  function Continue(rest: string, q: char, lines: seq<string>): (string, seq<string>)
    decreases |lines|
  {
    if ClosingQuote(rest, q) < |rest| || lines == [] then (rest, lines)
    else Continue(rest + [NEWLINE] + lines[0], q, lines[1..])
  }

  function Body(rest: string, q: char): string {
    var body := rest[..ClosingQuote(rest, q)];
    if q == QUOTE then Unescape(body) else body
  }

  function BareValue(value: string): string {
    var i := CommentStart(value);
    if i < |value| then Trim(value[..i]) else value
  }

  datatype Assignment = Assignment(key: string, value: string)

  function WithoutExport(line: string): string {
    if "export " <= line then Trim(line[7..]) else line
  }

  /** Reads the first line, and the following ones a quoted value takes up. */
  function ParseLine(line: string, lines: seq<string>): (Option<Assignment>, seq<string>)
  {
    var trimmed := Trim(line);
    if trimmed == "" || trimmed[0] == '#' then (None, lines)
    else
      var text := WithoutExport(trimmed);
      var eq := IndexOfChar(text, '=');
      if eq == 0 || eq == |text| then (None, lines)
      else
        var key := Trim(text[..eq]);
        if !IsKey(key) then (None, lines)
        else
          var value := Trim(text[eq + 1..]);
          if value != "" && (value[0] == QUOTE || value[0] == SINGLE) then
            var (rest, after) := Continue(value[1..], value[0], lines);
            (Some(Assignment(key, Body(rest, value[0]))), after)
          else (Some(Assignment(key, BareValue(value))), lines)
  }

  lemma {:induction false} ContinueShrinks(rest: string, q: char, lines: seq<string>)
    ensures |Continue(rest, q, lines).1| <= |lines|
    decreases |lines|
  {
    if ClosingQuote(rest, q) >= |rest| && lines != [] { ContinueShrinks(rest + [NEWLINE] + lines[0], q, lines[1..]); }
  }

  lemma ParseLineShrinks(line: string, lines: seq<string>)
    ensures |ParseLine(line, lines).1| <= |lines|
  {
    var text := WithoutExport(Trim(line));
    var eq := IndexOfChar(text, '=');
    if eq < |text| {
      var value := Trim(text[eq + 1..]);
      if value != "" { ContinueShrinks(value[1..], value[0], lines); }
    }
  }

  /** Assigning a field of a plain object: a text assigned to "__proto__" is ignored. */
  function Assign(out: map<string, string>, a: Option<Assignment>): map<string, string> {
    if a.None? || a.value.key == "__proto__" then out else out[a.value.key := a.value.value]
  }

  function ParseLines(lines: seq<string>, out: map<string, string>): map<string, string>
    decreases |lines|
  {
    if lines == [] then out
    else
      var (a, rest) := ParseLine(lines[0], lines[1..]);
      ParseLineShrinks(lines[0], lines[1..]);
      ParseLines(rest, Assign(out, a))
  }

  function Parse(text: string): map<string, string> {
    ParseLines(Split(Unreturn(text), NEWLINE), map[])
  }
}
