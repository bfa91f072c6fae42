/** The parser's loop over the lines, with the inner loop that a quoted value runs. */
module DotenvCode {
  import opened Strings
  import opened Wrappers
  import opened Dotenv

  method ReadQuoted(first: string, q: char, lines: seq<string>, start: nat) returns (rest: string, i: nat)
    requires start <= |lines|
    ensures start <= i <= |lines| && (rest, lines[i..]) == Continue(first, q, lines[start..])
  {
    rest, i := first, start;
    var end := ClosingQuote(rest, q);
    while end == |rest| && i < |lines|
      invariant start <= i <= |lines| && end == ClosingQuote(rest, q)
      invariant Continue(rest, q, lines[i..]) == Continue(first, q, lines[start..])
    {
      assert lines[i..][1..] == lines[i + 1..];
      rest := rest + [NEWLINE] + lines[i];
      i := i + 1;
      end := ClosingQuote(rest, q);
    }
  }

  /** One round of the loop: what the line at i assigns, and where to go on. */
  method ReadLine(lines: seq<string>, i: nat) returns (a: Option<Assignment>, next: nat)
    requires i < |lines|
    ensures i < next <= |lines| && (a, lines[next..]) == ParseLine(lines[i], lines[i + 1..])
  {
    a, next := None, i + 1;
    var line := Trim(lines[i]);
    if line == "" || line[0] == '#' { return; }
    line := WithoutExport(line);
    var eq := IndexOfChar(line, '=');
    if eq == 0 || eq == |line| { return; }
    var key := Trim(line[..eq]);
    if !IsKey(key) { return; }
    var value := Trim(line[eq + 1..]);
    if value != "" && (value[0] == QUOTE || value[0] == SINGLE) {
      var rest;
      rest, next := ReadQuoted(value[1..], value[0], lines, i + 1);
      value := Body(rest, value[0]);
    } else {
      value := BareValue(value);
    }
    a := Some(Assignment(key, value));
  }

  method ParseDotenv(text: string) returns (out: map<string, string>)
    ensures out == Parse(text)
  {
    out := map[];
    var lines := Split(Unreturn(text), NEWLINE);
    var i := 0;
    assert lines[0..] == lines;
    while i < |lines|
      invariant 0 <= i <= |lines|
      invariant ParseLines(lines[i..], out) == Parse(text)
      decreases |lines| - i
    {
      assert lines[i..][1..] == lines[i + 1..];
      var a;
      a, i := ReadLine(lines, i);
      if a.Some? && a.value.key != "__proto__" { out := out[a.value.key := a.value.value]; }
    }
  }
}
