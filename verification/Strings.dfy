/** String operations of the Go and JavaScript standard libraries, as far as the
    modelled code uses them. Lower-casing is ASCII and keeps the length. */
module Strings {
  function LowerChar(c: char): char {
    if 'A' <= c <= 'Z' then (c as int + 32) as char else c
  }

  function ToLower(s: string): (r: string)
    ensures |r| == |s|
    ensures forall i | 0 <= i < |s| :: r[i] == LowerChar(s[i])
  {
    seq(|s|, i requires 0 <= i < |s| => LowerChar(s[i]))
  }

  /** The characters JavaScript's trim removes: white space and line terminators. */
  predicate IsBlank(c: char) {
    var n := c as int;
    || 0x9 <= n <= 0xD || n == 0x20 || n == 0xA0 || n == 0x1680 || 0x2000 <= n <= 0x200A
    || n == 0x2028 || n == 0x2029 || n == 0x202F || n == 0x205F || n == 0x3000 || n == 0xFEFF
  }

  function TrimLeft(s: string): string {
    if s != "" && IsBlank(s[0]) then TrimLeft(s[1..]) else s
  }

  function TrimRight(s: string): string {
    if s != "" && IsBlank(s[|s| - 1]) then TrimRight(s[..|s| - 1]) else s
  }

  function Trim(s: string): string { TrimRight(TrimLeft(s)) }

  predicate IsTrimmed(s: string) { s != "" ==> !IsBlank(s[0]) && !IsBlank(s[|s| - 1]) }

  lemma TrimmedStays(s: string)
    requires IsTrimmed(s)
    ensures Trim(s) == s
  {
  }

  lemma {:induction false} TrimRightKeeps(s: string)
    ensures TrimRight(s) <= s
    ensures TrimRight(s) != "" ==> !IsBlank(TrimRight(s)[|TrimRight(s)| - 1])
  {
    if s != "" && IsBlank(s[|s| - 1]) { TrimRightKeeps(s[..|s| - 1]); }
  }

  lemma {:induction false} TrimLeftDone(s: string)
    ensures TrimLeft(s) != "" ==> !IsBlank(TrimLeft(s)[0])
  {
    if s != "" && IsBlank(s[0]) { TrimLeftDone(s[1..]); }
  }

  lemma TrimTrims(s: string)
    ensures IsTrimmed(Trim(s))
  {
    TrimLeftDone(s);
    TrimRightKeeps(TrimLeft(s));
  }

  lemma {:induction false} TrimLeftPeels(lead: string, s: string)
    requires forall c | c in lead :: IsBlank(c)
    ensures TrimLeft(lead + s) == TrimLeft(s)
  {
    if lead == "" {
      assert lead + s == s;
    } else {
      assert (lead + s)[1..] == lead[1..] + s && lead[0] in lead;
      TrimLeftPeels(lead[1..], s);
    }
  }

  lemma {:induction false} TrimRightPeels(s: string, trail: string)
    requires forall c | c in trail :: IsBlank(c)
    ensures TrimRight(s + trail) == TrimRight(s)
  {
    if trail == "" {
      assert s + trail == s;
    } else {
      var n := |trail| - 1;
      assert (s + trail)[..|s + trail| - 1] == s + trail[..n] && trail[n] in trail;
      TrimRightPeels(s, trail[..n]);
    }
  }

  /** Trimming takes away the white space on both sides, and nothing else. */
  lemma TrimPeels(lead: string, s: string, trail: string)
    requires IsTrimmed(s) && (forall c | c in lead :: IsBlank(c)) && forall c | c in trail :: IsBlank(c)
    ensures Trim(lead + s + trail) == s
  {
    assert lead + s + trail == lead + (s + trail);
    TrimLeftPeels(lead, s + trail);
    if s == "" {
      TrimLeftPeels(trail, "");
      assert trail + "" == trail && s + trail == trail;
    } else {
      assert TrimLeft(s + trail) == s + trail;
      TrimRightPeels(s, trail);
    }
  }

  predicate HasSuffix(s: string, suffix: string) {
    |suffix| <= |s| && s[|s| - |suffix|..] == suffix
  }

  predicate OccursAt(s: string, pattern: string, i: int) {
    0 <= i && i + |pattern| <= |s| && s[i..i + |pattern|] == pattern
  }

  predicate Contains(s: string, pattern: string) {
    exists i :: 0 <= i <= |s| && OccursAt(s, pattern, i)
  }

  lemma ToLowerConcat(a: string, b: string)
    ensures ToLower(a + b) == ToLower(a) + ToLower(b)
  {
  }

  // ----- replacing -----

  /** Every occurrence of the character replaced by the text. */
  function Replace(s: string, c: char, text: string): string {
    if s == "" then "" else (if s[0] == c then text else [s[0]]) + Replace(s[1..], c, text)
  }

  lemma {:induction false} ReplaceConcat(a: string, b: string, c: char, text: string)
    ensures Replace(a + b, c, text) == Replace(a, c, text) + Replace(b, c, text)
  {
    if a == "" {
      assert a + b == b;
    } else {
      assert (a + b)[1..] == a[1..] + b;
      ReplaceConcat(a[1..], b, c, text);
    }
  }

  lemma ReplaceOne(x: char, c: char, text: string)
    ensures Replace([x], c, text) == if x == c then text else [x]
  {
    assert [x][1..] == "";
  }

  // ----- splitting and joining -----

  function Split(s: string, sep: char): (parts: seq<string>)
    ensures parts != []
  {
    if s == "" then [""]
    else
      var rest := Split(s[1..], sep);
      if s[0] == sep then [""] + rest else [[s[0]] + rest[0]] + rest[1..]
  }

  lemma {:induction false} SplitParts(s: string, sep: char)
    ensures forall p | p in Split(s, sep) :: sep !in p && forall c | c in p :: c in s
  {
    if s != "" {
      SplitParts(s[1..], sep);
      var rest := Split(s[1..], sep);
      assert rest[0] in rest;
      forall p | p in Split(s, sep) ensures sep !in p && forall c | c in p :: c in s {
        assert p in rest || p == "" || p == [s[0]] + rest[0];
      }
    }
  }

  function Join(parts: seq<string>, sep: string): string {
    if parts == [] then ""
    else if |parts| == 1 then parts[0]
    else parts[0] + sep + Join(parts[1..], sep)
  }

  lemma {:induction false} SplitFirst(a: string, b: string, sep: char)
    requires sep !in a
    ensures Split(a + [sep] + b, sep) == [a] + Split(b, sep)
  {
    if a == "" {
      assert a + [sep] + b == [sep] + b;
    } else {
      assert (a + [sep] + b)[1..] == a[1..] + [sep] + b;
      SplitFirst(a[1..], b, sep);
      assert [a[0]] + a[1..] == a;
    }
  }

  lemma {:induction false} SplitNone(a: string, sep: char)
    requires sep !in a
    ensures Split(a, sep) == [a]
  {
    if a != "" {
      SplitNone(a[1..], sep);
      assert [a[0]] + a[1..] == a;
    }
  }
}
