/** White space as the program's string functions and patterns see it, and what trimming leaves. */
module WhiteSpace {

  predicate IsSpace(c: char) {
    || '\t' <= c <= '\r' || '\U{1c}' <= c <= ' ' || c == '\U{85}' || c == '\U{a0}' || c == '\U{1680}'
    || '\U{2000}' <= c <= '\U{200a}' || c == '\U{2028}' || c == '\U{2029}' || c == '\U{202f}' || c == '\U{205f}'
    || c == '\U{3000}'
  }

  /** The white space characters, one by one. */
  lemma SpacesAre(c: char)
    ensures IsSpace(c) <==> c as int in {
      9, 10, 11, 12, 13, 28, 29, 30, 31, 32, 133, 160, 5760, 8192, 8193, 8194, 8195, 8196, 8197, 8198, 8199, 8200, 8201,
      8202, 8232, 8233, 8239, 8287, 12288}
  {
  }

  predicate Blank(s: string) {
    forall c :: c in s ==> IsSpace(c)
  }

  function LTrim(s: string): string {
    if s == "" || !IsSpace(s[0]) then s else LTrim(s[1..])
  }

  function RTrim(s: string): string {
    if s == "" || !IsSpace(s[|s| - 1]) then s else RTrim(s[..|s| - 1])
  }

  /** Neither end is white space. */
  predicate Solid(s: string) {
    s != "" && !IsSpace(s[0]) && !IsSpace(s[|s| - 1])
  }

  lemma {:induction false} LTrimBlank(a: string, s: string)
    requires Blank(a) && (s == "" || !IsSpace(s[0]))
    ensures LTrim(a + s) == s
  {
    if a == "" {
      assert a + s == s;
    } else {
      assert (a + s)[0] == a[0] && (a + s)[1..] == a[1..] + s;
      LTrimBlank(a[1..], s);
    }
  }

  lemma {:induction false} RTrimBlank(s: string, c: string)
    requires Blank(c) && (s == "" || !IsSpace(s[|s| - 1]))
    ensures RTrim(s + c) == s
  {
    if c == "" {
      assert s + c == s;
    } else {
      var n := |c| - 1;
      assert (s + c)[|s + c| - 1] == c[n] && (s + c)[..|s + c| - 1] == s + c[..n];
      RTrimBlank(s, c[..n]);
    }
  }

  lemma {:induction false} LTrimSplits(s: string) returns (a: string)
    ensures Blank(a) && s == a + LTrim(s) && (LTrim(s) == "" || !IsSpace(LTrim(s)[0]))
  {
    if s == "" || !IsSpace(s[0]) {
      a := "";
    } else {
      var rest := LTrimSplits(s[1..]);
      a := [s[0]] + rest;
    }
  }

  lemma {:induction false} RTrimSplits(s: string) returns (c: string)
    ensures Blank(c) && s == RTrim(s) + c && (RTrim(s) == "" || !IsSpace(RTrim(s)[|RTrim(s)| - 1]))
  {
    if s == "" || !IsSpace(s[|s| - 1]) {
      c := "";
    } else {
      var rest := RTrimSplits(s[..|s| - 1]);
      c := rest + [s[|s| - 1]];
    }
  }

  function Trim(s: string): string {
    RTrim(LTrim(s))
  }

  lemma TrimSolid(a: string, s: string, c: string)
    requires Blank(a) && Blank(c) && Solid(s)
    ensures Trim(a + s + c) == s
  {
    assert a + s + c == a + (s + c);
    LTrimBlank(a, s + c);
    RTrimBlank(s, c);
  }

  lemma TrimSplits(s: string) returns (a: string, c: string)
    ensures Blank(a) && Blank(c) && s == a + Trim(s) + c
  {
    a := LTrimSplits(s);
    c := RTrimSplits(LTrim(s));
  }
}
