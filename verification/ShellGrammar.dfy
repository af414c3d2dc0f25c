/** What a line of shell words is, said by its parts: blanks, plain and escaped characters, and text
    in single or double quotes, as in section 2.2 (Quoting) of the POSIX Shell Command Language. The
    lexer splits exactly the lines that have parts, and as the parts say. */
module ShellGrammar {
  import opened Common
  import opened ShellWords

  /** Inside double quotes a backslash keeps its meaning before a backslash or a double quote only. */
  datatype Inner = Chr(c: char) | Backslashed(c: char)

  datatype Atom =
    | Space(c: char)
    | Plain(c: char)
    | Escape(c: char)
    | Single(text: string)
    | Double(inners: seq<Inner>)

  predicate InnerOk(inner: Inner) {
    inner.Chr? ==> inner.c != '"' && inner.c != '\\'
  }

  predicate AtomOk(a: Atom) {
    match a
    case Space(c) => IsBlank(c)
    case Plain(c) => !IsBlank(c) && c != '\'' && c != '"' && c != '\\'
    case Escape(_) => true
    case Single(text) => '\'' !in text
    case Double(inners) => forall i :: i in inners ==> InnerOk(i)
  }

  function InnerText(inners: seq<Inner>): string {
    if inners == [] then ""
    else (if inners[0].Chr? then [inners[0].c] else ['\\', inners[0].c]) + InnerText(inners[1..])
  }

  /** What double-quoted text stands for. */
  function InnerValue(inners: seq<Inner>): string {
    if inners == [] then ""
    else
      (match inners[0]
       case Chr(c) => [c]
       case Backslashed(c) => if c == '\\' || c == '"' then [c] else ['\\', c]) + InnerValue(inners[1..])
  }

  function AtomText(a: Atom): string {
    match a
    case Space(c) => [c]
    case Plain(c) => [c]
    case Escape(c) => ['\\', c]
    case Single(text) => "'" + text + "'"
    case Double(inners) => "\"" + InnerText(inners) + "\""
  }

  function AtomValue(a: Atom): string
    requires !a.Space?
  {
    match a
    case Plain(c) => [c]
    case Escape(c) => [c]
    case Single(text) => text
    case Double(inners) => InnerValue(inners)
  }

  function LineText(atoms: seq<Atom>): string {
    if atoms == [] then "" else AtomText(atoms[0]) + LineText(atoms[1..])
  }

  /** The words of a line: the values of neighbouring parts together, up to a blank. `word` is the word
      so far, if one has begun. */
  function LineWords(atoms: seq<Atom>, word: Option<string>): seq<string> {
    if atoms == [] then Begun(word)
    else if atoms[0].Space? then Begun(word) + LineWords(atoms[1..], None)
    else LineWords(atoms[1..], Some(TextOf(word) + AtomValue(atoms[0])))
  }

  function Begun(word: Option<string>): seq<string> {
    if word.Some? then [word.value] else []
  }

  function TextOf(word: Option<string>): string {
    if word.Some? then word.value else ""
  }

  ghost predicate LineOk(atoms: seq<Atom>) {
    forall a :: a in atoms ==> AtomOk(a)
  }

  // ---------------------------------------------------------------- lines with parts are split as they say

  lemma {:induction false} LexSingle(text: string, rest: string, token: string, quoted: bool)
    requires '\'' !in text
    ensures Lex(text + "'" + rest, Quoted('\''), token, quoted) == Lex(rest, Word, token + text, true)
  {
    var s := text + "'" + rest;
    if text == "" {
      assert s[0] == '\'' && s[1..] == rest && token + text == token;
    } else {
      assert s[0] == text[0] && s[1..] == text[1..] + "'" + rest;
      LexSingle(text[1..], rest, token + [text[0]], true);
      assert token + [text[0]] + text[1..] == token + text;
    }
  }

  lemma LexBackslashed(c: char, rest: string, token: string, quoted: bool)
    ensures Lex(['\\', c] + rest, Quoted('"'), token, quoted)
         == Lex(rest, Quoted('"'), token + if c == '\\' || c == '"' then [c] else ['\\', c], true)
  {
    var s := ['\\', c] + rest;
    assert s[1..][1..] == rest;
    assert Lex(s, Quoted('"'), token, quoted) == Lex(s[1..], Escaped(Some('"')), token, true);
    assert token + ['\\'] + [c] == token + ['\\', c];
  }

  lemma LexInner(inner: Inner, rest: string, token: string, quoted: bool)
    requires InnerOk(inner)
    ensures Lex(InnerText([inner]) + rest, Quoted('"'), token, quoted)
         == Lex(rest, Quoted('"'), token + InnerValue([inner]), true)
  {
    assert [inner][1..] == [];
    if inner.Chr? {
      assert InnerText([inner]) == [inner.c] == InnerValue([inner]);
      var s := [inner.c] + rest;
      assert s[0] == inner.c && s[1..] == rest;
    } else {
      assert InnerText([inner]) == ['\\', inner.c];
      assert InnerValue([inner]) == if inner.c == '\\' || inner.c == '"' then [inner.c] else ['\\', inner.c];
      hide Lex;
      LexBackslashed(inner.c, rest, token, quoted);
    }
  }

  lemma {:induction false} LexDouble(inners: seq<Inner>, rest: string, token: string, quoted: bool)
    requires forall i :: i in inners ==> InnerOk(i)
    ensures Lex(InnerText(inners) + "\"" + rest, Quoted('"'), token, quoted) == Lex(rest, Word, token + InnerValue(inners), true)
  {
    if inners == [] {
      var s := InnerText(inners) + "\"" + rest;
      assert s[0] == '"' && s[1..] == rest && token + "" == token;
    } else {
      var more := InnerText(inners[1..]) + "\"" + rest;
      assert inners == [inners[0]] + inners[1..] && [inners[0]][1..] == [];
      assert InnerText(inners) + "\"" + rest == InnerText([inners[0]]) + more;
      LexInner(inners[0], more, token, quoted);
      LexDouble(inners[1..], rest, token + InnerValue([inners[0]]), true);
      assert token + InnerValue([inners[0]]) + InnerValue(inners[1..]) == token + InnerValue(inners);
    }
  }

  /** The lexer's mode and token for a word so far. */
  function ModeOf(word: Option<string>): Mode {
    if word.Some? then Word else Between
  }

  lemma LexPlain(c: char, rest: string, word: Option<string>, quoted: bool)
    requires AtomOk(Plain(c)) && (word.None? ==> !quoted)
    ensures Lex([c] + rest, ModeOf(word), TextOf(word), quoted) == Lex(rest, Word, TextOf(word) + [c], quoted)
  {
    var s := [c] + rest;
    assert s[0] == c && s[1..] == rest;
    assert TextOf(None) + [c] == [c];
  }

  lemma LexEscape(c: char, rest: string, word: Option<string>, quoted: bool)
    requires word.None? ==> !quoted
    ensures Lex(['\\', c] + rest, ModeOf(word), TextOf(word), quoted) == Lex(rest, Word, TextOf(word) + [c], quoted)
  {
    var s := ['\\', c] + rest;
    assert s[1..][0] == c && s[1..][1..] == rest;
    assert Lex(s, ModeOf(word), TextOf(word), quoted) == Lex(s[1..], Escaped(None), TextOf(word), quoted);
  }

  lemma LexOpening(q: char, rest: string, word: Option<string>, quoted: bool)
    requires q == '\'' || q == '"'
    ensures Lex([q] + rest, ModeOf(word), TextOf(word), if word.None? then false else quoted)
         == Lex(rest, Quoted(q), TextOf(word), if word.None? then false else quoted)
  {
    var s := [q] + rest;
    assert s[0] == q && s[1..] == rest;
  }

  /** One part of a word. */
  lemma LexAtom(a: Atom, rest: string, word: Option<string>, quoted: bool) returns (now: bool)
    requires AtomOk(a) && !a.Space? && (word.None? ==> !quoted)
    ensures Lex(AtomText(a) + rest, ModeOf(word), TextOf(word), quoted) == Lex(rest, Word, TextOf(word) + AtomValue(a), now)
    ensures TextOf(word) + AtomValue(a) != "" || now
  {
    hide Lex, ModeOf, TextOf, InnerOk, InnerText, InnerValue;
    match a
    case Plain(c) =>
      now := quoted;
      LexPlain(c, rest, word, quoted);
    case Escape(c) =>
      now := quoted;
      LexEscape(c, rest, word, quoted);
    case Single(text) =>
      now := true;
      assert "'" + text + "'" + rest == ['\''] + (text + "'" + rest);
      LexOpening('\'', text + "'" + rest, word, quoted);
      LexSingle(text, rest, TextOf(word), quoted);
    case Double(inners) =>
      now := true;
      assert "\"" + InnerText(inners) + "\"" + rest == ['"'] + (InnerText(inners) + "\"" + rest);
      LexOpening('"', InnerText(inners) + "\"" + rest, word, quoted);
      LexDouble(inners, rest, TextOf(word), quoted);
  }

  lemma LexSpace(c: char, rest: string, word: Option<string>, quoted: bool)
    requires IsBlank(c) && (word.None? ==> !quoted) && (word.Some? ==> word.value != "" || quoted)
    ensures Lex([c] + rest, ModeOf(word), TextOf(word), quoted)
         == Prepend(Begun(word), Lex(rest, Between, "", false))
  {
    var s := [c] + rest;
    assert s[0] == c && s[1..] == rest;
    var tail := Lex(rest, Between, "", false);
    assert tail.Ok? ==> [] + tail.value == tail.value;
  }

  lemma {:induction false} LexLine(atoms: seq<Atom>, word: Option<string>, quoted: bool)
    requires LineOk(atoms) && (word.None? ==> !quoted) && (word.Some? ==> word.value != "" || quoted)
    ensures Lex(LineText(atoms), ModeOf(word), TextOf(word), quoted) == Ok(LineWords(atoms, word))
  {
    if atoms != [] {
      hide Lex, AtomOk;
      var a, rest := atoms[0], LineText(atoms[1..]);
      assert a in atoms && forall b :: b in atoms[1..] ==> b in atoms;
      if a.Space? {
        SpaceBlank(a);
        LexSpace(a.c, rest, word, quoted);
        LexLine(atoms[1..], None, false);
      } else {
        var now := LexAtom(a, rest, word, quoted);
        LexLine(atoms[1..], Some(TextOf(word) + AtomValue(a)), now);
      }
    }
  }

  lemma SpaceBlank(a: Atom)
    requires AtomOk(a) && a.Space?
    ensures IsBlank(a.c)
  {
  }

  // ---------------------------------------------------------------- what can be split has parts

  lemma {:induction false} SingleEnds(s: string, token: string, quoted: bool) returns (text: string, rest: string)
    requires Lex(s, Quoted('\''), token, quoted).Ok?
    ensures s == text + "'" + rest && '\'' !in text && |rest| < |s|
  {
    assert s != "";
    if s[0] == '\'' {
      text, rest := "", s[1..];
      assert s == "'" + s[1..];
    } else {
      text, rest := SingleEnds(s[1..], token + [s[0]], true);
      text := [s[0]] + text;
      assert s == [s[0]] + s[1..];
    }
  }

  lemma {:induction false} DoubleEnds(s: string, token: string, quoted: bool) returns (inners: seq<Inner>, rest: string)
    requires Lex(s, Quoted('"'), token, quoted).Ok?
    ensures s == InnerText(inners) + "\"" + rest && |rest| < |s|
    ensures forall i :: i in inners ==> InnerOk(i)
    decreases |s|
  {
    assert s != "";
    if s[0] == '"' {
      inners, rest := [], s[1..];
      assert s == "\"" + s[1..];
    } else if s[0] == '\\' {
      var t := s[1..];
      assert t != "";
      var kept := if t[0] != '\\' && t[0] != '"' then token + ['\\'] else token;
      assert Lex(t, Escaped(Some('"')), token, true) == Lex(t[1..], Quoted('"'), kept + [t[0]], true);
      inners, rest := DoubleEnds(t[1..], kept + [t[0]], true);
      InnerCons(Backslashed(t[0]), inners);
      inners := [Backslashed(t[0])] + inners;
      assert s == ['\\', t[0]] + t[1..];
    } else {
      inners, rest := DoubleEnds(s[1..], token + [s[0]], true);
      InnerCons(Chr(s[0]), inners);
      inners := [Chr(s[0])] + inners;
      assert s == [s[0]] + s[1..];
    }
  }

  lemma InnerCons(inner: Inner, inners: seq<Inner>)
    ensures InnerText([inner] + inners) == (if inner.Chr? then [inner.c] else ['\\', inner.c]) + InnerText(inners)
  {
    assert ([inner] + inners)[1..] == inners;
  }

  /** The first part of a line that can be split, and the rest, which can be split as well. */
  lemma FirstAtom(s: string, word: Option<string>, quoted: bool) returns (a: Atom, rest: string)
    requires s != "" && Lex(s, ModeOf(word), TextOf(word), quoted).Ok? && (word.None? ==> !quoted)
    ensures AtomOk(a) && s == AtomText(a) + rest && |rest| < |s|
  {
    var c := s[0];
    assert s == [c] + s[1..];
    rest := s[1..];
    if IsBlank(c) {
      a := Space(c);
    } else if c == '\'' {
      var text;
      text, rest := SingleEnds(s[1..], TextOf(word), quoted);
      a := Single(text);
    } else if c == '"' {
      var inners;
      inners, rest := DoubleEnds(s[1..], TextOf(word), quoted);
      a := Double(inners);
    } else if c == '\\' {
      assert s[1..] != "";
      a, rest := Escape(s[1]), s[2..];
      assert s == ['\\', s[1]] + s[2..];
    } else {
      a := Plain(c);
    }
  }

  lemma {:induction false} PartsOf(s: string, word: Option<string>, quoted: bool) returns (atoms: seq<Atom>)
    requires Lex(s, ModeOf(word), TextOf(word), quoted).Ok?
    requires (word.None? ==> !quoted) && (word.Some? ==> word.value != "" || quoted)
    ensures LineOk(atoms) && LineText(atoms) == s
    decreases |s|
  {
    if s == "" {
      atoms := [];
    } else {
      var a, rest := FirstAtom(s, word, quoted);
      hide Lex, AtomOk;
      var more: seq<Atom>;
      if a.Space? {
        SpaceBlank(a);
        LexSpace(a.c, rest, word, quoted);
        more := PartsOf(rest, None, false);
      } else {
        var now := LexAtom(a, rest, word, quoted);
        more := PartsOf(rest, Some(TextOf(word) + AtomValue(a)), now);
      }
      atoms := [a] + more;
      assert atoms[1..] == more;
    }
  }

  /** `atoms` are the parts of the line `s`, and `tokens` its words. */
  ghost predicate SplitsInto(atoms: seq<Atom>, s: string, tokens: seq<string>) {
    LineOk(atoms) && LineText(atoms) == s && LineWords(atoms, None) == tokens
  }

  /** A line is split into words exactly when it has parts, and then into the words of its parts. */
  lemma SplitExactly(s: string, tokens: seq<string>)
    ensures StringToTokens(s) == Ok(tokens) <==> exists atoms :: SplitsInto(atoms, s, tokens)
  {
    hide Lex;
    if StringToTokens(s) == Ok(tokens) {
      var atoms := PartsOf(s, None, false);
      LexLine(atoms, None, false);
      assert SplitsInto(atoms, s, tokens);
    }
    if atoms :| SplitsInto(atoms, s, tokens) {
      LexLine(atoms, None, false);
    }
  }
}
