/** Directive tokens as text: quoting and splitting as in section 2.2 (Quoting) of the POSIX
    Shell Command Language. Splitting follows the lexer state by state. */
module ShellWords {
  import opened Common

  datatype LexError = NoClosingQuotation | NoEscapedCharacter

  /** Where the lexer is: between words, in a word, inside quotes, or after a backslash that
      will return to a word (None) or to double quotes. */
  datatype Mode = Between | Word | Quoted(quote: char) | Escaped(back: Option<char>)

  predicate IsBlank(c: char) {
    c == ' ' || c == '\t' || c == '\r' || c == '\n'
  }

  /** A finished word, if there is one: an empty word counts only when it was quoted. */
  function Emit(token: string, quoted: bool): seq<string> {
    if token != "" || quoted then [token] else []
  }

  function Prepend(words: seq<string>, rest: Result<seq<string>, LexError>): Result<seq<string>, LexError> {
    if rest.Ok? then Ok(words + rest.value) else rest
  }

  function Lex(s: string, mode: Mode, token: string, quoted: bool): Result<seq<string>, LexError> {
    if s == "" then
      match mode
      case Between => Ok([])
      case Word => Ok(Emit(token, quoted))
      case Quoted(_) => Err(NoClosingQuotation)
      case Escaped(_) => Err(NoEscapedCharacter)
    else
      var c, rest := s[0], s[1..];
      match mode
      case Between =>
        if IsBlank(c) then Lex(rest, Between, "", false)
        else if c == '\\' then Lex(rest, Escaped(None), "", false)
        else if c == '\'' || c == '"' then Lex(rest, Quoted(c), "", false)
        else Lex(rest, Word, [c], false)
      case Word =>
        if IsBlank(c) then Prepend(Emit(token, quoted), Lex(rest, Between, "", false))
        else if c == '\'' || c == '"' then Lex(rest, Quoted(c), token, quoted)
        else if c == '\\' then Lex(rest, Escaped(None), token, quoted)
        else Lex(rest, Word, token + [c], quoted)
      case Quoted(q) =>
        if c == q then Lex(rest, Word, token, true)
        else if c == '\\' && q == '"' then Lex(rest, Escaped(Some('"')), token, true)
        else Lex(rest, Quoted(q), token + [c], true)
      case Escaped(back) =>
        var kept := if back.Some? && c != '\\' && c != back.value then token + ['\\'] else token;
        Lex(rest, if back.Some? then Quoted(back.value) else Word, kept + [c], quoted)
  }

  function StringToTokens(s: string): Result<seq<string>, LexError> {
    Lex(s, Between, "", false)
  }

  predicate IsSafe(c: char) {
    || 'a' <= c <= 'z' || 'A' <= c <= 'Z' || '0' <= c <= '9'
    || c in "_@%+=:,./-"
  }

  /** A single quote inside single quotes is written by leaving them for double quotes. */
  function QuotedBody(token: string): string {
    if token == "" then ""
    else (if token[0] == '\'' then "'\"'\"'" else [token[0]]) + QuotedBody(token[1..])
  }

  function Quote(token: string): string {
    if token == "" then "''"
    else if forall c :: c in token ==> IsSafe(c) then token
    else "'" + QuotedBody(token) + "'"
  }

  /** A token stands as it is exactly when it is not empty and all its characters are letters, digits
      or one of a few others. */
  lemma QuoteBare(token: string)
    ensures Quote(token) == token <==>
      token != "" && forall c :: c in token ==>
        'a' <= c <= 'z' || 'A' <= c <= 'Z' || '0' <= c <= '9' || c in {'_', '@', '%', '+', '=', ':', ',', '.', '/', '-'}
  {
    assert |QuotedBody(token)| >= |token| by {
      BodyLonger(token);
    }
    assert "_@%+=:,./-" == ['_', '@', '%', '+', '=', ':', ',', '.', '/', '-'];
  }

  lemma {:induction false} BodyLonger(token: string)
    ensures |QuotedBody(token)| >= |token|
  {
    if token != "" {
      BodyLonger(token[1..]);
    }
  }

  function TokensToString(tokens: seq<string>): string {
    if tokens == [] then ""
    else if |tokens| == 1 then Quote(tokens[0])
    else Quote(tokens[0]) + " " + TokensToString(tokens[1..])
  }

  // ---------------------------------------------------------------- splitting undoes quoting

  lemma {:induction false} LexSafe(t: string, rest: string, token: string)
    requires forall c :: c in t ==> IsSafe(c)
    ensures Lex(t + rest, Word, token, false) == Lex(rest, Word, token + t, false)
  {
    if t == "" {
      assert t + rest == rest && token + t == token;
    } else {
      assert IsSafe(t[0]);
      assert (t + rest)[0] == t[0] && (t + rest)[1..] == t[1..] + rest;
      LexSafe(t[1..], rest, token + [t[0]]);
      assert token + [t[0]] + t[1..] == token + t;
    }
  }

  /** Leaving single quotes for a double-quoted single quote and coming back adds just that. */
  lemma LexQuoteMark(rest: string, token: string, quoted: bool)
    ensures Lex("'\"'\"'" + rest, Quoted('\''), token, quoted) == Lex(rest, Quoted('\''), token + "'", true)
  {
    var s := "'\"'\"'" + rest;
    assert s[1..] == "\"'\"'" + rest;
    assert s[1..][1..] == "'\"'" + rest;
    assert s[1..][1..][1..] == "\"'" + rest;
    assert s[1..][1..][1..][1..] == "'" + rest;
    assert s[1..][1..][1..][1..][1..] == rest;
    calc {
      Lex(s, Quoted('\''), token, quoted);
      Lex(s[1..], Word, token, true);
      Lex(s[1..][1..], Quoted('"'), token, true);
      Lex(s[1..][1..][1..], Quoted('"'), token + ['\''], true);
      Lex(s[1..][1..][1..][1..], Word, token + "'", true);
      Lex(rest, Quoted('\''), token + "'", true);
    }
  }

  lemma {:induction false} LexQuoted(t: string, rest: string, token: string, quoted: bool)
    ensures Lex(QuotedBody(t) + "'" + rest, Quoted('\''), token, quoted) == Lex(rest, Word, token + t, true)
  {
    var s := QuotedBody(t) + "'" + rest;
    if t == "" {
      assert s[0] == '\'' && s[1..] == rest && token + t == token;
    } else {
      var more := QuotedBody(t[1..]) + "'" + rest;
      LexQuoted(t[1..], rest, token + [t[0]], true);
      assert token + [t[0]] + t[1..] == token + t;
      if t[0] == '\'' {
        assert s == "'\"'\"'" + more;
        LexQuoteMark(more, token, quoted);
        assert token + "'" == token + [t[0]];
      } else {
        assert s[0] == t[0] && s[1..] == more;
      }
    }
  }

  /** A quoted token is read back as that token. */
  lemma LexQuote(t: string, rest: string) returns (quoted: bool)
    ensures t != "" || quoted
    ensures Lex(Quote(t) + rest, Between, "", false) == Lex(rest, Word, t, quoted)
  {
    hide Lex;
    if t != "" && forall c :: c in t ==> IsSafe(c) {
      quoted := false;
      LexSafeToken(t, rest);
    } else {
      quoted := true;
      assert Quote(t) + rest == "'" + (QuotedBody(t) + "'" + rest);
      LexOpen(QuotedBody(t) + "'" + rest);
      LexQuoted(t, rest, "", false);
      assert "" + t == t;
    }
  }

  lemma LexFirst(c: char, rest: string)
    requires IsSafe(c)
    ensures Lex([c] + rest, Between, "", false) == Lex(rest, Word, [c], false)
  {
    assert ([c] + rest)[1..] == rest;
  }

  lemma LexSafeToken(t: string, rest: string)
    requires t != "" && forall c :: c in t ==> IsSafe(c)
    ensures Lex(t + rest, Between, "", false) == Lex(rest, Word, t, false)
  {
    assert IsSafe(t[0]);
    LexFirst(t[0], t[1..] + rest);
    hide Lex;
    assert t + rest == [t[0]] + (t[1..] + rest);
    LexSafe(t[1..], rest, [t[0]]);
    assert [t[0]] + t[1..] == t;
  }

  lemma LexOpen(rest: string)
    ensures Lex("'" + rest, Between, "", false) == Lex(rest, Quoted('\''), "", false)
  {
    assert ("'" + rest)[1..] == rest;
  }

  /** Every list of tokens comes back from its text. */
  lemma {:induction false} TokensRoundTrip(tokens: seq<string>)
    ensures StringToTokens(TokensToString(tokens)) == Ok(tokens)
  {
    if |tokens| == 1 {
      var quoted := LexQuote(tokens[0], "");
      assert Quote(tokens[0]) + "" == Quote(tokens[0]);
      assert [tokens[0]] == tokens;
    } else if |tokens| > 1 {
      var rest := " " + TokensToString(tokens[1..]);
      var quoted := LexQuote(tokens[0], rest);
      assert Quote(tokens[0]) + " " + TokensToString(tokens[1..]) == Quote(tokens[0]) + rest;
      assert rest[1..] == TokensToString(tokens[1..]);
      TokensRoundTrip(tokens[1..]);
      assert [tokens[0]] + tokens[1..] == tokens;
    }
  }

  /** Quoting neither adds nor hides a line break. */
  lemma {:induction false} QuotedBodyNewline(t: string)
    ensures '\n' in QuotedBody(t) <==> '\n' in t
  {
    if t != "" {
      QuotedBodyNewline(t[1..]);
      assert t == [t[0]] + t[1..];
    }
  }

  lemma {:induction false} TokensNewline(tokens: seq<string>)
    ensures '\n' in TokensToString(tokens) <==> exists t :: t in tokens && '\n' in t
  {
    if tokens != [] {
      QuotedBodyNewline(tokens[0]);
      assert tokens == [tokens[0]] + tokens[1..];
      if |tokens| > 1 {
        TokensNewline(tokens[1..]);
      }
    }
  }

  /** The text of tokens ends in a character that is neither blank nor a line break. */
  lemma {:induction false} TokensEnd(tokens: seq<string>)
    requires tokens != []
    ensures TokensToString(tokens) != ""
    ensures var s := TokensToString(tokens); (IsSafe(s[0]) || s[0] == '\'') && (IsSafe(s[|s| - 1]) || s[|s| - 1] == '\'')
  {
    var q := Quote(tokens[0]);
    assert q != "" && (IsSafe(q[0]) || q[0] == '\'') && (IsSafe(q[|q| - 1]) || q[|q| - 1] == '\'');
    if |tokens| > 1 {
      TokensEnd(tokens[1..]);
    }
  }
}
