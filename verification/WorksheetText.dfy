/** The text form of a worksheet: a printer of items as lines and a parser of lines as items.
    The parser's patterns are scanners over characters; what they accept is stated as the
    language of the pattern. */
module WorksheetText {
  import opened Common
  import opened ShellWords
  import opened WhiteSpace

  datatype Item =
    | Markup(text: string)
    | Directive(tokens: seq<string>)
    | BundleRef(uuid: string, description: string)
    | SheetRef(uuid: string, description: string)

  datatype Error = Unresolved(message: string) | Lexical(error: LexError)

  /** Names resolved by the database. */
  datatype Resolver = Resolver(bundle: string -> Result<string, string>, sheet: string -> Result<string, string>)

  // ---------------------------------------------------------------- bundle and subworksheet lines

  const OPEN: map<bool, string> := map[false := "{", true := "{{"]
  const CLOSE: map<bool, string> := map[false := "}", true := "}}"]

  /** What may stand between the braces: no further opening brace for a bundle, any one line for
      a subworksheet. */
  predicate SpecOk(sheet: bool, spec: string) {
    if sheet then '\n' !in spec else '{' !in spec
  }

  /** The braces at the end of a line, with white space around them. */
  function Tail(sheet: bool, s: string): Option<string> {
    var t := Trim(s);
    var k := if sheet then 2 else 1;
    if |t| >= 2 * k && t[..k] == OPEN[sheet] && t[|t| - k..] == CLOSE[sheet] && SpecOk(sheet, t[k..|t| - k]) then
      Some(t[k..|t| - k])
    else None
  }

  /** The rightmost closing bracket before `j` after which the line ends in braces. */
  function FromBracket(sheet: bool, t: string, j: nat): Option<string>
    requires j <= |t|
  {
    if j <= 1 then None
    else if t[j - 1] == ']' && '\n' !in t[1..j - 1] && Tail(sheet, t[j..]).Some? then Tail(sheet, t[j..])
    else FromBracket(sheet, t, j - 1)
  }

  /** The spec on a bundle or subworksheet line. */
  function Match(sheet: bool, line: string): Option<string> {
    var t := LTrim(line);
    if t != "" && t[0] == '[' then FromBracket(sheet, t, |t|) else Tail(sheet, t)
  }

  function Braced(sheet: bool, spec: string): string {
    OPEN[sheet] + spec + CLOSE[sheet]
  }

  /** The lines of the pattern: white space, perhaps a bracketed description, white space, the
      braces, white space. */
  ghost predicate InLanguage(sheet: bool, line: string, spec: string) {
    exists a, g, s :: Blank(a) && Description(g) && TailLanguage(sheet, s, spec) && line == a + g + s
  }

  predicate Description(g: string) {
    g == "" || (|g| >= 2 && g[0] == '[' && g[|g| - 1] == ']' && '\n' !in g[1..|g| - 1])
  }

  ghost predicate TailLanguage(sheet: bool, s: string, spec: string) {
    SpecOk(sheet, spec) && exists b, c :: Blank(b) && Blank(c) && s == b + Braced(sheet, spec) + c
  }

  lemma BracedSolid(sheet: bool, spec: string)
    ensures Solid(Braced(sheet, spec)) && |Braced(sheet, spec)| >= 2 && Braced(sheet, spec)[0] == '{'
  {
  }

  lemma TailSound(sheet: bool, s: string, spec: string)
    requires Tail(sheet, s) == Some(spec)
    ensures TailLanguage(sheet, s, spec)
  {
    var b, c := TrimSplits(s);
    var t := Trim(s);
    var k := if sheet then 2 else 1;
    assert t == t[..k] + t[k..|t| - k] + t[|t| - k..];
    assert Blank(b) && Blank(c) && s == b + Braced(sheet, spec) + c;
  }

  lemma TailComplete(sheet: bool, s: string, spec: string)
    requires TailLanguage(sheet, s, spec)
    ensures Tail(sheet, s) == Some(spec)
  {
    var whole := Braced(sheet, spec);
    var b, c :| Blank(b) && Blank(c) && s == b + whole + c;
    BracedSolid(sheet, spec);
    TrimSolid(b, whole, c);
    var k := if sheet then 2 else 1;
    assert whole[k..|whole| - k] == spec && whole[..k] == OPEN[sheet] && whole[|whole| - k..] == CLOSE[sheet];
  }

  /** White space before the braces does not matter. */
  lemma TailIgnoresBlank(sheet: bool, s: string, spec: string)
    requires TailLanguage(sheet, s, spec)
    ensures TailLanguage(sheet, LTrim(s), spec) && LTrim(s) != "" && LTrim(s)[0] == '{'
  {
    var whole := Braced(sheet, spec);
    var b, c :| Blank(b) && Blank(c) && s == b + whole + c;
    BracedSolid(sheet, spec);
    assert s == b + (whole + c);
    LTrimBlank(b, whole + c);
    assert LTrim(s) == "" + whole + c;
  }

  /** A closing bracket at which the description may end and the braces follow. */
  predicate Splits(sheet: bool, t: string, k: nat)
    requires k <= |t|
  {
    k >= 2 && t[k - 1] == ']' && '\n' !in t[1..k - 1] && Tail(sheet, t[k..]).Some?
  }

  lemma {:induction false} FromBracketIsLast(sheet: bool, t: string, j: nat, k: nat)
    requires k <= j <= |t| && Splits(sheet, t, k) && forall m :: k < m <= j ==> !Splits(sheet, t, m)
    ensures FromBracket(sheet, t, j) == Tail(sheet, t[k..])
    decreases j - k
  {
    hide Tail;
    if k < j {
      assert !Splits(sheet, t, j);
      FromBracketIsLast(sheet, t, j - 1, k);
    }
  }

  lemma {:induction false} FromBracketWhere(sheet: bool, t: string, j: nat) returns (k: nat)
    requires j <= |t| && FromBracket(sheet, t, j).Some?
    ensures k <= j && Splits(sheet, t, k) && FromBracket(sheet, t, j) == Tail(sheet, t[k..])
    ensures forall m :: k < m <= j ==> !Splits(sheet, t, m)
  {
    hide Tail;
    if Splits(sheet, t, j) {
      k := j;
    } else {
      k := FromBracketWhere(sheet, t, j - 1);
    }
  }

  lemma {:induction false} FromBracketSome(sheet: bool, t: string, j: nat, k: nat)
    requires k <= j <= |t| && Splits(sheet, t, k)
    ensures FromBracket(sheet, t, j).Some?
    decreases j - k
  {
    if k < j {
      FromBracketSome(sheet, t, j - 1, k);
    }
  }

  lemma BracketSound(sheet: bool, a: string, t: string, spec: string)
    requires Blank(a) && t != "" && t[0] == '[' && FromBracket(sheet, t, |t|) == Some(spec)
    ensures InLanguage(sheet, a + t, spec)
  {
    hide Tail, TailLanguage, FromBracket, Blank;
    var k := FromBracketWhere(sheet, t, |t|);
    TailSound(sheet, t[k..], spec);
    assert t[..k][1..k - 1] == t[1..k - 1];
    assert Description(t[..k]) && a + t == a + t[..k] + t[k..];
  }

  lemma TailOnlySound(sheet: bool, a: string, t: string, spec: string)
    requires Blank(a) && Tail(sheet, t) == Some(spec)
    ensures InLanguage(sheet, a + t, spec)
  {
    hide Tail, TailLanguage, Blank;
    TailSound(sheet, t, spec);
    assert Description("") && a + t == a + "" + t;
  }

  /** What the scanner finds is in the language of the pattern. */
  lemma MatchSound(sheet: bool, line: string, spec: string)
    requires Match(sheet, line) == Some(spec)
    ensures InLanguage(sheet, line, spec)
  {
    hide Tail, FromBracket, Blank, InLanguage;
    var a := LTrimSplits(line);
    var t := LTrim(line);
    if t != "" && t[0] == '[' {
      BracketSound(sheet, a, t, spec);
    } else {
      TailOnlySound(sheet, a, t, spec);
    }
  }

  lemma BareTailMatches(sheet: bool, a: string, s: string, spec: string)
    requires Blank(a) && TailLanguage(sheet, s, spec)
    ensures Match(sheet, a + s).Some?
  {
    TailIgnoresBlank(sheet, s, spec);
    hide Tail, TailLanguage, FromBracket, Blank, LTrim;
    LTrimTwice(a, s);
    TailComplete(sheet, LTrim(s), spec);
  }

  lemma DescribedMatches(sheet: bool, a: string, g: string, s: string, spec: string)
    requires Blank(a) && Description(g) && g != "" && TailLanguage(sheet, s, spec)
    ensures Match(sheet, a + (g + s)).Some?
  {
    var t := g + s;
    assert t[0] == '[' && t[|g| - 1] == ']';
    LTrimBlank(a, t);
    assert t[|g|..] == s && t[1..|g| - 1] == g[1..|g| - 1];
    hide Tail, TailLanguage, FromBracket, Blank, LTrim;
    TailComplete(sheet, s, spec);
    FromBracketSome(sheet, t, |t|, |g|);
  }

  /** Every line in the language of the pattern is recognized. */
  lemma MatchComplete(sheet: bool, line: string, spec: string)
    requires InLanguage(sheet, line, spec)
    ensures Match(sheet, line).Some?
  {
    hide Match, TailLanguage, Blank, Description;
    var a, g, s :| Blank(a) && Description(g) && TailLanguage(sheet, s, spec) && line == a + g + s;
    if g == "" {
      BareTailMatches(sheet, a, s, spec);
      assert line == a + s;
    } else {
      DescribedMatches(sheet, a, g, s, spec);
      assert line == a + (g + s);
    }
  }

  lemma {:induction false} LTrimTwice(a: string, s: string)
    requires Blank(a)
    ensures LTrim(a + s) == LTrim(s)
  {
    if a == "" {
      assert a + s == s;
    } else {
      assert (a + s)[0] == a[0] && (a + s)[1..] == a[1..] + s;
      LTrimTwice(a[1..], s);
    }
  }

  /** A bundle line holds one spec only: what stands between its last braces. */
  lemma BundleSpecUnique(line: string, spec: string)
    requires InLanguage(false, line, spec)
    ensures Match(false, line) == Some(spec)
  {
    MatchComplete(false, line, spec);
    var found := Match(false, line).value;
    MatchSound(false, line, found);
    var x := LastBraces(line, spec);
    var y := LastBraces(line, found);
    SameBraces(x, spec, y, found);
  }

  lemma BeforeBraces(a: string, g: string, b: string)
    requires Blank(a) && Description(g) && Blank(b)
    ensures var x := a + g + b; x == "" || IsSpace(x[|x| - 1]) || x[|x| - 1] == ']'
  {
    var x := a + g + b;
    if b != "" {
      assert x[|x| - 1] == b[|b| - 1];
    } else if g != "" {
      assert x[|x| - 1] == g[|g| - 1];
    } else if a != "" {
      assert x[|x| - 1] == a[|a| - 1];
    }
  }

  lemma EndTrimmed(p: string, b: string, spec: string, c: string)
    requires Blank(c)
    ensures RTrim(p + (b + Braced(false, spec) + c)) == p + b + "{" + spec + "}"
  {
    var whole := p + b + "{" + spec + "}";
    assert whole[|whole| - 1] == '}';
    assert p + (b + Braced(false, spec) + c) == whole + c;
    hide Blank, RTrim;
    RTrimBlank(whole, c);
  }

  lemma LastBraces(line: string, spec: string) returns (x: string)
    requires InLanguage(false, line, spec)
    ensures '{' !in spec && RTrim(line) == x + "{" + spec + "}"
    ensures x == "" || IsSpace(x[|x| - 1]) || x[|x| - 1] == ']'
  {
    var a, g, s :| Blank(a) && Description(g) && TailLanguage(false, s, spec) && line == a + g + s;
    var b, c :| Blank(b) && Blank(c) && s == b + Braced(false, spec) + c;
    x := a + g + b;
    BeforeBraces(a, g, b);
    EndTrimmed(a + g, b, spec, c);
  }

  lemma SameBraces(x: string, spec: string, y: string, found: string)
    requires '{' !in spec && '{' !in found && x + "{" + spec + "}" == y + "{" + found + "}"
    ensures x == y && spec == found
  {
    var s := x + "{" + spec + "}";
    assert s[|x|] == '{' && s[|y|] == '{';
    assert forall i :: |x| < i < |s| - 1 ==> s[i] == spec[i - |x| - 1];
    assert forall i :: |y| < i < |s| - 1 ==> s[i] == found[i - |y| - 1];
    assert |x| == |y|;
    assert x == s[..|x|] && y == s[..|y|];
    assert spec == s[|x| + 1..|s| - 1];
    assert found == s[|y| + 1..|s| - 1];
  }

  // ---------------------------------------------------------------- kinds of lines

  datatype Kind = CommentLine | BundleLine | SheetLine | DirectiveLine | MarkupLine

  function FirstLine(s: string): string {
    if s == "" || s[0] == '\n' then "" else [s[0]] + FirstLine(s[1..])
  }

  /** The text after the percent sign of a directive; it may not go over a line break. */
  function DirectiveBody(line: string): Option<string> {
    var t := LTrim(line);
    if t == "" || t[0] != '%' then None
    else
      var u := LTrim(t[1..]);
      var first := FirstLine(u);
      if |first| <= |u| && Blank(u[|first|..]) then Some(first) else None
  }

  function KindOf(line: string): Kind {
    if |line| >= 2 && line[..2] == "//" then CommentLine
    else if Match(false, line).Some? then BundleLine
    else if Match(true, line).Some? then SheetLine
    else if DirectiveBody(line).Some? then DirectiveLine
    else MarkupLine
  }

  // ---------------------------------------------------------------- printing

  function JoinSpace(words: seq<string>): string {
    if words == [] then "" else if |words| == 1 then words[0] else words[0] + " " + JoinSpace(words[1..])
  }

  /** Words joined are the words with one space between neighbours. */
  lemma {:induction false} JoinSpaceSnoc(words: seq<string>, word: string)
    ensures JoinSpace([word]) == word && JoinSpace([]) == ""
    ensures words != [] ==> JoinSpace(words + [word]) == JoinSpace(words) + " " + word
  {
    if |words| == 1 {
      assert (words + [word])[1..] == [word];
    } else if |words| > 1 {
      JoinSpaceSnoc(words[1..], word);
      assert (words + [word])[1..] == words[1..] + [word];
    }
  }

  function Print(item: Item): string {
    match item
    case Markup(text) => text
    case Directive(tokens) =>
      if tokens != [] && tokens[0] == "%" then "//" + JoinSpace(tokens[1..])
      else
        var value := TokensToString(tokens);
        "%" + (if value == "" || value[0] == '%' then "" else " ") + value
    case BundleRef(uuid, description) => "[" + description + "]{" + uuid + "}"
    case SheetRef(uuid, description) => "[" + description + "]{{" + uuid + "}}"
  }

  /** A dependency as far as a line shows it; the parent's name is unknown when it is gone. */
  datatype Dep = Dep(childPath: string, parentName: Option<string>, parentPath: string)

  datatype BundleInfo = BundleInfo(bundleType: string, name: string, dependencies: seq<Dep>, command: string)

  /** An item as it is stored; nothing but the uuid may be known of a bundle, and the name of a
      worksheet may be missing. */
  datatype Entry =
    | MarkupEntry(text: string)
    | DirectiveEntry(tokens: seq<string>)
    | BundleEntry(uuid: string, info: Option<BundleInfo>)
    | SheetEntry(uuid: string, name: Option<string>)

  function TextOf(s: Option<string>): string {
    if s.Some? then s.value else ""
  }

  /** A dependency with its key, which is left out if it is the parent's name, or is the only one and
      empty. */
  function Rendered(dep: Dep, anonymous: bool): string {
    (if anonymous then "" else (if dep.parentName == Some(dep.childPath) then "" else dep.childPath) + ":") +
    TextOf(dep.parentName) + if dep.parentPath == "" then "" else "/" + dep.parentPath
  }

  predicate Anonymous(deps: seq<Dep>) {
    |deps| == 1 && deps[0].childPath == ""
  }

  function JoinComma(words: seq<string>): string {
    if words == [] then ""
    else if |words| == 1 then words[0]
    else JoinComma(words[..|words| - 1]) + "," + words[|words| - 1]
  }

  function RenderedAll(deps: seq<Dep>): (words: seq<string>)
    ensures |words| == |deps| && forall i :: 0 <= i < |deps| ==> words[i] == Rendered(deps[i], Anonymous(deps))
  {
    seq(|deps|, i requires 0 <= i < |deps| => Rendered(deps[i], Anonymous(deps)))
  }

  function OneLine(command: string): (s: string)
    ensures |s| == |command| && '\n' !in s
    ensures forall i :: 0 <= i < |s| ==> s[i] == if command[i] == '\n' then ' ' else command[i]
  {
    seq(|command|, i requires 0 <= i < |command| => if command[i] == '\n' then ' ' else command[i])
  }

  /** What a bundle line says about the bundle. */
  function Described(info: BundleInfo): string {
    var deps := JoinComma(RenderedAll(info.dependencies));
    info.bundleType + " " + info.name + (if deps == "" then "" else " -- " + deps) +
    if info.command == "" then "" else " : " + OneLine(info.command)
  }

  lemma TwoRendered(a: Dep, b: Dep)
    ensures JoinComma(RenderedAll([a, b])) == Rendered(a, false) + "," + Rendered(b, false)
  {
    var words := RenderedAll([a, b]);
    assert words[..1] == [Rendered(a, false)];
    hide Rendered;
  }

  lemma OneRendered(d: Dep)
    ensures JoinComma(RenderedAll([d])) == Rendered(d, d.childPath == "") && JoinComma(RenderedAll([])) == ""
  {
  }

  const TWO_FILES: seq<Dep> := [Dep("a", Some("a"), ""), Dep("k", Some("b"), "p")]

  lemma TwoFilesRendered()
    ensures JoinComma(RenderedAll(TWO_FILES)) == ":a,k:b/p"
  {
    var a, b := TWO_FILES[0], TWO_FILES[1];
    assert Rendered(a, false) == ":a" && Rendered(b, false) == "k:b/p";
    TwoRendered(a, b);
    assert TWO_FILES == [a, b];
    hide Rendered, JoinComma, RenderedAll;
  }

  lemma CommandOnOneLine()
    ensures OneLine("x\ny") == "x y"
  {
  }

  /** A run with two files, one under the name of its bundle, and a command of two lines. */
  lemma RunDescribed()
    ensures Described(BundleInfo("run", "r", TWO_FILES, "x\ny")) == "run r -- :a,k:b/p : x y"
  {
    hide JoinComma, RenderedAll, OneLine;
    TwoFilesRendered();
    CommandOnOneLine();
    assert "run" + " " + "r" == "run r";
    assert "run r" + (" -- " + ":a,k:b/p") == "run r -- :a,k:b/p";
    assert "run r -- :a,k:b/p" + (" : " + "x y") == "run r -- :a,k:b/p : x y";
  }

  /** A bundle made of one other that is its only dependency. */
  lemma CopyDescribed()
    ensures Described(BundleInfo("make", "copy", [Dep("", Some("a.txt"), "")], "")) == "make copy -- a.txt"
  {
    var d := Dep("", Some("a.txt"), "");
    assert Rendered(d, true) == "a.txt";
    OneRendered(d);
    hide Rendered, JoinComma, RenderedAll;
    assert "make" + " " + "copy" == "make copy" && "make copy" + (" -- " + "a.txt") + "" == "make copy -- a.txt";
  }

  /** One whose only dependency is gone, of which the path is known. */
  lemma LostDescribed()
    ensures Described(BundleInfo("make", "copy", [Dep("", None, "sub")], "")) == "make copy -- /sub"
  {
    var d := Dep("", None, "sub");
    assert Rendered(d, true) == "/sub";
    OneRendered(d);
    hide Rendered, JoinComma, RenderedAll;
    assert "make" + " " + "copy" == "make copy" && "make copy" + (" -- " + "/sub") + "" == "make copy -- /sub";
  }

  /** And one with nothing to say but its name. */
  lemma FileDescribed()
    ensures Described(BundleInfo("dataset", "a.txt", [], "")) == "dataset a.txt"
  {
    OneRendered(Dep("", None, ""));
    hide Rendered, JoinComma, RenderedAll;
    assert "dataset" + " " + "a.txt" + "" + "" == "dataset a.txt";
  }

  function ItemFor(e: Entry): Item {
    match e
    case MarkupEntry(text) => Markup(text)
    case DirectiveEntry(tokens) => Directive(tokens)
    case BundleEntry(uuid, info) => BundleRef(uuid, if info.None? then "" else Described(info.value))
    case SheetEntry(uuid, name) => SheetRef(uuid, "worksheet " + TextOf(name))
  }

  lemma JoinCommaSnoc(words: seq<string>, word: string)
    ensures JoinComma(words + [word]) == if words == [] then word else JoinComma(words) + "," + word
  {
    assert (words + [word])[..|words|] == words;
  }

  lemma SameRendering(dep: Dep, anonymous: bool, key: string, path: string)
    requires key == if anonymous then "" else if dep.parentName != Some(dep.childPath) then dep.childPath + ":" else ":"
    requires path == if dep.parentPath != "" then "/" + dep.parentPath else ""
    ensures key + TextOf(dep.parentName) + path == Rendered(dep, anonymous)
  {
    hide TextOf;
    assert "" + ":" == ":";
  }

  lemma NextWord(deps: seq<Dep>, i: nat, word: string)
    requires i < |deps| && word == Rendered(deps[i], Anonymous(deps))
    ensures var words := RenderedAll(deps);
      JoinComma(words[..i + 1]) == if i == 0 then word else JoinComma(words[..i]) + "," + word
  {
    var words := RenderedAll(deps);
    hide Rendered, JoinComma;
    assert words[..i + 1] == words[..i] + [word];
    JoinCommaSnoc(words[..i], word);
  }

  method RenderDependencies(deps: seq<Dep>) returns (text: string)
    ensures text == JoinComma(RenderedAll(deps))
  {
    var anonymous := |deps| == 1 && deps[0].childPath == "";
    text := "";
    ghost var words := RenderedAll(deps);
    hide JoinComma, Rendered, RenderedAll, TextOf;
    NothingJoined();
    assert words[..0] == [];
    for i := 0 to |deps|
      invariant text == JoinComma(words[..i])
    {
      var dep := deps[i];
      var key := if anonymous then "" else if dep.parentName != Some(dep.childPath) then dep.childPath + ":" else ":";
      var path := if dep.parentPath != "" then "/" + dep.parentPath else "";
      var word := key + TextOf(dep.parentName) + path;
      SameRendering(dep, anonymous, key, path);
      NextWord(deps, i, word);
      text := if i == 0 then word else text + "," + word;
    }
    assert words[..|deps|] == words;
  }

  lemma NothingJoined()
    ensures JoinComma([]) == ""
  {
  }

  method GetWorksheetLines(entries: seq<Entry>) returns (lines: seq<string>)
    ensures |lines| == |entries| && forall i :: 0 <= i < |entries| ==> lines[i] == Print(ItemFor(entries[i]))
  {
    hide TokensToString, JoinSpace, JoinComma, RenderedAll;
    lines := [];
    for i := 0 to |entries|
      invariant |lines| == i && forall j :: 0 <= j < i ==> lines[j] == Print(ItemFor(entries[j]))
    {
      var line: string;
      match entries[i] {
        case MarkupEntry(text) => line := text;
        case DirectiveEntry(tokens) =>
          if |tokens| > 0 && tokens[0] == "%" {
            line := "//" + JoinSpace(tokens[1..]);
          } else {
            var value := TokensToString(tokens);
            line := "%" + (if |value| == 0 || value[0] == '%' then "" else " ") + value;
          }
        case BundleEntry(uuid, info) =>
          var description := "";
          if info.Some? {
            description := info.value.bundleType + " " + info.value.name;
            var deps := RenderDependencies(info.value.dependencies);
            if deps != "" {
              description := description + " -- " + deps;
            }
            if info.value.command != "" {
              description := description + " : " + OneLine(info.value.command);
            }
            SameDescription(info.value, deps, description);
          }
          line := "[" + description + "]{" + uuid + "}";
        case SheetEntry(uuid, name) => line := "[" + ("worksheet " + TextOf(name)) + "]{{" + uuid + "}}";
      }
      lines := lines + [line];
    }
  }

  lemma SameDescription(info: BundleInfo, deps: string, description: string)
    requires deps == JoinComma(RenderedAll(info.dependencies))
    requires var front := info.bundleType + " " + info.name;
      var middle := if deps != "" then front + " -- " + deps else front;
      description == if info.command != "" then middle + " : " + OneLine(info.command) else middle
    ensures description == Described(info)
  {
  }

  // ---------------------------------------------------------------- parsing

  predicate IsHex(c: char) {
    '0' <= c <= '9' || 'a' <= c <= 'f'
  }

  predicate FullUuid(s: string) {
    |s| == 34 && s[..2] == "0x" && forall i :: 2 <= i < 34 ==> IsHex(s[i])
  }

  /** A full uuid stands for itself; anything else is looked up. */
  function Resolve(lookup: string -> Result<string, string>, spec: string): Result<string, string> {
    if FullUuid(Trim(spec)) then Ok(Trim(spec)) else lookup(spec)
  }

  /** The item a line stands for. A subworksheet that cannot be resolved becomes markup that
      says so; a bundle that cannot be resolved, or a directive that cannot be split, fails. */
  function ItemOf(r: Resolver, line: string): Result<Item, Error> {
    match KindOf(line)
    case CommentLine => Ok(Directive(["%", line[2..]]))
    case BundleLine =>
      var uuid := Resolve(r.bundle, Match(false, line).value);
      if uuid.Ok? then Ok(BundleRef(uuid.value, "")) else Err(Unresolved(uuid.error))
    case SheetLine =>
      var uuid := Resolve(r.sheet, Match(true, line).value);
      Ok(if uuid.Ok? then SheetRef(uuid.value, "") else Markup(uuid.error + ": " + line))
    case DirectiveLine =>
      var tokens := StringToTokens(DirectiveBody(line).value);
      if tokens.Ok? then Ok(Directive(tokens.value)) else Err(Lexical(tokens.error))
    case MarkupLine => Ok(Markup(line))
  }

  // ---------------------------------------------------------------- what a line is

  /** The lines of the directive pattern: a percent sign with white space around it, the body, which
      stands on one line and begins with a solid character, and white space from a line break on. */
  ghost predicate InDirective(line: string, body: string) {
    exists a, b, c :: DirectiveParts(line, a, b, body, c)
  }

  ghost predicate DirectiveParts(line: string, a: string, b: string, body: string, c: string) {
    && Blank(a) && Blank(b) && Blank(c) && line == a + "%" + b + body + c && '\n' !in body
    && (body == "" ==> c == "") && (body != "" ==> !IsSpace(body[0])) && (c != "" ==> c[0] == '\n')
  }

  lemma {:induction false} FirstLineOf(body: string, c: string)
    requires '\n' !in body && (c != "" ==> c[0] == '\n')
    ensures FirstLine(body + c) == body
  {
    if body == "" {
      assert body + c == c;
    } else {
      assert (body + c)[0] == body[0] && (body + c)[1..] == body[1..] + c;
      FirstLineOf(body[1..], c);
    }
  }

  lemma {:induction false} FirstLineEnds(s: string)
    ensures |FirstLine(s)| <= |s| && FirstLine(s) == s[..|FirstLine(s)|] && '\n' !in FirstLine(s)
    ensures |FirstLine(s)| < |s| ==> s[|FirstLine(s)|] == '\n'
  {
    if s != "" && s[0] != '\n' {
      FirstLineEnds(s[1..]);
    }
  }

  /** What the scanner takes for a directive is one, with that body. */
  lemma DirectiveSound(line: string, body: string)
    requires DirectiveBody(line) == Some(body)
    ensures InDirective(line, body)
  {
    var t := LTrim(line);
    var u := LTrim(t[1..]);
    assert t[0] == '%' && body == FirstLine(u) && Blank(u[|body|..]);
    hide Blank, LTrim, FirstLine, IsSpace, DirectiveBody;
    var a := LTrimSplits(line);
    var b := LTrimSplits(t[1..]);
    FirstLineEnds(u);
    var c := u[|body|..];
    assert u == body + c && t == ['%'] + t[1..];
    hide InDirective;
    PartsOk(line, a, b, body, c);
  }

  lemma PartsOk(line: string, a: string, b: string, body: string, c: string)
    requires line == a + (['%'] + (b + (body + c))) && Blank(a) && Blank(b) && Blank(c) && '\n' !in body
    requires (body + c != "" ==> !IsSpace((body + c)[0])) && (c != "" ==> c[0] == '\n')
    ensures InDirective(line, body)
  {
    assert IsSpace('\n');
    hide IsSpace, Blank;
    assert line == a + "%" + b + body + c;
    assert body == "" ==> body + c == c;
    assert body != "" ==> (body + c)[0] == body[0];
    assert DirectiveParts(line, a, b, body, c);
  }

  /** And there is only one way to read a directive. */
  lemma DirectiveComplete(line: string, body: string)
    requires InDirective(line, body)
    ensures DirectiveBody(line) == Some(body)
  {
    var a, b, c :| DirectiveParts(line, a, b, body, c);
    var u := body + c;
    var t := "%" + (b + u);
    assert line == a + t && t[0] == '%' && t[1..] == b + u;
    assert !IsSpace('%');
    hide IsSpace;
    LTrimBlank(a, t);
    LTrimBlank(b, u);
    FirstLineOf(body, c);
    assert u[|body|..] == c;
  }

  predicate IsComment(line: string) {
    |line| >= 2 && line[0] == '/' && line[1] == '/'
  }

  ghost predicate NoSpec(sheet: bool, line: string) {
    forall spec :: !InLanguage(sheet, line, spec)
  }

  lemma SpecIff(sheet: bool, line: string)
    ensures Match(sheet, line).None? <==> NoSpec(sheet, line)
  {
    if Match(sheet, line).Some? {
      MatchSound(sheet, line, Match(sheet, line).value);
    }
    hide Match;
    forall spec | InLanguage(sheet, line, spec)
      ensures Match(sheet, line).Some?
    {
      MatchComplete(sheet, line, spec);
    }
  }

  lemma KindIs(line: string)
    ensures KindOf(line) ==
      if IsComment(line) then CommentLine
      else if Match(false, line).Some? then BundleLine
      else if Match(true, line).Some? then SheetLine
      else if DirectiveBody(line).Some? then DirectiveLine
      else MarkupLine
  {
    assert |line| >= 2 ==> line[..2] == [line[0], line[1]];
    hide Match, DirectiveBody;
  }

  /** A line that begins with two slashes is a comment. */
  lemma CommentRead(r: Resolver, line: string)
    requires IsComment(line)
    ensures ItemOf(r, line) == Ok(Directive(["%", line[2..]]))
  {
    KindIs(line);
    hide KindOf;
  }

  /** Otherwise a line of the bundle pattern is the bundle of its spec. */
  lemma BundleRead(r: Resolver, line: string, spec: string)
    requires !IsComment(line) && InLanguage(false, line, spec)
    ensures var uuid := Resolve(r.bundle, spec);
      ItemOf(r, line) == if uuid.Ok? then Ok(BundleRef(uuid.value, "")) else Err(Unresolved(uuid.error))
  {
    KindIs(line);
    BundleSpecUnique(line, spec);
    hide KindOf, Match, InLanguage, Resolve;
  }

  /** Otherwise a line of the subworksheet pattern is the worksheet of one of its specs, or says why it
      is none. */
  lemma SheetRead(r: Resolver, line: string)
    requires !IsComment(line) && NoSpec(false, line) && !NoSpec(true, line)
    ensures exists spec | InLanguage(true, line, spec) ::
      var uuid := Resolve(r.sheet, spec);
      ItemOf(r, line) == Ok(if uuid.Ok? then SheetRef(uuid.value, "") else Markup(uuid.error + ": " + line))
  {
    KindIs(line);
    SpecIff(false, line);
    SpecIff(true, line);
    MatchSound(true, line, Match(true, line).value);
    hide KindOf, Match, InLanguage, Resolve;
  }

  /** Otherwise a line of the directive pattern is its body, split into words. */
  lemma DirectiveRead(r: Resolver, line: string, body: string)
    requires !IsComment(line) && NoSpec(false, line) && NoSpec(true, line) && InDirective(line, body)
    ensures var tokens := StringToTokens(body);
      ItemOf(r, line) == if tokens.Ok? then Ok(Directive(tokens.value)) else Err(Lexical(tokens.error))
  {
    KindIs(line);
    SpecIff(false, line);
    SpecIff(true, line);
    DirectiveComplete(line, body);
    hide KindOf, Match, DirectiveBody, InDirective, NoSpec, StringToTokens;
  }

  /** Every other line is markup. */
  lemma MarkupRead(r: Resolver, line: string)
    requires !IsComment(line) && NoSpec(false, line) && NoSpec(true, line) && forall body :: !InDirective(line, body)
    ensures ItemOf(r, line) == Ok(Markup(line))
  {
    KindIs(line);
    SpecIff(false, line);
    SpecIff(true, line);
    if DirectiveBody(line).Some? {
      DirectiveSound(line, DirectiveBody(line).value);
    }
    hide KindOf, Match, DirectiveBody, InDirective, NoSpec;
  }

  /** A full uuid, with white space around it or not, is not looked up; anything else is. */
  lemma ResolvesTo(lookup: string -> Result<string, string>, a: string, spec: string, b: string)
    requires Blank(a) && Blank(b) && |spec| == 34 && spec[0] == '0' && spec[1] == 'x'
    requires forall i :: 2 <= i < 34 ==> '0' <= spec[i] <= '9' || 'a' <= spec[i] <= 'f'
    ensures Resolve(lookup, a + spec + b) == Ok(spec)
  {
    assert spec[..2] == "0x" && FullUuid(spec);
    UuidChars(spec);
    hide FullUuid, Blank;
    TrimSolid(a, spec, b);
  }

  lemma LookedUp(lookup: string -> Result<string, string>, spec: string)
    requires |Trim(spec)| != 34 || Trim(spec)[0] != '0' || Trim(spec)[1] != 'x' ||
      exists i :: 2 <= i < 34 && !('0' <= Trim(spec)[i] <= '9' || 'a' <= Trim(spec)[i] <= 'f')
    ensures Resolve(lookup, spec) == lookup(spec)
  {
    var t := Trim(spec);
    assert |t| == 34 ==> t[..2] == [t[0], t[1]];
    hide Trim;
  }

  /** The item of one line, the uuid of a bundle line being known already. */
  method ParseLine(r: Resolver, line: string, bundleUuids: map<nat, string>, i: nat) returns (res: Result<Item, Error>)
    requires KindOf(line) == BundleLine ==>
      i in bundleUuids && Resolve(r.bundle, Match(false, line).value) == Ok(bundleUuids[i])
    ensures res == ItemOf(r, line)
  {
    match KindOf(line)
    case CommentLine =>
      res := Ok(Directive(["%", line[2..]]));
    case BundleLine =>
      res := Ok(BundleRef(bundleUuids[i], ""));
    case SheetLine =>
      var uuid := Resolve(r.sheet, Match(true, line).value);
      res := Ok(if uuid.Ok? then SheetRef(uuid.value, "") else Markup(uuid.error + ": " + line));
    case DirectiveLine =>
      var tokens := StringToTokens(DirectiveBody(line).value);
      res := if tokens.Ok? then Ok(Directive(tokens.value)) else Err(Lexical(tokens.error));
    case MarkupLine =>
      res := Ok(Markup(line));
  }

  predicate BundleFine(r: Resolver, line: string) {
    KindOf(line) == BundleLine ==> Resolve(r.bundle, Match(false, line).value).Ok?
  }

  /** Resolve the specs of all bundle lines, in one batch. */
  method ResolveBundles(r: Resolver, lines: seq<string>) returns (res: Result<map<nat, string>, Error>)
    ensures res.Ok? ==> forall i :: 0 <= i < |lines| && KindOf(lines[i]) == BundleLine ==>
      i in res.value && Resolve(r.bundle, Match(false, lines[i]).value) == Ok(res.value[i])
    ensures res.Err? ==> exists i :: 0 <= i < |lines| && !BundleFine(r, lines[i]) && ItemOf(r, lines[i]) == Err(res.error)
  {
    hide Match, Resolve;
    var bundleUuids: map<nat, string> := map[];
    for i := 0 to |lines|
      invariant forall j :: 0 <= j < i && KindOf(lines[j]) == BundleLine ==>
        j in bundleUuids && Resolve(r.bundle, Match(false, lines[j]).value) == Ok(bundleUuids[j])
    {
      if KindOf(lines[i]) == BundleLine {
        var uuid := Resolve(r.bundle, Match(false, lines[i]).value);
        if uuid.Err? {
          assert ItemOf(r, lines[i]) == Err(Unresolved(uuid.error)) && !BundleFine(r, lines[i]);
          return Err(Unresolved(uuid.error));
        }
        bundleUuids := bundleUuids[i := uuid.value];
      }
    }
    res := Ok(bundleUuids);
  }

  /** Parse the lines: bundle specs are resolved first, then the items are made. */
  method ParseWorksheetForm(r: Resolver, lines: seq<string>) returns (res: Result<seq<Item>, Error>)
    ensures res.Ok? <==> forall i :: 0 <= i < |lines| ==> ItemOf(r, lines[i]).Ok?
    ensures res.Ok? ==> |res.value| == |lines| && forall i :: 0 <= i < |lines| ==> ItemOf(r, lines[i]) == Ok(res.value[i])
    ensures res.Err? ==> exists i :: 0 <= i < |lines| && ItemOf(r, lines[i]) == Err(res.error)
    ensures res.Err? && res.error.Lexical? ==> forall i :: 0 <= i < |lines| ==> BundleFine(r, lines[i])
  {
    var bundleUuids := ResolveBundles(r, lines);
    if bundleUuids.Err? {
      return Err(bundleUuids.error);
    }
    assert forall i :: 0 <= i < |lines| ==> BundleFine(r, lines[i]);
    hide ItemOf, BundleFine, Match, KindOf, Resolve;
    var items: seq<Item> := [];
    for i := 0 to |lines|
      invariant |items| == i && forall j :: 0 <= j < i ==> ItemOf(r, lines[j]) == Ok(items[j])
    {
      var item := ParseLine(r, lines[i], bundleUuids.value, i);
      if item.Err? {
        return Err(item.error);
      }
      items := items + [item.value];
    }
    res := Ok(items);
  }

  // ---------------------------------------------------------------- the round trip

  /** What the database guarantees of the references on a worksheet; worksheets have names without
      line breaks. */
  predicate Stored(item: Item) {
    (item.BundleRef? || item.SheetRef? ==> FullUuid(item.uuid)) && (item.SheetRef? ==> '\n' !in item.description)
  }

  /** The items whose text means them: markup that does not read as another kind, comments of
      one token, other directives whose tokens have no line break, and bundles whose description has
      none. */
  predicate Canonical(item: Item) {
    match item
    case Markup(text) => KindOf(text) == MarkupLine
    case Directive(tokens) =>
      if tokens != [] && tokens[0] == "%" then |tokens| == 2 else forall t :: t in tokens ==> '\n' !in t
    case BundleRef(_, description) => '\n' !in description
    case SheetRef(_, _) => true
  }

  /** Descriptions are for the reader only. */
  function Bare(item: Item): Item {
    match item
    case BundleRef(uuid, _) => BundleRef(uuid, "")
    case SheetRef(uuid, _) => SheetRef(uuid, "")
    case _ => item
  }

  lemma UuidChars(u: string)
    requires FullUuid(u)
    ensures Solid(u) && Trim(u) == u && forall c :: c in u ==> c != '\n' && c != '{' && c != '}' && c != ']' && !IsSpace(c)
  {
    forall c | c in u
      ensures c != '\n' && c != '{' && c != '}' && c != ']' && !IsSpace(c)
    {
      var i :| 0 <= i < |u| && u[i] == c;
      if i < 2 {
        assert u[..2][i] == c;
      }
    }
    assert u[0] in u && u[33] in u;
    TrimSolid("", u, "");
    assert "" + u + "" == u;
  }

  lemma BundleInLanguage(u: string, d: string)
    requires '{' !in u && '\n' !in d
    ensures InLanguage(false, "[" + d + "]{" + u + "}", u)
  {
    var g, s := "[" + d + "]", Braced(false, u);
    assert g[1..|g| - 1] == d;
    assert Blank("") && s == "" + s + "";
    assert TailLanguage(false, s, u) && Description(g);
    assert "[" + d + "]{" + u + "}" == "" + g + s;
  }

  /** What follows a closing bracket among the braces of a bundle is no opening brace. */
  lemma NoEarlierBraces(s: string, spec: string, p: nat)
    requires TailLanguage(false, s, spec) && p + 1 < |s| && s[p] == ']'
    ensures s[p + 1] != '{'
  {
    var b, c :| Blank(b) && Blank(c) && s == b + Braced(false, spec) + c;
    var n := |b| + |spec| + 2;
    assert forall i :: 0 <= i < |b| ==> s[i] == b[i] && IsSpace(s[i]);
    assert s[|b|] == '{' && s[n - 1] == '}';
    assert forall i :: |b| < i < n - 1 ==> s[i] == spec[i - |b| - 1];
    assert forall i :: n <= i < |s| ==> s[i] == c[i - n] && IsSpace(s[i]);
  }

  /** With a line break in the description, the description ends nowhere. */
  lemma NoSplit(line: string, n: nat, p: nat, k: nat)
    requires 0 < n < p && p + 1 < |line| && line[n] == '\n' && line[p] == ']' && line[p + 1] == '{' && k <= |line|
    ensures !Splits(false, line, k)
  {
    hide Tail, TailLanguage;
    if n + 1 < k {
      assert line[1..k - 1][n - 1] == line[n];
    } else if Tail(false, line[k..]).Some? {
      assert line[k..][p - k] == line[p] && line[k..][p + 1 - k] == line[p + 1];
      TailSound(false, line[k..], Tail(false, line[k..]).value);
      NoEarlierBraces(line[k..], Tail(false, line[k..]).value, p - k);
    }
  }

  /** A description with a line break hides the bundle. */
  lemma BrokenBundle(u: string, d: string)
    requires '\n' in d
    ensures Match(false, "[" + d + "]{" + u + "}").None?
  {
    var line := "[" + d + "]{" + u + "}";
    assert line[0] == '[' && LTrim(line) == line;
    var n :| 0 <= n < |d| && d[n] == '\n';
    assert line[n + 1] == '\n' && line[|d| + 1] == ']' && line[|d| + 2] == '{';
    hide Splits, Tail, LTrim;
    forall k | 0 <= k <= |line|
      ensures !Splits(false, line, k)
    {
      NoSplit(line, n + 1, |d| + 1, k);
    }
    NowhereSplits(line, |line|);
  }

  lemma NowhereSplits(t: string, j: nat)
    requires j <= |t| && forall k :: 0 <= k <= |t| ==> !Splits(false, t, k)
    ensures FromBracket(false, t, j).None?
  {
    hide Splits, FromBracket;
    if FromBracket(false, t, j).Some? {
      var k := FromBracketWhere(false, t, j);
    }
  }

  /** A bundle line with a full uuid reads back as that bundle exactly when its description has no
      line break. */
  lemma BundleRoundTrip(r: Resolver, u: string, d: string)
    requires FullUuid(u)
    ensures ItemOf(r, Print(BundleRef(u, d))) == Ok(BundleRef(u, "")) <==> '\n' !in d
  {
    var line := "[" + d + "]{" + u + "}";
    assert line[0] == '[' && line[..2] != "//";
    if '\n' in d {
      BrokenBundle(u, d);
    } else {
      UuidChars(u);
      BundleInLanguage(u, d);
      BundleSpecUnique(line, u);
    }
    hide Match, InLanguage;
  }

  lemma SheetNotBundle(u: string, d: string)
    requires '{' !in u
    ensures Match(false, "[" + d + "]{{" + u + "}}").None?
  {
    hide Match, InLanguage;
    var line := "[" + d + "]{{" + u + "}}";
    if Match(false, line).Some? {
      var spec := Match(false, line).value;
      MatchSound(false, line, spec);
      var x := LastBraces(line, spec);
      RTrimBlank(line, "");
      assert line + "" == line;
      var y := "[" + d + "]{";
      assert line == y + "{" + (u + "}") + "}";
      SameBraces(x, spec, y, u + "}");
    }
  }

  lemma SheetTail(u: string)
    requires ']' !in u && '\n' !in u
    ensures Tail(true, Braced(true, u)) == Some(u)
  {
    var s := Braced(true, u);
    assert Blank("") && s == "" + s + "";
    assert TailLanguage(true, s, u);
    TailComplete(true, s, u);
  }

  lemma SheetMatches(u: string, d: string)
    requires ']' !in u && '\n' !in u && '\n' !in d
    ensures Match(true, "[" + d + "]{{" + u + "}}") == Some(u)
  {
    var line := "[" + d + "]{{" + u + "}}";
    var k := |d| + 2;
    var s := Braced(true, u);
    SheetTail(u);
    assert line[1..k - 1] == d && line[k..] == s;
    hide Tail;
    forall m | k < m <= |line|
      ensures !Splits(true, line, m)
    {
      assert line[m - 1] == s[m - 1 - k];
    }
    FromBracketIsLast(true, line, |line|, k);
  }

  lemma SheetRoundTrip(r: Resolver, u: string, d: string)
    requires FullUuid(u) && '\n' !in d
    ensures ItemOf(r, Print(SheetRef(u, d))) == Ok(SheetRef(u, ""))
  {
    UuidChars(u);
    SheetNotBundle(u, d);
    SheetMatches(u, d);
    var line := "[" + d + "]{{" + u + "}}";
    assert line[0] == '[' && line[..2] != "//";
    hide Match;
  }

  lemma PercentIsOther(line: string)
    requires line != "" && line[0] == '%'
    ensures LTrim(line) == line && Match(false, line).None? && Match(true, line).None?
  {
    forall sheet | sheet == false || sheet == true
      ensures Match(sheet, line).None?
    {
      if Match(sheet, line).Some? {
        var spec := Match(sheet, line).value;
        TailSound(sheet, line, spec);
        TailIgnoresBlank(sheet, line, spec);
      }
    }
  }

  lemma {:induction false} FirstLineWhole(s: string)
    ensures |FirstLine(s)| <= |s| && FirstLine(s) == s[..|FirstLine(s)|]
    ensures FirstLine(s) == s <==> '\n' !in s
  {
    if s != "" && s[0] != '\n' {
      FirstLineWhole(s[1..]);
      assert s == [s[0]] + s[1..];
    }
  }

  lemma SafeIsSolid(c: char)
    requires IsSafe(c) || c == '\''
    ensures !IsSpace(c) && c != '\n'
  {
  }

  lemma LTrimOne(value: string)
    requires value != "" && !IsSpace(value[0])
    ensures LTrim(" " + value) == value && LTrim(value) == value
  {
    LTrimBlank(" ", value);
  }

  lemma TokensTrimmed(tokens: seq<string>)
    requires tokens != []
    ensures var value := TokensToString(tokens); LTrim(" " + value) == value && LTrim(value) == value
  {
    hide TokensToString, IsSpace, IsSafe, LTrim;
    var value := TokensToString(tokens);
    TokensEnd(tokens);
    SafeIsSolid(value[0]);
    LTrimOne(value);
  }

  lemma NoTokens()
    ensures TokensToString([]) == ""
  {
  }

  /** A directive is printed with a percent sign, and a space unless its text is empty or starts with a
      percent sign itself. */
  lemma PercentPrinted(tokens: seq<string>)
    requires !(tokens != [] && tokens[0] == "%")
    ensures var line, value := Print(Directive(tokens)), TokensToString(tokens);
      && line != "" && line[0] == '%'
      && (line[1..] == value <==> value == "" || value[0] == '%')
      && (value != "" && value[0] != '%' ==> line[1..] == " " + value)
    ensures tokens == [] ==> Print(Directive(tokens)) == "%"
  {
    hide TokensToString, JoinSpace;
    PercentShape(TokensToString(tokens));
    NoTokens();
  }

  lemma PercentShape(value: string)
    ensures var line := "%" + (if value == "" || value[0] == '%' then "" else " ") + value;
      && line[0] == '%' && (line[1..] == value <==> value == "" || value[0] == '%')
      && (value != "" && value[0] != '%' ==> line[1..] == " " + value)
  {
    var line := "%" + (if value == "" || value[0] == '%' then "" else " ") + value;
    if value == "" || value[0] == '%' {
      assert line[1..] == value;
    } else {
      assert line[1..] == " " + value;
    }
  }

  lemma DirectivePrinted(tokens: seq<string>)
    requires !(tokens != [] && tokens[0] == "%")
    ensures var line := Print(Directive(tokens));
      line != "" && line[0] == '%' && LTrim(line[1..]) == TokensToString(tokens)
  {
    PercentPrinted(tokens);
    if tokens != [] {
      hide TokensToString, IsSpace, IsSafe, LTrim, Print;
      TokensTrimmed(tokens);
    }
  }

  /** A directive whose text has a line break does not read as a directive. */
  lemma BrokenBody(line: string, value: string)
    requires line != "" && line[0] == '%' && LTrim(line) == line && LTrim(line[1..]) == value
    requires '\n' in value && !IsSpace(value[|value| - 1])
    ensures DirectiveBody(line).None?
  {
    hide LTrim, IsSpace;
    FirstLineWhole(value);
    var n := |FirstLine(value)|;
    assert value[n..][|value[n..]| - 1] == value[|value| - 1];
  }

  lemma WholeBody(line: string, value: string)
    requires line != "" && line[0] == '%' && LTrim(line) == line && LTrim(line[1..]) == value && '\n' !in value
    ensures DirectiveBody(line) == Some(value)
  {
    FirstLineWhole(value);
    assert value[|value|..] == "";
  }

  /** A line that starts with a percent sign is a directive, or markup when it is broken. */
  lemma PercentItem(r: Resolver, line: string)
    requires line != "" && line[0] == '%'
    ensures ItemOf(r, line) ==
      if DirectiveBody(line).None? then Ok(Markup(line))
      else
        var tokens := StringToTokens(DirectiveBody(line).value);
        if tokens.Ok? then Ok(Directive(tokens.value)) else Err(Lexical(tokens.error))
  {
    PercentIsOther(line);
    assert |line| >= 2 ==> line[..2][0] == line[0];
    hide Match, DirectiveBody, StringToTokens;
  }

  lemma DirectiveRoundTrip(r: Resolver, tokens: seq<string>)
    requires !(tokens != [] && tokens[0] == "%")
    ensures ItemOf(r, Print(Directive(tokens))) == Ok(Directive(tokens)) <==> forall t :: t in tokens ==> '\n' !in t
  {
    hide ItemOf, DirectiveBody, StringToTokens, TokensToString, Print, LTrim, IsSpace, IsSafe;
    var value, line := TokensToString(tokens), Print(Directive(tokens));
    DirectivePrinted(tokens);
    TokensNewline(tokens);
    TokensRoundTrip(tokens);
    PercentIsOther(line);
    PercentItem(r, line);
    if '\n' in value {
      if tokens != [] {
        TokensEnd(tokens);
        SafeIsSolid(value[|value| - 1]);
        BrokenBody(line, value);
      }
    } else {
      WholeBody(line, value);
    }
  }

  lemma CommentRoundTrip(r: Resolver, tokens: seq<string>)
    requires tokens != [] && tokens[0] == "%"
    ensures ItemOf(r, Print(Directive(tokens))) == Ok(Directive(["%", JoinSpace(tokens[1..])]))
    ensures ItemOf(r, Print(Directive(tokens))) == Ok(Directive(tokens)) <==> |tokens| == 2
  {
    var line := "//" + JoinSpace(tokens[1..]);
    assert line[..2] == "//" && line[2..] == JoinSpace(tokens[1..]);
    if |tokens| == 2 {
      assert tokens == ["%", tokens[1]] && tokens[1..] == [tokens[1]];
    }
  }

  lemma MarkupRoundTrip(r: Resolver, text: string)
    ensures ItemOf(r, text) == Ok(Markup(text)) <==> KindOf(text) == MarkupLine
  {
    hide Match;
    if KindOf(text) == SheetLine && Resolve(r.sheet, Match(true, text).value).Err? {
      assert |Resolve(r.sheet, Match(true, text).value).error + ": " + text| > |text|;
    }
  }

  /** An item comes back from its line, but for the description, exactly when it is canonical. */
  lemma ItemRoundTrip(r: Resolver, item: Item)
    requires Stored(item)
    ensures ItemOf(r, Print(item)) == Ok(Bare(item)) <==> Canonical(item)
  {
    hide ItemOf, KindOf, FullUuid;
    match item
    case Markup(text) => MarkupRoundTrip(r, text);
    case Directive(tokens) =>
      if tokens != [] && tokens[0] == "%" {
        CommentRoundTrip(r, tokens);
      } else {
        DirectiveRoundTrip(r, tokens);
      }
    case BundleRef(u, d) => BundleRoundTrip(r, u, d);
    case SheetRef(u, d) => SheetRoundTrip(r, u, d);
  }

  // ---------------------------------------------------------------- whole worksheets

  /** What a line shows of a bundle has no line break; its command may have any. */
  predicate ShownOnOneLine(info: BundleInfo) {
    && '\n' !in info.bundleType && '\n' !in info.name
    && forall dep :: dep in info.dependencies ==>
         '\n' !in dep.childPath && '\n' !in TextOf(dep.parentName) && '\n' !in dep.parentPath
  }

  predicate StoredEntry(e: Entry) {
    match e
    case BundleEntry(uuid, _) => FullUuid(uuid)
    case SheetEntry(uuid, name) => FullUuid(uuid) && '\n' !in TextOf(name)
    case _ => true
  }

  /** The stored items whose text means them. */
  predicate CanonicalEntry(e: Entry) {
    match e
    case BundleEntry(_, info) => info.Some? ==> ShownOnOneLine(info.value)
    case SheetEntry(_, _) => true
    case _ => Canonical(ItemFor(e))
  }

  lemma {:induction false} JoinedBreaks(words: seq<string>)
    ensures '\n' in JoinComma(words) <==> exists w :: w in words && '\n' in w
  {
    if |words| > 1 {
      var n := |words| - 1;
      JoinedBreaks(words[..n]);
      assert words == words[..n] + [words[n]];
    }
  }

  lemma RenderedBreaks(dep: Dep, anonymous: bool)
    requires anonymous ==> dep.childPath == ""
    ensures '\n' in Rendered(dep, anonymous) <==>
      '\n' in dep.childPath || '\n' in TextOf(dep.parentName) || '\n' in dep.parentPath
  {
  }

  lemma DependenciesBreak(deps: seq<Dep>)
    ensures '\n' in JoinComma(RenderedAll(deps)) <==>
      exists dep | dep in deps :: '\n' in dep.childPath || '\n' in TextOf(dep.parentName) || '\n' in dep.parentPath
  {
    var words := RenderedAll(deps);
    JoinedBreaks(words);
    hide JoinComma, Rendered, TextOf;
    forall i | 0 <= i < |deps|
      ensures '\n' in words[i] <==>
        '\n' in deps[i].childPath || '\n' in TextOf(deps[i].parentName) || '\n' in deps[i].parentPath
    {
      RenderedBreaks(deps[i], Anonymous(deps));
    }
  }

  lemma DescribedBreaks(info: BundleInfo)
    ensures '\n' !in Described(info) <==> ShownOnOneLine(info)
  {
    DependenciesBreak(info.dependencies);
    hide JoinComma, RenderedAll, TextOf;
    var deps := JoinComma(RenderedAll(info.dependencies));
    var command := OneLine(info.command);
  }

  lemma CanonicalIff(e: Entry)
    ensures Canonical(ItemFor(e)) <==> CanonicalEntry(e)
    ensures StoredEntry(e) ==> Stored(ItemFor(e))
  {
    if e.BundleEntry? && e.info.Some? {
      DescribedBreaks(e.info.value);
    }
    hide Described, ShownOnOneLine, FullUuid, KindOf;
  }

  /** A worksheet comes back from its text, but for the descriptions, exactly when all its items
      are canonical. */
  method PrintAndParse(r: Resolver, entries: seq<Entry>) returns (res: Result<seq<Item>, Error>)
    requires forall i :: 0 <= i < |entries| ==> StoredEntry(entries[i])
    ensures res.Ok? && |res.value| == |entries| && (forall i :: 0 <= i < |entries| ==> res.value[i] == Bare(ItemFor(entries[i])))
      <==> forall i :: 0 <= i < |entries| ==> CanonicalEntry(entries[i])
  {
    hide ItemOf, Canonical, CanonicalEntry, Print, Stored, StoredEntry, Bare, ItemFor;
    var lines := GetWorksheetLines(entries);
    res := ParseWorksheetForm(r, lines);
    forall i | 0 <= i < |entries|
      ensures ItemOf(r, lines[i]) == Ok(Bare(ItemFor(entries[i]))) <==> CanonicalEntry(entries[i])
    {
      CanonicalIff(entries[i]);
      ItemRoundTrip(r, ItemFor(entries[i]));
    }
  }
}
