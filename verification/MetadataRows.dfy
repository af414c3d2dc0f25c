/** Metadata of a bundle as rows of text, and back: `Metadata.to_dicts` and `Metadata.collapse_dicts`. */
module MetadataRows {
  import opened Common
  import opened WhiteSpace

  datatype Type = StrType | IntType | FloatType | BoolType | ListType

  datatype Spec = Spec(key: string, typ: Type, generated: bool)

  /** Floats are named by their bit patterns. */
  datatype Value =
    | Nothing
    | Text(text: string)
    | Whole(n: int)
    | Truth(b: bool)
    | Real(bits: nat)
    | Tags(items: seq<string>)

  /** How the language writes and reads floats. */
  datatype Floats = Floats(repr: nat -> string, parse: string -> Option<nat>, zero: nat)
  {
    /** Writing and reading gives the same float, whole numbers read as floats, and the names of the
        truth values do not. */
    ghost predicate Faithful() {
      && (forall x: nat :: parse(repr(x)) == Some(x))
      && (forall n: int :: parse(IntText(n)).Some?)
      && parse("True") == None && parse("False") == None
    }
  }

  datatype Row = Row(key: string, text: string)

  type Dict = map<string, Value>

  // ---------------------------------------------------------------- numbers as text

  function IntText(n: int): string {
    if n < 0 then "-" + Digits(-n) else Digits(n)
  }

  /** A number read from decimal digits, between which single underscores may stand. */
  function ParseDigits(s: string): Option<nat> {
    if s == "" then None
    else
      var c, front := s[|s| - 1], s[..|s| - 1];
      if !('0' <= c <= '9') then None
      else if front == "" then Some(c as int - '0' as int)
      else
        match ParseDigits(if front[|front| - 1] == '_' then front[..|front| - 1] else front)
        case None => None
        case Some(n) => Some(10 * n + (c as int - '0' as int))
  }

  /** A whole number read from text: white space around it, and a sign, may be there. */
  function ParseInt(s: string): Option<int> {
    var t := Trim(s);
    if t != "" && (t[0] == '-' || t[0] == '+') then
      match ParseDigits(t[1..])
      case None => None
      case Some(n) => Some(if t[0] == '-' then 0 - (n as int) else n)
    else
      match ParseDigits(t)
      case None => None
      case Some(n) => Some(n)
  }

  lemma {:induction false} DigitsReadBack(n: nat)
    ensures ParseDigits(Digits(n)) == Some(n)
  {
    var s := Digits(n);
    if n >= 10 {
      DigitsReadBack(n / 10);
      assert s[..|s| - 1] == Digits(n / 10);
    }
  }

  predicate IsDigit(c: char) {
    '0' <= c <= '9'
  }

  /** Digits, and single underscores between them. */
  ghost predicate Numeral(s: string) {
    && s != "" && IsDigit(s[0]) && IsDigit(s[|s| - 1])
    && (forall k :: 0 <= k < |s| ==> IsDigit(s[k]) || s[k] == '_')
    && forall k :: 0 <= k < |s| - 1 ==> IsDigit(s[k]) || IsDigit(s[k + 1])
  }

  /** The digits among some characters. */
  function DigitsOf(s: string): (r: string)
    ensures forall k | 0 <= k < |r| :: '0' <= r[k] <= '9'
  {
    if s == "" then "" else DigitsOf(s[..|s| - 1]) + if IsDigit(s[|s| - 1]) then [s[|s| - 1]] else ""
  }

  lemma NumberSnoc(s: string, c: char)
    requires (forall k | 0 <= k < |s| :: '0' <= s[k] <= '9') && '0' <= c <= '9'
    ensures Number(s + [c]) == 10 * Number(s) + (c as int - '0' as int)
  {
    assert (s + [c])[..|s|] == s;
  }

  lemma DigitsOfSnoc(s: string, c: char)
    ensures DigitsOf(s + [c]) == DigitsOf(s) + if IsDigit(c) then [c] else ""
  {
    assert (s + [c])[..|s|] == s;
  }

  /** What stands before the last digit of a numeral is a numeral, but for an underscore at its end. */
  lemma NumeralFront(s: string)
    requires s != "" && IsDigit(s[|s| - 1]) && |s| > 1
    ensures var front := s[..|s| - 1];
      var body := if front[|front| - 1] == '_' then front[..|front| - 1] else front;
      Numeral(s) <==> Numeral(body)
  {
    var front := s[..|s| - 1];
    var body := if front[|front| - 1] == '_' then front[..|front| - 1] else front;
    assert forall k :: 0 <= k < |body| ==> body[k] == s[k];
    if Numeral(s) {
      assert IsDigit(s[|s| - 2]) || s[|s| - 2] == '_';
      if s[|s| - 2] == '_' {
        assert |s| > 2 by {
          assert s[0] != '_';
        }
        assert IsDigit(s[|s| - 3]);
      }
      assert Numeral(body);
    }
  }

  function Body(front: string): string
    requires front != ""
  {
    if front[|front| - 1] == '_' then front[..|front| - 1] else front
  }

  lemma OneDigitValue(c: char)
    requires IsDigit(c)
    ensures DigitsOf([c]) == [c] && Number([c]) == c as int - '0' as int
  {
    DigitsOfSnoc("", c);
    NumberSnoc("", c);
    assert "" + [c] == [c];
  }

  lemma OneDigitParsed(c: char)
    requires IsDigit(c)
    ensures Numeral([c]) && ParseDigits([c]) == Some(c as int - '0' as int)
  {
    assert [c][..0] == "";
  }

  lemma NotParsed(s: string)
    requires s == "" || !IsDigit(s[|s| - 1])
    ensures ParseDigits(s).None? && !Numeral(s)
  {
  }

  lemma ParseDigitsNext(front: string, c: char)
    requires front != "" && IsDigit(c)
    ensures ParseDigits(front + [c]) == match ParseDigits(Body(front))
      case None => None
      case Some(n) => Some(10 * n + (c as int - '0' as int))
  {
    var s := front + [c];
    assert s[..|s| - 1] == front;
  }

  lemma DigitsOfNext(front: string, c: char)
    requires front != "" && IsDigit(c)
    ensures DigitsOf(front + [c]) == DigitsOf(Body(front)) + [c]
  {
    DigitsOfSnoc(front, c);
    if front[|front| - 1] == '_' {
      assert front == Body(front) + ['_'];
      DigitsOfSnoc(Body(front), '_');
    }
  }

  /** The texts of digits are the numerals, and they stand for the number their digits stand for. */
  lemma {:induction false} ParseDigitsExactly(s: string)
    ensures ParseDigits(s).Some? <==> Numeral(s)
    ensures Numeral(s) ==> ParseDigits(s) == Some(Number(DigitsOf(s)))
  {
    hide Numeral, DigitsOf, Number, ParseDigits;
    if s == "" || !IsDigit(s[|s| - 1]) {
      NotParsed(s);
    } else if |s| == 1 {
      assert s == [s[0]];
      OneDigitValue(s[0]);
      OneDigitParsed(s[0]);
    } else {
      var c, front := s[|s| - 1], s[..|s| - 1];
      assert s == front + [c];
      NumeralFront(s);
      ParseDigitsNext(front, c);
      ParseDigitsExactly(Body(front));
      DigitsOfNext(front, c);
      NumberSnoc(DigitsOf(Body(front)), c);
    }
  }

  /** The texts of whole numbers: white space, perhaps a sign, a numeral, white space. */
  lemma ParseIntExactly(s: string, n: int)
    ensures ParseInt(s) == Some(n) <==>
      var t := Trim(s);
      var signed := t != "" && (t[0] == '-' || t[0] == '+');
      var body := if signed then t[1..] else t;
      Numeral(body) && n == if signed && t[0] == '-' then 0 - (Number(DigitsOf(body)) as int) else Number(DigitsOf(body))
  {
    var t := Trim(s);
    var signed := t != "" && (t[0] == '-' || t[0] == '+');
    ParseDigitsExactly(if signed then t[1..] else t);
    hide Trim, ParseDigits, Numeral, Number, DigitsOf;
  }

  lemma IntTextTrimmed(n: int)
    ensures Trim(IntText(n)) == IntText(n)
  {
    var s := IntText(n);
    assert "" + s + "" == s;
    TrimSolid("", s, "");
  }

  lemma IntReadsBack(n: int)
    ensures ParseInt(IntText(n)) == Some(n)
  {
    IntTextTrimmed(n);
    hide Trim, ParseDigits;
    if n < 0 {
      DigitsReadBack(-n);
      assert IntText(n)[1..] == Digits(-n);
    } else {
      DigitsReadBack(n);
      assert '0' <= IntText(n)[0] <= '9';
    }
  }

  lemma NamesAreNoNumbers()
    ensures ParseInt("True") == None && ParseInt("False") == None
  {
    assert "" + "True" + "" == "True" && "" + "False" + "" == "False";
    TrimSolid("", "True", "");
    TrimSolid("", "False", "");
  }

  // ---------------------------------------------------------------- values as text

  /** Characters outside ASCII become question marks. */
  function Ascii(s: string): (r: string)
    ensures |r| == |s|
  {
    seq(|s|, i requires 0 <= i < |s| => if s[i] as int < 128 then s[i] else '?')
  }

  /** The values the validation accepts for a key. */
  predicate Accepted(t: Type, v: Value) {
    match t
    case StrType => v.Nothing? || v.Text?
    case IntType => v.Nothing? || v.Whole? || v.Truth?
    case FloatType => v.Nothing? || v.Real? || v.Whole? || v.Truth?
    case BoolType => v.Nothing? || v.Truth?
    case ListType => v.Nothing? || v.Tags?
  }

  ghost predicate Validated(specs: seq<Spec>, m: Dict) {
    forall i | 0 <= i < |specs| && specs[i].key in m :: Accepted(specs[i].typ, m[specs[i].key])
  }

  ghost predicate Distinct(specs: seq<Spec>) {
    forall i, j | 0 <= i < j < |specs| :: specs[i].key != specs[j].key
  }

  /** The text of a value that is not a list. */
  function TextOf(f: Floats, v: Value): string
    requires !v.Tags? && !v.Nothing?
  {
    match v
    case Text(s) => s
    case Whole(n) => IntText(n)
    case Truth(b) => if b then "True" else "False"
    case Real(x) => f.repr(x)
  }

  /** The value a constructor makes of a text. */
  function Construct(f: Floats, t: Type, s: string): Option<Value>
    requires !t.ListType?
  {
    match t
    case StrType => Some(Text(Ascii(s)))
    case IntType => (match ParseInt(s) case None => None case Some(n) => Some(Whole(n)))
    case FloatType => (match f.parse(s) case None => None case Some(x) => Some(Real(x)))
    case BoolType => Some(Truth(s == "True"))
  }

  function Empty(f: Floats, t: Type): Value {
    match t
    case StrType => Text("")
    case IntType => Whole(0)
    case FloatType => Real(f.zero)
    case BoolType => Truth(false)
    case ListType => Tags([])
  }

  // ---------------------------------------------------------------- rows

  function TextsOf(f: Floats, v: Value): seq<string> {
    if v.Nothing? then [] else if v.Tags? then v.items else [TextOf(f, v)]
  }

  function RowsOf(key: string, texts: seq<string>): seq<Row> {
    seq(|texts|, i requires 0 <= i < |texts| => Row(key, texts[i]))
  }

  function ToRows(f: Floats, specs: seq<Spec>, m: Dict): seq<Row> {
    if specs == [] then []
    else
      var s := specs[|specs| - 1];
      ToRows(f, specs[..|specs| - 1], m) + RowsOf(s.key, if s.key in m then TextsOf(f, m[s.key]) else [])
  }

  /** The texts of the rows with a key, in order. */
  function TextsFor(rows: seq<Row>, key: string): seq<string> {
    if rows == [] then []
    else
      var r := rows[|rows| - 1];
      TextsFor(rows[..|rows| - 1], key) + if r.key == key then [r.text] else []
  }

  /** What rows say of a key: nothing, a value, or a text its type cannot read. */
  datatype Said = Silent | Says(value: Value) | Unreadable

  function SaidOf(f: Floats, s: Spec, texts: seq<string>): Said {
    if s.typ.ListType? then Says(Tags(texts))
    else if texts == [] then if s.generated then Silent else Says(Empty(f, s.typ))
    else if exists t | t in texts :: Construct(f, s.typ, t).None? then Unreadable
    else Says(Construct(f, s.typ, texts[|texts| - 1]).value)
  }

  predicate HasKey(specs: seq<Spec>, k: string) {
    exists i | 0 <= i < |specs| :: specs[i].key == k
  }

  predicate HeldAs(said: Said, d: Dict, k: string) {
    match said
    case Silent => k !in d
    case Says(v) => k in d && d[k] == v
    case Unreadable => false
  }

  /** A dictionary holds for each key what the rows say of it, and nothing else. */
  ghost predicate Holds(f: Floats, specs: seq<Spec>, rows: seq<Row>, d: Dict) {
    && (forall i | 0 <= i < |specs| :: HeldAs(SaidOf(f, specs[i], TextsFor(rows, specs[i].key)), d, specs[i].key))
    && (forall k | k in d :: HasKey(specs, k))
  }

  /** There is at most one such dictionary. */
  lemma HoldsUnique(f: Floats, specs: seq<Spec>, rows: seq<Row>, d: Dict, e: Dict)
    requires Holds(f, specs, rows, d) && Holds(f, specs, rows, e)
    ensures d == e
  {
    hide SaidOf, TextsFor;
    assert d.Keys == e.Keys;
  }

  lemma TextsForSnoc(rows: seq<Row>, r: Row, key: string)
    ensures TextsFor(rows + [r], key) == TextsFor(rows, key) + if r.key == key then [r.text] else []
  {
    assert (rows + [r])[..|rows|] == rows;
  }

  lemma {:induction false} TextsForMore(rows: seq<Row>, n: nat, key: string, t: string)
    requires n <= |rows| && t in TextsFor(rows[..n], key)
    ensures t in TextsFor(rows, key)
  {
    if n == |rows| {
      assert rows[..n] == rows;
    } else {
      var m := |rows| - 1;
      assert rows[..m][..n] == rows[..n];
      TextsForMore(rows[..m], n, key, t);
    }
  }

  ghost predicate SomeUnreadable(f: Floats, specs: seq<Spec>, rows: seq<Row>) {
    exists i | 0 <= i < |specs| :: SaidOf(f, specs[i], TextsFor(rows, specs[i].key)).Unreadable?
  }

  /** A row whose key is not among the specs changes nothing. */
  lemma HoldsSkip(f: Floats, specs: seq<Spec>, rows: seq<Row>, d: Dict, r: Row)
    requires Holds(f, specs, rows, d) && forall i | 0 <= i < |specs| :: specs[i].key != r.key
    ensures Holds(f, specs, rows + [r], d)
  {
    hide SaidOf, TextsFor;
    forall i | 0 <= i < |specs|
      ensures TextsFor(rows + [r], specs[i].key) == TextsFor(rows, specs[i].key)
    {
      TextsForSnoc(rows, r, specs[i].key);
    }
  }

  /** One more text for a key. */
  lemma SaidSnoc(f: Floats, s: Spec, texts: seq<string>, t: string)
    requires !SaidOf(f, s, texts).Unreadable?
    ensures SaidOf(f, s, texts + [t]) ==
      if s.typ.ListType? then Says(Tags(texts + [t]))
      else if Construct(f, s.typ, t).None? then Unreadable
      else Says(Construct(f, s.typ, t).value)
  {
    hide Construct;
    assert t in texts + [t];
    forall u | u in texts + [t]
      ensures u in texts || u == t
    {
    }
  }

  /** What rows say of a key that is no list: nothing readable if some text cannot be read, else the value
      of the last text. */
  lemma LastSays(f: Floats, specs: seq<Spec>, rows: seq<Row>, d: Dict, i: nat, j: nat)
    requires Holds(f, specs, rows, d) && i < |specs| && !specs[i].typ.ListType?
    requires j < |rows| && rows[j].key == specs[i].key && forall k :: j < k < |rows| ==> rows[k].key != specs[i].key
    ensures specs[i].key in d && Construct(f, specs[i].typ, rows[j].text) == Some(d[specs[i].key])
  {
    LastText(rows, specs[i].key, j);
    var texts := TextsFor(rows, specs[i].key);
    assert texts[|texts| - 1] in texts;
    hide Construct, TextsFor;
    assert HeldAs(SaidOf(f, specs[i], texts), d, specs[i].key);
  }

  lemma {:induction false} LastText(rows: seq<Row>, key: string, j: nat)
    requires j < |rows| && rows[j].key == key && forall k :: j < k < |rows| ==> rows[k].key != key
    ensures var texts := TextsFor(rows, key); texts != [] && texts[|texts| - 1] == rows[j].text
  {
    var n := |rows| - 1;
    if j < n {
      assert rows[n].key != key;
      LastText(rows[..n], key, j);
    }
  }

  lemma HoldsNext(f: Floats, specs: seq<Spec>, rows: seq<Row>, d: Dict, r: Row, i: nat, v: Value)
    requires Distinct(specs) && Holds(f, specs, rows, d)
    requires i < |specs| && specs[i].key == r.key
    requires SaidOf(f, specs[i], TextsFor(rows, r.key) + [r.text]) == Says(v)
    ensures Holds(f, specs, rows + [r], d[r.key := v])
  {
    hide SaidOf, TextsFor;
    forall j | 0 <= j < |specs|
      ensures j != i ==> specs[j].key != r.key && TextsFor(rows + [r], specs[j].key) == TextsFor(rows, specs[j].key)
      ensures j == i ==> TextsFor(rows + [r], specs[j].key) == TextsFor(rows, r.key) + [r.text]
    {
      TextsForSnoc(rows, r, specs[j].key);
    }
  }

  // ---------------------------------------------------------------- the two methods

  /** Writes the values of all keys as rows, in the order of the specs. */
  method ToDicts(f: Floats, specs: seq<Spec>, m: Dict) returns (result: seq<Row>)
    requires Validated(specs, m)
    ensures result == ToRows(f, specs, m)
  {
    result := [];
    for i := 0 to |specs|
      invariant result == ToRows(f, specs[..i], m)
    {
      var s := specs[i];
      assert specs[..i + 1][..i] == specs[..i];
      ghost var before := result;
      if s.key in m && !m[s.key].Nothing? {
        var values := if s.typ.ListType? then m[s.key].items else [TextOf(f, m[s.key])];
        for j := 0 to |values|
          invariant result == before + RowsOf(s.key, values[..j])
        {
          assert RowsOf(s.key, values[..j + 1]) == RowsOf(s.key, values[..j]) + [Row(s.key, values[j])];
          result := result + [Row(s.key, values[j])];
        }
        assert values[..|values|] == values;
      } else {
        assert result == before + RowsOf(s.key, []);
      }
    }
    assert specs[..|specs|] == specs;
  }

  /** The dictionary before any row is read, and the specs by key. */
  method Defaults(f: Floats, specs: seq<Spec>) returns (dict: Dict, byKey: map<string, Spec>)
    requires Distinct(specs)
    ensures Holds(f, specs, [], dict)
    ensures forall i | 0 <= i < |specs| :: specs[i].key in byKey && byKey[specs[i].key] == specs[i]
    ensures forall k | k in byKey :: byKey[k] in specs && byKey[k].key == k
  {
    dict, byKey := map[], map[];
    for i := 0 to |specs|
      invariant Holds(f, specs[..i], [], dict)
      invariant forall j | 0 <= j < i :: specs[j].key in byKey && byKey[specs[j].key] == specs[j]
      invariant forall k | k in byKey :: byKey[k] in specs && byKey[k].key == k
    {
      ghost var before := dict;
      if specs[i].typ.ListType? || !specs[i].generated {
        dict := dict[specs[i].key := Empty(f, specs[i].typ)];
      }
      byKey := byKey[specs[i].key := specs[i]];
      HoldsOneMore(f, specs, i, before, dict);
    }
    assert specs[..|specs|] == specs;
  }

  lemma HoldsOneMore(f: Floats, specs: seq<Spec>, i: nat, d: Dict, d': Dict)
    requires Distinct(specs) && i < |specs| && Holds(f, specs[..i], [], d)
    requires d' == if specs[i].typ.ListType? || !specs[i].generated then d[specs[i].key := Empty(f, specs[i].typ)] else d
    ensures Holds(f, specs[..i + 1], [], d')
  {
    var more := specs[..i + 1];
    assert !HasKey(specs[..i], specs[i].key);
    assert HeldAs(SaidOf(f, specs[i], []), d', specs[i].key);
    hide SaidOf;
    forall j | 0 <= j < i + 1
      ensures HeldAs(SaidOf(f, more[j], TextsFor([], more[j].key)), d', more[j].key)
    {
      if j < i {
        assert specs[..i][j] == more[j];
      }
    }
    forall k | k in d'
      ensures HasKey(more, k)
    {
      if k in d {
        var j :| 0 <= j < i && specs[..i][j].key == k;
        assert more[j].key == k;
      } else {
        assert more[i].key == k;
      }
    }
  }

  lemma ListIsHeld(f: Floats, s: Spec, texts: seq<string>)
    requires s.typ.ListType?
    ensures SaidOf(f, s, texts) == Says(Tags(texts))
  {
  }

  lemma UnreadableStays(f: Floats, specs: seq<Spec>, rows: seq<Row>, j: nat, i: nat)
    requires j < |rows| && i < |specs| && specs[i].key == rows[j].key && !specs[i].typ.ListType?
    requires Construct(f, specs[i].typ, rows[j].text).None?
    ensures SomeUnreadable(f, specs, rows)
  {
    hide Construct;
    var texts := TextsFor(rows, rows[j].key);
    assert rows[..j + 1] == rows[..j] + [rows[j]];
    TextsForSnoc(rows[..j], rows[j], rows[j].key);
    TextsForMore(rows, j + 1, rows[j].key, rows[j].text);
    assert SaidOf(f, specs[i], texts).Unreadable?;
  }

  /** Reads rows into a dictionary: the values of a list key in order, the last value of any other,
      and the empty value for list keys and keys the user sets when there is no row. It fails
      exactly when some row of a known key cannot be read. */
  method CollapseDicts(f: Floats, specs: seq<Spec>, rows: seq<Row>) returns (r: Result<Dict, Row>)
    requires Distinct(specs)
    ensures r.Ok? ==> Holds(f, specs, rows, r.value)
    ensures r.Err? <==> SomeUnreadable(f, specs, rows)
  {
    hide SaidOf, TextsFor, Construct;
    var dict, byKey := Defaults(f, specs);
    for j := 0 to |rows|
      invariant Holds(f, specs, rows[..j], dict)
    {
      var row := rows[j];
      assert rows[..j + 1] == rows[..j] + [row];
      if row.key !in byKey {
        HoldsSkip(f, specs, rows[..j], dict, row);
        continue;
      }
      var s := byKey[row.key];
      ghost var i :| 0 <= i < |specs| && specs[i] == s;
      ghost var before := dict;
      SaidSnoc(f, s, TextsFor(rows[..j], row.key), row.text);
      if s.typ.ListType? {
        ListIsHeld(f, s, TextsFor(rows[..j], row.key));
        dict := dict[row.key := Tags(dict[row.key].items + [row.text])];
      } else {
        var v := Construct(f, s.typ, row.text);
        if v.None? {
          UnreadableStays(f, specs, rows, j, i);
          return Err(row);
        }
        dict := dict[row.key := v.value];
      }
      HoldsNext(f, specs, rows[..j], before, row, i, dict[row.key]);
    }
    assert rows[..|rows|] == rows;
    r := Ok(dict);
  }

  // ---------------------------------------------------------------- there and back

  lemma ToRowsSnoc(f: Floats, specs: seq<Spec>, s: Spec, m: Dict)
    ensures ToRows(f, specs + [s], m) == ToRows(f, specs, m) + RowsOf(s.key, if s.key in m then TextsOf(f, m[s.key]) else [])
  {
    assert (specs + [s])[..|specs|] == specs;
    hide TextsOf, RowsOf;
  }

  /** Rows come in the order of the specs. */
  lemma {:induction false} RowsInOrder(f: Floats, first: seq<Spec>, later: seq<Spec>, m: Dict)
    ensures ToRows(f, first + later, m) == ToRows(f, first, m) + ToRows(f, later, m)
  {
    if later == [] {
      assert first + later == first;
    } else {
      var n := |later| - 1;
      var s := later[n];
      RowsInOrder(f, first, later[..n], m);
      assert first + later == first + later[..n] + [s] && later == later[..n] + [s];
      hide TextsOf, RowsOf, ToRows;
      ToRowsSnoc(f, first + later[..n], s, m);
      ToRowsSnoc(f, later[..n], s, m);
    }
  }

  lemma {:induction false} TextsForAppend(a: seq<Row>, b: seq<Row>, key: string)
    ensures TextsFor(a + b, key) == TextsFor(a, key) + TextsFor(b, key)
  {
    if b == [] {
      assert a + b == a;
    } else {
      var n := |b| - 1;
      TextsForAppend(a, b[..n], key);
      assert (a + b)[..|a| + n] == a + b[..n];
    }
  }

  lemma {:induction false} TextsForRowsOf(key: string, texts: seq<string>, k: string)
    ensures TextsFor(RowsOf(key, texts), k) == if k == key then texts else []
  {
    if texts != [] {
      var n := |texts| - 1;
      TextsForRowsOf(key, texts[..n], k);
      assert RowsOf(key, texts)[..n] == RowsOf(key, texts[..n]);
      assert texts == texts[..n] + [texts[n]];
    }
  }

  function Stored(f: Floats, m: Dict, key: string): seq<string> {
    if key in m then TextsOf(f, m[key]) else []
  }

  /** The rows written for a key carry its value and nothing else. */
  lemma {:induction false} TextsForWritten(f: Floats, specs: seq<Spec>, m: Dict, key: string)
    requires Distinct(specs)
    ensures TextsFor(ToRows(f, specs, m), key) == if HasKey(specs, key) then Stored(f, m, key) else []
  {
    if specs != [] {
      var n := |specs| - 1;
      var s := specs[n];
      HasKeyLast(specs, key);
      assert ToRows(f, specs, m) == ToRows(f, specs[..n], m) + RowsOf(s.key, Stored(f, m, s.key));
      hide RowsOf, TextsOf, ToRows, TextsFor, HasKey, Stored;
      TextsForWritten(f, specs[..n], m, key);
      TextsForAppend(ToRows(f, specs[..n], m), RowsOf(s.key, Stored(f, m, s.key)), key);
      TextsForRowsOf(s.key, Stored(f, m, s.key), key);
    }
  }

  /** A key belongs to the last spec or to one before, never to both. */
  lemma HasKeyLast(specs: seq<Spec>, key: string)
    requires Distinct(specs) && specs != []
    ensures var n := |specs| - 1;
      && (HasKey(specs, key) <==> HasKey(specs[..n], key) || specs[n].key == key)
      && !(HasKey(specs[..n], key) && specs[n].key == key)
  {
    var n := |specs| - 1;
    if i :| 0 <= i < |specs| && specs[i].key == key {
      assert i < n ==> specs[..n][i].key == key;
    }
    if i :| 0 <= i < n && specs[..n][i].key == key {
      assert specs[i].key == key;
    }
  }

  /** A value that can be read back: one that the validation accepts, and no truth value under a key
      for numbers. */
  predicate Fits(t: Type, v: Value) {
    Accepted(t, v) && !v.Nothing? && !((t.IntType? || t.FloatType?) && v.Truth?)
  }

  /** What is left of a value that was written and read: all of it, except that text loses its
      characters outside ASCII, and that a whole number under a key for floats becomes the float its
      text reads as. */
  function Clean(f: Floats, t: Type, v: Value): Value {
    if v.Text? then Text(Ascii(v.text))
    else if t.FloatType? && v.Whole? then
      var x := f.parse(IntText(v.n));
      if x.Some? then Real(x.value) else v
    else v
  }

  /** What reading back yields for one key. */
  function Back(f: Floats, s: Spec, m: Dict): Said {
    if s.key in m && !m[s.key].Nothing? then Says(Clean(f, s.typ, m[s.key]))
    else if s.typ.ListType? || !s.generated then Says(Empty(f, s.typ))
    else Silent
  }

  /** A value that fits its key is read back from its text. */
  lemma TextReadsBack(f: Floats, t: Type, v: Value)
    requires f.Faithful() && Fits(t, v) && !t.ListType?
    ensures Construct(f, t, TextOf(f, v)) == Some(Clean(f, t, v))
  {
    if v.Whole? {
      hide ParseInt, IntText;
      IntReadsBack(v.n);
    }
  }

  lemma SaidOnce(f: Floats, s: Spec, t: string)
    requires !s.typ.ListType?
    ensures SaidOf(f, s, [t]) == if Construct(f, s.typ, t).None? then Unreadable else Says(Construct(f, s.typ, t).value)
  {
    hide Construct;
    assert [t][0] in [t];
  }

  /** Each value that fits its key comes back, and a missing one as the empty value of its type
      when the key is a list or set by the user. */
  lemma BackIsSaid(f: Floats, specs: seq<Spec>, m: Dict, i: nat)
    requires f.Faithful() && Distinct(specs) && i < |specs|
    requires specs[i].key in m && !m[specs[i].key].Nothing? ==> Fits(specs[i].typ, m[specs[i].key])
    ensures SaidOf(f, specs[i], TextsFor(ToRows(f, specs, m), specs[i].key)) == Back(f, specs[i], m)
  {
    TextsForWritten(f, specs, m, specs[i].key);
    assert HasKey(specs, specs[i].key);
    hide TextsFor, ToRows, Construct, TextOf, Ascii;
    var s := specs[i];
    if s.key in m && !m[s.key].Nothing? && !s.typ.ListType? {
      TextReadsBack(f, s.typ, m[s.key]);
      SaidOnce(f, s, TextOf(f, m[s.key]));
    }
  }

  ghost predicate AllFit(specs: seq<Spec>, m: Dict) {
    forall i | 0 <= i < |specs| && specs[i].key in m && !m[specs[i].key].Nothing? ::
      Fits(specs[i].typ, m[specs[i].key])
  }

  /** The normalized metadata: what comes back for each key, and nothing else. */
  ghost predicate Normalized(f: Floats, specs: seq<Spec>, m: Dict, d: Dict) {
    && (forall i | 0 <= i < |specs| :: HeldAs(Back(f, specs[i], m), d, specs[i].key))
    && (forall k | k in d :: HasKey(specs, k))
  }

  /** Writing metadata as rows and reading the rows yields exactly the normalized metadata. */
  lemma ThereAndBack(f: Floats, specs: seq<Spec>, m: Dict, d: Dict)
    requires f.Faithful() && Distinct(specs) && AllFit(specs, m)
    ensures !SomeUnreadable(f, specs, ToRows(f, specs, m))
    ensures Holds(f, specs, ToRows(f, specs, m), d) <==> Normalized(f, specs, m, d)
  {
    hide SaidOf, TextsFor, ToRows, Fits, HasKey;
    forall i | 0 <= i < |specs|
      ensures SaidOf(f, specs[i], TextsFor(ToRows(f, specs, m), specs[i].key)) == Back(f, specs[i], m)
    {
      BackIsSaid(f, specs, m, i);
    }
  }

  /** What the dictionary read back has for a missing value: an empty list, the empty value of a key the
      user sets, or nothing. */
  ghost predicate FilledIn(f: Floats, s: Spec, d: Dict) {
    if s.typ.ListType? then s.key in d && d[s.key] == Tags([])
    else if s.generated then s.key !in d
    else
      && s.key in d
      && d[s.key] == match s.typ
         case StrType => Text("")
         case IntType => Whole(0)
         case FloatType => Real(f.zero)
         case BoolType => Truth(false)
         case ListType => Tags([])
  }

  /** And for a value: the value itself, but for characters outside ASCII, which become question marks,
      and for whole numbers under a key for floats, which become floats. */
  ghost predicate CameBack(f: Floats, s: Spec, v: Value, d: Dict) {
    && s.key in d
    && match v
       case Text(text) =>
         && d[s.key].Text? && |d[s.key].text| == |text|
         && forall j :: 0 <= j < |text| ==> d[s.key].text[j] == if text[j] as int <= 127 then text[j] else '?'
       case Whole(n) =>
         if s.typ.FloatType? then f.parse(IntText(n)).Some? && d[s.key] == Real(f.parse(IntText(n)).value)
         else d[s.key] == v
       case _ => d[s.key] == v
  }

  /** So each value comes back as it should. */
  lemma WhatComesBack(f: Floats, specs: seq<Spec>, m: Dict, d: Dict, i: nat)
    requires f.Faithful() && Distinct(specs) && AllFit(specs, m) && i < |specs|
    requires Holds(f, specs, ToRows(f, specs, m), d)
    ensures var s := specs[i];
      if s.key in m && !m[s.key].Nothing? then CameBack(f, s, m[s.key], d) else FilledIn(f, s, d)
  {
    hide Floats.Faithful, SaidOf, TextsFor, ToRows, HasKey, Holds, IntText;
    ThereAndBack(f, specs, m, d);
    assert HeldAs(Back(f, specs[i], m), d, specs[i].key);
    FloatsRead(f, specs[i].key, m);
  }

  lemma FloatsRead(f: Floats, key: string, m: Dict)
    requires f.Faithful()
    ensures key in m && m[key].Whole? ==> f.parse(IntText(m[key].n)).Some?
  {
  }

  /** Doing it again changes nothing. */
  lemma AgainIsTheSame(f: Floats, specs: seq<Spec>, m: Dict, d: Dict, e: Dict)
    requires f.Faithful() && Distinct(specs) && AllFit(specs, m)
    requires Holds(f, specs, ToRows(f, specs, m), d) && Holds(f, specs, ToRows(f, specs, d), e)
    ensures e == d
  {
    hide SaidOf, TextsFor, ToRows, HasKey, Floats.Faithful;
    ThereAndBack(f, specs, m, d);
    forall i | 0 <= i < |specs| && specs[i].key in d
      ensures Fits(specs[i].typ, d[specs[i].key]) && Clean(f, specs[i].typ, d[specs[i].key]) == d[specs[i].key]
    {
      BackFits(f, specs[i], m);
    }
    hide Holds, Fits, Clean;
    ThereAndBack(f, specs, d, e);
    assert forall i | 0 <= i < |specs| :: HeldAs(Back(f, specs[i], d), d, specs[i].key);
    assert Normalized(f, specs, d, d);
    ThereAndBack(f, specs, d, d);
    HoldsUnique(f, specs, ToRows(f, specs, d), d, e);
  }

  lemma BackFits(f: Floats, s: Spec, m: Dict)
    requires f.Faithful() && (s.key in m && !m[s.key].Nothing? ==> Fits(s.typ, m[s.key]))
    ensures Back(f, s, m).Says? ==> Fits(s.typ, Back(f, s, m).value) && Clean(f, s.typ, Back(f, s, m).value) == Back(f, s, m).value
  {
    if s.key in m && m[s.key].Text? {
      var t := m[s.key].text;
      assert Ascii(Ascii(t)) == Ascii(t);
    }
  }

  /** Validated metadata is written to rows that can be read back exactly when no key for numbers
      holds a truth value, which the validation lets pass. */
  lemma ReadableIff(f: Floats, specs: seq<Spec>, m: Dict)
    requires f.Faithful() && Distinct(specs) && Validated(specs, m)
    ensures SomeUnreadable(f, specs, ToRows(f, specs, m)) <==>
      exists i | 0 <= i < |specs| :: TruthForNumber(specs[i], m)
  {
    hide SaidOf, TextsFor, ToRows;
    forall i | 0 <= i < |specs|
      ensures SaidOf(f, specs[i], TextsFor(ToRows(f, specs, m), specs[i].key)).Unreadable? <==>
        TruthForNumber(specs[i], m)
    {
      UnreadableWritten(f, specs, m, i);
    }
  }

  predicate TruthForNumber(s: Spec, m: Dict) {
    (s.typ.IntType? || s.typ.FloatType?) && s.key in m && m[s.key].Truth?
  }

  lemma UnreadableWritten(f: Floats, specs: seq<Spec>, m: Dict, i: nat)
    requires f.Faithful() && Distinct(specs) && Validated(specs, m) && i < |specs|
    ensures SaidOf(f, specs[i], TextsFor(ToRows(f, specs, m), specs[i].key)).Unreadable? <==>
      TruthForNumber(specs[i], m)
  {
    TextsForWritten(f, specs, m, specs[i].key);
    assert HasKey(specs, specs[i].key);
    hide TextsFor, ToRows;
    var s := specs[i];
    if s.key in m && !m[s.key].Nothing? && !s.typ.ListType? {
      hide SaidOf, Construct, TextOf;
      SaidOnce(f, s, TextOf(f, m[s.key]));
      TextReadable(f, s.typ, m[s.key]);
    }
  }

  lemma TextReadable(f: Floats, t: Type, v: Value)
    requires f.Faithful() && Accepted(t, v) && !t.ListType? && !v.Nothing?
    ensures Construct(f, t, TextOf(f, v)).None? <==> (t.IntType? || t.FloatType?) && v.Truth?
  {
    NamesAreNoNumbers();
    hide ParseInt, IntText, Ascii;
    if v.Whole? {
      IntReadsBack(v.n);
    }
  }
}
