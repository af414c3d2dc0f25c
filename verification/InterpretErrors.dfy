/** Exactly when an item of a worksheet is an error: its group of bundles cannot be shown as its
    display says, or it is a directive that is not understood where it stands. */
module InterpretErrors {
  import opened Common
  import opened Interpret
  import opened InterpretAlign

  /** A file after the mode, properties after the file, and a whole number of lines where they count. */
  predicate ArgsFine(r: Renderer, args: seq<string>, maxlines: bool) {
    && |args| > 0 && args[0] != "" && args[0][0] == '/'
    && (forall k :: 1 <= k < |args| ==> '=' in args[k])
    && (maxlines ==> r.intMaxlines(args[1..]))
  }

  /** A group of bundles can be shown. */
  ghost predicate GroupFine(r: Renderer, schemas: Schemas, display: seq<string>, bundles: seq<Bundle>) {
    && display != []
    && var mode, args := display[0], display[1..];
       || mode == "hidden"
       || ((mode == "table" || mode == "record") && forall b :: b in bundles ==> !r.fails(schemas, display, b))
       || (mode == "graph" && ArgsFine(r, args, true) && forall b :: b in bundles ==> !r.fails(schemas, display, b))
       || (mode == "contents" && (ArgsFine(r, args, true) || forall b :: b in bundles ==> !b.hasMetadata))
       || (mode == "image" && (ArgsFine(r, args, false) || forall b :: b in bundles ==> !b.hasMetadata))
  }

  lemma ArgsIff(r: Renderer, args: seq<string>, maxlines: bool)
    ensures FileArgsOk(r, args, maxlines) <==> ArgsFine(r, args, maxlines)
  {
    if |args| > 0 {
      assert forall k :: 1 <= k < |args| ==> args[k] == args[1..][k - 1];
      assert forall a :: a in args[1..] <==> exists k :: 1 <= k < |args| && args[k] == a;
    }
  }

  lemma {:induction false} EachFails(r: Renderer, schemas: Schemas, display: seq<string>, start: int, bundles: seq<Bundle>)
    requires display != []
    ensures EachFlushed(r, schemas, display, start, bundles).1 <==>
      exists b :: b in bundles && OneFlushed(r, schemas, display, start, b).None?
  {
    hide OneFlushed;
    if bundles != [] {
      EachFails(r, schemas, display, start, bundles[1..]);
      assert bundles == [bundles[0]] + bundles[1..];
    }
  }

  lemma OneFails(r: Renderer, schemas: Schemas, display: seq<string>, start: int, b: Bundle)
    requires display != [] && (display[0] == "contents" || display[0] == "image" || display[0] == "record")
    ensures OneFlushed(r, schemas, display, start, b).None? <==>
      if display[0] == "record" then r.fails(schemas, display, b)
      else b.hasMetadata && !ArgsFine(r, display[1..], display[0] == "contents")
  {
    ArgsIff(r, display[1..], display[0] == "contents");
    hide FileArgsOk, ArgsFine;
  }

  /** A group is shown without an error exactly when it can be. */
  lemma GroupFineIff(r: Renderer, schemas: Schemas, display: seq<string>, start: int, bundles: seq<Bundle>)
    requires bundles != []
    ensures Flushed(r, schemas, display, start, bundles).1 <==> !GroupFine(r, schemas, display, bundles)
  {
    if display != [] {
      var mode := display[0];
      ArgsIff(r, display[1..], true);
      hide FileArgsOk, ArgsFine, OneFlushed, EachFlushed;
      if mode == "contents" || mode == "image" || mode == "record" {
        EachFails(r, schemas, display, start, bundles);
        forall b
          ensures OneFlushed(r, schemas, display, start, b).None? <==>
            if mode == "record" then r.fails(schemas, display, b)
            else b.hasMetadata && !ArgsFine(r, display[1..], mode == "contents")
        {
          OneFails(r, schemas, display, start, b);
        }
      }
    }
  }

  /** A directive is understood: `current` tells whether a schema is being defined. */
  predicate DirectiveFine(current: bool, known: set<string>, tokens: seq<string>) {
    || tokens == []
    || tokens[0] in {"", "%", "display", "search", "wsearch"}
    || (tokens[0] == "schema" && |tokens| > 1)
    || (tokens[0] == "addschema" && current && |tokens| > 1 && tokens[1] in known)
    || (tokens[0] == "add" && current && 2 <= |tokens| <= 4)
  }

  lemma DirectiveFineIff(s: State, tokens: seq<string>, id: nat)
    ensures PlacedDirective(s, tokens, id).raised <==> !DirectiveFine(s.current.Some?, s.schemas.Keys, tokens)
  {
    hide SchemaFields;
  }

  /** The bundles that stand directly before item `n`. */
  function BundlesBefore(items: seq<Item>, n: nat): seq<Bundle>
    requires n <= |items|
  {
    if n == 0 || !items[n - 1].BundleItem? then [] else BundlesBefore(items, n - 1) + [items[n - 1].bundle]
  }

  /** Whether a schema is being defined before item `n`: the directive before begins one or adds to one. */
  predicate SchemaBefore(items: seq<Item>, n: nat)
    requires n <= |items|
  {
    n > 0 && (IsCommand(items[n - 1], "schema") || IsCommand(items[n - 1], "add") || IsCommand(items[n - 1], "addschema"))
  }

  /** What is held back before item `n` of an error-free beginning. */
  ghost predicate HeldBefore(s: State, items: seq<Item>, n: nat)
    requires n <= |items|
  {
    s.bundles == BundlesBefore(items, n) && (s.current.Some? <==> SchemaBefore(items, n))
  }

  lemma StepHolds(r: Renderer, s: State, items: seq<Item>, n: nat)
    requires n < |items| && HeldBefore(s, items, n) && OneKind(s, n)
    requires !Opened(r, s, items[n]).raised && !Placed(Opened(r, s, items[n]).s, n, items[n]).raised
    ensures HeldBefore(Placed(Opened(r, s, items[n]).s, n, items[n]).s, items, n + 1)
  {
    OpenedHeld(r, s, n, items[n]);
    hide Opened, OneKind;
    PlacedHeld(Opened(r, s, items[n]).s, n, items[n]);
    hide Placed;
  }

  lemma OpenedHeld(r: Renderer, s: State, n: nat, item: Item)
    requires OneKind(s, n) && !Opened(r, s, item).raised
    ensures var t := Opened(r, s, item).s;
      && t.bundles == (if item.BundleItem? then s.bundles else [])
      && (t.current.Some? <==> s.current.Some? && (IsCommand(item, "add") || IsCommand(item, "addschema")))
  {
    hide Flushed, SchemaFields;
  }

  lemma PlacedHeld(s: State, n: nat, item: Item)
    requires !Placed(s, n, item).raised
    ensures var t := Placed(s, n, item).s;
      && t.bundles == (if item.BundleItem? then s.bundles + [item.bundle] else s.bundles)
      && (t.current.Some? <==> s.current.Some? || IsCommand(item, "schema"))
      && (IsCommand(item, "add") || IsCommand(item, "addschema") ==> s.current.Some?)
  {
    hide SchemaFields;
  }

  lemma InitialHeld(schemas: Schemas, items: seq<Item>)
    ensures HeldBefore(Initial(schemas), items, 0)
  {
  }

  lemma {:induction false} HeldOverRuns(r: Renderer, schemas: Schemas, items: seq<Item>, n: nat)
    requires n < |items| && forall i :: 0 <= i < n ==> Fine(r, schemas, items, i)
    ensures HeldBefore(After(r, schemas, items, n), items, n) && OneKind(After(r, schemas, items, n), n)
    ensures After(r, schemas, items, n).display == DisplayAt(items, n)
  {
    hide Tidy, OneKind, DisplayAt, Opened, Placed, Closed, Fine, EmptyAfter, HeldBefore, Step, Initial;
    TidyRun(r, schemas, items, n);
    TidyIs(After(r, schemas, items, n), items, n);
    if n == 0 {
      InitialHeld(schemas, items);
    } else {
      HeldOverRuns(r, schemas, items, n - 1);
      assert Fine(r, schemas, items, n - 1);
      FineParts(r, schemas, items, n - 1);
      hide After;
      var s := After(r, schemas, items, n - 1);
      StepHolds(r, s, items, n - 1);
      HeldIgnores(Placed(Opened(r, s, items[n - 1]).s, n - 1, items[n - 1]).s, After(r, schemas, items, n), items, n);
    }
  }

  lemma TidyIs(s: State, items: seq<Item>, n: nat)
    requires Tidy(s, items, n)
    ensures OneKind(s, n) && s.display == DisplayAt(items, n)
  {
  }

  lemma HeldIgnores(s: State, t: State, items: seq<Item>, n: nat)
    requires n <= |items| && HeldBefore(s, items, n) && t == s.(lastEmpty := t.lastEmpty)
    ensures HeldBefore(t, items, n)
  {
  }

  lemma FineParts(r: Renderer, schemas: Schemas, items: seq<Item>, n: nat)
    requires n < |items|
    ensures var s := After(r, schemas, items, n);
      var t := Opened(r, s, items[n]);
      var u := Placed(t.s, n, items[n]);
      && (Fine(r, schemas, items, n) <==> !t.raised && !u.raised && (n + 1 == |items| ==> !Closed(r, u.s).raised))
      && (Fine(r, schemas, items, n) && n + 1 < |items| ==>
            After(r, schemas, items, n + 1) == u.s.(lastEmpty := EmptyAfter(r, s, items[n])))
  {
    hide Opened, Placed, Closed, EmptyAfter;
  }

  /** What item `n` asks for: that the group before it can be shown, unless it belongs to it; that it is
      understood, if it is a directive; and that its own group can be shown, if it is the last item. */
  ghost predicate ItemFine(r: Renderer, schemas: Schemas, items: seq<Item>, n: nat)
    requires n < |items|
  {
    var group := BundlesBefore(items, n);
    && (!items[n].BundleItem? && group != [] ==> GroupFine(r, schemas, DisplayAt(items, n), group))
    && (items[n].DirectiveItem? ==>
          DirectiveFine(SchemaBefore(items, n) && (IsCommand(items[n], "add") || IsCommand(items[n], "addschema")),
                        schemas.Keys, items[n].tokens))
    && (items[n].BundleItem? && n + 1 == |items| ==>
          GroupFine(r, schemas, DisplayAt(items, n), group + [items[n].bundle]))
  }

  lemma OpenedFails(r: Renderer, s: State, item: Item)
    ensures Opened(r, s, item).raised <==>
      !item.BundleItem? && s.bundles != [] && !GroupFine(r, s.schemas, s.display, s.bundles)
    ensures !Opened(r, s, item).raised ==> Opened(r, s, item).s.schemas == s.schemas
    ensures item.BundleItem? ==> Opened(r, s, item).s.display == s.display
  {
    if s.bundles != [] {
      GroupFineIff(r, s.schemas, s.display, s.start, s.bundles);
    }
    hide Flushed, GroupFine, SchemaFields;
  }

  lemma PlacedFails(s: State, n: nat, item: Item)
    ensures Placed(s, n, item).raised <==>
      item.DirectiveItem? && !DirectiveFine(s.current.Some?, s.schemas.Keys, item.tokens)
    ensures item.BundleItem? ==>
      var t := Placed(s, n, item).s; t.bundles == s.bundles + [item.bundle] && t.display == s.display && t.schemas == s.schemas
    ensures !item.BundleItem? ==> Placed(s, n, item).s.bundles == s.bundles
  {
    if item.DirectiveItem? {
      DirectiveFineIff(s, item.tokens, item.id);
      DirectiveBundles(s, item.tokens, item.id);
    }
    hide PlacedDirective, DirectiveFine, Joins;
  }

  lemma DirectiveBundles(s: State, tokens: seq<string>, id: nat)
    ensures PlacedDirective(s, tokens, id).s.bundles == s.bundles
  {
    hide SchemaFields;
  }

  lemma ClosedFails(r: Renderer, s: State)
    ensures Closed(r, s).raised <==> s.bundles != [] && !GroupFine(r, s.schemas, s.display, s.bundles)
  {
    if s.bundles != [] {
      GroupFineIff(r, s.schemas, s.display, s.start, s.bundles);
    }
    hide Flushed, GroupFine, SchemaFields;
  }

  /** After an error-free beginning an item is interpreted without an error exactly when what it asks for
      holds, under the schemas known then. */
  lemma FineExactly(r: Renderer, schemas: Schemas, items: seq<Item>, n: nat)
    requires n < |items| && forall i :: 0 <= i < n ==> Fine(r, schemas, items, i)
    ensures Fine(r, schemas, items, n) <==> ItemFine(r, After(r, schemas, items, n).schemas, items, n)
  {
    HeldOverRuns(r, schemas, items, n);
    FineParts(r, schemas, items, n);
    var s, item := After(r, schemas, items, n), items[n];
    var t := Opened(r, s, item);
    OpenedFails(r, s, item);
    PlacedFails(t.s, n, item);
    ClosedFails(r, Placed(t.s, n, item).s);
    if !t.raised {
      OpenedHeld(r, s, n, item);
    }
    hide After, Fine, Opened, Placed, Closed, EmptyAfter, OneKind, DirectiveFine, GroupFine, IsCommand, DisplayAt;
  }

  /** The schemas that directives before item `n` define. */
  function Defined(items: seq<Item>, n: nat): set<string>
    requires n <= |items|
  {
    set i | 0 <= i < n && IsCommand(items[i], "schema") && |items[i].tokens| > 1 :: items[i].tokens[1]
  }

  lemma DefinedNext(items: seq<Item>, n: nat)
    requires n < |items|
    ensures Defined(items, n + 1) == Defined(items, n) +
      if IsCommand(items[n], "schema") && |items[n].tokens| > 1 then {items[n].tokens[1]} else {}
  {
    forall name | name in Defined(items, n + 1)
      ensures name in Defined(items, n) || (IsCommand(items[n], "schema") && |items[n].tokens| > 1 && name == items[n].tokens[1])
    {
      var i :| 0 <= i < n + 1 && IsCommand(items[i], "schema") && |items[i].tokens| > 1 && items[i].tokens[1] == name;
      if i < n {
        assert items[i].tokens[1] in Defined(items, n);
      }
    }
  }

  lemma PlacedNames(s: State, n: nat, item: Item)
    requires !Placed(s, n, item).raised && (s.current.Some? ==> s.current.value in s.schemas)
    ensures var t := Placed(s, n, item).s;
      && t.schemas.Keys == s.schemas.Keys +
           (if IsCommand(item, "schema") && |item.tokens| > 1 then {item.tokens[1]} else {})
      && (t.current.Some? ==> t.current.value in t.schemas)
  {
    hide SchemaFields;
  }

  lemma OpenedCurrent(r: Renderer, s: State, item: Item)
    ensures var t := Opened(r, s, item).s; t.current.Some? ==> t.current == s.current
  {
    hide Flushed, SchemaFields;
  }

  /** Known are the schemas the worksheet began with and those defined before, and the one being defined
      is one of them. */
  ghost predicate Knows(s: State, schemas: Schemas, items: seq<Item>, n: nat)
    requires n <= |items|
  {
    s.schemas.Keys == schemas.Keys + Defined(items, n) && (s.current.Some? ==> s.current.value in s.schemas)
  }

  lemma KnowsAtFirst(schemas: Schemas, items: seq<Item>)
    ensures Knows(Initial(schemas), schemas, items, 0)
  {
    assert Defined(items, 0) == {};
  }

  lemma KnowsNext(r: Renderer, s: State, schemas: Schemas, items: seq<Item>, n: nat)
    requires n < |items| && Knows(s, schemas, items, n)
    requires !Opened(r, s, items[n]).raised && !Placed(Opened(r, s, items[n]).s, n, items[n]).raised
    ensures Knows(Placed(Opened(r, s, items[n]).s, n, items[n]).s, schemas, items, n + 1)
  {
    hide Opened, Placed, Defined, IsCommand, GroupFine;
    OpenedFails(r, s, items[n]);
    OpenedCurrent(r, s, items[n]);
    PlacedNames(Opened(r, s, items[n]).s, n, items[n]);
    DefinedNext(items, n);
  }

  lemma KnowsIgnores(s: State, t: State, schemas: Schemas, items: seq<Item>, n: nat)
    requires n <= |items| && Knows(s, schemas, items, n) && t == s.(lastEmpty := t.lastEmpty)
    ensures Knows(t, schemas, items, n)
  {
  }

  lemma {:induction false} KnownSchemas(r: Renderer, schemas: Schemas, items: seq<Item>, n: nat)
    requires n < |items| && forall i :: 0 <= i < n ==> Fine(r, schemas, items, i)
    ensures Knows(After(r, schemas, items, n), schemas, items, n)
  {
    hide Opened, Placed, Closed, Fine, EmptyAfter, Step, Knows, Initial;
    if n == 0 {
      KnowsAtFirst(schemas, items);
    } else {
      KnownSchemas(r, schemas, items, n - 1);
      assert Fine(r, schemas, items, n - 1);
      FineParts(r, schemas, items, n - 1);
      hide After;
      var s := After(r, schemas, items, n - 1);
      KnowsNext(r, s, schemas, items, n - 1);
      KnowsIgnores(Placed(Opened(r, s, items[n - 1]).s, n - 1, items[n - 1]).s, After(r, schemas, items, n), schemas, items, n);
    }
  }

  /** An error drops whatever is held back and leaves a notice, which is where its item is found. */
  lemma ErrorLeaves(r: Renderer, schemas: Schemas, items: seq<Item>, n: nat)
    requires n < |items| && !Fine(r, schemas, items, n)
    ensures var s, t := After(r, schemas, items, n), After(r, schemas, items, n + 1);
      && t.bundles == [] && t.worksheets == [] && t.current == None
      && t.blocks != [] && t.blocks[|t.blocks| - 1] == ERROR
      && t.rawToBlock != [] && t.rawToBlock[|t.rawToBlock| - 1] == Some((|t.blocks| - 1, 0))
  {
    hide Attempt, EmptyAfter;
  }
}
