/** How an error-free interpretation groups items: neighbours of one kind share a block, anything
    else begins a new one, and a schema collects the fields added to it in order. */
module InterpretGroups {
  import opened Common
  import opened Interpret
  import opened InterpretAlign

  // ---------------------------------------------------------------- positions stay

  lemma StepGrows(r: Renderer, s: State, index: nat, item: Item, last: bool)
    ensures s.rawToBlock <= Step(r, s, index, item, last).rawToBlock
  {
    hide Opened, Placed, Closed, EmptyAfter;
    OpenedKeeps(r, s, item);
    var t := Opened(r, s, item).s;
    PlacedGrows(t, index, item);
    ClosedKeeps(r, Placed(t, index, item).s);
  }

  lemma PlacedGrows(s: State, index: nat, item: Item)
    ensures s.rawToBlock <= Placed(s, index, item).s.rawToBlock
  {
  }

  lemma {:induction false} PositionStays(r: Renderer, schemas: Schemas, items: seq<Item>, m: nat, n: nat)
    requires m <= n <= |items|
    ensures After(r, schemas, items, m).rawToBlock <= After(r, schemas, items, n).rawToBlock
  {
    hide Step;
    if m < n {
      PositionStays(r, schemas, items, m, n - 1);
      StepGrows(r, After(r, schemas, items, n - 1), n - 1, items[n - 1], n == |items|);
    }
  }

  /** The state after item `n` has been opened and placed, before the closing flush if it is the last. */
  function Reached(r: Renderer, schemas: Schemas, items: seq<Item>, n: nat): State
    requires n < |items|
  {
    Placed(Opened(r, After(r, schemas, items, n), items[n]).s, n, items[n]).s
  }

  lemma FineFacts(r: Renderer, schemas: Schemas, items: seq<Item>, n: nat)
    requires n < |items| && Fine(r, schemas, items, n)
    ensures var s := After(r, schemas, items, n);
      && !Opened(r, s, items[n]).raised && !Placed(Opened(r, s, items[n]).s, n, items[n]).raised
      && (n + 1 == |items| ==> !Closed(r, Reached(r, schemas, items, n)).raised)
      && (n + 1 == |items| ==>
            After(r, schemas, items, n + 1) ==
              Closed(r, Reached(r, schemas, items, n)).s.(lastEmpty := EmptyAfter(r, s, items[n])))
      && (n + 1 < |items| ==>
            After(r, schemas, items, n + 1) == Reached(r, schemas, items, n).(lastEmpty := EmptyAfter(r, s, items[n])))
  {
    hide Opened, Placed, Closed, EmptyAfter;
  }

  /** The position of an item is the one recorded when it was placed. */
  lemma PositionRecorded(r: Renderer, schemas: Schemas, items: seq<Item>, n: nat)
    requires n < |items| && ErrorFree(r, schemas, items)
    ensures var s, final := After(r, schemas, items, n), After(r, schemas, items, |items|);
      && |s.rawToBlock| == n && |final.rawToBlock| == |items|
      && |Reached(r, schemas, items, n).rawToBlock| == n + 1
      && final.rawToBlock[n] == Reached(r, schemas, items, n).rawToBlock[n]
  {
    hide After, Opened, Placed, Closed, EmptyAfter, Fine, ErrorFree;
    FineAll(r, schemas, items, |items| - 1);
    FineFacts(r, schemas, items, n);
    FineFacts(r, schemas, items, |items| - 1);
    NoExtra(r, schemas, items);
    OnePositionEach(r, schemas, items, n);
    OnePositionEach(r, schemas, items, |items|);
    PositionStays(r, schemas, items, n + 1, |items|);
    var s := After(r, schemas, items, n);
    OpenedKeeps(r, s, items[n]);
    PlacedKeeps(Opened(r, s, items[n]).s, n, items[n]);
    ClosedKeeps(r, Reached(r, schemas, items, n));
  }

  lemma NoExtra(r: Renderer, schemas: Schemas, items: seq<Item>)
    requires items != [] && Fine(r, schemas, items, |items| - 1)
    ensures !ClosingFails(r, schemas, items)
  {
    hide After, Opened, Placed, Closed;
  }

  // ---------------------------------------------------------------- neighbours

  /** Items that are shown together with neighbours of their kind. */
  predicate Groups(item: Item) {
    item.BundleItem? || item.SubworksheetItem? || (item.MarkupItem? && item.text != "")
  }

  predicate SameGroup(a: Item, b: Item) {
    || (a.BundleItem? && b.BundleItem?)
    || (a.SubworksheetItem? && b.SubworksheetItem?)
    || (a.MarkupItem? && b.MarkupItem? && a.text != "" && b.text != "")
  }

  /** What the item before leaves behind. */
  lemma LeftBehind(r: Renderer, schemas: Schemas, items: seq<Item>, n: nat)
    requires 0 < n < |items| && Fine(r, schemas, items, n - 1)
    ensures var s := After(r, schemas, items, n);
      && (!items[n - 1].BundleItem? ==> s.bundles == [])
      && (!items[n - 1].SubworksheetItem? ==> s.worksheets == [])
      && (s.lastEmpty <==> !(items[n - 1].MarkupItem? && items[n - 1].text != ""))
  {
    hide After, Fine, Opened, Placed, Closed;
    FineFacts(r, schemas, items, n - 1);
    var s, item := After(r, schemas, items, n - 1), items[n - 1];
    OpenedLeaves(r, s, item);
    PlacedLeaves(Opened(r, s, item).s, n - 1, item);
  }

  lemma OpenedLeaves(r: Renderer, s: State, item: Item)
    requires !Opened(r, s, item).raised
    ensures var t := Opened(r, s, item).s;
      (!item.BundleItem? ==> t.bundles == []) && (!item.SubworksheetItem? ==> t.worksheets == [])
  {
    hide Flushed, SchemaFields;
  }

  lemma PlacedLeaves(s: State, index: nat, item: Item)
    requires !Placed(s, index, item).raised
    ensures var t := Placed(s, index, item).s;
      (!item.BundleItem? ==> t.bundles == s.bundles) && (!item.SubworksheetItem? ==> t.worksheets == s.worksheets)
  {
  }

  /** Opening the second of two neighbours flushes nothing. */
  lemma OpenedNeighbour(r: Renderer, s: State, n: int, item: Item)
    requires OneKind(s, n) && !Opened(r, s, item).raised
    requires item.BundleItem? ==> s.worksheets == [] && s.current.None?
    requires item.SubworksheetItem? ==> s.bundles == [] && s.current.None?
    requires item.MarkupItem? ==> s.bundles == [] && s.worksheets == [] && s.current.None?
    requires Groups(item)
    ensures var t := Opened(r, s, item).s; t.blocks == s.blocks && t.bundles == s.bundles && t.worksheets == s.worksheets
  {
  }

  /** Where an opened item is placed. */
  lemma PlacedWhere(s: State, n: nat, item: Item)
    requires Groups(item) && |s.rawToBlock| == n
    ensures var t, b := Placed(s, n, item).s, |s.blocks|;
      && |t.rawToBlock| == n + 1
      && (item.BundleItem? ==> t.rawToBlock[n] == Some((b, |s.bundles|)) && t.blocks == s.blocks && |t.bundles| == |s.bundles| + 1)
      && (item.SubworksheetItem? ==>
            t.rawToBlock[n] == Some((b, |s.worksheets|)) && t.blocks == s.blocks && |t.worksheets| == |s.worksheets| + 1)
      && (item.MarkupItem? ==>
            && t.rawToBlock[n] == Some((if Joins(s, item.text) then b - 1 else b, 0))
            && |t.blocks| == (if Joins(s, item.text) then b else b + 1) && t.blocks[|t.blocks| - 1].Markup?
            && t.bundles == s.bundles && t.worksheets == s.worksheets && t.current == s.current)
  {
  }

  /** What a grouped item leaves held back. */
  lemma PlacedHolds(s: State, n: nat, item: Item)
    requires Groups(item) && Cleared(s, n, item)
    ensures var t := Placed(s, n, item).s;
      && (item.BundleItem? ==> t.worksheets == [] && t.current.None?)
      && (item.SubworksheetItem? ==> t.bundles == [] && t.current.None?)
      && (item.MarkupItem? ==> t.bundles == [] && t.worksheets == [] && t.current.None?)
  {
  }

  /** Where a grouped item has been placed, seen from the state after it. */
  ghost predicate JustPlaced(t: State, n: nat, item: Item) {
    && |t.rawToBlock| == n + 1
    && (item.BundleItem? ==>
          t.bundles != [] && t.rawToBlock[n] == Some((|t.blocks|, |t.bundles| - 1)) && t.worksheets == [] && t.current.None?)
    && (item.SubworksheetItem? ==>
          t.worksheets != [] && t.rawToBlock[n] == Some((|t.blocks|, |t.worksheets| - 1)) && t.bundles == [] && t.current.None?)
    && (item.MarkupItem? ==>
          && t.blocks != [] && t.rawToBlock[n] == Some((|t.blocks| - 1, 0)) && t.blocks[|t.blocks| - 1].Markup?
          && t.bundles == [] && t.worksheets == [] && t.current.None? && !t.lastEmpty)
  }

  lemma PlacedFirst(r: Renderer, schemas: Schemas, items: seq<Item>, n: nat)
    requires ErrorFree(r, schemas, items) && n + 1 < |items| && Groups(items[n])
    ensures JustPlaced(After(r, schemas, items, n + 1), n, items[n])
  {
    assert Fine(r, schemas, items, n);
    PositionRecorded(r, schemas, items, n);
    FineFacts(r, schemas, items, n);
    TidyRun(r, schemas, items, n);
    LeftBehind(r, schemas, items, n + 1);
    var s := After(r, schemas, items, n);
    OneKindOf(s, items, n);
    hide After, Fine, ErrorFree, Tidy, EmptyAfter;
    OpenedCleared(r, s, n, items[n]);
    OpenedKeeps(r, s, items[n]);
    hide Opened;
    var s1 := Opened(r, s, items[n]).s;
    PlacedWhere(s1, n, items[n]);
    PlacedHolds(s1, n, items[n]);
    hide Placed, Cleared, OneKind;
  }

  /** The second of two neighbours, opened and placed. */
  lemma PlacedSecond(r: Renderer, t: State, n: nat, first: Item, item: Item)
    requires JustPlaced(t, n, first) && SameGroup(first, item) && OneKind(t, n + 1) && !Opened(r, t, item).raised
    ensures var u := Placed(Opened(r, t, item).s, n + 1, item).s;
      && |u.rawToBlock| == n + 2 && t.rawToBlock[n].Some?
      && u.rawToBlock[n + 1] ==
           Some((t.rawToBlock[n].value.0, t.rawToBlock[n].value.1 + if item.MarkupItem? then 0 else 1))
  {
    OpenedNeighbour(r, t, n + 1, item);
    OpenedKeeps(r, t, item);
    hide Opened, OneKind;
    PlacedWhere(Opened(r, t, item).s, n + 1, item);
    hide Placed;
  }

  lemma SecondReached(r: Renderer, schemas: Schemas, items: seq<Item>, n: nat)
    requires ErrorFree(r, schemas, items) && n + 1 < |items| && SameGroup(items[n], items[n + 1])
    ensures var t, u := After(r, schemas, items, n + 1), Reached(r, schemas, items, n + 1);
      && |t.rawToBlock| == n + 1 && |u.rawToBlock| == n + 2 && t.rawToBlock[n].Some?
      && u.rawToBlock[n + 1] ==
           Some((t.rawToBlock[n].value.0, t.rawToBlock[n].value.1 + if items[n].MarkupItem? then 0 else 1))
  {
    hide After, Fine, ErrorFree, Placed, Opened, Tidy, OneKind, EmptyAfter, JustPlaced, Closed;
    FineAll(r, schemas, items, n + 1);
    GroupsBoth(items[n], items[n + 1]);
    PlacedFirst(r, schemas, items, n);
    FineFacts(r, schemas, items, n + 1);
    TidyRun(r, schemas, items, n + 1);
    var t := After(r, schemas, items, n + 1);
    OneKindOf(t, items, n + 1);
    RecordedSoFar(t, n, items[n]);
    hide SameGroup, Groups;
    PlacedSecond(r, t, n, items[n], items[n + 1]);
  }

  lemma FineAll(r: Renderer, schemas: Schemas, items: seq<Item>, n: nat)
    requires ErrorFree(r, schemas, items) && n < |items|
    ensures forall i :: 0 <= i <= n ==> Fine(r, schemas, items, i)
  {
  }

  lemma GroupsBoth(a: Item, b: Item)
    requires SameGroup(a, b)
    ensures Groups(a) && Groups(b) && (a.MarkupItem? <==> b.MarkupItem?)
  {
  }

  lemma RecordedSoFar(t: State, n: nat, item: Item)
    requires JustPlaced(t, n, item)
    ensures |t.rawToBlock| == n + 1
  {
  }

  /** Neighbours of one kind share a block: bundles and subworksheets in the next row, lines of markup
      in the same paragraph. */
  lemma NeighboursShare(r: Renderer, schemas: Schemas, items: seq<Item>, n: nat)
    requires ErrorFree(r, schemas, items) && n + 1 < |items| && SameGroup(items[n], items[n + 1])
    ensures var ps := After(r, schemas, items, |items|).rawToBlock;
      && |ps| == |items| && ps[n].Some?
      && ps[n + 1] == Some((ps[n].value.0, ps[n].value.1 + if items[n].MarkupItem? then 0 else 1))
  {
    hide *;
    SecondReached(r, schemas, items, n);
    PositionRecorded(r, schemas, items, n + 1);
    PositionStays(r, schemas, items, n + 1, |items|);
  }

  lemma OneKindOf(s: State, items: seq<Item>, n: nat)
    requires Tidy(s, items, n)
    ensures OneKind(s, n)
  {
  }

  /** An item whose neighbour before it is of another kind begins a new block, past all blocks that
      show an item before it. */
  lemma OthersBegin(r: Renderer, schemas: Schemas, items: seq<Item>, n: nat, j: nat)
    requires ErrorFree(r, schemas, items) && 0 < n < |items| && Groups(items[n]) && !SameGroup(items[n - 1], items[n])
    requires j < n && Tracked(items, j)
    ensures var ps := After(r, schemas, items, |items|).rawToBlock;
      |ps| == |items| && ps[j].Some? && ps[n].Some? && ps[n].value.1 == 0 && ps[j].value.0 < ps[n].value.0
  {
    assert Fine(r, schemas, items, n) && Fine(r, schemas, items, n - 1);
    PositionRecorded(r, schemas, items, n);
    FineFacts(r, schemas, items, n);
    TidyRun(r, schemas, items, n);
    LeftBehind(r, schemas, items, n);
    var s := After(r, schemas, items, n);
    PositionStays(r, schemas, items, n, |items|);
    OpenedCleared(r, s, n, items[n]);
    OpenedKeeps(r, s, items[n]);
    assert Aligned(s, items[j], j, s.rawToBlock[j]);
    OpenedAligned(r, s, n, items[n], items[j], j, s.rawToBlock[j]);
    OpenedHolds(r, s, n, items[n]);
    hide After, Fine, ErrorFree, Tidy, EmptyAfter, OneKind, Tracked;
    var t := Opened(r, s, items[n]).s;
    hide Opened;
    PlacedWhere(t, n, items[n]);
    hide Placed, Shows;
    NothingPromised(t, n, items[n], items[j], j, s.rawToBlock[j]);
    assert !Joins(t, if items[n].MarkupItem? then items[n].text else "");
  }

  lemma OpenedHolds(r: Renderer, s: State, n: int, item: Item)
    requires OneKind(s, n) && !Opened(r, s, item).raised
    ensures var t := Opened(r, s, item).s;
      && (item.BundleItem? ==> t.bundles == s.bundles) && (item.SubworksheetItem? ==> t.worksheets == s.worksheets)
  {
    hide Flushed, SchemaFields;
  }

  lemma NothingPromised(s: State, n: nat, next: Item, item: Item, index: nat, p: Position)
    requires Aligned(s, item, index, p) && Cleared(s, n, next) && Groups(next)
    requires next.BundleItem? ==> s.bundles == []
    requires next.SubworksheetItem? ==> s.worksheets == []
    ensures p.Some? && p.value.0 < |s.blocks|
  {
    hide Shows, OneKind;
  }

  // ---------------------------------------------------------------- the fields of a schema

  /** A schema definition at `i` and the `k` directives after it that add to it. */
  predicate Defines(items: seq<Item>, i: nat, k: nat) {
    && i + k < |items| && IsCommand(items[i], "schema") && |items[i].tokens| > 1
    && forall m :: i < m <= i + k ==> Adds(items[m])
  }

  predicate Adds(item: Item) {
    IsCommand(item, "add") || IsCommand(item, "addschema")
  }

  /** The fields they add, in order: each `add` its own, each `addschema` those its schema has then. */
  function FieldsFrom(r: Renderer, schemas: Schemas, items: seq<Item>, i: nat, k: nat): seq<Field>
    requires Defines(items, i, k)
  {
    if k == 0 then []
    else
      var tokens := items[i + k].tokens;
      FieldsFrom(r, schemas, items, i, k - 1) +
      if tokens[0] == "add" then [Field(tokens[1..], items[i].tokens[1])]
      else if |tokens| > 1 then SchemaFields(After(r, schemas, items, i + k).schemas, Some(tokens[1]))
      else []
  }

  function IdsFrom(items: seq<Item>, i: nat, k: nat): (ids: seq<nat>)
    requires Defines(items, i, k)
    ensures |ids| == k + 1 && forall m :: 0 <= m <= k ==> ids[m] == items[i + m].id
  {
    seq(k + 1, m requires 0 <= m <= k => items[i + m].id)
  }

  /** The schema is being defined, with these fields and ids, and will be the next block. */
  ghost predicate Defining(s: State, name: string, fields: seq<Field>, ids: seq<nat>) {
    && s.current == Some(name) && name in s.schemas && s.schemas[name] == fields && s.schemaIds == ids
    && s.bundles == [] && s.worksheets == []
  }

  lemma DefinesBegins(r: Renderer, s: State, n: nat, item: Item)
    requires OneKind(s, n) && !Opened(r, s, item).raised && IsCommand(item, "schema") && |item.tokens| > 1
    ensures var t := Opened(r, s, item).s; var u := Placed(t, n, item).s;
      && Defining(u, item.tokens[1], [], [item.id]) && u.blocks == t.blocks
      && |u.rawToBlock| == |s.rawToBlock| + 1 && u.rawToBlock[|s.rawToBlock|] == Some((|u.blocks|, 0))
  {
    OpenedSchema(r, s, item);
    OpenedCleared(r, s, n, item);
    OpenedKeeps(r, s, item);
    hide Opened;
  }

  lemma DefinesOn(r: Renderer, s: State, n: nat, item: Item, name: string, fields: seq<Field>, ids: seq<nat>)
    requires Defining(s, name, fields, ids) && Adds(item) && !Opened(r, s, item).raised
    requires !Placed(Opened(r, s, item).s, n, item).raised
    ensures var u := Placed(Opened(r, s, item).s, n, item).s;
      && u.blocks == s.blocks
      && Defining(u, name, fields + (if item.tokens[0] == "add" then [Field(item.tokens[1..], name)]
                                     else if |item.tokens| > 1 then SchemaFields(s.schemas, Some(item.tokens[1])) else []),
                  ids + [item.id])
  {
    OpenedAdd(r, s, item);
    hide Opened;
  }

  lemma OpenedAdd(r: Renderer, s: State, item: Item)
    requires s.bundles == [] && s.worksheets == [] && Adds(item)
    ensures var t := Opened(r, s, item); !t.raised && t.s == s.(start := -1, display := DEFAULT_DISPLAY)
  {
  }

  lemma {:induction false} Collected(r: Renderer, schemas: Schemas, items: seq<Item>, i: nat, k: nat)
    requires ErrorFree(r, schemas, items) && Defines(items, i, k)
    ensures var u := Reached(r, schemas, items, i + k);
      && Defining(u, items[i].tokens[1], FieldsFrom(r, schemas, items, i, k), IdsFrom(items, i, k))
      && u.blocks == Reached(r, schemas, items, i).blocks
      && |Reached(r, schemas, items, i).rawToBlock| == i + 1
      && Reached(r, schemas, items, i).rawToBlock[i] == Some((|u.blocks|, 0))
  {
    hide After, ErrorFree, Fine, Tidy, Opened, Placed, Closed, OneKind, Defining, EmptyAfter;
    FineAll(r, schemas, items, i + k);
    FineFacts(r, schemas, items, i + k);
    if k == 0 {
      TidyRun(r, schemas, items, i);
      var s := After(r, schemas, items, i);
      OneKindOf(s, items, i);
      PositionRecorded(r, schemas, items, i);
      DefinesBegins(r, s, i, items[i]);
      assert IdsFrom(items, i, 0) == [items[i].id];
    } else {
      Collected(r, schemas, items, i, k - 1);
      FineFacts(r, schemas, items, i + k - 1);
      var s := After(r, schemas, items, i + k);
      DefiningIgnores(Reached(r, schemas, items, i + k - 1), s, items[i].tokens[1],
                      FieldsFrom(r, schemas, items, i, k - 1), IdsFrom(items, i, k - 1));
      DefinesOn(r, s, i + k, items[i + k], items[i].tokens[1], FieldsFrom(r, schemas, items, i, k - 1),
                IdsFrom(items, i, k - 1));
      assert IdsFrom(items, i, k) == IdsFrom(items, i, k - 1) + [items[i + k].id];
    }
  }

  lemma DefiningIgnores(s: State, t: State, name: string, fields: seq<Field>, ids: seq<nat>)
    requires t == s.(lastEmpty := t.lastEmpty)
    ensures Defining(s, name, fields, ids) <==> Defining(t, name, fields, ids)
  {
  }

  /** A block that is not markup stays what it is. */
  ghost predicate Fixed(s: State, b: nat, block: Block) {
    b < |s.blocks| && s.blocks[b] == block && !block.Markup?
  }

  lemma PlacedFixed(s: State, n: nat, item: Item, b: nat, block: Block)
    requires Fixed(s, b, block)
    ensures Fixed(Placed(s, n, item).s, b, block)
  {
    hide PlacedDirective;
    if item.DirectiveItem? {
      DirectiveFixed(s, item.tokens, item.id, b, block);
    }
  }

  lemma DirectiveFixed(s: State, tokens: seq<string>, id: nat, b: nat, block: Block)
    requires Fixed(s, b, block)
    ensures Fixed(PlacedDirective(s, tokens, id).s, b, block)
  {
  }

  lemma PrefixFixed(s: State, t: State, b: nat, block: Block)
    requires Fixed(s, b, block) && s.blocks <= t.blocks
    ensures Fixed(t, b, block)
  {
  }

  lemma TailFixed(r: Renderer, schemas: Schemas, items: seq<Item>, n: nat, b: nat, block: Block)
    requires n < |items| && Fine(r, schemas, items, n)
    requires Fixed(Opened(r, After(r, schemas, items, n), items[n]).s, b, block)
    ensures Fixed(After(r, schemas, items, n + 1), b, block)
  {
    FineFacts(r, schemas, items, n);
    hide After, Fine, Opened, Placed, Closed, Fixed, EmptyAfter;
    PlacedFixed(Opened(r, After(r, schemas, items, n), items[n]).s, n, items[n], b, block);
    var u := Reached(r, schemas, items, n);
    ClosedKeeps(r, u);
    PrefixFixed(u, Closed(r, u).s, b, block);
    PrefixFixed(u, After(r, schemas, items, n + 1), b, block);
  }

  lemma {:induction false} FixedLater(r: Renderer, schemas: Schemas, items: seq<Item>, m: nat, n: nat, b: nat, block: Block)
    requires ErrorFree(r, schemas, items) && m <= n <= |items| && Fixed(After(r, schemas, items, m), b, block)
    ensures Fixed(After(r, schemas, items, n), b, block)
  {
    hide After, Opened, Fixed;
    if m < n {
      FixedLater(r, schemas, items, m, n - 1, b, block);
      assert Fine(r, schemas, items, n - 1);
      var s := After(r, schemas, items, n - 1);
      OpenedKeeps(r, s, items[n - 1]);
      PrefixFixed(s, Opened(r, s, items[n - 1]).s, b, block);
      TailFixed(r, schemas, items, n - 1, b, block);
    }
  }

  lemma OpenedEnds(r: Renderer, s: State, item: Item, name: string, fields: seq<Field>, ids: seq<nat>)
    requires Defining(s, name, fields, ids) && !Adds(item)
    ensures Fixed(Opened(r, s, item).s, |s.blocks|, Schema(name, fields, ids))
  {
  }

  lemma ClosedEnds(r: Renderer, s: State, name: string, fields: seq<Field>, ids: seq<nat>)
    requires Defining(s, name, fields, ids)
    ensures Fixed(Closed(r, s).s, |s.blocks|, Schema(name, fields, ids))
  {
  }

  /** A schema definition with all that adds to it becomes one block, at the position of the definition,
      with its fields and its ids in order. */
  lemma SchemaBlock(r: Renderer, schemas: Schemas, items: seq<Item>, i: nat, k: nat)
    requires ErrorFree(r, schemas, items) && Defines(items, i, k)
    requires i + k + 1 < |items| ==> !Adds(items[i + k + 1])
    ensures var s := After(r, schemas, items, |items|);
      && |s.rawToBlock| == |items| && s.rawToBlock[i].Some?
      && var b := s.rawToBlock[i].value.0;
         b < |s.blocks| && s.blocks[b] ==
           Schema(items[i].tokens[1], FieldsFrom(r, schemas, items, i, k), IdsFrom(items, i, k))
  {
    hide After, ErrorFree, Fine, Opened, Placed, Closed, Defining, EmptyAfter, Adds, FieldsFrom;
    var name, fields, ids := items[i].tokens[1], FieldsFrom(r, schemas, items, i, k), IdsFrom(items, i, k);
    FineAll(r, schemas, items, |items| - 1);
    FineFacts(r, schemas, items, i + k);
    Collected(r, schemas, items, i, k);
    PositionRecorded(r, schemas, items, i);
    var u := Reached(r, schemas, items, i + k);
    var s := After(r, schemas, items, i + k + 1);
    hide Reached;
    if i + k + 1 == |items| {
      ClosedEnds(r, u, name, fields, ids);
    } else {
      DefiningIgnores(u, s, name, fields, ids);
      OpenedEnds(r, s, items[i + k + 1], name, fields, ids);
      TailFixed(r, schemas, items, i + k + 1, |u.blocks|, Schema(name, fields, ids));
      FixedLater(r, schemas, items, i + k + 2, |items|, |u.blocks|, Schema(name, fields, ids));
    }
  }
}
