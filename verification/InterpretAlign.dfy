/** Alignment: in an error-free interpretation every item that belongs in a block is mapped to
    the block, and the row, that shows it, although most positions are recorded before their
    block exists. */
module InterpretAlign {
  import opened Common
  import opened Interpret

  /** The display in force for an item: the last display directive before it with only bundles
      and searches in between, else the default. */
  function DisplayAt(items: seq<Item>, i: nat): seq<string>
    requires i <= |items|
  {
    if i == 0 then DEFAULT_DISPLAY
    else if items[i - 1].BundleItem? || IsCommand(items[i - 1], "search") then DisplayAt(items, i - 1)
    else if IsCommand(items[i - 1], "display") then items[i - 1].tokens[1..]
    else DEFAULT_DISPLAY
  }

  predicate InTable(display: seq<string>) {
    display != [] && display[0] == "table"
  }

  /** The items that belong in a block: bundles in table mode, subworksheets, markup that is not
      blank, schema definitions and searches. */
  predicate Tracked(items: seq<Item>, i: nat)
    requires i < |items|
  {
    match items[i]
    case BundleItem(_) => InTable(DisplayAt(items, i))
    case SubworksheetItem(_) => true
    case MarkupItem(text, _) => text != ""
    case DirectiveItem(_, _) =>
      IsCommand(items[i], "schema") || IsCommand(items[i], "search") || IsCommand(items[i], "wsearch")
  }

  /** `block` shows the item at raw index `index`, in row `row`. */
  ghost predicate Shows(block: Block, item: Item, row: nat, index: nat) {
    match item
    case BundleItem(b) => block.Table? && row < |block.rows| && block.rows[row] == b && block.first + row == index
    case SubworksheetItem(u) => block.Subworksheets? && row < |block.uuids| && block.uuids[row] == u
    case MarkupItem(text, id) => block.Markup? && row == 0 && text in block.lines && id in block.ids
    case DirectiveItem(tokens, id) =>
      if IsCommand(item, "schema") then
        |tokens| > 1 && block.Schema? && row == 0 && block.name == tokens[1] && block.schemaIds != [] && block.schemaIds[0] == id
      else block == Placeholder(tokens) && row == 0
  }

  /** What is held back will show the item once it is flushed. */
  ghost predicate WillShow(s: State, item: Item, row: nat, index: nat) {
    match item
    case BundleItem(b) =>
      row < |s.bundles| && s.bundles[row] == b && s.start + row == index && InTable(s.display)
    case SubworksheetItem(u) => row < |s.worksheets| && s.worksheets[row] == u && s.bundles == []
    case MarkupItem(_, _) => false
    case DirectiveItem(tokens, id) =>
      && IsCommand(item, "schema") && |tokens| > 1 && row == 0 && s.bundles == [] && s.worksheets == []
      && s.current == Some(tokens[1]) && s.schemaIds != [] && s.schemaIds[0] == id
  }

  ghost predicate Aligned(s: State, item: Item, index: nat, p: Position) {
    && p.Some?
    && var (b, row) := p.value;
       (b < |s.blocks| && Shows(s.blocks[b], item, row, index)) || (b == |s.blocks| && WillShow(s, item, row, index))
  }

  /** At most one kind of thing is held back, and bundles are held back with the raw index of
      their first. */
  ghost predicate OneKind(s: State, n: int) {
    && (s.bundles != [] ==> s.worksheets == [] && s.current.None?)
    && (s.worksheets != [] ==> s.current.None?)
    && s.start == (if s.bundles == [] then -1 else n - |s.bundles|) && |s.bundles| <= n
    && (s.current.None? ==> s.schemaIds == [])
  }

  // ---------------------------------------------------------------- flushing keeps the alignment

  lemma TableFlushed(r: Renderer, s: State)
    requires InTable(s.display) && s.bundles != [] && !FlushBundles(r, s).raised
    ensures FlushBundles(r, s).s == s.(blocks := s.blocks + [Table(s.bundles, s.start)], bundles := [])
  {
    assert s.display[0] == "table";
  }

  lemma FlushBundlesAligned(r: Renderer, s: State, item: Item, index: nat, p: Position)
    requires Aligned(s, item, index, p) && !FlushBundles(r, s).raised
    ensures Aligned(FlushBundles(r, s).s.(start := -1), item, index, p)
  {
    hide IsCommand, Flushed;
    var (b, row) := p.value;
    var t := FlushBundles(r, s).s.(start := -1);
    if b < |s.blocks| {
      assert t.blocks[b] == s.blocks[b];
    } else if item.BundleItem? {
      TableFlushed(r, s);
      assert t.blocks[b] == Table(s.bundles, s.start);
    } else {
      assert s.bundles == [];
    }
  }

  lemma FlushWorksheetsAligned(s: State, item: Item, index: nat, p: Position)
    requires Aligned(s, item, index, p) && (item.BundleItem? && WillShow(s, item, p.value.1, index) ==> s.worksheets == [])
    ensures Aligned(FlushWorksheets(s), item, index, p)
  {
    hide IsCommand;
  }

  lemma FlushSchemaAligned(s: State, item: Item, index: nat, p: Position)
    requires Aligned(s, item, index, p) && (WillShow(s, item, p.value.1, index) && !item.DirectiveItem? ==> s.current.None?)
    ensures Aligned(FlushSchema(s).(current := None, schemaIds := []), item, index, p)
  {
    hide IsCommand;
  }

  /** Everything up to an item keeps its place while the item is opened. */
  lemma OpenedAligned(r: Renderer, s: State, n: int, next: Item, item: Item, index: nat, p: Position)
    requires Aligned(s, item, index, p) && OneKind(s, n) && !Opened(r, s, next).raised
    ensures Aligned(Opened(r, s, next).s, item, index, p)
  {
    hide Flushed, Shows, IsCommand;
    var s1 := s;
    if !next.BundleItem? {
      FlushBundlesAligned(r, s, item, index, p);
      s1 := FlushBundles(r, s).s.(start := -1);
    }
    var s2 := s1;
    if !next.SubworksheetItem? {
      FlushWorksheetsAligned(s1, item, index, p);
      s2 := FlushWorksheets(s1);
    }
    var s3 := if next.BundleItem? || IsCommand(next, "search") then s2 else s2.(display := DEFAULT_DISPLAY);
    assert Aligned(s3, item, index, p);
    if !(IsCommand(next, "add") || IsCommand(next, "addschema")) {
      FlushSchemaAligned(s3, item, index, p);
    }
  }

  // ---------------------------------------------------------------- one step

  /** What an opened item finds: nothing of another kind is held back. */
  ghost predicate Cleared(s: State, n: int, item: Item) {
    && OneKind(s, n)
    && (item.BundleItem? ==> s.worksheets == [] && s.current.None?)
    && (item.SubworksheetItem? ==> s.bundles == [] && s.current.None?)
    && (item.MarkupItem? || item.DirectiveItem? ==> s.bundles == [] && s.worksheets == [])
    && (!IsCommand(item, "add") && !IsCommand(item, "addschema") ==> s.current.None?)
  }

  lemma OpenedCleared(r: Renderer, s: State, n: int, item: Item)
    requires OneKind(s, n) && !Opened(r, s, item).raised
    ensures Cleared(Opened(r, s, item).s, n, item)
    ensures Opened(r, s, item).s.display
         == if item.BundleItem? || IsCommand(item, "search") then s.display else DEFAULT_DISPLAY
  {
    hide Flushed;
  }

  lemma PlacedAligned(s: State, n: nat, next: Item, item: Item, index: nat, p: Position)
    requires Aligned(s, item, index, p) && Cleared(s, n, next) && !Placed(s, n, next).raised
    ensures Aligned(Placed(s, n, next).s, item, index, p)
  {
    var (b, row) := p.value;
    var t := Placed(s, n, next).s;
    if b < |s.blocks| {
      assert |s.blocks| <= |t.blocks|;
      assert t.blocks[b] == s.blocks[b] || (next.MarkupItem? && Joins(s, next.text) && b == |s.blocks| - 1);
    }
  }

  lemma PlacedKind(s: State, n: nat, item: Item)
    requires Cleared(s, n, item) && !Placed(s, n, item).raised
    ensures OneKind(Placed(s, n, item).s, n + 1)
  {
  }

  /** The item itself is in its block, or is held back where the recorded position will be. */
  lemma PlacedNew(s: State, n: nat, items: seq<Item>)
    requires n < |items| && Cleared(s, n, items[n]) && Tracked(items, n) && !Placed(s, n, items[n]).raised
    requires items[n].BundleItem? ==> s.display == DisplayAt(items, n)
    ensures var t := Placed(s, n, items[n]).s;
      && |t.rawToBlock| == |s.rawToBlock| + 1 && Aligned(t, items[n], n, t.rawToBlock[|s.rawToBlock|])
  {
  }

  lemma PlacedDisplay(s: State, n: nat, items: seq<Item>)
    requires n < |items| && !Placed(s, n, items[n]).raised
    requires s.display == if items[n].BundleItem? || IsCommand(items[n], "search") then DisplayAt(items, n) else DEFAULT_DISPLAY
    ensures Placed(s, n, items[n]).s.display == DisplayAt(items, n + 1)
  {
  }

  // ---------------------------------------------------------------- whole runs

  /** Where an error-free run stands after `n` items, the flush at the end left out. */
  ghost predicate Tidy(s: State, items: seq<Item>, n: nat) {
    && n <= |items| && OneKind(s, n) && s.display == DisplayAt(items, n) && |s.rawToBlock| == n
    && forall i :: 0 <= i < n && Tracked(items, i) ==> Aligned(s, items[i], i, s.rawToBlock[i])
  }

  /** Opening and placing one more item, without an error. */
  lemma TidyStep(r: Renderer, s: State, items: seq<Item>, n: nat)
    requires Tidy(s, items, n) && n < |items| && !Opened(r, s, items[n]).raised
    requires !Placed(Opened(r, s, items[n]).s, n, items[n]).raised
    ensures Tidy(Placed(Opened(r, s, items[n]).s, n, items[n]).s, items, n + 1)
  {
    hide Opened, Placed, Aligned, OneKind, IsCommand, Tracked, DisplayAt;
    var item := items[n];
    OpenedCleared(r, s, n, item);
    OpenedKeeps(r, s, item);
    var t := Opened(r, s, item).s;
    PlacedKind(t, n, item);
    PlacedDisplay(t, n, items);
    PlacedTail(t, n, item);
    var u := Placed(t, n, item).s;
    if Tracked(items, n) {
      PlacedNew(t, n, items);
    }
    forall i | 0 <= i < n && Tracked(items, i)
      ensures Aligned(u, items[i], i, u.rawToBlock[i])
    {
      OpenedAligned(r, s, n, item, items[i], i, s.rawToBlock[i]);
      PlacedAligned(t, n, item, items[i], i, s.rawToBlock[i]);
    }
  }

  lemma PlacedTail(s: State, n: nat, item: Item)
    requires !Placed(s, n, item).raised
    ensures |Placed(s, n, item).s.rawToBlock| == |s.rawToBlock| + 1
    ensures forall i :: 0 <= i < |s.rawToBlock| ==> Placed(s, n, item).s.rawToBlock[i] == s.rawToBlock[i]
  {
  }

  /** The flush at the end turns every promise into a block. */
  lemma ClosedAligned(r: Renderer, s: State, n: int, item: Item, index: nat, p: Position)
    requires Aligned(s, item, index, p) && OneKind(s, n) && !Closed(r, s).raised
    ensures p.Some? && p.value.0 < |Closed(r, s).s.blocks| && Shows(Closed(r, s).s.blocks[p.value.0], item, p.value.1, index)
  {
    hide Flushed, Shows, IsCommand;
    FlushBundlesAligned(r, s, item, index, p);
    var s1 := FlushBundles(r, s).s.(start := -1);
    FlushWorksheetsAligned(s1, item, index, p);
    FlushSchemaAligned(FlushWorksheets(s1), item, index, p);
  }

  lemma {:induction false} TidyRun(r: Renderer, schemas: map<string, seq<Field>>, items: seq<Item>, n: nat)
    requires n < |items| && forall i :: 0 <= i < n ==> Fine(r, schemas, items, i)
    ensures Tidy(After(r, schemas, items, n), items, n)
  {
    hide Opened, Placed, Closed, Aligned, EmptyAfter;
    if n > 0 {
      TidyRun(r, schemas, items, n - 1);
      assert Fine(r, schemas, items, n - 1);
      var s := After(r, schemas, items, n - 1);
      TidyStep(r, s, items, n - 1);
      TidyIgnoresBlank(Placed(Opened(r, s, items[n - 1]).s, n - 1, items[n - 1]).s, items, n, After(r, schemas, items, n));
    }
  }

  lemma TidyIgnoresBlank(s: State, items: seq<Item>, n: nat, t: State)
    requires Tidy(s, items, n) && t == s.(lastEmpty := t.lastEmpty)
    ensures Tidy(t, items, n)
  {
    hide Tracked, IsCommand, DisplayAt;
  }

  /** Every item that belongs in a block is mapped to the block and row that show it. */
  lemma Alignment(r: Renderer, schemas: map<string, seq<Field>>, items: seq<Item>, i: nat)
    requires ErrorFree(r, schemas, items) && i < |items| && Tracked(items, i)
    ensures var s := After(r, schemas, items, |items|);
      && |s.rawToBlock| == |items| && s.rawToBlock[i].Some?
      && var (b, row) := s.rawToBlock[i].value; b < |s.blocks| && Shows(s.blocks[b], items[i], row, i)
  {
    hide Opened, Placed, Closed, Aligned, EmptyAfter, Shows, OneKind, Tracked, DisplayAt;
    var n := |items| - 1;
    TidyRun(r, schemas, items, n);
    assert Fine(r, schemas, items, n);
    var s := After(r, schemas, items, n);
    TidyStep(r, s, items, n);
    var u := Placed(Opened(r, s, items[n]).s, n, items[n]).s;
    ClosedKeeps(r, u);
    ClosedAligned(r, u, n + 1, items[i], i, u.rawToBlock[i]);
  }
}
