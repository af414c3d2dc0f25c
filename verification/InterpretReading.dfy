/** Reading the blocks of an error-free interpretation from top to bottom gives back exactly
    the items that belong in blocks, in raw order: nothing is lost, repeated or invented. */
module InterpretReading {
  import opened Common
  import opened Interpret
  import opened InterpretAlign

  /** What a block shows, piece by piece. A notice is what stands for a bundle that cannot be accessed. */
  datatype Entry =
    | Row(bundle: Bundle)
    | ContentsOf(bundle: Bundle)
    | ImageOf(bundle: Bundle)
    | RecordOf(bundle: Bundle)
    | Drawn(bundle: Bundle)
    | Notice
    | Sub(uuid: string)
    | Line(id: nat, text: string)
    | Define(name: string)
    | Search(tokens: seq<string>)

  function Rows(bundles: seq<Bundle>): (es: seq<Entry>)
    ensures |es| == |bundles| && forall i :: 0 <= i < |es| ==> es[i] == Row(bundles[i])
  {
    seq(|bundles|, i requires 0 <= i < |bundles| => Row(bundles[i]))
  }

  function Drawings(bundles: seq<Bundle>): (es: seq<Entry>)
    ensures |es| == |bundles| && forall i :: 0 <= i < |es| ==> es[i] == Drawn(bundles[i])
  {
    seq(|bundles|, i requires 0 <= i < |bundles| => Drawn(bundles[i]))
  }

  function Subs(uuids: seq<string>): (es: seq<Entry>)
    ensures |es| == |uuids| && forall i :: 0 <= i < |es| ==> es[i] == Sub(uuids[i])
  {
    seq(|uuids|, i requires 0 <= i < |uuids| => Sub(uuids[i]))
  }

  function Lines(lines: seq<string>, ids: seq<nat>): (es: seq<Entry>)
    requires |ids| == |lines|
    ensures |es| == |ids| && forall i :: 0 <= i < |es| ==> es[i] == Line(ids[i], lines[i])
  {
    seq(|ids|, i requires 0 <= i < |ids| => Line(ids[i], lines[i]))
  }

  function Content(block: Block): seq<Entry> {
    match block
    case Table(rows, _) => Rows(rows)
    case Subworksheets(uuids) => Subs(uuids)
    case Markup(lines, ids) =>
      if block == ERROR then [Notice] else if |ids| == |lines| then Lines(lines, ids) else []
    case Schema(name, _, _) => [Define(name)]
    case Placeholder(tokens) => [Search(tokens)]
    case Contents(b) => [ContentsOf(b)]
    case Image(b) => [ImageOf(b)]
    case Record(b, _) => [RecordOf(b)]
    case Graph(bundles) => Drawings(bundles)
  }

  function Reading(blocks: seq<Block>): seq<Entry> {
    if blocks == [] then [] else Reading(blocks[..|blocks| - 1]) + Content(blocks[|blocks| - 1])
  }

  /** What a display shows of a bundle. */
  function ShownAs(display: seq<string>, b: Bundle): seq<Entry> {
    if display == [] then []
    else if display[0] == "table" then [Row(b)]
    else if display[0] == "contents" then [if b.hasMetadata then ContentsOf(b) else Notice]
    else if display[0] == "image" then [if b.hasMetadata then ImageOf(b) else Notice]
    else if display[0] == "record" then [RecordOf(b)]
    else if display[0] == "graph" then [Drawn(b)]
    else []
  }

  function ShownAll(display: seq<string>, bundles: seq<Bundle>): seq<Entry> {
    if bundles == [] then [] else ShownAs(display, bundles[0]) + ShownAll(display, bundles[1..])
  }

  /** What an item has to show: a bundle what its display shows of it, a line of markup its text, and a
      directive that belongs in a block itself. */
  function EntriesOf(items: seq<Item>, i: nat): seq<Entry>
    requires i < |items|
  {
    match items[i]
    case BundleItem(b) => ShownAs(DisplayAt(items, i), b)
    case SubworksheetItem(u) => [Sub(u)]
    case MarkupItem(text, id) => if text == "" then [] else [Line(id, text)]
    case DirectiveItem(tokens, _) =>
      if !Tracked(items, i) then []
      else [Named(tokens)]
  }

  function Named(tokens: seq<string>): Entry {
    if |tokens| > 1 && tokens[0] == "schema" then Define(tokens[1]) else Search(tokens)
  }

  /** What the first `n` items have to show, in raw order. */
  function Expected(items: seq<Item>, n: nat): seq<Entry>
    requires n <= |items|
  {
    if n == 0 then [] else Expected(items, n - 1) + EntriesOf(items, n - 1)
  }

  function PendingRows(s: State): seq<Entry> {
    ShownAll(s.display, s.bundles)
  }

  function PendingSchema(s: State): seq<Entry> {
    if s.current.Some? then [Define(s.current.value)] else []
  }

  /** What is held back, in the order in which it would be flushed. */
  function Pending(s: State): seq<Entry> {
    PendingRows(s) + Subs(s.worksheets) + PendingSchema(s)
  }

  function Whole(s: State): seq<Entry> {
    Reading(s.blocks) + Pending(s)
  }

  lemma ReadingSnoc(blocks: seq<Block>, block: Block)
    ensures Reading(blocks + [block]) == Reading(blocks) + Content(block)
  {
    assert (blocks + [block])[..|blocks|] == blocks;
  }

  lemma {:induction false} ShownSnoc(display: seq<string>, bundles: seq<Bundle>, b: Bundle)
    ensures ShownAll(display, bundles + [b]) == ShownAll(display, bundles) + ShownAs(display, b)
  {
    hide ShownAs;
    if bundles == [] {
      assert bundles + [b] == [b] && [b][1..] == [];
    } else {
      ShownSnoc(display, bundles[1..], b);
      assert (bundles + [b])[1..] == bundles[1..] + [b];
    }
  }

  lemma {:induction false} TableShows(display: seq<string>, bundles: seq<Bundle>)
    requires display != [] && display[0] == "table"
    ensures ShownAll(display, bundles) == Rows(bundles)
  {
    if bundles != [] {
      TableShows(display, bundles[1..]);
    }
  }

  lemma {:induction false} GraphShows(display: seq<string>, bundles: seq<Bundle>)
    requires display != [] && display[0] == "graph"
    ensures ShownAll(display, bundles) == Drawings(bundles)
  {
    if bundles != [] {
      GraphShows(display, bundles[1..]);
    }
  }

  lemma {:induction false} NothingShown(display: seq<string>, bundles: seq<Bundle>)
    requires display != [] && display[0] == "hidden"
    ensures ShownAll(display, bundles) == []
  {
    if bundles != [] {
      NothingShown(display, bundles[1..]);
    }
  }

  lemma OneFlushedShows(r: Renderer, schemas: Schemas, display: seq<string>, start: int, b: Bundle)
    requires display != [] && (display[0] == "contents" || display[0] == "image" || display[0] == "record")
    requires OneFlushed(r, schemas, display, start, b).Some?
    ensures Content(OneFlushed(r, schemas, display, start, b).value) == ShownAs(display, b)
  {
    hide FileArgsOk;
  }

  /** The modes that make a block of each bundle show each as they should. */
  lemma {:induction false} EachFlushedShows(r: Renderer, schemas: Schemas, display: seq<string>, start: int,
                                            bundles: seq<Bundle>, blocks: seq<Block>)
    requires display != [] && (display[0] == "contents" || display[0] == "image" || display[0] == "record")
    requires !EachFlushed(r, schemas, display, start, bundles).1
    ensures Reading(blocks + EachFlushed(r, schemas, display, start, bundles).0)
         == Reading(blocks) + ShownAll(display, bundles)
  {
    hide Reading, Content, OneFlushed, ShownAs;
    if bundles == [] {
      assert blocks + [] == blocks;
    } else {
      var first := OneFlushed(r, schemas, display, start, bundles[0]);
      var rest := EachFlushed(r, schemas, display, start, bundles[1..]);
      assert EachFlushed(r, schemas, display, start, bundles) == ([first.value] + rest.0, rest.1);
      assert ShownAll(display, bundles) == ShownAs(display, bundles[0]) + ShownAll(display, bundles[1..]);
      OneFlushedShows(r, schemas, display, start, bundles[0]);
      hide EachFlushed, ShownAll;
      ReadingSnoc(blocks, first.value);
      EachFlushedShows(r, schemas, display, start, bundles[1..], blocks + [first.value]);
      assert blocks + ([first.value] + rest.0) == blocks + [first.value] + rest.0;
      Regrouped(Reading(blocks), ShownAs(display, bundles[0]), ShownAll(display, bundles[1..]));
    }
  }

  lemma Regrouped(a: seq<Entry>, b: seq<Entry>, c: seq<Entry>)
    ensures a + b + c == a + (b + c)
  {
  }

  /** A group is shown by its blocks as its display shows it. */
  lemma FlushedShows(r: Renderer, schemas: Schemas, display: seq<string>, start: int, bundles: seq<Bundle>, blocks: seq<Block>)
    requires !Flushed(r, schemas, display, start, bundles).1
    ensures Reading(blocks + Flushed(r, schemas, display, start, bundles).0)
         == Reading(blocks) + ShownAll(display, bundles)
  {
    hide Reading, EachFlushed, ShownAll, FileArgsOk;
    var mode := display[0];
    if mode == "hidden" {
      NothingShown(display, bundles);
      assert blocks + [] == blocks;
    } else if mode == "contents" || mode == "image" || mode == "record" {
      EachFlushedShows(r, schemas, display, start, bundles, blocks);
    } else if mode == "table" {
      TableShows(display, bundles);
      ReadingSnoc(blocks, Table(bundles, start));
    } else {
      GraphShows(display, bundles);
      ReadingSnoc(blocks, Graph(bundles));
    }
  }

  lemma FlushBundlesReads(r: Renderer, s: State)
    requires !FlushBundles(r, s).raised
    ensures Whole(FlushBundles(r, s).s) == Whole(s)
  {
    hide Flushed, Reading;
    if s.bundles != [] {
      FlushedShows(r, s.schemas, s.display, s.start, s.bundles, s.blocks);
    }
  }

  lemma NoRows(s: State)
    requires s.bundles == []
    ensures PendingRows(s) == []
  {
  }

  lemma NothingPending(s: State)
    requires s.bundles == [] && s.worksheets == [] && s.current.None?
    ensures Pending(s) == []
  {
    NoRows(s);
    hide PendingRows;
  }

  lemma FlushWorksheetsReads(s: State)
    requires s.worksheets != [] ==> s.bundles == []
    ensures Whole(FlushWorksheets(s)) == Whole(s)
  {
    hide Reading, PendingRows, PendingSchema;
    if s.worksheets != [] {
      var t := FlushWorksheets(s);
      ReadingSnoc(s.blocks, Subworksheets(s.worksheets));
      NoRows(s);
      NoRows(t);
      assert PendingSchema(t) == PendingSchema(s) by {
        SameSchema(s, t);
      }
      assert Subs(t.worksheets) == [];
      Regrouped(Reading(s.blocks), Subs(s.worksheets), PendingSchema(s));
    }
  }

  lemma SameSchema(s: State, t: State)
    requires s.current == t.current
    ensures PendingSchema(s) == PendingSchema(t)
  {
  }

  lemma FlushSchemaReads(s: State)
    requires s.current.Some? ==> s.bundles == [] && s.worksheets == []
    ensures Whole(FlushSchema(s).(current := None, schemaIds := [])) == Whole(s)
  {
    hide Reading;
    if s.current.Some? {
      ReadingSnoc(s.blocks, Schema(s.current.value, SchemaFields(s.schemas, s.current), s.schemaIds));
      assert PendingRows(s) == [];
    }
  }

  lemma OpenedReads(r: Renderer, s: State, n: int, item: Item)
    requires OneKind(s, n) && !Opened(r, s, item).raised
    ensures Whole(Opened(r, s, item).s) == Whole(s)
  {
    hide Flushed, IsCommand, Reading, Pending;
    var s1 := s;
    if !item.BundleItem? {
      FlushBundlesReads(r, s);
      s1 := FlushBundles(r, s).s.(start := -1);
      PendingIgnores(FlushBundles(r, s).s, s1);
    }
    var s2 := s1;
    if !item.SubworksheetItem? {
      FlushWorksheetsReads(s1);
      s2 := FlushWorksheets(s1);
    }
    var s3 := if item.BundleItem? || IsCommand(item, "search") then s2 else s2.(display := DEFAULT_DISPLAY);
    PendingIgnores(s2, s3);
    if !(IsCommand(item, "add") || IsCommand(item, "addschema")) {
      FlushSchemaReads(s3);
    }
  }

  lemma PendingIgnores(s: State, t: State)
    requires s.worksheets == t.worksheets && s.current == t.current && s.bundles == t.bundles
    requires s.bundles == [] || s.display == t.display
    ensures Pending(s) == Pending(t)
  {
  }

  /** A paragraph has one line for each of its ids; a notice has none. */
  predicate Lined(block: Block) {
    block.Markup? ==> |block.lines| == |block.ids| || block == ERROR
  }

  ghost predicate AllLined(blocks: seq<Block>) {
    forall i :: 0 <= i < |blocks| ==> Lined(blocks[i])
  }

  lemma JoinedReads(lines: seq<string>, ids: seq<nat>, text: string, id: nat)
    requires |ids| == |lines|
    ensures Content(Markup(lines + [text], ids + [id])) == Content(Markup(lines, ids)) + [Line(id, text)]
  {
    var more, moreIds := lines + [text], ids + [id];
    assert Lines(more, moreIds) == Lines(lines, ids) + [Line(id, text)];
    assert |moreIds| > 0 && |ERROR.ids| == 0 && |ERROR.lines| == 1;
  }

  /** Text is joined to a paragraph only, never to a notice: the item before was a line of it, and
      nothing is held back. */
  ghost predicate Paragraph(s: State) {
    !s.lastEmpty ==>
      && s.bundles == [] && s.worksheets == [] && s.current.None?
      && (s.blocks != [] ==> var last := s.blocks[|s.blocks| - 1]; last.Markup? && |last.lines| == |last.ids|)
  }

  lemma OpenedParagraph(r: Renderer, s: State, item: Item)
    requires Paragraph(s)
    ensures Paragraph(Opened(r, s, item).s)
    ensures item.MarkupItem? && !Opened(r, s, item).raised ==>
      var t := Opened(r, s, item).s; t.bundles == [] && t.worksheets == [] && t.current.None?
  {
    hide Flushed, SchemaFields;
    OpenedKeeps(r, s, item);
  }

  lemma StepParagraph(r: Renderer, s: State, index: nat, item: Item)
    requires Paragraph(s)
    ensures Paragraph(Step(r, s, index, item, false))
  {
    hide Opened, Handled, PlacedDirective;
    OpenedParagraph(r, s, item);
    OpenedKeeps(r, s, item);
  }

  lemma InitialParagraph(schemas: map<string, seq<Field>>)
    ensures Paragraph(Initial(schemas))
  {
  }

  lemma {:induction false} ParagraphOverRuns(r: Renderer, schemas: map<string, seq<Field>>, items: seq<Item>, n: nat)
    requires n < |items| || n == 0
    ensures Paragraph(After(r, schemas, items, n))
  {
    hide Step, Paragraph, Initial;
    if n == 0 {
      InitialParagraph(schemas);
    } else {
      ParagraphOverRuns(r, schemas, items, n - 1);
      StepParagraph(r, After(r, schemas, items, n - 1), n - 1, items[n - 1]);
    }
  }

  lemma PlacedMarkupReads(s: State, text: string, id: nat)
    requires text != "" && s.bundles == [] && s.worksheets == [] && s.current.None? && Paragraph(s)
    ensures Whole(Placed(s, 0, MarkupItem(text, id)).s) == Whole(s) + [Line(id, text)]
  {
    hide Reading, Pending;
    var t := Placed(s, 0, MarkupItem(text, id)).s;
    NothingPending(s);
    NothingPending(t);
    if Joins(s, text) {
      var k := |s.blocks| - 1;
      var last := s.blocks[k];
      assert s.blocks == s.blocks[..k] + [last];
      ReadingSnoc(s.blocks[..k], last);
      ReadingSnoc(s.blocks[..k], Markup(last.lines + [text], last.ids + [id]));
      JoinedReads(last.lines, last.ids, text, id);
      hide Content;
    } else {
      ReadingSnoc(s.blocks, Markup([text], [id]));
    }
  }

  lemma OnlySchema(s: State)
    requires s.bundles == [] && s.worksheets == []
    ensures Whole(s) == Reading(s.blocks) + if s.current.Some? then [Define(s.current.value)] else []
  {
    hide Reading;
    assert PendingRows(s) == [];
  }

  lemma SearchRead(blocks: seq<Block>, tokens: seq<string>)
    ensures Reading(blocks + [Placeholder(tokens)]) == Reading(blocks) + [Search(tokens)]
  {
    ReadingSnoc(blocks, Placeholder(tokens));
  }

  lemma DirectiveWithin(s: State, tokens: seq<string>, id: nat)
    requires !PlacedDirective(s, tokens, id).raised
    requires s.current.Some? ==> tokens != [] && (tokens[0] == "add" || tokens[0] == "addschema")
    ensures var t, item := PlacedDirective(s, tokens, id).s, DirectiveItem(tokens, id);
      && t.bundles == s.bundles && t.worksheets == s.worksheets
      && (if IsCommand(item, "search") || IsCommand(item, "wsearch") then
            t.blocks == s.blocks + [Placeholder(tokens)] && t.current == s.current == None && Named(tokens) == Search(tokens)
          else
            t.blocks == s.blocks &&
            if IsCommand(item, "schema") then s.current == None && t.current.Some? && Named(tokens) == Define(t.current.value)
            else t.current == s.current)
  {
    hide SchemaFields;
  }

  lemma PlacedDirectiveReads(s: State, tokens: seq<string>, id: nat)
    requires s.bundles == [] && s.worksheets == [] && !PlacedDirective(s, tokens, id).raised
    requires s.current.Some? ==> tokens != [] && (tokens[0] == "add" || tokens[0] == "addschema")
    ensures var item := DirectiveItem(tokens, id);
      Whole(PlacedDirective(s, tokens, id).s) == Whole(s) +
        if IsCommand(item, "schema") || IsCommand(item, "search") || IsCommand(item, "wsearch") then [Named(tokens)] else []
  {
    hide Reading, Whole, PlacedDirective, Named, IsCommand;
    var t, item := PlacedDirective(s, tokens, id).s, DirectiveItem(tokens, id);
    DirectiveWithin(s, tokens, id);
    OnlySchema(s);
    OnlySchema(t);
    if IsCommand(item, "search") || IsCommand(item, "wsearch") {
      SearchRead(s.blocks, tokens);
    }
  }

  lemma PlacedBundleReads(s: State, n: nat, b: Bundle)
    requires Cleared(s, n, BundleItem(b))
    ensures Whole(Placed(s, n, BundleItem(b)).s) == Whole(s) + ShownAs(s.display, b)
  {
    hide Reading, ShownAs, ShownAll;
    ShownSnoc(s.display, s.bundles, b);
    assert Subs(s.worksheets) == [];
  }

  lemma PlacedSubworksheetReads(s: State, n: nat, u: string)
    requires Cleared(s, n, SubworksheetItem(u))
    ensures Whole(Placed(s, n, SubworksheetItem(u)).s) == Whole(s) + [Sub(u)]
  {
    hide Reading;
    assert Subs(s.worksheets + [u]) == Subs(s.worksheets) + [Sub(u)];
  }

  lemma PlacedEmptyReads(s: State, n: nat, id: nat)
    requires Cleared(s, n, MarkupItem("", id))
    ensures Whole(Placed(s, n, MarkupItem("", id)).s) == Whole(s)
  {
    hide Reading;
  }

  lemma PlacedReads(s: State, n: nat, items: seq<Item>)
    requires n < |items| && Cleared(s, n, items[n]) && !Placed(s, n, items[n]).raised && Paragraph(s)
    requires items[n].BundleItem? ==> s.display == DisplayAt(items, n)
    ensures Whole(Placed(s, n, items[n]).s) == Whole(s) + EntriesOf(items, n)
  {
    hide Reading, Joins, PlacedDirective, Whole, ShownAs, Named, Paragraph;
    match items[n]
    case BundleItem(b) =>
      PlacedBundleReads(s, n, b);
    case SubworksheetItem(u) =>
      PlacedSubworksheetReads(s, n, u);
    case MarkupItem(text, id) =>
      if text == "" {
        PlacedEmptyReads(s, n, id);
      } else {
        PlacedMarkupReads(s, text, id);
      }
    case DirectiveItem(tokens, id) =>
      PlacedDirectiveReads(s, tokens, id);
  }

  // ---------------------------------------------------------------- the lines of a paragraph

  lemma {:induction false} EachFlushedLined(r: Renderer, schemas: Schemas, display: seq<string>, start: int, bundles: seq<Bundle>)
    requires display != []
    ensures AllLined(EachFlushed(r, schemas, display, start, bundles).0)
  {
    if bundles != [] {
      EachFlushedLined(r, schemas, display, start, bundles[1..]);
      hide FileArgsOk;
    }
  }

  lemma FlushedLined(r: Renderer, s: State)
    requires AllLined(s.blocks)
    ensures AllLined(FlushBundles(r, s).s.blocks)
  {
    hide Lined, EachFlushed;
    if s.bundles != [] && s.display != [] {
      EachFlushedLined(r, s.schemas, s.display, s.start, s.bundles);
      NoMarkup(s);
    }
  }

  lemma NoMarkup(s: State)
    ensures Lined(Table(s.bundles, s.start)) && Lined(Graph(s.bundles)) && Lined(Subworksheets(s.worksheets)) && Lined(ERROR)
    ensures forall name, fields, ids :: Lined(Schema(name, fields, ids))
    ensures forall tokens :: Lined(Placeholder(tokens))
  {
  }

  lemma HeldLined(s: State)
    requires AllLined(s.blocks)
    ensures AllLined(FlushWorksheets(s).blocks) && AllLined(FlushSchema(s).blocks) && AllLined(Handled(s).blocks)
  {
    NoMarkup(s);
    hide Lined;
  }

  lemma OpenedLined(r: Renderer, s: State, item: Item)
    requires AllLined(s.blocks)
    ensures AllLined(Opened(r, s, item).s.blocks)
  {
    hide FlushBundles, FlushWorksheets, FlushSchema, AllLined, IsCommand;
    FlushedLined(r, s);
    var t := if item.BundleItem? then Try(s, false) else FlushBundles(r, s);
    if !t.raised {
      var s1 := if item.BundleItem? then t.s else t.s.(start := -1);
      HeldLined(s1);
      var s2 := if item.SubworksheetItem? then s1 else FlushWorksheets(s1);
      var s3 := if item.BundleItem? || IsCommand(item, "search") then s2 else s2.(display := DEFAULT_DISPLAY);
      HeldLined(s3);
    }
  }

  lemma PlacedLined(s: State, n: nat, item: Item)
    requires AllLined(s.blocks) && Paragraph(s)
    ensures AllLined(Placed(s, n, item).s.blocks)
  {
    hide SchemaFields;
    if item.MarkupItem? && Joins(s, item.text) {
      var last := s.blocks[|s.blocks| - 1];
      assert Lined(Markup(last.lines + [item.text], last.ids + [item.id]));
    }
  }

  lemma ClosedLined(r: Renderer, s: State)
    requires AllLined(s.blocks)
    ensures AllLined(Closed(r, s).s.blocks)
  {
    hide FlushBundles, FlushWorksheets, FlushSchema, AllLined;
    FlushedLined(r, s);
    var t := FlushBundles(r, s).s.(start := -1);
    HeldLined(t);
    HeldLined(FlushWorksheets(t));
  }

  lemma StepLined(r: Renderer, s: State, index: nat, item: Item, last: bool)
    requires AllLined(s.blocks) && Paragraph(s)
    ensures AllLined(Step(r, s, index, item, last).blocks)
  {
    hide Opened, Placed, Closed, AllLined, Handled, EmptyAfter, Paragraph;
    OpenedLined(r, s, item);
    OpenedParagraph(r, s, item);
    var t := Opened(r, s, item).s;
    HeldLined(t);
    PlacedLined(t, index, item);
    var u := Placed(t, index, item).s;
    HeldLined(u);
    ClosedLined(r, u);
    HeldLined(Closed(r, u).s);
    hide FlushWorksheets, FlushSchema;
  }

  /** In every interpretation, with errors or without, every paragraph has one line for each of its ids,
      or is a notice of an error. */
  lemma {:induction false} LinesOverRuns(r: Renderer, schemas: map<string, seq<Field>>, items: seq<Item>, n: nat)
    requires n <= |items|
    ensures AllLined(After(r, schemas, items, n).blocks)
  {
    hide Step;
    if n > 0 {
      LinesOverRuns(r, schemas, items, n - 1);
      ParagraphOverRuns(r, schemas, items, n - 1);
      StepLined(r, After(r, schemas, items, n - 1), n - 1, items[n - 1], n == |items|);
    }
  }

  // ---------------------------------------------------------------- whole runs

  lemma {:induction false} ReadsSoFar(r: Renderer, schemas: map<string, seq<Field>>, items: seq<Item>, n: nat)
    requires n < |items| && forall i :: 0 <= i < n ==> Fine(r, schemas, items, i)
    ensures Whole(After(r, schemas, items, n)) == Expected(items, n)
  {
    hide Opened, Placed, Closed, EmptyAfter, OneKind, EntriesOf, DisplayAt, IsCommand;
    if n > 0 {
      ReadsSoFar(r, schemas, items, n - 1);
      assert Fine(r, schemas, items, n - 1);
      ReadsStep(r, schemas, items, n - 1);
    }
  }

  /** One more item, the flush at the end left out. */
  lemma ReadsStep(r: Renderer, schemas: map<string, seq<Field>>, items: seq<Item>, n: nat)
    requires n < |items| && forall i :: 0 <= i <= n ==> Fine(r, schemas, items, i)
    requires Whole(After(r, schemas, items, n)) == Expected(items, n)
    ensures var t := Placed(Opened(r, After(r, schemas, items, n), items[n]).s, n, items[n]).s;
      Whole(t) == Expected(items, n + 1) && OneKind(t, n + 1)
  {
    hide Opened, Placed, Closed, OneKind, EntriesOf, DisplayAt, IsCommand, Reading, Pending, Whole, After;
    TidyRun(r, schemas, items, n);
    ParagraphOverRuns(r, schemas, items, n);
    assert Fine(r, schemas, items, n);
    var s, item := After(r, schemas, items, n), items[n];
    OpenedCleared(r, s, n, item);
    OpenedReads(r, s, n, item);
    OpenedParagraph(r, s, item);
    PlacedReads(Opened(r, s, item).s, n, items);
    PlacedKind(Opened(r, s, item).s, n, item);
  }

  lemma ClosedReads(r: Renderer, s: State, n: int)
    requires OneKind(s, n) && !Closed(r, s).raised
    ensures Reading(Closed(r, s).s.blocks) == Whole(s)
  {
    hide Flushed, Reading;
    FlushBundlesReads(r, s);
    var s1 := FlushBundles(r, s).s.(start := -1);
    PendingIgnores(FlushBundles(r, s).s, s1);
    FlushWorksheetsReads(s1);
    FlushSchemaReads(FlushWorksheets(s1));
    var s3 := FlushSchema(FlushWorksheets(s1)).(current := None, schemaIds := []);
    assert Pending(s3) == [];
  }

  /** The blocks, read in order, are the items that belong in blocks, in raw order. */
  lemma BlocksReadBack(r: Renderer, schemas: map<string, seq<Field>>, items: seq<Item>)
    requires ErrorFree(r, schemas, items)
    ensures Reading(After(r, schemas, items, |items|).blocks) == Expected(items, |items|)
  {
    hide Opened, Placed, Closed, EmptyAfter, OneKind, Whole;
    if items != [] {
      var n := |items| - 1;
      ReadsSoFar(r, schemas, items, n);
      ReadsStep(r, schemas, items, n);
      assert Fine(r, schemas, items, n);
      ClosedReads(r, Placed(Opened(r, After(r, schemas, items, n), items[n]).s, n, items[n]).s, n + 1);
    }
  }
}
