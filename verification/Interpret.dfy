/** Worksheet interpretation as a state machine: one step per raw item, groups of bundles,
    subworksheets and schemas held back until something else forces them out as blocks, and
    errors that drop whatever is held back. */
module Interpret {
  import opened Common

  datatype Bundle = Bundle(uuid: string, hasMetadata: bool)

  datatype Item =
    | BundleItem(bundle: Bundle)
    | SubworksheetItem(uuid: string)
    | MarkupItem(text: string, id: nat)
    | DirectiveItem(tokens: seq<string>, id: nat)

  /** Blocks keep their kind and what they hold. The text of a markup block is its lines joined
      by newlines; an error block is a markup block with a message and no item ids. */
  datatype Block =
    | Table(rows: seq<Bundle>, first: int)
    | Subworksheets(uuids: seq<string>)
    | Markup(lines: seq<string>, ids: seq<nat>)
    | Schema(name: string, fields: seq<Field>, schemaIds: seq<nat>)
    | Placeholder(directive: seq<string>)
    | Contents(bundle: Bundle)
    | Image(bundle: Bundle)
    | Record(bundle: Bundle, recordFirst: int)
    | Graph(bundles: seq<Bundle>)

  datatype Field = Field(args: seq<string>, fromSchema: string)

  type Schemas = map<string, seq<Field>>

  /** What is left open: which bundles cannot be rendered under a display and the schemas, and whether the
      `maxlines` among some properties is an integer. */
  datatype Renderer = Renderer(fails: (Schemas, seq<string>, Bundle) -> bool, intMaxlines: seq<string> -> bool)

  type Position = Option<(nat, nat)>

  datatype State = State(
    blocks: seq<Block>,
    bundles: seq<Bundle>,
    worksheets: seq<string>,
    rawToBlock: seq<Position>,
    schemas: Schemas,
    current: Option<string>,
    schemaIds: seq<nat>,
    display: seq<string>,
    start: int,
    lastEmpty: bool)

  /** A state, and whether an error was raised on the way to it. */
  datatype Try = Try(s: State, raised: bool)

  const DEFAULT_DISPLAY: seq<string> := ["table", "default"]
  const ERROR: Block := Markup(["error"], [])

  function Initial(schemas: Schemas): State {
    State([], [], [], [], schemas, None, [], DEFAULT_DISPLAY, -1, false)
  }

  function Command(tokens: seq<string>): Option<string> {
    if tokens == [] then None else Some(tokens[0])
  }

  predicate IsCommand(item: Item, name: string) {
    item.DirectiveItem? && Command(item.tokens) == Some(name)
  }

  // ---------------------------------------------------------------- flushing

  predicate PropertiesOk(args: seq<string>) {
    forall a :: a in args ==> '=' in a
  }

  /** The arguments after the mode name a file and well-formed properties. */
  predicate FileArgsOk(r: Renderer, args: seq<string>, maxlines: bool) {
    && |args| > 0 && |args[0]| > 0 && args[0][0] == '/' && PropertiesOk(args[1..])
    && (maxlines ==> r.intMaxlines(args[1..]))
  }

  /** The blocks a group of bundles turns into, and whether an error cut it short. */
  function Flushed(r: Renderer, schemas: Schemas, display: seq<string>, start: int, bundles: seq<Bundle>): (seq<Block>, bool) {
    if display == [] then ([], true)
    else
      var mode, args := display[0], display[1..];
      if mode == "hidden" then ([], false)
      else if mode == "contents" || mode == "image" || mode == "record" then EachFlushed(r, schemas, display, start, bundles)
      else if mode == "table" then
        if exists b :: b in bundles && r.fails(schemas, display, b) then ([], true) else ([Table(bundles, start)], false)
      else if mode == "graph" then
        if !FileArgsOk(r, args, true) || exists b :: b in bundles && r.fails(schemas, display, b) then ([], true)
        else ([Graph(bundles)], false)
      else ([], true)
  }

  /** The block of one bundle in the modes that make a block of each; None is an error. */
  function OneFlushed(r: Renderer, schemas: Schemas, display: seq<string>, start: int, b: Bundle): Option<Block>
    requires display != []
  {
    var mode, args := display[0], display[1..];
    if mode == "record" then (if r.fails(schemas, display, b) then None else Some(Record(b, start)))
    else if !b.hasMetadata then Some(ERROR)
    else if !FileArgsOk(r, args, mode == "contents") then None
    else if mode == "contents" then Some(Contents(b))
    else Some(Image(b))
  }

  /** The blocks of a group in those modes, until one raises an error. */
  function EachFlushed(r: Renderer, schemas: Schemas, display: seq<string>, start: int, bundles: seq<Bundle>): (seq<Block>, bool)
    requires display != []
  {
    if bundles == [] then ([], false)
    else
      var made := OneFlushed(r, schemas, display, start, bundles[0]);
      var rest := EachFlushed(r, schemas, display, start, bundles[1..]);
      if made.None? then ([], true) else ([made.value] + rest.0, rest.1)
  }

  function FlushBundles(r: Renderer, s: State): Try {
    if s.bundles == [] then Try(s, false)
    else
      var (made, raised) := Flushed(r, s.schemas, s.display, s.start, s.bundles);
      Try(s.(blocks := s.blocks + made, bundles := if raised then s.bundles else []), raised)
  }

  function FlushWorksheets(s: State): State {
    if s.worksheets == [] then s
    else s.(blocks := s.blocks + [Subworksheets(s.worksheets)], worksheets := [])
  }

  /** The fields of the schema being defined. */
  function SchemaFields(schemas: Schemas, current: Option<string>): seq<Field> {
    if current.Some? && current.value in schemas then schemas[current.value] else []
  }

  function FlushSchema(s: State): State {
    if s.current.None? then s
    else s.(blocks := s.blocks + [Schema(s.current.value, SchemaFields(s.schemas, s.current), s.schemaIds)])
  }

  // ---------------------------------------------------------------- one item

  /** Before an item is looked at, everything it ends is flushed and settings are reset. */
  function Opened(r: Renderer, s: State, item: Item): Try {
    var t := if item.BundleItem? then Try(s, false) else FlushBundles(r, s);
    if t.raised then t
    else
      var s1 := if item.BundleItem? then t.s else t.s.(start := -1);
      var s2 := if item.SubworksheetItem? then s1 else FlushWorksheets(s1);
      var s3 := if item.BundleItem? || IsCommand(item, "search") then s2 else s2.(display := DEFAULT_DISPLAY);
      if IsCommand(item, "add") || IsCommand(item, "addschema") then Try(s3, false)
      else Try(FlushSchema(s3).(current := None, schemaIds := []), false)
  }

  predicate Joins(s: State, text: string) {
    s.blocks != [] && s.blocks[|s.blocks| - 1].Markup? && !s.lastEmpty && text != ""
  }

  function WithPosition(s: State, p: Position): State {
    s.(rawToBlock := s.rawToBlock + [p])
  }

  function Placed(s: State, index: nat, item: Item): Try {
    match item
    case BundleItem(b) =>
      var s1 := if s.start == -1 then s.(start := index) else s;
      Try(WithPosition(s1, Some((|s.blocks|, |s.bundles|))).(bundles := s.bundles + [b]), false)
    case SubworksheetItem(u) =>
      Try(WithPosition(s, Some((|s.blocks|, |s.worksheets|))).(worksheets := s.worksheets + [u]), false)
    case MarkupItem(text, id) =>
      if text == "" then Try(WithPosition(s, None), false)
      else if Joins(s, text) then
        var n := |s.blocks| - 1;
        var last := s.blocks[n];
        Try(WithPosition(s, Some((n, 0))).(blocks := s.blocks[..n] + [Markup(last.lines + [text], last.ids + [id])]), false)
      else Try(WithPosition(s, Some((|s.blocks|, 0))).(blocks := s.blocks + [Markup([text], [id])]), false)
    case DirectiveItem(tokens, id) => PlacedDirective(s, tokens, id)
  }

  function PlacedDirective(s: State, tokens: seq<string>, id: nat): Try {
    if tokens == [] || tokens[0] == "%" || tokens[0] == "" then Try(WithPosition(s, None), false)
    else if tokens[0] == "schema" then
      if |tokens| < 2 then Try(s, true)
      else
        var ids := s.schemaIds + [id];
        Try(WithPosition(s, Some((|s.blocks| - 1 + |ids|, 0)))
              .(schemas := s.schemas[tokens[1] := []], current := Some(tokens[1]), schemaIds := ids), false)
    else if tokens[0] == "addschema" then
      if s.current.None? || |tokens| < 2 then Try(s, true)
      else if tokens[1] !in s.schemas then Try(s.(schemaIds := s.schemaIds + [id]), true)
      else
        Try(WithPosition(s, None)
              .(schemaIds := s.schemaIds + [id],
                schemas := s.schemas[s.current.value := SchemaFields(s.schemas, s.current) + s.schemas[tokens[1]]]), false)
    else if tokens[0] == "add" then
      if s.current.None? then Try(s, true)
      else if !(2 <= |tokens| <= 4) then Try(s.(schemaIds := s.schemaIds + [id]), true)
      else
        Try(WithPosition(s, None)
              .(schemaIds := s.schemaIds + [id],
                schemas := s.schemas[s.current.value := SchemaFields(s.schemas, s.current) + [Field(tokens[1..], s.current.value)]]), false)
    else if tokens[0] == "display" then Try(WithPosition(s, None).(display := tokens[1..]), false)
    else if tokens[0] == "search" || tokens[0] == "wsearch" then
      Try(WithPosition(s, Some((|s.blocks|, 0))).(blocks := s.blocks + [Placeholder(tokens)]), false)
    else Try(s, true)
  }

  /** After the last item everything held back is flushed. */
  function Closed(r: Renderer, s: State): Try {
    var t := FlushBundles(r, s);
    if t.raised then t else Try(FlushSchema(FlushWorksheets(t.s.(start := -1))), false)
  }

  /** An error drops what is held back and leaves an error block. */
  function Handled(s: State): State {
    s.(current := None, bundles := [], worksheets := [], blocks := s.blocks + [ERROR],
       rawToBlock := s.rawToBlock + [Some((|s.blocks|, 0))])
  }

  function Attempt(r: Renderer, s: State, index: nat, item: Item, last: bool): Try {
    var t := Opened(r, s, item);
    if t.raised then t
    else
      var u := Placed(t.s, index, item);
      if u.raised || !last then u else Closed(r, u.s)
  }

  predicate EmptyAfter(r: Renderer, s: State, item: Item) {
    !(item.MarkupItem? && item.text != "" && !Opened(r, s, item).raised)
  }

  function Step(r: Renderer, s: State, index: nat, item: Item, last: bool): State {
    var t := Attempt(r, s, index, item, last);
    (if t.raised then Handled(t.s) else t.s).(lastEmpty := EmptyAfter(r, s, item))
  }

  /** The state after the first `n` items. */
  function After(r: Renderer, schemas: Schemas, items: seq<Item>, n: nat): State
    requires n <= |items|
  {
    if n == 0 then Initial(schemas)
    else Step(r, After(r, schemas, items, n - 1), n - 1, items[n - 1], n == |items|)
  }

  /** Item `i` is interpreted without an error. */
  predicate Fine(r: Renderer, schemas: Schemas, items: seq<Item>, i: nat)
    requires i < |items|
  {
    !Attempt(r, After(r, schemas, items, i), i, items[i], i + 1 == |items|).raised
  }

  predicate ErrorFree(r: Renderer, schemas: Schemas, items: seq<Item>) {
    forall i :: 0 <= i < |items| ==> Fine(r, schemas, items, i)
  }

  // ---------------------------------------------------------------- counting and order

  /** The flush after the last item is what failed, the item itself having gone through. */
  predicate ClosingFails(r: Renderer, schemas: Schemas, items: seq<Item>) {
    && items != []
    && var n := |items| - 1;
       var t := Opened(r, After(r, schemas, items, n), items[n]);
       !t.raised && var u := Placed(t.s, n, items[n]); !u.raised && Closed(r, u.s).raised
  }

  lemma OpenedKeeps(r: Renderer, s: State, item: Item)
    ensures var t := Opened(r, s, item).s; t.rawToBlock == s.rawToBlock && s.blocks <= t.blocks && t.lastEmpty == s.lastEmpty
  {
    hide FlushBundles, IsCommand, SchemaFields;
    FlushBundlesKeeps(r, s);
    var t := if item.BundleItem? then s else FlushBundles(r, s).s;
    FlushWorksheetsKeeps(t.(start := -1));
  }

  lemma FlushBundlesKeeps(r: Renderer, s: State)
    ensures var t := FlushBundles(r, s).s;
      t.rawToBlock == s.rawToBlock && s.blocks <= t.blocks && t.lastEmpty == s.lastEmpty
  {
    hide Flushed;
  }

  lemma FlushWorksheetsKeeps(s: State)
    ensures var t := FlushWorksheets(s);
      t.rawToBlock == s.rawToBlock && s.blocks <= t.blocks && t.lastEmpty == s.lastEmpty
  {
  }

  lemma ClosedKeeps(r: Renderer, s: State)
    ensures var t := Closed(r, s).s; t.rawToBlock == s.rawToBlock && s.blocks <= t.blocks
  {
  }

  lemma PlacedKeeps(s: State, index: nat, item: Item)
    ensures var t := Placed(s, index, item);
      if t.raised then t.s.rawToBlock == s.rawToBlock else |t.s.rawToBlock| == |s.rawToBlock| + 1
  {
  }

  /** Each item has one position; only a failing closing flush adds one more. */
  lemma {:induction false} OnePositionEach(r: Renderer, schemas: Schemas, items: seq<Item>, n: nat)
    requires n <= |items|
    ensures |After(r, schemas, items, n).rawToBlock|
         == if n == |items| && ClosingFails(r, schemas, items) then n + 1 else n
  {
    hide Opened, Placed, Closed, EmptyAfter;
    if n > 0 {
      OnePositionEach(r, schemas, items, n - 1);
      var s := After(r, schemas, items, n - 1);
      OpenedKeeps(r, s, items[n - 1]);
      var t := Opened(r, s, items[n - 1]).s;
      PlacedKeeps(t, n - 1, items[n - 1]);
      ClosedKeeps(r, Placed(t, n - 1, items[n - 1]).s);
    }
  }

  ghost predicate Rising(ps: seq<Position>) {
    forall i, j :: 0 <= i < j < |ps| && ps[i].Some? && ps[j].Some? ==> ps[i].value.0 <= ps[j].value.0
  }

  /** Positions rise, and none points past block `top`. */
  ghost predicate RisingTo(ps: seq<Position>, top: int) {
    Rising(ps) && forall i :: 0 <= i < |ps| && ps[i].Some? ==> ps[i].value.0 <= top
  }

  lemma RisingSnoc(ps: seq<Position>, p: Position, top: int, more: int)
    requires RisingTo(ps, top) && top <= more && (p.Some? ==> top <= p.value.0 <= more)
    ensures RisingTo(ps + [p], more)
  {
  }

  /** No position points past the next block, and none points at a block to come while a
      paragraph of markup is still open. */
  ghost predicate Below(s: State) {
    RisingTo(s.rawToBlock, |s.blocks| - if s.lastEmpty || s.rawToBlock == [] then 0 else 1)
  }

  /** The new position is the block the item is in or will be in. */
  lemma PlacedTop(s: State, index: nat, item: Item)
    requires IsCommand(item, "schema") ==> s.schemaIds == []
    ensures var t := Placed(s, index, item);
      && (t.raised ==> t.s.rawToBlock == s.rawToBlock && t.s.blocks == s.blocks)
      && (!t.raised ==>
            var joins := item.MarkupItem? && Joins(s, item.text);
            var own := joins || (item.MarkupItem? && item.text != "")
              || (item.DirectiveItem? && (IsCommand(item, "search") || IsCommand(item, "wsearch")));
            var top := if joins then |s.blocks| - 1 else |s.blocks|;
            && |t.s.rawToBlock| == |s.rawToBlock| + 1
            && t.s.rawToBlock == s.rawToBlock + [t.s.rawToBlock[|s.rawToBlock|]]
            && (t.s.rawToBlock[|s.rawToBlock|].Some? ==> t.s.rawToBlock[|s.rawToBlock|].value.0 == top)
            && |t.s.blocks| == top + if own then 1 else 0)
  {
    var t := Placed(s, index, item);
    if !t.raised {
      var n := |s.rawToBlock|;
      assert t.s.rawToBlock == s.rawToBlock + [t.s.rawToBlock[n]];
    }
  }

  lemma PlacedRises(s: State, index: nat, item: Item)
    requires RisingTo(s.rawToBlock, |s.blocks| - if s.lastEmpty || s.rawToBlock == [] then 0 else 1)
    requires IsCommand(item, "schema") ==> s.schemaIds == []
    ensures var t := Placed(s, index, item);
      RisingTo(t.s.rawToBlock, |t.s.blocks| - if !t.raised && item.MarkupItem? && item.text != "" then 1 else 0)
  {
    PlacedTop(s, index, item);
    hide Placed, Rising, IsCommand;
    var t := Placed(s, index, item);
    if !t.raised {
      var n := |s.rawToBlock|;
      var top := if item.MarkupItem? && Joins(s, item.text) then |s.blocks| - 1 else |s.blocks|;
      RisingSnoc(s.rawToBlock, t.s.rawToBlock[n], top, top);
    }
  }

  lemma OpenedSchema(r: Renderer, s: State, item: Item)
    requires IsCommand(item, "schema") && !Opened(r, s, item).raised
    ensures Opened(r, s, item).s.schemaIds == []
  {
  }

  lemma HandledRises(s: State)
    requires RisingTo(s.rawToBlock, |s.blocks|)
    ensures RisingTo(Handled(s).rawToBlock, |Handled(s).blocks| - 1)
  {
    RisingSnoc(s.rawToBlock, Some((|s.blocks|, 0)), |s.blocks|, |s.blocks|);
  }

  lemma StepRises(r: Renderer, s: State, index: nat, item: Item, last: bool)
    requires Below(s)
    ensures Below(Step(r, s, index, item, last))
  {
    hide Opened, Placed, Closed, Rising, IsCommand;
    OpenedKeeps(r, s, item);
    var t := Opened(r, s, item);
    if t.raised {
      HandledRises(t.s);
    } else {
      if IsCommand(item, "schema") {
        OpenedSchema(r, s, item);
      }
      PlacedRises(t.s, index, item);
      var u := Placed(t.s, index, item);
      if u.raised {
        HandledRises(u.s);
      } else if last {
        ClosedKeeps(r, u.s);
        HandledRises(Closed(r, u.s).s);
      }
    }
  }

  /** Block numbers never decrease, whatever goes wrong on the way. */
  lemma {:induction false} PositionsRise(r: Renderer, schemas: Schemas, items: seq<Item>, n: nat)
    requires n <= |items|
    ensures Below(After(r, schemas, items, n))
  {
    assert Below(Initial(schemas));
    hide Step, Below;
    if n > 0 {
      PositionsRise(r, schemas, items, n - 1);
      StepRises(r, After(r, schemas, items, n - 1), n - 1, items[n - 1], n == |items|);
    }
  }
}
