/** The interpreter as it runs: the local state of the program as fields, changed by the main
    loop and its helpers, and the backward pass that fills in blank positions. */
module Interpreter {
  import opened Common
  import opened Interpret

  /** The next position at or after raw index `i` that was recorded. */
  function NextPosition(ps: seq<Position>, i: nat): Position
    requires i <= |ps|
    decreases |ps| - i
  {
    if i == |ps| then None else if ps[i].Some? then ps[i] else NextPosition(ps, i + 1)
  }

  /** It is the first recorded one, or there is none left. */
  lemma {:induction false} NextPositionIsFirst(ps: seq<Position>, i: nat, j: nat)
    requires i <= j < |ps| && ps[j].Some? && forall k :: i <= k < j ==> ps[k].None?
    ensures NextPosition(ps, i) == ps[j]
    decreases j - i
  {
    if i < j {
      NextPositionIsFirst(ps, i + 1, j);
    }
  }

  lemma {:induction false} NextPositionNone(ps: seq<Position>, i: nat)
    requires i <= |ps| && forall k :: i <= k < |ps| ==> ps[k].None?
    ensures NextPosition(ps, i) == None
    decreases |ps| - i
  {
    if i < |ps| {
      NextPositionNone(ps, i + 1);
    }
  }

  /** Filling in does not break the order of block numbers. */
  lemma {:induction false} FilledRises(ps: seq<Position>, i: nat, j: nat)
    requires Rising(ps) && i <= j < |ps| && NextPosition(ps, i).Some? && NextPosition(ps, j).Some?
    ensures NextPosition(ps, i).value.0 <= NextPosition(ps, j).value.0
    decreases |ps| - i, |ps| - j
  {
    if ps[i].None? {
      if i == j {
      } else {
        FilledRises(ps, i + 1, j);
      }
    } else if ps[j].None? && j + 1 < |ps| {
      FilledRises(ps, i, j + 1);
    }
  }

  /** `back` sends each position recorded at or after raw index `from` to the last raw index
      that holds it, and has nothing else. */
  ghost predicate BackToLast(ps: seq<Position>, from: nat, back: map<(nat, nat), nat>) {
    && (forall j :: from <= j < |ps| && ps[j].Some? ==> ps[j].value in back && j <= back[ps[j].value])
    && (forall key :: key in back ==> from <= back[key] < |ps| && ps[back[key]] == Some(key))
  }

  /** Go through the positions backwards: a blank takes the position after it, and each recorded
      position is sent back to the last raw index that holds it. */
  method FillBackward(ps: seq<Position>) returns (filled: seq<Position>, blockToRaw: map<(nat, nat), nat>)
    ensures |filled| == |ps| && forall i :: 0 <= i < |ps| ==> filled[i] == NextPosition(ps, i)
    ensures BackToLast(ps, 0, blockToRaw)
  {
    filled, blockToRaw := ps, map[];
    var next: Position := None;
    var i := |ps|;
    while i > 0
      invariant 0 <= i <= |ps| == |filled| && next == NextPosition(ps, i)
      invariant forall k :: 0 <= k < i ==> filled[k] == ps[k]
      invariant forall k :: i <= k < |ps| ==> filled[k] == NextPosition(ps, k)
      invariant BackToLast(ps, i, blockToRaw)
    {
      i := i - 1;
      if filled[i].None? {
        filled := filled[i := next];
      } else {
        next := filled[i];
        if next.value !in blockToRaw {
          blockToRaw := blockToRaw[next.value := i];
        }
      }
    }
  }

  class Interpreter {
    const renderer: Renderer
    var blocks: seq<Block>
    var bundles: seq<Bundle>
    var worksheets: seq<string>
    var rawToBlock: seq<Position>
    var schemas: map<string, seq<Field>>
    var current: Option<string>
    var schemaIds: seq<nat>
    var display: seq<string>
    var start: int
    var lastEmpty: bool

    ghost function View(): State
      reads this
    {
      State(blocks, bundles, worksheets, rawToBlock, schemas, current, schemaIds, display, start, lastEmpty)
    }

    constructor (renderer: Renderer, schemas: map<string, seq<Field>>)
      ensures View() == Initial(schemas) && this.renderer == renderer
    {
      this.renderer, this.schemas := renderer, schemas;
      blocks, bundles, worksheets, rawToBlock := [], [], [], [];
      current, schemaIds, display, start, lastEmpty := None, [], DEFAULT_DISPLAY, -1, false;
    }

    method FlushBundles() returns (raised: bool)
      modifies this
      ensures Try(View(), raised) == Interpret.FlushBundles(renderer, old(View()))
    {
      if bundles == [] {
        return false;
      }
      if display == [] {
        return true;
      }
      var mode, args := display[0], display[1..];
      if mode == "hidden" {
      } else if mode == "contents" || mode == "image" || mode == "record" {
        raised := FlushEach();
        if raised {
          return;
        }
      } else if mode == "table" {
        if exists b :: b in bundles && renderer.fails(schemas, display, b) {
          return true;
        }
        blocks := blocks + [Table(bundles, start)];
      } else if mode == "graph" {
        if !FileArgsOk(renderer, args, true) || exists b :: b in bundles && renderer.fails(schemas, display, b) {
          return true;
        }
        blocks := blocks + [Graph(bundles)];
      } else {
        return true;
      }
      bundles := [];
      raised := false;
    }

    /** One block a bundle, until one of them raises an error. */
    method FlushEach() returns (raised: bool)
      requires display != []
      modifies this`blocks
      ensures blocks == old(blocks) + EachFlushed(renderer, schemas, display, start, bundles).0
      ensures raised == EachFlushed(renderer, schemas, display, start, bundles).1
    {
      hide OneFlushed;
      ghost var all := EachFlushed(renderer, schemas, display, start, bundles);
      for i := 0 to |bundles|
        invariant var rest := EachFlushed(renderer, schemas, display, start, bundles[i..]);
          old(blocks) + all.0 == blocks + rest.0 && all.1 == rest.1
      {
        assert bundles[i..][1..] == bundles[i + 1..];
        var made := OneFlushed(renderer, schemas, display, start, bundles[i]);
        if made.None? {
          return true;
        }
        blocks := blocks + [made.value];
      }
      raised := false;
    }

    method FlushWorksheets()
      modifies this
      ensures View() == Interpret.FlushWorksheets(old(View()))
    {
      if worksheets != [] {
        blocks := blocks + [Subworksheets(worksheets)];
        worksheets := [];
      }
    }

    method FlushSchema()
      modifies this
      ensures View() == Interpret.FlushSchema(old(View()))
    {
      if current.Some? {
        blocks := blocks + [Schema(current.value, SchemaFields(schemas, current), schemaIds)];
      }
    }

    method Open(item: Item) returns (raised: bool)
      modifies this
      ensures Try(View(), raised) == Opened(renderer, old(View()), item)
    {
      if !item.BundleItem? {
        raised := FlushBundles();
        if raised {
          return;
        }
        start := -1;
      }
      if !item.SubworksheetItem? {
        FlushWorksheets();
      }
      if !(item.BundleItem? || IsCommand(item, "search")) {
        display := DEFAULT_DISPLAY;
      }
      if !(IsCommand(item, "add") || IsCommand(item, "addschema")) {
        FlushSchema();
        current, schemaIds := None, [];
      }
      raised := false;
    }

    method Place(index: nat, item: Item) returns (raised: bool)
      modifies this
      ensures Try(View(), raised) == Placed(old(View()), index, item)
    {
      raised := false;
      match item
      case BundleItem(b) =>
        if start == -1 {
          start := index;
        }
        rawToBlock := rawToBlock + [Some((|blocks|, |bundles|))];
        bundles := bundles + [b];
      case SubworksheetItem(u) =>
        rawToBlock := rawToBlock + [Some((|blocks|, |worksheets|))];
        worksheets := worksheets + [u];
      case MarkupItem(text, id) =>
        if text == "" {
          rawToBlock := rawToBlock + [None];
        } else {
          var n := |blocks| - 1;
          if n >= 0 && blocks[n].Markup? && !lastEmpty {
            blocks := blocks[..n] + [Markup(blocks[n].lines + [text], blocks[n].ids + [id])];
          } else {
            blocks := blocks + [Markup([text], [id])];
          }
          rawToBlock := rawToBlock + [Some((|blocks| - 1, 0))];
        }
      case DirectiveItem(tokens, id) =>
        raised := PlaceDirective(tokens, id);
    }

    method PlaceDirective(tokens: seq<string>, id: nat) returns (raised: bool)
      modifies this
      ensures Try(View(), raised) == PlacedDirective(old(View()), tokens, id)
    {
      var appended := false;
      if tokens == [] || tokens[0] == "%" || tokens[0] == "" {
      } else if tokens[0] == "schema" {
        if |tokens| < 2 {
          return true;
        }
        schemaIds := schemaIds + [id];
        current, schemas := Some(tokens[1]), schemas[tokens[1] := []];
        rawToBlock := rawToBlock + [Some((|blocks| - 1 + |schemaIds|, 0))];
        appended := true;
      } else if tokens[0] == "addschema" {
        if current.None? || |tokens| < 2 {
          return true;
        }
        schemaIds := schemaIds + [id];
        if tokens[1] !in schemas {
          return true;
        }
        schemas := schemas[current.value := SchemaFields(schemas, current) + schemas[tokens[1]]];
      } else if tokens[0] == "add" {
        if current.None? {
          return true;
        }
        schemaIds := schemaIds + [id];
        if !(2 <= |tokens| <= 4) {
          return true;
        }
        schemas := schemas[current.value := SchemaFields(schemas, current) + [Field(tokens[1..], current.value)]];
      } else if tokens[0] == "display" {
        display := tokens[1..];
      } else if tokens[0] == "search" || tokens[0] == "wsearch" {
        blocks := blocks + [Placeholder(tokens)];
        appended := true;
        rawToBlock := rawToBlock + [Some((|blocks| - 1, 0))];
      } else {
        return true;
      }
      if !appended {
        rawToBlock := rawToBlock + [None];
      }
      raised := false;
    }

    method Close() returns (raised: bool)
      modifies this
      ensures Try(View(), raised) == Closed(renderer, old(View()))
    {
      raised := FlushBundles();
      if !raised {
        start := -1;
        FlushWorksheets();
        FlushSchema();
      }
    }

    /** The error branch: drop what is held back and leave an error block. */
    method Handle()
      modifies this
      ensures View() == Handled(old(View()))
    {
      current, bundles, worksheets := None, [], [];
      blocks := blocks + [ERROR];
      rawToBlock := rawToBlock + [Some((|blocks| - 1, 0))];
    }

    method TryItem(index: nat, item: Item, last: bool) returns (raised: bool, empty: bool)
      modifies this
      ensures Try(View(), raised) == Attempt(renderer, old(View()), index, item, last)
      ensures empty == EmptyAfter(renderer, old(View()), item)
    {
      hide Opened, Placed, Closed;
      raised := Open(item);
      empty := true;
      if !raised {
        empty := !(item.MarkupItem? && item.text != "");
        raised := Place(index, item);
        if !raised && last {
          raised := Close();
        }
      }
    }

    /** One pass over the raw items. */
    method Run(items: seq<Item>, ghost initial: map<string, seq<Field>>)
      requires View() == Initial(initial)
      modifies this
      ensures View() == After(renderer, initial, items, |items|)
    {
      hide Attempt, EmptyAfter, Handled;
      for i := 0 to |items|
        invariant View() == After(renderer, initial, items, i)
      {
        var raised, empty := TryItem(i, items[i], i == |items| - 1);
        if raised {
          Handle();
        }
        lastEmpty := empty;
      }
    }
  }

  /** What an interpretation returns: the blocks, a position for each raw item with the blanks
      filled in, and the way back. */
  ghost predicate Interpreted(s: State, blocks: seq<Block>, rawToBlock: seq<Position>, back: map<(nat, nat), nat>) {
    && blocks == s.blocks && |rawToBlock| == |s.rawToBlock| && Rising(rawToBlock)
    && (forall i :: 0 <= i < |rawToBlock| ==> rawToBlock[i] == NextPosition(s.rawToBlock, i))
    && BackToLast(s.rawToBlock, 0, back)
  }

  /** The whole interpretation: the pass over the items and the backward pass. */
  method InterpretItems(renderer: Renderer, schemas: map<string, seq<Field>>, items: seq<Item>)
    returns (blocks: seq<Block>, rawToBlock: seq<Position>, blockToRaw: map<(nat, nat), nat>)
    ensures Interpreted(After(renderer, schemas, items, |items|), blocks, rawToBlock, blockToRaw)
    ensures |rawToBlock| == |items| + if ClosingFails(renderer, schemas, items) then 1 else 0
  {
    var interpreter := new Interpreter(renderer, schemas);
    interpreter.Run(items, schemas);
    OnePositionEach(renderer, schemas, items, |items|);
    PositionsRise(renderer, schemas, items, |items|);
    hide After, ClosingFails;
    var filled, back := FillBackward(interpreter.rawToBlock);
    forall i, j | 0 <= i < j < |filled| && filled[i].Some? && filled[j].Some?
      ensures filled[i].value.0 <= filled[j].value.0
    {
      FilledRises(interpreter.rawToBlock, i, j);
    }
    blocks, rawToBlock, blockToRaw := interpreter.blocks, filled, back;
  }
}
