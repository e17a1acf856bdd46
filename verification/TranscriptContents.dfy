/** What the published frames say, told from a transcript's bytes, lines and content blocks alone: no
    running state, so a tool result's name is looked up in the blocks before it. */
module TranscriptContents {
  import opened Bytes
  import opened TranscriptModel

  // ----- lines --------------------------------------------------------------

  function Unlines(lines: seq<Bytes>): Bytes {
    if lines == [] then [] else lines[0] + [10] + Unlines(lines[1..])
  }

  /** A line and its token: without a carriage return at its end. */
  predicate IsToken(line: Bytes, token: Bytes) {
    10 !in line && (line == token + [13] || (line == token && (line == [] || line[|line| - 1] != 13)))
  }

  /** Nothing, or a line that does not end within the scanner's buffer. */
  predicate IsOverlong(z: Bytes) {
    z != [] ==> |z| >= 4 * 1024 * 1024 && 10 !in z[..4 * 1024 * 1024]
  }

  lemma FirstToken(data: Bytes)
    requires data != []
    ensures IsToken(FirstLine(data), DropCR(FirstLine(data)))
    ensures data + (if LineEnd(data) == |data| then [10] else []) == FirstLine(data) + [10] + RestOf(data)
  {
    SplitAt(data, LineEnd(data));
    DroppedCR(FirstLine(data));
    hide LineEnd, IsToken, DropCR;
  }

  lemma SplitAt(data: Bytes, n: nat)
    requires n <= |data| && (n < |data| ==> data[n] == 10)
    ensures data + (if n == |data| then [10] else []) == data[..n] + [10] + (if n < |data| then data[n + 1..] else [])
  {
    if n == |data| {
      assert data[..n] == data && data + [10] + [] == data + [10];
    } else {
      assert data + [] == data && data[..n] + [10] + data[n + 1..] == data;
    }
  }

  lemma DroppedCR(line: Bytes)
    requires 10 !in line
    ensures IsToken(line, DropCR(line))
  {
    if |line| > 0 && line[|line| - 1] == CR {
      assert line == line[..|line| - 1] + [13];
    }
  }

  /** The tokens are the file's lines in order, up to its end - a newline that the last line lacks
      being supplied - or up to a line too long to scan. */
  lemma {:induction false} TokensAreLines(data: Bytes) returns (lines: seq<Bytes>, z: Bytes)
    ensures |lines| == |Tokens(data)| && forall i | 0 <= i < |lines| :: IsToken(lines[i], Tokens(data)[i])
    ensures IsOverlong(z) && (z == [] <==> Short(data))
    ensures Unlines(lines) + z == data || (z == [] && WholeLines(data) == false && Unlines(lines) == data + [10])
    decreases |data|
  {
    if data == [] {
      NothingToScan();
      return [], [];
    }
    hide IsToken, IsOverlong, WholeLines;
    if LineEnd(data) >= MAX_LINE {
      Overlong(data);
      return [], data;
    }
    FirstToken(data);
    WholeRest(data);
    var line, rest := FirstLine(data), RestOf(data);
    assert Tokens(data) == [DropCR(line)] + Tokens(rest) && Short(data) == Short(rest);
    if LineEnd(data) == |data| {
      JustOne(line);
      return [line], [];
    }
    hide *;
    var more;
    more, z := TokensAreLines(rest);
    lines := [line] + more;
    UnlinesCons(line, more);
    Regroup(line + [10], Unlines(more), z);
    Regroup(line + [10], rest, [10]);
  }

  lemma Overlong(data: Bytes)
    requires data != [] && LineEnd(data) >= MAX_LINE
    ensures IsOverlong(data) && Tokens(data) == [] && !Short(data)
  {
    assert data[..MAX_LINE] == data[..LineEnd(data)][..MAX_LINE];
  }

  lemma JustOne(line: Bytes)
    ensures Unlines([line]) == line + [10] && Tokens([]) == [] && Short([])
  {
    assert [line][1..] == [] && line + [10] + [] == line + [10];
  }

  lemma WholeRest(data: Bytes)
    requires data != []
    ensures LineEnd(data) == |data| ==> RestOf(data) == [] && !WholeLines(data)
    ensures LineEnd(data) < |data| ==> WholeLines(data) == WholeLines(RestOf(data))
    ensures |RestOf(data)| < |data|
  {
    if LineEnd(data) == |data| {
      assert data[..LineEnd(data)] == data && data[|data| - 1] in data;
    }
  }

  lemma UnlinesCons(line: Bytes, more: seq<Bytes>)
    ensures Unlines([line] + more) == line + [10] + Unlines(more)
  {
    assert ([line] + more)[1..] == more;
  }

  // ----- blocks -------------------------------------------------------------

  /** What a transcript holds, in order: the blocks of its messages, bare texts, and notes, token
      counts and ends of turns between them. */
  datatype Item =
    | Said(block: Block, role: string)
    | Plain(text: string, role: string)
    | Note(note: string)
    | Spent(usage: string)
    | End(reason: string)

  function ItemsOfContent(c: Content, role: string): seq<Item> {
    match c
    case Bare(text) => [Plain(text, role)]
    case Blocks(bs) => seq(|bs|, i requires 0 <= i < |bs| => Said(bs[i], role))
    case _ => []
  }

  function Optionally(usage: Option<string>): seq<Item> {
    match usage case None => [] case Some(u) => [Spent(u)]
  }

  function ItemsOfEntry(e: Entry): seq<Item> {
    match e
    case SystemInit(info) => [Note(info)]
    case PermissionMode(mode) => [Note(mode)]
    case Assistant(c, usage) => ItemsOfContent(c, "assistant") + Optionally(usage)
    case User(c) => ItemsOfContent(c, "user")
    case Outcome(usage, reason) => Optionally(usage) + [End(reason)]
    case Ignored => []
  }

  /** A line that does not start an object, or does not decode, holds nothing. */
  function ItemsOfLine(parse: Parser, line: Bytes): seq<Item> {
    if line == [] || line[0] != 123 || parse(line) == None then [] else ItemsOfEntry(parse(line).value)
  }

  function ItemsOf(parse: Parser, lines: seq<Bytes>): seq<Item>
    decreases |lines|
  {
    if lines == [] then [] else ItemsOf(parse, lines[..|lines| - 1]) + ItemsOfLine(parse, lines[|lines| - 1])
  }

  // ----- what is published of them ------------------------------------------

  /** Item j uses a tool by name under this id. */
  predicate Uses(items: seq<Item>, j: nat, id: string)
    requires j < |items|
  {
    items[j].Said? && items[j].block.ToolUse? && items[j].block.id == id != "" && items[j].block.name != ""
  }

  ghost predicate LastUse(items: seq<Item>, k: nat, id: string, j: nat)
    requires k <= |items|
  {
    j < k && Uses(items, j, id) && forall m | j < m < k :: !Uses(items, m, id)
  }

  /** The name of the last tool used under this id before item k, and "" if and only if there is none. */
  ghost predicate NameFor(items: seq<Item>, k: nat, id: string, name: string)
    requires k <= |items|
  {
    if exists j | 0 <= j < k :: Uses(items, j, id)
    then exists j | 0 <= j < k :: LastUse(items, k, id, j) && name == items[j].block.name
    else name == ""
  }

  /** The frames published of item k. */
  ghost predicate Told(items: seq<Item>, k: nat, pubs: seq<Pub>)
    requires k < |items|
  {
    match items[k]
    case Said(TextBlock(text), role) => pubs == if text == "" then [] else [Text(text, role)]
    case Said(ThinkingBlock(text), _) => pubs == if text == "" then [] else [Thinking(text)]
    case Said(ToolUse(id, name, input, todos), _) =>
      pubs == (if name == "TodoWrite" && todos != [] then [Todos(todos)] else []) + [ToolStart(id, name, input)]
    case Said(ToolResult(id, content, isError), _) => exists name | NameFor(items, k, id, name) :: pubs == [ToolDone(id, name, content, isError)]
    case Said(OtherBlock, _) => pubs == []
    case Plain(text, role) => pubs == if text == "" then [] else [Text(text, role)]
    case Note(note) => pubs == [Meta(note)]
    case Spent(usage) => pubs == [Usage(usage)]
    case End(reason) => pubs == [Stop(reason)]
  }

  function Flat(told: seq<seq<Pub>>): seq<Pub>
    decreases |told|
  {
    if told == [] then [] else Flat(told[..|told| - 1]) + told[|told| - 1]
  }

  /** These frames are what is published of the items, item by item. */
  ghost predicate Tells(items: seq<Item>, pubs: seq<Pub>) {
    exists told: seq<seq<Pub>> :: TellsAs(items, told, pubs)
  }

  ghost predicate TellsAs(items: seq<Item>, told: seq<seq<Pub>>, pubs: seq<Pub>) {
    |told| == |items| && pubs == Flat(told) && forall k | 0 <= k < |items| :: Told(items, k, told[k])
  }

  // ----- the running state keeps the account --------------------------------

  function Known(names: map<string, string>, id: string): string {
    if id in names then names[id] else ""
  }

  ghost predicate NamesOk(items: seq<Item>, names: map<string, string>) {
    forall id :: NameFor(items, |items|, id, Known(names, id))
  }

  ghost predicate Ledger(items: seq<Item>, s: Feed) {
    Tells(items, s.pubs) && NamesOk(items, s.names)
  }

  function OnItem(s: Feed, it: Item): Feed {
    match it
    case Said(b, role) => OnBlock(s, b, role)
    case Plain(text, role) => if text == "" then s else Publish(s, Text(text, role))
    case Note(note) => Publish(s, Meta(note))
    case Spent(usage) => Publish(s, Usage(usage))
    case End(reason) => Publish(s, Stop(reason))
  }

  function OnItems(s: Feed, items: seq<Item>): Feed
    decreases |items|
  {
    if items == [] then s else OnItem(OnItems(s, items[..|items| - 1]), items[|items| - 1])
  }

  lemma {:induction false} OnItemsAppend(s: Feed, xs: seq<Item>, ys: seq<Item>)
    ensures OnItems(s, xs + ys) == OnItems(OnItems(s, xs), ys)
    decreases |ys|
  {
    hide OnItem;
    if ys == [] {
      assert xs + ys == xs;
    } else {
      assert (xs + ys)[..|xs + ys| - 1] == xs + ys[..|ys| - 1];
      OnItemsAppend(s, xs, ys[..|ys| - 1]);
    }
  }

  lemma {:induction false} BlocksAreItems(s: Feed, bs: seq<Block>, role: string)
    ensures OnBlocks(s, bs, role) == OnItems(s, ItemsOfContent(Blocks(bs), role))
    decreases |bs|
  {
    hide OnBlock;
    if bs != [] {
      var n := |bs| - 1;
      BlocksAreItems(s, bs[..n], role);
      var items := ItemsOfContent(Blocks(bs), role);
      assert items[..n] == ItemsOfContent(Blocks(bs[..n]), role) && items[n] == Said(bs[n], role);
    }
  }

  lemma OneItem(s: Feed, it: Item)
    ensures OnItems(s, [it]) == OnItem(s, it)
  {
    hide OnItem;
    assert [it][..0] == [];
  }

  lemma ContentIsItems(s: Feed, c: Content, role: string)
    ensures OnContent(s, c, role) == OnItems(s, ItemsOfContent(c, role))
  {
    match c {
      case Blocks(bs) => BlocksAreItems(s, bs, role);
      case Bare(text) => OneItem(s, Plain(text, role));
      case _ =>
    }
  }

  lemma EntryIsItems(s: Feed, e: Entry)
    ensures OnEntry(s, e) == OnItems(s, ItemsOfEntry(e))
  {
    hide OnItems, OnContent, ItemsOfContent;
    match e {
      case SystemInit(info) => OneItem(s, Note(info));
      case PermissionMode(mode) => OneItem(s, Note(mode));
      case Assistant(c, usage) =>
        ContentIsItems(s, c, "assistant");
        OnItemsAppend(s, ItemsOfContent(c, "assistant"), Optionally(usage));
        OptionIsItems(OnContent(s, c, "assistant"), usage);
      case User(c) => ContentIsItems(s, c, "user");
      case Outcome(usage, reason) =>
        OptionIsItems(s, usage);
        OnItemsAppend(s, Optionally(usage), [End(reason)]);
        OneItem(OnItems(s, Optionally(usage)), End(reason));
      case Ignored => NoItems(s);
    }
  }

  lemma NoItems(s: Feed)
    ensures OnItems(s, []) == s
  {
  }

  lemma OptionIsItems(s: Feed, usage: Option<string>)
    ensures OnItems(s, Optionally(usage)) == if usage.Some? then Publish(s, Usage(usage.value)) else s
  {
    if usage.Some? {
      OneItem(s, Spent(usage.value));
    }
  }

  lemma {:induction false} LinesAreItems(parse: Parser, s: Feed, lines: seq<Bytes>)
    ensures OnLines(parse, s, lines) == OnItems(s, ItemsOf(parse, lines))
    decreases |lines|
  {
    hide OnEntry, ItemsOfEntry, OnItem;
    if lines != [] {
      var n := |lines| - 1;
      LinesAreItems(parse, s, lines[..n]);
      var t := OnLines(parse, s, lines[..n]);
      OnItemsAppend(s, ItemsOf(parse, lines[..n]), ItemsOfLine(parse, lines[n]));
      if lines[n] != [] && lines[n][0] == BRACE && parse(lines[n]).Some? {
        EntryIsItems(t, parse(lines[n]).value);
      } else {
        NoItems(t);
      }
    }
  }

  lemma NameForPrefix(items: seq<Item>, it: Item, k: nat, id: string, name: string)
    requires k <= |items|
    ensures NameFor(items + [it], k, id, name) == NameFor(items, k, id, name)
  {
    var more := items + [it];
    forall j | 0 <= j < k ensures more[j] == items[j] && Uses(more, j, id) == Uses(items, j, id) {
    }
    forall j | 0 <= j < k ensures LastUse(more, k, id, j) == LastUse(items, k, id, j) {
    }
  }

  lemma ToldPrefix(items: seq<Item>, it: Item, k: nat, pubs: seq<Pub>)
    requires k < |items|
    ensures Told(items + [it], k, pubs) == Told(items, k, pubs)
  {
    assert (items + [it])[k] == items[k];
    if items[k].Said? && items[k].block.ToolResult? {
      forall name ensures NameFor(items + [it], k, items[k].block.toolUseId, name) == NameFor(items, k, items[k].block.toolUseId, name) {
        NameForPrefix(items, it, k, items[k].block.toolUseId, name);
      }
    }
    hide NameFor;
  }

  lemma NamesStep(items: seq<Item>, s: Feed, it: Item)
    requires NamesOk(items, s.names)
    ensures NamesOk(items + [it], OnItem(s, it).names)
  {
    var more, names := items + [it], OnItem(s, it).names;
    forall id ensures NameFor(more, |more|, id, Known(names, id)) {
      assert NameFor(items, |items|, id, Known(s.names, id));
      NameForPrefix(items, it, |items|, id, Known(s.names, id));
      if Uses(more, |items|, id) {
        assert LastUse(more, |more|, id, |items|);
      } else {
        OneMore(more, id, Known(s.names, id));
      }
    }
  }

  lemma OneMore(items: seq<Item>, id: string, name: string)
    requires items != [] && NameFor(items, |items| - 1, id, name) && !Uses(items, |items| - 1, id)
    ensures NameFor(items, |items|, id, name)
  {
    var n := |items| - 1;
    if exists j | 0 <= j < n :: Uses(items, j, id) {
      var j :| 0 <= j < n && LastUse(items, n, id, j) && name == items[j].block.name;
      assert LastUse(items, n + 1, id, j);
    }
  }

  /** What one item publishes, in the light of the names known. */
  function PubsOf(s: Feed, it: Item): seq<Pub> {
    OnItem(Feed([], s.names), it).pubs
  }

  lemma StepTells(items: seq<Item>, s: Feed, it: Item)
    requires Ledger(items, s)
    ensures Ledger(items + [it], OnItem(s, it))
  {
    NamesStep(items, s, it);
    var told: seq<seq<Pub>> :| TellsAs(items, told, s.pubs);
    var more, pubs := items + [it], PubsOf(s, it);
    PubsAdded(s, it);
    NewIsTold(items, s, it);
    hide OnItem, Told, NamesOk, PubsOf;
    assert (told + [pubs])[..|told|] == told;
    forall k | 0 <= k < |more| ensures Told(more, k, (told + [pubs])[k]) {
      if k < |items| {
        ToldPrefix(items, it, k, told[k]);
      }
    }
    assert TellsAs(more, told + [pubs], s.pubs + pubs);
  }

  lemma PubsAdded(s: Feed, it: Item)
    ensures OnItem(s, it).pubs == s.pubs + PubsOf(s, it)
  {
  }

  lemma NewIsTold(items: seq<Item>, s: Feed, it: Item)
    requires NamesOk(items, s.names)
    ensures Told(items + [it], |items|, PubsOf(s, it))
  {
    if it.Said? && it.block.ToolResult? {
      var id := it.block.toolUseId;
      assert NameFor(items, |items|, id, Known(s.names, id));
      NameForPrefix(items, it, |items|, id, Known(s.names, id));
    }
    hide NameFor;
  }

  lemma {:induction false} ItemsTell(items: seq<Item>)
    ensures Ledger(items, OnItems(SILENT, items))
    decreases |items|
  {
    if items == [] {
      assert TellsAs([], [], []);
    } else {
      var n := |items| - 1;
      ItemsTell(items[..n]);
      StepTells(items[..n], OnItems(SILENT, items[..n]), items[n]);
      assert items[..n] + [items[n]] == items;
    }
  }

  /** The frames published of any file are those of its items in order: texts with their roles,
      thinking, todos before their tool's start, each tool result with the name of the last tool used
      under its id before it, token counts, notes and ends of turns. */
  lemma ReplayTells(parse: Parser, file: Bytes)
    ensures Tells(ItemsOf(parse, Tokens(file)), Replay(parse, file).pubs)
  {
    LinesAreItems(parse, SILENT, Tokens(file));
    ItemsTell(ItemsOf(parse, Tokens(file)));
    hide Tokens, OnLines, OnItems, ItemsOf, Tells;
  }
}
