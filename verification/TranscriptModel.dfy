/** The transcript tailer of internal/cctranscript/watcher.go: how a line scanner accounts for a
    file's bytes, what a line publishes, and what a schedule of appends and polls publishes. */
module TranscriptModel {
  import opened Bytes

  const CR: byte := 13
  const BRACE: byte := 123           // '{'
  const MAX_LINE: nat := 4 * 1024 * 1024

  // ----- lines --------------------------------------------------------------

  /** The length of the first line, without its newline. */
  function LineEnd(data: Bytes): (n: nat)
    ensures n <= |data|
    ensures NL !in data[..n]
    ensures n < |data| ==> data[n] == NL
  {
    if data == [] || data[0] == NL then 0
    else
      assert data[..1 + LineEnd(data[1..])] == [data[0]] + data[1..][..LineEnd(data[1..])];
      1 + LineEnd(data[1..])
  }

  function DropCR(line: Bytes): Bytes {
    if |line| > 0 && line[|line| - 1] == CR then line[..|line| - 1] else line
  }

  function FirstLine(data: Bytes): Bytes {
    data[..LineEnd(data)]
  }

  /** What follows the first line and its newline. */
  function RestOf(data: Bytes): (rest: Bytes)
    ensures data != [] ==> |rest| < |data|
  {
    if LineEnd(data) < |data| then data[LineEnd(data) + 1..] else []
  }

  /** The tokens of bufio.ScanLines: carriage returns dropped, a last line without newline still a
      token, and nothing more after a line that fills the scanner's buffer. */
  function Tokens(data: Bytes): seq<Bytes>
    decreases |data|
  {
    if data == [] || LineEnd(data) >= MAX_LINE then [] else [DropCR(FirstLine(data))] + Tokens(RestOf(data))
  }

  /** What the tailer adds to its offset: each token and one byte for its newline. */
  function Counted(tokens: seq<Bytes>): nat {
    if tokens == [] then 0 else |tokens[0]| + 1 + Counted(tokens[1..])
  }

  /** No line fills the scanner's buffer. */
  predicate Short(data: Bytes)
    decreases |data|
  {
    data == [] || (LineEnd(data) < MAX_LINE && Short(RestOf(data)))
  }

  /** How many carriage returns are dropped. */
  function Stripped(data: Bytes): nat
    decreases |data|
  {
    if data == [] then 0 else |FirstLine(data)| - |DropCR(FirstLine(data))| + Stripped(RestOf(data))
  }

  function Unterminated(data: Bytes): nat {
    if data != [] && data[|data| - 1] != NL then 1 else 0
  }

  /** The exact account: every carriage return dropped is missing from the count, and a missing last
      newline is counted all the same. */
  lemma {:induction false} CountedBytes(data: Bytes)
    requires Short(data)
    ensures Counted(Tokens(data)) + Stripped(data) == |data| + Unterminated(data)
    decreases |data|
  {
    if data != [] {
      RestAccount(data);
      var first, rest := DropCR(FirstLine(data)), RestOf(data);
      CountedBytes(rest);
      hide LineEnd, FirstLine, RestOf, DropCR, Unterminated;
      CountedCons(first, Tokens(rest));
    }
  }

  lemma CountedCons(first: Bytes, tokens: seq<Bytes>)
    ensures Counted([first] + tokens) == |first| + 1 + Counted(tokens)
  {
    assert ([first] + tokens)[1..] == tokens;
  }

  lemma RestAccount(data: Bytes)
    requires data != []
    ensures |FirstLine(data)| + 1 + |RestOf(data)| + Unterminated(RestOf(data)) == |data| + Unterminated(data)
  {
    var n := LineEnd(data);
    assert n == |data| ==> data[..n] == data && data[|data| - 1] in data[..n];
  }

  /** Zero or more lines, each ended by a newline. */
  predicate WholeLines(data: Bytes) {
    data == [] || data[|data| - 1] == NL
  }

  lemma {:induction false} LineEndAppend(x: Bytes, y: Bytes)
    requires x != [] && WholeLines(x)
    ensures LineEnd(x) < |x| && LineEnd(x + y) == LineEnd(x)
    decreases |x|
  {
    if x[0] != NL {
      assert (x + y)[1..] == x[1..] + y;
      LineEndAppend(x[1..], y);
    }
  }

  lemma FirstLineAppend(x: Bytes, y: Bytes)
    requires x != [] && WholeLines(x)
    ensures FirstLine(x + y) == FirstLine(x) && RestOf(x + y) == RestOf(x) + y && WholeLines(RestOf(x))
  {
    LineEndAppend(x, y);
    hide LineEnd;
    assert (x + y)[..LineEnd(x)] == x[..LineEnd(x)];
  }

  lemma {:induction false} TokensAppend(x: Bytes, y: Bytes)
    requires WholeLines(x) && Short(x)
    ensures Tokens(x + y) == Tokens(x) + Tokens(y)
    decreases |x|
  {
    hide LineEnd, FirstLine, RestOf, DropCR;
    if x == [] {
      assert x + y == y;
    } else {
      LineEndAppend(x, y);
      FirstLineAppend(x, y);
      TokensAppend(RestOf(x), y);
      var first := DropCR(FirstLine(x));
      assert Tokens(x) == [first] + Tokens(RestOf(x));
      assert Tokens(x + y) == [first] + Tokens(RestOf(x) + y);
      hide Tokens;
      assert [first] + (Tokens(RestOf(x)) + Tokens(y)) == [first] + Tokens(RestOf(x)) + Tokens(y);
    }
  }

  lemma {:induction false} ShortAppend(x: Bytes, y: Bytes)
    requires WholeLines(x) && Short(x) && Short(y)
    ensures Short(x + y)
    decreases |x|
  {
    hide LineEnd, FirstLine, RestOf, DropCR;
    if x == [] {
      assert x + y == y;
    } else {
      LineEndAppend(x, y);
      FirstLineAppend(x, y);
      ShortAppend(RestOf(x), y);
    }
  }

  lemma {:induction false} StrippedAppend(x: Bytes, y: Bytes)
    requires WholeLines(x)
    ensures Stripped(x + y) == Stripped(x) + Stripped(y)
    decreases |x|
  {
    hide LineEnd, FirstLine, RestOf, DropCR;
    if x == [] {
      assert x + y == y;
    } else {
      FirstLineAppend(x, y);
      StrippedAppend(RestOf(x), y);
    }
  }

  // ----- what a line publishes ----------------------------------------------

  /** A content block of a transcript message. */
  datatype Block =
    | TextBlock(text: string)
    | ThinkingBlock(thinking: string)
    | ToolUse(id: string, name: string, input: string, todos: seq<string>)
    | ToolResult(toolUseId: string, content: string, isError: bool)
    | OtherBlock

  datatype Content = Absent | Bare(text: string) | Blocks(blocks: seq<Block>) | Malformed

  /** A parsed line, reduced to what publishing reads. */
  datatype Entry =
    | SystemInit(info: string)
    | PermissionMode(mode: string)
    | Assistant(said: Content, usage: Option<string>)
    | User(content: Content)
    | Outcome(total: Option<string>, reason: string)
    | Ignored

  datatype Pub =
    | Meta(note: string)
    | Text(text: string, role: string)
    | Thinking(text: string)
    | Todos(items: seq<string>)
    | ToolStart(id: string, tool: string, input: string)
    | ToolDone(id: string, tool: string, output: string, isError: bool)
    | Usage(usage: string)
    | Stop(reason: string)

  /** What has been published, and the tool names seen. */
  datatype Feed = Feed(pubs: seq<Pub>, names: map<string, string>)

  const SILENT := Feed([], map[])

  function Publish(s: Feed, p: Pub): Feed {
    s.(pubs := s.pubs + [p])
  }

  function OnBlock(s: Feed, b: Block, role: string): Feed {
    match b
    case TextBlock(text) => if text == "" then s else Publish(s, Text(text, role))
    case ThinkingBlock(text) => if text == "" then s else Publish(s, Thinking(text))
    case ToolUse(id, name, input, todos) =>
      var t := if id != "" && name != "" then s.(names := s.names[id := name]) else s;
      var u := if name == "TodoWrite" && todos != [] then Publish(t, Todos(todos)) else t;
      Publish(u, ToolStart(id, name, input))
    case ToolResult(id, content, isError) =>
      Publish(s, ToolDone(id, if id in s.names then s.names[id] else "", content, isError))
    case OtherBlock => s
  }

  function OnBlocks(s: Feed, bs: seq<Block>, role: string): Feed
    decreases |bs|
  {
    if bs == [] then s else OnBlock(OnBlocks(s, bs[..|bs| - 1], role), bs[|bs| - 1], role)
  }

  function OnContent(s: Feed, c: Content, role: string): Feed {
    match c
    case Absent => s
    case Bare(text) => if text == "" then s else Publish(s, Text(text, role))
    case Blocks(bs) => OnBlocks(s, bs, role)
    case Malformed => s
  }

  function OnEntry(s: Feed, e: Entry): Feed {
    match e
    case SystemInit(info) => Publish(s, Meta(info))
    case PermissionMode(mode) => Publish(s, Meta(mode))
    case Assistant(c, usage) =>
      var t := OnContent(s, c, "assistant");
      if usage.Some? then Publish(t, Usage(usage.value)) else t
    case User(c) => OnContent(s, c, "user")
    case Outcome(usage, reason) =>
      Publish(if usage.Some? then Publish(s, Usage(usage.value)) else s, Stop(reason))
    case Ignored => s
  }

  /** The JSON decoder: None when a line does not decode. */
  type Parser = Bytes -> Option<Entry>

  function OnLine(parse: Parser, s: Feed, line: Bytes): Feed {
    if line == [] || line[0] != BRACE then s
    else match parse(line) case None => s case Some(e) => OnEntry(s, e)
  }

  function OnLines(parse: Parser, s: Feed, lines: seq<Bytes>): Feed
    decreases |lines|
  {
    if lines == [] then s else OnLine(parse, OnLines(parse, s, lines[..|lines| - 1]), lines[|lines| - 1])
  }

  /** Reading the file once, from the start. */
  function Replay(parse: Parser, data: Bytes): Feed {
    OnLines(parse, SILENT, Tokens(data))
  }

  lemma {:induction false} OnLinesAppend(parse: Parser, s: Feed, xs: seq<Bytes>, ys: seq<Bytes>)
    ensures OnLines(parse, s, xs + ys) == OnLines(parse, OnLines(parse, s, xs), ys)
    decreases |ys|
  {
    hide OnLine;
    if ys == [] {
      assert xs + ys == xs;
    } else {
      assert (xs + ys)[..|xs + ys| - 1] == xs + ys[..|ys| - 1];
      OnLinesAppend(parse, s, xs, ys[..|ys| - 1]);
    }
  }

  // ----- the init callback --------------------------------------------------

  /** The callback while it is armed, and the session ids it has been called with. */
  datatype Hook = Hook(armed: bool, calls: seq<string>)

  /** The session id of a line that decodes, empty when it carries none. */
  type Sessions = Bytes -> string

  function SessionOf(parse: Parser, session: Sessions, line: Bytes): string {
    if line == [] || line[0] != BRACE || parse(line) == None then "" else session(line)
  }

  function OnHook(parse: Parser, session: Sessions, h: Hook, line: Bytes): Hook {
    var id := SessionOf(parse, session, line);
    if h.armed && id != "" then Hook(false, h.calls + [id]) else h
  }

  function OnHooks(parse: Parser, session: Sessions, h: Hook, lines: seq<Bytes>): Hook
    decreases |lines|
  {
    if lines == [] then h else OnHook(parse, session, OnHooks(parse, session, h, lines[..|lines| - 1]), lines[|lines| - 1])
  }

  /** An armed callback is called at most once, with the session id of the first line that carries
      one, and not again however often the lines are scanned; it stays armed if and only if no line
      carries one. */
  lemma {:induction false} CalledWithFirst(parse: Parser, session: Sessions, h: Hook, lines: seq<Bytes>)
    ensures var after := OnHooks(parse, session, h, lines);
            && (!h.armed ==> after == h)
            && (h.armed ==> (after.armed <==> forall i | 0 <= i < |lines| :: SessionOf(parse, session, lines[i]) == ""))
            && (after.armed ==> after == h)
            && (h.armed && !after.armed ==> CalledForFirst(parse, session, h, after, lines))
    decreases |lines|
  {
    hide SessionOf;
    if lines != [] {
      var n := |lines| - 1;
      CalledWithFirst(parse, session, h, lines[..n]);
      var mid, after := OnHooks(parse, session, h, lines[..n]), OnHooks(parse, session, h, lines);
      assert forall i | 0 <= i < n :: SessionOf(parse, session, lines[..n][i]) == SessionOf(parse, session, lines[i]);
      if h.armed && !mid.armed {
        var i :| 0 <= i < n && IsFirst(parse, session, lines[..n], i)
                 && mid.calls == h.calls + [SessionOf(parse, session, lines[..n][i])];
        assert IsFirst(parse, session, lines, i);
      } else if h.armed && !after.armed {
        assert IsFirst(parse, session, lines, n);
      }
    }
  }

  predicate CalledForFirst(parse: Parser, session: Sessions, h: Hook, after: Hook, lines: seq<Bytes>) {
    exists i | 0 <= i < |lines| ::
      IsFirst(parse, session, lines, i) && after.calls == h.calls + [SessionOf(parse, session, lines[i])]
  }

  predicate IsFirst(parse: Parser, session: Sessions, lines: seq<Bytes>, i: nat)
    requires i < |lines|
  {
    SessionOf(parse, session, lines[i]) != "" && forall j | 0 <= j < i :: SessionOf(parse, session, lines[j]) == ""
  }

  // ----- schedules ----------------------------------------------------------

  /** The file, the tailer's offset, and what it has published. */
  datatype Tail = Tail(file: Bytes, off: nat, feed: Feed)

  /** The file grows; or the tailer takes one turn of its loop, during which - between looking at
      the size and reading to the end - the file may grow once more. */
  datatype Event = Append(bytes: Bytes) | Poll(meanwhile: Bytes)

  function Turn(parse: Parser, t: Tail, size: nat): Tail {
    var off := if size < t.off then 0 else t.off;
    if size == off then t.(off := off)
    else
      var tokens := if off <= |t.file| then Tokens(t.file[off..]) else [];
      t.(off := off + Counted(tokens), feed := OnLines(parse, t.feed, tokens))
  }

  function Next(parse: Parser, t: Tail, e: Event): Tail {
    match e
    case Append(bytes) => t.(file := t.file + bytes)
    case Poll(meanwhile) => Turn(parse, t.(file := t.file + meanwhile), |t.file|)
  }

  const START := Tail([], 0, SILENT)

  function Run(parse: Parser, events: seq<Event>): Tail
    decreases |events|
  {
    if events == [] then START else Next(parse, Run(parse, events[..|events| - 1]), events[|events| - 1])
  }

  function Written(e: Event): Bytes {
    match e case Append(bytes) => bytes case Poll(meanwhile) => meanwhile
  }

  /** Whole lines that end in a bare newline, of any length. */
  predicate BareLines(data: Bytes) {
    WholeLines(data) && Stripped(data) == 0
  }

  /** Those that fit the scanner's buffer as well. */
  predicate Tidy(data: Bytes) {
    BareLines(data) && Short(data)
  }

  /** The offset is a line boundary, and what has been published is the replay of what lies before
      it. */
  ghost predicate TailOk(parse: Parser, t: Tail) {
    && t.off <= |t.file|
    && Tidy(t.file[..t.off]) && BareLines(t.file[t.off..])
    && t.feed == Replay(parse, t.file[..t.off])
  }

  lemma BareAppend(x: Bytes, y: Bytes)
    requires BareLines(x) && BareLines(y)
    ensures BareLines(x + y)
  {
    StrippedAppend(x, y);
    WholeAppend(x, y);
    hide Stripped, WholeLines;
  }

  lemma TidyAppend(x: Bytes, y: Bytes)
    requires Tidy(x) && Tidy(y)
    ensures Tidy(x + y)
  {
    ShortAppend(x, y);
    BareAppend(x, y);
  }

  lemma GrowKeeps(parse: Parser, t: Tail, bytes: Bytes)
    requires TailOk(parse, t) && BareLines(bytes)
    ensures TailOk(parse, t.(file := t.file + bytes))
  {
    hide Tidy, BareLines, Replay;
    var f := t.file + bytes;
    BareAppend(t.file[t.off..], bytes);
    assert f[..t.off] == t.file[..t.off];
    assert f[t.off..] == t.file[t.off..] + bytes;
  }

  /** Whole lines split into those the scanner gets through and those from the first overlong one on. */
  lemma {:induction false} ScanSplits(data: Bytes) returns (x: Bytes, z: Bytes)
    requires WholeLines(data)
    ensures data == x + z && WholeLines(x) && Short(x) && WholeLines(z) && Tokens(z) == []
    decreases |data|
  {
    if data == [] || LineEnd(data) >= MAX_LINE {
      return [], data;
    }
    FirstLineSplits(data);
    hide *;
    var w;
    w, z := ScanSplits(RestOf(data));
    var line := data[..|data| - |RestOf(data)|];
    x := line + w;
    ShortAppend(line, w);
    WholeAppend(line, w);
    Regroup(line, w, z);
  }

  lemma Regroup(x: Bytes, y: Bytes, z: Bytes)
    ensures x + (y + z) == x + y + z
  {
  }

  lemma WholeAppend(x: Bytes, y: Bytes)
    requires WholeLines(x) && WholeLines(y)
    ensures WholeLines(x + y)
  {
    assert y == [] ==> x + y == x;
  }

  lemma FirstLineSplits(data: Bytes)
    requires data != [] && WholeLines(data) && LineEnd(data) < MAX_LINE
    ensures |RestOf(data)| < |data|
    ensures var line := data[..|data| - |RestOf(data)|];
            data == line + RestOf(data) && WholeLines(line) && Short(line) && WholeLines(RestOf(data))
  {
    LineEndAppend(data, []);
    hide LineEnd;
    var n := LineEnd(data);
    var line := data[..n + 1];
    assert line[n] == NL && line[..n] == data[..n];
    LineEndIs(line, n);
  }

  lemma {:induction false} LineEndIs(data: Bytes, n: nat)
    requires n < |data| && data[n] == NL && NL !in data[..n]
    ensures LineEnd(data) == n
  {
    if n > 0 {
      assert data[0] == data[..n][0];
      assert data[1..][..n - 1] == data[..n][1..];
      LineEndIs(data[1..], n - 1);
    }
  }

  /** A turn from a line boundary publishes what a replay of the whole file does, whatever follows
      the boundary: carriage returns, a partial line, a line too long to scan. */
  lemma TurnIsReplay(parse: Parser, t: Tail, size: nat)
    requires t.off <= |t.file| && t.off < size && t.feed == Replay(parse, t.file[..t.off])
    requires WholeLines(t.file[..t.off]) && Short(t.file[..t.off])
    ensures Turn(parse, t, size).feed == Replay(parse, t.file)
  {
    hide Tokens, OnLines, Counted, Short;
    ReplayExtends(parse, t.file[..t.off], t.file[t.off..]);
    assert t.file[..t.off] + t.file[t.off..] == t.file;
  }

  lemma ReplayExtends(parse: Parser, x: Bytes, y: Bytes)
    requires WholeLines(x) && Short(x)
    ensures Replay(parse, x + y) == OnLines(parse, Replay(parse, x), Tokens(y))
  {
    TokensAppend(x, y);
    hide Tokens, OnLines;
    OnLinesAppend(parse, SILENT, Tokens(x), Tokens(y));
  }

  lemma TurnKeeps(parse: Parser, t: Tail, size: nat)
    requires TailOk(parse, t) && t.off <= size
    ensures TailOk(parse, Turn(parse, t, size))
  {
    hide Tokens, Counted, OnLines, Short, Stripped;
    if size > t.off {
      var y := t.file[t.off..];
      var x, z := ScanSplits(y);
      StrippedAppend(x, z);
      CountedBytes(x);
      TokensAppend(x, z);
      assert Tokens(x) + [] == Tokens(x);
      var u := Turn(parse, t, size);
      assert u.off == t.off + |x|;
      TidyAppend(t.file[..t.off], x);
      ReplayExtends(parse, t.file[..t.off], x);
      assert t.file[..u.off] == t.file[..t.off] + x && t.file[u.off..] == z;
    } else {
      assert Turn(parse, t, size) == t;
    }
  }

  /** Under any schedule of appends and polls of whole lines, however long, the offset is a line
      boundary and what has been published, tool names joined onto results included, is the replay of
      the file up to it. */
  lemma {:induction false} TailEqualsReplay(parse: Parser, events: seq<Event>)
    requires forall i | 0 <= i < |events| :: BareLines(Written(events[i]))
    ensures TailOk(parse, Run(parse, events))
    decreases |events|
  {
    hide Turn;
    if events == [] {
      assert START.file[..0] == [] && START.file[0..] == [];
    } else {
      var n := |events| - 1;
      TailEqualsReplay(parse, events[..n]);
      var t := Run(parse, events[..n]);
      assert BareLines(Written(events[n]));
      hide TailOk, BareLines;
      GrowKeeps(parse, t, Written(events[n]));
      if events[n].Poll? {
        OffWithin(parse, t);
        TurnKeeps(parse, t.(file := t.file + events[n].meanwhile), |t.file|);
      }
    }
  }

  lemma OffWithin(parse: Parser, t: Tail)
    requires TailOk(parse, t)
    ensures t.off <= |t.file|
  {
  }

  /** After any such schedule one more append, of any bytes at all, and a poll leave exactly the
      replay of the whole file. */
  lemma PollCatchesUp(parse: Parser, events: seq<Event>, last: Bytes)
    requires forall i | 0 <= i < |events| :: BareLines(Written(events[i]))
    ensures var t := Run(parse, events + [Append(last), Poll([])]); t.feed == Replay(parse, t.file)
  {
    hide *;
    TailEqualsReplay(parse, events);
    LastTwo(parse, events, last);
    var t := Run(parse, events);
    var u := t.(file := t.file + last);
    FeedIsReplay(parse, t);
    assert u.file[..t.off] == t.file[..t.off];
    CaughtUp(parse, u);
    TurnKeepsFile(parse, u, |u.file|);
  }

  lemma FeedIsReplay(parse: Parser, t: Tail)
    requires TailOk(parse, t)
    ensures t.off <= |t.file| && t.feed == Replay(parse, t.file[..t.off])
    ensures WholeLines(t.file[..t.off]) && Short(t.file[..t.off])
  {
  }

  lemma LastTwo(parse: Parser, events: seq<Event>, last: Bytes)
    ensures var t := Run(parse, events);
            var u := t.(file := t.file + last);
            Run(parse, events + [Append(last), Poll([])]) == Turn(parse, u, |u.file|)
  {
    var most := events + [Append(last)];
    assert events + [Append(last), Poll([])] == most + [Poll([])];
    RunSnoc(parse, events, Append(last));
    RunSnoc(parse, most, Poll([]));
    hide Run, Turn;
    assert Run(parse, most).file + [] == Run(parse, most).file;
  }

  lemma RunSnoc(parse: Parser, events: seq<Event>, e: Event)
    ensures Run(parse, events + [e]) == Next(parse, Run(parse, events), e)
  {
    hide Next;
    assert (events + [e])[..|events|] == events;
  }

  lemma CaughtUp(parse: Parser, t: Tail)
    requires t.off <= |t.file| && t.feed == Replay(parse, t.file[..t.off])
    requires WholeLines(t.file[..t.off]) && Short(t.file[..t.off])
    ensures Turn(parse, t, |t.file|).feed == Replay(parse, t.file)
  {
    if |t.file| > t.off {
      TurnIsReplay(parse, t, |t.file|);
    } else {
      hide Replay;
      assert t.file[..t.off] == t.file;
    }
  }

  // ----- what later turns do ------------------------------------------------

  /** An overlong line stops the count short. */
  lemma {:induction false} CountedTooLittle(data: Bytes)
    requires !Short(data)
    ensures Counted(Tokens(data)) < |data|
    decreases |data|
  {
    if LineEnd(data) < MAX_LINE {
      RestAccount(data);
      CountedTooLittle(RestOf(data));
      var first, rest := DropCR(FirstLine(data)), RestOf(data);
      assert Tokens(data) == [first] + Tokens(rest);
      hide LineEnd, Tokens, RestOf;
      CountedCons(first, Tokens(rest));
    }
  }

  /** Where a turn leaves the offset, from anywhere in the file: at the end exactly when all lines
      fit and the dropped carriage returns and the missing newline cancel, and beyond the end exactly
      when a newline is missing and nothing else is. */
  lemma TurnEndsAtEndIff(parse: Parser, t: Tail, size: nat)
    requires t.off <= |t.file| && t.off < size
    ensures var off, left := Turn(parse, t, size).off, t.file[t.off..];
            && (off == |t.file| <==> Short(left) && Stripped(left) == Unterminated(left))
            && (off > |t.file| <==> Short(left) && Stripped(left) < Unterminated(left))
  {
    hide Tokens, Counted, Short, Stripped, OnLines;
    var left := t.file[t.off..];
    if Short(left) {
      CountedBytes(left);
    } else {
      CountedTooLittle(left);
    }
  }

  predicate ContentSpeaks(c: Content) {
    match c
    case Absent => false
    case Bare(text) => text != ""
    case Blocks(bs) => exists i | 0 <= i < |bs| :: BlockSpeaks(bs[i])
    case Malformed => false
  }

  predicate BlockSpeaks(b: Block) {
    match b
    case TextBlock(text) => text != ""
    case ThinkingBlock(text) => text != ""
    case ToolUse(_, _, _, _) => true
    case ToolResult(_, _, _) => true
    case OtherBlock => false
  }

  /** The line publishes something. */
  predicate Speaks(parse: Parser, line: Bytes) {
    && line != [] && line[0] == BRACE
    && match parse(line)
       case None => false
       case Some(Assistant(c, usage)) => usage.Some? || ContentSpeaks(c)
       case Some(User(c)) => ContentSpeaks(c)
       case Some(Ignored) => false
       case _ => true
  }

  /** From one feed to the next: more was published, or nothing changed. */
  predicate Grew(s: Feed, t: Feed, more: bool) {
    if more then |t.pubs| > |s.pubs| else t == s
  }

  lemma {:induction false} BlocksGrow(s: Feed, bs: seq<Block>, role: string)
    ensures Grew(s, OnBlocks(s, bs, role), exists i | 0 <= i < |bs| :: BlockSpeaks(bs[i]))
    decreases |bs|
  {
    if bs != [] {
      var n := |bs| - 1;
      BlocksGrow(s, bs[..n], role);
      assert forall i | 0 <= i < n :: BlockSpeaks(bs[..n][i]) == BlockSpeaks(bs[i]);
      assert Grew(OnBlocks(s, bs[..n], role), OnBlocks(s, bs, role), BlockSpeaks(bs[n]));
    }
  }

  lemma ContentGrows(s: Feed, c: Content, role: string)
    ensures Grew(s, OnContent(s, c, role), ContentSpeaks(c))
  {
    if c.Blocks? {
      BlocksGrow(s, c.blocks, role);
    }
  }

  lemma LineGrows(parse: Parser, s: Feed, line: Bytes)
    ensures Grew(s, OnLine(parse, s, line), Speaks(parse, line))
  {
    if line != [] && line[0] == BRACE && parse(line).Some? {
      hide OnContent, ContentSpeaks;
      match parse(line).value {
        case Assistant(c, _) => ContentGrows(s, c, "assistant");
        case User(c) => ContentGrows(s, c, "user");
        case _ =>
      }
    }
  }

  lemma {:induction false} LinesGrow(parse: Parser, s: Feed, lines: seq<Bytes>)
    ensures Grew(s, OnLines(parse, s, lines), exists i | 0 <= i < |lines| :: Speaks(parse, lines[i]))
    decreases |lines|
  {
    hide Speaks, OnLine;
    if lines != [] {
      var n := |lines| - 1;
      LinesGrow(parse, s, lines[..n]);
      assert forall i | 0 <= i < n :: Speaks(parse, lines[..n][i]) == Speaks(parse, lines[i]);
      LineGrows(parse, OnLines(parse, s, lines[..n]), lines[n]);
    }
  }

  /** What a turn scans when nothing has been appended since the last one. */
  function Again(t: Tail): Bytes {
    if t.off > |t.file| then t.file else t.file[t.off..]
  }

  /** A turn over an unchanged file publishes something if and only if some line among the bytes it
      scans again does. */
  lemma TurnIsQuietIff(parse: Parser, t: Tail)
    ensures Turn(parse, t, |t.file|).feed == t.feed
       <==> forall line | line in Tokens(Again(t)) :: !Speaks(parse, line)
  {
    hide Speaks, Tokens, OnLines, Counted;
    var lines := Tokens(Again(t));
    LinesGrow(parse, t.feed, lines);
    assert t.file[0..] == t.file;
    if Again(t) == [] {
      NothingToScan();
    } else {
      assert Turn(parse, t, |t.file|).feed == OnLines(parse, t.feed, lines);
    }
  }

  lemma NothingToScan()
    ensures Tokens([]) == []
  {
  }

  /** So a file read from a line boundary is published exactly once by two turns - and not in part
      twice - if and only if the bytes between where the first turn left the offset and where the
      file ends, or the whole file when the offset is beyond that, hold no line that publishes. */
  lemma PublishedOnceIff(parse: Parser, t: Tail)
    requires t.off < |t.file| && t.feed == Replay(parse, t.file[..t.off])
    requires WholeLines(t.file[..t.off]) && Short(t.file[..t.off])
    ensures Turn(parse, Turn(parse, t, |t.file|), |t.file|).feed == Replay(parse, t.file)
       <==> forall line | line in Tokens(Again(Turn(parse, t, |t.file|))) :: !Speaks(parse, line)
  {
    TurnIsReplay(parse, t, |t.file|);
    hide Turn, Replay, Again, Speaks, Tokens;
    TurnIsQuietIff(parse, Turn(parse, t, |t.file|));
    TurnKeepsFile(parse, t, |t.file|);
  }

  lemma TurnKeepsFile(parse: Parser, t: Tail, size: nat)
    ensures Turn(parse, t, size).file == t.file
  {
  }
}
