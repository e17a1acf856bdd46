/** The transcript watcher of internal/cctranscript/watcher.go, its scanner and publisher. */
module Watcher {
  import opened Bytes
  import opened TranscriptModel

  /** bufio.Scanner splitting lines, with a buffer of MAX_LINE bytes. */
  class Scanner {
    var left: Bytes
    var line: Bytes
    var tooLong: bool                  // what Err reports once Scan is false

    constructor (data: Bytes)
      ensures left == data && !tooLong
    {
      left, line, tooLong := data, [], false;
    }

    method Scan() returns (more: bool)
      requires !tooLong
      modifies this
      ensures more <==> Tokens(old(left)) != []
      ensures more ==> [line] + Tokens(left) == Tokens(old(left)) && |left| < |old(left)|
      ensures more ==> !tooLong && Short(left) == Short(old(left))
      ensures !more ==> tooLong == !Short(old(left))
    {
      if left == [] {
        return false;
      }
      var n := 0;
      while n < |left| && left[n] != NL
        invariant n <= |left| && LineEnd(left) == n + LineEnd(left[n..])
      {
        assert left[n..][1..] == left[n + 1..];
        n := n + 1;
      }
      if n >= MAX_LINE {
        tooLong := true;
        return false;
      }
      assert n == LineEnd(left);
      line := DropCR(left[..n]);
      left := if n < |left| then left[n + 1..] else [];
      more := true;
    }
  }

  /** Where frames go. */
  class Publisher {
    var pubs: seq<Pub>

    constructor ()
      ensures pubs == []
    {
      pubs := [];
    }

    method Publish(p: Pub)
      modifies this
      ensures pubs == old(pubs) + [p]
    {
      pubs := pubs + [p];
    }
  }

  class Watcher {
    const parse: Parser
    const session: Sessions
    const bus: Publisher
    var toolNames: map<string, string>
    var off: nat
    var onInit: bool                   // a callback is set
    var calls: seq<string>             // what it has been called with

    ghost function View(): Feed
      reads this, bus
    {
      Feed(bus.pubs, toolNames)
    }

    ghost function HookView(): Hook
      reads this
    {
      Hook(onInit, calls)
    }

    constructor (parse: Parser, session: Sessions, bus: Publisher, onInit: bool)
      ensures this.parse == parse && this.session == session && this.bus == bus && off == 0 && toolNames == map[]
      ensures HookView() == Hook(onInit, [])
    {
      this.parse, this.session, this.bus, off, toolNames := parse, session, bus, 0, map[];
      this.onInit, calls := onInit, [];
    }

    method EmitBlock(b: Block, role: string)
      modifies this`toolNames, bus
      ensures View() == OnBlock(old(View()), b, role)
    {
      match b
      case TextBlock(text) =>
        if text != "" {
          bus.Publish(Text(text, role));
        }
      case ThinkingBlock(text) =>
        if text != "" {
          bus.Publish(Thinking(text));
        }
      case ToolUse(id, name, input, todos) =>
        if id != "" && name != "" {
          toolNames := toolNames[id := name];
        }
        if name == "TodoWrite" && |todos| > 0 {
          bus.Publish(Todos(todos));
        }
        bus.Publish(ToolStart(id, name, input));
      case ToolResult(id, content, isError) =>
        var toolName := if id in toolNames then toolNames[id] else "";
        bus.Publish(ToolDone(id, toolName, content, isError));
      case OtherBlock =>
    }

    method EmitContentBlocks(c: Content, role: string)
      modifies this`toolNames, bus
      ensures View() == OnContent(old(View()), c, role)
    {
      match c
      case Absent =>
      case Malformed =>
      case Bare(text) =>
        if text != "" {
          bus.Publish(Text(text, role));
        }
      case Blocks(bs) =>
        hide OnBlock;
        assert bs[..0] == [];
        for k := 0 to |bs|
          invariant View() == OnBlocks(old(View()), bs[..k], role)
        {
          assert bs[..k + 1][..k] == bs[..k];
          EmitBlock(bs[k], role);
        }
        assert bs[..|bs|] == bs;
    }

    /** Lines that do not start an object never come here. */
    method Emit(line: Bytes)
      requires line != [] && line[0] == BRACE
      modifies this`toolNames, this`onInit, this`calls, bus
      ensures HookView() == OnHook(parse, session, old(HookView()), line)
      ensures View() == match parse(line) case None => old(View()) case Some(e) => OnEntry(old(View()), e)
    {
      var e := parse(line);
      if e == None {
        return;
      }
      var id := session(line);
      if onInit && id != "" {
        calls := calls + [id];
        onInit := false;
      }
      match e.value
      case SystemInit(info) => bus.Publish(Meta(info));
      case PermissionMode(mode) => bus.Publish(Meta(mode));
      case Assistant(c, usage) =>
        EmitContentBlocks(c, "assistant");
        if usage.Some? {
          bus.Publish(Usage(usage.value));
        }
      case User(c) => EmitContentBlocks(c, "user");
      case Outcome(usage, reason) =>
        if usage.Some? {
          bus.Publish(Usage(usage.value));
        }
        bus.Publish(Stop(reason));
      case Ignored =>
    }

    /** Scans bytes to their end, emitting the lines that start an object; returns the bytes
        counted, and whether a line too long ended the scan. */
    method EmitLines(data: Bytes) returns (read: nat, tooLong: bool)
      modifies this`toolNames, this`onInit, this`calls, bus
      ensures read == Counted(Tokens(data)) && tooLong == !Short(data)
      ensures View() == OnLines(parse, old(View()), Tokens(data))
      ensures HookView() == OnHooks(parse, session, old(HookView()), Tokens(data))
    {
      hide OnEntry, OnLine, OnLines, OnHook, OnHooks, Tokens, Counted, Short;
      var scanner := new Scanner(data);
      read := 0;
      ghost var seen: seq<Bytes> := [];
      ghost var all := Tokens(data);
      NoLines(parse, session, View(), HookView());
      while true
        invariant seen + Tokens(scanner.left) == all && fresh(scanner)
        invariant !scanner.tooLong && Short(scanner.left) == Short(data)
        invariant read == Counted(seen)
        invariant View() == OnLines(parse, old(View()), seen)
        invariant HookView() == OnHooks(parse, session, old(HookView()), seen)
        decreases |scanner.left|
      {
        ghost var before := Tokens(scanner.left);
        var more := scanner.Scan();
        if !more {
          break;
        }
        var line := scanner.line;
        OneMoreLine(parse, old(View()), seen, line);
        OneMoreHook(parse, session, old(HookView()), seen, line);
        assert all == seen + ([line] + Tokens(scanner.left)) == seen + [line] + Tokens(scanner.left);
        seen := seen + [line];
        read := read + |line| + 1;
        if |line| == 0 || line[0] != BRACE {
          continue;
        }
        Emit(line);
      }
      assert seen + [] == seen;
      tooLong := scanner.tooLong;
    }

    /** One turn of the tailing loop: the size from stat, the file as the scan finds it. */
    method Poll(size: nat, file: Bytes)
      modifies this, bus
      ensures Tail(file, off, View()) == Turn(parse, Tail(file, old(off), old(View())), size)
      ensures var from := if size < old(off) then 0 else old(off);
              var lines := if size != from && from <= |file| then Tokens(file[from..]) else [];
              HookView() == OnHooks(parse, session, old(HookView()), lines)
    {
      if size < off {
        off := 0;
      }
      if size == off {
        return;
      }
      var read := 0;
      if off <= |file| {
        var tooLong;
        read, tooLong := EmitLines(file[off..]);
      }
      off := off + read;
    }
  }

  lemma NoLines(parse: Parser, session: Sessions, s: Feed, h: Hook)
    ensures OnLines(parse, s, []) == s && Counted([]) == 0 && OnHooks(parse, session, h, []) == h
  {
  }

  lemma OneMoreLine(parse: Parser, s: Feed, seen: seq<Bytes>, line: Bytes)
    ensures Counted(seen + [line]) == Counted(seen) + |line| + 1
    ensures var t := OnLines(parse, s, seen);
            var u := if line == [] || line[0] != BRACE then t
                     else match parse(line) case None => t case Some(e) => OnEntry(t, e);
            OnLines(parse, s, seen + [line]) == u
  {
    hide OnEntry;
    CountedSnoc(seen, line);
    assert (seen + [line])[..|seen|] == seen;
  }

  lemma OneMoreHook(parse: Parser, session: Sessions, h: Hook, seen: seq<Bytes>, line: Bytes)
    ensures var g := OnHooks(parse, session, h, seen);
            var next := OnHooks(parse, session, h, seen + [line]);
            next == OnHook(parse, session, g, line) && (line == [] || line[0] != BRACE ==> next == g)
  {
    assert (seen + [line])[..|seen|] == seen;
  }

  lemma {:induction false} CountedSnoc(seen: seq<Bytes>, line: Bytes)
    ensures Counted(seen + [line]) == Counted(seen) + |line| + 1
  {
    if seen == [] {
      assert [line][1..] == [];
    } else {
      assert (seen + [line])[1..] == seen[1..] + [line];
      CountedSnoc(seen[1..], line);
    }
  }

  /** Reads a whole transcript once into a publisher, with its own tool names and no callback; true
      stands for the error of a scan that met a line too long. */
  method HistoryReplay(parse: Parser, session: Sessions, file: Option<Bytes>, bus: Publisher) returns (failed: bool)
    modifies bus
    ensures file == None ==> !failed && bus.pubs == old(bus.pubs)
    ensures file != None ==> failed == !Short(file.value)
    ensures file != None ==> bus.pubs == OnLines(parse, Feed(old(bus.pubs), map[]), Tokens(file.value)).pubs
    ensures file != None && old(bus.pubs) == [] ==> bus.pubs == Replay(parse, file.value).pubs
  {
    if file == None {
      return false;
    }
    var w := new Watcher(parse, session, bus, false);
    var read;
    read, failed := w.EmitLines(file.value);
  }
}
