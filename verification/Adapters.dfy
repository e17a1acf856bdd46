/** The streaming adapters of internal/server/anthropic.go and internal/server/openai.go: what they
    put on the wire on every way out, against grammars and the texts received. */
module Adapters {
  import opened Frames

  /** What a select statement may come back with. A script that runs out stands for the deadline,
      which the request's timeout makes certain. */
  datatype Input = Deadline | ChannelClosed | Got(body: Body) | TimerFired

  /** How far the request gets before its first event. */
  datatype Prelude = BadPrompt | SpawnFailed | NotReady | CancelledEarly | Ready(writeFails: bool)

  predicate IsText(b: Body) {
    b.TextDelta? && b.role == "assistant" && b.text != ""
  }

  // ----- which inputs a turn uses up ----------------------------------------

  /** The inputs the drain after a stop uses up. */
  function DrainLength(script: seq<Input>): (n: nat)
    ensures n <= |script|
  {
    if script == [] then 0
    else if script[0].Got? then 1 + DrainLength(script[1..])
    else 1
  }

  /** The inputs a whole turn uses up, and whether it ended at the deadline. */
  function TurnLength(script: seq<Input>): (n: nat)
    ensures n <= |script|
  {
    if script == [] then 0
    else match script[0]
         case Deadline => 1
         case ChannelClosed => 1
         case TimerFired => 1 + TurnLength(script[1..])
         case Got(b) => if b.Stop? then 1 + DrainLength(script[1..]) else 1 + TurnLength(script[1..])
  }

  predicate TimedOut(script: seq<Input>) {
    script == []
    || script[0] == Deadline
    || (script[0] == TimerFired && TimedOut(script[1..]))
    || (script[0].Got? && !script[0].body.Stop? && TimedOut(script[1..]))
  }

  /** The assistant texts among these inputs, in order. */
  function Texts(script: seq<Input>): seq<string> {
    if script == [] then []
    else (if script[0].Got? && IsText(script[0].body) then [script[0].body.text] else []) + Texts(script[1..])
  }

  lemma {:induction false} TextsAppend(xs: seq<Input>, ys: seq<Input>)
    ensures Texts(xs + ys) == Texts(xs) + Texts(ys)
  {
    if xs == [] {
      assert xs + ys == ys;
    } else {
      assert (xs + ys)[1..] == xs[1..] + ys;
      TextsAppend(xs[1..], ys);
    }
  }

  function Concat(texts: seq<string>): string {
    if texts == [] then "" else Concat(texts[..|texts| - 1]) + texts[|texts| - 1]
  }

  // ----- the same without recursion -----------------------------------------

  /** The drain goes on up to the first input that is not a frame. */
  lemma {:induction false} DrainEnds(script: seq<Input>, f: nat)
    requires f <= |script| && (forall i | 0 <= i < f :: script[i].Got?) && (f < |script| ==> !script[f].Got?)
    ensures DrainLength(script) == if f < |script| then f + 1 else f
  {
    if f > 0 {
      DrainEnds(script[1..], f - 1);
    }
  }

  /** A deadline, a closed channel or a stop frame ends the turn. */
  predicate EndsTurn(i: Input) {
    i == Deadline || i == ChannelClosed || (i.Got? && i.body.Stop?)
  }

  /** A turn goes on up to the first such input e, and through the drain behind it when that is a stop;
      it times out if and only if e is the deadline or never comes. */
  lemma {:induction false} TurnEnds(script: seq<Input>, e: nat)
    requires e <= |script| && (forall i | 0 <= i < e :: !EndsTurn(script[i])) && (e < |script| ==> EndsTurn(script[e]))
    ensures TimedOut(script) <==> e == |script| || script[e] == Deadline
    ensures TurnLength(script) == if e == |script| then e
                                  else if script[e].Got? then e + 1 + DrainLength(script[e + 1..])
                                  else e + 1
  {
    if e > 0 {
      assert !EndsTurn(script[0]);
      TurnEnds(script[1..], e - 1);
      assert e < |script| ==> script[1..][e..] == script[e + 1..];
    }
  }

  /** An input adds a text if and only if it is a non-empty text delta of the assistant. */
  lemma TextsGrow(script: seq<Input>, i: Input)
    ensures Texts([]) == []
    ensures Texts(script + [i]) == if i.Got? && i.body.TextDelta? && i.body.role == "assistant" && i.body.text != ""
                                   then Texts(script) + [i.body.text] else Texts(script)
  {
    TextsAppend(script, [i]);
    assert [i][1..] == [];
    assert Texts(script) + [] == Texts(script);
  }

  /** Each text stands whole in the joined text, behind those before it. */
  lemma {:induction false} ConcatReads(texts: seq<string>, k: nat)
    requires k < |texts|
    ensures Concat(texts[..k]) + texts[k] <= Concat(texts)
    decreases |texts|
  {
    var n := |texts| - 1;
    if k < n {
      ConcatReads(texts[..n], k);
      assert texts[..n][..k] == texts[..k];
    }
  }

  // ----- Anthropic ----------------------------------------------------------

  datatype Event =
    | Error
    | MessageStart
    | BlockStart
    | Delta(text: string)
    | BlockStop
    | MessageDelta(reason: string, outputTokens: nat)
    | MessageStop

  /** Where a well-formed event stream stands. */
  datatype Place = Start | AfterStart | InBlock | Failing | AfterBlock | AfterDelta | End | Broken

  function Read(p: Place, e: Event): Place {
    match (p, e)
    case (Start, Error) => End
    case (Start, MessageStart) => AfterStart
    case (AfterStart, BlockStart) => InBlock
    case (InBlock, Delta(_)) => InBlock
    case (InBlock, Error) => Failing
    case (InBlock, BlockStop) => AfterBlock
    case (Failing, BlockStop) => AfterBlock
    case (AfterBlock, MessageDelta(_, _)) => AfterDelta
    case (AfterDelta, MessageStop) => End
    case _ => Broken
  }

  function ReadAll(es: seq<Event>): Place
    decreases |es|
  {
    if es == [] then Start else Read(ReadAll(es[..|es| - 1]), es[|es| - 1])
  }

  function DeltasOf(es: seq<Event>): seq<string>
    decreases |es|
  {
    if es == [] then []
    else DeltasOf(es[..|es| - 1]) + (if es[|es| - 1].Delta? then [es[|es| - 1].text] else [])
  }

  lemma Emitting(es: seq<Event>, e: Event)
    ensures ReadAll(es + [e]) == Read(ReadAll(es), e)
    ensures DeltasOf(es + [e]) == if e.Delta? then DeltasOf(es) + [e.text] else DeltasOf(es)
  {
    assert (es + [e])[..|es|] == es;
  }

  function Deltas(texts: seq<string>): seq<Event> {
    seq(|texts|, i requires 0 <= i < |texts| => Delta(texts[i]))
  }

  lemma DeltasSnoc(texts: seq<string>, t: string)
    ensures Deltas(texts + [t]) == Deltas(texts) + [Delta(t)]
    ensures Deltas([]) == []
  {
  }

  /** A whole stream once it has been opened. */
  function Stream(texts: seq<string>, failed: bool, reason: string, tokens: nat): seq<Event> {
    [MessageStart, BlockStart] + Deltas(texts) + (if failed then [Error] else [])
    + [BlockStop, MessageDelta(reason, tokens), MessageStop]
  }

  /** The response writer with the closing helper and its flag. */
  class MessageStream {
    var events: seq<Event>
    var streamOpen: bool

    constructor ()
      ensures events == [] && !streamOpen
    {
      events, streamOpen := [], false;
    }

    method Emit(e: Event)
      modifies this`events
      ensures events == old(events) + [e]
    {
      events := events + [e];
    }

    /** Emits the closing events, once. */
    method CloseStream(reason: string)
      modifies this
      ensures !streamOpen
      ensures events == old(events) + (if old(streamOpen) then [BlockStop, MessageDelta(reason, 0), MessageStop] else [])
    {
      if !streamOpen {
        return;
      }
      streamOpen := false;
      Emit(BlockStop);
      Emit(MessageDelta(reason, 0));
      Emit(MessageStop);
    }

    /** The 400 ms drain after a stop frame. */
    method Drain(script: seq<Input>, start: nat, text: string) returns (used: nat, all: string)
      requires start <= |script|
      modifies this`events
      ensures used == start + DrainLength(script[start..])
      ensures events == old(events) + Deltas(Texts(script[start..used]))
      ensures all == text + Concat(Texts(script[start..used]))
    {
      hide Deltas, Texts, Concat;
      used, all := start, text;
      assert script[start..start] == [];
      NothingYet(script);
      DeltasSnoc([], "");
      assert text + Concat([]) == text && events + [] == events;
      var draining := true;
      while draining && used < |script|
        invariant start <= used <= |script|
        invariant start + DrainLength(script[start..]) == used + (if draining then DrainLength(script[used..]) else 0)
        invariant events == old(events) + Deltas(Texts(script[start..used]))
        invariant all == text + Concat(Texts(script[start..used]))
        decreases |script| - used, draining
      {
        var input := script[used];
        NextInput(script, start, used);
        match input {
        case TimerFired => draining := false;
        case ChannelClosed => draining := false;
        case Deadline => draining := false;
        case Got(b) =>
          if b.TextDelta? && b.role == "assistant" && b.text != "" {
            OneMoreText(old(events), Texts(script[start..used]), text, b.text);
            all := all + b.text;
            Emit(Delta(b.text));
          }
        }
        used := used + 1;
      }
    }

    /** The event loop of one turn, up to its end or the deadline. */
    method Turn(script: seq<Input>) returns (timedOut: bool, assistantText: string)
      modifies this`events
      ensures timedOut == TimedOut(script)
      ensures events == old(events) + Deltas(Texts(script[..TurnLength(script)]))
      ensures assistantText == Concat(Texts(script[..TurnLength(script)]))
    {
      hide Deltas, Texts, Concat;
      NothingYet(script);
      DeltasSnoc([], "");
      assert events + [] == events;
      assistantText := "";
      var turnDone := false;
      var k := 0;
      while !turnDone
        invariant 0 <= k <= |script|
        invariant TurnLength(script) == k + (if turnDone then 0 else TurnLength(script[k..]))
        invariant TimedOut(script) <==> !turnDone && TimedOut(script[k..])
        invariant events == old(events) + Deltas(Texts(script[..k]))
        invariant assistantText == Concat(Texts(script[..k]))
        decreases !turnDone, |script| - k
      {
        if k == |script| {
          return true, assistantText;
        }
        NextInput(script, 0, k);
        var input := script[k];
        k := k + 1;
        match input
        case Deadline =>
          return true, assistantText;
        case TimerFired =>               // no timer runs outside the drain
        case ChannelClosed => turnDone := true;
        case Got(b) =>
          if b.TextDelta? {
            if b.role == "assistant" && b.text != "" {
              OneMoreText(old(events), Texts(script[..k - 1]), "", b.text);
              ConcatSnoc(Texts(script[..k - 1]), b.text);
              assistantText := assistantText + b.text;
              Emit(Delta(b.text));
            }
          } else if b.Stop? {
            ghost var from := k;
            k, assistantText := Drain(script, k, assistantText);
            TwoParts(script, from, k);
            DeltasAppend(old(events), Texts(script[..from]), Texts(script[from..k]));
            turnDone := true;
          }
      }
      timedOut := false;
    }

    /** The turn and its way out: an error and the closing events at the deadline, else only these. */
    method FinishTurn(script: seq<Input>, tokens: string -> nat)
      requires streamOpen && events == [MessageStart, BlockStart]
      modifies this
      ensures !streamOpen
      ensures var texts := Texts(script[..TurnLength(script)]);
              events == if TimedOut(script) then Stream(texts, true, "error", 0)
                        else Stream(texts, false, "end_turn", tokens(Concat(texts)))
    {
      hide Texts, Concat, TurnLength, TimedOut, Deltas;
      var timedOut, assistantText := Turn(script);
      if timedOut {
        Emit(Error);
        CloseStream("error");
      } else {
        streamOpen := false;
        Emit(BlockStop);
        Emit(MessageDelta("end_turn", tokens(assistantText)));
        Emit(MessageStop);
      }
    }
  }

  lemma OneMoreText(events: seq<Event>, texts: seq<string>, before: string, t: string)
    ensures events + Deltas(texts) + [Delta(t)] == events + Deltas(texts + [t])
    ensures before + Concat(texts) + t == before + Concat(texts + [t])
  {
    ConcatSnoc(texts, t);
    DeltasSnoc(texts, t);
    hide Concat, Deltas;
    assert before + Concat(texts) + t == before + (Concat(texts) + t);
  }

  lemma DeltasAppend(events: seq<Event>, xs: seq<string>, ys: seq<string>)
    ensures events + Deltas(xs) + Deltas(ys) == events + Deltas(xs + ys)
  {
    assert Deltas(xs + ys) == Deltas(xs) + Deltas(ys);
  }

  lemma NextInput(script: seq<Input>, start: nat, k: nat)
    requires start <= k < |script|
    ensures script[k..] != [] && script[k..][0] == script[k] && script[k..][1..] == script[k + 1..]
    ensures Texts(script[start..k + 1]) == if script[k].Got? && IsText(script[k].body)
                                           then Texts(script[start..k]) + [script[k].body.text]
                                           else Texts(script[start..k])
  {
    assert script[start..k + 1] == script[start..k] + [script[k]];
    TextsAppend(script[start..k], [script[k]]);
    assert [script[k]][1..] == [];
  }

  lemma ConcatSnoc(texts: seq<string>, t: string)
    ensures Concat(texts + [t]) == Concat(texts) + t
  {
    assert (texts + [t])[..|texts|] == texts;
  }

  /** The events on every way out, entirely: an error alone before the stream is opened; else the
      opening, a delta for each non-empty assistant text received up to the end of the turn - the drain
      included, none when the prompt cannot be written - one error exactly when that or the deadline
      cut the turn off, and the closing events once. */
  method AnthropicStream(prelude: Prelude, script: seq<Input>, tokens: string -> nat) returns (out: seq<Event>)
    ensures var texts := Texts(script[..TurnLength(script)]);
            out == if !prelude.Ready? then [Error]
                   else if prelude.writeFails then Stream([], true, "error", 0)
                   else if TimedOut(script) then Stream(texts, true, "error", 0)
                   else Stream(texts, false, "end_turn", tokens(Concat(texts)))
    ensures Error in out <==> !prelude.Ready? || prelude.writeFails || TimedOut(script)
    ensures ReadAll(out) == End
    ensures DeltasOf(out) == if prelude == Ready(false) then Texts(script[..TurnLength(script)]) else []
  {
    var s := new MessageStream();
    Sentences(Texts(script[..TurnLength(script)]), TimedOut(script), tokens(Concat(Texts(script[..TurnLength(script)]))));
    NothingIsWritten();
    hide *;
    if !prelude.Ready? {
      s.Emit(Error);
      return s.events;
    }
    s.Emit(MessageStart);
    s.Emit(BlockStart);
    s.streamOpen := true;
    if prelude.writeFails {
      s.Emit(Error);
      s.CloseStream("error");
      s.CloseStream("end_turn");         // deferred
      return s.events;
    }
    s.FinishTurn(script, tokens);
    s.CloseStream("end_turn");           // deferred
    out := s.events;
  }

  lemma NothingIsWritten()
    ensures [] + [Error] == [Error] && [] + [MessageStart] + [BlockStart] == [MessageStart, BlockStart]
    ensures [] + [MessageStart] + [BlockStart] + [Error] + [BlockStop, MessageDelta("error", 0), MessageStop] + []
         == Stream([], true, "error", 0)
    ensures forall es: seq<Event> :: es + [] == es
  {
  }

  /** Every such stream is a sentence of the grammar, and its deltas are the texts. */
  lemma StreamIsSentence(texts: seq<string>, failed: bool, reason: string, tokens: nat)
    ensures var out := Stream(texts, failed, reason, tokens);
            ReadAll(out) == End && DeltasOf(out) == texts && (Error in out <==> failed)
  {
    var open := [MessageStart, BlockStart] + Deltas(texts);
    var a := if failed then open + [Error] else open;
    BlockReads(texts);
    EndOfBlock(reason, tokens);
    StreamIs(texts, failed, reason, tokens);
    hide *;
    if failed {
      Emitting(open, Error);
    }
    Emitting(a, BlockStop);
    Emitting(a + [BlockStop], MessageDelta(reason, tokens));
    Emitting(a + [BlockStop] + [MessageDelta(reason, tokens)], MessageStop);
  }

  lemma EndOfBlock(reason: string, tokens: nat)
    ensures Read(Read(Read(InBlock, BlockStop), MessageDelta(reason, tokens)), MessageStop) == End
    ensures Read(InBlock, Error) == Failing
    ensures Read(Read(Read(Failing, BlockStop), MessageDelta(reason, tokens)), MessageStop) == End
  {
  }

  lemma StreamIs(texts: seq<string>, failed: bool, reason: string, tokens: nat)
    ensures var open := [MessageStart, BlockStart] + Deltas(texts);
            var a := if failed then open + [Error] else open;
            Stream(texts, failed, reason, tokens) == a + [BlockStop] + [MessageDelta(reason, tokens)] + [MessageStop]
  {
    hide Deltas;
    assert [MessageStart, BlockStart] + Deltas(texts) + [] == [MessageStart, BlockStart] + Deltas(texts);
  }

  lemma {:induction false} BlockReads(texts: seq<string>)
    ensures var es := [MessageStart, BlockStart] + Deltas(texts);
            ReadAll(es) == InBlock && DeltasOf(es) == texts && Error !in es
    decreases |texts|
  {
    if texts == [] {
      assert [MessageStart, BlockStart] + Deltas([]) == [] + [MessageStart] + [BlockStart];
      Emitting([], MessageStart);
      Emitting([] + [MessageStart], BlockStart);
    } else {
      var n := |texts| - 1;
      BlockReads(texts[..n]);
      assert texts == texts[..n] + [texts[n]];
      DeltasSnoc(texts[..n], texts[n]);
      var es := [MessageStart, BlockStart] + Deltas(texts[..n]);
      Emitting(es, Delta(texts[n]));
      hide Deltas, ReadAll, DeltasOf;
      assert es + [Delta(texts[n])] == [MessageStart, BlockStart] + (Deltas(texts[..n]) + [Delta(texts[n])]);
    }
  }

  lemma Sentences(texts: seq<string>, timedOut: bool, tokens: nat)
    ensures ReadAll([Error]) == End && DeltasOf([Error]) == []
    ensures var out := Stream([], true, "error", 0); ReadAll(out) == End && DeltasOf(out) == [] && Error in out
    ensures var out := if timedOut then Stream(texts, true, "error", 0) else Stream(texts, false, "end_turn", tokens);
            ReadAll(out) == End && DeltasOf(out) == texts && (Error in out <==> timedOut)
  {
    StreamIsSentence([], true, "error", 0);
    StreamIsSentence(texts, true, "error", 0);
    StreamIsSentence(texts, false, "end_turn", tokens);
    Emitting([], Error);
    assert [] + [Error] == [Error];
  }

  lemma NothingYet(script: seq<Input>)
    ensures script[0..] == script && script[..0] == [] && Texts([]) == [] && Concat([]) == ""
  {
  }

  lemma TwoParts(script: seq<Input>, from: nat, k: nat)
    requires from <= k <= |script|
    ensures Texts(script[..k]) == Texts(script[..from]) + Texts(script[from..k])
    ensures Concat(Texts(script[..k])) == Concat(Texts(script[..from])) + Concat(Texts(script[from..k]))
  {
    assert script[..k] == script[..from] + script[from..k];
    TextsAppend(script[..from], script[from..k]);
    ConcatAppend(Texts(script[..from]), Texts(script[from..k]));
  }

  lemma {:induction false} ConcatAppend(xs: seq<string>, ys: seq<string>)
    ensures Concat(xs + ys) == Concat(xs) + Concat(ys)
    decreases |ys|
  {
    if ys == [] {
      assert xs + ys == xs;
    } else {
      assert (xs + ys)[..|xs + ys| - 1] == xs + ys[..|ys| - 1];
      ConcatAppend(xs, ys[..|ys| - 1]);
    }
  }

  // ----- OpenAI -------------------------------------------------------------

  datatype Chunk = ErrorChunk | Role | Content(text: string) | Finish(reason: string) | DoneMark

  datatype Spot = First | Talking | Failed | Finished | Closed | Wrong

  function Advance(p: Spot, c: Chunk): Spot {
    match (p, c)
    case (First, ErrorChunk) => Closed
    case (First, Role) => Talking
    case (Talking, Content(_)) => Talking
    case (Talking, ErrorChunk) => Failed
    case (Talking, Finish(_)) => Finished
    case (Failed, Finish(_)) => Finished
    case (Finished, DoneMark) => Closed
    case _ => Wrong
  }

  function AdvanceAll(cs: seq<Chunk>): Spot
    decreases |cs|
  {
    if cs == [] then First else Advance(AdvanceAll(cs[..|cs| - 1]), cs[|cs| - 1])
  }

  function ContentsOf(cs: seq<Chunk>): seq<string>
    decreases |cs|
  {
    if cs == [] then []
    else ContentsOf(cs[..|cs| - 1]) + (if cs[|cs| - 1].Content? then [cs[|cs| - 1].text] else [])
  }

  lemma Chunking(cs: seq<Chunk>, c: Chunk)
    ensures AdvanceAll(cs + [c]) == Advance(AdvanceAll(cs), c)
    ensures ContentsOf(cs + [c]) == if c.Content? then ContentsOf(cs) + [c.text] else ContentsOf(cs)
  {
    assert (cs + [c])[..|cs|] == cs;
  }

  function Contents(texts: seq<string>): seq<Chunk> {
    seq(|texts|, i requires 0 <= i < |texts| => Content(texts[i]))
  }

  lemma ContentsSnoc(texts: seq<string>, t: string)
    ensures Contents(texts + [t]) == Contents(texts) + [Content(t)]
    ensures Contents([]) == []
  {
  }

  /** A whole stream once the role has gone out. */
  function Chunks(texts: seq<string>, failed: bool): seq<Chunk> {
    [Role] + Contents(texts) + (if failed then [ErrorChunk, Finish("error"), DoneMark] else [Finish("stop"), DoneMark])
  }

  class ChunkStream {
    var chunks: seq<Chunk>
    var streamOpen: bool

    constructor ()
      ensures chunks == [] && !streamOpen
    {
      chunks, streamOpen := [], false;
    }

    method Emit(c: Chunk)
      modifies this`chunks
      ensures chunks == old(chunks) + [c]
    {
      chunks := chunks + [c];
    }

    method CloseStream(reason: string)
      modifies this
      ensures !streamOpen
      ensures chunks == old(chunks) + (if old(streamOpen) then [Finish(reason), DoneMark] else [])
    {
      if !streamOpen {
        return;
      }
      streamOpen := false;
      Emit(Finish(reason));
      Emit(DoneMark);
    }

    method Drain(script: seq<Input>, start: nat) returns (used: nat)
      requires start <= |script|
      modifies this`chunks
      ensures used == start + DrainLength(script[start..])
      ensures chunks == old(chunks) + Contents(Texts(script[start..used]))
    {
      hide Contents, Texts;
      used := start;
      assert script[start..start] == [];
      NothingYet(script);
      ContentsSnoc([], "");
      assert chunks + [] == chunks;
      var draining := true;
      while draining && used < |script|
        invariant start <= used <= |script|
        invariant start + DrainLength(script[start..]) == used + (if draining then DrainLength(script[used..]) else 0)
        invariant chunks == old(chunks) + Contents(Texts(script[start..used]))
        decreases |script| - used, draining
      {
        var input := script[used];
        NextInput(script, start, used);
        match input {
        case TimerFired => draining := false;
        case ChannelClosed => draining := false;
        case Deadline => draining := false;
        case Got(b) =>
          if b.TextDelta? && b.role == "assistant" && b.text != "" {
            OneMoreChunk(old(chunks), Texts(script[start..used]), b.text);
            Emit(Content(b.text));
          }
        }
        used := used + 1;
      }
    }

    /** The event loop of one turn, up to its end or the deadline. */
    method Turn(script: seq<Input>) returns (timedOut: bool)
      modifies this`chunks
      ensures timedOut == TimedOut(script)
      ensures chunks == old(chunks) + Contents(Texts(script[..TurnLength(script)]))
    {
      hide Contents, Texts;
      NothingYet(script);
      ContentsSnoc([], "");
      assert chunks + [] == chunks;
      var turnDone := false;
      var k := 0;
      while !turnDone
        invariant 0 <= k <= |script|
        invariant TurnLength(script) == k + (if turnDone then 0 else TurnLength(script[k..]))
        invariant TimedOut(script) <==> !turnDone && TimedOut(script[k..])
        invariant chunks == old(chunks) + Contents(Texts(script[..k]))
        decreases !turnDone, |script| - k
      {
        if k == |script| {
          return true;
        }
        NextInput(script, 0, k);
        var input := script[k];
        k := k + 1;
        match input
        case Deadline =>
          return true;
        case TimerFired =>
        case ChannelClosed => turnDone := true;
        case Got(b) =>
          if b.TextDelta? {
            if b.role == "assistant" && b.text != "" {
              OneMoreChunk(old(chunks), Texts(script[..k - 1]), b.text);
              Emit(Content(b.text));
            }
          } else if b.Stop? {
            ghost var from := k;
            k := Drain(script, k);
            TwoParts(script, from, k);
            ContentsAppend(old(chunks), Texts(script[..from]), Texts(script[from..k]));
            turnDone := true;
          }
      }
      timedOut := false;
    }

    /** The turn and its way out: an error and the closing chunks at the deadline, else only these. */
    method FinishTurn(script: seq<Input>)
      requires streamOpen && chunks == [Role]
      modifies this
      ensures !streamOpen && chunks == Chunks(Texts(script[..TurnLength(script)]), TimedOut(script))
    {
      hide Contents, Texts, TurnLength, TimedOut;
      var timedOut := Turn(script);
      if timedOut {
        Emit(ErrorChunk);
        CloseStream("error");
      } else {
        streamOpen := false;
        Emit(Finish("stop"));
        Emit(DoneMark);
      }
    }
  }

  lemma OneMoreChunk(chunks: seq<Chunk>, texts: seq<string>, t: string)
    ensures chunks + Contents(texts) + [Content(t)] == chunks + Contents(texts + [t])
  {
    ContentsSnoc(texts, t);
    hide Contents;
  }

  lemma ContentsAppend(chunks: seq<Chunk>, xs: seq<string>, ys: seq<string>)
    ensures chunks + Contents(xs) + Contents(ys) == chunks + Contents(xs + ys)
  {
    assert Contents(xs + ys) == Contents(xs) + Contents(ys);
  }

  /** The chunks on every way out, entirely; the error stands exactly where the turn was cut off. */
  method OpenAIStream(prelude: Prelude, script: seq<Input>) returns (out: seq<Chunk>)
    ensures out == if !prelude.Ready? then [ErrorChunk]
                   else if prelude.writeFails then Chunks([], true)
                   else Chunks(Texts(script[..TurnLength(script)]), TimedOut(script))
    ensures ErrorChunk in out <==> !prelude.Ready? || prelude.writeFails || TimedOut(script)
    ensures AdvanceAll(out) == Closed
    ensures ContentsOf(out) == if prelude == Ready(false) then Texts(script[..TurnLength(script)]) else []
  {
    var s := new ChunkStream();
    Chunking([], ErrorChunk);
    assert [] + [ErrorChunk] == [ErrorChunk];
    ChunksAreSentence([], true);
    ChunksAreSentence(Texts(script[..TurnLength(script)]), TimedOut(script));
    NoContents();
    hide *;
    if !prelude.Ready? {
      s.Emit(ErrorChunk);
      return s.chunks;
    }
    s.Emit(Role);
    s.streamOpen := true;
    if prelude.writeFails {
      s.Emit(ErrorChunk);
      s.CloseStream("error");
      s.CloseStream("stop");             // deferred
      return s.chunks;
    }
    s.FinishTurn(script);
    s.CloseStream("stop");               // deferred
    out := s.chunks;
  }

  lemma NoContents()
    ensures [] + [ErrorChunk] == [ErrorChunk] && [] + [Role] == [Role]
    ensures [Role] + [ErrorChunk] + [Finish("error"), DoneMark] + [] == Chunks([], true)
    ensures forall cs: seq<Chunk> :: cs + [] == cs
  {
  }

  lemma ChunksAreSentence(texts: seq<string>, failed: bool)
    ensures var out := Chunks(texts, failed);
            AdvanceAll(out) == Closed && ContentsOf(out) == texts && (ErrorChunk in out <==> failed)
  {
    var open := [Role] + Contents(texts);
    RoleReads(texts);
    hide AdvanceAll, ContentsOf, Contents;
    var reason := if failed then "error" else "stop";
    var a := if failed then open + [ErrorChunk] else open;
    if failed {
      Chunking(open, ErrorChunk);
    }
    Chunking(a, Finish(reason));
    Chunking(a + [Finish(reason)], DoneMark);
    assert a + [Finish(reason)] + [DoneMark] == Chunks(texts, failed);
  }

  lemma {:induction false} RoleReads(texts: seq<string>)
    ensures var cs := [Role] + Contents(texts);
            AdvanceAll(cs) == Talking && ContentsOf(cs) == texts && ErrorChunk !in cs
    decreases |texts|
  {
    if texts == [] {
      assert [Role] + Contents([]) == [] + [Role];
      Chunking([], Role);
    } else {
      var n := |texts| - 1;
      RoleReads(texts[..n]);
      assert texts == texts[..n] + [texts[n]];
      ContentsSnoc(texts[..n], texts[n]);
      var cs := [Role] + Contents(texts[..n]);
      Chunking(cs, Content(texts[n]));
      hide Contents, AdvanceAll, ContentsOf;
      assert cs + [Content(texts[n])] == [Role] + (Contents(texts[..n]) + [Content(texts[n])]);
    }
  }
}
