/** The chat projections as the server runs them: bubbles are objects that both aggregators
    change in place. Proved against ChatModel. */
module Chat {
  import opened Bytes
  import opened Frames
  import M = ChatModel
  import R = ChatResume
  import V = ChatRoles
  import C = ChatContents

  /** One chat line; the program keeps it as a map and shares the pointer. */
  class Bubble {
    const isTool: bool
    const role: string
    const tool: string
    var seqNo: nat
    var text: string
    var summary: string

    ghost function View(): M.Msg
      reads this
    {
      if isTool then M.Tool(seqNo, tool, summary) else M.Text(seqNo, role, text)
    }

    constructor Text(seqNo: nat, role: string, text: string)
      ensures !isTool && View() == M.Text(seqNo, role, text)
    {
      isTool, this.role, tool := false, role, "";
      this.seqNo, this.text, summary := seqNo, text, "";
    }

    constructor Tool(seqNo: nat, tool: string, summary: string)
      ensures isTool && this.role == "tool" && View() == M.Tool(seqNo, tool, summary)
    {
      isTool, role, this.tool := true, "tool", tool;
      this.seqNo, text, this.summary := seqNo, "", summary;
    }

    method Extend(seqNo: nat, more: string)
      requires !isTool
      modifies this
      ensures View() == M.Grown(old(View()), seqNo, more)
    {
      text := text + more;
      this.seqNo := seqNo;
    }

    method Resolve(seqNo: nat, summary: string)
      requires isTool
      modifies this
      ensures View() == M.Resolved(old(View()), seqNo, summary)
    {
      this.summary := summary;
      this.seqNo := seqNo;
    }
  }

  ghost function Views(bs: seq<Bubble>): (v: seq<M.Msg>)
    reads bs
    ensures |v| == |bs|
  {
    seq(|bs|, i requires 0 <= i < |bs| reads bs => bs[i].View())
  }

  ghost predicate AllDistinct(bs: seq<Bubble>) {
    forall i, j | 0 <= i < j < |bs| :: bs[i] != bs[j]
  }

  /** A map from tool ids to bubbles that stands for a map from tool ids to positions. */
  ghost predicate Points(tools: map<string, Bubble>, bs: seq<Bubble>, at: map<string, nat>) {
    tools.Keys == at.Keys && forall id | id in at :: at[id] < |bs| && tools[id] == bs[at[id]]
  }

  /** Only the i-th bubble changed. */
  lemma OneChanged(bs: seq<Bubble>, before: seq<M.Msg>, i: nat)
    requires i < |bs| == |before|
    requires forall k | 0 <= k < |bs| && k != i :: bs[k].View() == before[k]
    ensures Views(bs) == before[i := bs[i].View()]
  {
  }

  lemma OneAdded(bs: seq<Bubble>, b: Bubble)
    ensures Views(bs + [b]) == Views(bs) + [b.View()]
    ensures AllDistinct(bs) && b !in bs ==> AllDistinct(bs + [b])
  {
  }

  lemma PointsGrow(tools: map<string, Bubble>, bs: seq<Bubble>, at: map<string, nat>, b: Bubble, id: string)
    requires Points(tools, bs, at)
    ensures Points(tools, bs + [b], at)
    ensures Points(tools[id := b], bs + [b], at[id := |bs|])
  {
  }

  lemma PointsShrink(tools: map<string, Bubble>, bs: seq<Bubble>, at: map<string, nat>, id: string)
    requires Points(tools, bs, at)
    ensures Points(tools - {id}, bs, at - {id})
  {
  }

  // ----- batch --------------------------------------------------------------

  class BatchAgg {
    var out: seq<Bubble>
    var tools: map<string, Bubble>
    ghost var st: M.Batch

    ghost predicate Valid()
      reads this, out
    {
      && M.BatchOk(st) && AllDistinct(out) && Views(out) == st.out && Points(tools, out, st.pending)
      && forall b | b in out && b.isTool :: b.role == "tool"
    }

    constructor ()
      ensures Valid() && st == M.EMPTY && out == []
    {
      out, tools, st := [], map[], M.EMPTY;
    }

    /** A text delta; false stands for the panic. */
    method OnText(f: Frame, role: string, text: string) returns (ok: bool)
      requires Valid() && f.body == TextDelta(role, text)
      modifies this, out
      ensures ok <==> !M.Panics(old(st), f)
      ensures Valid() && st == if ok then M.BatchStep(old(st), f) else old(st)
      ensures old(out) <= out && fresh(set b | b in out && b !in old(out))
    {
      if text == "" {
        return true;
      }
      var r := if role == "" then "assistant" else role;
      hide M.BatchStep, M.BatchOk, Points;
      assert |out| > 0 ==> Views(out)[|out| - 1] == out[|out| - 1].View();
      if |out| > 0 && out[|out| - 1].role == r {
        if out[|out| - 1].isTool {
          return false;
        }
        ExtendLast(f, r, text);
      } else {
        AddText(f, r, text);
      }
      ok := true;
    }

    method ExtendLast(f: Frame, r: string, text: string)
      requires Valid() && f.body.TextDelta? && f.body.text == text != "" && r == M.RoleOf(f.body.role)
      requires |out| > 0 && !out[|out| - 1].isTool && out[|out| - 1].role == r
      modifies this`st, out[|out| - 1]
      ensures Valid() && st == M.BatchStep(old(st), f)
    {
      M.BatchText(st, f, r, text);
      hide M.BatchStep, M.BatchOk, Points;
      ghost var before := Views(out);
      var last := out[|out| - 1];
      assert before[|out| - 1] == last.View();
      last.Extend(f.seqNo, text);
      OneChanged(out, before, |out| - 1);
      st := M.BatchStep(st, f);
    }

    method AddText(f: Frame, r: string, text: string)
      requires Valid() && f.body.TextDelta? && f.body.text == text != "" && r == M.RoleOf(f.body.role)
      requires |out| > 0 ==> out[|out| - 1].isTool || out[|out| - 1].role != r
      modifies this`st, this`out
      ensures Valid() && st == M.BatchStep(old(st), f)
      ensures |out| == |old(out)| + 1 && old(out) <= out && fresh(out[|out| - 1])
    {
      M.BatchText(st, f, r, text);
      hide M.BatchStep, M.BatchOk, Points;
      assert |out| > 0 ==> Views(out)[|out| - 1] == out[|out| - 1].View();
      var m := new Bubble.Text(f.seqNo, r, text);
      OneAdded(out, m);
      PointsGrow(tools, out, st.pending, m, "");
      out := out + [m];
      st := M.BatchStep(st, f);
    }

    method OnToolStart(f: Frame, tool: string, id: string)
      requires Valid() && f.body == ToolStart(tool, id)
      modifies this
      ensures Valid() && st == M.BatchStep(old(st), f)
      ensures old(out) <= out && fresh(set b | b in out && b !in old(out))
    {
      assert M.BatchStep(st, f) == M.Batch(st.out + [M.Tool(f.seqNo, tool, "running")],
                                           if id != "" then st.pending[id := |st.out|] else st.pending);
      hide M.BatchStep, M.BatchOk, Points;
      var entry := new Bubble.Tool(f.seqNo, tool, "running");
      OneAdded(out, entry);
      PointsGrow(tools, out, st.pending, entry, id);
      out := out + [entry];
      if id != "" {
        tools := tools[id := entry];
      }
      st := M.BatchStep(st, f);
    }

    method OnToolResult(f: Frame, id: string, isError: bool, ms: int)
      requires Valid() && f.body == ToolResult(id, isError, ms)
      modifies this`tools, this`st, out
      ensures Valid() && st == M.BatchStep(old(st), f)
    {
      if id in tools {
        ghost var i := st.pending[id];
        ghost var m := M.Resolved(st.out[i], f.seqNo, M.Summary(isError, ms));
        assert M.BatchStep(st, f) == M.Batch(st.out[i := m], st.pending - {id});
        assert st.out[i].Tool?;
        PointsShrink(tools, out, st.pending, id);
        hide M.BatchStep, M.BatchOk, M.Summary;
        ghost var before := Views(out);
        assert before[i] == tools[id].View();
        var entry := tools[id];
        entry.Resolve(f.seqNo, M.Summary(isError, ms));
        OneChanged(out, before, i);
        tools := tools - {id};
        st := M.BatchStep(st, f);
      }
    }
  }

  /** None stands for a panic. */
  method AggregateChat(frames: seq<Frame>) returns (out: Option<seq<Bubble>>)
    ensures out == None <==> M.PanicsOn(frames)
    ensures out.Some? ==> fresh(set b | b in out.value) && Views(out.value) == M.Aggregate(frames).out
    ensures out.Some? ==>
      |out.value| == |V.Voices(frames)| && forall i | 0 <= i < |out.value| :: C.Described(frames, i, Views(out.value)[i])
  {
    C.LinesAreDescribed(frames);
    hide M.BatchStep, M.Panics, C.Described, V.Voices;
    var agg := new BatchAgg();
    assert frames[..0] == [];
    for k := 0 to |frames|
      invariant agg.Valid() && fresh(agg) && fresh(set b | b in agg.out)
      invariant agg.st == M.Aggregate(frames[..k])
      invariant forall i | 0 <= i < k :: !M.PanicsAt(frames, i)
    {
      var f := frames[k];
      assert frames[..k + 1][..k] == frames[..k];
      OnlyTextPanics(agg.st, f);
      match f.body {
      case TextDelta(role, text) =>
        var ok := agg.OnText(f, role, text);
        if !ok {
          assert M.PanicsAt(frames, k);
          return None;
        }
      case ToolStart(tool, id) => agg.OnToolStart(f, tool, id);
      case ToolResult(id, isError, ms) => agg.OnToolResult(f, id, isError, ms);
      case Stop(_, _) => IgnoredByBatch(agg.st, f);
      case Other(_) => IgnoredByBatch(agg.st, f);
      }
    }
    assert frames[..|frames|] == frames;
    out := Some(agg.out);
  }

  lemma OnlyTextPanics(b: M.Batch, f: Frame)
    ensures M.Panics(b, f) ==> f.body.TextDelta?
  {
  }

  lemma IgnoredByBatch(b: M.Batch, f: Frame)
    requires M.BatchOk(b) && (f.body.Stop? || f.body.Other?)
    ensures M.BatchStep(b, f) == b
  {
  }

  method FilterSince(msgs: seq<Bubble>, since: nat) returns (out: seq<Bubble>)
    ensures Views(out) == M.FilterSince(Views(msgs), since)
    ensures forall b | b in out :: b in msgs
  {
    out := [];
    ghost var all := Views(msgs);
    assert all[..0] == [];
    for k := 0 to |msgs|
      invariant Views(out) == M.FilterSince(all[..k], since)
      invariant forall b | b in out :: b in msgs
    {
      assert all[..k + 1][..k] == all[..k];
      var m := msgs[k];
      assert all[k] == m.View();
      if m.seqNo > since {
        assert Views(out + [m]) == Views(out) + [m.View()];
        out := out + [m];
      } else {
        assert Views(out) + [] == Views(out);
      }
    }
    assert all[..|msgs|] == all;
  }

  // ----- incremental --------------------------------------------------------

  class ChatAgg {
    var openUser: Bubble?
    var openAssistant: Bubble?
    var tools: map<string, Bubble>
    var muted: bool                    // warm-up replaces emit by a no-op

    ghost var born: seq<Bubble>        // every bubble, in order of creation
    ghost var st: M.Agg
    ghost var emitted: seq<M.Event>

    ghost predicate IsOpen(b: Bubble?, at: Option<nat>)
      reads this`born
    {
      match at
      case None => b == null
      case Some(i) => i < |born| && b == born[i]
    }

    ghost predicate Valid()
      reads this`openUser, this`openAssistant, this`tools, this`born, this`st, born
    {
      && M.AggOk(st) && AllDistinct(born) && Views(born) == st.bubbles
      && IsOpen(openUser, st.openUser) && IsOpen(openAssistant, st.openAssistant)
      && Points(tools, born, st.tools)
    }

    constructor ()
      ensures Valid() && st == M.FRESH && emitted == [] && !muted && born == []
    {
      openUser, openAssistant, tools, muted := null, null, map[], false;
      born, st, emitted := [], M.FRESH, [];
    }

    method OnText(f: Frame, role: string, text: string) returns (ghost evs: seq<M.Event>)
      requires Valid() && f.body == TextDelta(role, text)
      modifies this`openUser, this`openAssistant, this`born, this`st, born
      ensures Valid() && st == M.Step(old(st), f) && M.Emits(old(st), f, evs)
      ensures old(born) <= born && fresh(set b | b in born && b !in old(born))
    {
      hide M.Step, M.Emits;
      evs := [];
      if text == "" {
        M.NothingToDo(st, f);
        return;
      }
      var r := if role == "" then "assistant" else role;
      var open := if r == "user" then openUser else openAssistant;
      if open != null {
        evs := ExtendOpen(f, r, text, open);
        return;
      }
      evs := OpenNew(f, r, text);
    }

    /** The branch that closes the other role's bubble and opens a new one. */
    method OpenNew(f: Frame, r: string, text: string) returns (ghost evs: seq<M.Event>)
      requires Valid() && f.body.TextDelta? && f.body.text == text != "" && r == M.RoleOf(f.body.role)
      requires (if r == "user" then openUser else openAssistant) == null
      modifies this`openUser, this`openAssistant, this`born, this`st
      ensures Valid() && st == M.Step(old(st), f) && M.Emits(old(st), f, evs)
      ensures old(born) <= born && fresh(set b | b in born && b !in old(born))
    {
      M.StepOpens(st, f, r, text);
      hide M.Step, M.Emits, M.AggOk;
      if r == "assistant" {
        openUser := null;
      } else {
        openAssistant := null;
      }
      var m := new Bubble.Text(f.seqNo, r, text);
      if r == "user" {
        openUser := m;
      } else {
        openAssistant := m;
      }
      evs := [M.Chat(|born|, m.View())];
      Append(m, M.Step(st, f));
      assert Points(tools, born, st.tools);
    }

    /** The branch for a role whose bubble is open. */
    method ExtendOpen(f: Frame, r: string, text: string, open: Bubble) returns (ghost evs: seq<M.Event>)
      requires Valid() && f.body.TextDelta? && f.body.text == text != "" && r == M.RoleOf(f.body.role)
      requires open == if r == "user" then openUser else openAssistant
      modifies this`st, open
      ensures Valid() && st == M.Step(old(st), f) && M.Emits(old(st), f, evs)
    {
      hide M.Step, M.Emits;
      ghost var i := M.OpenOf(st, r).value;
      ghost var before := Views(born);
      assert before[i] == open.View();
      M.StepExtends(st, f, r, text);
      open.Extend(f.seqNo, text);
      OneChanged(born, before, i);
      evs := [M.Update(i, open.View())];
      st := M.Step(st, f);
    }

    /** Records a new bubble as the last one. */
    ghost method Append(m: Bubble, next: M.Agg)
      requires AllDistinct(born) && m !in born && M.AggOk(next)
      requires next.bubbles == Views(born) + [m.View()]
      modifies this`born, this`st
      ensures AllDistinct(born) && born == old(born) + [m] && st == next && Views(born) == st.bubbles
    {
      OneAdded(born, m);
      born := born + [m];
      st := next;
    }

    method OnToolStart(f: Frame, tool: string, id: string) returns (ghost evs: seq<M.Event>)
      requires Valid() && f.body == ToolStart(tool, id)
      modifies this`openUser, this`openAssistant, this`tools, this`born, this`st
      ensures Valid() && st == M.Step(old(st), f) && M.Emits(old(st), f, evs)
      ensures old(born) <= born && fresh(set b | b in born && b !in old(born))
    {
      M.StepStarts(st, f, tool, id);
      hide M.Step, M.Emits, M.AggOk;
      openUser := null;
      openAssistant := null;
      var entry := new Bubble.Tool(f.seqNo, tool, "running");
      PointsGrow(tools, born, st.tools, entry, id);
      if id != "" {
        tools := tools[id := entry];
      }
      hide Points;
      evs := [M.Chat(|born|, entry.View())];
      Append(entry, M.Step(st, f));
    }

    method OnToolResult(f: Frame, id: string, isError: bool, ms: int) returns (ghost evs: seq<M.Event>)
      requires Valid() && f.body == ToolResult(id, isError, ms)
      modifies this`tools, this`st, born
      ensures Valid() && st == M.Step(old(st), f) && M.Emits(old(st), f, evs)
    {
      evs := [];
      if id !in tools {
        return;
      }
      M.StepResolves(st, f, id, isError, ms);
      PointsShrink(tools, born, st.tools, id);
      hide M.Step, M.Emits, M.AggOk, M.Summary;
      ghost var i := st.tools[id];
      ghost var before := Views(born);
      assert before[i] == tools[id].View();
      var entry := tools[id];
      entry.Resolve(f.seqNo, M.Summary(isError, ms));
      OneChanged(born, before, i);
      evs := [M.Update(i, entry.View())];
      tools := tools - {id};
      st := M.Step(st, f);
    }

    /** One round of the flush: marks the bubble as an orphan and forgets its id. */
    method FlushTool(id: string, ghost a: M.Agg, seqNo: nat, ghost done: set<nat>)
      requires M.AggOk(a) && FlushingAt(a, seqNo, done) && id in tools
      modifies this`tools, tools[id]
      ensures FlushingAt(a, seqNo, done + {a.tools[id]}) && tools == old(tools) - {id}
    {
      ghost var i := a.tools[id];
      var entry := tools[id];
      ghost var before := Views(born);
      assert before[i] == entry.View() && a.bubbles[i].Tool?;
      entry.Resolve(seqNo, "orphan");
      M.OneOrphan(a.bubbles, seqNo, done, i);
      OneChanged(born, before, i);
      tools := tools - {id};
    }

    /** The bubbles while a stop's orphans are flushed, those in done already marked. */
    ghost predicate FlushingAt(a: M.Agg, seqNo: nat, done: set<nat>)
      requires M.AggOk(a)
      reads this`tools, this`born, born
    {
      && AllDistinct(born) && tools.Keys <= a.tools.Keys
      && (forall id | id in tools :: a.tools[id] < |born| && tools[id] == born[a.tools[id]])
      && (forall id | id in a.tools :: a.tools[id] in done <==> id !in tools)
      && done <= a.tools.Values
      && Views(born) == M.Orphans(a.bubbles, done, seqNo)
    }

    /** Where the flush stands: the bubbles, and the events that told of them. */
    ghost predicate Flushing(a: M.Agg, seqNo: nat, done: set<nat>, evs: seq<M.Event>)
      reads this`tools, this`born, born
    {
      M.AggOk(a) && FlushingAt(a, seqNo, done) && Flushed(a, seqNo, evs, done) && |evs| == |a.tools| - |tools|
    }

    method FlushRound(id: string, ghost a: M.Agg, seqNo: nat, ghost done: set<nat>, ghost evs: seq<M.Event>)
      returns (ghost more: seq<M.Event>)
      requires Flushing(a, seqNo, done, evs) && id in tools
      modifies this`tools, tools[id]
      ensures tools == old(tools) - {id} && id in a.tools
      ensures Flushing(a, seqNo, done + {a.tools[id]}, more)
    {
      ghost var i := a.tools[id];
      FlushOne(a, seqNo, evs, done, i);
      FlushTool(id, a, seqNo, done);
      hide FlushingAt, Flushed, M.AggOk;
      more := evs + [M.Update(i, M.Resolved(a.bubbles[i], seqNo, "orphan"))];
    }

    lemma FlushTarget(a: M.Agg, seqNo: nat, done: set<nat>, evs: seq<M.Event>, id: string)
      requires Flushing(a, seqNo, done, evs) && id in tools
      ensures tools[id] in born
    {
    }

    lemma FlushEnds(a: M.Agg, seqNo: nat, done: set<nat>, evs: seq<M.Event>)
      requires Flushing(a, seqNo, done, evs) && tools == map[]
      ensures M.AggOk(a) && FlushingAt(a, seqNo, a.tools.Values) && M.OrphanUpdates(a, seqNo, evs)
    {
      assert done == a.tools.Values;
      FlushedAll(a, seqNo, evs);
    }

    lemma FlushSettles(a: M.Agg, seqNo: nat)
      requires M.AggOk(a) && FlushingAt(a, seqNo, a.tools.Values)
      ensures AllDistinct(born) && Views(born) == M.Orphans(a.bubbles, a.tools.Values, seqNo)
    {
    }

    lemma FlushStarts(seqNo: nat)
      requires Valid()
      ensures Flushing(st, seqNo, {}, [])
    {
      assert M.Orphans(st.bubbles, {}, seqNo) == st.bubbles;
      assert tools.Keys == st.tools.Keys && |tools| == |tools.Keys| && |st.tools| == |st.tools.Keys|;
    }

    /** Flushes the tools that never got a result, in whatever order the map is walked. */
    method FlushTools(seqNo: nat) returns (ghost evs: seq<M.Event>)
      requires M.AggOk(st) && Flushing(st, seqNo, {}, [])
      modifies this`tools, born
      ensures M.AggOk(st) && tools == map[] && FlushingAt(st, seqNo, st.tools.Values)
      ensures M.OrphanUpdates(st, seqNo, evs)
    {
      hide Flushing, FlushingAt, Flushed, M.AggOk, M.OrphanUpdates;
      ghost var done: set<nat> := {};
      evs := [];
      while tools != map[]
        invariant Flushing(st, seqNo, done, evs)
        decreases |tools|
      {
        var id :| id in tools;
        FlushTarget(st, seqNo, done, evs, id);
        evs := FlushRound(id, st, seqNo, done, evs);
        done := done + {st.tools[id]};
      }
      FlushEnds(st, seqNo, done, evs);
    }

    method OnStop(f: Frame, reason: string, ms: int) returns (ghost evs: seq<M.Event>)
      requires Valid() && f.body == Stop(reason, ms)
      modifies this`openUser, this`openAssistant, this`tools, this`st, born
      ensures Valid() && st == M.Step(old(st), f) && M.Emits(old(st), f, evs)
    {
      ghost var a := st;
      assert M.AggOk(a);
      hide *;
      CloseBubbles();
      FlushStarts(f.seqNo);
      evs := FlushTools(f.seqNo);
      evs := EndTurn(a, f, reason, ms, evs);
    }

    method CloseBubbles()
      requires Valid()
      modifies this`openUser, this`openAssistant, this`st
      ensures Valid() && st == old(st).(openUser := None, openAssistant := None)
      ensures openUser == openAssistant == null
    {
      ClosedIsOk(st);
      openUser := null;
      openAssistant := null;
      st := st.(openUser := None, openAssistant := None);
    }

    /** Takes the stop itself into account once no tool is left. */
    ghost method EndTurn(a: M.Agg, f: Frame, reason: string, ms: int, orphans: seq<M.Event>) returns (evs: seq<M.Event>)
      requires M.AggOk(a) && f.body == Stop(reason, ms) && st == a.(openUser := None, openAssistant := None)
      requires M.AggOk(st) && FlushingAt(st, f.seqNo, st.tools.Values) && M.OrphanUpdates(st, f.seqNo, orphans)
      requires tools == map[] && openUser == openAssistant == null
      modifies this`st
      ensures Valid() && st == M.Step(a, f) && M.Emits(a, f, evs)
    {
      FlushSettles(st, f.seqNo);
      StopIgnoresOpen(a, f, reason, ms, orphans);
      hide M.Step, M.Emits, M.OrphanUpdates, Views, M.Orphans, FlushingAt, M.AggOk;
      st := M.Step(a, f);
      evs := orphans + [M.Stopped(f.seqNo, reason, ms)];
    }

    method OnOther(f: Frame) returns (ghost evs: seq<M.Event>)
      requires Valid() && f.body.Other?
      ensures st == M.Step(st, f) && M.Emits(st, f, evs)
    {
      evs := [];
      M.NothingToDo(st, f);
    }

    /** The events of a step reach the client unless the aggregator is warming up. */
    method StepFrame(f: Frame) returns (ghost evs: seq<M.Event>)
      requires Valid()
      modifies this, born
      ensures Valid() && muted == old(muted) && st == M.Step(old(st), f) && M.Emits(old(st), f, evs)
      ensures emitted == if muted then old(emitted) else old(emitted) + evs
      ensures old(born) <= born && fresh(set b | b in born && b !in old(born))
    {
      hide M.Step, M.Emits, ChatAgg.Valid;
      match f.body {
      case TextDelta(role, text) => evs := OnText(f, role, text);
      case ToolStart(tool, id) => evs := OnToolStart(f, tool, id);
      case ToolResult(id, isError, ms) => evs := OnToolResult(f, id, isError, ms);
      case Stop(reason, ms) => evs := OnStop(f, reason, ms);
      case Other(_) => evs := OnOther(f);
      }
      emitted := if muted then emitted else emitted + evs;
    }

    /** Replays a snapshot silently. */
    method Warmup(frames: seq<Frame>)
      requires Valid()
      modifies this, born
      ensures Valid() && muted == old(muted) && emitted == old(emitted)
      ensures st == M.StepAll(old(st), frames)
      ensures old(born) <= born && fresh(set b | b in born && b !in old(born))
    {
      hide M.Step, M.Emits;
      var orig := muted;
      muted := true;
      assert frames[..0] == [];
      for k := 0 to |frames|
        invariant Valid() && muted && emitted == old(emitted)
        invariant st == M.StepAll(old(st), frames[..k])
        invariant old(born) <= born && fresh(set b | b in born && b !in old(born))
      {
        assert frames[..k + 1][..k] == frames[..k];
        ghost var evs := StepFrame(frames[k]);
      }
      assert frames[..|frames|] == frames;
      muted := orig;
    }
  }

  lemma ClosedIsOk(a: M.Agg)
    requires M.AggOk(a)
    ensures M.AggOk(a.(openUser := None, openAssistant := None))
  {
  }

  lemma StopIgnoresOpen(a: M.Agg, f: Frame, reason: string, ms: int, orphans: seq<M.Event>)
    requires M.AggOk(a) && f.body == Stop(reason, ms)
    requires M.OrphanUpdates(a.(openUser := None, openAssistant := None), f.seqNo, orphans)
    ensures M.Step(a, f) == M.Agg(M.Orphans(a.bubbles, a.tools.Values, f.seqNo), None, None, map[])
    ensures M.Emits(a, f, orphans + [M.Stopped(f.seqNo, reason, ms)])
  {
    var evs := orphans + [M.Stopped(f.seqNo, reason, ms)];
    assert evs[..|evs| - 1] == orphans;
  }

  /** The updates for the tools flushed so far. */
  ghost predicate Flushed(a: M.Agg, seqNo: nat, evs: seq<M.Event>, done: set<nat>)
    requires M.AggOk(a)
  {
    && done <= a.tools.Values
    && (forall i | 0 <= i < |evs| :: evs[i].Update? && evs[i].id in done
          && evs[i].msg == M.Resolved(a.bubbles[evs[i].id], seqNo, "orphan"))
    && (forall i, j | 0 <= i < j < |evs| :: evs[i].id != evs[j].id)
    && (forall v | v in done :: exists i | 0 <= i < |evs| :: evs[i].id == v)
  }

  lemma FlushOne(a: M.Agg, seqNo: nat, evs: seq<M.Event>, done: set<nat>, i: nat)
    requires M.AggOk(a) && Flushed(a, seqNo, evs, done) && i in a.tools.Values && i !in done
    ensures Flushed(a, seqNo, evs + [M.Update(i, M.Resolved(a.bubbles[i], seqNo, "orphan"))], done + {i})
  {
    var more := evs + [M.Update(i, M.Resolved(a.bubbles[i], seqNo, "orphan"))];
    forall v | v in done + {i} ensures exists k | 0 <= k < |more| :: more[k].id == v {
      if v == i {
        assert more[|evs|].id == v;
      } else {
        var k :| 0 <= k < |evs| && evs[k].id == v;
        assert more[k].id == v;
      }
    }
  }

  lemma FlushedAll(a: M.Agg, seqNo: nat, evs: seq<M.Event>)
    requires M.AggOk(a) && Flushed(a, seqNo, evs, a.tools.Values) && |evs| == |a.tools|
    ensures M.OrphanUpdates(a, seqNo, evs)
  {
  }

  // ----- the handler's opening ----------------------------------------------

  method LastReplayed(sent: seq<Bubble>) returns (h: nat)
    ensures h == R.Highest(Views(sent))
  {
    h := 0;
    ghost var all := Views(sent);
    assert all[..0] == [];
    for k := 0 to |sent|
      invariant h == R.Highest(all[..k])
    {
      assert all[..k + 1][..k] == all[..k];
      assert all[k] == sent[k].View();
      if sent[k].seqNo > h {
        h := sent[k].seqNo;
      }
    }
    assert all[..|sent|] == all;
  }

  /** Sends the snapshot's lines, warms the aggregator up and picks the cursor to subscribe from;
      null stands for a panic. */
  method OpenStream(hist: seq<Frame>, since: nat) returns (sent: seq<Bubble>, agg: ChatAgg?, subFrom: nat)
    ensures agg == null <==> M.PanicsOn(hist)
    ensures agg != null ==> Views(sent) == M.FilterSince(M.Aggregate(hist).out, since)
    ensures agg != null ==> agg.Valid() && !agg.muted && agg.emitted == [] && agg.st == M.StepAll(M.FRESH, hist)
    ensures agg != null ==> subFrom == R.SubFrom(hist, since)
  {
    hide M.Step, M.BatchStep, M.FilterSince, R.Highest, M.PanicsOn;
    var lines := AggregateChat(hist);
    if lines == None {
      return [], null, since;
    }
    sent := FilterSince(lines.value, since);
    subFrom := LastReplayed(sent);
    if subFrom == 0 {
      subFrom := since;
    }
    ghost var all := Views(sent);
    agg := new ChatAgg();
    agg.Warmup(hist);
    assert Views(sent) == all;
  }
}
