/** The two chat projections as pure steps: the batch one of internal/server/messages.go and the
    incremental one of internal/server/chat_stream.go, and how they are related. */
module ChatModel {
  import opened Bytes
  import opened Frames

  /** One chat line. */
  datatype Msg =
    | Text(seqNo: nat, role: string, text: string)
    | Tool(seqNo: nat, tool: string, summary: string)

  function RoleOf(role: string): string {
    if role == "" then "assistant" else role
  }

  function AsText(s: Bytes): string {
    seq(|s|, i requires 0 <= i < |s| => s[i] as char)
  }

  function Summary(isError: bool, durationMs: int): string {
    (if isError then "error" else "ok") + (if durationMs > 0 then " · " + AsText(Decimal(durationMs)) + "ms" else "")
  }

  function Grown(m: Msg, seqNo: nat, more: string): Msg {
    match m
    case Text(_, role, text) => Text(seqNo, role, text + more)
    case Tool(_, _, _) => m
  }

  function Resolved(m: Msg, seqNo: nat, summary: string): Msg {
    match m
    case Tool(_, tool, _) => Tool(seqNo, tool, summary)
    case Text(_, _, _) => m
  }

  // ----- batch --------------------------------------------------------------

  datatype Batch = Batch(out: seq<Msg>, pending: map<string, nat>)

  const EMPTY := Batch([], map[])

  /** The last line is a text line of this role. */
  predicate Continues(out: seq<Msg>, role: string) {
    |out| > 0 && out[|out| - 1].Text? && out[|out| - 1].role == role
  }

  function BatchStep(b: Batch, f: Frame): (c: Batch)
    requires BatchOk(b)
    ensures BatchOk(c)
  {
    match f.body
    case TextDelta(role, text) =>
      if text == "" then b
      else if Continues(b.out, RoleOf(role)) then
        b.(out := b.out[|b.out| - 1 := Grown(b.out[|b.out| - 1], f.seqNo, text)])
      else b.(out := b.out + [Text(f.seqNo, RoleOf(role), text)])
    case ToolStart(tool, id) =>
      Batch(b.out + [Tool(f.seqNo, tool, "running")], if id != "" then b.pending[id := |b.out|] else b.pending)
    case ToolResult(id, isError, ms) =>
      if id in b.pending then
        var i := b.pending[id];
        Batch(b.out[i := Resolved(b.out[i], f.seqNo, Summary(isError, ms))], b.pending - {id})
      else b
    case Stop(_, _) => b
    case Other(_) => b
  }

  /** Pending tool ids point at distinct tool lines. */
  ghost predicate BatchOk(b: Batch) {
    && (forall id | id in b.pending :: b.pending[id] < |b.out| && b.out[b.pending[id]].Tool?)
    && (forall i, j | i in b.pending && j in b.pending && b.pending[i] == b.pending[j] :: i == j)
  }

  function Aggregate(fs: seq<Frame>): (b: Batch)
    ensures BatchOk(b)
    decreases |fs|
  {
    if fs == [] then EMPTY else BatchStep(Aggregate(fs[..|fs| - 1]), fs[|fs| - 1])
  }

  lemma AggregateLast(fs: seq<Frame>)
    requires fs != []
    ensures Aggregate(fs) == BatchStep(Aggregate(fs[..|fs| - 1]), fs[|fs| - 1])
  {
  }

  /** The program panics: a text delta claims the role of the tool lines right after one, which has
      no text to append to. */
  predicate Panics(b: Batch, f: Frame) {
    f.body.TextDelta? && f.body.text != "" && f.body.role == "tool" && |b.out| > 0 && b.out[|b.out| - 1].Tool?
  }

  ghost predicate PanicsOn(fs: seq<Frame>) {
    exists k | 0 <= k < |fs| :: PanicsAt(fs, k)
  }

  ghost predicate PanicsAt(fs: seq<Frame>, k: nat)
    requires k < |fs|
  {
    Panics(Aggregate(fs[..k]), fs[k])
  }

  // ----- incremental --------------------------------------------------------

  /** The bubbles emitted so far, the open one of each role, and the tools awaiting a result. */
  datatype Agg = Agg(bubbles: seq<Msg>, openUser: Option<nat>, openAssistant: Option<nat>, tools: map<string, nat>)

  const FRESH := Agg([], None, None, map[])

  datatype Event =
    | Chat(id: nat, msg: Msg)
    | Update(id: nat, msg: Msg)
    | Stopped(seqNo: nat, reason: string, durationMs: int)

  ghost predicate OpenOk(bubbles: seq<Msg>, open: Option<nat>) {
    open.Some? ==> open.value < |bubbles| && bubbles[open.value].Text?
  }

  ghost predicate AggOk(a: Agg) {
    && OpenOk(a.bubbles, a.openUser) && OpenOk(a.bubbles, a.openAssistant)
    && (forall id | id in a.tools :: a.tools[id] < |a.bubbles| && a.bubbles[a.tools[id]].Tool?)
    && (forall i, j | i in a.tools && j in a.tools && a.tools[i] == a.tools[j] :: i == j)
  }

  function OpenOf(a: Agg, role: string): Option<nat> {
    if role == "user" then a.openUser else a.openAssistant
  }

  /** A new bubble of a role becomes the open one and closes the other role's. */
  function Opened(a: Agg, role: string, m: Msg): Agg {
    var n := |a.bubbles|;
    Agg(a.bubbles + [m],
        if role == "user" then Some(n) else if role == "assistant" then None else a.openUser,
        if role == "user" then None else Some(n),
        a.tools)
  }

  function Orphans(msgs: seq<Msg>, ids: set<nat>, seqNo: nat): (r: seq<Msg>)
    ensures |r| == |msgs|
  {
    seq(|msgs|, i requires 0 <= i < |msgs| => if i in ids then Resolved(msgs[i], seqNo, "orphan") else msgs[i])
  }

  function Step(a: Agg, f: Frame): (b: Agg)
    requires AggOk(a)
    ensures AggOk(b)
  {
    match f.body
    case TextDelta(role, text) =>
      if text == "" then a
      else if OpenOf(a, RoleOf(role)).Some? then
        var i := OpenOf(a, RoleOf(role)).value;
        a.(bubbles := a.bubbles[i := Grown(a.bubbles[i], f.seqNo, text)])
      else Opened(a, RoleOf(role), Text(f.seqNo, RoleOf(role), text))
    case ToolStart(tool, id) =>
      Agg(a.bubbles + [Tool(f.seqNo, tool, "running")], None, None,
          if id != "" then a.tools[id := |a.bubbles|] else a.tools)
    case ToolResult(id, isError, ms) =>
      if id in a.tools then
        var i := a.tools[id];
        a.(bubbles := a.bubbles[i := Resolved(a.bubbles[i], f.seqNo, Summary(isError, ms))], tools := a.tools - {id})
      else a
    case Stop(_, _) => Agg(Orphans(a.bubbles, a.tools.Values, f.seqNo), None, None, map[])
    case Other(_) => a
  }

  /** The orphan updates of a stop, in whatever order the map is walked: one for each pending tool. */
  ghost predicate OrphanUpdates(a: Agg, seqNo: nat, evs: seq<Event>)
    requires AggOk(a)
  {
    && |evs| == |a.tools|
    && (forall i | 0 <= i < |evs| :: evs[i].Update? && evs[i].id in a.tools.Values
          && evs[i].msg == Resolved(a.bubbles[evs[i].id], seqNo, "orphan"))
    && (forall i, j | 0 <= i < j < |evs| :: evs[i].id != evs[j].id)
    && (forall v | v in a.tools.Values :: exists i | 0 <= i < |evs| :: evs[i].id == v)
  }

  /** What a step may emit. */
  ghost predicate Emits(a: Agg, f: Frame, evs: seq<Event>)
    requires AggOk(a)
  {
    var b := Step(a, f);
    match f.body
    case TextDelta(role, text) =>
      if text == "" then evs == []
      else if OpenOf(a, RoleOf(role)).Some? then
        var i := OpenOf(a, RoleOf(role)).value;
        evs == [Update(i, b.bubbles[i])]
      else evs == [Chat(|a.bubbles|, b.bubbles[|a.bubbles|])]
    case ToolStart(_, _) => evs == [Chat(|a.bubbles|, b.bubbles[|a.bubbles|])]
    case ToolResult(id, _, _) => evs == if id in a.tools then [Update(a.tools[id], b.bubbles[a.tools[id]])] else []
    case Stop(reason, ms) =>
      |evs| > 0 && evs[|evs| - 1] == Stopped(f.seqNo, reason, ms) && OrphanUpdates(a, f.seqNo, evs[..|evs| - 1])
    case Other(_) => evs == []
  }

  // ----- a step, case by case -----------------------------------------------

  lemma NothingToDo(a: Agg, f: Frame)
    requires AggOk(a) && (f.body.Other? || (f.body.TextDelta? && f.body.text == ""))
    ensures Step(a, f) == a && Emits(a, f, [])
  {
  }

  lemma StepExtends(a: Agg, f: Frame, r: string, text: string)
    requires AggOk(a) && f.body.TextDelta? && f.body.text == text != "" && r == RoleOf(f.body.role)
    requires OpenOf(a, r).Some?
    ensures var i := OpenOf(a, r).value; var m := Grown(a.bubbles[i], f.seqNo, text);
            Step(a, f) == a.(bubbles := a.bubbles[i := m]) && Emits(a, f, [Update(i, m)])
  {
  }

  lemma StepOpens(a: Agg, f: Frame, r: string, text: string)
    requires AggOk(a) && f.body.TextDelta? && f.body.text == text != "" && r == RoleOf(f.body.role)
    requires OpenOf(a, r) == None
    ensures var m := Text(f.seqNo, r, text);
            Step(a, f) == Opened(a, r, m) && Emits(a, f, [Chat(|a.bubbles|, m)])
  {
  }

  lemma StepStarts(a: Agg, f: Frame, tool: string, id: string)
    requires AggOk(a) && f.body == ToolStart(tool, id)
    ensures var m := Tool(f.seqNo, tool, "running");
            && Step(a, f) == Agg(a.bubbles + [m], None, None, if id != "" then a.tools[id := |a.bubbles|] else a.tools)
            && Emits(a, f, [Chat(|a.bubbles|, m)])
  {
  }

  lemma StepResolves(a: Agg, f: Frame, id: string, isError: bool, ms: int)
    requires AggOk(a) && f.body == ToolResult(id, isError, ms) && id in a.tools
    ensures var i := a.tools[id]; var m := Resolved(a.bubbles[i], f.seqNo, Summary(isError, ms));
            && i < |a.bubbles| && a.bubbles[i].Tool?
            && Step(a, f) == a.(bubbles := a.bubbles[i := m], tools := a.tools - {id})
            && Emits(a, f, [Update(i, m)])
  {
  }

  lemma BatchText(b: Batch, f: Frame, r: string, text: string)
    requires BatchOk(b) && f.body.TextDelta? && f.body.text == text != "" && r == RoleOf(f.body.role)
    ensures BatchStep(b, f)
         == if Continues(b.out, r) then b.(out := b.out[|b.out| - 1 := Grown(b.out[|b.out| - 1], f.seqNo, text)])
            else b.(out := b.out + [Text(f.seqNo, r, text)])
  {
  }

  function StepAll(a: Agg, fs: seq<Frame>): (b: Agg)
    requires AggOk(a)
    ensures AggOk(b)
    decreases |fs|
  {
    if fs == [] then a else Step(StepAll(a, fs[..|fs| - 1]), fs[|fs| - 1])
  }

  lemma StepAllLast(a: Agg, fs: seq<Frame>)
    requires AggOk(a) && fs != []
    ensures StepAll(a, fs) == Step(StepAll(a, fs[..|fs| - 1]), fs[|fs| - 1])
  {
  }

  lemma {:induction false} StepAllAppend(a: Agg, fs: seq<Frame>, gs: seq<Frame>)
    requires AggOk(a)
    ensures StepAll(a, fs + gs) == StepAll(StepAll(a, fs), gs)
    decreases |gs|
  {
    if gs == [] {
      assert fs + gs == fs;
    } else {
      assert (fs + gs)[..|fs + gs| - 1] == fs + gs[..|gs| - 1];
      StepAllAppend(a, fs, gs[..|gs| - 1]);
    }
  }

  // ----- replaying the events -----------------------------------------------

  /** A client's view: chat appends a bubble, update replaces the same bubble. */
  function Apply(view: seq<Msg>, e: Event): seq<Msg> {
    match e
    case Chat(_, m) => view + [m]
    case Update(id, m) => if id < |view| then view[id := m] else view
    case Stopped(_, _, _) => view
  }

  function ApplyAll(view: seq<Msg>, evs: seq<Event>): seq<Msg>
    decreases |evs|
  {
    if evs == [] then view else Apply(ApplyAll(view, evs[..|evs| - 1]), evs[|evs| - 1])
  }

  /** The bubbles that the first k updates name. */
  ghost function Named(evs: seq<Event>, k: nat): set<nat>
    requires k <= |evs|
  {
    set j | 0 <= j < k && evs[j].Update? :: evs[j].id
  }

  lemma OneOrphan(msgs: seq<Msg>, seqNo: nat, done: set<nat>, i: nat)
    requires i < |msgs|
    ensures Orphans(msgs, done + {i}, seqNo) == Orphans(msgs, done, seqNo)[i := Resolved(msgs[i], seqNo, "orphan")]
  {
  }

  lemma {:induction false} ApplyOrphans(a: Agg, seqNo: nat, evs: seq<Event>, k: nat)
    requires AggOk(a) && OrphanUpdates(a, seqNo, evs) && k <= |evs|
    ensures ApplyAll(a.bubbles, evs[..k]) == Orphans(a.bubbles, Named(evs, k), seqNo)
    decreases k
  {
    hide Orphans, Resolved;
    if k == 0 {
      assert evs[..0] == [] && Named(evs, 0) == {};
      NoOrphans(a.bubbles, seqNo);
    } else {
      assert evs[..k][..k - 1] == evs[..k - 1];
      ApplyOrphans(a, seqNo, evs, k - 1);
      var i := evs[k - 1].id;
      assert i < |a.bubbles|;
      assert Named(evs, k) == Named(evs, k - 1) + {i};
      OneOrphan(a.bubbles, seqNo, Named(evs, k - 1), i);
    }
  }

  lemma NoOrphans(msgs: seq<Msg>, seqNo: nat)
    ensures Orphans(msgs, {}, seqNo) == msgs
  {
  }

  /** Applying what a step emits to the old bubbles gives the new bubbles. */
  lemma EventsTellTheStep(a: Agg, f: Frame, evs: seq<Event>)
    requires AggOk(a) && Emits(a, f, evs)
    ensures ApplyAll(a.bubbles, evs) == Step(a, f).bubbles
  {
    hide Resolved, Grown, Summary;
    if f.body.Stop? {
      hide Emits;
      StopTells(a, f, evs);
    } else if |evs| == 1 {
      hide Orphans, OrphanUpdates;
      assert evs[..0] == [];
      assert ApplyAll(a.bubbles, evs) == Apply(a.bubbles, evs[0]);
      hide ApplyAll;
    }
  }

  lemma StopTells(a: Agg, f: Frame, evs: seq<Event>)
    requires AggOk(a) && f.body.Stop? && Emits(a, f, evs)
    ensures ApplyAll(a.bubbles, evs) == Step(a, f).bubbles
  {
    hide Resolved, Grown, Summary;
    var orphans := evs[..|evs| - 1];
    assert orphans[..|orphans|] == orphans;
    ApplyOrphans(a, f.seqNo, orphans, |orphans|);
    assert Named(orphans, |orphans|) == a.tools.Values;
    assert ApplyAll(a.bubbles, evs) == Apply(ApplyAll(a.bubbles, orphans), evs[|evs| - 1]);
    hide ApplyAll, AggOk, Orphans;
  }

  /** One list of events per frame, each what that frame's step may emit. */
  ghost predicate EmitsAll(a: Agg, fs: seq<Frame>, log: seq<seq<Event>>)
    requires AggOk(a)
  {
    |log| == |fs| && forall i | 0 <= i < |fs| :: EmitsAt(a, fs, log, i)
  }

  ghost predicate EmitsAt(a: Agg, fs: seq<Frame>, log: seq<seq<Event>>, i: nat)
    requires AggOk(a) && |log| == |fs| && i < |fs|
  {
    Emits(StepAll(a, fs[..i]), fs[i], log[i])
  }

  function Flat(log: seq<seq<Event>>): seq<Event>
    decreases |log|
  {
    if log == [] then [] else Flat(log[..|log| - 1]) + log[|log| - 1]
  }

  lemma {:induction false} ApplyAllAppend(view: seq<Msg>, xs: seq<Event>, ys: seq<Event>)
    ensures ApplyAll(view, xs + ys) == ApplyAll(ApplyAll(view, xs), ys)
    decreases |ys|
  {
    if ys == [] {
      assert xs + ys == xs;
    } else {
      assert (xs + ys)[..|xs + ys| - 1] == xs + ys[..|ys| - 1];
      ApplyAllAppend(view, xs, ys[..|ys| - 1]);
    }
  }

  /** Replaying a whole run's events per bubble rebuilds the aggregator's bubbles. */
  lemma {:induction false} EventsTellTheRun(a: Agg, fs: seq<Frame>, log: seq<seq<Event>>)
    requires AggOk(a) && EmitsAll(a, fs, log)
    ensures ApplyAll(a.bubbles, Flat(log)) == StepAll(a, fs).bubbles
    decreases |fs|
  {
    hide Step, Emits;
    if fs != [] {
      var n := |fs| - 1;
      forall i | 0 <= i < n ensures EmitsAt(a, fs[..n], log[..n], i) {
        assert EmitsAt(a, fs, log, i);
        assert fs[..n][..i] == fs[..i];
      }
      EventsTellTheRun(a, fs[..n], log[..n]);
      assert EmitsAt(a, fs, log, n);
      EventsTellTheStep(StepAll(a, fs[..n]), fs[n], log[n]);
      ApplyAllAppend(a.bubbles, Flat(log[..n]), log[n]);
    }
  }

  // ----- incremental refines batch ------------------------------------------

  /** The roles a text delta carries; an empty one means the assistant. */
  predicate KnownRole(f: Frame) {
    f.body.TextDelta? ==> f.body.role in ["", "user", "assistant"]
  }

  predicate KnownRoles(fs: seq<Frame>) {
    forall i | 0 <= i < |fs| :: KnownRole(fs[i])
  }

  /** The finished turns, tools still pending at each stop marked as orphans, and the frames of
      the turn under way. */
  datatype Cut = Cut(done: seq<Msg>, turn: seq<Frame>)

  function FinishTurn(b: Batch, seqNo: nat): seq<Msg> {
    Orphans(b.out, b.pending.Values, seqNo)
  }

  function CutAtStops(fs: seq<Frame>): Cut
    decreases |fs|
  {
    if fs == [] then Cut([], [])
    else
      var c := CutAtStops(fs[..|fs| - 1]);
      var f := fs[|fs| - 1];
      if f.body.Stop? then Cut(c.done + FinishTurn(Aggregate(c.turn), f.seqNo), [])
      else Cut(c.done, c.turn + [f])
  }

  function OpenBubble(done: nat, out: seq<Msg>, role: string): Option<nat> {
    if Continues(out, role) then Some(done + |out| - 1) else None
  }

  /** The aggregator stands at: finished turns, then a batch aggregate. */
  ghost predicate At(a: Agg, done: seq<Msg>, b: Batch) {
    && a.bubbles == done + b.out
    && a.openUser == OpenBubble(|done|, b.out, "user")
    && a.openAssistant == OpenBubble(|done|, b.out, "assistant")
    && a.tools.Keys == b.pending.Keys
    && forall id | id in b.pending :: a.tools[id] == |done| + b.pending[id]
  }

  lemma TextContinues(a: Agg, done: seq<Msg>, b: Batch, f: Frame, role: string)
    requires AggOk(a) && BatchOk(b) && At(a, done, b) && f.body.TextDelta? && f.body.text != ""
    requires role == RoleOf(f.body.role) && (role == "user" || role == "assistant") && Continues(b.out, role)
    ensures At(Step(a, f), done, BatchStep(b, f))
  {
    var i, n := |done| + |b.out| - 1, |b.out| - 1;
    var m := Grown(b.out[n], f.seqNo, f.body.text);
    StepExtends(a, f, role, f.body.text);
    BatchText(b, f, role, f.body.text);
    hide Step, Emits, BatchStep, AggOk, BatchOk;
    assert a.bubbles[i] == b.out[n];
    assert (done + b.out)[i := m] == done + b.out[n := m];
    assert b.out[n := m][n].role == b.out[n].role;
  }

  lemma TextOpens(a: Agg, done: seq<Msg>, b: Batch, f: Frame, role: string)
    requires AggOk(a) && BatchOk(b) && At(a, done, b) && f.body.TextDelta? && f.body.text != ""
    requires role == RoleOf(f.body.role) && (role == "user" || role == "assistant") && !Continues(b.out, role)
    ensures At(Step(a, f), done, BatchStep(b, f))
  {
    var m := Text(f.seqNo, role, f.body.text);
    assert Step(a, f) == Opened(a, role, m);
    assert BatchStep(b, f) == b.(out := b.out + [m]);
    hide Step, BatchStep, AggOk, BatchOk;
    assert done + b.out + [m] == done + (b.out + [m]);
  }

  lemma TextStepsTogether(a: Agg, done: seq<Msg>, b: Batch, f: Frame)
    requires AggOk(a) && BatchOk(b) && At(a, done, b) && KnownRole(f) && f.body.TextDelta?
    ensures At(Step(a, f), done, BatchStep(b, f))
  {
    var role := RoleOf(f.body.role);
    if f.body.text != "" {
      hide Step, BatchStep, AggOk, BatchOk, At;
      if Continues(b.out, role) {
        TextContinues(a, done, b, f, role);
      } else {
        TextOpens(a, done, b, f, role);
      }
    }
  }

  lemma ToolStartsTogether(a: Agg, done: seq<Msg>, b: Batch, f: Frame)
    requires AggOk(a) && BatchOk(b) && At(a, done, b) && f.body.ToolStart?
    ensures At(Step(a, f), done, BatchStep(b, f))
  {
    var m := Tool(f.seqNo, f.body.tool, "running");
    var id := f.body.useId;
    StepStarts(a, f, f.body.tool, id);
    assert BatchStep(b, f) == Batch(b.out + [m], if id != "" then b.pending[id := |b.out|] else b.pending);
    assert !Continues(b.out + [m], "user") && !Continues(b.out + [m], "assistant");
    hide Step, Emits, BatchStep, AggOk, BatchOk, Continues;
    assert done + b.out + [m] == done + (b.out + [m]);
  }

  lemma ToolResolvesTogether(a: Agg, done: seq<Msg>, b: Batch, f: Frame)
    requires AggOk(a) && BatchOk(b) && At(a, done, b) && f.body.ToolResult?
    ensures At(Step(a, f), done, BatchStep(b, f))
  {
    var id := f.body.resultId;
    if id in b.pending {
      var i := b.pending[id];
      var m := Resolved(b.out[i], f.seqNo, Summary(f.body.isError, f.body.durationMs));
      assert a.bubbles[|done| + i] == b.out[i];
      StepResolves(a, f, id, f.body.isError, f.body.durationMs);
      assert BatchStep(b, f) == Batch(b.out[i := m], b.pending - {id});
      assert m.Tool? && b.out[i].Tool?;
      hide *;
      AtResolved(a, done, b, id, i, m);
    }
  }

  lemma AtResolved(a: Agg, done: seq<Msg>, b: Batch, id: string, i: nat, m: Msg)
    requires At(a, done, b) && i < |b.out| && m.Tool? && b.out[i].Tool?
    ensures At(a.(bubbles := a.bubbles[|done| + i := m], tools := a.tools - {id}), done, Batch(b.out[i := m], b.pending - {id}))
  {
    assert (done + b.out)[|done| + i := m] == done + b.out[i := m];
  }

  lemma PendingShifted(a: Agg, done: seq<Msg>, b: Batch, i: nat)
    requires At(a, done, b)
    ensures i in a.tools.Values <==> i >= |done| && i - |done| in b.pending.Values
  {
    if i in a.tools.Values {
      var id :| id in a.tools && a.tools[id] == i;
      assert id in b.pending && b.pending[id] == i - |done|;
    }
    forall id | id in b.pending && i == |done| + b.pending[id] ensures i in a.tools.Values {
      assert id in a.tools && a.tools[id] == i;
    }
  }

  lemma StopEndsTurn(a: Agg, done: seq<Msg>, b: Batch, f: Frame)
    requires AggOk(a) && BatchOk(b) && At(a, done, b) && f.body.Stop?
    ensures At(Step(a, f), done + FinishTurn(b, f.seqNo), EMPTY)
  {
    var s := Step(a, f).bubbles;
    var t := done + FinishTurn(b, f.seqNo);
    forall i | 0 <= i < |s| ensures s[i] == t[i] {
      PendingShifted(a, done, b, i);
    }
    assert s == t + [];
  }

  /** At every moment the incremental bubbles are the batch aggregates of the turns, the tools that
      were pending at a stop marked as orphans there, and the batch aggregate of the turn under way. */
  lemma {:induction false} IncrementalRefinesBatch(fs: seq<Frame>)
    requires KnownRoles(fs)
    ensures var c := CutAtStops(fs); At(StepAll(FRESH, fs), c.done, Aggregate(c.turn))
    decreases |fs|
  {
    hide Step, BatchStep;
    if fs == [] {
      assert [] + EMPTY.out == EMPTY.out;
    } else {
      var n := |fs| - 1;
      var f := fs[n];
      IncrementalRefinesBatch(fs[..n]);
      var a := StepAll(FRESH, fs[..n]);
      var c := CutAtStops(fs[..n]);
      var b := Aggregate(c.turn);
      assert (c.turn + [f])[..|c.turn|] == c.turn;
      match f.body
      case TextDelta(_, _) => TextStepsTogether(a, c.done, b, f);
      case ToolStart(_, _) => ToolStartsTogether(a, c.done, b, f);
      case ToolResult(_, _, _) => ToolResolvesTogether(a, c.done, b, f);
      case Stop(_, _) =>
        StopEndsTurn(a, c.done, b, f);
      case Other(_) => OtherStepsTogether(a, b, f);
    }
  }

  lemma OtherStepsTogether(a: Agg, b: Batch, f: Frame)
    requires AggOk(a) && BatchOk(b) && f.body.Other?
    ensures Step(a, f) == a && BatchStep(b, f) == b
  {
  }

  /** Without a stop the two projections are equal. */
  lemma {:induction false} SameWithoutStops(fs: seq<Frame>)
    requires KnownRoles(fs) && forall i | 0 <= i < |fs| :: !fs[i].body.Stop?
    ensures StepAll(FRESH, fs).bubbles == Aggregate(fs).out
  {
    NoCut(fs);
    IncrementalRefinesBatch(fs);
    assert [] + Aggregate(fs).out == Aggregate(fs).out;
  }

  lemma {:induction false} NoCut(fs: seq<Frame>)
    requires forall i | 0 <= i < |fs| :: !fs[i].body.Stop?
    ensures CutAtStops(fs) == Cut([], fs)
    decreases |fs|
  {
    if fs != [] {
      NoCut(fs[..|fs| - 1]);
    }
  }

  // ----- cursors ------------------------------------------------------------

  /** The line a frame opens, extends or resolves. */
  function Touched(b: Batch, f: Frame): Option<nat> {
    match f.body
    case TextDelta(role, text) =>
      if text == "" then None else if Continues(b.out, RoleOf(role)) then Some(|b.out| - 1) else Some(|b.out|)
    case ToolStart(_, _) => Some(|b.out|)
    case ToolResult(id, _, _) => if id in b.pending then Some(b.pending[id]) else None
    case Stop(_, _) => None
    case Other(_) => None
  }

  predicate Touches(fs: seq<Frame>, k: nat, i: nat)
    requires k < |fs|
  {
    Touched(Aggregate(fs[..k]), fs[k]) == Some(i)
  }

  lemma StepTouches(b: Batch, f: Frame)
    requires BatchOk(b)
    ensures var c := BatchStep(b, f); var t := Touched(b, f);
            && (t == None ==> c == b)
            && |b.out| <= |c.out|
            && (forall i | 0 <= i < |b.out| && t != Some(i) :: c.out[i] == b.out[i])
            && (forall i | 0 <= i < |c.out| && (i >= |b.out| || t == Some(i)) :: t == Some(i) && c.out[i].seqNo == f.seqNo)
  {
  }

  /** Frame k touched line i and no later frame did. */
  ghost predicate LastTouch(fs: seq<Frame>, k: nat, i: nat)
    requires k < |fs|
  {
    Touches(fs, k, i) && forall m | k < m < |fs| :: !Touches(fs, m, i)
  }

  lemma LastTouchOfPrefix(fs: seq<Frame>, n: nat, k: nat, i: nat)
    requires n == |fs| - 1 && k < n && LastTouch(fs[..n], k, i) && !Touches(fs, n, i)
    ensures LastTouch(fs, k, i)
  {
    hide Touched;
    forall m | 0 <= m < n ensures Touches(fs[..n], m, i) == Touches(fs, m, i) {
      assert fs[..n][..m] == fs[..m];
    }
  }

  /** Every line's seq is the seq of the last frame that changed it. */
  lemma {:induction false} SeqIsLastTouch(fs: seq<Frame>, i: nat)
    requires i < |Aggregate(fs).out|
    ensures exists k | 0 <= k < |fs| :: LastTouch(fs, k, i) && Aggregate(fs).out[i].seqNo == fs[k].seqNo
    decreases |fs|
  {
    hide BatchStep, Touched;
    var n := |fs| - 1;
    StepTouches(Aggregate(fs[..n]), fs[n]);
    if Touches(fs, n, i) {
      assert LastTouch(fs, n, i);
    } else {
      SeqIsLastTouch(fs[..n], i);
      hide LastTouch, Touches;
      var k :| 0 <= k < n && LastTouch(fs[..n], k, i) && Aggregate(fs[..n]).out[i].seqNo == fs[..n][k].seqNo;
      LastTouchOfPrefix(fs, n, k, i);
    }
  }

  ghost predicate TouchedSince(fs: seq<Frame>, since: nat, i: nat) {
    exists k | 0 <= k < |fs| :: Touches(fs, k, i) && fs[k].seqNo > since
  }

  lemma NewerIffTouched(fs: seq<Frame>, since: nat, i: nat)
    requires Increasing(fs) && i < |Aggregate(fs).out|
    ensures Aggregate(fs).out[i].seqNo > since <==> TouchedSince(fs, since, i)
  {
    SeqIsLastTouch(fs, i);
    var k :| 0 <= k < |fs| && LastTouch(fs, k, i) && Aggregate(fs).out[i].seqNo == fs[k].seqNo;
    hide Aggregate, Touches;
  }

  function FilterSince(msgs: seq<Msg>, since: nat): seq<Msg>
    decreases |msgs|
  {
    if msgs == [] then []
    else FilterSince(msgs[..|msgs| - 1], since)
         + (if msgs[|msgs| - 1].seqNo > since then [msgs[|msgs| - 1]] else [])
  }

  /** The first n lines that some frame after the cursor changed, in order. */
  ghost function ChangedSince(fs: seq<Frame>, since: nat, n: nat): seq<Msg>
    requires n <= |Aggregate(fs).out|
  {
    if n == 0 then []
    else ChangedSince(fs, since, n - 1) + (if TouchedSince(fs, since, n - 1) then [Aggregate(fs).out[n - 1]] else [])
  }

  lemma {:induction false} FilterIsChanged(fs: seq<Frame>, since: nat, n: nat)
    requires Increasing(fs) && n <= |Aggregate(fs).out|
    ensures FilterSince(Aggregate(fs).out[..n], since) == ChangedSince(fs, since, n)
    decreases n
  {
    hide Aggregate, TouchedSince;
    if n > 0 {
      var out := Aggregate(fs).out;
      assert out[..n][..n - 1] == out[..n - 1];
      FilterIsChanged(fs, since, n - 1);
      NewerIffTouched(fs, since, n - 1);
    }
  }

  /** A cursor query returns exactly the lines that some frame after the cursor touched, in order. */
  lemma CursorIsExact(fs: seq<Frame>, since: nat)
    requires Increasing(fs)
    ensures FilterSince(Aggregate(fs).out, since) == ChangedSince(fs, since, |Aggregate(fs).out|)
  {
    var out := Aggregate(fs).out;
    assert out[..|out|] == out;
    FilterIsChanged(fs, since, |out|);
  }
}
