/** What stands in the chat lines, told from the frames alone: which frames make up a line, and the
    line's role, text, tool, summary and seq. Both projections are held to it. */
module ChatContents {
  import opened Bytes
  import opened Frames
  import opened ChatModel
  import opened ChatRoles

  // ----- which line a frame is about ----------------------------------------

  /** The last frame that starts a tool use under this id or brings its result. */
  function LastFor(fs: seq<Frame>, id: string): (r: Option<nat>)
    ensures r.Some? ==> r.value < |fs|
    decreases |fs|
  {
    if fs == [] then None
    else
      var n := |fs| - 1;
      match fs[n].body
      case ToolStart(_, useId) => if useId == id != "" then Some(n) else LastFor(fs[..n], id)
      case ToolResult(resultId, _, _) => if resultId == id then Some(n) else LastFor(fs[..n], id)
      case _ => LastFor(fs[..n], id)
  }

  /** Frame m brings the result of the tool use that frame k starts: none since has used the id. */
  predicate Answers(fs: seq<Frame>, m: nat, k: nat) {
    k < m < |fs| && fs[k].body.ToolStart? && fs[m].body.ToolResult? && LastFor(fs[..m], fs[m].body.resultId) == Some(k)
  }

  /** The line that is last once frame k has been taken into account. */
  function LastLine(fs: seq<Frame>, k: nat): int
    requires k < |fs|
  {
    |Voices(fs[..k + 1])| - 1
  }

  /** The line that frame k opens, extends or resolves. */
  function LineOf(fs: seq<Frame>, k: nat): Option<int>
    requires k < |fs|
  {
    match fs[k].body
    case TextDelta(_, text) => if text == "" then None else Some(LastLine(fs, k))
    case ToolStart(_, _) => Some(LastLine(fs, k))
    case ToolResult(id, _, _) =>
      var start := LastFor(fs[..k], id);
      if start.Some? && fs[start.value].body.ToolStart? then Some(LastLine(fs, start.value)) else None
    case _ => None
  }

  lemma PrefixLine(fs: seq<Frame>, n: nat, k: nat)
    requires k < n <= |fs|
    ensures LastLine(fs[..n], k) == LastLine(fs, k) && LineOf(fs[..n], k) == LineOf(fs, k)
  {
    hide Voices;
    assert fs[..n][..k + 1] == fs[..k + 1] && fs[..n][..k] == fs[..k];
    var id := if fs[k].body.ToolResult? then fs[k].body.resultId else "";
    var start := LastFor(fs[..k], id);
    if start.Some? {
      assert fs[..n][..start.value + 1] == fs[..start.value + 1];
    }
  }

  lemma VoicesLast(fs: seq<Frame>)
    requires fs != []
    ensures Voices(fs) == Hear(Voices(fs[..|fs| - 1]), fs[|fs| - 1])
  {
  }

  lemma LastLineIs(fs: seq<Frame>)
    requires fs != []
    ensures LastLine(fs, |fs| - 1) == |Voices(fs)| - 1
  {
    assert fs[..|fs| - 1 + 1] == fs;
  }

  /** The pending tool uses are those whose last frame is their start. */
  lemma {:induction false} PendingIs(fs: seq<Frame>, id: string)
    ensures var pending := Aggregate(fs).pending; var last := LastFor(fs, id);
            id in pending <==> last.Some? && fs[last.value].body.ToolStart?
    ensures var pending := Aggregate(fs).pending; var last := LastFor(fs, id);
            id in pending ==> last.Some? && pending[id] == LastLine(fs, last.value)
    decreases |fs|
  {
    if fs != [] {
      var n := |fs| - 1;
      PendingIs(fs[..n], id);
      AggregateLast(fs);
      PendingNext(Aggregate(fs[..n]), fs[n], id);
      if fs[n].body.ToolStart? {
        NewLine(fs);
      }
      LastNext(fs, id);
      var last := LastFor(fs[..n], id);
      hide Aggregate, BatchStep, LastFor, LastLine, Voices;
      if last.Some? {
        PrefixLine(fs, n, last.value);
      }
    }
  }

  /** How a frame changes what is pending under an id. */
  lemma PendingNext(b: Batch, f: Frame, id: string)
    requires BatchOk(b)
    ensures var before, after := b.pending, BatchStep(b, f).pending;
            if f.body.ToolStart? && f.body.useId == id != "" then id in after && after[id] == |b.out|
            else if f.body.ToolResult? && f.body.resultId == id then id !in after
            else (id in after <==> id in before) && (id in before ==> after[id] == before[id])
  {
    hide Summary, Continues;
  }

  lemma LastNext(fs: seq<Frame>, id: string)
    requires fs != []
    ensures var f, n := fs[|fs| - 1], |fs| - 1;
            LastFor(fs, id) == if (f.body.ToolStart? && f.body.useId == id != "") || (f.body.ToolResult? && f.body.resultId == id)
                               then Some(n) else LastFor(fs[..n], id)
  {
  }

  lemma NewLine(fs: seq<Frame>)
    requires fs != [] && fs[|fs| - 1].body.ToolStart?
    ensures LastLine(fs, |fs| - 1) == |Aggregate(fs[..|fs| - 1]).out|
  {
    LinesAreVoices(fs[..|fs| - 1]);
    VoicesLast(fs);
    LastLineIs(fs);
    hide Aggregate, Voices;
  }

  lemma HeardLast(b: Batch, vs: seq<Voice>, f: Frame)
    requires Heard(b.out, vs)
    ensures f.body.ToolStart? || (f.body.TextDelta? && f.body.text != "") ==> Touched(b, f) == Some(|Hear(vs, f)| - 1)
  {
  }

  /** The line a frame touches in the aggregate is the line it is about. */
  lemma TouchedIsLineOf(fs: seq<Frame>, k: nat, i: nat)
    requires k < |fs|
    ensures Touches(fs, k, i) <==> LineOf(fs, k) == Some(i)
  {
    var before := fs[..k];
    LinesAreVoices(before);
    assert fs[..k + 1][..k] == before && fs[..k + 1][k] == fs[k];
    VoicesLast(fs[..k + 1]);
    HeardLast(Aggregate(before), Voices(before), fs[k]);
    hide Aggregate, Voices, Hear, Heard;
    if fs[k].body.ToolResult? {
      var id := fs[k].body.resultId;
      PendingIs(before, id);
      var start := LastFor(before, id);
      if start.Some? {
        PrefixLine(fs, k, start.value);
      }
    }
  }

  // ----- what a line says ---------------------------------------------------

  /** The texts of the first n frames that are about line i, one after the other. */
  function TextOf(fs: seq<Frame>, n: nat, i: int): string
    requires n <= |fs|
  {
    if n == 0 then ""
    else TextOf(fs, n - 1, i)
         + (if fs[n - 1].body.TextDelta? && LineOf(fs, n - 1) == Some(i) then fs[n - 1].body.text else "")
  }

  /** ok or error, and behind it the duration in milliseconds when that is positive. */
  ghost predicate IsSummary(summary: string, isError: bool, ms: int) {
    var word := if isError then "error" else "ok";
    if ms > 0 then exists digits | IsNumeral(digits, ms) :: summary == word + " · " + AsText(digits) + "ms"
    else summary == word
  }

  ghost predicate Unanswered(fs: seq<Frame>, k: nat) {
    forall m | k < m < |fs| :: !Answers(fs, m, k)
  }

  ghost predicate AnsweredBy(fs: seq<Frame>, m: nat, k: nat, summary: string) {
    Answers(fs, m, k) && IsSummary(summary, fs[m].body.isError, fs[m].body.durationMs)
  }

  ghost predicate Starts(fs: seq<Frame>, k: nat, i: int) {
    k < |fs| && fs[k].body.ToolStart? && LineOf(fs, k) == Some(i)
  }

  /** What the tool line of start k says while its turn lasts. */
  ghost predicate ToolSays(fs: seq<Frame>, k: nat, summary: string) {
    || (Unanswered(fs, k) && summary == "running")
    || exists m | k < m < |fs| :: AnsweredBy(fs, m, k, summary)
  }

  /** Line i is what the frames make it: a text line has the role of its frames and their texts in
      order; a tool line the tool of its start, and the summary of its result once that has come. */
  ghost predicate Described(fs: seq<Frame>, i: nat, m: Msg)
    requires i < |Voices(fs)|
  {
    match m
    case Text(_, role, text) => Voices(fs)[i] == Speaker(role) && text == TextOf(fs, |fs|, i)
    case Tool(_, tool, summary) =>
      && Voices(fs)[i] == ToolLine
      && exists k | 0 <= k < |fs| :: Starts(fs, k, i) && tool == fs[k].body.tool && ToolSays(fs, k, summary)
  }

  lemma {:induction false} TextOfPrefix(fs: seq<Frame>, n: nat, m: nat, i: int)
    requires m <= n <= |fs|
    ensures TextOf(fs[..n], m, i) == TextOf(fs, m, i)
  {
    if m > 0 {
      TextOfPrefix(fs, n, m - 1, i);
      PrefixLine(fs, n, m - 1);
      hide LineOf;
      assert fs[..n][m - 1] == fs[m - 1];
    }
  }

  /** Lines only come to the end of the list. */
  lemma {:induction false} LinesGrow(fs: seq<Frame>, k: nat)
    requires k <= |fs|
    ensures Voices(fs[..k]) <= Voices(fs)
    decreases |fs| - k
  {
    if k == |fs| {
      assert fs[..k] == fs;
    } else {
      LinesGrow(fs, k + 1);
      VoicesLast(fs[..k + 1]);
      assert fs[..k + 1][..k] == fs[..k];
    }
  }

  lemma {:induction false} NoTextYet(fs: seq<Frame>, n: nat, i: int)
    requires n <= |fs| && i >= |Voices(fs[..n])|
    ensures TextOf(fs, n, i) == ""
  {
    hide Voices;
    if n > 0 {
      assert fs[..n][..n - 1] == fs[..n - 1];
      LinesGrow(fs[..n], n - 1);
      NoTextYet(fs, n - 1, i);
    }
  }

  /** Each start has a line of its own. */
  lemma StartsOnce(fs: seq<Frame>, j: nat, k: nat, i: int)
    requires Starts(fs, j, i) && Starts(fs, k, i)
    ensures j == k
  {
    var a, b := if j < k then j else k, if j < k then k else j;
    if a < b {
      assert fs[..b][..a + 1] == fs[..a + 1] && fs[..b + 1][..b] == fs[..b];
      hide Voices;
      LinesGrow(fs[..b], a + 1);
      VoicesLast(fs[..b + 1]);
    }
  }

  lemma AnswersPrefix(fs: seq<Frame>, n: nat, m: nat, k: nat)
    requires m < n <= |fs|
    ensures Answers(fs[..n], m, k) == Answers(fs, m, k)
  {
    assert fs[..n][..m] == fs[..m];
  }

  /** The last frame is not about this line, so the line stands as it did. */
  lemma StillDescribed(fs: seq<Frame>, i: nat, m: Msg)
    requires fs != [] && i < |Voices(fs[..|fs| - 1])| && Described(fs[..|fs| - 1], i, m)
    requires LineOf(fs, |fs| - 1) != Some(i)
    ensures i < |Voices(fs)| && Described(fs, i, m)
  {
    var n := |fs| - 1;
    LinesGrow(fs, n);
    TextOfPrefix(fs, n, n, i);
    hide Voices, LineOf, TextOf, Answers;
    if m.Tool? {
      var k :| 0 <= k < n && Starts(fs[..n], k, i) && m.tool == fs[..n][k].body.tool && ToolSays(fs[..n], k, m.summary);
      PrefixLine(fs, n, k);
      assert Starts(fs, k, i);
      NotTheAnswer(fs, k, i);
      StillSays(fs, k, m.summary);
    } else {
      assert TextOf(fs, n + 1, i) == TextOf(fs, n, i) by { NoMoreText(fs, i); }
    }
  }

  lemma NoMoreText(fs: seq<Frame>, i: int)
    requires fs != [] && LineOf(fs, |fs| - 1) != Some(i)
    ensures TextOf(fs, |fs|, i) == TextOf(fs, |fs| - 1, i)
  {
    hide LineOf;
    assert TextOf(fs, |fs| - 1, i) + "" == TextOf(fs, |fs| - 1, i);
  }

  lemma NotTheAnswer(fs: seq<Frame>, k: nat, i: int)
    requires fs != [] && Starts(fs, k, i) && LineOf(fs, |fs| - 1) != Some(i)
    ensures !Answers(fs, |fs| - 1, k)
  {
  }

  lemma StillSays(fs: seq<Frame>, k: nat, summary: string)
    requires fs != [] && k < |fs| - 1 && ToolSays(fs[..|fs| - 1], k, summary) && !Answers(fs, |fs| - 1, k)
    ensures ToolSays(fs, k, summary)
  {
    hide Answers, IsSummary;
    var n := |fs| - 1;
    forall m | k < m < n ensures Answers(fs[..n], m, k) == Answers(fs, m, k) {
      AnswersPrefix(fs, n, m, k);
    }
    if !(Unanswered(fs[..n], k) && summary == "running") {
      var m :| k < m < n && AnsweredBy(fs[..n], m, k, summary);
      assert AnsweredBy(fs, m, k, summary);
    }
  }

  lemma SummaryReads(isError: bool, ms: int)
    ensures IsSummary(Summary(isError, ms), isError, ms)
  {
    if ms > 0 {
      DecimalIsNumeral(ms);
      var word := if isError then "error" else "ok";
      assert word + (" · " + AsText(Decimal(ms)) + "ms") == word + " · " + AsText(Decimal(ms)) + "ms";
    } else {
      assert (if isError then "error" else "ok") + "" == (if isError then "error" else "ok");
    }
  }

  lemma TextLine(fs: seq<Frame>, i: nat)
    requires fs != [] && fs[|fs| - 1].body.TextDelta? && LineOf(fs, |fs| - 1) == Some(i)
    ensures var f, b, c := fs[|fs| - 1], Aggregate(fs[..|fs| - 1]), Aggregate(fs);
            && i <= |b.out| && i < |c.out| == |Voices(fs)| && |b.out| == |Voices(fs[..|fs| - 1])|
            && c.out[i].Text? && Voices(fs)[i] == Speaker(c.out[i].role)
            && (if i < |b.out| then b.out[i].Text? && c.out[i].text == b.out[i].text + f.body.text
                else c.out[i].text == f.body.text)
  {
    var n := |fs| - 1;
    LinesAreVoices(fs[..n]);
    LinesAreVoices(fs);
    LastLineIs(fs);
    VoicesLast(fs);
    AggregateLast(fs);
    BatchText(Aggregate(fs[..n]), fs[n], RoleOf(fs[n].body.role), fs[n].body.text);
    hide Voices, Aggregate, BatchStep;
  }

  lemma TextGrows(fs: seq<Frame>, i: int)
    requires fs != [] && fs[|fs| - 1].body.TextDelta? && LineOf(fs, |fs| - 1) == Some(i)
    ensures TextOf(fs, |fs|, i) == TextOf(fs[..|fs| - 1], |fs| - 1, i) + fs[|fs| - 1].body.text
  {
    TextOfPrefix(fs, |fs| - 1, |fs| - 1, i);
    hide LineOf;
  }

  /** A text frame: its line had the texts so far, none if it opens it. */
  lemma TextDescribed(fs: seq<Frame>, i: nat)
    requires fs != [] && fs[|fs| - 1].body.TextDelta? && LineOf(fs, |fs| - 1) == Some(i)
    requires AllDescribed(fs[..|fs| - 1])
    ensures i < |Aggregate(fs).out| && i < |Voices(fs)| && Described(fs, i, Aggregate(fs).out[i])
  {
    var n := |fs| - 1;
    TextLine(fs, i);
    TextGrows(fs, i);
    hide Voices, Aggregate, LineOf, TextOf, Starts, ToolSays;
    if i == |Aggregate(fs[..n]).out| {
      assert fs[..n][..n] == fs[..n];
      NoTextYet(fs[..n], n, i);
      assert "" + fs[n].body.text == fs[n].body.text;
    }
  }

  lemma StartDescribed(fs: seq<Frame>, i: nat)
    requires fs != [] && fs[|fs| - 1].body.ToolStart? && LineOf(fs, |fs| - 1) == Some(i)
    ensures i < |Aggregate(fs).out| && i < |Voices(fs)| && Described(fs, i, Aggregate(fs).out[i])
  {
    var n := |fs| - 1;
    LinesAreVoices(fs[..n]);
    LinesAreVoices(fs);
    LastLineIs(fs);
    VoicesLast(fs);
    AggregateLast(fs);
    hide Voices;
    assert Starts(fs, n, i) && Unanswered(fs, n) && ToolSays(fs, n, "running");
  }

  lemma ResultDescribed(fs: seq<Frame>, i: nat)
    requires fs != [] && fs[|fs| - 1].body.ToolResult? && LineOf(fs, |fs| - 1) == Some(i)
    requires i < |Aggregate(fs[..|fs| - 1]).out| ==>
      i < |Voices(fs[..|fs| - 1])| && Described(fs[..|fs| - 1], i, Aggregate(fs[..|fs| - 1]).out[i])
    ensures i < |Aggregate(fs).out| && i < |Voices(fs)| && Described(fs, i, Aggregate(fs).out[i])
  {
    var n := |fs| - 1;
    var f, b := fs[n], Aggregate(fs[..n]);
    LinesAreVoices(fs[..n]);
    LinesAreVoices(fs);
    VoicesLast(fs);
    AggregateLast(fs);
    PendingIs(fs[..n], f.body.resultId);
    var k := LastFor(fs[..n], f.body.resultId).value;
    PrefixLine(fs, n, k);
    assert b.pending[f.body.resultId] == i;
    hide Voices, Aggregate, LineOf, LastLine, Summary;
    var was := b.out[i];
    assert was.Tool?;
    var j :| 0 <= j < n && Starts(fs[..n], j, i) && was.tool == fs[..n][j].body.tool && ToolSays(fs[..n], j, was.summary);
    PrefixLine(fs, n, j);
    StartsOnce(fs, j, k, i);
    SummaryReads(f.body.isError, f.body.durationMs);
    assert AnsweredBy(fs, n, k, Aggregate(fs).out[i].summary);
    assert Starts(fs, k, i);
  }

  ghost predicate AllDescribed(fs: seq<Frame>) {
    |Aggregate(fs).out| == |Voices(fs)| && forall i | 0 <= i < |Aggregate(fs).out| :: Described(fs, i, Aggregate(fs).out[i])
  }

  lemma LineDescribed(fs: seq<Frame>, i: nat)
    requires fs != [] && AllDescribed(fs[..|fs| - 1]) && i < |Aggregate(fs).out| == |Voices(fs)|
    ensures Described(fs, i, Aggregate(fs).out[i])
  {
    var n := |fs| - 1;
    hide Voices, Described, Aggregate, BatchStep, Touched;
    if LineOf(fs, n) == Some(i) {
      match fs[n].body {
        case TextDelta(_, _) => TextDescribed(fs, i);
        case ToolStart(_, _) => StartDescribed(fs, i);
        case ToolResult(_, _, _) => ResultDescribed(fs, i);
      }
    } else {
      hide LineOf;
      TouchedIsLineOf(fs, n, i);
      AggregateLast(fs);
      StepTouches(Aggregate(fs[..n]), fs[n]);
      StillDescribed(fs, i, Aggregate(fs).out[i]);
    }
  }

  /** Every line of the batch projection is what the frames make it, for every frame list. */
  lemma {:induction false} LinesAreDescribed(fs: seq<Frame>)
    ensures AllDescribed(fs)
    decreases |fs|
  {
    LinesAreVoices(fs);
    hide Voices, Described, Aggregate;
    if fs == [] {
      assert AllDescribed([]) by { NothingDescribed(); }
    } else {
      LinesAreDescribed(fs[..|fs| - 1]);
      forall i | 0 <= i < |Aggregate(fs).out| ensures Described(fs, i, Aggregate(fs).out[i]) {
        LineDescribed(fs, i);
      }
    }
  }

  lemma NothingDescribed()
    ensures AllDescribed([])
  {
  }

  // ----- the incremental projection -----------------------------------------

  /** The frames between two stops, and the seq of the stop that ended them. */
  datatype Turn = Turn(frames: seq<Frame>, stop: Option<nat>)

  function TurnsOf(fs: seq<Frame>): (ts: seq<Turn>)
    ensures ts != []
    decreases |fs|
  {
    if fs == [] then [Turn([], None)]
    else
      var ts := TurnsOf(fs[..|fs| - 1]);
      var f := fs[|fs| - 1];
      var now := ts[|ts| - 1];
      if f.body.Stop? then ts[..|ts| - 1] + [Turn(now.frames, Some(f.seqNo)), Turn([], None)]
      else ts[..|ts| - 1] + [Turn(now.frames + [f], None)]
  }

  /** Some frame is the last about the line, and its seq is the line's. */
  ghost predicate LastAbout(fs: seq<Frame>, k: nat, i: int) {
    k < |fs| && LineOf(fs, k) == Some(i) && forall m | k < m < |fs| :: LineOf(fs, m) != Some(i)
  }

  ghost predicate Dated(fs: seq<Frame>, i: int, seqNo: nat) {
    exists k | 0 <= k < |fs| :: LastAbout(fs, k, i) && fs[k].seqNo == seqNo
  }

  /** The stop finds the tool use of this line unfinished: nothing has used its id since. */
  ghost predicate Unfinished(fs: seq<Frame>, k: nat, i: int) {
    Starts(fs, k, i) && fs[k].body.useId != "" && LastFor(fs, fs[k].body.useId) == Some(k)
  }

  /** A line as the incremental projection shows it: an unfinished tool of an ended turn is an orphan
      of its stop, and every other line is as the frames of the turn make it. */
  ghost predicate ShownAs(t: Turn, i: nat, m: Msg) {
    && i < |Voices(t.frames)|
    && if t.stop.Some? && exists k | 0 <= k < |t.frames| :: Unfinished(t.frames, k, i)
       then exists k | 0 <= k < |t.frames| :: Orphaned(t, k, i, m)
       else Described(t.frames, i, m) && Dated(t.frames, i, m.seqNo)
  }

  ghost predicate Orphaned(t: Turn, k: nat, i: int, m: Msg)
    requires t.stop.Some?
  {
    k < |t.frames| && Unfinished(t.frames, k, i) && m == Tool(t.stop.value, t.frames[k].body.tool, "orphan")
  }

  function Shown(t: Turn): seq<Msg> {
    match t.stop
    case None => Aggregate(t.frames).out
    case Some(seqNo) => FinishTurn(Aggregate(t.frames), seqNo)
  }

  function AllShown(ts: seq<Turn>): seq<Msg>
    decreases |ts|
  {
    if ts == [] then [] else AllShown(ts[..|ts| - 1]) + Shown(ts[|ts| - 1])
  }

  lemma LineIsDated(fs: seq<Frame>, i: nat)
    requires i < |Aggregate(fs).out|
    ensures Dated(fs, i, Aggregate(fs).out[i].seqNo)
  {
    hide Touches, LineOf;
    SeqIsLastTouch(fs, i);
    var k :| 0 <= k < |fs| && LastTouch(fs, k, i) && Aggregate(fs).out[i].seqNo == fs[k].seqNo;
    forall m | k <= m < |fs| ensures Touches(fs, m, i) <==> LineOf(fs, m) == Some(i) {
      TouchedIsLineOf(fs, m, i);
    }
    assert LastAbout(fs, k, i);
  }

  /** The tools pending at a stop are the unfinished ones. */
  lemma PendingIsUnfinished(fs: seq<Frame>, i: nat)
    ensures i in Aggregate(fs).pending.Values <==> exists k | 0 <= k < |fs| :: Unfinished(fs, k, i)
  {
    var pending := Aggregate(fs).pending;
    hide Aggregate, LastFor;
    if i in pending.Values {
      var id :| id in pending && pending[id] == i;
      PendingIs(fs, id);
      LastForUses(fs, id);
      assert Unfinished(fs, LastFor(fs, id).value, i);
    }
    forall k | 0 <= k < |fs| && Unfinished(fs, k, i) ensures i in pending.Values {
      PendingIs(fs, fs[k].body.useId);
      assert pending[fs[k].body.useId] == i;
    }
  }

  lemma {:induction false} LastForUses(fs: seq<Frame>, id: string)
    ensures var k := LastFor(fs, id); k.Some? && fs[k.value].body.ToolStart? ==> fs[k.value].body.useId == id != ""
    decreases |fs|
  {
    if fs != [] {
      LastForUses(fs[..|fs| - 1], id);
    }
  }

  lemma TurnShows(t: Turn, i: nat)
    requires i < |Shown(t)|
    ensures ShownAs(t, i, Shown(t)[i])
  {
    var fs := t.frames;
    var b := Aggregate(fs);
    LinesAreDescribed(fs);
    LineIsDated(fs, i);
    PendingIsUnfinished(fs, i);
    hide Aggregate, Voices, Unfinished, Dated;
    if t.stop.Some? && i in b.pending.Values {
      var k :| 0 <= k < |fs| && Unfinished(fs, k, i);
      OrphanSays(t, k, i, b.out[i]);
    }
  }

  lemma OrphanSays(t: Turn, k: nat, i: nat, m: Msg)
    requires t.stop.Some? && i < |Voices(t.frames)| && Described(t.frames, i, m) && Unfinished(t.frames, k, i)
    requires m.Tool?
    ensures Orphaned(t, k, i, Resolved(m, t.stop.value, "orphan"))
  {
    var fs := t.frames;
    hide Voices, ToolSays, LineOf;
    var j :| 0 <= j < |fs| && Starts(fs, j, i) && m.tool == fs[j].body.tool && ToolSays(fs, j, m.summary);
    StartsOnce(fs, j, k, i);
  }

  lemma {:induction false} TurnsAreCut(fs: seq<Frame>)
    ensures var ts := TurnsOf(fs); var c := CutAtStops(fs);
            ts[|ts| - 1] == Turn(c.turn, None) && AllShown(ts[..|ts| - 1]) == c.done
    decreases |fs|
  {
    hide Aggregate, FinishTurn;
    if fs != [] {
      var n := |fs| - 1;
      TurnsAreCut(fs[..n]);
      var ts, f := TurnsOf(fs[..n]), fs[n];
      var before, now := ts[..|ts| - 1], ts[|ts| - 1];
      if f.body.Stop? {
        var ended := Turn(now.frames, Some(f.seqNo));
        assert TurnsOf(fs)[..|ts|] == before + [ended];
        assert (before + [ended])[..|before|] == before;
      } else {
        assert TurnsOf(fs)[..|ts| - 1] == before;
      }
    }
  }

  /** At every moment the incremental bubbles are, turn by turn, one line per voice of the turn, each
      as the frames of its turn and its stop make it. */
  lemma BubblesAreShown(fs: seq<Frame>)
    requires KnownRoles(fs)
    ensures StepAll(FRESH, fs).bubbles == AllShown(TurnsOf(fs))
    ensures forall t | t in TurnsOf(fs) ::
      |Shown(t)| == |Voices(t.frames)| && forall i | 0 <= i < |Shown(t)| :: ShownAs(t, i, Shown(t)[i])
  {
    hide *;
    IncrementalRefinesBatch(fs);
    TurnsAreCut(fs);
    BubblesFrom(fs);
    forall t | t in TurnsOf(fs)
      ensures |Shown(t)| == |Voices(t.frames)| && forall i | 0 <= i < |Shown(t)| :: ShownAs(t, i, Shown(t)[i])
    {
      ShownLength(t);
      forall i | 0 <= i < |Shown(t)| ensures ShownAs(t, i, Shown(t)[i]) {
        TurnShows(t, i);
      }
    }
  }

  lemma ShownLength(t: Turn)
    ensures |Shown(t)| == |Voices(t.frames)|
  {
    LinesAreVoices(t.frames);
    hide Voices, Aggregate;
  }

  lemma BubblesFrom(fs: seq<Frame>)
    requires var c := CutAtStops(fs); At(StepAll(FRESH, fs), c.done, Aggregate(c.turn))
    requires var ts := TurnsOf(fs); var c := CutAtStops(fs);
             ts[|ts| - 1] == Turn(c.turn, None) && AllShown(ts[..|ts| - 1]) == c.done
    ensures StepAll(FRESH, fs).bubbles == AllShown(TurnsOf(fs))
  {
    hide StepAll, Aggregate, CutAtStops, TurnsOf;
  }
}
