/** Which runs without a stop the two chat projections agree on, whatever roles the text deltas
    carry: internal/server/messages.go starts a line at each change of role, while
    internal/server/chat_stream.go keeps one bubble open for the user and one for everyone else. */
module ChatRoles {
  import opened Bytes
  import opened Frames
  import opened ChatModel

  // ----- the condition, on the frames alone ---------------------------------

  /** Who speaks next: a role, or a tool. */
  datatype Voice = Speaker(role: string) | ToolLine

  /** The voices after one more frame; a role that goes on speaking counts once. */
  function Hear(vs: seq<Voice>, f: Frame): seq<Voice> {
    match f.body
    case TextDelta(role, text) =>
      var v := Speaker(if role == "" then "assistant" else role);
      if text == "" || (vs != [] && vs[|vs| - 1] == v) then vs else vs + [v]
    case ToolStart(_, _) => vs + [ToolLine]
    case _ => vs
  }

  function Voices(fs: seq<Frame>): seq<Voice>
    decreases |fs|
  {
    if fs == [] then [] else Hear(Voices(fs[..|fs| - 1]), fs[|fs| - 1])
  }

  /** Voice i is taken for an earlier one: it is not the user's and follows another that is not, or
      it is the user's and only a voice other than the assistant's stands between it and the user's
      last. */
  predicate Misheard(vs: seq<Voice>, i: nat)
    requires 0 < i < |vs|
  {
    && vs[i].Speaker? && vs[i - 1].Speaker?
    && if vs[i].role == "user" then vs[i - 1].role != "assistant" && i >= 2 && vs[i - 2] == Speaker("user")
       else vs[i - 1].role != "user"
  }

  ghost predicate Parted(vs: seq<Voice>) {
    exists i | 0 < i < |vs| :: Misheard(vs, i)
  }

  lemma PartedSnoc(vs: seq<Voice>, v: Voice)
    ensures Parted(vs + [v]) <==> Parted(vs) || (vs != [] && Misheard(vs + [v], |vs|))
  {
    var ws := vs + [v];
    forall i | 0 < i < |vs| ensures Misheard(ws, i) == Misheard(vs, i) {
      assert ws[i] == vs[i] && ws[i - 1] == vs[i - 1];
    }
  }

  // ----- lines and voices ---------------------------------------------------

  function VoiceOf(m: Msg): Voice {
    match m
    case Text(_, role, _) => Speaker(role)
    case Tool(_, _, _) => ToolLine
  }

  predicate Heard(out: seq<Msg>, vs: seq<Voice>) {
    |out| == |vs| && forall i | 0 <= i < |out| :: vs[i] == VoiceOf(out[i])
  }

  lemma {:induction false} LinesAreVoices(fs: seq<Frame>)
    ensures Heard(Aggregate(fs).out, Voices(fs))
    decreases |fs|
  {
    hide BatchStep, Heard;
    if fs == [] {
      NothingHeard();
    } else {
      LinesAreVoices(fs[..|fs| - 1]);
      HeardStep(Aggregate(fs[..|fs| - 1]), Voices(fs[..|fs| - 1]), fs[|fs| - 1]);
      hide Voices;
    }
  }

  lemma NothingHeard()
    ensures Heard([], [])
  {
  }

  lemma HeardStep(b: Batch, vs: seq<Voice>, f: Frame)
    requires BatchOk(b) && Heard(b.out, vs)
    ensures Heard(BatchStep(b, f).out, Hear(vs, f))
  {
    hide Summary;
  }

  // ----- in step, or behind for good ----------------------------------------

  /** The open bubbles of an aggregator whose bubbles are these lines. */
  function OpenOther(out: seq<Msg>): Option<nat> {
    if |out| > 0 && out[|out| - 1].Text? && out[|out| - 1].role != "user" then Some(|out| - 1) else None
  }

  function OpenUser(out: seq<Msg>): Option<nat> {
    var n := |out|;
    if n == 0 || out[n - 1].Tool? then None
    else if out[n - 1].role == "user" then Some(n - 1)
    else if out[n - 1].role != "assistant" && n >= 2 && VoiceOf(out[n - 2]) == Speaker("user") then Some(n - 2)
    else None
  }

  ghost predicate InStep(a: Agg, b: Batch) {
    && a.bubbles == b.out && a.tools == b.pending
    && a.openUser == OpenUser(b.out) && a.openAssistant == OpenOther(b.out)
  }

  /** The incremental side has a bubble open for whoever speaks last on the batch side. */
  ghost predicate Covered(a: Agg, b: Batch) {
    |b.out| > 0 && b.out[|b.out| - 1].Text? ==> OpenOf(a, b.out[|b.out| - 1].role).Some?
  }

  lemma TextInStep(a: Agg, b: Batch, f: Frame, vs: seq<Voice>)
    requires AggOk(a) && BatchOk(b) && InStep(a, b) && f.body.TextDelta? && f.body.text != "" && Heard(b.out, vs)
    ensures var v := Speaker(RoleOf(f.body.role));
            if vs == [] || vs[|vs| - 1] == v || !Misheard(vs + [v], |vs|) then InStep(Step(a, f), BatchStep(b, f))
            else |Step(a, f).bubbles| < |BatchStep(b, f).out|
  {
    var role := RoleOf(f.body.role);
    BatchText(b, f, role, f.body.text);
    if OpenOf(a, role).Some? {
      StepExtends(a, f, role, f.body.text);
    } else {
      StepOpens(a, f, role, f.body.text);
    }
    hide Step, BatchStep, AggOk, BatchOk, Emits;
  }

  lemma ToolInStep(a: Agg, b: Batch, f: Frame)
    requires AggOk(a) && BatchOk(b) && InStep(a, b) && !f.body.TextDelta? && !f.body.Stop?
    ensures InStep(Step(a, f), BatchStep(b, f))
  {
    hide Summary;
  }

  lemma CoveredStep(a: Agg, b: Batch, f: Frame)
    requires AggOk(a) && BatchOk(b) && Covered(a, b) && !f.body.Stop?
    ensures Covered(Step(a, f), BatchStep(b, f))
    ensures |BatchStep(b, f).out| - |Step(a, f).bubbles| >= |b.out| - |a.bubbles|
  {
    hide Summary, Grown, Opened;
    if f.body.TextDelta? && f.body.text != "" {
      BatchTextSpeaks(b, f);
      StepTextOpens(a, f);
      hide Step, BatchStep, AggOk, BatchOk;
    }
  }

  lemma BatchTextSpeaks(b: Batch, f: Frame)
    requires BatchOk(b) && f.body.TextDelta? && f.body.text != ""
    ensures var c := BatchStep(b, f); var role := RoleOf(f.body.role);
            && |c.out| == |b.out| + (if Continues(b.out, role) then 0 else 1)
            && |c.out| > 0 && c.out[|c.out| - 1].Text? && c.out[|c.out| - 1].role == role
  {
  }

  lemma StepTextOpens(a: Agg, f: Frame)
    requires AggOk(a) && f.body.TextDelta? && f.body.text != ""
    ensures var c := Step(a, f); var role := RoleOf(f.body.role);
            |c.bubbles| == |a.bubbles| + (if OpenOf(a, role).Some? then 0 else 1) && OpenOf(c, role).Some?
  {
  }

  /** Without a stop the two projections are equal if and only if no voice is taken for an earlier
      one; once one is, the incremental side has fewer lines for good. */
  lemma {:induction false} SameIffNotParted(fs: seq<Frame>)
    requires forall i | 0 <= i < |fs| :: !fs[i].body.Stop?
    ensures StepAll(FRESH, fs).bubbles == Aggregate(fs).out <==> !Parted(Voices(fs))
    ensures Parted(Voices(fs)) ==> |StepAll(FRESH, fs).bubbles| < |Aggregate(fs).out|
  {
    Together(fs);
  }

  lemma {:induction false} Together(fs: seq<Frame>)
    requires forall i | 0 <= i < |fs| :: !fs[i].body.Stop?
    ensures var a, b := StepAll(FRESH, fs), Aggregate(fs);
            Covered(a, b) && if Parted(Voices(fs)) then |a.bubbles| < |b.out| else InStep(a, b)
    decreases |fs|
  {
    if fs != [] {
      var n := |fs| - 1;
      var a, b, vs, f := StepAll(FRESH, fs[..n]), Aggregate(fs[..n]), Voices(fs[..n]), fs[n];
      Together(fs[..n]);
      LinesAreVoices(fs[..n]);
      CoveredStep(a, b, f);
      PartedSnoc(vs, if f.body.TextDelta? then Speaker(RoleOf(f.body.role)) else ToolLine);
      hide Step, BatchStep, Parted;
      if !Parted(vs) {
        if f.body.TextDelta? {
          if f.body.text != "" {
            TextInStep(a, b, f, vs);
          } else {
            SilentStep(a, b, f);
          }
        } else {
          ToolInStep(a, b, f);
        }
      }
    }
  }

  lemma SilentStep(a: Agg, b: Batch, f: Frame)
    requires AggOk(a) && BatchOk(b) && f.body.TextDelta? && f.body.text == ""
    ensures Step(a, f) == a && BatchStep(b, f) == b
  {
  }
}
