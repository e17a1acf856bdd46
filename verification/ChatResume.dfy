/** Resuming a chat stream (internal/server/chat_stream.go): a snapshot, a silent warm-up over it,
    and a subscription from the snapshot's cursor, glued over the frame bus. */
module ChatResume {
  import opened Bytes
  import opened Frames
  import opened Sequences
  import opened ChatModel
  import M = BusModel

  /** The largest seq among the lines sent from the snapshot. */
  function Highest(msgs: seq<Msg>): (h: nat)
    ensures forall m | m in msgs :: m.seqNo <= h
    ensures h == 0 || exists m | m in msgs :: m.seqNo == h
    decreases |msgs|
  {
    if msgs == [] then 0
    else
      var h := Highest(msgs[..|msgs| - 1]);
      if msgs[|msgs| - 1].seqNo > h then msgs[|msgs| - 1].seqNo else h
  }

  /** Where the handler subscribes from. */
  function SubFrom(hist: seq<Frame>, since: nat): nat {
    var last := Highest(FilterSince(Aggregate(hist).out, since));
    if last == 0 then since else last
  }

  lemma {:induction false} InFilter(msgs: seq<Msg>, since: nat, m: Msg)
    ensures m in FilterSince(msgs, since) <==> m in msgs && m.seqNo > since
    decreases |msgs|
  {
    if msgs != [] {
      var n := |msgs| - 1;
      InFilter(msgs[..n], since, m);
      assert msgs == msgs[..n] + [msgs[n]];
    }
  }

  lemma LinesAreBeforeSubFrom(hist: seq<Frame>, since: nat, m: Msg)
    requires m in Aggregate(hist).out
    ensures m.seqNo <= SubFrom(hist, since)
  {
    var sent := FilterSince(Aggregate(hist).out, since);
    InFilter(Aggregate(hist).out, since, m);
    if Highest(sent) != 0 {
      var top :| top in sent && top.seqNo == Highest(sent);
      InFilter(Aggregate(hist).out, since, top);
    }
  }

  /** Every snapshot frame that opened, extended or resolved a line is at or before the cursor. */
  lemma TouchesAreBeforeSubFrom(hist: seq<Frame>, since: nat, k: nat)
    requires Increasing(hist) && k < |hist| && Touched(Aggregate(hist[..k]), hist[k]) != None
    ensures hist[k].seqNo <= SubFrom(hist, since)
  {
    hide Touched, SubFrom, BatchStep;
    var i := Touched(Aggregate(hist[..k]), hist[k]).value;
    TouchedLineExists(hist, k, i);
    SeqIsLastTouch(hist, i);
    var m := Aggregate(hist).out[i];
    LinesAreBeforeSubFrom(hist, since, m);
    hide Aggregate;
    var j :| 0 <= j < |hist| && LastTouch(hist, j, i) && m.seqNo == hist[j].seqNo;
    assert Touches(hist, k, i);
  }

  lemma {:induction false} TouchedLineExists(fs: seq<Frame>, k: nat, i: nat)
    requires k < |fs| && Touches(fs, k, i)
    ensures i < |Aggregate(fs).out|
    decreases |fs|
  {
    hide Aggregate, BatchStep, Touched;
    var n := |fs| - 1;
    AggregateLast(fs);
    if k < n {
      assert fs[..n][..k] == fs[..k];
      TouchedLineExists(fs[..n], k, i);
      OutGrows(Aggregate(fs[..n]), fs[n]);
    } else {
      TouchedBelow(Aggregate(fs[..n]), fs[n]);
    }
  }

  lemma OutGrows(b: Batch, f: Frame)
    requires BatchOk(b)
    ensures |b.out| <= |BatchStep(b, f).out|
  {
  }

  lemma TouchedBelow(b: Batch, f: Frame)
    requires BatchOk(b) && Touched(b, f).Some?
    ensures Touched(b, f).value < |BatchStep(b, f).out|
  {
  }

  // ----- frames that change nothing any more --------------------------------

  /** The incremental side forgets tools at a stop, so it never waits for more than the batch side. */
  lemma {:induction false} ToolsArePending(fs: seq<Frame>)
    ensures StepAll(FRESH, fs).tools.Keys <= Aggregate(fs).pending.Keys
    decreases |fs|
  {
    if fs != [] {
      ToolsArePending(fs[..|fs| - 1]);
      var a, b, f := StepAll(FRESH, fs[..|fs| - 1]), Aggregate(fs[..|fs| - 1]), fs[|fs| - 1];
      PendingStep(a, b, f);
    }
  }

  lemma PendingStep(a: Agg, b: Batch, f: Frame)
    requires AggOk(a) && BatchOk(b) && a.tools.Keys <= b.pending.Keys
    ensures Step(a, f).tools.Keys <= BatchStep(b, f).pending.Keys
  {
    ToolsAfter(a, f);
    PendingAfter(b, f);
    hide Step, BatchStep, AggOk, BatchOk;
  }

  lemma ToolsAfter(a: Agg, f: Frame)
    requires AggOk(a)
    ensures Step(a, f).tools.Keys
         == match f.body
            case ToolStart(_, id) => a.tools.Keys + (if id != "" then {id} else {})
            case ToolResult(id, _, _) => a.tools.Keys - {id}
            case Stop(_, _) => {}
            case _ => a.tools.Keys
  {
  }

  lemma PendingAfter(b: Batch, f: Frame)
    requires BatchOk(b)
    ensures BatchStep(b, f).pending.Keys
         == match f.body
            case ToolStart(_, id) => b.pending.Keys + (if id != "" then {id} else {})
            case ToolResult(id, _, _) => b.pending.Keys - {id}
            case _ => b.pending.Keys
  {
  }

  /** Stepping this frame changes no state. */
  ghost predicate Quiet(a: Agg, f: Frame)
    requires AggOk(a)
  {
    match f.body
    case TextDelta(_, text) => text == ""
    case ToolStart(_, _) => false
    case ToolResult(id, _, _) => id !in a.tools
    case Stop(_, _) => a.openUser == None && a.openAssistant == None && a.tools == map[]
    case Other(_) => true
  }

  lemma QuietStep(a: Agg, f: Frame, evs: seq<Event>)
    requires AggOk(a) && Quiet(a, f)
    ensures Step(a, f) == a
    ensures Emits(a, f, evs) ==> evs == if f.body.Stop? then [Stopped(f.seqNo, f.body.reason, f.body.stopMs)] else []
  {
    if f.body.Stop? {
      assert Orphans(a.bubbles, {}, f.seqNo) == a.bubbles;
      assert a.tools.Values == {};
      if Emits(a, f, evs) {
        var orphans := evs[..|evs| - 1];
        assert orphans == [];
        assert evs == orphans + [evs[|evs| - 1]];
      }
    }
  }

  /** No frame of fs from position p on touches a line. */
  ghost predicate Untouched(fs: seq<Frame>, p: nat)
    requires p <= |fs|
  {
    forall k | p <= k < |fs| :: Touched(Aggregate(fs[..k]), fs[k]) == None
  }

  lemma UntouchedPrefix(fs: seq<Frame>, p: nat)
    requires p < |fs| && Untouched(fs, p)
    ensures Untouched(fs[..|fs| - 1], p)
  {
    hide Touched;
    var n := |fs| - 1;
    forall k | p <= k < n ensures Touched(Aggregate(fs[..n][..k]), fs[..n][k]) == None {
      assert fs[..n][..k] == fs[..k];
    }
  }

  ghost predicate AllQuiet(a: Agg, fs: seq<Frame>, p: nat)
    requires AggOk(a) && p <= |fs|
  {
    forall k | p <= k < |fs| :: Quiet(a, fs[k])
  }

  /** From the last change on, every frame is quiet for the state reached at the end. */
  lemma {:induction false} TailIsQuiet(fs: seq<Frame>, p: nat)
    requires p <= |fs| && Untouched(fs, p)
    ensures AllQuiet(StepAll(FRESH, fs), fs, p)
    decreases |fs|
  {
    FreshIsOk();
    hide *;
    if p == |fs| {
      NoneIsQuiet(StepAll(FRESH, fs), fs);
    } else {
      var n := |fs| - 1;
      StepAllLast(FRESH, fs);
      UntouchedPrefix(fs, p);
      TailIsQuiet(fs[..n], p);
      ToolsArePending(fs[..n]);
      UntouchedAt(fs, p, n);
      OneMoreQuiet(StepAll(FRESH, fs[..n]), Aggregate(fs[..n]), fs, p);
    }
  }

  lemma FreshIsOk()
    ensures AggOk(FRESH)
  {
  }

  lemma NoneIsQuiet(a: Agg, fs: seq<Frame>)
    requires AggOk(a)
    ensures AllQuiet(a, fs, |fs|)
  {
  }

  lemma UntouchedAt(fs: seq<Frame>, p: nat, k: nat)
    requires p <= k < |fs| && Untouched(fs, p)
    ensures Touched(Aggregate(fs[..k]), fs[k]) == None
  {
    hide Touched;
  }

  lemma OneMoreQuiet(a: Agg, b: Batch, fs: seq<Frame>, p: nat)
    requires p < |fs| && AggOk(a) && BatchOk(b) && a.tools.Keys <= b.pending.Keys
    requires Touched(b, fs[|fs| - 1]) == None && AllQuiet(a, fs[..|fs| - 1], p)
    ensures AllQuiet(Step(a, fs[|fs| - 1]), fs, p)
  {
    hide Touched, Quiet, Step, AggOk, BatchOk;
    var n := |fs| - 1;
    UntouchedStep(a, b, fs[n]);
    forall k | p <= k < |fs| ensures Quiet(Step(a, fs[n]), fs[k]) {
      if k < n {
        assert fs[..n][k] == fs[k];
        StaysQuiet(a, b, fs[n], fs[k]);
      }
    }
  }

  lemma UntouchedStep(a: Agg, b: Batch, f: Frame)
    requires AggOk(a) && BatchOk(b) && a.tools.Keys <= b.pending.Keys && Touched(b, f) == None
    ensures Quiet(Step(a, f), f)
  {
  }

  lemma StaysQuiet(a: Agg, b: Batch, f: Frame, g: Frame)
    requires AggOk(a) && BatchOk(b) && a.tools.Keys <= b.pending.Keys && Touched(b, f) == None
    requires Quiet(a, g)
    ensures Quiet(Step(a, f), g)
  {
  }

  /** Every snapshot frame after the cursor is quiet for the warmed-up aggregator. */
  lemma RedeliveredAreQuiet(hist: seq<Frame>, since: nat, f: Frame)
    requires Increasing(hist) && f in hist && f.seqNo > SubFrom(hist, since)
    ensures Quiet(StepAll(FRESH, hist), f)
  {
    var cursor := SubFrom(hist, since);
    AfterIsSuffix(hist, cursor);
    var p := |hist| - |After(hist, cursor)|;
    forall k | p <= k < |hist| ensures Touched(Aggregate(hist[..k]), hist[k]) == None {
      if Touched(Aggregate(hist[..k]), hist[k]) != None {
        TouchesAreBeforeSubFrom(hist, since, k);
      }
    }
    TailIsQuiet(hist, p);
    var k :| 0 <= k < |hist| && hist[k] == f;
  }

  lemma {:induction false} RedeliveryKeepsState(hist: seq<Frame>, since: nat, again: seq<Frame>)
    requires Increasing(hist)
    requires forall f | f in again :: f in hist && f.seqNo > SubFrom(hist, since)
    ensures StepAll(StepAll(FRESH, hist), again) == StepAll(FRESH, hist)
    decreases |again|
  {
    hide Quiet, SubFrom, Step;
    if again != [] {
      var n := |again| - 1;
      RedeliveryKeepsState(hist, since, again[..n]);
      assert again[n] in again;
      RedeliveredAreQuiet(hist, since, again[n]);
      QuietStep(StepAll(FRESH, hist), again[n], []);
    }
  }

  /** Stepping frames the snapshot already held leaves the aggregator as it was, whatever part of
      them is delivered again, and emits nothing but their stop events. */
  lemma RedeliveryIsHarmless(hist: seq<Frame>, since: nat, again: seq<Frame>, log: seq<seq<Event>>)
    requires Increasing(hist)
    requires forall f | f in again :: f in hist && f.seqNo > SubFrom(hist, since)
    requires EmitsAll(StepAll(FRESH, hist), again, log)
    ensures StepAll(StepAll(FRESH, hist), again) == StepAll(FRESH, hist)
    ensures forall i | 0 <= i < |again| :: log[i] ==
              if again[i].body.Stop? then [Stopped(again[i].seqNo, again[i].body.reason, again[i].body.stopMs)] else []
  {
    assert AggOk(FRESH);
    hide Quiet, Emits, SubFrom, Step, StepAll, AggOk;
    var w := StepAll(FRESH, hist);
    RedeliveryKeepsState(hist, since, again);
    forall i | 0 <= i < |again|
      ensures log[i] ==
        if again[i].body.Stop? then [Stopped(again[i].seqNo, again[i].body.reason, again[i].body.stopMs)] else []
    {
      RedeliveryKeepsState(hist, since, again[..i]);
      assert EmitsAt(w, again, log, i);
      RedeliveredAreQuiet(hist, since, again[i]);
      QuietStep(w, again[i], log[i]);
    }
  }

  // ----- over the bus -------------------------------------------------------

  lemma {:induction false} HistoryGrows(s: M.State, actions: seq<M.Action>)
    ensures s.hist <= M.Run(s, actions).hist && s.lastSeq <= M.Run(s, actions).lastSeq
    ensures forall k | |s.hist| <= k < |M.Run(s, actions).hist| :: M.Run(s, actions).hist[k].seqNo > s.lastSeq
    decreases |actions|
  {
    if actions != [] {
      HistoryGrows(s, actions[..|actions| - 1]);
    }
  }

  lemma {:induction false} InAfter(fs: seq<Frame>, from: nat, f: Frame)
    requires f in After(fs, from)
    ensures f in fs && f.seqNo > from
  {
    if f in After(fs[1..], from) {
      InAfter(fs[1..], from, f);
    }
  }

  /** The frames published since the snapshot all lie beyond the cursor, still stand in the ring,
      and either fit the channel behind what is delivered again or are none. */
  ghost predicate NewFramesSafe(news: seq<Frame>, bufCap: nat, u: M.Sub) {
    && (forall f | f in news :: f.seqNo > u.from)
    && |news| <= bufCap
    && (|u.replay| <= u.cap || news == [])
  }

  ghost predicate EndsWith(fs: seq<Frame>, tail: seq<Frame>) {
    |tail| <= |fs| && fs[|fs| - |tail|..] == tail
  }

  /** Of a bus on which any steps followed a snapshot, a new subscription delivers every new frame,
      last and without a gap, if and only if they are safe. */
  lemma NewFramesArriveIff(s: M.State, actions: seq<M.Action>, from: nat, cap: int)
    requires M.Inv(s)
    ensures var t := M.Run(s, actions); var u := M.NewSub(t, from, cap);
            && |s.hist| <= |t.hist|
            && (EndsWith(u.queue, t.hist[|s.hist|..]) <==> NewFramesSafe(t.hist[|s.hist|..], t.bufCap, u))
  {
    var t := M.Run(s, actions);
    var u := M.NewSub(t, from, cap);
    HistoryGrows(s, actions);
    M.RunKeeps(s, actions);
    var news := t.hist[|s.hist|..];
    RetainedIsIncreasing(t);
    AfterIsSuffix(M.Retained(t), from);
    hide M.Run, M.Inv, After, Last, Increasing;
    if |news| <= t.bufCap {
      RetainedSplits(s, t);
      var r := M.Retained(t);
      assert r == r[..|r| - |news|] + news;
      EndsWithTail(r[..|r| - |news|], news);
      QueueEnds(r[..|r| - |news|], news, u);
    }
  }

  lemma RetainedIsIncreasing(t: M.State)
    requires M.Inv(t)
    ensures Increasing(M.Retained(t)) && |M.Retained(t)| <= t.bufCap
  {
  }

  lemma QueueEnds(kept: seq<Frame>, news: seq<Frame>, u: M.Sub)
    requires Increasing(kept + news) && u.replay == After(kept + news, u.from) && u.queue == First(u.replay, u.cap)
    ensures EndsWith(u.queue, news) <==> (forall f | f in news :: f.seqNo > u.from) && (|u.replay| <= u.cap || news == [])
  {
    EndsWithTail(kept, news);
    if news != [] {
      if EndsWith(u.queue, news) {
        QueueIsWhole(kept + news, news, u);
      }
      if (forall f | f in news :: f.seqNo > u.from) && |u.replay| <= u.cap {
        AfterAppend(kept, news, u.from);
        AfterAll(news, u.from);
        hide *;
        EndsWithTail(After(kept, u.from), news);
        FirstCuts(u.replay, u.cap);
      }
    } else {
      EndsWithTail(u.queue, []);
      assert u.queue + [] == u.queue;
    }
  }

  lemma EndsWithTail(x: seq<Frame>, y: seq<Frame>)
    ensures EndsWith(x + y, y)
  {
  }

  lemma QueueIsWhole(fs: seq<Frame>, news: seq<Frame>, u: M.Sub)
    requires Increasing(fs) && news != [] && EndsWith(fs, news)
    requires u.replay == After(fs, u.from) && u.queue == First(u.replay, u.cap) && EndsWith(u.queue, news)
    ensures |u.replay| <= u.cap && forall f | f in news :: f.seqNo > u.from
  {
    forall f | f in news ensures f.seqNo > u.from {
      InLonger(u.replay, u.cap, news, f);
      InAfter(fs, u.from, f);
    }
    hide *;
    if |u.replay| > u.cap {
      CutShort(fs, u.replay, u.from, u.cap, news);
      assert false;
    }
  }

  /** A replay that does not fit is cut before the last frame. */
  lemma CutShort(fs: seq<Frame>, replay: seq<Frame>, from: nat, cap: nat, news: seq<Frame>)
    requires Increasing(fs) && news != [] && EndsWith(fs, news) && replay == After(fs, from) && cap < |replay|
    ensures !EndsWith(First(replay, cap), news)
  {
    AfterIsSuffix(fs, from);
    hide After;
    LastOf(fs, news);
    if EndsWith(First(replay, cap), news) {
      LastOf(First(replay, cap), news);
      FirstCuts(replay, cap);
      LastOnlyOnce(fs, replay, cap);
    }
  }

  lemma LastOf(fs: seq<Frame>, tail: seq<Frame>)
    requires EndsWith(fs, tail) && tail != []
    ensures fs != [] && fs[|fs| - 1] == tail[|tail| - 1]
  {
    assert fs[|fs| - |tail|..][|tail| - 1] == fs[|fs| - 1];
  }

  lemma FirstCuts<T>(s: seq<T>, k: nat)
    ensures |s| > k ==> First(s, k) == s[..k]
    ensures |s| <= k ==> First(s, k) == s
  {
  }

  lemma InLonger(fs: seq<Frame>, k: nat, tail: seq<Frame>, f: Frame)
    requires EndsWith(First(fs, k), tail) && f in tail
    ensures f in fs
  {
    var q := First(fs, k);
    var i :| 0 <= i < |tail| && tail[i] == f;
    assert q[|q| - |tail|..][i] == q[|q| - |tail| + i] == fs[|q| - |tail| + i];
  }

  /** The last frame of an increasing list does not stand among the first ones of a longer suffix. */
  lemma LastOnlyOnce(fs: seq<Frame>, tail: seq<Frame>, k: nat)
    requires Increasing(fs) && |tail| <= |fs| && tail == fs[|fs| - |tail|..] && 0 < k < |tail|
    ensures tail[..k][k - 1] != fs[|fs| - 1]
  {
    assert tail[k - 1] == fs[|fs| - |tail| + k - 1];
  }

  /** Exactly once: snapshot the bus, let any other steps happen, then subscribe from the cursor.
      Whenever the new frames are safe, stepping what the subscription delivers takes the warmed-up
      aggregator to where stepping each frame of the snapshot and each new frame once would. */
  lemma ResumeIsExactlyOnce(s: M.State, actions: seq<M.Action>, since: nat, t: M.State, u: M.Sub)
    requires M.Inv(s)
    requires t == M.Run(s, actions) && u == M.NewSub(t, SubFrom(M.Retained(s), since), 256)
    requires |s.hist| <= |t.hist| && NewFramesSafe(t.hist[|s.hist|..], t.bufCap, u)
    ensures StepAll(StepAll(FRESH, M.Retained(s)), u.queue) == StepAll(FRESH, M.Retained(s) + t.hist[|s.hist|..])
  {
    FreshIsOk();
    hide *;
    var hist, news := M.Retained(s), t.hist[|s.hist|..];
    var kept := WhatIsDelivered(s, actions, SubFrom(hist, since), t, u);
    if news == [] {
      RedeliveryKeepsState(hist, since, u.queue);
      assert hist + news == hist;
    } else {
      ResumeOver(hist, since, kept, news);
    }
  }

  lemma NewSubIs(t: M.State, from: nat, u: M.Sub)
    requires u == M.NewSub(t, from, 256)
    ensures u.from == from && u.cap == 256 && u.replay == After(M.Retained(t), from) && u.queue == First(u.replay, u.cap)
  {
  }

  /** Retained frames of the snapshot, and behind them the new ones. */
  lemma WhatIsDelivered(s: M.State, actions: seq<M.Action>, from: nat, t: M.State, u: M.Sub) returns (kept: seq<Frame>)
    requires M.Inv(s) && t == M.Run(s, actions) && u == M.NewSub(t, from, 256)
    requires |s.hist| <= |t.hist| && NewFramesSafe(t.hist[|s.hist|..], t.bufCap, u)
    ensures Increasing(M.Retained(s)) && forall f | f in kept :: f in M.Retained(s)
    ensures forall f | f in t.hist[|s.hist|..] :: f.seqNo > from
    ensures if t.hist[|s.hist|..] == [] then forall f | f in u.queue :: f in M.Retained(s) && f.seqNo > from
            else u.queue == After(kept + t.hist[|s.hist|..], from)
  {
    hide *;
    var news := t.hist[|s.hist|..];
    GrownFrom(s, actions);
    SafeMeans(news, t.bufCap, u);
    NewSubIs(t, from, u);
    FirstCuts(u.replay, u.cap);
    kept := KeptAndNew(s, t);
    if news == [] {
      assert kept + news == kept;
      QueueIsAgain(kept, u, M.Retained(s), from);
    }
  }

  lemma GrownFrom(s: M.State, actions: seq<M.Action>)
    requires M.Inv(s)
    ensures s.hist <= M.Run(s, actions).hist && s.bufCap == M.Run(s, actions).bufCap && Increasing(M.Retained(s))
  {
    HistoryGrows(s, actions);
    M.RunKeeps(s, actions);
    hide M.Run;
  }

  lemma SafeMeans(news: seq<Frame>, bufCap: nat, u: M.Sub)
    requires NewFramesSafe(news, bufCap, u)
    ensures (forall f | f in news :: f.seqNo > u.from) && |news| <= bufCap && (|u.replay| <= u.cap || news == [])
  {
  }

  lemma KeptAndNew(s: M.State, t: M.State) returns (kept: seq<Frame>)
    requires s.bufCap == t.bufCap && s.hist <= t.hist && |t.hist| - |s.hist| <= t.bufCap
    ensures M.Retained(t) == kept + t.hist[|s.hist|..] && forall f | f in kept :: f in M.Retained(s)
  {
    RetainedSplits(s, t);
    var r := M.Retained(t);
    kept := r[..|r| - (|t.hist| - |s.hist|)];
    hide *;
  }

  lemma QueueIsAgain(kept: seq<Frame>, u: M.Sub, hist: seq<Frame>, cursor: nat)
    requires u.replay == After(kept, cursor) && u.queue == First(u.replay, u.cap)
    requires forall f | f in kept :: f in hist
    ensures forall f | f in u.queue :: f in hist && f.seqNo > cursor
  {
    forall f | f in u.queue ensures f in hist && f.seqNo > cursor {
      assert f in u.replay;
      InAfter(kept, cursor, f);
    }
  }

  /** A client whose cursor is not ahead of the bus subscribes from within the snapshot, so for it
      only the ring and the channel can lose a frame. */
  lemma CursorWithinSnapshot(s: M.State, actions: seq<M.Action>, since: nat)
    requires M.Inv(s) && since <= s.lastSeq
    ensures var t := M.Run(s, actions); var cursor := SubFrom(M.Retained(s), since);
            |s.hist| <= |t.hist| && forall f | f in t.hist[|s.hist|..] :: f.seqNo > cursor
  {
    CursorIsKnown(s, since);
    HistoryGrows(s, actions);
  }

  /** Stepping what is after the cursor of some snapshot frames and then all the new ones. */
  lemma ResumeOver(hist: seq<Frame>, since: nat, kept: seq<Frame>, news: seq<Frame>)
    requires Increasing(hist) && forall f | f in kept :: f in hist
    requires forall f | f in news :: f.seqNo > SubFrom(hist, since)
    ensures StepAll(StepAll(FRESH, hist), After(kept + news, SubFrom(hist, since))) == StepAll(FRESH, hist + news)
  {
    hide Step, SubFrom;
    var cursor := SubFrom(hist, since);
    AfterAppend(kept, news, cursor);
    AfterAll(news, cursor);
    forall f | f in After(kept, cursor) ensures f in hist && f.seqNo > cursor {
      InAfter(kept, cursor, f);
    }
    RedeliveryKeepsState(hist, since, After(kept, cursor));
    StepAllAppend(StepAll(FRESH, hist), After(kept, cursor), news);
    StepAllAppend(FRESH, hist, news);
  }

  lemma CursorIsKnown(s: M.State, since: nat)
    requires M.Inv(s) && since <= s.lastSeq
    ensures Increasing(M.Retained(s)) && SubFrom(M.Retained(s), since) <= s.lastSeq
  {
    var hist := M.Retained(s);
    var out := Aggregate(hist).out;
    var h := Highest(FilterSince(out, since));
    if h != 0 {
      var m :| m in FilterSince(out, since) && m.seqNo == h;
      InFilter(out, since, m);
      var i :| 0 <= i < |out| && out[i] == m;
      SeqIsLastTouch(hist, i);
    }
  }

  lemma RetainedSplits(s: M.State, t: M.State)
    requires s.bufCap == t.bufCap && s.hist <= t.hist && |t.hist| - |s.hist| <= t.bufCap
    ensures var n := |t.hist| - |s.hist|; var r := M.Retained(t);
            n <= |r| && r[|r| - n..] == t.hist[|s.hist|..] && forall f | f in r[..|r| - n] :: f in M.Retained(s)
  {
    var n := |t.hist| - |s.hist|;
    var r := M.Retained(t);
    var q := M.Retained(s);
    forall i | 0 <= i < |r| - n ensures r[i] in q {
      var k := |t.hist| - |r| + i;
      assert r[i] == t.hist[k] == s.hist[k];
      assert q[k - (|s.hist| - |q|)] == s.hist[k];
    }
  }
}
