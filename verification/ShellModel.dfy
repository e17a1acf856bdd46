/** A shell's output, scrollback and subscribers (internal/shell/shell.go) as atomic steps over
    everything the terminal ever printed. */
module ShellModel {
  import opened Bytes
  import opened Sequences

  /** A subscription; the last two fields are history: the output offset its scrollback starts at
      and the offset up to which it has been served. */
  datatype Viewer = Viewer(cap: nat, queue: seq<Bytes>, got: seq<Bytes>, open: bool,
                           scrollback: Bytes, start: nat, upTo: nat)

  datatype Shell = Shell(limit: nat, output: Bytes, viewers: seq<Viewer>)

  datatype Event =
    | Output(chunk: Bytes)
    | Join(cap: int)
    | Take(viewer: nat)
    | Leave(viewer: nat)
    | Exit

  function Scrollback(s: Shell): Bytes {
    Last(s.output, s.limit)
  }

  function Hand(v: Viewer, chunk: Bytes): Viewer {
    if !v.open then v
    else if |v.queue| < v.cap then v.(queue := v.queue + [chunk], upTo := v.upTo + |chunk|)
    else v.(open := false)
  }

  function HandAll(vs: seq<Viewer>, chunk: Bytes): (r: seq<Viewer>)
    ensures |r| == |vs|
  {
    seq(|vs|, i requires 0 <= i < |vs| => Hand(vs[i], chunk))
  }

  function Shut(vs: seq<Viewer>): (r: seq<Viewer>)
    ensures |r| == |vs|
  {
    seq(|vs|, i requires 0 <= i < |vs| => vs[i].(open := false))
  }

  function NewViewer(s: Shell, cap: int): Viewer {
    Viewer(if cap <= 0 then 64 else cap, [], [], true, Scrollback(s), |s.output| - |Scrollback(s)|, |s.output|)
  }

  function Happen(s: Shell, e: Event): Shell {
    match e
    case Output(chunk) => s.(output := s.output + chunk, viewers := HandAll(s.viewers, chunk))
    case Join(cap) => s.(viewers := s.viewers + [NewViewer(s, cap)])
    case Take(i) =>
      if i < |s.viewers| && s.viewers[i].queue != [] then
        var v := s.viewers[i];
        s.(viewers := s.viewers[i := v.(queue := v.queue[1..], got := v.got + [v.queue[0]])])
      else s
    case Leave(i) => if i < |s.viewers| then s.(viewers := s.viewers[i := s.viewers[i].(open := false)]) else s
    case Exit => s.(viewers := Shut(s.viewers))
  }

  function Live(s: Shell, events: seq<Event>): Shell
    decreases |events|
  {
    if events == [] then s else Happen(Live(s, events[..|events| - 1]), events[|events| - 1])
  }

  function Joined(chunks: seq<Bytes>): Bytes
    decreases |chunks|
  {
    if chunks == [] then [] else Joined(chunks[..|chunks| - 1]) + chunks[|chunks| - 1]
  }

  // ----- no gap, no repeat --------------------------------------------------

  /** The scrollback and the chunks handed over, received or queued, are one stretch of the output. */
  ghost predicate ViewerOk(s: Shell, v: Viewer) {
    && v.cap > 0 && |v.queue| <= v.cap
    && v.start <= v.upTo <= |s.output|
    && (v.open ==> v.upTo == |s.output|)
    && |v.scrollback| <= s.limit
    && v.scrollback + Joined(v.got + v.queue) == s.output[v.start..v.upTo]
  }

  ghost predicate AllOk(s: Shell) {
    forall i | 0 <= i < |s.viewers| :: ViewerOk(s, s.viewers[i])
  }

  lemma HandKeeps(s: Shell, t: Shell, v: Viewer, chunk: Bytes)
    requires ViewerOk(s, v) && t.output == s.output + chunk && t.limit == s.limit
    ensures ViewerOk(t, Hand(v, chunk))
  {
    var w := Hand(v, chunk);
    assert t.output[v.start..v.upTo] == s.output[v.start..v.upTo];
    if v.open && |v.queue| < v.cap {
      var before, after := v.got + v.queue, w.got + w.queue;
      assert after == before + [chunk] && after[..|before|] == before;
      assert t.output[v.start..w.upTo] == s.output[v.start..v.upTo] + chunk;
      assert v.scrollback + (Joined(before) + chunk) == v.scrollback + Joined(before) + chunk;
    }
  }

  lemma TakeKeeps(s: Shell, v: Viewer)
    requires ViewerOk(s, v) && v.queue != []
    ensures ViewerOk(s, v.(queue := v.queue[1..], got := v.got + [v.queue[0]]))
  {
    assert v.got + [v.queue[0]] + v.queue[1..] == v.got + v.queue;
  }

  lemma NewViewerOk(s: Shell, cap: int)
    ensures ViewerOk(s, NewViewer(s, cap))
  {
    var v := NewViewer(s, cap);
    assert v.scrollback + [] == s.output[v.start..];
  }

  lemma ShutKeeps(s: Shell, t: Shell, v: Viewer, w: Viewer)
    requires ViewerOk(s, v) && t.output == s.output && t.limit == s.limit
    requires w == v || w == v.(open := false)
    ensures ViewerOk(t, w)
  {
  }

  lemma EventKeeps(s: Shell, e: Event)
    requires AllOk(s)
    ensures AllOk(Happen(s, e))
  {
    var t := Happen(s, e);
    hide ViewerOk;
    forall i | 0 <= i < |t.viewers| ensures ViewerOk(t, t.viewers[i]) {
      match e
      case Output(chunk) => HandKeeps(s, t, s.viewers[i], chunk);
      case Join(cap) =>
        if i < |s.viewers| {
          ShutKeeps(s, t, s.viewers[i], t.viewers[i]);
        } else {
          NewViewerOk(s, cap);
          ShutKeeps(s, t, NewViewer(s, cap), t.viewers[i]);
        }
      case Take(j) =>
        if i == j && s.viewers[i].queue != [] {
          TakeKeeps(s, s.viewers[i]);
          ShutKeeps(s, t, t.viewers[i], t.viewers[i]);
        } else {
          ShutKeeps(s, t, s.viewers[i], t.viewers[i]);
        }
      case Leave(_) => ShutKeeps(s, t, s.viewers[i], t.viewers[i]);
      case Exit => ShutKeeps(s, t, s.viewers[i], t.viewers[i]);
    }
  }

  lemma {:induction false} LiveKeeps(s: Shell, events: seq<Event>)
    requires AllOk(s)
    ensures AllOk(Live(s, events))
    decreases |events|
  {
    if events != [] {
      LiveKeeps(s, events[..|events| - 1]);
      EventKeeps(Live(s, events[..|events| - 1]), events[|events| - 1]);
    }
  }

  /** Over all runs: a viewer that has not been dropped has seen, in its scrollback and then its
      chunks, exactly a suffix of everything printed; a dropped one a stretch that ends where it was
      dropped. */
  lemma ScrollbackPlusLiveIsGapFree(limit: nat, events: seq<Event>, i: nat)
    requires i < |Live(Shell(limit, [], []), events).viewers|
    ensures var s := Live(Shell(limit, [], []), events); var v := s.viewers[i];
            && v.start <= v.upTo <= |s.output|
            && v.scrollback + Joined(v.got + v.queue) == s.output[v.start..v.upTo]
            && (v.open ==> v.scrollback + Joined(v.got + v.queue) == s.output[v.start..])
  {
    LiveKeeps(Shell(limit, [], []), events);
    var s := Live(Shell(limit, [], []), events);
    assert ViewerOk(s, s.viewers[i]);
  }

  /** Trimming after each chunk keeps exactly the last bytes of all the output. */
  lemma TrimmedIsLast(output: Bytes, chunk: Bytes, limit: nat)
    ensures Last(Last(output, limit) + chunk, limit) == Last(output + chunk, limit)
  {
  }

  // ----- what goes in -------------------------------------------------------

  function Printed(events: seq<Event>): Bytes
    decreases |events|
  {
    if events == [] then []
    else
      var e := events[|events| - 1];
      Printed(events[..|events| - 1]) + (if e.Output? then e.chunk else [])
  }

  /** A chunk that finds the channel full, leaving and the shell's exit end a viewer. */
  predicate Ends(s: Shell, e: Event, i: nat)
    requires i < |s.viewers|
  {
    e == Exit || e == Leave(i) || (e.Output? && |s.viewers[i].queue| >= s.viewers[i].cap)
  }

  ghost predicate EndsAt(s: Shell, events: seq<Event>, k: nat, i: nat)
    requires k < |events|
  {
    i < |Live(s, events[..k]).viewers| && Ends(Live(s, events[..k]), events[k], i)
  }

  lemma OpenStep(s: Shell, e: Event, i: nat)
    requires i < |s.viewers|
    ensures i < |Happen(s, e).viewers| && (Happen(s, e).viewers[i].open <==> s.viewers[i].open && !Ends(s, e, i))
    ensures var v, w := s.viewers[i], Happen(s, e).viewers[i];
            w.cap == v.cap && w.scrollback == v.scrollback && w.start == v.start
  {
    hide Last;
  }

  /** Over all runs a viewer stays if and only if nothing ends it, and keeps what it began with. */
  lemma {:induction false} StaysOpenIff(s: Shell, events: seq<Event>, i: nat)
    requires i < |s.viewers|
    ensures i < |Live(s, events).viewers|
    ensures Live(s, events).viewers[i].open <==> s.viewers[i].open && forall k | 0 <= k < |events| :: !EndsAt(s, events, k, i)
    ensures var v, w := s.viewers[i], Live(s, events).viewers[i];
            w.cap == v.cap && w.scrollback == v.scrollback && w.start == v.start
    decreases |events|
  {
    hide Ends, Happen;
    if events != [] {
      var n := |events| - 1;
      StaysOpenIff(s, events[..n], i);
      OpenStep(Live(s, events[..n]), events[n], i);
      assert forall k | 0 <= k < n :: events[..n][..k] == events[..k];
      assert forall k | 0 <= k < n :: EndsAt(s, events[..n], k, i) == EndsAt(s, events, k, i);
      assert EndsAt(s, events, n, i) == Ends(Live(s, events[..n]), events[n], i);
    }
  }

  /** The output is what was printed, in order. */
  lemma {:induction false} OutputIsPrinted(limit: nat, events: seq<Event>)
    ensures Live(Shell(limit, [], []), events).output == Printed(events)
    ensures Live(Shell(limit, [], []), events).limit == limit
    decreases |events|
  {
    if events != [] {
      OutputIsPrinted(limit, events[..|events| - 1]);
      assert Printed(events[..|events| - 1]) + [] == Printed(events[..|events| - 1]);
    }
  }

  /** A viewer that joins gets the last bytes printed, as many as the limit allows, and keeps them as
      its scrollback whatever happens later; its channel holds 64 chunks when it asks for no size. */
  lemma ScrollbackIsLatest(limit: nat, before: seq<Event>, cap: int, later: seq<Event>)
    ensures var s := Live(Shell(limit, [], []), before);
            var t := Live(Happen(s, Join(cap)), later);
            var i := |s.viewers|;
            var out := Printed(before);
            var n := if |out| < limit then |out| else limit;
            && i < |t.viewers| && t.viewers[i].scrollback == out[|out| - n..] && t.viewers[i].start == |out| - n
            && t.viewers[i].cap == (if cap <= 0 then 64 else cap)
  {
    var s := Live(Shell(limit, [], []), before);
    OutputIsPrinted(limit, before);
    StaysOpenIff(Happen(s, Join(cap)), later, |s.viewers|);
    hide Live, Printed;
    assert s.output[0..] == s.output;
  }
}
