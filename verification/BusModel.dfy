/** The frame bus as atomic steps over its whole history. Every interleaving of publishers,
    subscribers and readers is a list of these steps, since each holds the bus's mutex. */
module BusModel {
  import opened Frames
  import opened Sequences

  /** A subscription and its channel. The last three fields are history: what the replay
      offered, how long the history was when it joined, and how far it has been served. */
  datatype Sub = Sub(from: nat, cap: nat, queue: seq<Frame>, got: seq<Frame>, open: bool,
                     replay: seq<Frame>, joined: nat, upTo: nat)

  datatype State = State(lastSeq: nat, bufCap: nat, hist: seq<Frame>, subs: seq<Sub>)

  datatype Action =
    | Publish(body: Body, marshals: bool)
    | Subscribe(from: nat, cap: int)
    | Receive(sub: nat)
    | Cancel(sub: nat)
    | CloseAll

  function Retained(s: State): seq<Frame> {
    Last(s.hist, s.bufCap)
  }

  function Offer(u: Sub, f: Frame): Sub {
    if !u.open then u
    else if |u.queue| < u.cap then u.(queue := u.queue + [f], upTo := u.upTo + 1)
    else u.(open := false)
  }

  function OfferAll(subs: seq<Sub>, f: Frame): seq<Sub> {
    seq(|subs|, i requires 0 <= i < |subs| => Offer(subs[i], f))
  }

  function CloseEach(subs: seq<Sub>): seq<Sub> {
    seq(|subs|, i requires 0 <= i < |subs| => subs[i].(open := false))
  }

  function NewSub(s: State, from: nat, cap: int): Sub {
    var c := if cap <= 0 then 256 else cap;
    var replay := After(Retained(s), from);
    Sub(from, c, First(replay, c), [], true, replay, |s.hist|, |s.hist|)
  }

  function Next(s: State, a: Action): State {
    match a
    case Publish(body, marshals) =>
      if !marshals then s.(lastSeq := s.lastSeq + 1)
      else
        var f := Frame(s.lastSeq + 1, body);
        State(s.lastSeq + 1, s.bufCap, s.hist + [f], OfferAll(s.subs, f))
    case Subscribe(from, cap) => s.(subs := s.subs + [NewSub(s, from, cap)])
    case Receive(i) =>
      if i < |s.subs| && s.subs[i].queue != [] then
        var u := s.subs[i];
        s.(subs := s.subs[i := u.(queue := u.queue[1..], got := u.got + [u.queue[0]])])
      else s
    case Cancel(i) => if i < |s.subs| then s.(subs := s.subs[i := s.subs[i].(open := false)]) else s
    case CloseAll => s.(subs := CloseEach(s.subs))
  }

  function Initial(bufCap: nat): State {
    State(0, bufCap, [], [])
  }

  function Run(s: State, actions: seq<Action>): State
    decreases |actions|
  {
    if actions == [] then s else Next(Run(s, actions[..|actions| - 1]), actions[|actions| - 1])
  }

  // ----- what every step keeps ----------------------------------------------

  ghost predicate HistoryOk(s: State) {
    && Increasing(s.hist)
    && (forall i | 0 <= i < |s.hist| :: 0 < s.hist[i].seqNo <= s.lastSeq)
  }

  /** The frames handed to a subscriber, received or still queued: what fitted of the replay,
      then the history from where it joined, without a gap, up to now or to where it was cut off. */
  ghost predicate SubOk(s: State, u: Sub) {
    && u.cap > 0 && |u.queue| <= u.cap
    && u.joined <= u.upTo <= |s.hist|
    && (u.open ==> u.upTo == |s.hist|)
    && u.replay == After(Last(s.hist[..u.joined], s.bufCap), u.from)
    && u.got + u.queue == First(u.replay, u.cap) + s.hist[u.joined..u.upTo]
  }

  ghost predicate Inv(s: State) {
    && HistoryOk(s)
    && forall i | 0 <= i < |s.subs| :: SubOk(s, s.subs[i])
  }

  lemma OfferKeeps(s: State, t: State, u: Sub, f: Frame)
    requires SubOk(s, u) && t.bufCap == s.bufCap && t.hist == s.hist + [f]
    ensures SubOk(t, Offer(u, f))
  {
    hide After, Last, First;
    SliceSnoc(s.hist, f, u.joined, u.upTo);
    var fitted := First(u.replay, u.cap);
    assert u.got + (u.queue + [f]) == u.got + u.queue + [f];
    assert fitted + (s.hist[u.joined..u.upTo] + [f]) == fitted + s.hist[u.joined..u.upTo] + [f];
  }

  lemma SliceSnoc<T>(h: seq<T>, x: T, lo: nat, hi: nat)
    requires lo <= hi <= |h|
    ensures (h + [x])[..lo] == h[..lo] && (h + [x])[lo..hi] == h[lo..hi]
    ensures hi == |h| ==> (h + [x])[lo..hi + 1] == h[lo..hi] + [x]
  {
  }

  lemma ReceiveKeeps(s: State, u: Sub)
    requires SubOk(s, u) && u.queue != []
    ensures SubOk(s, u.(queue := u.queue[1..], got := u.got + [u.queue[0]]))
  {
    assert u.got + [u.queue[0]] + u.queue[1..] == u.got + u.queue;
  }

  lemma StepKeeps(s: State, a: Action)
    requires Inv(s)
    ensures Inv(Next(s, a))
  {
    var t := Next(s, a);
    hide SubOk;
    forall i | 0 <= i < |t.subs| ensures SubOk(t, t.subs[i]) {
      match a
      case Publish(body, marshals) =>
        if marshals {
          OfferKeeps(s, t, s.subs[i], Frame(s.lastSeq + 1, body));
        } else {
          SubOkDependsOnHistory(s, t, s.subs[i]);
        }
      case Subscribe(from, cap) =>
        if i < |s.subs| {
          SubOkDependsOnHistory(s, t, s.subs[i]);
        } else {
          NewSubOk(s, from, cap);
          SubOkDependsOnHistory(s, t, t.subs[i]);
        }
      case Receive(j) =>
        SubOkDependsOnHistory(s, t, s.subs[i]);
        if i == j && s.subs[i].queue != [] {
          ReceiveKeeps(s, s.subs[i]);
          SubOkDependsOnHistory(s, t, t.subs[i]);
        }
      case Cancel(j) =>
        SubOkDependsOnHistory(s, t, s.subs[i]);
        ClosingKeeps(t, s.subs[i]);
      case CloseAll =>
        SubOkDependsOnHistory(s, t, s.subs[i]);
        ClosingKeeps(t, s.subs[i]);
    }
  }

  lemma SubOkDependsOnHistory(s: State, t: State, u: Sub)
    requires s.hist == t.hist && s.bufCap == t.bufCap
    ensures SubOk(s, u) == SubOk(t, u)
  {
  }

  lemma ClosingKeeps(s: State, u: Sub)
    requires SubOk(s, u)
    ensures SubOk(s, u.(open := false))
  {
  }

  lemma NewSubOk(s: State, from: nat, cap: int)
    ensures SubOk(s, NewSub(s, from, cap))
  {
    var u := NewSub(s, from, cap);
    assert s.hist[..|s.hist|] == s.hist;
    assert s.hist[|s.hist|..|s.hist|] == [];
    assert [] + u.queue == u.queue == First(u.replay, u.cap) + [];
  }

  lemma {:induction false} RunKeeps(s: State, actions: seq<Action>)
    requires Inv(s)
    ensures Inv(Run(s, actions)) && Run(s, actions).bufCap == s.bufCap
    decreases |actions|
  {
    if actions != [] {
      RunKeeps(s, actions[..|actions| - 1]);
      StepKeeps(Run(s, actions[..|actions| - 1]), actions[|actions| - 1]);
    }
  }

  // ----- the ring -----------------------------------------------------------

  ghost predicate AllMarshal(actions: seq<Action>) {
    forall i | 0 <= i < |actions| && actions[i].Publish? :: actions[i].marshals
  }

  /** After any run the retained frames have strictly increasing seqs, the last at most the last
      one assigned; they are consecutive and end there when no payload failed to marshal. */
  lemma RetainedSeqs(bufCap: nat, actions: seq<Action>)
    ensures var s := Run(Initial(bufCap), actions); var r := Retained(s);
            && Increasing(r)
            && (forall i | 0 <= i < |r| :: r[i].seqNo <= s.lastSeq)
            && (AllMarshal(actions) ==> forall i | 0 <= i < |r| :: r[i].seqNo == s.lastSeq - |r| + 1 + i)
  {
    var s := Run(Initial(bufCap), actions);
    RunKeeps(Initial(bufCap), actions);
    if AllMarshal(actions) {
      Consecutive(bufCap, actions);
    }
  }

  lemma {:induction false} Consecutive(bufCap: nat, actions: seq<Action>)
    requires AllMarshal(actions)
    ensures var s := Run(Initial(bufCap), actions);
            s.lastSeq == |s.hist| && forall i | 0 <= i < |s.hist| :: s.hist[i].seqNo == i + 1
    decreases |actions|
  {
    if actions != [] {
      Consecutive(bufCap, actions[..|actions| - 1]);
    }
  }

  // ----- what a subscriber sees ---------------------------------------------

  function Delivered(u: Sub): seq<Frame> {
    u.got + u.queue
  }

  lemma HistoryPart(hist: seq<Frame>, bufCap: nat, joined: nat, from: nat)
    requires Increasing(hist) && joined <= |hist|
    ensures var replay := After(Last(hist[..joined], bufCap), from);
            |replay| <= joined && replay == hist[joined - |replay|..joined]
            && forall i | joined - |replay| <= i < joined :: hist[i].seqNo > from
  {
    var last := Last(hist[..joined], bufCap);
    AfterIsSuffix(last, from);
    var replay := After(last, from);
    assert last == hist[joined - |last|..joined];
    assert replay == hist[joined - |replay|..joined];
    forall i | joined - |replay| <= i < joined ensures hist[i].seqNo > from {
      assert hist[i] == last[i - (joined - |last|)];
    }
  }

  /** Whatever the interleaving, no frame reaches a subscriber twice or out of order. */
  lemma DeliveredIncreasing(s: State, i: nat)
    requires Inv(s) && i < |s.subs|
    ensures Increasing(Delivered(s.subs[i]))
  {
    var u := s.subs[i];
    HistoryPart(s.hist, s.bufCap, u.joined, u.from);
    var start := u.joined - |u.replay|;
    var k := |First(u.replay, u.cap)|;
    assert First(u.replay, u.cap) == s.hist[start..start + k];
    var d := Delivered(u);
    forall a, b | 0 <= a < b < |d| ensures d[a].seqNo < d[b].seqNo {
      assert d[a] == s.hist[if a < k then start + a else u.joined + a - k];
      assert d[b] == s.hist[if b < k then start + b else u.joined + b - k];
    }
  }

  /** When the replay fits the channel, a subscriber sees a contiguous run of the history that
      starts with the first retained frame after its cursor. When it does not, the frames between
      the part that fitted and the moment it joined are missing, and nothing else is. */
  lemma DeliveredIsContiguous(s: State, i: nat)
    requires Inv(s) && i < |s.subs|
    ensures var u := s.subs[i]; var start := u.joined - |u.replay|;
            && 0 <= start
            && (|u.replay| <= u.cap ==> Delivered(u) == s.hist[start..u.upTo])
            && (|u.replay| > u.cap ==> Delivered(u) == s.hist[start..start + u.cap] + s.hist[u.joined..u.upTo])
  {
    var u := s.subs[i];
    HistoryPart(s.hist, s.bufCap, u.joined, u.from);
    hide After, Last;
    assert u.replay == s.hist[u.joined - |u.replay|..u.joined];
    assert Delivered(u) == First(u.replay, u.cap) + s.hist[u.joined..u.upTo];
    hide SubOk;
    FirstThenRest(s.hist, u.joined - |u.replay|, u.joined, u.upTo, u.cap);
  }

  lemma FirstThenRest<T>(h: seq<T>, start: nat, mid: nat, end: nat, cap: nat)
    requires start <= mid <= end <= |h|
    ensures mid - start <= cap ==> First(h[start..mid], cap) + h[mid..end] == h[start..end]
    ensures mid - start > cap ==> First(h[start..mid], cap) == h[start..start + cap]
  {
  }

  /** The delivery contract over all runs: in order and without repeats, and contiguous from the
      first retained frame after the cursor up to now, or to where a slow subscriber was cut off. */
  lemma SubscriberDelivery(bufCap: nat, actions: seq<Action>, i: nat)
    requires i < |Run(Initial(bufCap), actions).subs|
    ensures var s := Run(Initial(bufCap), actions); var u := s.subs[i]; var start := u.joined - |u.replay|;
            && Increasing(Delivered(u))
            && 0 <= start <= u.upTo <= |s.hist|
            && (|u.replay| <= u.cap ==> Delivered(u) == s.hist[start..u.upTo])
            && (u.open ==> u.upTo == |s.hist|)
  {
    var s := Run(Initial(bufCap), actions);
    RunKeeps(Initial(bufCap), actions);
    DeliveredIncreasing(s, i);
    DeliveredIsContiguous(s, i);
  }

  ghost predicate NeverBehindCursor(s: State, i: nat)
  {
    forall actions | i < |Run(s, actions).subs| ::
      forall k | 0 <= k < |Delivered(Run(s, actions).subs[i])| ::
        Delivered(Run(s, actions).subs[i])[k].seqNo > Run(s, actions).subs[i].from
  }

  /** Only the replay is filtered by the cursor, live frames are not: a subscriber is certain to
      see nothing at or before its cursor exactly when the cursor is not ahead of the bus. */
  lemma CursorIsRespectedIff(s: State, from: nat, cap: int)
    requires Inv(s)
    ensures NeverBehindCursor(Next(s, Subscribe(from, cap)), |s.subs|) <==> from <= s.lastSeq
  {
    var t := Next(s, Subscribe(from, cap));
    var i := |s.subs|;
    StepKeeps(s, Subscribe(from, cap));
    if from <= s.lastSeq {
      forall actions | i < |Run(t, actions).subs|
        ensures forall k | 0 <= k < |Delivered(Run(t, actions).subs[i])| ::
          Delivered(Run(t, actions).subs[i])[k].seqNo > Run(t, actions).subs[i].from
      {
        JoinedAfterCursor(t, actions, i);
        RunKeeps(t, actions);
        AfterCursor(Run(t, actions), i);
      }
    } else {
      CursorAhead(s, from, cap);
    }
  }

  /** Every frame published after a subscriber joined has a larger seq than its cursor. */
  ghost predicate LiveAfterCursor(s: State, i: nat)
    requires i < |s.subs|
  {
    var u := s.subs[i];
    u.from <= s.lastSeq && u.joined <= |s.hist| && forall k | u.joined <= k < |s.hist| :: s.hist[k].seqNo > u.from
  }

  lemma {:induction false} JoinedAfterCursor(t: State, actions: seq<Action>, i: nat)
    requires Inv(t) && i < |t.subs| && LiveAfterCursor(t, i)
    ensures i < |Run(t, actions).subs| && LiveAfterCursor(Run(t, actions), i)
    decreases |actions|
  {
    if actions != [] {
      JoinedAfterCursor(t, actions[..|actions| - 1], i);
      var s := Run(t, actions[..|actions| - 1]);
      LiveAfterCursorStep(s, actions[|actions| - 1], i);
    }
  }

  lemma LiveAfterCursorStep(s: State, a: Action, i: nat)
    requires i < |s.subs| && LiveAfterCursor(s, i)
    ensures i < |Next(s, a).subs| && LiveAfterCursor(Next(s, a), i)
  {
    assert Next(s, a).subs[i].from == s.subs[i].from && Next(s, a).subs[i].joined == s.subs[i].joined;
  }

  lemma AfterCursor(s: State, i: nat)
    requires Inv(s) && i < |s.subs| && LiveAfterCursor(s, i)
    ensures forall k | 0 <= k < |Delivered(s.subs[i])| :: Delivered(s.subs[i])[k].seqNo > s.subs[i].from
  {
    var u := s.subs[i];
    HistoryPart(s.hist, s.bufCap, u.joined, u.from);
    var fitted := First(u.replay, u.cap);
    assert Delivered(u) == fitted + s.hist[u.joined..u.upTo];
    forall k | 0 <= k < |Delivered(u)| ensures Delivered(u)[k].seqNo > u.from {
      if k < |fitted| {
        assert Delivered(u)[k] == u.replay[k] == s.hist[u.joined - |u.replay| + k];
      } else {
        assert Delivered(u)[k] == s.hist[u.joined + k - |fitted|];
      }
    }
  }

  lemma CursorAhead(s: State, from: nat, cap: int)
    requires Inv(s) && from > s.lastSeq
    ensures !NeverBehindCursor(Next(s, Subscribe(from, cap)), |s.subs|)
  {
    var t := Next(s, Subscribe(from, cap));
    var i := |s.subs|;
    var actions := [Publish(Other("meta"), true)];
    FirstLive(s, from, cap);
    assert actions[..0] == [];
    assert Run(t, actions) == Next(t, actions[0]);
    assert i < |Run(t, actions).subs|;
  }

  /** A subscriber ahead of the bus is handed the very next frame. */
  lemma FirstLive(s: State, from: nat, cap: int)
    requires Inv(s) && from > s.lastSeq
    ensures var end := Next(Next(s, Subscribe(from, cap)), Publish(Other("meta"), true));
            && |s.subs| < |end.subs|
            && var u := end.subs[|s.subs|]; u.from == from && |Delivered(u)| > 0 && Delivered(u)[0].seqNo == s.lastSeq + 1
  {
    AfterNone(Retained(s), from);
    hide After, Last, HistoryOk, SubOk;
  }

  // ----- what goes in -------------------------------------------------------

  /** The payloads that were published and could be encoded, in order. */
  function Bodies(actions: seq<Action>): seq<Body>
    decreases |actions|
  {
    if actions == [] then []
    else
      var a := actions[|actions| - 1];
      Bodies(actions[..|actions| - 1]) + (if a.Publish? && a.marshals then [a.body] else [])
  }

  function Publishes(actions: seq<Action>): nat
    decreases |actions|
  {
    if actions == [] then 0
    else Publishes(actions[..|actions| - 1]) + (if actions[|actions| - 1].Publish? then 1 else 0)
  }

  /** The history holds exactly the payloads published, in order, and every publish uses up one seq. */
  lemma {:induction false} HistoryIsPublished(bufCap: nat, actions: seq<Action>)
    ensures var s := Run(Initial(bufCap), actions);
            && s.lastSeq == Publishes(actions)
            && |s.hist| == |Bodies(actions)| && forall k | 0 <= k < |s.hist| :: s.hist[k].body == Bodies(actions)[k]
    decreases |actions|
  {
    if actions != [] {
      HistoryIsPublished(bufCap, actions[..|actions| - 1]);
    }
  }

  /** A frame that finds the channel full, a cancel and the closing of the bus end a subscription. */
  predicate Ends(s: State, a: Action, i: nat)
    requires i < |s.subs|
  {
    || a == CloseAll || a == Cancel(i)
    || (a.Publish? && a.marshals && |s.subs[i].queue| >= s.subs[i].cap)
  }

  ghost predicate EndsAt(s: State, actions: seq<Action>, k: nat, i: nat)
    requires k < |actions|
  {
    i < |Run(s, actions[..k]).subs| && Ends(Run(s, actions[..k]), actions[k], i)
  }

  lemma OpenStep(s: State, a: Action, i: nat)
    requires i < |s.subs|
    ensures i < |Next(s, a).subs| && (Next(s, a).subs[i].open <==> s.subs[i].open && !Ends(s, a, i))
    ensures var u, v := s.subs[i], Next(s, a).subs[i];
            v.from == u.from && v.cap == u.cap && v.replay == u.replay && v.joined == u.joined
  {
    hide After, Last, First;
  }

  /** Over all runs a subscription stays open if and only if nothing ends it. */
  lemma {:induction false} StaysOpenIff(s: State, actions: seq<Action>, i: nat)
    requires i < |s.subs|
    ensures i < |Run(s, actions).subs|
    ensures Run(s, actions).subs[i].open <==> s.subs[i].open && forall k | 0 <= k < |actions| :: !EndsAt(s, actions, k, i)
    decreases |actions|
  {
    hide Ends, Next;
    if actions != [] {
      var n := |actions| - 1;
      StaysOpenIff(s, actions[..n], i);
      OpenStep(Run(s, actions[..n]), actions[n], i);
      assert forall k | 0 <= k < n :: actions[..n][..k] == actions[..k];
      assert forall k | 0 <= k < n :: EndsAt(s, actions[..n], k, i) == EndsAt(s, actions, k, i);
      assert EndsAt(s, actions, n, i) == Ends(Run(s, actions[..n]), actions[n], i);
    }
  }

  lemma {:induction false} SubKeeps(s: State, actions: seq<Action>, i: nat)
    requires i < |s.subs|
    ensures i < |Run(s, actions).subs|
    ensures var u, v := s.subs[i], Run(s, actions).subs[i];
            v.from == u.from && v.cap == u.cap && v.replay == u.replay && v.joined == u.joined
    decreases |actions|
  {
    hide Next;
    if actions != [] {
      SubKeeps(s, actions[..|actions| - 1], i);
      OpenStep(Run(s, actions[..|actions| - 1]), actions[|actions| - 1], i);
    }
  }

  /** A subscription keeps the cursor and the capacity it asked for - 256 when it asked for none - and
      what it is handed begins where the history stood when it joined. */
  lemma SubscribedAt(bufCap: nat, before: seq<Action>, from: nat, cap: int, later: seq<Action>)
    ensures var s := Run(Initial(bufCap), before);
            var t := Run(Next(s, Subscribe(from, cap)), later);
            var i := |s.subs|;
            && i < |t.subs| && t.subs[i].from == from && t.subs[i].cap == (if cap <= 0 then 256 else cap)
            && t.subs[i].joined == |s.hist|
            && t.subs[i].replay == After(s.hist[if |s.hist| <= bufCap then 0 else |s.hist| - bufCap..], from)
  {
    var s := Run(Initial(bufCap), before);
    KeepsCap(bufCap, before);
    SubKeeps(Next(s, Subscribe(from, cap)), later, |s.subs|);
    hide Run, After;
    assert s.hist[0..] == s.hist;
  }

  lemma {:induction false} KeepsCap(bufCap: nat, actions: seq<Action>)
    ensures Run(Initial(bufCap), actions).bufCap == bufCap
    decreases |actions|
  {
    if actions != [] {
      KeepsCap(bufCap, actions[..|actions| - 1]);
    }
  }

  /** A subscriber gets the frames in the order queued, one each time it takes one. */
  lemma ReceiveTakesFirst(s: State, i: nat)
    requires i < |s.subs| && s.subs[i].queue != []
    ensures var u, v := s.subs[i], Next(s, Receive(i)).subs[i];
            v.got == u.got + [u.queue[0]] && u.queue == [u.queue[0]] + v.queue
  {
    assert s.subs[i].queue == [s.subs[i].queue[0]] + s.subs[i].queue[1..];
  }
}
