/** The replay cache (internal/aes/replay.go): clock readings are nanoseconds, request
    timestamps milliseconds, both int64 in the program. */
module Replay {
  import opened Bytes
  import opened Arithmetic

  const MS: nat := 1_000_000
  const DEFAULT_WINDOW: nat := 5 * 60 * 1000 * MS
  const BAR: byte := 124             // '|'
  const INT64: int := 0x1_0000_0000_0000_0000
  const MAX_TIME: int := 0x4000_0000_0000_0000

  /** Two's-complement wrap-around of int64 arithmetic. */
  function Wrap(x: int): (r: int)
    ensures -INT64 / 2 <= r < INT64 / 2
  {
    (x + INT64 / 2) % INT64 - INT64 / 2
  }

  /** Half the window in whole milliseconds, rounded down twice. */
  function Half(window: nat): (half: nat)
    ensures 2_000_000 * half <= window < 2_000_000 * (half + 1)
  {
    window / MS / 2
  }

  function CacheKey(keyId: Bytes, nonceHex: Bytes): Bytes {
    keyId + [BAR] + nonceHex
  }

  /** Different pairs never share a cache key, whatever the key id contains. */
  lemma CacheKeyInjective(k: Bytes, n: Bytes, l: Bytes, m: Bytes)
    requires BAR !in n && BAR !in m
    ensures CacheKey(k, n) == CacheKey(l, m) <==> k == l && n == m
  {
    if CacheKey(k, n) == CacheKey(l, m) {
      SplitLast(BAR, k, n, l, m);
    }
  }

  predicate TimestampOk(window: nat, now: int, reqMillis: int) {
    var diff := Wrap(reqMillis - now / MS);
    (if diff < 0 then Wrap(-diff) else diff) <= Half(window)
  }

  /** Accepted means within half the window of server time - or exactly 2^63 ms before it, where
      negating the difference overflows. */
  lemma TimestampOkMeans(window: nat, now: int, reqMillis: int)
    requires 0 <= now / MS < MAX_TIME && -INT64 / 2 <= reqMillis < INT64 / 2 && window < INT64 / 2
    ensures TimestampOk(window, now, reqMillis)
       <==> 0 - Half(window) <= reqMillis - now / MS <= Half(window) || reqMillis == now / MS - INT64 / 2
  {
  }

  // ----- the cache ----------------------------------------------------------

  function Evict(seen: map<Bytes, int>, window: nat, now: int): map<Bytes, int> {
    map k | k in seen && !(now - seen[k] > window) :: seen[k]
  }

  class ReplayCache {
    var window: nat
    var seen: map<Bytes, int>

    constructor ()
      ensures window == DEFAULT_WINDOW && seen == map[]
    {
      window, seen := DEFAULT_WINDOW, map[];
    }

    method CheckTimestamp(now: int, reqMillis: int) returns (ok: bool)
      ensures ok == TimestampOk(window, now, reqMillis)
    {
      var diff := Wrap(reqMillis - now / MS);
      if diff < 0 {
        diff := Wrap(-diff);
      }
      var half := window / MS / 2;
      if diff > half {
        return false;
      }
      ok := true;
    }

    method EvictLocked(now: int)
      modifies this`seen
      ensures seen == Evict(old(seen), window, now)
    {
      var left := seen.Keys;
      while left != {}
        invariant left <= seen.Keys <= old(seen).Keys
        invariant forall k | k in seen :: seen[k] == old(seen)[k]
        invariant forall k | k in old(seen) && k !in left :: k in seen <==> !(now - old(seen)[k] > window)
        decreases |left|
      {
        var k :| k in left;
        left := left - {k};
        if now - seen[k] > window {
          seen := seen - {k};
        }
      }
    }

    method CheckAndRecord(now: int, keyId: Bytes, nonceHex: Bytes) returns (ok: bool)
      modifies this`seen
      ensures var kept := Evict(old(seen), window, now);
              ok == (CacheKey(keyId, nonceHex) !in kept)
              && seen == if ok then kept[CacheKey(keyId, nonceHex) := now] else kept
    {
      EvictLocked(now);
      var key := keyId + [BAR] + nonceHex;
      if key in seen {
        return false;
      }
      seen := seen[key := now];
      ok := true;
    }
  }

  // ----- runs ---------------------------------------------------------------

  /** One request: the clock is read once for the timestamp check and again when recording. */
  datatype Request = Request(keyId: Bytes, nonceHex: Bytes, reqMillis: int, checkedAt: int, recordedAt: int)
  {
    function Key(): Bytes {
      CacheKey(keyId, nonceHex)
    }
  }

  function Step(window: nat, seen: map<Bytes, int>, q: Request): map<Bytes, int> {
    if !TimestampOk(window, q.checkedAt, q.reqMillis) then seen
    else
      var kept := Evict(seen, window, q.recordedAt);
      if q.Key() in kept then kept else kept[q.Key() := q.recordedAt]
  }

  function Seen(window: nat, run: seq<Request>, i: nat): map<Bytes, int>
    requires i <= |run|
  {
    if i == 0 then map[] else Step(window, Seen(window, run, i - 1), run[i - 1])
  }

  /** The i-th request passes CheckTimestamp and then CheckAndRecord. */
  predicate Accepted(window: nat, run: seq<Request>, i: nat)
    requires i < |run|
  {
    && TimestampOk(window, run[i].checkedAt, run[i].reqMillis)
    && run[i].Key() !in Evict(Seen(window, run, i), window, run[i].recordedAt)
  }

  /** The clock ticks in steps of `tick`, never runs backwards across the critical sections, and a
      request is recorded at most `lag` after its timestamp was checked. */
  ghost predicate Clocked(run: seq<Request>, tick: nat, lag: nat)
    requires tick > 0
  {
    && (forall i | 0 <= i < |run| ::
          && 0 <= run[i].checkedAt <= run[i].recordedAt <= run[i].checkedAt + lag
          && run[i].checkedAt % tick == 0
          && run[i].checkedAt / MS < MAX_TIME
          && -INT64 / 2 <= run[i].reqMillis < INT64 / 2
          && BAR !in run[i].nonceHex)
    && (forall i, j | 0 <= i < j < |run| :: run[i].recordedAt <= run[j].recordedAt)
  }

  /** Among the first i requests, some accepted one recorded this key at this time. */
  ghost predicate Recorded(window: nat, run: seq<Request>, i: nat, k: Bytes, at: int)
    requires i <= |run|
  {
    exists j | 0 <= j < i :: Accepted(window, run, j) && run[j].Key() == k && run[j].recordedAt == at
  }

  /** One of the requests between j and i came more than a window after request j. */
  ghost predicate Expired(window: nat, run: seq<Request>, j: nat, i: nat)
    requires j < i <= |run|
  {
    exists m | j < m < i :: run[m].recordedAt - run[j].recordedAt > window
  }

  ghost predicate Remembered(seen: map<Bytes, int>, q: Request) {
    q.Key() in seen && seen[q.Key()] >= q.recordedAt
  }

  /** What is in the cache is an accepted request's time; what is not has been swept since. */
  ghost predicate Exact(window: nat, run: seq<Request>, i: nat)
    requires i <= |run|
  {
    var seen := Seen(window, run, i);
    && (forall k | k in seen :: Recorded(window, run, i, k, seen[k]))
    && (forall j | 0 <= j < i && Accepted(window, run, j) :: Remembered(seen, run[j]) || Expired(window, run, j, i))
  }

  lemma RecordedStep(window: nat, run: seq<Request>, i: nat, k: Bytes)
    requires 0 < i <= |run| && k in Seen(window, run, i)
    requires k in Seen(window, run, i - 1) ==> Recorded(window, run, i - 1, k, Seen(window, run, i - 1)[k])
    ensures Recorded(window, run, i, k, Seen(window, run, i)[k])
  {
    hide TimestampOk;
    var before, seen := Seen(window, run, i - 1), Seen(window, run, i);
    if k in before && before[k] == seen[k] {
      var j :| 0 <= j < i - 1 && Accepted(window, run, j) && run[j].Key() == k && run[j].recordedAt == before[k];
    } else {
      assert Accepted(window, run, i - 1) && run[i - 1].Key() == k;
    }
  }

  lemma RememberedStep(window: nat, run: seq<Request>, i: nat, j: nat)
    requires 0 < i <= |run| && j < i && Accepted(window, run, j)
    requires run[j].recordedAt <= run[i - 1].recordedAt
    requires j < i - 1 ==> Remembered(Seen(window, run, i - 1), run[j]) || Expired(window, run, j, i - 1)
    ensures Remembered(Seen(window, run, i), run[j]) || Expired(window, run, j, i)
  {
    hide TimestampOk;
    var q := run[i - 1];
    if j < i - 1 && Remembered(Seen(window, run, i - 1), run[j]) {
      if q.recordedAt - run[j].recordedAt > window {
        assert Expired(window, run, j, i);
      }
    }
  }

  lemma {:induction false} SeenIsExact(window: nat, run: seq<Request>, tick: nat, lag: nat, i: nat)
    requires tick > 0 && i <= |run| && Clocked(run, tick, lag)
    ensures Exact(window, run, i)
  {
    hide Step, Accepted, Recorded, Remembered, Expired;
    if i > 0 {
      SeenIsExact(window, run, tick, lag, i - 1);
      var seen := Seen(window, run, i);
      hide Seen;
      forall k | k in seen ensures Recorded(window, run, i, k, seen[k]) {
        RecordedStep(window, run, i, k);
      }
      forall j | 0 <= j < i && Accepted(window, run, j)
        ensures Remembered(seen, run[j]) || Expired(window, run, j, i)
      {
        RememberedStep(window, run, i, j);
      }
    }
  }

  /** The cache is exact: a request with a good timestamp is refused if and only if the same
      (key id, stream id) was accepted within the window before it. */
  lemma RefusedIffSeen(window: nat, run: seq<Request>, tick: nat, lag: nat, i: nat)
    requires tick > 0 && i < |run| && Clocked(run, tick, lag)
    requires TimestampOk(window, run[i].checkedAt, run[i].reqMillis)
    ensures !Accepted(window, run, i)
       <==> exists j | 0 <= j < i :: Accepted(window, run, j) && run[j].keyId == run[i].keyId
                       && run[j].nonceHex == run[i].nonceHex && run[i].recordedAt - run[j].recordedAt <= window
  {
    hide TimestampOk;
    SeenIsExact(window, run, tick, lag, i);
    hide Seen;
    var seen := Seen(window, run, i);
    if !Accepted(window, run, i) {
      var k := run[i].Key();
      var j :| 0 <= j < i && Accepted(window, run, j) && run[j].Key() == k && run[j].recordedAt == seen[k];
      CacheKeyInjective(run[j].keyId, run[j].nonceHex, run[i].keyId, run[i].nonceHex);
    }
    forall j | 0 <= j < i && Accepted(window, run, j) && run[j].keyId == run[i].keyId
      && run[j].nonceHex == run[i].nonceHex && run[i].recordedAt - run[j].recordedAt <= window
      ensures !Accepted(window, run, i)
    {
      assert run[j].Key() == run[i].Key();
      assert Remembered(seen, run[j]) || Expired(window, run, j, i);
      assert forall m | j < m < i :: run[m].recordedAt <= run[i].recordedAt;
    }
  }

  ghost predicate SamePair(p: Request, q: Request) {
    p.keyId == q.keyId && p.nonceHex == q.nonceHex
  }

  /** The timestamp is not part of what a record is bound to, so what the cache refuses is a (key id,
      stream id) pair: whatever fresh timestamp it comes with, it is accepted again if and only if
      more than the window has passed since it was last accepted. */
  lemma SamePairAcceptedAgainIff(window: nat, run: seq<Request>, tick: nat, lag: nat, i: nat, j: nat)
    requires tick > 0 && i < j < |run| && Clocked(run, tick, lag)
    requires SamePair(run[i], run[j]) && Accepted(window, run, i)
    requires forall m | i < m < j && SamePair(run[m], run[j]) :: !Accepted(window, run, m)
    requires TimestampOk(window, run[j].checkedAt, run[j].reqMillis)
    ensures Accepted(window, run, j) <==> run[j].recordedAt - run[i].recordedAt > window
  {
    hide TimestampOk, Accepted;
    RefusedIffSeen(window, run, tick, lag, j);
  }

  // ----- no double acceptance -----------------------------------------------

  ghost predicate SameRequest(p: Request, q: Request) {
    SamePair(p, q) && p.reqMillis == q.reqMillis
  }

  ghost predicate NoDoubleAcceptance(window: nat, run: seq<Request>) {
    forall i, j | 0 <= i < j < |run| && SameRequest(run[i], run[j]) ::
      !(Accepted(window, run, i) && Accepted(window, run, j))
  }

  ghost predicate Safe(window: nat, tick: nat, lag: nat)
    requires tick > 0
  {
    forall run | Clocked(run, tick, lag) :: NoDoubleAcceptance(window, run)
  }

  /** The longest time, in nanoseconds, between recording the same request twice. */
  function Longest(window: nat, tick: nat, lag: nat): int {
    MS * (2 * Half(window) + 1) - tick + lag
  }

  // A reading is at least one tick before the next whole millisecond.
  lemma BeforeNextMillisecond(t: int, tick: nat)
    requires tick > 0 && MS % tick == 0 && t % tick == 0
    ensures t <= MS * (t / MS + 1) - tick
  {
    var q := MS / tick;
    var n := t / tick;
    assert t == n * tick && MS == q * tick;
    var m := MS * (t / MS + 1);
    assert t < m;
    var e := q * (t / MS + 1);
    assert m == e * tick by {
      assert m == (q * tick) * (t / MS + 1);
    }
    LessMultiple(n, e, tick);
  }

  lemma LessMultiple(n: int, e: int, tick: nat)
    requires tick > 0 && n * tick < e * tick
    ensures n * tick <= e * tick - tick
  {
    Distribute(e, n, tick);
    Sign(e - n, tick);
  }

  lemma CloseTogether(window: nat, p: Request, q: Request, tick: nat, lag: nat)
    requires tick > 0 && MS % tick == 0 && window < INT64 / 2
    requires Clocked([p, q], tick, lag) && p.reqMillis == q.reqMillis
    requires TimestampOk(window, p.checkedAt, p.reqMillis) && TimestampOk(window, q.checkedAt, q.reqMillis)
    ensures q.recordedAt - p.recordedAt <= Longest(window, tick, lag)
  {
    assert [p, q][0] == p && [p, q][1] == q;
    TimestampOkMeans(window, p.checkedAt, p.reqMillis);
    TimestampOkMeans(window, q.checkedAt, q.reqMillis);
    hide TimestampOk;
    var a, b := p.checkedAt / MS, q.checkedAt / MS;
    assert b - a <= 2 * Half(window);
    BeforeNextMillisecond(q.checkedAt, tick);
    assert p.checkedAt >= MS * a;
  }

  lemma SafeWhenClose(window: nat, run: seq<Request>, tick: nat, lag: nat)
    requires tick > 0 && MS % tick == 0 && window < INT64 / 2 && Clocked(run, tick, lag)
    requires Longest(window, tick, lag) <= window
    ensures NoDoubleAcceptance(window, run)
  {
    hide TimestampOk;
    forall i, j | 0 <= i < j < |run| && SameRequest(run[i], run[j])
      && Accepted(window, run, i) && Accepted(window, run, j)
      ensures false
    {
      hide Longest;
      assert Clocked([run[i], run[j]], tick, lag);
      CloseTogether(window, run[i], run[j], tick, lag);
      RefusedIffSeen(window, run, tick, lag, j);
    }
  }

  lemma TwiceAccepted(window: nat, tick: nat, lag: nat)
    requires tick > 0 && MS % tick == 0 && window < INT64 / 2 && tick <= MS
    requires Longest(window, tick, lag) > window
    ensures !Safe(window, tick, lag)
  {
    var half := Half(window);
    var late := MS * 2 * half + MS - tick;
    var p := Request([], [], half, 0, 0);
    var q := Request([], [], half, late, late + lag);
    MultipleOfTick(half, tick);
    EdgesAreOk(window, tick);
    assert late + lag > window;
    assert late / MS < MAX_TIME;
    hide TimestampOk, Half, Longest;
    PairIsClocked(p, q, tick, lag);
    FirstThenSwept(window, [p, q]);
    hide Accepted, Clocked;
    assert SameRequest([p, q][0], [p, q][1]);
    assert !NoDoubleAcceptance(window, [p, q]);
  }

  lemma PairIsClocked(p: Request, q: Request, tick: nat, lag: nat)
    requires tick > 0
    requires p.nonceHex == q.nonceHex == [] && 0 <= p.reqMillis == q.reqMillis < INT64 / 2
    requires p.checkedAt == p.recordedAt == 0 <= q.checkedAt && q.recordedAt == q.checkedAt + lag
    requires q.checkedAt % tick == 0 && q.checkedAt / MS < MAX_TIME
    ensures Clocked([p, q], tick, lag)
  {
    var run := [p, q];
    assert 0 % tick == 0;
    assert forall i | 0 <= i < |run| :: run[i] == p || run[i] == q;
  }

  lemma EdgesAreOk(window: nat, tick: nat)
    requires 0 < tick <= MS && window < INT64 / 2
    ensures TimestampOk(window, 0, Half(window))
    ensures TimestampOk(window, MS * 2 * Half(window) + MS - tick, Half(window))
  {
    var late := MS * 2 * Half(window) + MS - tick;
    assert late / MS == 2 * Half(window);
    TimestampOkMeans(window, 0, Half(window));
    TimestampOkMeans(window, late, Half(window));
  }

  lemma MultipleOfTick(half: nat, tick: nat)
    requires 0 < tick && MS % tick == 0
    ensures (MS * 2 * half + MS - tick) % tick == 0
  {
    var q := MS / tick;
    var k := 2 * half + 1;
    assert MS == q * tick;
    assert MS * k == (q * k) * tick by {
      assert (q * tick) * k == (q * k) * tick;
    }
    Distribute(q * k, 1, tick);
    ModIs((q * k - 1) * tick, tick, q * k - 1, 0);
  }

  lemma FirstThenSwept(window: nat, run: seq<Request>)
    requires |run| == 2 && run[1].recordedAt - run[0].recordedAt > window
    requires TimestampOk(window, run[0].checkedAt, run[0].reqMillis)
    requires TimestampOk(window, run[1].checkedAt, run[1].reqMillis)
    ensures Accepted(window, run, 0) && Accepted(window, run, 1)
  {
    hide TimestampOk;
    assert Seen(window, run, 0) == map[];
    assert Seen(window, run, 1) == map[run[0].Key() := run[0].recordedAt];
  }

  /** No request is ever accepted twice, over all runs, exactly when the window covers both halves,
      the part of a millisecond the clock can still resolve, and the time a request may take
      between its two clock readings. */
  lemma SafeExactly(window: nat, tick: nat, lag: nat)
    requires 0 < tick <= MS && MS % tick == 0 && window < INT64 / 2
    ensures Safe(window, tick, lag) <==> Longest(window, tick, lag) <= window
  {
    if Longest(window, tick, lag) <= window {
      forall run | Clocked(run, tick, lag) ensures NoDoubleAcceptance(window, run) {
        SafeWhenClose(window, run, tick, lag);
      }
    } else {
      TwiceAccepted(window, tick, lag);
    }
  }

  /** With a whole-millisecond clock read once per request every window is safe. */
  lemma WholeMillisecondsAreSafe(window: nat)
    requires window < INT64 / 2
    ensures Safe(window, MS, 0)
  {
    SafeExactly(window, MS, 0);
  }

  /** The default window is not, as soon as the clock is finer or the two readings differ. */
  lemma DefaultWindowHasNoSlack(tick: nat, lag: nat)
    requires 0 < tick <= MS && MS % tick == 0
    ensures DEFAULT_WINDOW == 300_000_000_000 && (Safe(DEFAULT_WINDOW, tick, lag) <==> tick == MS && lag == 0)
  {
    SafeExactly(DEFAULT_WINDOW, tick, lag);
  }
}
