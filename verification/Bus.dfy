/** The frame bus of internal/stream/bus.go: a rotating ring and a fan-out to bounded
    channels, each method one step of BusModel. */
module Bus {
  import opened Arithmetic
  import opened Channels
  import opened Frames
  import opened Sequences
  import M = BusModel

  /** A subscription with the channel it alone holds. */
  class Subscription {
    const id: nat
    const cap: nat
    var queue: seq<Frame>
    var closed: bool
    var cancelled: bool                // cancelOnce has run

    ghost const from: nat
    ghost const replay: seq<Frame>
    ghost const joined: nat
    ghost var upTo: nat
    ghost var got: seq<Frame>          // everything received so far

    constructor (id: nat, cap: nat, ghost from: nat, ghost replay: seq<Frame>, ghost joined: nat)
      ensures this.id == id && !cancelled
      ensures View() == M.Sub(from, cap, [], [], true, replay, joined, joined)
    {
      this.id, this.cap := id, cap;
      queue, closed, cancelled := [], false, false;
      this.from, this.replay, this.joined, upTo, got := from, replay, joined, joined, [];
    }

    ghost function View(): M.Sub
      reads this
    {
      M.Sub(from, cap, queue, got, !closed, replay, joined, upTo)
    }

    /** select with a send and a default branch; sending on a closed channel panics. */
    method TrySend(f: Frame) returns (ok: bool)
      requires !closed
      modifies this`queue
      ensures ok <==> |old(queue)| < cap
      ensures queue == if ok then old(queue) + [f] else old(queue)
    {
      ok := |queue| < cap;
      if ok {
        queue := queue + [f];
      }
    }

    /** Closing a closed channel panics. */
    method Close()
      requires !closed
      modifies this`closed
      ensures closed
    {
      closed := true;
    }

    /** A closed channel still hands out what it holds. */
    method Receive() returns (r: Received<Frame>)
      modifies this`queue, this`got
      ensures old(queue) != [] ==> r == Item(old(queue)[0]) && queue == old(queue)[1..] && got == old(got) + [old(queue)[0]]
      ensures old(queue) == [] ==> r == (if closed then AtEnd else Empty) && queue == [] && got == old(got)
    {
      if queue == [] {
        return if closed then AtEnd else Empty;
      }
      r := Item(queue[0]);
      got := got + [queue[0]];
      queue := queue[1..];
    }
  }

  /** Slot of the i-th oldest frame in a ring of n slots whose oldest is at head. */
  function Slot(head: nat, n: nat, i: nat): nat {
    if head + i < n then head + i else head + i - n
  }

  /** As the program computes it. */
  lemma ModSlot(head: nat, n: nat, i: nat)
    requires head < n && i <= n
    ensures (head + i) % n == Slot(head, n, i) < n
  {
    var x := head + i;
    if x >= n {
      ModIs(x, n, 1, x - n);
    } else {
      ModIs(x, n, 0, x);
    }
  }

  class Bus {
    var lastSeq: nat
    const buf: array<Frame>
    const bufCap: nat
    var bufHead: nat
    var bufLen: nat
    var subID: nat
    var subs: map<nat, Subscription>

    ghost var hist: seq<Frame>
    ghost var all: seq<Subscription>   // every subscription ever made, in order of id

    ghost predicate RingOk()
      reads this`bufHead, this`bufLen, this`hist, buf
    {
      && buf.Length == bufCap > 0
      && bufHead < bufCap
      && bufLen == (if |hist| < bufCap then |hist| else bufCap)
      && (bufLen < bufCap ==> bufHead == 0)
      && (forall i | 0 <= i < bufLen :: Holds(i))
    }

    ghost predicate Holds(i: nat)
      requires buf.Length == bufCap > bufHead && i < bufLen <= bufCap && bufLen <= |hist|
      reads this`bufHead, this`bufLen, this`hist, buf
    {
      buf[Slot(bufHead, bufCap, i)] == hist[|hist| - bufLen + i]
    }

    /** The i-th subscription ever made is in the live map exactly while its channel is open. */
    ghost predicate SubOk(i: nat)
      requires i < |all|
      reads this`subs, this`all, all
    {
      && all[i].id == i + 1
      && (if i + 1 in subs then subs[i + 1] == all[i] && !all[i].closed && !all[i].cancelled else all[i].closed)
    }

    ghost predicate SubsOk()
      reads this`subID, this`subs, this`all, all
    {
      && subID == |all|
      && (forall i | 0 <= i < |all| :: SubOk(i))
      && (forall id | id in subs :: 0 < id <= |all|)
    }

    ghost predicate Valid()
      reads this, buf, all
    {
      RingOk() && SubsOk()
    }

    ghost function Views(): (v: seq<M.Sub>)
      reads this`all, all
      ensures |v| == |all|
    {
      ViewsOf(all)
    }

    static ghost function ViewsOf(us: seq<Subscription>): (v: seq<M.Sub>)
      reads us
      ensures |v| == |us|
    {
      seq(|us|, i requires 0 <= i < |us| reads us => us[i].View())
    }

    ghost function View(): M.State
      reads this, all
    {
      M.State(lastSeq, bufCap, hist, Views())
    }

    constructor (cap: int)
      ensures Valid() && fresh(buf) && all == []
      ensures View() == M.Initial(if cap <= 0 then 1024 else cap)
    {
      var c: nat := if cap <= 0 then 1024 else cap;
      bufCap := c;
      buf := new Frame[c](_ => Frame(0, Other("")));
      lastSeq, bufHead, bufLen, subID, subs := 0, 0, 0, 0, map[];
      hist, all := [], [];
    }

    /** Stores a frame in the ring, over the oldest one when it is full. */
    method Store(f: Frame)
      requires RingOk()
      modifies this`hist, this`bufHead, this`bufLen, buf
      ensures RingOk() && hist == old(hist) + [f]
    {
      ghost var before := buf[..];
      if bufLen < bufCap {
        ModSlot(bufHead, bufCap, bufLen);
        buf[(bufHead + bufLen) % bufCap] := f;
        bufLen := bufLen + 1;
        hist := hist + [f];
        forall i | 0 <= i < bufLen ensures Holds(i) {
          assert i < bufLen - 1 ==> old(Holds(i));
        }
      } else {
        ModSlot(bufHead, bufCap, 1);
        buf[bufHead] := f;
        bufHead := (bufHead + 1) % bufCap;
        hist := hist + [f];
        forall i | 0 <= i < bufLen ensures Holds(i) {
          assert i < bufLen - 1 ==> old(Holds(i + 1));
        }
      }
    }

    lemma LiveAreOpen()
      requires SubsOk()
      ensures forall i | 0 <= i < |all| :: Views()[i].open <==> i + 1 in subs
      ensures forall id | id in subs :: 0 < id <= |all| && subs[id] in all
    {
      forall i | 0 <= i < |all| ensures Views()[i].open <==> i + 1 in subs {
        assert SubOk(i);
      }
      forall id | id in subs ensures subs[id] in all {
        assert SubOk(id - 1);
      }
    }

    /** One round of the fan-out loop: send, or drop the subscriber when its channel is full. */
    method OfferOne(id: nat, sub: Subscription, f: Frame)
      requires SubsOk() && id in subs && subs[id] == sub
      modifies this`subs, sub`upTo, sub`queue, sub`closed
      ensures SubsOk() && 0 < id <= |all|
      ensures subs == old(subs) || subs == old(subs) - {id}
      ensures Views() == old(Views())[id - 1 := M.Offer(old(Views())[id - 1], f)]
    {
      assert SubOk(id - 1);
      var ok := sub.TrySend(f);
      if ok {
        sub.upTo := sub.upTo + 1;
      } else {
        subs := subs - {id};
        sub.Close();
      }
      OthersUntouched(id - 1);
    }

    /** A step that touched only the k-th subscription and its map entry. */
    twostate lemma OthersUntouched(k: nat)
      requires old(SubsOk()) && all == old(all) && subID == old(subID) && k < |all|
      requires subs == old(subs) || subs == old(subs) - {k + 1}
      requires SubOk(k)
      requires forall u | u in all && u != all[k] :: unchanged(u)
      ensures SubsOk()
      ensures Views() == old(Views())[k := all[k].View()]
    {
      forall i | 0 <= i < |all| ensures SubOk(i) && (i != k ==> unchanged(all[i])) {
        assert old(SubOk(i)) && old(SubOk(k));
        assert all[i] in all && (i != k ==> all[i].id != all[k].id);
      }
    }

    /** The fan-out loop with the subscribers in left still to be served. */
    ghost predicate FanningOut(before: seq<M.Sub>, f: Frame, left: set<nat>)
      reads this`subID, this`subs, this`all, all
    {
      SubsOk() && left <= subs.Keys && Views() == OfferedBut(before, f, left)
    }

    method FanRound(f: Frame, ghost before: seq<M.Sub>, ghost left: set<nat>, id: nat)
      requires FanningOut(before, f, left) && id in left && id in subs
      modifies this`subs, all
      ensures FanningOut(before, f, left - {id})
    {
      LiveAreOpen();
      hide SubsOk;
      OfferNext(before, f, left, id);
      OfferOne(id, subs[id], f);
    }

    lemma FanStarts(f: Frame)
      requires SubsOk()
      ensures FanningOut(Views(), f, subs.Keys)
    {
      LiveAreOpen();
      assert OfferedBut(Views(), f, subs.Keys) == Views();
    }

    lemma InSubs(before: seq<M.Sub>, f: Frame, left: set<nat>, id: nat)
      requires FanningOut(before, f, left) && id in left
      ensures id in subs
    {
    }

    lemma FanEnds(before: seq<M.Sub>, f: Frame)
      requires FanningOut(before, f, {})
      ensures SubsOk() && Views() == M.OfferAll(before, f)
    {
      assert OfferedBut(before, f, {}) == M.OfferAll(before, f);
    }

    /** Offers a frame to every live subscriber and drops the ones that are full. */
    method Broadcast(f: Frame)
      requires SubsOk()
      modifies this`subs, all
      ensures SubsOk()
      ensures Views() == M.OfferAll(old(Views()), f)
    {
      ghost var before := Views();
      FanStarts(f);
      var left := subs.Keys;
      hide SubsOk, FanningOut;
      while left != {}
        invariant FanningOut(before, f, left)
        decreases |left|
      {
        var id :| id in left;
        InSubs(before, f, left, id);
        FanRound(f, before, left, id);
        left := left - {id};
      }
      FanEnds(before, f);
    }

    /** The subscribers after the loop has offered the frame to all but those left. */
    static ghost function OfferedBut(before: seq<M.Sub>, f: Frame, left: set<nat>): (v: seq<M.Sub>)
      ensures |v| == |before|
    {
      seq(|before|, i requires 0 <= i < |before| => if i + 1 in left then before[i] else M.Offer(before[i], f))
    }

    static lemma OfferNext(before: seq<M.Sub>, f: Frame, left: set<nat>, id: nat)
      requires id in left && 0 < id <= |before|
      ensures OfferedBut(before, f, left)[id - 1 := M.Offer(before[id - 1], f)] == OfferedBut(before, f, left - {id})
    {
    }

    /** `marshals` is whether the payload encodes as JSON; a failure still uses up a number. */
    method Publish(body: Body, marshals: bool) returns (frame: Frame, ok: bool)
      requires Valid()
      modifies this`lastSeq, this`hist, this`bufHead, this`bufLen, this`subs, buf, all
      ensures Valid() && ok == marshals
      ensures View() == M.Next(old(View()), M.Publish(body, marshals))
      ensures lastSeq == old(lastSeq) + 1 && frame == Frame(lastSeq, body)
      ensures hist == if ok then old(hist) + [frame] else old(hist)
    {
      lastSeq := lastSeq + 1;
      frame := Frame(lastSeq, body);
      if !marshals {
        return frame, false;
      }
      Store(frame);
      Broadcast(frame);
      ok := true;
    }

    method Snapshot() returns (out: seq<Frame>)
      requires Valid()
      ensures out == M.Retained(View())
      ensures |out| == (if |hist| < bufCap then |hist| else bufCap) && out == hist[|hist| - |out|..]
    {
      out := [];
      for i := 0 to bufLen
        invariant out == hist[|hist| - bufLen..|hist| - bufLen + i]
      {
        ModSlot(bufHead, bufCap, i);
        assert Holds(i);
        out := out + [buf[(bufHead + i) % bufCap]];
      }
    }

    method LastSeq() returns (n: nat)
      ensures n == View().lastSeq
    {
      n := lastSeq;
    }

    /** Queues the retained frames after the cursor, as far as the channel holds them. */
    method Replay(from: nat, ch: Subscription)
      requires RingOk() && ch.queue == [] && !ch.closed && ch.cap > 0
      modifies ch`queue
      ensures ch.queue == First(After(Last(hist, bufCap), from), ch.cap)
    {
      ghost var r := Last(hist, bufCap);
      assert r[..0] == [];
      for i := 0 to bufLen
        invariant !ch.closed
        invariant ch.queue == First(After(r[..i], from), ch.cap)
      {
        ModSlot(bufHead, bufCap, i);
        assert Holds(i);
        var f := buf[(bufHead + i) % bufCap];
        AfterSnoc(r[..i], f, from);
        assert r[..i + 1] == r[..i] + [f];
        if f.seqNo <= from {
          continue;
        }
        var ok := ch.TrySend(f);
      }
      assert r[..bufLen] == r;
    }

    method Subscribe(from: nat, chanCap: int) returns (sub: Subscription)
      requires Valid()
      modifies this`subID, this`subs, this`all
      ensures Valid() && fresh(sub) && all == old(all) + [sub] && sub.cap == if chanCap <= 0 then 256 else chanCap
      ensures View() == M.Next(old(View()), M.Subscribe(from, chanCap))
    {
      hide RingOk, After, First;
      var cap: nat := if chanCap <= 0 then 256 else chanCap;
      subID := subID + 1;
      sub := new Subscription(subID, cap, from, After(Last(hist, bufCap), from), |hist|);
      Replay(from, sub);
      subs := subs[subID := sub];
      all := all + [sub];
      forall i | 0 <= i < |all| ensures SubOk(i) {
        assert i < |old(all)| ==> old(SubOk(i));
      }
    }

    /** The closing loop with the subscribers still in the map to be closed. */
    ghost predicate Closing(before: seq<M.Sub>)
      reads this`subID, this`subs, this`all, all
    {
      SubsOk() && Views() == ClosedBut(before, subs.Keys)
    }

    method CloseRound(ghost before: seq<M.Sub>, id: nat)
      requires Closing(before) && id in subs
      modifies this`subs, all
      ensures Closing(before) && subs == old(subs) - {id}
    {
      LiveAreOpen();
      hide SubsOk;
      ghost var live := subs.Keys;
      Detach(id, subs[id]);
      assert ClosedBut(before, live)[id - 1 := before[id - 1].(open := false)] == ClosedBut(before, live - {id});
    }

    lemma CloseStarts()
      requires SubsOk()
      ensures Closing(Views())
    {
      LiveAreOpen();
      assert ClosedBut(Views(), subs.Keys) == Views();
    }

    lemma CloseEnds(before: seq<M.Sub>)
      requires Closing(before) && subs == map[]
      ensures SubsOk() && Views() == M.CloseEach(before)
    {
      assert ClosedBut(before, {}) == M.CloseEach(before);
    }

    method CloseAll()
      requires Valid()
      modifies this`subs, all
      ensures Valid() && subs == map[]
      ensures View() == M.Next(old(View()), M.CloseAll)
    {
      ghost var before := Views();
      CloseStarts();
      hide SubsOk, RingOk, Closing;
      while subs != map[]
        invariant Closing(before)
        decreases |subs|
      {
        var id :| id in subs;
        CloseRound(before, id);
      }
      CloseEnds(before);
    }

    /** The subscribers after the loop has closed all but those left. */
    static ghost function ClosedBut(before: seq<M.Sub>, left: set<nat>): (v: seq<M.Sub>)
      ensures |v| == |before|
    {
      seq(|before|, i requires 0 <= i < |before| => if i + 1 in left then before[i] else before[i].(open := false))
    }

    /** Closes a live subscriber's channel and forgets it. */
    method Detach(id: nat, sub: Subscription)
      requires SubsOk() && id in subs && subs[id] == sub
      modifies this`subs, sub`closed
      ensures SubsOk() && subs == old(subs) - {id} && 0 < id <= |all|
      ensures Views() == old(Views())[id - 1 := old(Views())[id - 1].(open := false)]
    {
      assert SubOk(id - 1);
      subs := subs - {id};
      sub.Close();
      OthersUntouched(id - 1);
    }

    /** Subscription.Cancel: runs once, and closes the channel unless the bus already has. */
    method Cancel(sub: Subscription)
      requires Valid() && sub in all
      modifies this`subs, sub`cancelled, sub`closed
      ensures Valid() && sub.cancelled && sub.id !in subs && 0 < sub.id <= |all|
      ensures View() == M.Next(old(View()), M.Cancel(sub.id - 1))
    {
      KnownById(sub);
      hide RingOk;
      if sub.cancelled {
        return;
      }
      if sub.id in subs {
        Detach(sub.id, sub);
      }
      sub.cancelled := true;
      assert SubOk(sub.id - 1);
      OthersUntouched(sub.id - 1);
    }

    lemma KnownById(sub: Subscription)
      requires SubsOk() && sub in all
      ensures 0 < sub.id <= |all| && all[sub.id - 1] == sub && SubOk(sub.id - 1)
    {
      var k :| 0 <= k < |all| && all[k] == sub;
      assert SubOk(k);
    }

    /** A reader takes the next frame; this needs no lock. */
    method Receive(sub: Subscription) returns (r: Received<Frame>)
      requires Valid() && sub in all
      modifies sub`queue, sub`got
      ensures Valid() && 0 < sub.id <= |all|
      ensures View() == M.Next(old(View()), M.Receive(sub.id - 1))
      ensures old(sub.queue) != [] ==> r == Item(old(sub.queue)[0]) && sub.queue == old(sub.queue)[1..]
      ensures r == AtEnd ==> sub.id !in subs
    {
      KnownById(sub);
      hide RingOk;
      r := sub.Receive();
      assert SubOk(sub.id - 1);
      OthersUntouched(sub.id - 1);
    }
  }
}
