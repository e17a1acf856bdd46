/** The shell's reader, subscribers and teardown (internal/shell/shell.go), each mutex section one
    step of ShellModel. */
module Shell {
  import opened Bytes
  import opened Channels
  import opened Sequences
  import M = ShellModel

  /** What the history of a viewer adds to its channel. */
  datatype Info = Info(scrollback: Bytes, start: nat, upTo: nat)

  ghost function ViewOf(ch: Chan<Bytes>, info: Info): M.Viewer
    reads ch
  {
    M.Viewer(ch.cap, ch.queue, ch.got, !ch.closed, info.scrollback, info.start, info.upTo)
  }

  class Shell {
    var buf: Bytes
    const bufLimit: nat
    var subID: nat
    var subs: map<nat, Chan<Bytes>>

    ghost var output: Bytes            // everything ever read from the terminal
    ghost var all: seq<Chan<Bytes>>    // every channel ever made, in order of id
    ghost var infos: seq<Info>

    /** The channel with id i + 1 is in the map exactly while it is open. */
    ghost predicate SubOk(i: nat)
      requires i < |all|
      reads this`subs, this`all, all
    {
      if i + 1 in subs then subs[i + 1] == all[i] && !all[i].closed else all[i].closed
    }

    ghost predicate SubsOk()
      reads this`subID, this`subs, this`all, this`infos, all
    {
      && subID == |all| == |infos|
      && (forall i, j | 0 <= i < j < |all| :: all[i] != all[j])
      && (forall i | 0 <= i < |all| :: SubOk(i))
      && (forall id | id in subs :: 0 < id <= |all|)
    }

    ghost predicate Valid()
      reads this`buf, this`output, this`subID, this`subs, this`all, this`infos, all
    {
      SubsOk() && buf == Last(output, bufLimit)
    }

    ghost function Views(): (v: seq<M.Viewer>)
      requires |all| == |infos|
      reads this`all, this`infos, all
      ensures |v| == |all|
    {
      ViewsOf(all, infos)
    }

    static ghost function ViewsOf(chans: seq<Chan<Bytes>>, infos: seq<Info>): (v: seq<M.Viewer>)
      requires |chans| == |infos|
      reads chans
      ensures |v| == |chans|
    {
      seq(|chans|, i requires 0 <= i < |chans| reads chans => ViewOf(chans[i], infos[i]))
    }

    ghost function View(): M.Shell
      requires |all| == |infos|
      reads this`output, this`all, this`infos, all
    {
      M.Shell(bufLimit, output, Views())
    }

    constructor (limit: nat)
      ensures Valid() && View() == M.Shell(limit, [], []) && all == []
    {
      buf, bufLimit, subID, subs := [], limit, 0, map[];
      output, all, infos := [], [], [];
    }

    /** A step that touched only the k-th channel, its map entry and its history. */
    lemma OthersUntouched(k: nat, before: seq<M.Viewer>, subsBefore: map<nat, Chan<Bytes>>)
      requires subID == |all| == |infos| == |before| && k < |all|
      requires forall i, j | 0 <= i < j < |all| :: all[i] != all[j]
      requires forall i | 0 <= i < |all| && i != k :: ViewOf(all[i], infos[i]) == before[i]
      requires forall i | 0 <= i < |all| && i + 1 in subsBefore :: subsBefore[i + 1] == all[i] && before[i].open
      requires forall i | 0 <= i < |all| && i + 1 !in subsBefore :: !before[i].open
      requires forall id | id in subsBefore :: 0 < id <= |all|
      requires subs == subsBefore || subs == subsBefore - {k + 1}
      requires SubOk(k)
      ensures SubsOk()
      ensures Views() == before[k := ViewOf(all[k], infos[k])]
    {
      forall i | 0 <= i < |all| ensures SubOk(i) {
        assert i != k ==> ViewOf(all[i], infos[i]).open == before[i].open;
      }
    }

    lemma LiveChannels()
      requires SubsOk()
      ensures forall i | 0 <= i < |all| && i + 1 in subs :: subs[i + 1] == all[i] && Views()[i].open
      ensures forall i | 0 <= i < |all| && i + 1 !in subs :: !Views()[i].open
    {
      forall i | 0 <= i < |all| ensures SubOk(i) && ViewOf(all[i], infos[i]) == Views()[i] {
      }
    }

    lemma LiveAreOpen()
      requires SubsOk()
      ensures forall i | 0 <= i < |all| :: Views()[i].open <==> i + 1 in subs
      ensures forall id | id in subs :: 0 < id <= |all| && subs[id] in all
    {
      forall i | 0 <= i < |all| ensures Views()[i].open <==> i + 1 in subs {
        assert SubOk(i);
      }
      forall id | id in subs ensures subs[id] in all {
        assert SubOk(id - 1);
      }
    }

    /** One round of the fan-out: hand the chunk over, or drop the viewer. */
    method HandOne(id: nat, ch: Chan<Bytes>, chunk: Bytes)
      requires SubsOk() && id in subs && subs[id] == ch
      modifies this`subs, this`infos, ch
      ensures SubsOk() && 0 < id <= |all| == |infos|
      ensures subs == old(subs) || subs == old(subs) - {id}
      ensures Views() == old(Views())[id - 1 := M.Hand(old(Views())[id - 1], chunk)]
    {
      LiveChannels();
      ghost var before := Views();
      ghost var k := id - 1;
      assert SubOk(k);
      var ok := ch.TrySend(chunk);
      if ok {
        infos := infos[k := infos[k].(upTo := infos[k].upTo + |chunk|)];
      } else {
        subs := subs - {id};
        ch.Close();
      }
      assert forall i | 0 <= i < |all| && i != k :: all[i] != all[k];
      OthersUntouched(k, before, old(subs));
    }

    /** The reader's critical section for one chunk read from the terminal. */
    method OnRead(chunk: Bytes)
      requires Valid()
      modifies this`buf, this`output, this`subs, this`infos, all
      ensures Valid()
      ensures View() == M.Happen(old(View()), M.Output(chunk))
    {
      M.TrimmedIsLast(output, chunk, bufLimit);
      buf := buf + chunk;
      if |buf| > bufLimit {
        buf := buf[|buf| - bufLimit..];
      }
      output := output + chunk;
      assert buf == Last(output, bufLimit);
      hide Last, SubsOk;
      FanOut(chunk);
    }

    /** The fan-out loop with the viewers in left still to be served. */
    ghost predicate FanningOut(before: seq<M.Viewer>, chunk: Bytes, left: set<nat>)
      reads this`subID, this`subs, this`all, this`infos, all
    {
      SubsOk() && left <= subs.Keys && Views() == HandedBut(before, chunk, left)
    }

    method FanRound(chunk: Bytes, ghost before: seq<M.Viewer>, ghost left: set<nat>, id: nat)
      requires FanningOut(before, chunk, left) && id in left && id in subs
      modifies this`subs, this`infos, all
      ensures FanningOut(before, chunk, left - {id})
    {
      LiveAreOpen();
      hide SubsOk;
      HandNext(before, chunk, left, id);
      HandOne(id, subs[id], chunk);
    }

    method FanOut(chunk: Bytes)
      requires SubsOk()
      modifies this`subs, this`infos, all
      ensures SubsOk()
      ensures Views() == M.HandAll(old(Views()), chunk)
    {
      ghost var before := Views();
      FanStarts(chunk);
      var left := subs.Keys;
      hide SubsOk, FanningOut;
      while left != {}
        invariant FanningOut(before, chunk, left)
        decreases |left|
      {
        var id :| id in left;
        InSubs(before, chunk, left, id);
        FanRound(chunk, before, left, id);
        left := left - {id};
      }
      FanEnds(before, chunk);
    }

    lemma FanStarts(chunk: Bytes)
      requires SubsOk()
      ensures FanningOut(Views(), chunk, subs.Keys)
    {
      LiveAreOpen();
      assert HandedBut(Views(), chunk, subs.Keys) == Views();
    }

    lemma InSubs(before: seq<M.Viewer>, chunk: Bytes, left: set<nat>, id: nat)
      requires FanningOut(before, chunk, left) && id in left
      ensures id in subs
    {
    }

    lemma FanEnds(before: seq<M.Viewer>, chunk: Bytes)
      requires FanningOut(before, chunk, {})
      ensures SubsOk() && Views() == M.HandAll(before, chunk)
    {
      assert HandedBut(before, chunk, {}) == M.HandAll(before, chunk);
    }

    static ghost function HandedBut(before: seq<M.Viewer>, chunk: Bytes, left: set<nat>): (v: seq<M.Viewer>)
      ensures |v| == |before|
    {
      seq(|before|, i requires 0 <= i < |before| => if i + 1 in left then before[i] else M.Hand(before[i], chunk))
    }

    static lemma HandNext(before: seq<M.Viewer>, chunk: Bytes, left: set<nat>, id: nat)
      requires id in left && 0 < id <= |before|
      ensures HandedBut(before, chunk, left)[id - 1 := M.Hand(before[id - 1], chunk)]
           == HandedBut(before, chunk, left - {id})
    {
    }

    method Subscribe(chanCap: int) returns (id: nat, ch: Chan<Bytes>, scrollback: Bytes)
      requires Valid()
      modifies this`subID, this`subs, this`all, this`infos
      ensures Valid() && fresh(ch) && all == old(all) + [ch] && id == |all|
      ensures scrollback == M.Scrollback(old(View())) && ch.cap == if chanCap <= 0 then 64 else chanCap
      ensures |scrollback| == (if |output| < bufLimit then |output| else bufLimit) && scrollback == output[|output| - |scrollback|..]
      ensures View() == M.Happen(old(View()), M.Join(chanCap))
    {
      LastReads(output, bufLimit);
      hide Last;
      ghost var before := Views();
      var cap: nat := if chanCap <= 0 then 64 else chanCap;
      subID := subID + 1;
      id := subID;
      ch := new Chan<Bytes>(cap);
      scrollback := buf;
      subs := subs[id := ch];
      all := all + [ch];
      infos := infos + [Info(scrollback, |output| - |scrollback|, |output|)];
      forall i | 0 <= i < |all| ensures SubOk(i) {
        assert i < |old(all)| ==> old(SubOk(i));
      }
      assert Views() == before + [ViewOf(ch, infos[|infos| - 1])];
    }

    /** Closes one live channel and forgets it; it cannot have been closed before. */
    method Detach(id: nat, ch: Chan<Bytes>)
      requires SubsOk() && id in subs && subs[id] == ch
      modifies this`subs, ch`closed
      ensures SubsOk() && 0 < id <= |all| && subs == old(subs) - {id}
      ensures Views() == old(Views())[id - 1 := old(Views())[id - 1].(open := false)]
    {
      LiveChannels();
      ghost var before := Views();
      ghost var k := id - 1;
      assert SubOk(k);
      subs := subs - {id};
      ch.Close();
      assert forall i | 0 <= i < |all| && i != k :: all[i] != all[k];
      OthersUntouched(k, before, old(subs));
    }

    method Unsubscribe(id: nat)
      requires Valid()
      modifies this`subs, all
      ensures Valid() && id !in subs
      ensures View() == if 0 < id <= |all| then M.Happen(old(View()), M.Leave(id - 1)) else old(View())
    {
      LiveAreOpen();
      if id in subs {
        Detach(id, subs[id]);
      }
    }

    /** The teardown loop with the viewers still in the map to be closed. */
    ghost predicate Closing(before: seq<M.Viewer>)
      reads this`subID, this`subs, this`all, this`infos, all
    {
      SubsOk() && Views() == ShutBut(before, subs.Keys)
    }

    method CloseRound(ghost before: seq<M.Viewer>, id: nat)
      requires Closing(before) && id in subs
      modifies this`subs, all
      ensures Closing(before) && subs == old(subs) - {id}
    {
      LiveAreOpen();
      hide SubsOk;
      ghost var live := subs.Keys;
      Detach(id, subs[id]);
      assert ShutBut(before, live)[id - 1 := before[id - 1].(open := false)] == ShutBut(before, live - {id});
    }

    lemma CloseStarts()
      requires SubsOk()
      ensures Closing(Views())
    {
      LiveAreOpen();
      assert ShutBut(Views(), subs.Keys) == Views();
    }

    lemma CloseEnds(before: seq<M.Viewer>)
      requires Closing(before) && subs == map[]
      ensures SubsOk() && Views() == M.Shut(before)
    {
      assert ShutBut(before, {}) == M.Shut(before);
    }

    /** The subscriber teardown once the process has exited. */
    method Reap()
      requires Valid()
      modifies this`subs, all
      ensures Valid() && subs == map[]
      ensures View() == M.Happen(old(View()), M.Exit)
    {
      ghost var before := Views();
      CloseStarts();
      hide SubsOk, Closing;
      while subs != map[]
        invariant Closing(before)
        decreases |subs|
      {
        var id :| id in subs;
        CloseRound(before, id);
      }
      CloseEnds(before);
    }

    static ghost function ShutBut(before: seq<M.Viewer>, left: set<nat>): (v: seq<M.Viewer>)
      ensures |v| == |before|
    {
      seq(|before|, i requires 0 <= i < |before| => if i + 1 in left then before[i] else before[i].(open := false))
    }
  }
}
