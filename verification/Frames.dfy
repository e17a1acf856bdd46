/** Session frames with their payload already decoded (internal/stream/frame.go). */
module Frames {

  /** What the chat projections read of a frame; every other kind is Other. */
  datatype Body =
    | TextDelta(role: string, text: string)
    | ToolStart(tool: string, useId: string)
    | ToolResult(resultId: string, isError: bool, durationMs: int)
    | Stop(reason: string, stopMs: int)
    | Other(kind: string)

  datatype Frame = Frame(seqNo: nat, body: Body)

  ghost predicate Increasing(fs: seq<Frame>) {
    forall i, j | 0 <= i < j < |fs| :: fs[i].seqNo < fs[j].seqNo
  }

  /** The frames after a cursor, in order. */
  function After(fs: seq<Frame>, from: nat): seq<Frame> {
    if fs == [] then []
    else (if fs[0].seqNo > from then [fs[0]] else []) + After(fs[1..], from)
  }

  lemma AfterSnoc(fs: seq<Frame>, f: Frame, from: nat)
    ensures After(fs + [f], from) == After(fs, from) + (if f.seqNo > from then [f] else [])
  {
    AfterAppend(fs, [f], from);
    assert After([f], from) == (if f.seqNo > from then [f] else []) + After([], from);
  }

  lemma {:induction false} AfterAppend(fs: seq<Frame>, gs: seq<Frame>, from: nat)
    ensures After(fs + gs, from) == After(fs, from) + After(gs, from)
  {
    if fs == [] {
      assert fs + gs == gs;
    } else {
      assert (fs + gs)[1..] == fs[1..] + gs;
      AfterAppend(fs[1..], gs, from);
    }
  }

  lemma {:induction false} AfterAll(fs: seq<Frame>, from: nat)
    requires forall f | f in fs :: f.seqNo > from
    ensures After(fs, from) == fs
  {
    if fs != [] {
      AfterAll(fs[1..], from);
    }
  }

  lemma {:induction false} AfterNone(fs: seq<Frame>, from: nat)
    requires forall f | f in fs :: f.seqNo <= from
    ensures After(fs, from) == []
  {
    if fs != [] {
      AfterNone(fs[1..], from);
    }
  }

  /** In an increasing list the frames after a cursor are a suffix, cut where the seqs pass it. */
  lemma {:induction false} AfterIsSuffix(fs: seq<Frame>, from: nat)
    requires Increasing(fs)
    ensures |After(fs, from)| <= |fs| && After(fs, from) == fs[|fs| - |After(fs, from)|..]
    ensures forall i | 0 <= i < |fs| :: fs[i].seqNo > from <==> i >= |fs| - |After(fs, from)|
  {
    if fs != [] {
      if fs[0].seqNo > from {
        forall f | f in fs ensures f.seqNo > from {
          var i :| 0 <= i < |fs| && fs[i] == f;
        }
        AfterAll(fs, from);
      } else {
        AfterIsSuffix(fs[1..], from);
        assert After(fs, from) == [] + After(fs[1..], from) == After(fs[1..], from);
        Shifted(fs, After(fs[1..], from), from);
      }
    }
  }

  lemma Shifted(fs: seq<Frame>, tail: seq<Frame>, from: nat)
    requires fs != [] && fs[0].seqNo <= from && |tail| < |fs| && tail == fs[1..][|fs| - 1 - |tail|..]
    requires forall i | 0 <= i < |fs| - 1 :: fs[1..][i].seqNo > from <==> i >= |fs| - 1 - |tail|
    ensures tail == fs[|fs| - |tail|..]
    ensures forall i | 0 <= i < |fs| :: fs[i].seqNo > from <==> i >= |fs| - |tail|
  {
    forall i | 0 <= i < |fs| ensures fs[i].seqNo > from <==> i >= |fs| - |tail| {
      if i > 0 {
        assert fs[i] == fs[1..][i - 1];
      }
    }
  }
}
