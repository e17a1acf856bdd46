/** Go's buffered channels: bounded queues that panic when misused. */
module Channels {

  datatype Received<+T> = Item(value: T) | Empty | AtEnd

  class Chan<T> {
    const cap: nat
    var queue: seq<T>
    var closed: bool
    ghost var got: seq<T>              // everything received so far

    constructor (cap: nat)
      ensures this.cap == cap && queue == [] && !closed && got == []
    {
      this.cap := cap;
      queue, closed, got := [], false, [];
    }

    /** select with a send and a default branch; sending on a closed channel panics. */
    method TrySend(x: T) returns (ok: bool)
      requires !closed
      modifies this`queue
      ensures ok <==> |old(queue)| < cap
      ensures queue == if ok then old(queue) + [x] else old(queue)
    {
      ok := |queue| < cap;
      if ok {
        queue := queue + [x];
      }
    }

    /** Closing a closed channel panics. */
    method Close()
      requires !closed
      modifies this`closed
      ensures closed
    {
      closed := true;
    }

    /** A closed channel still hands out what it holds. */
    method Receive() returns (r: Received<T>)
      modifies this`queue, this`got
      ensures old(queue) != [] ==> r == Item(old(queue)[0]) && queue == old(queue)[1..] && got == old(got) + [old(queue)[0]]
      ensures old(queue) == [] ==> r == (if closed then AtEnd else Empty) && queue == [] && got == old(got)
    {
      if queue == [] {
        return if closed then AtEnd else Empty;
      }
      r := Item(queue[0]);
      got := got + [queue[0]];
      queue := queue[1..];
    }
  }
}
