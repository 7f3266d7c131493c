/** Sockets as the poll loops see them: opaque handles, and what one poll reports about each. */
module Sockets {
  import opened Basics

  type Handle = nat

  /** Nothing to do, a hang-up or error condition, a failed or empty read, or data. */
  datatype Event = Quiet | HangUp | RecvFailed | Received(data: Bytes)

  /** The first slot that holds no handle. */
  function FirstFree<T>(slots: seq<T>, fd: T -> Option<Handle>): (i: nat)
    ensures i <= |slots| && (i < |slots| ==> fd(slots[i]) == None)
    ensures forall k | 0 <= k < i :: fd(slots[k]).Some?
  {
    if |slots| == 0 || fd(slots[0]) == None then 0 else 1 + FirstFree(slots[1..], fd)
  }

  lemma {:induction false} FirstFreeIs<T>(slots: seq<T>, fd: T -> Option<Handle>, i: nat)
    requires i <= |slots| && (forall k | 0 <= k < i :: fd(slots[k]).Some?) && (i < |slots| ==> fd(slots[i]) == None)
    ensures FirstFree(slots, fd) == i
  {
    if i > 0 {
      FirstFreeIs(slots[1..], fd, i - 1);
    }
  }
}
