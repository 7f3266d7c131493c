/** What an I/O thread does to its sockets, call by call, and the connections this makes up: handle
    numbers are reused, so a connection is the position at which its handle was accepted. */
module SocketTrace {
  import opened Basics
  import opened Sockets

  datatype Call =
    | Opened(h: Handle)
    | Closed(h: Handle)
    | Read(h: Handle, data: Bytes)    // bytes received
    | Wrote(h: Handle, data: Bytes)   // bytes the socket took

  type Trace = seq<Call>

  /** The connection a handle stands for after a trace, if it is open. */
  function Conn(calls: Trace, h: Handle): (k: Option<nat>)
    ensures k.Some? ==> k.value < |calls| && calls[k.value] == Opened(h)
  {
    if |calls| == 0 then None
    else
      var last := calls[|calls| - 1];
      if last == Opened(h) then Some(|calls| - 1)
      else if last == Closed(h) then None
      else Conn(calls[..|calls| - 1], h)
  }

  /** Connection `k` is open: its handle has been neither closed nor opened anew since. */
  predicate Up(calls: Trace, k: nat) {
    k < |calls| && calls[k].Opened? && Conn(calls, calls[k].h) == Some(k)
  }

  /** That is just what it says: no later call closes or reopens the handle. */
  lemma {:induction false} UpIs(calls: Trace, k: nat)
    requires k < |calls| && calls[k].Opened?
    ensures Up(calls, k)
            <==> forall p | k < p < |calls| :: calls[p] != Closed(calls[k].h) && calls[p] != Opened(calls[k].h)
    decreases |calls|
  {
    if k < |calls| - 1 {
      UpIs(calls[..|calls| - 1], k);
    }
  }

  /** Everything received on connection `k`, and everything written. */
  function ReadOn(calls: Trace, k: nat): Bytes {
    if |calls| == 0 then []
    else
      var before, last := calls[..|calls| - 1], calls[|calls| - 1];
      ReadOn(before, k) + if last.Read? && Conn(before, last.h) == Some(k) then last.data else []
  }

  function WrittenOn(calls: Trace, k: nat): Bytes {
    if |calls| == 0 then []
    else
      var before, last := calls[..|calls| - 1], calls[|calls| - 1];
      WrittenOn(before, k) + if last.Wrote? && Conn(before, last.h) == Some(k) then last.data else []
  }

  // ---------------------------------------------------------------- one more call

  lemma ConnNext(calls: Trace, c: Call, h: Handle)
    ensures Conn(calls + [c], h)
            == if c == Opened(h) then Some(|calls|) else if c == Closed(h) then None else Conn(calls, h)
  {
    assert (calls + [c])[..|calls|] == calls;
  }

  lemma OnNext(calls: Trace, c: Call, k: nat)
    ensures ReadOn(calls + [c], k)
            == ReadOn(calls, k) + if c.Read? && Conn(calls, c.h) == Some(k) then c.data else []
    ensures WrittenOn(calls + [c], k)
            == WrittenOn(calls, k) + if c.Wrote? && Conn(calls, c.h) == Some(k) then c.data else []
  {
    assert (calls + [c])[..|calls|] == calls;
  }

  /** Nothing happens on a connection before it is opened. */
  lemma {:induction false} NotYet(calls: Trace, k: nat)
    requires |calls| <= k
    ensures ReadOn(calls, k) == [] && WrittenOn(calls, k) == []
    decreases |calls|
  {
    if |calls| > 0 {
      NotYet(calls[..|calls| - 1], k);
    }
  }
}
