/** The rigctld server as a machine of atomic steps: an I/O thread that accepts, receives,
    splits lines and writes replies, and a main loop that takes requests and answers them. */
module Rigctld {
  import opened Basics
  import opened LineSplit
  import opened Sockets
  import opened SocketTrace

  const MAX_CLIENTS := 16
  const MAX_CHUNK := 4096
  const MAX_BUFFER := 64 * 1024

  type Id = nat

  datatype Slot = Slot(fd: Option<Handle>, recvBuf: Bytes, id: Id)

  const FREE_SLOT := Slot(None, [], 0)

  /** A request line or a reply text, tagged with its connection. */
  datatype Tagged = Tagged(id: Id, text: Bytes)

  /** What became of a reply: how many socket calls had been made by then, how many bytes a socket
      would have taken, and what its own took of it, if it was written at all. */
  datatype Fate = Fate(reply: Tagged, at: nat, room: nat, took: Option<Bytes>)

  /** Everything that has happened, for stating properties only. */
  datatype History = History(
    opening: map<Id, nat>,    // the socket call that accepted each connection
    input: map<Id, Bytes>,    // bytes split into lines, by connection
    refused: map<Id, Bytes>,  // the chunk that met the size cap, by connection
    pushed: seq<Tagged>,      // request lines queued
    popped: seq<Tagged>,      // request lines taken by the main loop
    issued: seq<Tagged>,      // replies queued by the main loop
    fates: seq<Fate>          // replies dealt with by the I/O thread
  )

  datatype World = World(
    slots: seq<Slot>,
    nextId: Id,
    clientCount: int,
    recvQueue: seq<Tagged>,
    sendQueue: seq<Tagged>,
    local: seq<Tagged>,
    calls: Trace,             // socket calls of the I/O thread, for stating properties
    hist: History
  )

  const START := World(
    seq(MAX_CLIENTS, _ => FREE_SLOT), 1, 0, [], [], [], [], History(map[], map[], map[], [], [], [], []))

  // ---------------------------------------------------------------- steps

  function Fd(slot: Slot): Option<Handle> {
    slot.fd
  }

  /** A new connection takes the first free slot and a fresh id; with none free it is closed. */
  function Accept(w: World, h: Handle): World {
    var i := FirstFree(w.slots, Fd);
    if i == |w.slots| then w.(calls := w.calls + [Opened(h)] + [Closed(h)])
    else w.(
      slots := w.slots[i := Slot(Some(h), [], w.nextId)],
      nextId := w.nextId + 1,
      clientCount := w.clientCount + 1,
      calls := w.calls + [Opened(h)],
      hist := w.hist.(opening := w.hist.opening[w.nextId := |w.calls|], input := w.hist.input[w.nextId := []]))
  }

  function CloseSlot(w: World, i: nat): World
    requires i < |w.slots| && w.slots[i].fd.Some?
  {
    w.(slots := w.slots[i := FREE_SLOT],
       clientCount := w.clientCount - 1,
       calls := w.calls + [Closed(w.slots[i].fd.value)])
  }

  function TagAll(id: Id, lines: seq<Bytes>): (r: seq<Tagged>)
    ensures |r| == |lines|
  {
    seq(|lines|, k requires 0 <= k < |lines| => Tagged(id, lines[k]))
  }

  /** A chunk has been received that fits the buffer. */
  function SplitChunk(w: World, i: nat, chunk: Bytes): World
    requires i < |w.slots|
  {
    var slot := w.slots[i];
    var buf := slot.recvBuf + chunk;
    var lines := TagAll(slot.id, Lines(buf));
    var sofar := if slot.id in w.hist.input then w.hist.input[slot.id] else [];
    w.(slots := w.slots[i := slot.(recvBuf := Tail(buf))],
       recvQueue := w.recvQueue + lines,
       hist := w.hist.(pushed := w.hist.pushed + lines, input := w.hist.input[slot.id := sofar + chunk]))
  }

  /** A chunk has been received that does not. */
  function RefuseChunk(w: World, i: nat, chunk: Bytes): World
    requires i < |w.slots| && w.slots[i].fd.Some?
  {
    var v := CloseSlot(w, i);
    v.(hist := v.hist.(refused := v.hist.refused[w.slots[i].id := chunk]))
  }

  function Receive(w: World, i: nat, event: Event): World
    requires i < |w.slots|
  {
    if w.slots[i].fd == None then w
    else match event
      case Quiet => w
      case HangUp => CloseSlot(w, i)
      case RecvFailed => CloseSlot(w, i)
      case Received(chunk) =>
        var v := w.(calls := w.calls + [Read(w.slots[i].fd.value, chunk)]);
        if |w.slots[i].recvBuf + chunk| > MAX_BUFFER then RefuseChunk(v, i, chunk) else SplitChunk(v, i, chunk)
  }

  /** Take the whole send queue for writing. */
  function Swap(w: World): World {
    if |w.local| > 0 then w else w.(local := w.sendQueue, sendQueue := [])
  }

  function FindSlot(slots: seq<Slot>, id: Id): (i: nat)
    ensures i <= |slots| && (i < |slots| ==> slots[i].fd.Some? && slots[i].id == id)
    ensures forall k | 0 <= k < i :: slots[k].fd == None || slots[k].id != id
  {
    if |slots| == 0 || (slots[0].fd.Some? && slots[0].id == id) then 0 else 1 + FindSlot(slots[1..], id)
  }

  /** The first `taken` bytes of a text, or all of it. */
  function Accepted(text: Bytes, taken: nat): (data: Bytes)
    ensures data <= text
  {
    if taken < |text| then text[..taken] else text
  }

  /** Write the oldest reply taken to the slot that has its id; `taken` bytes is what the socket
      accepts before it fails, if it does. */
  function Settle(w: World, taken: nat): World {
    if |w.local| == 0 then w
    else
      var reply, i := w.local[0], FindSlot(w.slots, w.local[0].id);
      if i == |w.slots| then
        w.(local := w.local[1..], hist := w.hist.(fates := w.hist.fates + [Fate(reply, |w.calls|, taken, None)]))
      else
        var data := Accepted(reply.text, taken);
        w.(local := w.local[1..],
           calls := w.calls + [Wrote(w.slots[i].fd.value, data)],
           hist := w.hist.(fates := w.hist.fates + [Fate(reply, |w.calls|, taken, Some(data))]))
  }

  /** The main loop takes the oldest request. */
  function Pop(w: World): World {
    if |w.recvQueue| == 0 then w
    else w.(recvQueue := w.recvQueue[1..], hist := w.hist.(popped := w.hist.popped + [w.recvQueue[0]]))
  }

  function SendReply(w: World, reply: Tagged): World {
    w.(sendQueue := w.sendQueue + [reply], hist := w.hist.(issued := w.hist.issued + [reply]))
  }

  /** The clean-up after the loop. */
  function CloseAll(w: World, n: nat): (v: World)
    requires n <= |w.slots|
    ensures |v.slots| == |w.slots| && forall k | n <= k < |w.slots| :: v.slots[k] == w.slots[k]
    ensures v == w.(slots := v.slots, calls := v.calls)
  {
    if n == 0 then w
    else
      var v := CloseAll(w, n - 1);
      if v.slots[n - 1].fd == None then v
      else v.(slots := v.slots[n - 1 := v.slots[n - 1].(fd := None)],
              calls := v.calls + [Closed(v.slots[n - 1].fd.value)])
  }

  // ---------------------------------------------------------------- runs

  datatype Action =
    | DoAccept(h: Handle)
    | DoReceive(i: nat, event: Event)
    | DoSwap
    | DoSettle(taken: nat)
    | DoPop
    | DoReply(id: Id, text: Bytes)

  /** One step of either thread. The kernel hands out only handles not in use; it may well hand out
      one that was in use before. */
  function Step(w: World, a: Action): World {
    match a
    case DoAccept(h) => if Conn(w.calls, h).Some? then w else Accept(w, h)
    case DoReceive(i, event) => if i < |w.slots| then Receive(w, i, event) else w
    case DoSwap => Swap(w)
    case DoSettle(taken) => Settle(w, taken)
    case DoPop => Pop(w)
    case DoReply(id, text) => SendReply(w, Tagged(id, text))
  }

  function Run(w: World, actions: seq<Action>): World
    decreases |actions|
  {
    if |actions| == 0 then w else Run(Step(w, actions[0]), actions[1..])
  }

  lemma {:induction false} RunSnoc(w: World, a: seq<Action>, x: Action)
    ensures Run(w, a + [x]) == Step(Run(w, a), x)
    decreases |a|
  {
    hide Step;
    if |a| == 0 {
      assert a + [x] == [x];
    } else {
      assert (a + [x])[1..] == a[1..] + [x];
      RunSnoc(Step(w, a[0]), a[1..], x);
    }
  }
}
