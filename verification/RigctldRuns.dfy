/** What every run of the rigctld server keeps, however its two threads' steps interleave, and what
    that means for each connection. */
module RigctldRuns {
  import opened Basics
  import opened LineSplit
  import opened Rigctld
  import opened Sockets
  import opened SocketTrace

  // ---------------------------------------------------------------- invariant

  predicate Occupied(w: World, i: nat) {
    i < |w.slots| && w.slots[i].fd.Some?
  }

  predicate Live(w: World, id: Id) {
    exists i | 0 <= i < |w.slots| :: w.slots[i].fd.Some? && w.slots[i].id == id
  }

  predicate HoldsHandle(w: World, h: Handle) {
    exists i | 0 <= i < |w.slots| :: w.slots[i].fd == Some(h)
  }

  function CountOccupied(slots: seq<Slot>, n: nat): nat
    requires n <= |slots|
  {
    if n == 0 then 0 else CountOccupied(slots, n - 1) + if slots[n - 1].fd.Some? then 1 else 0
  }

  /** The part of a tagged sequence that concerns one connection. */
  function Of(tagged: seq<Tagged>, id: Id): seq<Bytes> {
    if |tagged| == 0 then []
    else
      var before, last := Of(tagged[..|tagged| - 1], id), tagged[|tagged| - 1];
      if last.id == id then before + [last.text] else before
  }

  function Replies(fates: seq<Fate>): (r: seq<Tagged>)
    ensures |r| == |fates|
  {
    seq(|fates|, k requires 0 <= k < |fates| => fates[k].reply)
  }

  /** What the socket took of the replies to one connection. */
  function Taken(fates: seq<Fate>, id: Id): Bytes {
    if |fates| == 0 then []
    else
      var before, last := Taken(fates[..|fates| - 1], id), fates[|fates| - 1];
      if last.reply.id == id && last.took.Some? then before + last.took.value else before
  }

  /** Connection bookkeeping: ids are fresh and distinct, and the count is exact. */
  ghost predicate Connections(w: World) {
    && |w.slots| == MAX_CLIENTS
    && w.nextId >= 1
    && w.clientCount == CountOccupied(w.slots, |w.slots|)
    && (forall i | 0 <= i < |w.slots| && w.slots[i].fd.Some? :: 0 < w.slots[i].id < w.nextId)
    && (forall i, j | 0 <= i < j < |w.slots| && w.slots[i].fd.Some? && w.slots[j].fd.Some? ::
          w.slots[i].id != w.slots[j].id && w.slots[i].fd != w.slots[j].fd)
  }

  /** Ids name connections one to one, each slot's handle stands for the connection of the slot's id,
      and no other handle is open. */
  ghost predicate Handles(w: World) {
    var opening := w.hist.opening;
    && (forall id | id in opening ::
          0 < id < w.nextId && opening[id] < |w.calls| && w.calls[opening[id]].Opened?)
    && (forall id, id' | id in opening && id' in opening && opening[id] == opening[id'] :: id == id')
    && (forall i | 0 <= i < |w.slots| && w.slots[i].fd.Some? ::
          w.slots[i].id in opening && Conn(w.calls, w.slots[i].fd.value) == Some(opening[w.slots[i].id]))
    && (forall h: Handle | Conn(w.calls, h).Some? :: HoldsHandle(w, h))
  }

  /** Request lines are queued in order, those of each connection's input and no others. */
  ghost predicate Queued(w: World) {
    var hist := w.hist;
    && hist.pushed == hist.popped + w.recvQueue
    && (forall r | r in hist.pushed :: r.id in hist.opening)
    && hist.input.Keys == hist.opening.Keys && hist.refused.Keys <= hist.opening.Keys
    && (forall id | id in hist.input :: Of(hist.pushed, id) == Lines(hist.input[id]))
  }

  /** The bytes received on a connection are its input and a chunk that met the cap, if one did. */
  ghost predicate AllReceived(w: World)
    requires w.hist.input.Keys == w.hist.opening.Keys && w.hist.refused.Keys <= w.hist.opening.Keys
  {
    var hist := w.hist;
    forall id | id in hist.opening ::
      ReadOn(w.calls, hist.opening[id]) == hist.input[id] + if id in hist.refused then hist.refused[id] else []
  }

  /** What does not make a line yet waits in the slot's buffer, and a refused chunk did not fit there. */
  ghost predicate Buffered(w: World)
    requires w.hist.input.Keys == w.hist.opening.Keys && w.hist.refused.Keys <= w.hist.opening.Keys
  {
    var hist := w.hist;
    && (forall i | 0 <= i < |w.slots| && w.slots[i].fd.Some? ::
          w.slots[i].id in hist.input && w.slots[i].id !in hist.refused
          && w.slots[i].recvBuf == Tail(hist.input[w.slots[i].id]))
    && (forall id | id in hist.refused :: |Tail(hist.input[id]) + hist.refused[id]| > MAX_BUFFER)
  }

  ghost predicate Requests(w: World) {
    Queued(w) && AllReceived(w) && Buffered(w)
  }

  /** A reply written went out on the very connection its id names, open all the time since; one not
      written found that connection closed, or not yet there. */
  ghost predicate FateRight(f: Fate, calls: Trace, opening: map<Id, nat>) {
    var id := f.reply.id;
    && f.at <= |calls|
    && match f.took
       case Some(data) =>
         && f.at < |calls| && data == Accepted(f.reply.text, f.room) && id in opening && opening[id] < f.at
         && calls[f.at].Wrote? && calls[f.at].data == data
         && Conn(calls[..f.at], calls[f.at].h) == Some(opening[id])
       case None => id in opening && opening[id] < f.at ==> !Up(calls[..f.at], opening[id])
  }

  /** Replies: none is lost from sight, duplicated or reordered, and what was written on a connection
      is what its socket took of its own replies. */
  ghost predicate Answers(w: World) {
    && w.hist.issued == Replies(w.hist.fates) + w.local + w.sendQueue
    && (forall f | f in w.hist.fates :: FateRight(f, w.calls, w.hist.opening))
    && (forall id | id in w.hist.opening ::
          WrittenOn(w.calls, w.hist.opening[id]) == Taken(w.hist.fates, id))
  }

  ghost predicate Inv(w: World) {
    Connections(w) && Handles(w) && Requests(w) && Answers(w)
  }

  // ---------------------------------------------------------------- sequences by connection

  lemma {:induction false} OfConcat(a: seq<Tagged>, b: seq<Tagged>, id: Id)
    ensures Of(a + b, id) == Of(a, id) + Of(b, id)
    decreases |b|
  {
    if |b| == 0 {
      assert a + b == a;
    } else {
      assert (a + b)[..|a + b| - 1] == a + b[..|b| - 1];
      OfConcat(a, b[..|b| - 1], id);
    }
  }

  lemma {:induction false} OfTagAll(tag: Id, lines: seq<Bytes>, id: Id)
    ensures Of(TagAll(tag, lines), id) == if tag == id then lines else []
    decreases |lines|
  {
    if |lines| > 0 {
      assert TagAll(tag, lines)[..|lines| - 1] == TagAll(tag, lines[..|lines| - 1]);
      OfTagAll(tag, lines[..|lines| - 1], id);
      assert lines == lines[..|lines| - 1] + [lines[|lines| - 1]];
    }
  }

  lemma {:induction false} OfNone(tagged: seq<Tagged>, id: Id)
    requires forall r | r in tagged :: r.id != id
    ensures Of(tagged, id) == []
    decreases |tagged|
  {
    if |tagged| > 0 {
      OfNone(tagged[..|tagged| - 1], id);
    }
  }

  lemma {:induction false} TakenNone(fates: seq<Fate>, id: Id)
    requires forall f | f in fates && f.took.Some? :: f.reply.id != id
    ensures Taken(fates, id) == []
    decreases |fates|
  {
    if |fates| > 0 {
      TakenNone(fates[..|fates| - 1], id);
    }
  }

  lemma {:induction false} CountUpdate(slots: seq<Slot>, i: nat, slot: Slot, n: nat)
    requires i < |slots| && n <= |slots|
    ensures CountOccupied(slots[i := slot], n)
            == CountOccupied(slots, n)
               + if i < n then (if slot.fd.Some? then 1 else 0) - (if slots[i].fd.Some? then 1 else 0) else 0
  {
    if n > 0 {
      CountUpdate(slots, i, slot, n - 1);
    }
  }

  // ---------------------------------------------------------------- traces grow

  /** What is known of old replies stays true as calls are made and connections accepted. */
  lemma FatesGrow(fates: seq<Fate>, calls: Trace, opening: map<Id, nat>, calls': Trace, opening': map<Id, nat>)
    requires forall f | f in fates :: FateRight(f, calls, opening)
    requires calls <= calls' && opening.Keys <= opening'.Keys
    requires forall id | id in opening :: opening'[id] == opening[id]
    requires forall id | id in opening' && id !in opening :: opening'[id] >= |calls|
    ensures forall f | f in fates :: FateRight(f, calls', opening')
  {
    forall f | f in fates
      ensures FateRight(f, calls', opening')
    {
      assert FateRight(f, calls, opening);
      assert calls'[..f.at] == calls[..f.at];
    }
  }

  /** Calls that neither open nor close leave every handle where it was. */
  lemma SameConns(calls: Trace, c: Call)
    requires c.Read? || c.Wrote?
    ensures forall h :: Conn(calls + [c], h) == Conn(calls, h)
  {
    forall h: Handle
      ensures Conn(calls + [c], h) == Conn(calls, h)
    {
      ConnNext(calls, c, h);
    }
  }

  lemma SameWritten(calls: Trace, c: Call)
    requires !c.Wrote?
    ensures forall k :: WrittenOn(calls + [c], k) == WrittenOn(calls, k)
  {
    forall k: nat
      ensures WrittenOn(calls + [c], k) == WrittenOn(calls, k)
    {
      OnNext(calls, c, k);
    }
  }

  lemma SameRead(calls: Trace, c: Call)
    requires !c.Read?
    ensures forall k :: ReadOn(calls + [c], k) == ReadOn(calls, k)
  {
    forall k: nat
      ensures ReadOn(calls + [c], k) == ReadOn(calls, k)
    {
      OnNext(calls, c, k);
    }
  }

  /** A slot's connection, and no other slot's, has the slot's id. */
  lemma ConnOfSlot(w: World, i: nat, id: Id)
    requires Connections(w) && Handles(w) && Occupied(w, i) && id in w.hist.opening
    ensures Conn(w.calls, w.slots[i].fd.value) == Some(w.hist.opening[id]) <==> w.slots[i].id == id
  {}

  /** A connection is live exactly while it is open. */
  lemma LiveIsUp(w: World, id: Id)
    requires Handles(w) && id in w.hist.opening
    ensures Live(w, id) <==> Up(w.calls, w.hist.opening[id])
  {
    var k := w.hist.opening[id];
    var h := w.calls[k].h;
    if Up(w.calls, k) {
      assert HoldsHandle(w, h);
      var i :| 0 <= i < |w.slots| && w.slots[i].fd == Some(h);
      assert w.slots[i].id == id;
    }
    hide Conn;
    if Live(w, id) {
      var i :| 0 <= i < |w.slots| && w.slots[i].fd.Some? && w.slots[i].id == id;
      assert Conn(w.calls, w.slots[i].fd.value) == Some(k);
    }
  }

  // ---------------------------------------------------------------- accepting

  /** Full: the handle is opened and closed again, and nothing else changes. */
  lemma TurnedAway(calls: Trace, h: Handle)
    requires Conn(calls, h) == None
    ensures var v := calls + [Opened(h)] + [Closed(h)];
            && (forall g :: Conn(v, g) == Conn(calls, g))
            && (forall k :: ReadOn(v, k) == ReadOn(calls, k) && WrittenOn(v, k) == WrittenOn(calls, k))
  {
    var u := calls + [Opened(h)];
    var v := u + [Closed(h)];
    forall g: Handle
      ensures Conn(v, g) == Conn(calls, g)
    {
      ConnNext(calls, Opened(h), g);
      ConnNext(u, Closed(h), g);
    }
    SameRead(calls, Opened(h));
    SameRead(u, Closed(h));
    SameWritten(calls, Opened(h));
    SameWritten(u, Closed(h));
  }

  /** A world that differs only in calls that leave every connection as it was. */
  ghost predicate SameTraffic(w: World, v: World) {
    && v == w.(calls := v.calls) && w.calls <= v.calls
    && (forall g :: Conn(v.calls, g) == Conn(w.calls, g))
    && (forall k :: ReadOn(v.calls, k) == ReadOn(w.calls, k) && WrittenOn(v.calls, k) == WrittenOn(w.calls, k))
  }

  lemma TrafficHandles(w: World, v: World)
    requires Handles(w) && SameTraffic(w, v)
    ensures Handles(v)
  {
    hide Conn, ReadOn, WrittenOn;
    assert forall h :: HoldsHandle(w, h) == HoldsHandle(v, h);
  }

  lemma TrafficRequests(w: World, v: World)
    requires Requests(w) && SameTraffic(w, v)
    ensures Requests(v)
  {
    hide Conn, ReadOn, WrittenOn, Of, Lines, Tail;
  }

  lemma TrafficAnswers(w: World, v: World)
    requires Answers(w) && SameTraffic(w, v)
    ensures Answers(v)
  {
    hide Conn, ReadOn, WrittenOn, Taken, Replies, FateRight;
    FatesGrow(w.hist.fates, w.calls, w.hist.opening, v.calls, w.hist.opening);
  }

  lemma FullIsSame(w: World, h: Handle)
    requires Conn(w.calls, h) == None && FirstFree(w.slots, Fd) == |w.slots|
    ensures SameTraffic(w, Accept(w, h))
  {
    TurnedAway(w.calls, h);
    hide Conn, ReadOn, WrittenOn;
  }

  lemma FullKeeps(w: World, h: Handle)
    requires Inv(w) && Conn(w.calls, h) == None && FirstFree(w.slots, Fd) == |w.slots|
    ensures Inv(Accept(w, h))
  {
    hide Accept, Handles, Queued, AllReceived, Buffered, Answers, CountOccupied, Conn, ReadOn, WrittenOn, FirstFree;
    FullIsSame(w, h);
    TrafficHandles(w, Accept(w, h));
    TrafficRequests(w, Accept(w, h));
    TrafficAnswers(w, Accept(w, h));
  }

  lemma AcceptConnections(w: World, h: Handle)
    requires Connections(w) && Handles(w) && Conn(w.calls, h) == None
    ensures Connections(Accept(w, h))
  {
    hide CountOccupied, Conn, Handles, FirstFree;
    var i := FirstFree(w.slots, Fd);
    if i < |w.slots| {
      CountUpdate(w.slots, i, Slot(Some(h), [], w.nextId), |w.slots|);
      NotHeld(w, h);
    }
  }

  lemma NotHeld(w: World, h: Handle)
    requires Handles(w) && Conn(w.calls, h) == None
    ensures forall i | 0 <= i < |w.slots| && w.slots[i].fd.Some? :: w.slots[i].fd.value != h
  {
    hide Conn;
  }

  /** A handle accepted and taken in. */
  lemma Opens(calls: Trace, h: Handle)
    ensures forall g :: Conn(calls + [Opened(h)], g) == if g == h then Some(|calls|) else Conn(calls, g)
  {
    forall g: Handle
      ensures Conn(calls + [Opened(h)], g) == if g == h then Some(|calls|) else Conn(calls, g)
    {
      ConnNext(calls, Opened(h), g);
    }
  }

  lemma AcceptHolds(w: World, h: Handle)
    requires Handles(w) && FirstFree(w.slots, Fd) < |w.slots|
    ensures var v := Accept(w, h); forall g: Handle | Conn(v.calls, g).Some? :: HoldsHandle(v, g)
  {
    var i := FirstFree(w.slots, Fd);
    var v := Accept(w, h);
    Opens(w.calls, h);
    hide Conn;
    forall g: Handle | Conn(v.calls, g).Some?
      ensures HoldsHandle(v, g)
    {
      if g == h {
        assert v.slots[i].fd == Some(h);
      } else {
        assert HoldsHandle(w, g);
        var k :| 0 <= k < |w.slots| && w.slots[k].fd == Some(g);
        assert v.slots[k].fd == Some(g);
      }
    }
  }

  lemma AcceptHandles(w: World, h: Handle)
    requires Connections(w) && Handles(w) && Conn(w.calls, h) == None && FirstFree(w.slots, Fd) < |w.slots|
    ensures Handles(Accept(w, h))
  {
    hide CountOccupied, Conn, HoldsHandle, FirstFree;
    Opens(w.calls, h);
    AcceptHolds(w, h);
  }

  lemma NewId(w: World)
    requires Handles(w) && Requests(w) && Answers(w)
    ensures w.nextId !in w.hist.opening && w.nextId !in w.hist.refused
    ensures Of(w.hist.pushed, w.nextId) == [] && Taken(w.hist.fates, w.nextId) == []
  {
    assert w.nextId !in w.hist.opening;
    OfNone(w.hist.pushed, w.nextId);
    forall f | f in w.hist.fates && f.took.Some?
      ensures f.reply.id != w.nextId
    {
      assert FateRight(f, w.calls, w.hist.opening);
    }
    TakenNone(w.hist.fates, w.nextId);
    hide Of, Taken, Conn, ReadOn, WrittenOn, Lines, Tail, Replies;
  }

  lemma AcceptQueued(w: World, h: Handle)
    requires Handles(w) && Requests(w) && Answers(w) && FirstFree(w.slots, Fd) < |w.slots|
    ensures Queued(Accept(w, h))
  {
    hide Of, Lines, Tail, Conn, ReadOn, WrittenOn, Handles, AllReceived, Buffered, Answers;
    NewId(w);
    NothingSplit();
  }

  lemma NothingSplit()
    ensures Lines([]) == [] && Tail([]) == []
  {}

  lemma KeysAgree(w: World)
    requires Queued(w)
    ensures w.hist.input.Keys == w.hist.opening.Keys && w.hist.refused.Keys <= w.hist.opening.Keys
  {
    hide Of, Lines;
  }

  lemma AcceptReceived(w: World, h: Handle)
    requires Handles(w) && Requests(w) && Answers(w) && FirstFree(w.slots, Fd) < |w.slots|
    ensures Queued(Accept(w, h)) && AllReceived(Accept(w, h))
  {
    hide Of, Lines, ReadOn, WrittenOn, Conn, Queued, Buffered, Answers, Tail;
    var v := Accept(w, h);
    NewId(w);
    AcceptQueued(w, h);
    NotYet(w.calls, |w.calls|);
    SameRead(w.calls, Opened(h));
    forall id | id in v.hist.opening
      ensures id in v.hist.input
      ensures ReadOn(v.calls, v.hist.opening[id])
           == v.hist.input[id] + if id in v.hist.refused then v.hist.refused[id] else []
    {
      if id in w.hist.opening {
        ReceivedAt(w, id);
      }
    }
    hide Handles;
    KeysAgree(v);
    AllReceivedIs(v);
  }

  lemma AcceptBuffered(w: World, h: Handle)
    requires Handles(w) && Requests(w) && Answers(w) && FirstFree(w.slots, Fd) < |w.slots|
    ensures Queued(Accept(w, h)) && Buffered(Accept(w, h))
  {
    hide Of, Lines, Tail, Handles, AllReceived, Answers, Conn, ReadOn, WrittenOn;
    NewId(w);
    AcceptQueued(w, h);
    NothingSplit();
    hide Queued;
  }

  lemma AcceptAnswers(w: World, h: Handle)
    requires Handles(w) && Requests(w) && Answers(w) && FirstFree(w.slots, Fd) < |w.slots|
    ensures Answers(Accept(w, h))
  {
    hide Of, Taken, Conn, ReadOn, WrittenOn, Lines, Tail, Replies, FateRight, Queued, AllReceived, Buffered, FirstFree;
    var v := Accept(w, h);
    NewId(w);
    NotYet(w.calls, |w.calls|);
    SameWritten(w.calls, Opened(h));
    FatesGrow(w.hist.fates, w.calls, w.hist.opening, v.calls, v.hist.opening);
  }

  lemma AcceptKeeps(w: World, h: Handle)
    requires Inv(w) && Conn(w.calls, h) == None
    ensures Inv(Accept(w, h))
  {
    hide Connections, Handles, Queued, AllReceived, Buffered, Answers, Conn, Accept;
    if FirstFree(w.slots, Fd) == |w.slots| {
      FullKeeps(w, h);
    } else {
      AcceptConnections(w, h);
      AcceptHandles(w, h);
      AcceptReceived(w, h);
      AcceptBuffered(w, h);
      AcceptAnswers(w, h);
    }
  }

  // ---------------------------------------------------------------- closing

  lemma CloseConnections(w: World, i: nat)
    requires Connections(w) && Occupied(w, i)
    ensures Connections(CloseSlot(w, i))
  {
    CountUpdate(w.slots, i, FREE_SLOT, |w.slots|);
    hide CountOccupied;
  }

  lemma CloseHandles(w: World, i: nat)
    requires Connections(w) && Handles(w) && Occupied(w, i)
    ensures Handles(CloseSlot(w, i))
  {
    var v, h := CloseSlot(w, i), w.slots[i].fd.value;
    forall g: Handle
      ensures Conn(v.calls, g) == if g == h then None else Conn(w.calls, g)
    {
      ConnNext(w.calls, Closed(h), g);
    }
    hide CountOccupied, Conn;
    forall g: Handle | Conn(v.calls, g).Some?
      ensures HoldsHandle(v, g)
    {
      assert HoldsHandle(w, g);
      var k :| 0 <= k < |w.slots| && w.slots[k].fd == Some(g);
      assert v.slots[k].fd == Some(g);
    }
  }

  lemma CloseAnswers(w: World, i: nat)
    requires Answers(w) && Occupied(w, i)
    ensures Answers(CloseSlot(w, i))
  {
    var v := CloseSlot(w, i);
    SameWritten(w.calls, Closed(w.slots[i].fd.value));
    hide WrittenOn, Taken, Replies, FateRight, Conn;
    FatesGrow(w.hist.fates, w.calls, w.hist.opening, v.calls, v.hist.opening);
  }

  lemma CloseReceived(w: World, i: nat)
    requires Queued(w) && AllReceived(w) && Occupied(w, i)
    ensures Queued(CloseSlot(w, i)) && AllReceived(CloseSlot(w, i))
  {
    hide Of, Lines, Tail, ReadOn, Conn;
    SameRead(w.calls, Closed(w.slots[i].fd.value));
  }

  lemma CloseBuffered(w: World, i: nat)
    requires Queued(w) && Buffered(w) && Occupied(w, i)
    ensures Queued(CloseSlot(w, i)) && Buffered(CloseSlot(w, i))
  {
    hide Of, Lines, Tail, ReadOn, Conn;
  }

  // ---------------------------------------------------------------- receiving

  /** A chunk arrives at a slot, whatever becomes of it. */
  function Arrived(w: World, i: nat, chunk: Bytes): World
    requires Occupied(w, i)
  {
    w.(calls := w.calls + [Read(w.slots[i].fd.value, chunk)])
  }

  lemma ArrivedKeeps(w: World, i: nat, chunk: Bytes)
    requires Connections(w) && Handles(w) && Answers(w) && Occupied(w, i)
    ensures Connections(Arrived(w, i, chunk)) && Handles(Arrived(w, i, chunk)) && Answers(Arrived(w, i, chunk))
  {
    hide Conn, WrittenOn, ReadOn, Taken, Replies, FateRight, CountOccupied, HoldsHandle;
    var c := Read(w.slots[i].fd.value, chunk);
    SameConns(w.calls, c);
    SameHolders(w, Arrived(w, i, chunk));
    SameWritten(w.calls, c);
    FatesGrow(w.hist.fates, w.calls, w.hist.opening, w.calls + [c], w.hist.opening);
  }

  /** It is read on the connection of the slot's id, and on no other. */
  lemma ArrivedOn(w: World, i: nat, chunk: Bytes, id: Id)
    requires Connections(w) && Handles(w) && Occupied(w, i) && id in w.hist.opening
    ensures ReadOn(Arrived(w, i, chunk).calls, w.hist.opening[id])
            == ReadOn(w.calls, w.hist.opening[id]) + if id == w.slots[i].id then chunk else []
  {
    OnNext(w.calls, Read(w.slots[i].fd.value, chunk), w.hist.opening[id]);
    ConnOfSlot(w, i, id);
    hide ReadOn, Conn;
  }

  lemma SlotFacts(w: World, i: nat)
    requires Handles(w) && Requests(w) && Occupied(w, i)
    ensures var id := w.slots[i].id;
            && id in w.hist.opening && id in w.hist.input && id !in w.hist.refused
            && w.slots[i].recvBuf == Tail(w.hist.input[id])
            && w.hist.input.Keys == w.hist.opening.Keys && w.hist.refused.Keys <= w.hist.opening.Keys
  {
    hide Of, Lines, Tail, Conn, ReadOn, AllReceived;
  }

  lemma ReceivedAt(w: World, id: Id)
    requires Requests(w) && id in w.hist.opening
    ensures id in w.hist.input
    ensures ReadOn(w.calls, w.hist.opening[id])
            == w.hist.input[id] + if id in w.hist.refused then w.hist.refused[id] else []
  {
    hide Of, Lines, Tail, ReadOn, Buffered;
  }

  lemma RefuseQueued(w: World, i: nat, chunk: Bytes)
    requires Handles(w) && Queued(w) && Occupied(w, i)
    ensures Queued(RefuseChunk(Arrived(w, i, chunk), i, chunk))
  {
    hide Of, Lines, Conn;
  }

  lemma RefuseReceived(w: World, i: nat, chunk: Bytes)
    requires Connections(w) && Handles(w) && Requests(w) && Occupied(w, i)
    ensures var v := RefuseChunk(Arrived(w, i, chunk), i, chunk);
            Queued(v) && AllReceived(v)
  {
    hide Of, Lines, Tail, ReadOn, Conn, CountOccupied, Handles, Connections, Queued, Buffered, AllReceived;
    var u := Arrived(w, i, chunk);
    var v := RefuseChunk(u, i, chunk);
    RefuseQueued(w, i, chunk);
    SlotFacts(w, i);
    SameRead(u.calls, Closed(w.slots[i].fd.value));
    forall id | id in w.hist.opening
      ensures id in v.hist.input
      ensures ReadOn(v.calls, v.hist.opening[id])
           == v.hist.input[id] + if id in v.hist.refused then v.hist.refused[id] else []
    {
      ReceivedAt(w, id);
      ArrivedOn(w, i, chunk, id);
    }
    AllReceivedIs(v);
  }

  lemma AllReceivedIs(w: World)
    requires w.hist.input.Keys == w.hist.opening.Keys && w.hist.refused.Keys <= w.hist.opening.Keys
    requires forall id | id in w.hist.opening ::
               ReadOn(w.calls, w.hist.opening[id])
               == w.hist.input[id] + if id in w.hist.refused then w.hist.refused[id] else []
    ensures AllReceived(w)
  {}

  lemma RefuseBuffered(w: World, i: nat, chunk: Bytes)
    requires Connections(w) && Handles(w) && Requests(w) && Occupied(w, i)
    requires |w.slots[i].recvBuf + chunk| > MAX_BUFFER
    ensures Queued(RefuseChunk(Arrived(w, i, chunk), i, chunk)) && Buffered(RefuseChunk(Arrived(w, i, chunk), i, chunk))
  {
    hide Of, Lines, Tail, Conn, ReadOn, CountOccupied, AllReceived, Handles, Queued;
    RefuseQueued(w, i, chunk);
    KeysAgree(RefuseChunk(Arrived(w, i, chunk), i, chunk));
    KeysAgree(w);
  }

  lemma RefuseKeeps(w: World, i: nat, chunk: Bytes)
    requires Inv(w) && Occupied(w, i) && |w.slots[i].recvBuf + chunk| > MAX_BUFFER
    ensures Inv(RefuseChunk(Arrived(w, i, chunk), i, chunk))
  {
    var u := Arrived(w, i, chunk);
    ArrivedKeeps(w, i, chunk);
    CloseConnections(u, i);
    CloseHandles(u, i);
    CloseAnswers(u, i);
    RefuseReceived(w, i, chunk);
    RefuseBuffered(w, i, chunk);
    var v := RefuseChunk(u, i, chunk);
    SameHistory(CloseSlot(u, i), v);
    hide Connections, Handles, Answers, Queued, AllReceived, Buffered;
  }

  /** Requests aside, the record of chunks split and refused is of no consequence. */
  lemma SameHistory(w: World, v: World)
    requires Connections(w) && Handles(w) && Answers(w)
    requires |w.slots| == |v.slots|
    requires forall i | 0 <= i < |w.slots| :: w.slots[i].fd == v.slots[i].fd && w.slots[i].id == v.slots[i].id
    requires v.nextId == w.nextId && v.clientCount == w.clientCount && v.calls == w.calls
    requires v.sendQueue == w.sendQueue && v.local == w.local && v.hist.opening == w.hist.opening
    requires v.hist.issued == w.hist.issued && v.hist.fates == w.hist.fates
    ensures Connections(v) && Handles(v) && Answers(v)
  {
    SameCount(w.slots, v.slots, |w.slots|);
    SameHolders(w, v);
    hide CountOccupied, HoldsHandle, Conn, WrittenOn, Taken, Replies, FateRight;
  }

  lemma {:induction false} SameCount(a: seq<Slot>, b: seq<Slot>, n: nat)
    requires n <= |a| == |b| && forall i | 0 <= i < n :: a[i].fd == b[i].fd
    ensures CountOccupied(a, n) == CountOccupied(b, n)
  {
    if n > 0 {
      SameCount(a, b, n - 1);
    }
  }

  lemma QueuedAt(w: World, id: Id)
    requires Queued(w) && id in w.hist.opening
    ensures id in w.hist.input && Of(w.hist.pushed, id) == Lines(w.hist.input[id])
  {
    hide Of, Lines;
  }

  lemma SplitQueued(w: World, i: nat, chunk: Bytes)
    requires Connections(w) && Handles(w) && Requests(w) && Occupied(w, i)
    ensures Queued(SplitChunk(Arrived(w, i, chunk), i, chunk))
  {
    hide Of, Lines, Tail, Conn, ReadOn, CountOccupied, AllReceived, Buffered, Handles, Connections;
    var v := SplitChunk(Arrived(w, i, chunk), i, chunk);
    var tag, buf := w.slots[i].id, w.slots[i].recvBuf + chunk;
    SlotFacts(w, i);
    LinesMore(w.hist.input[tag], chunk);
    forall id | id in w.hist.opening
      ensures id in v.hist.input && Of(v.hist.pushed, id) == Lines(v.hist.input[id])
    {
      QueuedAt(w, id);
      OfConcat(w.hist.pushed, TagAll(tag, Lines(buf)), id);
      OfTagAll(tag, Lines(buf), id);
    }
  }

  lemma SplitReceived(w: World, i: nat, chunk: Bytes)
    requires Connections(w) && Handles(w) && Requests(w) && Occupied(w, i)
    ensures var v := SplitChunk(Arrived(w, i, chunk), i, chunk);
            Queued(v) && AllReceived(v)
  {
    hide Of, Lines, Tail, ReadOn, Conn, CountOccupied, Handles, Connections, Queued, Buffered, AllReceived;
    var v := SplitChunk(Arrived(w, i, chunk), i, chunk);
    SplitQueued(w, i, chunk);
    SlotFacts(w, i);
    forall id | id in w.hist.opening
      ensures id in v.hist.input
      ensures ReadOn(v.calls, v.hist.opening[id])
           == v.hist.input[id] + if id in v.hist.refused then v.hist.refused[id] else []
    {
      ReceivedAt(w, id);
      ArrivedOn(w, i, chunk, id);
    }
    AllReceivedIs(v);
  }

  lemma SplitBuffered(w: World, i: nat, chunk: Bytes)
    requires Connections(w) && Handles(w) && Requests(w) && Occupied(w, i)
    ensures var v := SplitChunk(Arrived(w, i, chunk), i, chunk);
            Queued(v) && Buffered(v)
  {
    hide Of, Lines, Tail, Conn, ReadOn, CountOccupied, AllReceived, Handles, Queued;
    SplitQueued(w, i, chunk);
    SlotFacts(w, i);
    LinesMore(w.hist.input[w.slots[i].id], chunk);
  }

  lemma SplitKeeps(w: World, i: nat, chunk: Bytes)
    requires Inv(w) && Occupied(w, i)
    ensures Inv(SplitChunk(Arrived(w, i, chunk), i, chunk))
  {
    hide Connections, Handles, Answers, Queued, AllReceived, Buffered, Lines, Tail;
    var u := Arrived(w, i, chunk);
    ArrivedKeeps(w, i, chunk);
    SplitReceived(w, i, chunk);
    SplitBuffered(w, i, chunk);
    SameHistory(u, SplitChunk(u, i, chunk));
  }

  lemma SameHolders(w: World, v: World)
    requires |w.slots| == |v.slots| && forall i | 0 <= i < |w.slots| :: w.slots[i].fd == v.slots[i].fd
    ensures forall h :: HoldsHandle(w, h) == HoldsHandle(v, h)
  {
    forall h: Handle
      ensures HoldsHandle(w, h) == HoldsHandle(v, h)
    {
      if HoldsHandle(w, h) {
        var i :| 0 <= i < |w.slots| && w.slots[i].fd == Some(h);
        assert v.slots[i].fd == Some(h);
      }
      if HoldsHandle(v, h) {
        var i :| 0 <= i < |v.slots| && v.slots[i].fd == Some(h);
        assert w.slots[i].fd == Some(h);
      }
    }
  }

  lemma DropKeeps(w: World, i: nat)
    requires Inv(w) && Occupied(w, i)
    ensures Inv(CloseSlot(w, i))
  {
    hide Connections, Handles, Queued, AllReceived, Buffered, Answers, CloseSlot;
    CloseConnections(w, i);
    CloseHandles(w, i);
    CloseReceived(w, i);
    CloseBuffered(w, i);
    CloseAnswers(w, i);
  }

  lemma ReceiveKeeps(w: World, i: nat, event: Event)
    requires Inv(w) && i < |w.slots|
    ensures Inv(Receive(w, i, event))
  {
    hide Inv, CloseSlot, SplitChunk, RefuseChunk;
    if w.slots[i].fd.Some? {
      match event
      case Quiet =>
      case HangUp => DropKeeps(w, i);
      case RecvFailed => DropKeeps(w, i);
      case Received(chunk) =>
        if |w.slots[i].recvBuf + chunk| > MAX_BUFFER {
          RefuseKeeps(w, i, chunk);
        } else {
          SplitKeeps(w, i, chunk);
        }
    }
  }

  // ---------------------------------------------------------------- replying

  lemma RepliesNext(fates: seq<Fate>, f: Fate, id: Id)
    ensures Replies(fates + [f]) == Replies(fates) + [f.reply]
    ensures Taken(fates + [f], id)
         == Taken(fates, id) + if f.reply.id == id && f.took.Some? then f.took.value else []
  {
    assert (fates + [f])[..|fates|] == fates;
  }

  /** A reply for a connection that is not there. */
  lemma MissFate(w: World, reply: Tagged, room: nat)
    requires Handles(w) && FindSlot(w.slots, reply.id) == |w.slots|
    ensures FateRight(Fate(reply, |w.calls|, room, None), w.calls, w.hist.opening)
  {
    assert !Live(w, reply.id);
    if reply.id in w.hist.opening {
      LiveIsUp(w, reply.id);
    }
    hide Handles, FindSlot, Up, Live;
    assert w.calls[..|w.calls|] == w.calls;
  }

  lemma MissKeeps(w: World, taken: nat)
    requires Handles(w) && Answers(w) && |w.local| > 0 && FindSlot(w.slots, w.local[0].id) == |w.slots|
    ensures Answers(Settle(w, taken))
  {
    hide Handles, Conn, FindSlot, WrittenOn, Taken, Replies, FateRight;
    var f := Fate(w.local[0], |w.calls|, taken, None);
    MissFate(w, w.local[0], taken);
    assert forall g | g in w.hist.fates + [f] :: FateRight(g, w.calls, w.hist.opening);
    forall id | id in w.hist.opening
      ensures Taken(w.hist.fates + [f], id) == Taken(w.hist.fates, id)
    {
      RepliesNext(w.hist.fates, f, id);
    }
    RepliesNext(w.hist.fates, f, 0);
    assert [w.local[0]] + w.local[1..] == w.local;
  }

  /** A reply written: on the connection of its id, whatever the handle's number was before. */
  lemma WriteFate(w: World, i: nat, reply: Tagged, room: nat, data: Bytes)
    requires Handles(w) && Occupied(w, i) && w.slots[i].id == reply.id && data == Accepted(reply.text, room)
    ensures FateRight(Fate(reply, |w.calls|, room, Some(data)),
                      w.calls + [Wrote(w.slots[i].fd.value, data)], w.hist.opening)
  {
    assert (w.calls + [Wrote(w.slots[i].fd.value, data)])[..|w.calls|] == w.calls;
  }

  lemma WrittenAt(w: World, i: nat, data: Bytes, id: Id)
    requires Connections(w) && Handles(w) && Occupied(w, i) && id in w.hist.opening
    ensures WrittenOn(w.calls + [Wrote(w.slots[i].fd.value, data)], w.hist.opening[id])
            == WrittenOn(w.calls, w.hist.opening[id]) + if id == w.slots[i].id then data else []
  {
    OnNext(w.calls, Wrote(w.slots[i].fd.value, data), w.hist.opening[id]);
    ConnOfSlot(w, i, id);
    hide WrittenOn, Conn;
  }

  lemma WriteAnswers(w: World, taken: nat)
    requires Connections(w) && Handles(w) && Answers(w)
    requires |w.local| > 0 && FindSlot(w.slots, w.local[0].id) < |w.slots|
    ensures Answers(Settle(w, taken))
  {
    hide Connections, Handles, Conn, FindSlot, WrittenOn, Taken, Replies, FateRight, Accepted;
    var i := FindSlot(w.slots, w.local[0].id);
    var data := Accepted(w.local[0].text, taken);
    var f := Fate(w.local[0], |w.calls|, taken, Some(data));
    var calls := w.calls + [Wrote(w.slots[i].fd.value, data)];
    WriteFate(w, i, w.local[0], taken, data);
    FatesGrow(w.hist.fates, w.calls, w.hist.opening, calls, w.hist.opening);
    forall id | id in w.hist.opening
      ensures WrittenOn(calls, w.hist.opening[id]) == Taken(w.hist.fates + [f], id)
    {
      WrittenAt(w, i, data, id);
      RepliesNext(w.hist.fates, f, id);
    }
    RepliesNext(w.hist.fates, f, 0);
    assert [w.local[0]] + w.local[1..] == w.local;
  }

  lemma WriteHandles(w: World, taken: nat)
    requires Handles(w) && |w.local| > 0
    ensures Handles(Settle(w, taken))
  {
    var i := FindSlot(w.slots, w.local[0].id);
    if i < |w.slots| {
      SameConns(w.calls, Wrote(w.slots[i].fd.value, Accepted(w.local[0].text, taken)));
    }
    hide Conn, FindSlot;
    SameHolders(w, Settle(w, taken));
    hide HoldsHandle;
  }

  lemma WriteRequests(w: World, taken: nat)
    requires Requests(w) && |w.local| > 0
    ensures Requests(Settle(w, taken))
  {
    hide Of, Lines, Tail, ReadOn, FindSlot;
    var i := FindSlot(w.slots, w.local[0].id);
    if i < |w.slots| {
      SameRead(w.calls, Wrote(w.slots[i].fd.value, Accepted(w.local[0].text, taken)));
    }
  }

  lemma SettleKeeps(w: World, taken: nat)
    requires Inv(w)
    ensures Inv(Settle(w, taken))
  {
    hide Handles, Queued, AllReceived, Buffered, Answers, CountOccupied, FindSlot;
    if |w.local| > 0 {
      WriteHandles(w, taken);
      WriteRequests(w, taken);
      if FindSlot(w.slots, w.local[0].id) == |w.slots| {
        MissKeeps(w, taken);
      } else {
        WriteAnswers(w, taken);
      }
    }
  }

  /** Steps that only move requests and replies along. */
  lemma QueuesKeep(w: World, a: Action)
    requires Inv(w) && (a.DoSwap? || a.DoPop? || a.DoReply?)
    ensures Inv(Step(w, a))
  {
    hide Of, Lines, Tail, ReadOn, WrittenOn, Conn, CountOccupied, Replies, Taken, FateRight, Handles;
    hide AllReceived, Buffered;
    MoveHandles(w, Step(w, a));
    MoveRequests(w, Step(w, a));
    hide Queued;
    if a.DoSwap? {
      assert Replies(w.hist.fates) + [] == Replies(w.hist.fates);
    }
  }

  lemma MoveRequests(w: World, v: World)
    requires Requests(w) && v.slots == w.slots && v.calls == w.calls && v.hist.opening == w.hist.opening
    requires v.hist.input == w.hist.input && v.hist.refused == w.hist.refused && v.hist.pushed == w.hist.pushed
    requires v.hist.popped + v.recvQueue == w.hist.popped + w.recvQueue
    ensures Requests(v)
  {
    hide Of, Lines, Tail, ReadOn;
  }

  lemma MoveHandles(w: World, v: World)
    requires Handles(w) && v.slots == w.slots && v.nextId == w.nextId && v.calls == w.calls
    requires v.hist.opening == w.hist.opening
    ensures Handles(v)
  {
    SameHolders(w, v);
    hide HoldsHandle, Conn;
  }

  // ---------------------------------------------------------------- every run

  lemma StepKeeps(w: World, a: Action)
    requires Inv(w)
    ensures Inv(Step(w, a))
  {
    hide Inv;
    match a
    case DoAccept(h) => if Conn(w.calls, h) == None { AcceptKeeps(w, h); }
    case DoReceive(i, event) => if i < |w.slots| { ReceiveKeeps(w, i, event); }
    case DoSettle(taken) => SettleKeeps(w, taken);
    case _ => QueuesKeep(w, a);
  }

  lemma {:induction false} NoneOccupied(slots: seq<Slot>, n: nat)
    requires n <= |slots| && forall k | 0 <= k < n :: slots[k].fd == None
    ensures CountOccupied(slots, n) == 0
  {
    if n > 0 {
      NoneOccupied(slots, n - 1);
    }
  }

  lemma StartHolds()
    ensures Inv(START)
  {
    NoneOccupied(START.slots, |START.slots|);
  }

  /** The invariant holds after every run, however the two threads' steps interleave. */
  lemma {:induction false} RunKeeps(w: World, actions: seq<Action>)
    requires Inv(w)
    ensures Inv(Run(w, actions))
    decreases |actions|
  {
    hide Inv, Step;
    if |actions| > 0 {
      StepKeeps(w, actions[0]);
      RunKeeps(Step(w, actions[0]), actions[1..]);
    }
  }
}
