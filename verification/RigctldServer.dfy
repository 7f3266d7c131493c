/** The rigctld server: its fields, the main loop's two calls, and the I/O loop. */
module RigctldServer {
  import opened Basics
  import opened Sockets
  import opened SocketTrace
  import opened LineSplit
  import opened Rigctld
  import opened RigctldRuns
  import RigctldDelivery

  /** What one poll reports, and how many bytes each send of the round, counted from 0, will accept. */
  datatype Round = Round(accepted: Option<Handle>, slots: seq<Event>, taken: nat -> nat)

  /** The steps of one loop iteration: accept, serve the slots that were polled, write every reply
      that was queued. */
  function RoundActions(w: World, r: Round): seq<Action>
    requires |r.slots| == |w.slots|
  {
    AcceptActions(r) + ServeActions(w, r.slots, |r.slots|) + [DoSwap] + SettleActions(r.taken, |w.sendQueue|)
  }

  function AcceptActions(r: Round): seq<Action> {
    if r.accepted.Some? then [DoAccept(r.accepted.value)] else []
  }

  function ServeActions(w: World, events: seq<Event>, n: nat): seq<Action>
    requires n <= |events| == |w.slots|
  {
    if n == 0 then []
    else ServeActions(w, events, n - 1) + if w.slots[n - 1].fd.Some? then [DoReceive(n - 1, events[n - 1])] else []
  }

  function SettleActions(taken: nat -> nat, n: nat): seq<Action> {
    if n == 0 then [] else SettleActions(taken, n - 1) + [DoSettle(taken(n - 1))]
  }

  lemma {:induction false} ServesAre(w: World, events: seq<Event>, n: nat, i: nat, e: Event)
    requires n <= |events| == |w.slots|
    ensures Times(ServeActions(w, events, n), DoReceive(i, e))
            == if i < n && w.slots[i].fd.Some? && e == events[i] then 1 else 0
    ensures forall a | a in ServeActions(w, events, n) :: a.DoReceive?
  {
    hide Times;
    if n == 0 {
      TimesOne(DoSwap, DoReceive(i, e));
    } else {
      ServesAre(w, events, n - 1, i, e);
      if w.slots[n - 1].fd.Some? {
        TimesConcat(ServeActions(w, events, n - 1), [DoReceive(n - 1, events[n - 1])], DoReceive(i, e));
        TimesOne(DoReceive(n - 1, events[n - 1]), DoReceive(i, e));
      } else {
        assert ServeActions(w, events, n) == ServeActions(w, events, n - 1);
      }
    }
  }

  lemma {:induction false} SettlesAre(taken: nat -> nat, n: nat)
    ensures |SettleActions(taken, n)| == n
    ensures forall k | 0 <= k < n :: SettleActions(taken, n)[k] == DoSettle(taken(k))
  {
    if n > 0 {
      SettlesAre(taken, n - 1);
    }
  }

  /** Each client connected when the poll began is served just once, with what the poll said about it,
      and a connection is accepted first if there is one. */
  lemma RoundIs(w: World, r: Round, i: nat, e: Event)
    requires |r.slots| == |w.slots|
    ensures var acts := RoundActions(w, r);
            && Times(acts, DoReceive(i, e))
               == (if i < |w.slots| && w.slots[i].fd.Some? && e == r.slots[i] then 1 else 0)
            && (r.accepted.Some? ==> |acts| > 0 && acts[0] == DoAccept(r.accepted.value))
  {
    ServesAre(w, r.slots, |r.slots|, i, e);
    SettlesAre(r.taken, |w.sendQueue|);
    var accept, serve := AcceptActions(r), ServeActions(w, r.slots, |r.slots|);
    var settle := SettleActions(r.taken, |w.sendQueue|);
    assert RoundActions(w, r) == accept + serve + [DoSwap] + settle;
    hide ServeActions, SettleActions, Times, RoundActions;
    var x := DoReceive(i, e);
    TimesConcat(accept + serve + [DoSwap], settle, x);
    TimesConcat(accept + serve, [DoSwap], x);
    TimesConcat(accept, serve, x);
    TimesNone(accept, x);
    TimesNone(settle, x);
    TimesOne(DoSwap, x);
    FourParts(accept, serve, settle);
  }

  /** Then every reply queued is taken and written, each once and in turn; and nothing else is done. */
  lemma RoundReplies(w: World, r: Round)
    requires |r.slots| == |w.slots|
    ensures var acts, n := RoundActions(w, r), |w.sendQueue|;
            var first := if r.accepted.Some? then 1 else 0;
            && first + n + 1 <= |acts| && acts[|acts| - n - 1] == DoSwap
            && (forall a | a in acts[first..|acts| - n - 1] :: a.DoReceive?)
            && var settles := acts[|acts| - n..];
               |settles| == n && forall k | 0 <= k < n :: settles[k] == DoSettle(r.taken(k))
  {
    ServesAre(w, r.slots, |r.slots|, 0, Quiet);
    SettlesAre(r.taken, |w.sendQueue|);
    var accept, serve := AcceptActions(r), ServeActions(w, r.slots, |r.slots|);
    var settle := SettleActions(r.taken, |w.sendQueue|);
    assert RoundActions(w, r) == accept + serve + [DoSwap] + settle;
    hide ServeActions, SettleActions, Times, RoundActions;
    FourParts(accept, serve, settle);
  }

  lemma FourParts(a: seq<Action>, b: seq<Action>, c: seq<Action>)
    ensures var all := a + b + [DoSwap] + c;
            && (|a| > 0 ==> all[0] == a[0]) && all[|all| - |c| - 1] == DoSwap && all[|all| - |c|..] == c
            && all[|a|..|all| - |c| - 1] == b
  {}

  lemma ActionsUnfold(w: World, r: Round, n: nat)
    requires |r.slots| == |w.slots|
    ensures AcceptActions(r) == if r.accepted.Some? then [DoAccept(r.accepted.value)] else []
    ensures ServeActions(w, r.slots, 0) == [] && SettleActions(r.taken, 0) == []
    ensures n < |r.slots| ==>
              ServeActions(w, r.slots, n + 1)
              == ServeActions(w, r.slots, n) + if w.slots[n].fd.Some? then [DoReceive(n, r.slots[n])] else []
    ensures SettleActions(r.taken, n + 1) == SettleActions(r.taken, n) + [DoSettle(r.taken(n))]
  {}

  class RigctldServer {
    const slots: array<Slot>
    var nextConnId: nat
    var clientCount: int
    var recvQueue: seq<Tagged>
    var sendQueue: seq<Tagged>
    /** Replies taken off the send queue but not yet written. */
    var local: seq<Tagged>
    /** Record of the socket calls made. */
    var calls: Trace
    ghost var hist: History

    ghost function Now(): World
      reads this, slots
    {
      World(slots[..], nextConnId, clientCount, recvQueue, sendQueue, local, calls, hist)
    }

    constructor ()
      ensures fresh(slots) && Now() == START && Inv(Now())
    {
      slots := new Slot[MAX_CLIENTS](_ => FREE_SLOT);
      nextConnId, clientCount := 1, 0;
      recvQueue, sendQueue, local, calls := [], [], [], [];
      hist := START.hist;
      new;
      assert slots[..] == START.slots;
      StartHolds();
    }

    method AcceptConnection(h: Handle)
      modifies this`nextConnId, this`clientCount, this`calls, this`hist, slots
      ensures Now() == Step(old(Now()), DoAccept(h))
    {
      ghost var before := slots[..];
      if Conn(calls, h).Some? { return; }
      ghost var position := |calls|;
      calls := calls + [Opened(h)];
      var i := 0;
      while i < slots.Length && slots[i].fd.Some?
        invariant i <= slots.Length && forall k | 0 <= k < i :: slots[k].fd.Some?
      {
        i := i + 1;
      }
      FirstFreeIs(before, Fd, i);
      if i < slots.Length {
        slots[i] := Slot(Some(h), [], nextConnId);
        assert slots[..] == before[i := Slot(Some(h), [], nextConnId)];
        hist := hist.(opening := hist.opening[nextConnId := position], input := hist.input[nextConnId := []]);
        nextConnId := nextConnId + 1;
        clientCount := clientCount + 1;
      } else {
        calls := calls + [Closed(h)];
      }
    }

    method ServiceClient(i: nat, event: Event)
      requires i < slots.Length
      modifies this`clientCount, this`recvQueue, this`calls, this`hist, slots
      ensures Now() == Step(old(Now()), DoReceive(i, event))
    {
      if slots[i].fd == None { return; }
      hide Lines, Tail;
      ghost var before := slots[..];
      var closeConn := event.HangUp? || event.RecvFailed?;
      if event.Received? {
        calls := calls + [Read(slots[i].fd.value, event.data)];
        var buf := slots[i].recvBuf + event.data;
        if |buf| > MAX_BUFFER {
          hist := hist.(refused := hist.refused[slots[i].id := event.data]);
          closeConn := true;
        } else {
          var lines, rest := TakeLines(buf);
          var tagged := TagAll(slots[i].id, lines);
          recvQueue := recvQueue + tagged;
          ghost var sofar := if slots[i].id in hist.input then hist.input[slots[i].id] else [];
          hist := hist.(pushed := hist.pushed + tagged, input := hist.input[slots[i].id := sofar + event.data]);
          slots[i] := slots[i].(recvBuf := rest);
          assert slots[..] == before[i := before[i].(recvBuf := rest)];
        }
      }
      if closeConn {
        calls := calls + [Closed(slots[i].fd.value)];
        slots[i] := FREE_SLOT;
        assert slots[..] == before[i := FREE_SLOT];
        clientCount := clientCount - 1;
      }
    }

    method TakeReplies()
      modifies this`local, this`sendQueue
      ensures Now() == Step(old(Now()), DoSwap)
    {
      if |local| == 0 {
        local, sendQueue := sendQueue, [];
      }
    }

    method WriteReply(taken: nat)
      requires |local| > 0
      modifies this`local, this`calls, this`hist
      ensures Now() == Step(old(Now()), DoSettle(taken)) && |local| == |old(local)| - 1
    {
      var reply := local[0];
      var i := 0;
      while i < slots.Length && (slots[i].fd == None || slots[i].id != reply.id)
        invariant i <= slots.Length && forall k | 0 <= k < i :: slots[k].fd == None || slots[k].id != reply.id
      {
        i := i + 1;
      }
      FindSlotIs(slots[..], reply.id, i);
      if i < slots.Length {
        var data := if taken < |reply.text| then reply.text[..taken] else reply.text;
        hist := hist.(fates := hist.fates + [Fate(reply, |calls|, taken, Some(data))]);
        calls := calls + [Wrote(slots[i].fd.value, data)];
      } else {
        hist := hist.(fates := hist.fates + [Fate(reply, |calls|, taken, None)]);
      }
      local := local[1..];
    }

    /** The main loop takes one request, if there is one. */
    method PopRequest() returns (request: Option<Tagged>)
      modifies this`recvQueue, this`hist
      ensures Now() == Step(old(Now()), DoPop)
      ensures request == if |old(recvQueue)| == 0 then None else Some(old(recvQueue)[0])
    {
      if |recvQueue| == 0 { return None; }
      request := Some(recvQueue[0]);
      hist := hist.(popped := hist.popped + [recvQueue[0]]);
      recvQueue := recvQueue[1..];
    }

    /** The main loop answers a request, or any connection it cares to name. */
    method SendReply(id: Id, text: Bytes)
      modifies this`sendQueue, this`hist
      ensures Now() == Step(old(Now()), DoReply(id, text))
    {
      sendQueue := sendQueue + [Tagged(id, text)];
      hist := hist.(issued := hist.issued + [Tagged(id, text)]);
    }

    /** One iteration of the I/O loop. */
    method PollOnce(r: Round)
      requires Inv(Now()) && |r.slots| == MAX_CLIENTS && |local| == 0
      modifies this, slots
      ensures Inv(Now()) && Now() == Run(old(Now()), RoundActions(old(Now()), r))
      ensures |local| == 0 && |sendQueue| == 0
    {
      hide Step, Run, AcceptActions, ServeActions, SettleActions, Inv;
      ghost var start := Now();
      RigctldDelivery.NoActions(start);
      ghost var acts: seq<Action> := [];
      var polled := slots[..];
      SlotCount(start);
      ActionsUnfold(start, r, 0);
      if r.accepted.Some? {
        AcceptConnection(r.accepted.value);
        RunSnoc(start, acts, DoAccept(r.accepted.value));
        acts := acts + [DoAccept(r.accepted.value)];
      }
      for i := 0 to slots.Length
        invariant Now() == Run(start, acts) && local == [] && sendQueue == start.sendQueue
        invariant acts == AcceptActions(r) + ServeActions(start, r.slots, i)
      {
        ActionsUnfold(start, r, i);
        if polled[i].fd.Some? {
          ServiceClient(i, r.slots[i]);
          RunSnoc(start, acts, DoReceive(i, r.slots[i]));
          acts := acts + [DoReceive(i, r.slots[i])];
        }
      }
      SwapTakes(Now());
      TakeReplies();
      RunSnoc(start, acts, DoSwap);
      acts := acts + [DoSwap];
      ghost var soFar := acts;
      var sent := 0;
      while |local| > 0
        invariant Now() == Run(start, acts) && sent + |local| == |start.sendQueue| && |sendQueue| == 0
        invariant acts == soFar + SettleActions(r.taken, sent)
      {
        ActionsUnfold(start, r, sent);
        WriteReply(r.taken(sent));
        RunSnoc(start, acts, DoSettle(r.taken(sent)));
        acts := acts + [DoSettle(r.taken(sent))];
        sent := sent + 1;
      }
      assert acts == RoundActions(start, r);
      RunKeeps(start, acts);
    }

    /** The clean-up after the loop leaves no client's socket open. */
    method CloseEverything()
      requires Inv(Now())
      modifies this`calls, slots
      ensures Now() == CloseAll(old(Now()), slots.Length)
      ensures forall h :: Conn(calls, h) == None
    {
      hide Inv, Conn;
      ghost var start := Now();
      for i := 0 to slots.Length
        invariant Now() == CloseAll(start, i)
      {
        ghost var before := slots[..];
        if slots[i].fd.Some? {
          calls := calls + [Closed(slots[i].fd.value)];
          slots[i] := slots[i].(fd := None);
          assert slots[..] == before[i := before[i].(fd := None)];
        }
      }
      forall h: Handle
        ensures Conn(calls, h) == None
      {
        RigctldDelivery.CleanUpClosesAll(start, h);
      }
    }
  }

  lemma SlotCount(w: World)
    requires Inv(w)
    ensures |w.slots| == MAX_CLIENTS
  {
    hide Handles, Requests, Answers, CountOccupied;
  }

  lemma SwapTakes(w: World)
    requires |w.local| == 0
    ensures Step(w, DoSwap).local == w.sendQueue && Step(w, DoSwap).sendQueue == []
  {}

  lemma {:induction false} FindSlotIs(slots: seq<Slot>, id: Id, i: nat)
    requires i <= |slots| && (forall k | 0 <= k < i :: slots[k].fd == None || slots[k].id != id)
    requires i < |slots| ==> slots[i].fd.Some? && slots[i].id == id
    ensures FindSlot(slots, id) == i
  {
    if i > 0 {
      FindSlotIs(slots[1..], id, i - 1);
    }
  }
}
