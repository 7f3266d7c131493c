/** The WebSocket server: its fields, its public calls, and the poll loop that drives it. */
module WsServer {
  import opened Basics
  import opened Sockets
  import opened SocketTrace
  import opened WsFrames
  import opened WsSession
  import opened WsSockets

  /** What one poll reports about the listener, each slot and the client. */
  datatype Round = Round(accepted: Option<Handle>, slots: seq<Event>, client: Event)

  /** The steps one loop iteration takes. Only slots occupied when the poll began are served,
      and the client is read only if there was one then. */
  function RoundActions(w: World, r: Round): seq<Action>
    requires |r.slots| == |w.pending|
  {
    AcceptActions(r) + ServeActions(w, r.slots, |r.slots|) + ListenActions(w, r) + [DoDrain]
  }

  function AcceptActions(r: Round): seq<Action> {
    if r.accepted.Some? then [DoAccept(r.accepted.value)] else []
  }

  function ServeActions(w: World, events: seq<Event>, n: nat): seq<Action>
    requires n <= |events| == |w.pending|
  {
    if n == 0 then []
    else ServeActions(w, events, n - 1) + if w.pending[n - 1].fd.Some? then [DoServe(n - 1, events[n - 1])] else []
  }

  function ListenActions(w: World, r: Round): seq<Action> {
    if w.client.Some? then [DoListen(r.client)] else []
  }

  lemma {:induction false} ServesAre(w: World, events: seq<Event>, n: nat, i: nat, e: Event)
    requires n <= |events| == |w.pending|
    ensures Times(ServeActions(w, events, n), DoServe(i, e))
            == if i < n && w.pending[i].fd.Some? && e == events[i] then 1 else 0
    ensures forall a | a in ServeActions(w, events, n) :: a.DoServe?
  {
    hide Times;
    if n == 0 {
      TimesOne(DoDrain, DoServe(i, e));
    } else {
      ServesAre(w, events, n - 1, i, e);
      if w.pending[n - 1].fd.Some? {
        TimesConcat(ServeActions(w, events, n - 1), [DoServe(n - 1, events[n - 1])], DoServe(i, e));
        TimesOne(DoServe(n - 1, events[n - 1]), DoServe(i, e));
      } else {
        assert ServeActions(w, events, n) == ServeActions(w, events, n - 1);
      }
    }
  }

  /** Each slot and the client occupied when the poll began is served just once, with what the poll said
      about it; a connection is accepted first if there is one; and the queue is drained last. */
  lemma RoundIs(w: World, r: Round, i: nat, e: Event)
    requires |r.slots| == |w.pending|
    ensures var acts := RoundActions(w, r);
            && Times(acts, DoServe(i, e))
               == (if i < |w.pending| && w.pending[i].fd.Some? && e == r.slots[i] then 1 else 0)
            && (r.accepted.Some? ==> |acts| > 0 && acts[0] == DoAccept(r.accepted.value))
            && (w.client.Some? ==> |acts| > 1 && acts[|acts| - 2] == DoListen(r.client))
            && |acts| > 0 && acts[|acts| - 1] == DoDrain
            && var rest := acts[(if r.accepted.Some? then 1 else 0)..|acts| - if w.client.Some? then 2 else 1];
               forall a | a in rest :: a.DoServe?
  {
    ServesAre(w, r.slots, |r.slots|, i, e);
    var accept, serve, listen := AcceptActions(r), ServeActions(w, r.slots, |r.slots|), ListenActions(w, r);
    assert RoundActions(w, r) == accept + serve + listen + [DoDrain];
    hide ServeActions, Times, RoundActions;
    var x := DoServe(i, e);
    TimesConcat(accept + serve + listen, [DoDrain], x);
    TimesConcat(accept + serve, listen, x);
    TimesConcat(accept, serve, x);
    TimesNone(accept, x);
    TimesNone(listen, x);
    TimesOne(DoDrain, x);
    FourParts(accept, serve, listen);
  }

  lemma FourParts(a: seq<Action>, b: seq<Action>, c: seq<Action>)
    ensures var all := a + b + c + [DoDrain];
            && (|a| > 0 ==> all[0] == a[0]) && (|c| > 0 ==> all[|all| - 2] == c[|c| - 1])
            && all[|all| - 1] == DoDrain && all[|a|..|all| - 1 - |c|] == b
  {}

  lemma {:induction false} RunConcat(w: World, a: seq<Action>, b: seq<Action>, classify: Bytes -> Request)
    requires WellFormed(w)
    ensures WellFormed(Run(w, a, classify)) && Run(w, a + b, classify) == Run(Run(w, a, classify), b, classify)
    decreases |a|
  {
    hide Step, WellFormed;
    if |a| == 0 {
      assert a + b == b;
    } else {
      StepWellFormed(w, a[0], classify);
      assert (a + b)[1..] == a[1..] + b;
      RunConcat(Step(w, a[0], classify), a[1..], b, classify);
    }
  }

  lemma RunSnoc(w: World, a: seq<Action>, x: Action, classify: Bytes -> Request)
    requires WellFormed(w)
    ensures WellFormed(Run(w, a, classify)) && Run(w, a + [x], classify) == Step(Run(w, a, classify), x, classify)
  {
    RunConcat(w, a, [x], classify);
    StepWellFormed(Run(w, a, classify), x, classify);
    hide Step, WellFormed;
  }

  lemma TwoSteps(w: World, a: Action, b: Action, classify: Bytes -> Request)
    requires WellFormed(w)
    ensures WellFormed(Step(w, a, classify))
    ensures Run(w, [a, b], classify) == Step(Step(w, a, classify), b, classify)
  {
    RunSnoc(w, [], a, classify);
    RunSnoc(w, [a], b, classify);
    assert [] + [a] == [a] && [a] + [b] == [a, b];
    StepWellFormed(w, a, classify);
    hide Step, WellFormed;
  }

  predicate Polls(rounds: seq<Round>) {
    forall r | r in rounds :: |r.slots| == MAX_PENDING_HTTP
  }

  /** The state after the first `n` rounds. */
  function AfterRounds(w: World, rounds: seq<Round>, n: nat, classify: Bytes -> Request): (v: World)
    requires WellFormed(w) && Polls(rounds) && n <= |rounds|
    ensures WellFormed(v)
  {
    if n == 0 then w
    else
      var v := AfterRounds(w, rounds, n - 1, classify);
      assert rounds[n - 1] in rounds;
      RunConcat(v, RoundActions(v, rounds[n - 1]), [], classify);
      Run(v, RoundActions(v, rounds[n - 1]), classify)
  }

  class WsServer {
    const classify: Bytes -> Request
    const pending: array<Slot>
    const session: Session
    var listener: Option<Handle>
    var client: Option<Handle>
    var sendQueue: seq<SendItem>
    var rejects: nat
    /** Record of the system calls made. */
    var calls: Trace
    /** Threads between the two halves of a send. */
    ghost var passed: set<nat>

    ghost function Now(): World
      reads this, pending, session
    {
      World(listener, pending[..], client, session.Now(), sendQueue, passed, rejects, calls)
    }

    ghost predicate Valid()
      reads this, pending, session
    {
      pending.Length == MAX_PENDING_HTTP && WellFormed(Now())
    }

    constructor (h: Handle, classify: Bytes -> Request)
      ensures fresh(pending) && fresh(session)
      ensures this.classify == classify && Now() == Start(h) && Valid()
    {
      this.classify := classify;
      pending := new Slot[MAX_PENDING_HTTP](_ => FREE_SLOT);
      session := new Session();
      listener, client := Some(h), None;
      sendQueue, rejects, calls, passed := [], 0, [Opened(h)], {};
      new;
      assert pending[..] == Start(h).pending;
    }

    method CloseSocket(h: Handle)
      modifies this`calls
      ensures calls == old(calls) + [Closed(h)]
    {
      calls := calls + [Closed(h)];
    }

    method AcceptConnection(h: Handle)
      requires Valid()
      modifies this, pending
      ensures Now() == Accept(old(Now()), h)
    {
      calls := calls + [Opened(h)];
      ghost var slots := pending[..];
      var i := 0;
      while i < pending.Length && pending[i].fd.Some?
        invariant i <= pending.Length && forall k | 0 <= k < i :: pending[k].fd.Some?
      {
        i := i + 1;
      }
      FirstFreeIs(slots, Fd, i);
      if i < pending.Length {
        pending[i] := Slot(Some(h), []);
        assert pending[..] == slots[i := Slot(Some(h), [])];
      } else {
        CloseSocket(h);
      }
    }

    method DropSlot(i: nat)
      requires i < pending.Length && pending[i].fd.Some?
      modifies this`calls, pending
      ensures Now() == Drop(old(Now()), i)
    {
      ghost var slots := pending[..];
      CloseSocket(pending[i].fd.value);
      pending[i] := FREE_SLOT;
      assert pending[..] == slots[i := FREE_SLOT];
    }

    method ServeSlot(i: nat, event: Event)
      requires i < pending.Length
      modifies this, pending, session
      ensures Now() == Serve(old(Now()), i, event, classify)
    {
      if pending[i].fd == None { return; }
      ghost var slots := pending[..];
      match event
      case Quiet =>
      case HangUp => DropSlot(i);
      case RecvFailed => DropSlot(i);
      case Received(data) =>
        var buf := pending[i].buf + data;
        if |buf| > MAX_REQUEST {
          DropSlot(i);
        } else if !HasHead(buf) {
          pending[i] := pending[i].(buf := buf);
          assert pending[..] == slots[i := slots[i].(buf := buf)];
        } else {
          match classify(buf)
          case NotLocal => DropSlot(i);
          case Static => DropSlot(i);
          case Upgrade(hasKey) =>
            if hasKey && client == None {
              session.Reopen();
              client := pending[i].fd;
              rejects := 0;
              pending[i] := FREE_SLOT;
              assert pending[..] == slots[i := FREE_SLOT];
            } else {
              DropSlot(i);
              rejects := rejects + 1;
            }
        }
    }

    method EndClient()
      requires client.Some?
      modifies this, session
      ensures Now() == EndSession(old(Now()))
    {
      CloseSocket(client.value);
      client := None;
      session.Discard();
      rejects := 0;
    }

    method ServeClient(event: Event)
      modifies this, session
      ensures Now() == Listen(old(Now()), event)
    {
      if client == None { return; }
      var closeConn := event.HangUp? || event.RecvFailed?;
      if event.Received? {
        closeConn := session.Receive(event.data);
      }
      if closeConn {
        EndClient();
      }
    }

    method DrainSendQueue()
      requires Valid()
      modifies this, session
      ensures Now() == DrainSends(old(Now()))
    {
      if client == None { return; }
      hide Reply, Frames;
      var items := sendQueue;
      sendQueue := [];
      FramesNone();
      for i := 0 to |items|
        modifies session
        invariant session.Now() == old(session.Now()).(wire := old(session.wire) + Frames(items[..i]))
      {
        session.Send(items[i].opcode, items[i].data);
        FramesSnoc(items[..i], items[i]);
        assert items[..i + 1] == items[..i] + [items[i]];
      }
      assert items[..|items|] == items;
    }

    /** Whether anybody is connected; a thread that finds a client may go on and queue. */
    method IsConnected(ghost thread: nat) returns (ok: bool)
      requires Valid() && thread !in passed
      modifies this`passed
      ensures Valid() && ok == client.Some? && (ok <==> thread in passed)
      ensures Now() == Step(old(Now()), DoCheck(thread), classify)
    {
      StepWellFormed(Now(), DoCheck(thread), classify);
      ok := client.Some?;
      if ok { passed := passed + {thread}; }
    }

    /** The rest of a send, under the queue's lock; it looks at no client. */
    method PushItem(ghost thread: nat, text: bool, data: Bytes)
      requires Valid() && thread in passed
      modifies this`passed, this`sendQueue
      ensures Valid() && Now() == Step(old(Now()), DoPush(thread, text, data), classify)
    {
      StepWellFormed(Now(), DoPush(thread, text, data), classify);
      if |sendQueue| >= SEND_QUEUE_LIMIT {
        sendQueue := sendQueue[1..];
      }
      sendQueue := sendQueue + [Item(text, data)];
      passed := passed - {thread};
    }

    /** Queue a text or binary message, unless nobody is connected when that is looked up: two steps,
        between which other threads may take theirs. */
    method QueueMessage(ghost thread: nat, text: bool, data: Bytes) returns (ok: bool)
      requires Valid() && thread !in passed
      modifies this`passed, this`sendQueue
      ensures Valid() && ok == old(client).Some? && thread !in passed
      ensures Now() == Run(old(Now()), [DoCheck(thread), DoPush(thread, text, data)], classify)
      ensures sendQueue == if ok then Enqueue(old(Now()), Item(text, data)).sendQueue else old(sendQueue)
    {
      TwoSteps(Now(), DoCheck(thread), DoPush(thread, text, data), classify);
      ok := IsConnected(thread);
      if !ok { return; }
      PushItem(thread, text, data);
    }

    // The parts of an iteration, each one step of the machine.

    method TryAccept(h: Handle)
      requires Valid()
      modifies this, pending
      ensures Valid() && Now() == Step(old(Now()), DoAccept(h), classify)
    {
      StepWellFormed(Now(), DoAccept(h), classify);
      if h !in Open(calls) {
        AcceptConnection(h);
      }
    }

    method ServeStep(i: nat, event: Event)
      requires Valid() && i < pending.Length
      modifies this, pending, session
      ensures Valid() && Now() == Step(old(Now()), DoServe(i, event), classify)
    {
      StepWellFormed(Now(), DoServe(i, event), classify);
      ServeSlot(i, event);
    }

    method ListenStep(event: Event)
      requires Valid()
      modifies this, session
      ensures Valid() && Now() == Step(old(Now()), DoListen(event), classify)
    {
      StepWellFormed(Now(), DoListen(event), classify);
      ServeClient(event);
    }

    method DrainStep()
      requires Valid()
      modifies this, session
      ensures Valid() && Now() == Step(old(Now()), DoDrain, classify)
    {
      StepWellFormed(Now(), DoDrain, classify);
      DrainSendQueue();
    }

    /** One iteration of the poll loop. */
    method PollOnce(r: Round)
      requires Valid() && |r.slots| == MAX_PENDING_HTTP
      modifies this, pending, session
      ensures Valid() && Now() == Run(old(Now()), RoundActions(old(Now()), r), classify)
    {
      hide Step, WellFormed, AcceptActions, ServeActions, ListenActions;
      ghost var start := Now();
      ghost var acts: seq<Action> := [];
      var polled := pending[..];
      var hadClient := client.Some?;
      ActionsUnfold(start, r, 0);
      if r.accepted.Some? {
        TryAccept(r.accepted.value);
        RunSnoc(start, acts, DoAccept(r.accepted.value), classify);
        acts := acts + [DoAccept(r.accepted.value)];
      }
      for i := 0 to pending.Length
        invariant Valid() && Now() == Run(start, acts, classify)
        invariant acts == AcceptActions(r) + ServeActions(start, r.slots, i)
      {
        ActionsUnfold(start, r, i);
        if polled[i].fd.Some? {
          ServeStep(i, r.slots[i]);
          RunSnoc(start, acts, DoServe(i, r.slots[i]), classify);
          acts := acts + [DoServe(i, r.slots[i])];
        }
      }
      if hadClient {
        ListenStep(r.client);
        RunSnoc(start, acts, DoListen(r.client), classify);
        acts := acts + [DoListen(r.client)];
      }
      DrainStep();
      RunSnoc(start, acts, DoDrain, classify);
      acts := acts + [DoDrain];
      assert acts == RoundActions(start, r);
    }

    /** The I/O thread: rounds until told to stop, then the clean-up. */
    method IoThreadMain(rounds: seq<Round>)
      requires Valid() && Owns(Now()) && Polls(rounds)
      modifies this, pending, session
      ensures Now() == Shutdown(AfterRounds(old(Now()), rounds, |rounds|, classify))
      ensures Legal(calls) && Open(calls) == {}
      ensures listener == None && client == None && forall k | 0 <= k < pending.Length :: pending[k].fd == None
    {
      hide Owns, Run, RoundActions, WellFormed;
      for i := 0 to |rounds|
        invariant Valid() && Owns(Now()) && Now() == AfterRounds(old(Now()), rounds, i, classify)
      {
        RunOwns(Now(), RoundActions(Now(), rounds[i]), classify);
        PollOnce(rounds[i]);
      }
      ShutdownClosesAll(Now());
      CloseEverything();
    }

    method CloseEverything()
      requires Valid() && Owns(Now())
      modifies this, pending
      ensures Now() == Shutdown(old(Now()))
      ensures listener == None && client == None && forall k | 0 <= k < pending.Length :: pending[k].fd == None
    {
      ghost var start := Now();
      CloseSlotsOwns(start, |start.pending|);
      hide Owns, WellFormed;
      for i := 0 to pending.Length
        modifies this`calls, pending
        invariant Now() == CloseSlots(start, i)
      {
        ghost var slots := pending[..];
        if pending[i].fd.Some? {
          CloseSocket(pending[i].fd.value);
          pending[i] := pending[i].(fd := None);
          assert pending[..] == slots[i := slots[i].(fd := None)];
        }
      }
      if client.Some? {
        CloseSocket(client.value);
        client := None;
      }
      if listener.Some? {
        CloseSocket(listener.value);
        listener := None;
      }
    }
  }

  lemma FramesNone()
    ensures Frames([]) == []
  {}

  lemma {:induction false} FramesSnoc(items: seq<SendItem>, x: SendItem)
    requires x.opcode < 16 && forall i | i in items :: i.opcode < 16
    ensures Frames(items + [x]) == Frames(items) + Reply(x.opcode, x.data)
  {
    hide Print;
    if |items| == 0 {
      assert items + [x] == [x];
    } else {
      assert (items + [x])[1..] == items[1..] + [x];
      FramesSnoc(items[1..], x);
    }
  }

  lemma ActionsUnfold(w: World, r: Round, n: nat)
    requires |r.slots| == |w.pending|
    ensures AcceptActions(r) == if r.accepted.Some? then [] + [DoAccept(r.accepted.value)] else []
    ensures ListenActions(w, r) == if w.client.Some? then [DoListen(r.client)] else []
    ensures AcceptActions(r) + ServeActions(w, r.slots, 0) == AcceptActions(r)
    ensures n < |r.slots| ==>
              ServeActions(w, r.slots, n + 1)
              == ServeActions(w, r.slots, n) + if w.pending[n].fd.Some? then [DoServe(n, r.slots[n])] else []
  {}
}
