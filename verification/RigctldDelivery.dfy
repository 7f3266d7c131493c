/** What every run of the rigctld server means for each connection: its lines are all served, its
    replies reach it and nobody else, and where that fails. */
module RigctldDelivery {
  import opened Basics
  import opened LineSplit
  import opened Rigctld
  import opened RigctldRuns
  import opened Sockets
  import opened SocketTrace

  // ---------------------------------------------------------------- replies go where they belong

  lemma FateOf(w: World, f: Fate)
    requires Inv(w) && f in w.hist.fates
    ensures FateRight(f, w.calls, w.hist.opening)
    ensures forall id | id in w.hist.opening ::
              w.hist.opening[id] < |w.calls| && w.calls[w.hist.opening[id]].Opened?
    ensures forall id, id' | id in w.hist.opening && id' in w.hist.opening ::
              w.hist.opening[id] == w.hist.opening[id'] ==> id == id'
  {
    hide Conn, FateRight, Taken, WrittenOn, ReadOn, Of, Lines, Tail, CountOccupied;
  }

  /** Every reply written went to the handle that was accepted for the connection its id names, an
      accept no other id shares, and between that accept and the write the handle was neither closed
      nor handed out again - so not to another connection, even one with the same handle number or in
      the same slot. */
  lemma RepliesReachTheirConnection(actions: seq<Action>, f: Fate)
    requires f in Run(START, actions).hist.fates && f.took.Some?
    ensures var w := Run(START, actions);
            && f.reply.id in w.hist.opening
            && var k := w.hist.opening[f.reply.id];
               && k < f.at < |w.calls| && w.calls[k].Opened?
               && (forall id | id in w.hist.opening && w.hist.opening[id] == k :: id == f.reply.id)
               && w.calls[f.at] == Wrote(w.calls[k].h, f.took.value) && f.took.value <= f.reply.text
               && (forall p | k < p < f.at :: w.calls[p] != Closed(w.calls[k].h) && w.calls[p] != Opened(w.calls[k].h))
  {
    StartHolds();
    RunKeeps(START, actions);
    var w := Run(START, actions);
    hide Run, START, Inv;
    FateOf(w, f);
    var k := w.hist.opening[f.reply.id];
    var before := w.calls[..f.at];
    assert before[k] == w.calls[k];
    UpIs(before, k);
    assert forall p | k < p < f.at :: before[p] == w.calls[p];
  }

  /** A connection that is up has been up ever since it was opened. */
  lemma UpBefore(calls: Trace, k: nat, n: nat)
    requires Up(calls, k) && k < n <= |calls|
    ensures Up(calls[..n], k)
  {
    UpIs(calls, k);
    UpIs(calls[..n], k);
    hide Up;
    assert forall p | k < p < n :: calls[..n][p] == calls[p];
  }

  /** A reply is dropped only if its connection was closed by then or not yet accepted; in the first
      case it is closed for good. */
  lemma DroppedOnlyWhenAway(actions: seq<Action>, f: Fate)
    requires f in Run(START, actions).hist.fates && f.took.None?
    ensures var w := Run(START, actions);
            f.reply.id in w.hist.opening ==>
              var k := w.hist.opening[f.reply.id];
              f.at <= k || (f.at <= |w.calls| && !Up(w.calls[..f.at], k) && !Live(w, f.reply.id))
  {
    StartHolds();
    RunKeeps(START, actions);
    var w := Run(START, actions);
    hide Run, START;
    FateOf(w, f);
    if f.reply.id in w.hist.opening {
      var k := w.hist.opening[f.reply.id];
      LiveIsUp(w, f.reply.id);
      hide Inv, Up, Live;
      if k < f.at && Up(w.calls, k) {
        UpBefore(w.calls, k, f.at);
      }
    }
  }

  /** A connection gone is gone for good: its id never becomes live again. */
  lemma {:induction false} GoneForGood(w: World, actions: seq<Action>, id: Id)
    requires Inv(w) && id < w.nextId && !Live(w, id)
    ensures !Live(Run(w, actions), id)
    decreases |actions|
  {
    hide Inv, Step, Live;
    if |actions| > 0 {
      StepKeeps(w, actions[0]);
      StillGone(w, actions[0], id);
      GoneForGood(Step(w, actions[0]), actions[1..], id);
    }
  }

  lemma StillGone(w: World, a: Action, id: Id)
    requires Inv(w) && id < w.nextId && !Live(w, id)
    ensures id < Step(w, a).nextId && !Live(Step(w, a), id)
  {
    hide Lines, Tail, CountOccupied, Conn, Handles, Requests, Answers, FindSlot;
  }

  // ---------------------------------------------------------------- what was written is what was replied

  function Concat(texts: seq<Bytes>): Bytes {
    if |texts| == 0 then [] else Concat(texts[..|texts| - 1]) + texts[|texts| - 1]
  }

  lemma ConcatSnoc(texts: seq<Bytes>, x: Bytes)
    ensures Concat(texts + [x]) == Concat(texts) + x
  {
    assert (texts + [x])[..|texts|] == texts;
  }

  /** The part of a reply that was written. */
  function Got(f: Fate): Bytes {
    if f.took.Some? then f.took.value else []
  }

  /** Every reply to the connection was written whole. */
  predicate SendsComplete(fates: seq<Fate>, id: Id) {
    forall f | f in fates && f.reply.id == id :: Got(f) == f.reply.text
  }

  lemma {:induction false} TakenIsAll(fates: seq<Fate>, id: Id)
    requires forall f | f in fates :: Got(f) <= f.reply.text
    ensures |Taken(fates, id)| <= |Concat(Of(Replies(fates), id))|
    ensures |Taken(fates, id)| == |Concat(Of(Replies(fates), id))| ==> SendsComplete(fates, id)
    ensures SendsComplete(fates, id) ==> Taken(fates, id) == Concat(Of(Replies(fates), id))
    decreases |fates|
  {
    hide Concat, SendsComplete, Taken, Replies, Of;
    if |fates| == 0 {
      NothingTaken(id);
    } else {
      var before, last := fates[..|fates| - 1], fates[|fates| - 1];
      TakenIsAll(before, id);
      assert last in fates && fates == before + [last];
      CompleteNext(before, last, id);
      RepliesNext(before, last, id);
      OfNext(Replies(before), last.reply, id);
      ConcatSnoc(Of(Replies(before), id), last.reply.text);
    }
  }

  lemma NothingTaken(id: Id)
    ensures Taken([], id) == [] && Concat(Of(Replies([]), id)) == [] && SendsComplete([], id)
  {}

  lemma CompleteNext(before: seq<Fate>, last: Fate, id: Id)
    ensures SendsComplete(before + [last], id)
       <==> SendsComplete(before, id) && (last.reply.id == id ==> Got(last) == last.reply.text)
  {
    if SendsComplete(before + [last], id) {
      forall f | f in before && f.reply.id == id
        ensures Got(f) == f.reply.text
      {
        assert f in before + [last];
      }
      assert last in before + [last];
    }
  }

  lemma OfNext(tagged: seq<Tagged>, last: Tagged, id: Id)
    ensures Of(tagged + [last], id) == if last.id == id then Of(tagged, id) + [last.text] else Of(tagged, id)
  {
    assert (tagged + [last])[..|tagged|] == tagged;
  }

  /** A reply met its connection open, and a socket that would take all of it. */
  predicate Welcome(f: Fate, calls: Trace, k: nat)
    requires f.at <= |calls|
  {
    Up(calls[..f.at], k) && f.room >= |f.reply.text|
  }

  /** Just those replies, and empty ones, are written whole. */
  lemma WholeIfWelcome(f: Fate, calls: Trace, opening: map<Id, nat>)
    requires FateRight(f, calls, opening) && f.reply.id in opening
    ensures Got(f) == f.reply.text <==> |f.reply.text| > 0 ==> Welcome(f, calls, opening[f.reply.id])
  {}

  /** On every connection of every run: the replies issued for it are, in order, those dealt with,
      those being written and those queued. What was written on it is just what its socket took of
      them, and that is all of them if and only if each met its connection open and its socket took
      no less than the reply. */
  lemma BytesAreReplies(actions: seq<Action>, id: Id)
    ensures var w := Run(START, actions);
            id in w.hist.opening ==>
              && Of(w.hist.issued, id) == Of(Replies(w.hist.fates), id) + Of(w.local, id) + Of(w.sendQueue, id)
              && WrittenOn(w.calls, w.hist.opening[id]) == Taken(w.hist.fates, id)
              && (forall f | f in w.hist.fates :: f.at <= |w.calls|)
              && (WrittenOn(w.calls, w.hist.opening[id]) == Concat(Of(Replies(w.hist.fates), id))
                  <==> forall f | f in w.hist.fates && f.reply.id == id && |f.reply.text| > 0 ::
                         Welcome(f, w.calls, w.hist.opening[id]))
  {
    StartHolds();
    RunKeeps(START, actions);
    var w := Run(START, actions);
    hide Run, START, Of, Replies, Concat, SendsComplete, Taken, WrittenOn, ReadOn, Lines, Tail, Conn;
    if id in w.hist.opening {
      OfConcat(Replies(w.hist.fates) + w.local, w.sendQueue, id);
      OfConcat(Replies(w.hist.fates), w.local, id);
      forall f | f in w.hist.fates
        ensures Got(f) <= f.reply.text && f.at <= |w.calls|
        ensures f.reply.id == id ==>
                  (Got(f) == f.reply.text <==> |f.reply.text| > 0 ==> Welcome(f, w.calls, w.hist.opening[id]))
      {
        assert FateRight(f, w.calls, w.hist.opening);
        if f.reply.id == id { WholeIfWelcome(f, w.calls, w.hist.opening); }
        hide Welcome;
      }
      TakenIsAll(w.hist.fates, id);
      hide FateRight, Got, Welcome;
      CompleteIs(w.hist.fates, id);
    }
  }

  lemma CompleteIs(fates: seq<Fate>, id: Id)
    ensures SendsComplete(fates, id) <==> forall f | f in fates && f.reply.id == id :: Got(f) == f.reply.text
  {}

  /** A reply can be lost while its connection lives: a client connects, sends a line, is answered,
      and its socket takes only the first bytes of the answer before it fails a send. */
  function LosingRun(h: Handle, text: Bytes, taken: nat): seq<Action> {
    [DoAccept(h), DoReceive(0, Received([LF])), DoPop, DoReply(1, text), DoSwap, DoSettle(taken)]
  }

  lemma LosingAccept(h: Handle) returns (w: World)
    ensures w == Step(START, DoAccept(h))
    ensures |w.slots| == MAX_CLIENTS && w.slots[0] == Slot(Some(h), [], 1) && w.calls == [Opened(h)]
    ensures w.recvQueue == [] && w.sendQueue == [] && w.local == []
    ensures w.hist == START.hist.(opening := map[1 := 0], input := map[1 := []])
  {
    w := Step(START, DoAccept(h));
    assert [] + [Opened(h)] == [Opened(h)];
  }

  lemma LosingLine(v: World, h: Handle) returns (w: World)
    requires |v.slots| == MAX_CLIENTS && v.slots[0] == Slot(Some(h), [], 1) && v.recvQueue == []
    ensures w == Step(v, DoReceive(0, Received([LF])))
    ensures |w.slots| == MAX_CLIENTS && w.slots[0] == Slot(Some(h), [], 1) && w.calls == v.calls + [Read(h, [LF])]
    ensures w.recvQueue == [Tagged(1, [])] && w.sendQueue == v.sendQueue && w.local == v.local
    ensures w.hist.opening == v.hist.opening && w.hist.popped == v.hist.popped && w.hist.issued == v.hist.issued
  {
    w := Step(v, DoReceive(0, Received([LF])));
    OneLine();
    assert [] + [LF] == [LF];
    hide Lines, Tail;
    assert TagAll(1, [[]]) == [Tagged(1, [])];
  }

  lemma LosingAnswer(v: World, h: Handle, text: Bytes, taken: nat) returns (w: World)
    requires |v.slots| == MAX_CLIENTS && v.slots[0] == Slot(Some(h), [], 1) && taken < |text|
    requires v.recvQueue == [Tagged(1, [])] && v.sendQueue == [] && v.local == []
    ensures w == Step(Step(Step(Step(v, DoPop), DoReply(1, text)), DoSwap), DoSettle(taken))
    ensures w.slots == v.slots && w.calls == v.calls + [Wrote(h, text[..taken])] && w.local == [] && w.sendQueue == []
    ensures w.hist.opening == v.hist.opening && w.hist.popped == v.hist.popped + [Tagged(1, [])]
    ensures w.hist.issued == v.hist.issued + [Tagged(1, text)]
  {
    var u := Step(Step(Step(v, DoPop), DoReply(1, text)), DoSwap);
    assert [] + [Tagged(1, text)] == [Tagged(1, text)];
    assert u == v.(recvQueue := [], local := [Tagged(1, text)], sendQueue := [], hist := u.hist);
    w := Step(u, DoSettle(taken));
  }

  lemma ReplyCanBeLost(h: Handle, text: Bytes, taken: nat)
    requires taken < |text|
    ensures var w := Run(START, LosingRun(h, text, taken));
            && w.hist.opening == map[1 := 0] && w.hist.popped == [Tagged(1, [])] && Live(w, 1) && Up(w.calls, 0)
            && w.hist.issued == [Tagged(1, text)] && w.local == [] && w.sendQueue == []
            && WrittenOn(w.calls, 0) == text[..taken]
  {
    SixSteps(START, DoAccept(h), DoReceive(0, Received([LF])), DoPop, DoReply(1, text), DoSwap, DoSettle(taken));
    hide Step, Run, WrittenOn, Up;
    var w1 := LosingAccept(h);
    var w2 := LosingLine(w1, h);
    var w := LosingAnswer(w2, h, text, taken);
    LosingTrace(h, text[..taken]);
    assert w.slots[0].fd.Some? && w.slots[0].id == 1;
  }

  lemma OneLine()
    ensures Lines([LF]) == [[]] && Tail([LF]) == []
  {
    SplitSnoc([], LF);
    SplitEmpty([]);
    assert [] + [LF] == [LF];
  }

  lemma LosingTrace(h: Handle, data: Bytes)
    ensures var calls := [Opened(h)] + [Read(h, [LF])] + [Wrote(h, data)];
            Up(calls, 0) && WrittenOn(calls, 0) == data
  {
    var c1 := [Opened(h)];
    var c2 := c1 + [Read(h, [LF])];
    assert [] + c1 == c1;
    ConnNext([], Opened(h), h);
    ConnNext(c1, Read(h, [LF]), h);
    ConnNext(c2, Wrote(h, data), h);
    NotYet([], 0);
    OnNext([], Opened(h), 0);
    OnNext(c1, Read(h, [LF]), 0);
    OnNext(c2, Wrote(h, data), 0);
    hide Conn, WrittenOn;
  }

  lemma NoActions(w: World)
    ensures Run(w, []) == w
  {}

  /** A reply does not follow a handle number: a client hangs up, the next one gets its handle and
      its slot, and a late reply to the first is written to neither. */
  function ReissuingRun(h: Handle, text: Bytes, taken: nat): seq<Action> {
    [DoAccept(h), DoReceive(0, HangUp), DoAccept(h), DoReply(1, text), DoSwap, DoSettle(taken)]
  }

  lemma LateReplyIsDropped(h: Handle, text: Bytes, taken: nat)
    ensures var w := Run(START, ReissuingRun(h, text, taken));
            && w.hist.opening == map[1 := 0, 2 := 2] && w.calls == [Opened(h), Closed(h), Opened(h)]
            && |w.slots| == MAX_CLIENTS && w.slots[0] == Slot(Some(h), [], 2)
            && w.hist.fates == [Fate(Tagged(1, text), 3, taken, None)]
  {
    var w1 := Step(START, DoAccept(h));
    var w2 := Step(w1, DoReceive(0, HangUp));
    hide Conn, Step;
    ReissuedHandle(w1, w2, h);
    FirstSlotTaken(w2, h);
    var w3 := Step(w2, DoAccept(h));
    var w4 := Step(Step(w3, DoReply(1, text)), DoSwap);
    ReplySwapped(w3, Tagged(1, text));
    LateReply(w4, h, taken);
    SixSteps(START, DoAccept(h), DoReceive(0, HangUp), DoAccept(h), DoReply(1, text), DoSwap, DoSettle(taken));
  }

  lemma FirstSlotTaken(w: World, h: Handle)
    requires |w.slots| == MAX_CLIENTS && w.slots[0].fd == None && Conn(w.calls, h) == None
    ensures Step(w, DoAccept(h))
            == w.(slots := w.slots[0 := Slot(Some(h), [], w.nextId)], nextId := w.nextId + 1,
                  clientCount := w.clientCount + 1, calls := w.calls + [Opened(h)],
                  hist := w.hist.(opening := w.hist.opening[w.nextId := |w.calls|],
                                  input := w.hist.input[w.nextId := []]))
  {
    hide Conn;
  }

  lemma ReissuedHandle(w1: World, w2: World, h: Handle)
    requires w1 == Step(START, DoAccept(h)) && w2 == Step(w1, DoReceive(0, HangUp))
    ensures w2.slots == START.slots && w2.nextId == 2 && w2.calls == [Opened(h), Closed(h)]
    ensures w2.sendQueue == w2.local == [] && w2.hist.opening == map[1 := 0] && w2.hist.fates == []
    ensures Conn(w2.calls, h) == None
  {
    hide Conn;
    NothingOpen(h);
    FirstSlotTaken(START, h);
    assert [] + [Opened(h)] == [Opened(h)];
    ConnNext([Opened(h)], Closed(h), h);
    assert w2.slots == START.slots;
  }

  lemma NothingOpen(h: Handle)
    ensures Conn([], h) == None
  {}

  lemma ReplySwapped(w: World, reply: Tagged)
    requires w.sendQueue == w.local == []
    ensures Step(Step(w, DoReply(reply.id, reply.text)), DoSwap)
            == w.(local := [reply], hist := w.hist.(issued := w.hist.issued + [reply]))
  {
    assert [] + [reply] == [reply];
  }

  lemma LateReply(w: World, h: Handle, taken: nat)
    requires |w.slots| == MAX_CLIENTS && w.slots[0] == Slot(Some(h), [], 2)
    requires |w.local| == 1 && w.local[0].id == 1 && forall k | 0 < k < |w.slots| :: w.slots[k].fd == None
    ensures Step(w, DoSettle(taken))
            == w.(local := [],
                  hist := w.hist.(fates := w.hist.fates + [Fate(w.local[0], |w.calls|, taken, None)]))
  {}

  lemma FirstStep(w: World, a: Action, rest: seq<Action>)
    ensures Run(w, [a] + rest) == Run(Step(w, a), rest)
  {
    hide Step;
    assert ([a] + rest)[1..] == rest;
  }

  lemma ThreeSteps(w: World, a: Action, b: Action, c: Action, rest: seq<Action>)
    ensures Run(w, [a, b, c] + rest) == Run(Step(Step(Step(w, a), b), c), rest)
  {
    hide Step, Run;
    FirstStep(w, a, [b, c] + rest);
    FirstStep(Step(w, a), b, [c] + rest);
    FirstStep(Step(Step(w, a), b), c, rest);
    assert [a] + ([b, c] + rest) == [a, b, c] + rest;
    assert [b] + ([c] + rest) == [b, c] + rest;
  }

  lemma SixSteps(w: World, a: Action, b: Action, c: Action, d: Action, e: Action, f: Action)
    ensures Run(w, [a, b, c, d, e, f]) == Step(Step(Step(Step(Step(Step(w, a), b), c), d), e), f)
  {
    hide Step, Run;
    ThreeSteps(w, a, b, c, [d, e, f]);
    ThreeSteps(Step(Step(Step(w, a), b), c), d, e, f, []);
    NoActions(Step(Step(Step(Step(Step(Step(w, a), b), c), d), e), f));
    assert [d, e, f] + [] == [d, e, f];
    assert [a, b, c] + [d, e, f] == [a, b, c, d, e, f];
  }

  // ---------------------------------------------------------------- lines received are served

  lemma NoLines(s: Bytes)
    ensures Lines(s) == [] <==> LF !in s
  {
    SplitIsExact(s);
    if LF !in s {
      NoLf(s);
    }
    hide Split;
  }

  /** On every connection of every run: the lines of all bytes received are, in order, those the main
      loop has taken, those queued, and those of a chunk that met the size cap. So all are served if
      and only if no such chunk held a line feed. */
  lemma EveryLineIsServed(actions: seq<Action>, id: Id)
    ensures var w := Run(START, actions);
            id in w.hist.opening ==>
              var received := Lines(ReadOn(w.calls, w.hist.opening[id]));
              var served := Of(w.hist.popped, id) + Of(w.recvQueue, id);
              && id in w.hist.input
              && received
                 == served
                    + (if id in w.hist.refused then Lines(Tail(w.hist.input[id]) + w.hist.refused[id]) else [])
              && (received == served <==> !(id in w.hist.refused && LF in w.hist.refused[id]))
  {
    StartHolds();
    RunKeeps(START, actions);
    var w := Run(START, actions);
    hide Run, START, Of, ReadOn, Handles, Answers, Connections, Buffered, Lines, Tail;
    if id in w.hist.opening {
      OfConcat(w.hist.popped, w.recvQueue, id);
      ReceivedAt(w, id);
      QueuedAt(w, id);
      hide Inv;
      if id in w.hist.refused {
        RefusedLines(w.hist.input[id], w.hist.refused[id]);
      } else {
        assert w.hist.input[id] + [] == w.hist.input[id];
      }
    }
  }

  /** What a refused chunk would have added. */
  lemma RefusedLines(input: Bytes, chunk: Bytes)
    ensures Lines(input + chunk) == Lines(input) + Lines(Tail(input) + chunk)
    ensures Lines(input + chunk) == Lines(input) <==> LF !in chunk
  {
    hide Lines, Tail;
    LinesMore(input, chunk);
    NoLines(Tail(input) + chunk);
    TailHasNoLf(input);
  }

  lemma TailHasNoLf(s: Bytes)
    ensures LF !in Tail(s)
  {
    SplitIsExact(s);
    hide Split;
  }

  /** Chunks of at most 4 KiB. */
  predicate SmallChunks(actions: seq<Action>) {
    forall a | a in actions && a.DoReceive? && a.event.Received? :: |a.event.data| <= MAX_CHUNK
  }

  ghost predicate RefusedSmall(w: World) {
    forall id | id in w.hist.refused :: |w.hist.refused[id]| <= MAX_CHUNK
  }

  lemma {:induction false} RefusedStaySmall(w: World, actions: seq<Action>)
    requires RefusedSmall(w) && SmallChunks(actions)
    ensures RefusedSmall(Run(w, actions))
    decreases |actions|
  {
    if |actions| > 0 {
      assert actions[0] in actions;
      SmallStep(w, actions[0]);
      hide Step, RefusedSmall;
      RefusedStaySmall(Step(w, actions[0]), actions[1..]);
    }
  }

  lemma SmallStep(w: World, a: Action)
    requires RefusedSmall(w) && (a.DoReceive? && a.event.Received? ==> |a.event.data| <= MAX_CHUNK)
    ensures RefusedSmall(Step(w, a))
  {
    hide Lines, Tail, Conn, FindSlot;
  }

  /** Over any run read in chunks of at most 4 KiB, a connection whose lines are at most 60 KiB never
      meets the size cap, and every line received on it is served. */
  lemma ShortLinesAreServed(actions: seq<Action>, id: Id)
    requires SmallChunks(actions)
    ensures var w := Run(START, actions);
            id in w.hist.opening && ShortLines(ReadOn(w.calls, w.hist.opening[id]), MAX_BUFFER - MAX_CHUNK) ==>
              && id !in w.hist.refused
              && Lines(ReadOn(w.calls, w.hist.opening[id])) == Of(w.hist.popped, id) + Of(w.recvQueue, id)
  {
    EveryLineIsServed(actions, id);
    StartHolds();
    RunKeeps(START, actions);
    RefusedStaySmall(START, actions);
    var w := Run(START, actions);
    hide Run, START, Of, ReadOn, Lines, Conn, Handles, Answers, Connections, Queued, ShortLines;
    if && id in w.hist.opening && id in w.hist.refused
       && ShortLines(ReadOn(w.calls, w.hist.opening[id]), MAX_BUFFER - MAX_CHUNK)
    {
      ShortTail(w.hist.input[id], w.hist.refused[id], MAX_BUFFER - MAX_CHUNK);
    }
  }

  /** A client connects and sends `n` full chunks without a line feed. */
  function FillingRun(h: Handle, n: nat): seq<Action> {
    if n == 0 then [DoAccept(h)] else FillingRun(h, n - 1) + [DoReceive(0, Received(Blank(MAX_CHUNK)))]
  }

  function Blank(n: nat): (s: Bytes)
    ensures |s| == n && LF !in s
  {
    seq(n, _ => 32)
  }

  /** Client 1 has sent `n` full chunks, all of them still waiting for a line feed. */
  ghost predicate Filling(w: World, h: Handle, n: nat) {
    && |w.slots| == MAX_CLIENTS && w.slots[0] == Slot(Some(h), Blank(n * MAX_CHUNK), 1)
    && w.recvQueue == [] && w.hist.popped == [] && w.hist.opening == map[1 := 0] && w.hist.refused == map[]
  }

  lemma {:induction false} FillingRuns(h: Handle, n: nat)
    requires n * MAX_CHUNK <= MAX_BUFFER
    ensures Filling(Run(START, FillingRun(h, n)), h, n) && SmallChunks(FillingRun(h, n))
  {
    hide Run, Step;
    if n == 0 {
      RunSnoc(START, [], DoAccept(h));
      NoActions(START);
      var w := LosingAccept(h);
      assert [] + [DoAccept(h)] == [DoAccept(h)];
      assert Blank(0) == [];
    } else {
      FillingRuns(h, n - 1);
      var v := Run(START, FillingRun(h, n - 1));
      RunSnoc(START, FillingRun(h, n - 1), DoReceive(0, Received(Blank(MAX_CHUNK))));
      FillingMore(v, h, n - 1);
    }
  }

  lemma FillingMore(w: World, h: Handle, n: nat)
    requires Filling(w, h, n) && (n + 1) * MAX_CHUNK <= MAX_BUFFER
    ensures Filling(Step(w, DoReceive(0, Received(Blank(MAX_CHUNK)))), h, n + 1)
  {
    assert Blank(n * MAX_CHUNK) + Blank(MAX_CHUNK) == Blank((n + 1) * MAX_CHUNK);
    hide Blank;
    NoLf(Blank((n + 1) * MAX_CHUNK));
    NoLines(Blank((n + 1) * MAX_CHUNK));
    hide Split;
  }

  /** The cap can cost lines, and need not: after 16 full chunks without a line feed, a 17th closes
      the connection, and it takes lines with it if and only if it holds a line feed. */
  lemma CapCanCostLines(h: Handle, last: Bytes)
    requires 0 < |last| <= MAX_CHUNK
    ensures var actions := FillingRun(h, 16) + [DoReceive(0, Received(last))];
            var w := Run(START, actions);
            && SmallChunks(actions)
            && w.hist.opening == map[1 := 0] && w.hist.refused == map[1 := last] && !Live(w, 1)
            && w.hist.popped == [] && w.recvQueue == []
            && (Lines(ReadOn(w.calls, 0)) == [] <==> LF !in last)
  {
    var actions := FillingRun(h, 16) + [DoReceive(0, Received(last))];
    FillingRuns(h, 16);
    RunSnoc(START, FillingRun(h, 16), DoReceive(0, Received(last)));
    EveryLineIsServed(actions, 1);
    StartHolds();
    RunKeeps(START, FillingRun(h, 16));
    hide Run, START, Lines, ReadOn, FillingRun;
    CapTrips(Run(START, FillingRun(h, 16)), h, last);
    hide Step;
  }

  lemma CapTrips(w: World, h: Handle, last: Bytes)
    requires Inv(w) && Filling(w, h, 16) && |last| > 0
    ensures var v := Step(w, DoReceive(0, Received(last)));
            && v.hist.opening == map[1 := 0] && v.hist.refused == map[1 := last] && !Live(v, 1)
            && v.hist.popped == [] && v.recvQueue == []
  {
    hide Handles, Requests, Answers, CountOccupied, Blank, SplitChunk;
  }

  // ---------------------------------------------------------------- hanging up

  /** In any run a hang-up, an error or a failed receive ends the connection at once and for good: its
      handle is closed and its slot free, while lines it sent before stay queued. */
  lemma HangUpEnds(actions: seq<Action>, i: nat, event: Event)
    requires event.HangUp? || event.RecvFailed?
    ensures var w := Run(START, actions);
            Occupied(w, i) ==>
              var v := Step(w, DoReceive(i, event));
              var h, id := w.slots[i].fd.value, w.slots[i].id;
              && v.calls == w.calls + [Closed(h)] && Conn(v.calls, h) == None && !Live(v, id)
              && v.slots[i] == Slot(None, [], 0) && v.clientCount == w.clientCount - 1
              && v.recvQueue == w.recvQueue && v.sendQueue == w.sendQueue && v.local == w.local
              && (forall k | 0 <= k < |w.slots| && k != i :: v.slots[k] == w.slots[k])
  {
    StartHolds();
    RunKeeps(START, actions);
    var w := Run(START, actions);
    hide Run, START, Requests, Answers, CountOccupied;
    if Occupied(w, i) {
      ConnNext(w.calls, Closed(w.slots[i].fd.value), w.slots[i].fd.value);
    }
    hide Conn;
  }

  // ---------------------------------------------------------------- room for sixteen

  lemma {:induction false} CountAll(slots: seq<Slot>, n: nat)
    requires n <= |slots|
    ensures CountOccupied(slots, n) <= n
    ensures CountOccupied(slots, n) == n <==> forall k | 0 <= k < n :: slots[k].fd.Some?
  {
    if n > 0 {
      CountAll(slots, n - 1);
    }
  }

  /** Over any run at most 16 clients are connected, and a new one is turned away just if there are 16:
      otherwise it is counted, and open under an id of its own. */
  lemma RoomForSixteen(actions: seq<Action>, h: Handle)
    ensures var w := Run(START, actions);
            && w.clientCount <= 16
            && (Conn(w.calls, h) == None ==>
                  var v := Step(w, DoAccept(h));
                  if w.clientCount == 16 then
                    v == w.(calls := w.calls + [Opened(h)] + [Closed(h)])
                  else
                    && v.clientCount == w.clientCount + 1 && w.nextId !in w.hist.opening
                    && w.nextId in v.hist.opening && v.hist.opening[w.nextId] == |w.calls|
                    && v.calls == w.calls + [Opened(h)] && Up(v.calls, |w.calls|))
  {
    StartHolds();
    RunKeeps(START, actions);
    var w := Run(START, actions);
    hide Run, START, Requests, Answers, CountOccupied;
    CountAll(w.slots, |w.slots|);
    ConnNext(w.calls, Opened(h), h);
    hide Conn;
  }

  // ---------------------------------------------------------------- the end

  lemma {:induction false} CloseAllConns(w: World, n: nat, h: Handle)
    requires n <= |w.slots|
    ensures Conn(CloseAll(w, n).calls, h)
         == if exists i | 0 <= i < n :: w.slots[i].fd == Some(h) then None else Conn(w.calls, h)
  {
    if n > 0 {
      CloseAllConns(w, n - 1, h);
      var v := CloseAll(w, n - 1);
      if v.slots[n - 1].fd.Some? {
        ConnNext(v.calls, Closed(v.slots[n - 1].fd.value), h);
      }
      hide Conn, CloseAll;
    }
  }

  /** After the clean-up no client's handle is open. */
  lemma CleanUpClosesAll(w: World, h: Handle)
    requires Inv(w)
    ensures Conn(CloseAll(w, |w.slots|).calls, h) == None
  {
    CloseAllConns(w, |w.slots|, h);
    hide Conn, CloseAll, Requests, Answers, CountOccupied;
    if Conn(w.calls, h).Some? {
      assert HoldsHandle(w, h);
    }
  }
}
