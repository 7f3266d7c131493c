/** What becomes of the messages other threads send: each is put on a session's wire, dropped by
    the queue's limit, or still waiting - but not always for the session it was meant for. */
module WsOutbox {
  import opened Basics
  import opened Sockets
  import opened SocketTrace
  import opened WsFrames
  import opened WsSession
  import opened WsSockets

  /** A message queued: the session its thread found connected before, and how often the queue had
      been drained by the time it was queued. */
  datatype Letter = Letter(item: SendItem, session: nat, round: nat)

  datatype Outcome = Dropped | Sent

  /** What went onto a wire: the parser's answers, or a drained queue. */
  datatype Piece = Answer(bytes: Bytes) | Data(items: seq<SendItem>)

  /** Observations of a run, for stating properties only. */
  datatype Log = Log(
    wires: seq<seq<Piece>>,   // by session, in order of upgrade: what was handed to its socket
    ended: seq<nat>,          // by session that is over: drains done by then
    drains: seq<nat>,         // by drain: the session it went to
    seen: map<nat, nat>,      // by thread about to queue a message: the session it found
    letters: seq<Letter>,     // messages queued, in order
    outcomes: seq<Outcome>    // what became of the first of them
  )

  datatype Post = Post(w: World, log: Log)

  function Begin(h: Handle): Post {
    Post(Start(h), Log([], [], [], map[], [], []))
  }

  function OnWire(log: Log, piece: Piece): Log {
    if |log.wires| == 0 then log
    else log.(wires := log.wires[|log.wires| - 1 := log.wires[|log.wires| - 1] + [piece]])
  }

  /** What a step from `w` to `v` shows. */
  function Observe(log: Log, w: World, a: Action, v: World): Log {
    match a
    case DoAccept(_) => log
    case DoServe(_, _) =>
      if w.client == None && v.client.Some? then log.(wires := log.wires + [[]]) else log
    case DoListen(_) =>
      if w.client == None || |w.session.wire| > |v.session.wire| then log
      else
        var answered := OnWire(log, Answer(v.session.wire[|w.session.wire|..]));
        if v.client == None then answered.(ended := answered.ended + [|answered.drains|]) else answered
    case DoDrain =>
      if w.client == None then log
      else
        OnWire(log, Data(w.sendQueue)).(
          drains := log.drains + [|log.ended|],
          outcomes := log.outcomes + seq(|w.sendQueue|, _ => Sent))
    case DoCheck(thread) =>
      if w.client == None || thread in w.passed then log else log.(seen := log.seen[thread := |log.ended|])
    case DoPush(thread, text, data) =>
      if thread !in w.passed || thread !in log.seen then log
      else log.(
        seen := log.seen - {thread},
        letters := log.letters + [Letter(Item(text, data), log.seen[thread], |log.drains|)],
        outcomes := if |w.sendQueue| >= SEND_QUEUE_LIMIT then log.outcomes + [Dropped] else log.outcomes)
  }

  function StepPost(p: Post, a: Action, classify: Bytes -> Request): (q: Post)
    requires WellFormed(p.w)
    ensures WellFormed(q.w)
  {
    StepWellFormed(p.w, a, classify);
    var v := Step(p.w, a, classify);
    Post(v, Observe(p.log, p.w, a, v))
  }

  function RunPost(p: Post, actions: seq<Action>, classify: Bytes -> Request): (q: Post)
    requires WellFormed(p.w)
    ensures WellFormed(q.w)
    decreases |actions|
  {
    if |actions| == 0 then p else RunPost(StepPost(p, actions[0], classify), actions[1..], classify)
  }

  /** Observing changes nothing. */
  lemma {:induction false} ObservedRun(p: Post, actions: seq<Action>, classify: Bytes -> Request)
    requires WellFormed(p.w)
    ensures RunPost(p, actions, classify).w == Run(p.w, actions, classify)
    decreases |actions|
  {
    hide Step, Observe, WellFormed;
    if |actions| > 0 {
      ObservedRun(StepPost(p, actions[0], classify), actions[1..], classify);
    }
  }

  // ---------------------------------------------------------------- reading the log

  /** The bytes of a wire, and the messages among them. */
  function WireBytes(pieces: seq<Piece>): Bytes {
    if |pieces| == 0 then []
    else
      var last := pieces[|pieces| - 1];
      WireBytes(pieces[..|pieces| - 1])
      + match last
        case Answer(bytes) => bytes
        case Data(items) => if forall i | i in items :: i.opcode < 16 then Frames(items) else []
  }

  function WireItems(pieces: seq<Piece>): seq<SendItem> {
    if |pieces| == 0 then []
    else
      var last := pieces[|pieces| - 1];
      WireItems(pieces[..|pieces| - 1]) + if last.Data? then last.items else []
  }

  /** Where a letter went: the session of the first drain after it was queued. */
  function WentTo(log: Log, n: nat): Option<nat>
    requires n < |log.letters|
  {
    var round := log.letters[n].round;
    if n < |log.outcomes| && log.outcomes[n] == Sent && round < |log.drains| then Some(log.drains[round]) else None
  }

  /** The messages among the first `n` that went to session `s`, in order. */
  function SentTo(log: Log, s: nat, n: nat): seq<SendItem>
    requires n <= |log.letters|
  {
    if n == 0 then []
    else SentTo(log, s, n - 1) + if WentTo(log, n - 1) == Some(s) then [log.letters[n - 1].item] else []
  }

  // ---------------------------------------------------------------- invariant

  /** Sessions: one wire each, and the last one's is the session's own. */
  ghost predicate Sessions(p: Post) {
    && |p.log.wires| == |p.log.ended| + (if p.w.client.Some? then 1 else 0)
    && (p.w.client.Some? ==> WireBytes(p.log.wires[|p.log.ended|]) == p.w.session.wire)
    && (forall s | 0 <= s < |p.log.ended| :: p.log.ended[s] <= |p.log.drains|)
  }

  /** Threads about to queue a message, and messages queued, are for sessions that have begun. */
  ghost predicate Seen(p: Post) {
    && p.log.seen.Keys == p.w.passed
    && (forall t | t in p.log.seen :: p.log.seen[t] < |p.log.wires|)
    && (forall n | 0 <= n < |p.log.letters| :: p.log.letters[n].session < |p.log.wires|)
  }

  /** The queue holds the letters without an outcome yet, all queued since the last drain. */
  ghost predicate Queue(p: Post) {
    var log := p.log;
    && |log.letters| == |log.outcomes| + |p.w.sendQueue|
    && (forall n | |log.outcomes| <= n < |log.letters| ::
          log.letters[n].item == p.w.sendQueue[n - |log.outcomes|] && log.letters[n].round == |log.drains|)
    && (forall n | 0 <= n < |log.letters| :: log.letters[n].round <= |log.drains|)
    && (forall n | 0 <= n < |log.outcomes| :: log.outcomes[n] == Sent ==> log.letters[n].round < |log.drains|)
  }

  /** 32 more letters were queued before the next drain. */
  predicate Crowded(log: Log, n: nat)
    requires n < |log.letters|
  {
    n + SEND_QUEUE_LIMIT < |log.letters| && log.letters[n + SEND_QUEUE_LIMIT].round == log.letters[n].round
  }

  /** Just these letters are dropped, to make room. */
  ghost predicate Drops(log: Log) {
    && |log.outcomes| <= |log.letters| <= |log.outcomes| + SEND_QUEUE_LIMIT
    && (forall n | 0 <= n < |log.outcomes| :: log.outcomes[n] == Dropped <==> Crowded(log, n))
  }

  /** Sessions, drains and letters in time: a drain goes to the session after all those that ended by
      then, and a letter is for that one or one before it. */
  ghost predicate Order(log: Log) {
    && (forall d | 0 <= d < |log.drains| :: log.drains[d] <= |log.ended|)
    && (forall d, s | 0 <= d < |log.drains| && 0 <= s < |log.ended| :: log.ended[s] <= d <==> s < log.drains[d])
    && (forall n | 0 <= n < |log.letters| :: log.letters[n].session <= |log.ended|)
    && (forall n, s | 0 <= n < |log.letters| && 0 <= s < log.letters[n].session && s < |log.ended| ::
          log.ended[s] <= log.letters[n].round)
  }

  /** The messages on each wire are the letters that went there. */
  ghost predicate Wires(log: Log) {
    && |log.outcomes| <= |log.letters|
    && (forall d | 0 <= d < |log.drains| :: log.drains[d] < |log.wires|)
    && forall s | 0 <= s < |log.wires| :: WireItems(log.wires[s]) == SentTo(log, s, |log.letters|)
  }

  ghost predicate Inv(p: Post) {
    WellFormed(p.w) && Sessions(p) && Seen(p) && Queue(p) && Drops(p.log) && Order(p.log) && Wires(p.log)
  }

  // ---------------------------------------------------------------- every step keeps it

  /** Parsing only ever adds to the wire. */
  lemma {:induction false} DrainGrows(s: State)
    ensures s.wire <= Drain(s).0.wire
    decreases |s.recvBuf|
  {
    hide Next, Reply;
    match Next(s.recvBuf)
    case NeedMore =>
    case TooBig =>
    case Complete(f, total) =>
      NextExtends(s.recvBuf, []);
      var rest := s.(recvBuf := s.recvBuf[total..]);
      if f.opcode != CLOSE {
        DrainGrows(WsSession.Handle(rest, f));
      }
  }

  lemma ListenShape(w: World, event: Event)
    ensures var v := Listen(w, event);
            && v.sendQueue == w.sendQueue && w.session.wire <= v.session.wire
            && (v.client == w.client || v.client == None)
  {
    if event.Received? {
      DrainGrows(w.session.(recvBuf := w.session.recvBuf + event.data));
    }
    hide Drain;
  }

  lemma ServeShape(w: World, i: nat, event: Event, classify: Bytes -> Request)
    requires i < |w.pending|
    ensures var v := Serve(w, i, event, classify);
            && v.sendQueue == w.sendQueue
            && if w.client == None && v.client.Some? then v.session.wire == []
               else v.client == w.client && v.session == w.session
  {
    hide HasHead;
  }

  lemma WireSnoc(pieces: seq<Piece>, piece: Piece)
    requires piece.Data? ==> forall i | i in piece.items :: i.opcode < 16
    ensures WireBytes(pieces + [piece])
            == WireBytes(pieces) + if piece.Answer? then piece.bytes else Frames(piece.items)
    ensures WireItems(pieces + [piece]) == WireItems(pieces) + if piece.Data? then piece.items else []
  {
    assert (pieces + [piece])[..|pieces|] == pieces;
    hide Frames;
  }

  /** A log that only adds to another leaves what is known of old letters. */
  lemma {:induction false} SentToKeeps(a: Log, b: Log, s: nat, n: nat)
    requires n <= |a.letters| <= |b.letters|
    requires forall k | 0 <= k < n :: a.letters[k] == b.letters[k] && WentTo(a, k) == WentTo(b, k)
    ensures SentTo(a, s, n) == SentTo(b, s, n)
  {
    hide WentTo;
    if n > 0 {
      SentToKeeps(a, b, s, n - 1);
    }
  }

  /** Letters without an outcome went nowhere yet. */
  lemma {:induction false} NoneSent(log: Log, s: nat, m: nat, n: nat)
    requires m <= n <= |log.letters| && forall k | m <= k < n :: WentTo(log, k) != Some(s)
    ensures SentTo(log, s, n) == SentTo(log, s, m)
  {
    hide WentTo;
    if m < n {
      NoneSent(log, s, m, n - 1);
    }
  }

  /** Letters that all went one way. */
  lemma {:induction false} AllSent(log: Log, s: nat, m: nat, n: nat, items: seq<SendItem>)
    requires m <= n <= |log.letters| && n - m <= |items|
    requires forall k | m <= k < n :: WentTo(log, k) == Some(s) && log.letters[k].item == items[k - m]
    ensures SentTo(log, s, n) == SentTo(log, s, m) + items[..n - m]
  {
    hide WentTo;
    if m < n {
      AllSent(log, s, m, n - 1, items);
      assert items[..n - m] == items[..n - m - 1] + [items[n - m - 1]];
    }
  }

  lemma AcceptPosts(p: Post, h: Handle, classify: Bytes -> Request)
    requires Inv(p)
    ensures Inv(StepPost(p, DoAccept(h), classify))
  {
    hide Drops, Order, Wires, WireBytes, Open;
  }

  lemma ServeSessions(p: Post, i: nat, event: Event, classify: Bytes -> Request)
    requires WellFormed(p.w) && Sessions(p) && Seen(p) && i < MAX_PENDING_HTTP
    ensures var q := StepPost(p, DoServe(i, event), classify); Sessions(q) && Seen(q)
  {
    ServeShape(p.w, i, event, classify);
    ServePassed(p.w, i, event, classify);
    hide Serve, Frames;
  }

  lemma ServePassed(w: World, i: nat, event: Event, classify: Bytes -> Request)
    requires i < |w.pending|
    ensures Serve(w, i, event, classify).passed == w.passed
  {
    hide HasHead;
  }

  lemma ServeLog(p: Post, i: nat, event: Event, classify: Bytes -> Request)
    requires WellFormed(p.w) && Queue(p) && i < MAX_PENDING_HTTP
    ensures var q := StepPost(p, DoServe(i, event), classify);
            && Queue(q)
            && q.log == if p.w.client == None && q.w.client.Some? then p.log.(wires := p.log.wires + [[]]) else p.log
  {
    ServeShape(p.w, i, event, classify);
    hide Serve;
  }

  lemma ServePosts(p: Post, i: nat, event: Event, classify: Bytes -> Request)
    requires Inv(p)
    ensures Inv(StepPost(p, DoServe(i, event), classify))
  {
    if i < MAX_PENDING_HTTP {
      ServeSessions(p, i, event, classify);
      ServeLog(p, i, event, classify);
      var q := StepPost(p, DoServe(i, event), classify);
      hide StepPost, Seen, Queue, Drops, Order, Wires, WellFormed, WireBytes;
      if p.w.client == None && q.w.client.Some? {
        NewWire(p.log);
      }
    }
  }

  /** A session beginning. */
  lemma NewWire(log: Log)
    requires Wires(log) && Order(log) && |log.wires| == |log.ended| && Drops(log)
    ensures Wires(log.(wires := log.wires + [[]])) && Order(log.(wires := log.wires + [[]]))
    ensures Drops(log.(wires := log.wires + [[]]))
  {
    var v := log.(wires := log.wires + [[]]);
    forall s | 0 <= s < |v.wires|
      ensures WireItems(v.wires[s]) == SentTo(v, s, |v.letters|)
    {
      SentToKeeps(log, v, s, |log.letters|);
      if s == |log.wires| {
        forall k | 0 <= k < |log.letters|
          ensures WentTo(log, k) != Some(s)
        {
          DrainedBy(log, k);
        }
        NoneSent(log, s, 0, |log.letters|);
      }
    }
    hide WentTo;
  }

  lemma DrainedBy(log: Log, k: nat)
    requires Wires(log) && k < |log.letters|
    ensures WentTo(log, k).Some? ==> WentTo(log, k).value < |log.wires|
  {}

  /** Where letters went does not depend on what else is on the wires or when sessions ended. */
  lemma SentToSame(log: Log, v: Log, s: nat)
    requires v == log.(wires := v.wires, ended := v.ended)
    ensures SentTo(v, s, |v.letters|) == SentTo(log, s, |log.letters|)
  {
    assert forall k | 0 <= k < |log.letters| :: WentTo(log, k) == WentTo(v, k);
    hide WentTo;
    SentToKeeps(log, v, s, |log.letters|);
  }

  lemma AnsweredWires(log: Log, piece: Piece)
    requires Wires(log) && |log.wires| > 0 && piece.Answer?
    ensures Wires(OnWire(log, piece))
  {
    hide WentTo, WireItems, SentTo;
    var v := OnWire(log, piece);
    WireSnoc(log.wires[|log.wires| - 1], piece);
    forall s | 0 <= s < |v.wires|
      ensures WireItems(v.wires[s]) == SentTo(v, s, |v.letters|)
    {
      SentToSame(log, v, s);
      assert WireItems(log.wires[s]) == SentTo(log, s, |log.letters|);
    }
  }

  lemma EndedWires(log: Log, n: nat)
    requires Wires(log)
    ensures Wires(log.(ended := log.ended + [n]))
  {
    hide WentTo, WireItems, SentTo;
    var v := log.(ended := log.ended + [n]);
    forall s | 0 <= s < |v.wires|
      ensures WireItems(v.wires[s]) == SentTo(v, s, |v.letters|)
    {
      SentToSame(log, v, s);
    }
  }

  lemma ListenSeen(p: Post, event: Event, classify: Bytes -> Request)
    requires WellFormed(p.w) && Seen(p) && p.w.client.Some?
    ensures Seen(StepPost(p, DoListen(event), classify))
  {
    ListenShape(p.w, event);
    hide Feed, Frames;
  }

  lemma ListenOrder(log: Log, wires: seq<seq<Piece>>)
    requires Order(log) && |log.wires| > 0
    requires forall n | 0 <= n < |log.letters| :: log.letters[n].round <= |log.drains|
    ensures Order(log.(wires := wires)) && Order(log.(wires := wires, ended := log.ended + [|log.drains|]))
  {}

  lemma ListenDrops(log: Log, wires: seq<seq<Piece>>, ended: seq<nat>)
    requires Drops(log)
    ensures Drops(log.(wires := wires, ended := ended))
  {
    assert forall n | 0 <= n < |log.outcomes| :: Crowded(log.(wires := wires, ended := ended), n) == Crowded(log, n);
  }

  lemma OnLastWire(log: Log, piece: Piece)
    requires |log.wires| > 0 && piece.Answer?
    ensures var v, last := OnWire(log, piece), |log.wires| - 1;
            && v == log.(wires := v.wires) && |v.wires| == |log.wires|
            && WireBytes(v.wires[last]) == WireBytes(log.wires[last]) + piece.bytes
  {
    WireSnoc(log.wires[|log.wires| - 1], piece);
    hide WireBytes, WireItems;
  }

  lemma ListenSessions(p: Post, event: Event, classify: Bytes -> Request)
    requires WellFormed(p.w) && Sessions(p) && p.w.client.Some?
    ensures Sessions(StepPost(p, DoListen(event), classify))
  {
    hide Listen, Frames, WireItems, WireBytes, OnWire;
    ListenShape(p.w, event);
    var v := Step(p.w, DoListen(event), classify);
    OnLastWire(p.log, Answer(v.session.wire[|p.w.session.wire|..]));
  }

  lemma ListenQueue(p: Post, event: Event, classify: Bytes -> Request)
    requires WellFormed(p.w) && Queue(p) && p.w.client.Some?
    ensures Queue(StepPost(p, DoListen(event), classify))
  {
    ListenShape(p.w, event);
    hide Listen, Frames;
  }

  lemma ListenLog(p: Post, event: Event, classify: Bytes -> Request) returns (log: Log)
    requires WellFormed(p.w) && p.w.client.Some? && |p.log.wires| > 0 && Wires(p.log)
    ensures Wires(log) && log == p.log.(wires := log.wires)
    ensures var q := StepPost(p, DoListen(event), classify);
            q.log == if q.w.client == None then log.(ended := log.ended + [|log.drains|]) else log
  {
    ListenShape(p.w, event);
    hide Listen, Frames, Wires;
    var v := Step(p.w, DoListen(event), classify);
    var piece := Answer(v.session.wire[|p.w.session.wire|..]);
    log := OnWire(p.log, piece);
    AnsweredWires(p.log, piece);
  }

  lemma ListenPosts(p: Post, event: Event, classify: Bytes -> Request)
    requires Inv(p)
    ensures Inv(StepPost(p, DoListen(event), classify))
  {
    if p.w.client == None {
      assert StepPost(p, DoListen(event), classify) == p;
    } else {
      ListenSessions(p, event, classify);
      ListenSeen(p, event, classify);
      ListenQueue(p, event, classify);
      var log := ListenLog(p, event, classify);
      EndedWires(log, |p.log.drains|);
      ListenOrder(p.log, log.wires);
      ListenDrops(p.log, log.wires, log.ended);
      ListenDrops(p.log, log.wires, log.ended + [|log.drains|]);
      hide StepPost, Sessions, Seen, Wires, Order, Drops, WellFormed;
    }
  }

  /** A letter queued. */
  lemma LetterWires(log: Log, letter: Letter, dropped: bool)
    requires Wires(log) && (dropped ==> |log.outcomes| < |log.letters|)
    ensures Wires(log.(letters := log.letters + [letter],
                       outcomes := if dropped then log.outcomes + [Dropped] else log.outcomes))
  {
    var v := log.(letters := log.letters + [letter],
                  outcomes := if dropped then log.outcomes + [Dropped] else log.outcomes);
    assert forall k | 0 <= k < |log.letters| :: WentTo(v, k) == WentTo(log, k);
    assert WentTo(v, |log.letters|) == None;
    hide WentTo, WireItems;
    forall s | 0 <= s < |v.wires|
      ensures WireItems(v.wires[s]) == SentTo(v, s, |v.letters|)
    {
      SentToKeeps(log, v, s, |log.letters|);
      NoneSent(v, s, |log.letters|, |v.letters|);
    }
  }

  /** A full queue drops its oldest letter, the 32nd before the new one. */
  lemma LetterDrops(log: Log, letter: Letter, dropped: bool)
    requires Drops(log) && letter.round == |log.drains|
    requires dropped <==> |log.letters| == |log.outcomes| + SEND_QUEUE_LIMIT
    requires forall n | |log.outcomes| <= n < |log.letters| :: log.letters[n].round == |log.drains|
    requires forall n | 0 <= n < |log.outcomes| :: log.outcomes[n] == Sent ==> log.letters[n].round < |log.drains|
    ensures Drops(log.(letters := log.letters + [letter],
                       outcomes := if dropped then log.outcomes + [Dropped] else log.outcomes))
  {
    var v := log.(letters := log.letters + [letter],
                  outcomes := if dropped then log.outcomes + [Dropped] else log.outcomes);
    forall n | 0 <= n < |v.outcomes|
      ensures v.outcomes[n] == Dropped <==> Crowded(v, n)
    {
      CrowdedMore(log, letter, v, n);
      hide Crowded;
      if n < |log.outcomes| {
        assert v.outcomes[n] == log.outcomes[n];
      }
    }
  }

  lemma CrowdedMore(log: Log, letter: Letter, v: Log, n: nat)
    requires n < |log.letters| && v.letters == log.letters + [letter]
    ensures Crowded(v, n)
            <==> Crowded(log, n) || (n + SEND_QUEUE_LIMIT == |log.letters| && letter.round == log.letters[n].round)
  {}

  lemma LetterOrder(log: Log, letter: Letter, outcomes: seq<Outcome>)
    requires Order(log) && letter.round == |log.drains| && letter.session <= |log.ended|
    requires forall s | 0 <= s < |log.ended| :: log.ended[s] <= |log.drains|
    ensures Order(log.(letters := log.letters + [letter], outcomes := outcomes))
  {}

  /** A thread looking for a client. */
  lemma CheckPosts(p: Post, thread: nat, classify: Bytes -> Request)
    requires Inv(p)
    ensures Inv(StepPost(p, DoCheck(thread), classify))
  {
    hide Frames, WireBytes, Queue, Drops, Order, Wires;
    if p.w.client.Some? && thread !in p.w.passed {
      SameMail(p, StepPost(p, DoCheck(thread), classify));
    }
  }

  /** Mail is of no concern to those about to queue some. */
  lemma SameMail(p: Post, q: Post)
    requires Queue(p) && Drops(p.log) && Order(p.log) && Wires(p.log)
    requires q.w.sendQueue == p.w.sendQueue && q.log == p.log.(seen := q.log.seen)
    ensures Queue(q) && Drops(q.log) && Order(q.log) && Wires(q.log)
  {
    hide WireItems;
    forall n | 0 <= n < |p.log.letters|
      ensures Crowded(p.log, n) == Crowded(q.log, n) && WentTo(p.log, n) == WentTo(q.log, n)
    {}
    hide Crowded, WentTo;
    forall s | 0 <= s < |p.log.wires|
      ensures SentTo(q.log, s, |p.log.letters|) == SentTo(p.log, s, |p.log.letters|)
    {
      SentToKeeps(p.log, q.log, s, |p.log.letters|);
    }
  }

  /** The queue with one more letter. */
  function Posted(p: Post, letter: Letter): Post {
    var full := |p.w.sendQueue| >= SEND_QUEUE_LIMIT;
    Post(Enqueue(p.w, letter.item),
         p.log.(letters := p.log.letters + [letter],
                outcomes := if full then p.log.outcomes + [Dropped] else p.log.outcomes))
  }

  lemma PostedQueue(p: Post, letter: Letter)
    requires Queue(p) && letter.round == |p.log.drains|
    ensures Queue(Posted(p, letter))
  {}

  lemma PostedKeeps(p: Post, letter: Letter)
    requires Inv(p) && letter.round == |p.log.drains| && letter.session < |p.log.wires|
    ensures var q := Posted(p, letter); Queue(q) && Drops(q.log) && Order(q.log) && Wires(q.log)
  {
    var full := |p.w.sendQueue| >= SEND_QUEUE_LIMIT;
    LetterWires(p.log, letter, full);
    LetterDrops(p.log, letter, full);
    LetterOrder(p.log, letter, if full then p.log.outcomes + [Dropped] else p.log.outcomes);
    PostedQueue(p, letter);
    hide Queue, Drops, Order, Wires, WellFormed, Seen, WireBytes;
  }

  lemma PushPosts(p: Post, thread: nat, text: bool, data: Bytes, classify: Bytes -> Request)
    requires Inv(p)
    ensures Inv(StepPost(p, DoPush(thread, text, data), classify))
  {
    hide Sessions, Queue, Drops, Order, Wires, Crowded, WentTo, Enqueue;
    if thread in p.w.passed {
      PushSeen(p, thread, text, data, classify);
      hide Seen;
      var q := StepPost(p, DoPush(thread, text, data), classify);
      var letter := Letter(Item(text, data), p.log.seen[thread], |p.log.drains|);
      PostedKeeps(p, letter);
      PushSessions(p, thread, text, data, classify);
      SameMail(Posted(p, letter), q);
    }
  }

  lemma PushSeen(p: Post, thread: nat, text: bool, data: Bytes, classify: Bytes -> Request)
    requires WellFormed(p.w) && Seen(p) && thread in p.w.passed
    ensures thread in p.log.seen && p.log.seen[thread] < |p.log.wires|
    ensures Seen(StepPost(p, DoPush(thread, text, data), classify))
  {}

  lemma PushSessions(p: Post, thread: nat, text: bool, data: Bytes, classify: Bytes -> Request)
    requires WellFormed(p.w) && Sessions(p) && Seen(p) && thread in p.w.passed
    ensures Sessions(StepPost(p, DoPush(thread, text, data), classify))
  {
    hide WireBytes;
  }

  /** The queue drained onto the last wire. */
  lemma DrainedWires(log: Log, items: seq<SendItem>)
    requires Wires(log) && |log.wires| == |log.ended| + 1 && |log.letters| == |log.outcomes| + |items|
    requires forall n | |log.outcomes| <= n < |log.letters| ::
               log.letters[n].item == items[n - |log.outcomes|] && log.letters[n].round == |log.drains|
    requires forall n | 0 <= n < |log.outcomes| :: log.outcomes[n] == Sent ==> log.letters[n].round < |log.drains|
    ensures Wires(OnWire(log, Data(items)).(
                    drains := log.drains + [|log.ended|], outcomes := log.outcomes + seq(|items|, _ => Sent)))
  {
    var v := OnWire(log, Data(items)).(
      drains := log.drains + [|log.ended|], outcomes := log.outcomes + seq(|items|, _ => Sent));
    var m, last := |log.outcomes|, |log.ended|;
    assert forall k | 0 <= k < m :: WentTo(v, k) == WentTo(log, k);
    assert forall k | m <= k < |log.letters| :: WentTo(log, k) == None;
    assert forall k | m <= k < |log.letters| :: WentTo(v, k) == Some(last);
    assert items[..|items|] == items;
    hide WentTo;
    assert WireItems(v.wires[last]) == WireItems(log.wires[last]) + items by {
      assert v.wires[last][..|log.wires[last]|] == log.wires[last];
    }
    hide WireItems;
    forall s | 0 <= s < |v.wires|
      ensures WireItems(v.wires[s]) == SentTo(v, s, |v.letters|)
    {
      NoneSent(log, s, m, |log.letters|);
      SentToKeeps(log, v, s, m);
      if s == last {
        AllSent(v, s, m, |log.letters|, items);
      } else {
        NoneSent(v, s, m, |log.letters|);
      }
    }
  }

  lemma DrainDrops(log: Log, v: Log)
    requires Drops(log) && v.letters == log.letters && |v.outcomes| == |log.letters|
    requires v.outcomes == log.outcomes + seq(|log.letters| - |log.outcomes|, _ => Sent)
    ensures Drops(v)
  {}

  lemma DrainOrder(p: Post, classify: Bytes -> Request)
    requires WellFormed(p.w) && Sessions(p) && Order(p.log) && p.w.client.Some?
    ensures Order(StepPost(p, DoDrain, classify).log)
  {
    hide Frames, WireBytes;
  }

  lemma DrainQueue(p: Post, classify: Bytes -> Request)
    requires WellFormed(p.w) && Queue(p) && p.w.client.Some?
    ensures Queue(StepPost(p, DoDrain, classify))
  {
    hide Frames;
  }

  lemma DrainSessions(p: Post, classify: Bytes -> Request)
    requires WellFormed(p.w) && Sessions(p) && p.w.client.Some?
    ensures Sessions(StepPost(p, DoDrain, classify))
  {
    WireSnoc(p.log.wires[|p.log.wires| - 1], Data(p.w.sendQueue));
    hide Frames, WireBytes, WireItems;
  }

  lemma DrainPosts(p: Post, classify: Bytes -> Request)
    requires Inv(p)
    ensures Inv(StepPost(p, DoDrain, classify))
  {
    hide Frames, Wires, Drops, Order;
    if p.w.client.Some? {
      DrainedWires(p.log, p.w.sendQueue);
      DrainDrops(p.log, StepPost(p, DoDrain, classify).log);
      DrainOrder(p, classify);
      DrainQueue(p, classify);
      DrainSessions(p, classify);
      hide Sessions, Queue;
    }
  }

  lemma StepPosts(p: Post, a: Action, classify: Bytes -> Request)
    requires Inv(p)
    ensures Inv(StepPost(p, a, classify))
  {
    match a
    case DoAccept(h) => AcceptPosts(p, h, classify);
    case DoServe(i, event) => ServePosts(p, i, event, classify);
    case DoListen(event) => ListenPosts(p, event, classify);
    case DoDrain => DrainPosts(p, classify);
    case DoCheck(thread) => CheckPosts(p, thread, classify);
    case DoPush(thread, text, data) => PushPosts(p, thread, text, data, classify);
  }

  lemma {:induction false} RunPosts(p: Post, actions: seq<Action>, classify: Bytes -> Request)
    requires Inv(p)
    ensures Inv(RunPost(p, actions, classify))
    decreases |actions|
  {
    hide Sessions, Queue, Drops, Order, Wires, StepPost;
    if |actions| > 0 {
      StepPosts(p, actions[0], classify);
      RunPosts(StepPost(p, actions[0], classify), actions[1..], classify);
    }
  }

  // ---------------------------------------------------------------- what becomes of a message

  /** Over any run, every message queued is in one of three places. It is still queued; or it was
      dropped, which happens exactly when 32 more were queued before the next drain; or it went out
      with the next drain - to another session than the one its thread found connected exactly when
      that one had ended before the drain, be it before or after the message was queued. */
  lemma EveryMessageIsAccountedFor(listener: Handle, actions: seq<Action>, classify: Bytes -> Request, n: nat)
    ensures WellFormed(Start(listener))
    ensures var p := RunPost(Begin(listener), actions, classify);
            var log := p.log;
            n < |log.letters| ==>
              var l := log.letters[n];
              && l.session < |log.wires| && l.round <= |log.drains|
              && (n >= |log.outcomes| ==> l.round == |log.drains| && n - |log.outcomes| < |p.w.sendQueue|
                                          && p.w.sendQueue[n - |log.outcomes|] == l.item)
              && (n < |log.outcomes| && log.outcomes[n] == Dropped
                  <==> n + 32 < |log.letters| && log.letters[n + 32].round == l.round)
              && (n < |log.outcomes| && log.outcomes[n] == Sent ==>
                    && l.round < |log.drains| && WentTo(log, n) == Some(log.drains[l.round])
                    && l.session <= log.drains[l.round]
                    && (log.drains[l.round] != l.session
                        <==> l.session < |log.ended| && log.ended[l.session] <= l.round))
  {
    StartOwns(listener);
    StartPosts(listener);
    RunPosts(Begin(listener), actions, classify);
    var log := RunPost(Begin(listener), actions, classify).log;
    hide RunPost, Begin, Start;
    if n < |log.outcomes| && log.outcomes[n] == Sent {
      Crossing(log, n);
    }
    hide WellFormed, Order, Wires, Sessions;
  }

  /** Over any run, the messages on each session's wire, between the parser's answers, are the letters
      that went there, in order; and the wire of the session connected now is what was written. */
  lemma WiresCarryTheMessages(listener: Handle, actions: seq<Action>, classify: Bytes -> Request, s: nat)
    ensures WellFormed(Start(listener))
    ensures var p := RunPost(Begin(listener), actions, classify);
            s < |p.log.wires| ==>
              && WireItems(p.log.wires[s]) == SentTo(p.log, s, |p.log.letters|)
              && (p.w.client.Some? && s == |p.log.ended| ==> WireBytes(p.log.wires[s]) == p.w.session.wire)
  {
    StartOwns(listener);
    StartPosts(listener);
    RunPosts(Begin(listener), actions, classify);
    hide RunPost, Begin, Start;
  }

  lemma StartPosts(h: Handle)
    ensures WellFormed(Start(h)) && Inv(Begin(h))
  {}

  /** The drain after a letter goes to the letter's session or a later one. */
  lemma Crossing(log: Log, n: nat)
    requires Order(log) && Wires(log) && n < |log.letters| && log.letters[n].round < |log.drains|
    ensures var l := log.letters[n];
            && l.session <= log.drains[l.round]
            && (log.drains[l.round] != l.session
                <==> l.session < |log.ended| && log.ended[l.session] <= l.round)
  {
    var l := log.letters[n];
    var d := log.drains[l.round];
    if l.session > 0 {
      assert log.ended[l.session - 1] <= l.round <==> l.session - 1 < d;
    }
    if l.session < |log.ended| {
      assert log.ended[l.session] <= l.round <==> l.session < d;
    }
    hide Wires;
  }

  // ---------------------------------------------------------------- messages that cross

  lemma {:induction false} PostConcat(p: Post, a: seq<Action>, b: seq<Action>, classify: Bytes -> Request)
    requires WellFormed(p.w)
    ensures RunPost(p, a + b, classify) == RunPost(RunPost(p, a, classify), b, classify)
    decreases |a|
  {
    hide StepPost, WellFormed;
    if |a| == 0 {
      assert a + b == b;
    } else {
      assert (a + b)[1..] == a[1..] + b;
      PostConcat(StepPost(p, a[0], classify), a[1..], b, classify);
    }
  }

  lemma PostOne(p: Post, a: Action, classify: Bytes -> Request)
    requires WellFormed(p.w)
    ensures RunPost(p, [a], classify) == StepPost(p, a, classify)
  {
    hide StepPost;
  }

  /** A run and one more step. */
  lemma PostSnoc(p: Post, a: seq<Action>, x: Action, classify: Bytes -> Request)
    requires WellFormed(p.w)
    ensures RunPost(p, a + [x], classify) == StepPost(RunPost(p, a, classify), x, classify)
  {
    hide StepPost, RunPost, WellFormed;
    PostConcat(p, a, [x], classify);
    PostOne(RunPost(p, a, classify), x, classify);
  }

  function Upgrading(h: Handle, head: Bytes): seq<Action> {
    [DoAccept(h)] + [DoServe(0, Received(head))]
  }

  /** A handle is accepted into the first slot of an idle server and asks for an upgrade. */
  lemma Upgrades(p: Post, h: Handle, head: Bytes, classify: Bytes -> Request) returns (q: Post)
    requires WellFormed(p.w) && p.w.client == None && p.w.pending[0] == FREE_SLOT && h !in Open(p.w.calls)
    requires |head| <= MAX_REQUEST && HasHead(head) && classify(head) == Upgrade(true)
    ensures q == RunPost(p, Upgrading(h, head), classify)
    ensures q.w == p.w.(client := Some(h), session := q.w.session, rejects := 0, calls := p.w.calls + [Opened(h)])
    ensures q.w.session.wire == [] && q.log == p.log.(wires := p.log.wires + [[]])
  {
    var o := StepPost(p, DoAccept(h), classify);
    PostOne(p, DoAccept(h), classify);
    PostSnoc(p, [DoAccept(h)], DoServe(0, Received(head)), classify);
    q := StepPost(o, DoServe(0, Received(head)), classify);
    assert [] + head == head;
    hide HasHead, Open, RunPost;
    assert q.w.pending == p.w.pending;
  }

  /** The client's socket hangs up: its session is over, the queue is not. */
  lemma HangsUp(p: Post, classify: Bytes -> Request) returns (q: Post)
    requires WellFormed(p.w) && p.w.client.Some? && |p.log.wires| > 0
    ensures q == StepPost(p, DoListen(HangUp), classify) && q.w == EndSession(p.w)
    ensures q.log == p.log.(wires := q.log.wires, ended := p.log.ended + [|p.log.drains|])
    ensures |q.log.wires| == |p.log.wires|
  {
    q := StepPost(p, DoListen(HangUp), classify);
  }

  lemma Checks(p: Post, thread: nat, classify: Bytes -> Request) returns (q: Post)
    requires WellFormed(p.w) && p.w.client.Some? && thread !in p.w.passed
    ensures q == StepPost(p, DoCheck(thread), classify)
    ensures q == Post(p.w.(passed := p.w.passed + {thread}), p.log.(seen := p.log.seen[thread := |p.log.ended|]))
  {
    q := StepPost(p, DoCheck(thread), classify);
  }

  lemma QueuesOne(p: Post, thread: nat, text: bool, data: Bytes, classify: Bytes -> Request) returns (q: Post)
    requires WellFormed(p.w) && thread in p.w.passed && thread in p.log.seen && p.w.sendQueue == []
    ensures q == StepPost(p, DoPush(thread, text, data), classify)
    ensures q.w == p.w.(sendQueue := [Item(text, data)], passed := p.w.passed - {thread})
    ensures q.log == p.log.(seen := p.log.seen - {thread},
                            letters := p.log.letters + [Letter(Item(text, data), p.log.seen[thread], |p.log.drains|)])
  {
    q := StepPost(p, DoPush(thread, text, data), classify);
    assert [] + [Item(text, data)] == [Item(text, data)];
  }

  lemma DrainsNone(p: Post, classify: Bytes -> Request) returns (q: Post)
    requires WellFormed(p.w) && p.w.client.Some? && p.w.sendQueue == []
    ensures q == StepPost(p, DoDrain, classify) && q.w == p.w
    ensures q.log == p.log.(wires := q.log.wires, drains := p.log.drains + [|p.log.ended|])
  {
    q := StepPost(p, DoDrain, classify);
    assert p.w.session.wire + [] == p.w.session.wire && seq(0, _ => Sent) == [];
    assert p.log.outcomes + [] == p.log.outcomes;
  }

  lemma DrainsOne(p: Post, item: SendItem, classify: Bytes -> Request) returns (q: Post)
    requires WellFormed(p.w) && p.w.client.Some? && p.w.sendQueue == [item] && p.w.session.wire == []
    requires item.opcode < 16
    ensures q == StepPost(p, DoDrain, classify)
    ensures q.w.client == p.w.client && q.w.session.wire == Reply(item.opcode, item.data)
    ensures q.log == p.log.(wires := q.log.wires, drains := p.log.drains + [|p.log.ended|],
                            outcomes := p.log.outcomes + [Sent])
  {
    q := StepPost(p, DoDrain, classify);
    OneItem(item);
    hide Reply, Frames;
    assert seq(|[item]|, _ => Sent) == [Sent];
  }

  /** A client upgrades, a message is queued for it, the client is gone, another upgrades, and only
      then is the queue drained. */
  function CrossingRun(a: Handle, b: Handle, head: Bytes, text: bool, data: Bytes): seq<Action> {
    Upgrading(a, head) + [DoCheck(0)] + [DoPush(0, text, data)] + [DoListen(HangUp)]
    + Upgrading(b, head) + [DoDrain]
  }

  /** A client upgrades, a thread finds it, the client is gone, another upgrades, the queue is drained
      while still empty, and only then does the thread queue its message, for the drain after. */
  function OvertakenRun(a: Handle, b: Handle, head: Bytes, text: bool, data: Bytes): seq<Action> {
    Upgrading(a, head) + [DoCheck(0)] + [DoListen(HangUp)] + Upgrading(b, head) + [DoDrain]
    + [DoPush(0, text, data)] + [DoDrain]
  }

  /** The first steps of both runs. */
  lemma Found(l: Handle, a: Handle, head: Bytes, classify: Bytes -> Request) returns (q: Post)
    requires l != a && |head| <= MAX_REQUEST && HasHead(head) && classify(head) == Upgrade(true)
    ensures WellFormed(Start(l)) && q == RunPost(Begin(l), Upgrading(a, head) + [DoCheck(0)], classify)
    ensures q.w == Start(l).(client := Some(a), session := q.w.session, passed := {0},
                             calls := [Opened(l)] + [Opened(a)])
    ensures q.w.session.wire == [] && q.w.sendQueue == [] && q.log == Log([[]], [], [], map[0 := 0], [], [])
  {
    hide StepPost, RunPost, Open, HasHead, WellFormed, Upgrading;
    StartIsIdle(l);
    var p := Upgrades(Begin(l), a, head, classify);
    q := Checks(p, 0, classify);
    PostSnoc(Begin(l), Upgrading(a, head), DoCheck(0), classify);
    assert Begin(l).log.wires + [[]] == [[]];
  }

  /** A message queued for one client can reach the next: all it takes is that the first session ends
      before the queue is drained. */
  lemma MessagesCross(l: Handle, a: Handle, b: Handle, head: Bytes, text: bool, data: Bytes, classify: Bytes -> Request)
    requires l != a && l != b && a != b
    requires |head| <= MAX_REQUEST && HasHead(head) && classify(head) == Upgrade(true)
    ensures WellFormed(Start(l))
    ensures var p := RunPost(Begin(l), CrossingRun(a, b, head, text, data), classify);
            && p.w.client == Some(b) && p.w.session.wire == Reply(if text then TEXT else BINARY, data)
            && p.log.letters == [Letter(Item(text, data), 0, 0)] && p.log.drains == [1] && p.log.ended == [0]
            && WentTo(p.log, 0) == Some(1)
  {
    hide StepPost, RunPost, Open, HasHead, WellFormed, Upgrading, Start;
    var p1 := Found(l, a, head, classify);
    var r1 := Upgrading(a, head) + [DoCheck(0)];
    var p2 := QueuesOne(p1, 0, text, data, classify);
    PostSnoc(Begin(l), r1, DoPush(0, text, data), classify);
    var p3 := HangsUp(p2, classify);
    PostSnoc(Begin(l), r1 + [DoPush(0, text, data)], DoListen(HangUp), classify);
    var r3 := r1 + [DoPush(0, text, data)] + [DoListen(HangUp)];
    StartIsIdle(l);
    OpenAfter([Opened(l)], a, b);
    var p4 := Upgrades(p3, b, head, classify);
    PostConcat(Begin(l), r3, Upgrading(b, head), classify);
    var p5 := DrainsOne(p4, Item(text, data), classify);
    PostSnoc(Begin(l), r3 + Upgrading(b, head), DoDrain, classify);
  }

  /** So can one queued only after its client's session is over, and the next one's begun: nobody
      looks again once a client has been found. */
  lemma MessagesOvertake(l: Handle, a: Handle, b: Handle, head: Bytes, text: bool, data: Bytes,
                         classify: Bytes -> Request)
    requires l != a && l != b && a != b
    requires |head| <= MAX_REQUEST && HasHead(head) && classify(head) == Upgrade(true)
    ensures WellFormed(Start(l))
    ensures var p := RunPost(Begin(l), OvertakenRun(a, b, head, text, data), classify);
            && p.w.client == Some(b) && p.w.session.wire == Reply(if text then TEXT else BINARY, data)
            && p.log.letters == [Letter(Item(text, data), 0, 1)] && p.log.drains == [1, 1] && p.log.ended == [0]
            && WentTo(p.log, 0) == Some(1)
  {
    hide StepPost, RunPost, Open, HasHead, WellFormed, Upgrading, Start;
    var p1 := Found(l, a, head, classify);
    var r1 := Upgrading(a, head) + [DoCheck(0)];
    var p2 := HangsUp(p1, classify);
    PostSnoc(Begin(l), r1, DoListen(HangUp), classify);
    var r2 := r1 + [DoListen(HangUp)];
    StartIsIdle(l);
    OpenAfter([Opened(l)], a, b);
    var p3 := Upgrades(p2, b, head, classify);
    PostConcat(Begin(l), r2, Upgrading(b, head), classify);
    var r3 := r2 + Upgrading(b, head);
    var p4 := DrainsNone(p3, classify);
    PostSnoc(Begin(l), r3, DoDrain, classify);
    var p5 := QueuesOne(p4, 0, text, data, classify);
    PostSnoc(Begin(l), r3 + [DoDrain], DoPush(0, text, data), classify);
    var p6 := DrainsOne(p5, Item(text, data), classify);
    PostSnoc(Begin(l), r3 + [DoDrain] + [DoPush(0, text, data)], DoDrain, classify);
  }

  /** And a message can be queued while nobody is connected. */
  lemma MessagesWaitForAnybody(l: Handle, a: Handle, head: Bytes, text: bool, data: Bytes, classify: Bytes -> Request)
    requires l != a && |head| <= MAX_REQUEST && HasHead(head) && classify(head) == Upgrade(true)
    ensures WellFormed(Start(l))
    ensures var actions := Upgrading(a, head) + [DoCheck(0)] + [DoListen(HangUp)] + [DoPush(0, text, data)];
            var p := RunPost(Begin(l), actions, classify);
            p.w.client == None && p.w.sendQueue == [Item(text, data)]
  {
    hide StepPost, RunPost, HasHead, WellFormed, Upgrading;
    var p1 := Found(l, a, head, classify);
    var r1 := Upgrading(a, head) + [DoCheck(0)];
    var p2 := HangsUp(p1, classify);
    PostSnoc(Begin(l), r1, DoListen(HangUp), classify);
    var p3 := QueuesOne(p2, 0, text, data, classify);
    PostSnoc(Begin(l), r1 + [DoListen(HangUp)], DoPush(0, text, data), classify);
  }

  lemma StartIsIdle(l: Handle)
    ensures WellFormed(Start(l)) && Start(l).client == None && Start(l).pending[0] == FREE_SLOT
    ensures Start(l).sendQueue == [] && Start(l).calls == [Opened(l)] && Open(Start(l).calls) == {l}
  {
    hide Open;
    OpenNone();
    OpenNext([], Opened(l));
    assert [] + [Opened(l)] == [Opened(l)];
  }

  lemma OpenNone()
    ensures Open([]) == {}
  {}

  lemma OpenAfter(calls: Trace, a: Handle, b: Handle)
    ensures b != a && b !in Open(calls) ==> b !in Open(calls + [Opened(a)] + [Closed(a)])
  {
    OpenNext(calls, Opened(a));
    OpenNext(calls + [Opened(a)], Closed(a));
    hide Open;
  }

  lemma OneItem(item: SendItem)
    requires item.opcode < 16
    ensures (forall i | i in [item] :: i.opcode < 16) && Frames([item]) == Reply(item.opcode, item.data)
  {
    hide Reply;
    assert [item][1..] == [];
  }
}
