/** What a peer reads off its connection: over any run, exactly one pong for each ping it sent and
    the messages meant for its session, frame by frame, and nothing else. */
module WsPeer {
  import opened Basics
  import opened ByteOrder
  import opened Sockets
  import opened WsFrames
  import opened WsSession
  import opened WsSockets
  import opened WsInbox
  import opened WsOutbox

  // ---------------------------------------------------------------- frames the peer should see

  /** A final pong with the same payload for each ping. */
  function PongFrames(frames: seq<Frame>): seq<Frame> {
    if |frames| == 0 then []
    else
      var last := frames[|frames| - 1];
      PongFrames(frames[..|frames| - 1]) + if last.opcode == PING then [Frame(true, PONG, last.payload)] else []
  }

  /** A final frame for each message. */
  function LetterFrames(items: seq<SendItem>): (r: seq<Frame>)
    ensures |r| == |items|
  {
    seq(|items|, k requires 0 <= k < |items| => Frame(true, items[k].opcode, items[k].data))
  }

  /** The pongs among some frames, or the others, in order. */
  function Only(frames: seq<Frame>, pongs: bool): seq<Frame> {
    if |frames| == 0 then []
    else
      var last := frames[|frames| - 1];
      Only(frames[..|frames| - 1], pongs) + if (last.opcode == PONG) == pongs then [last] else []
  }

  lemma {:induction false} PongsConcat(a: seq<Frame>, b: seq<Frame>)
    ensures PongFrames(a + b) == PongFrames(a) + PongFrames(b)
    decreases |b|
  {
    if |b| == 0 {
      assert a + b == a;
    } else {
      assert (a + b)[..|a + b| - 1] == a + b[..|b| - 1];
      PongsConcat(a, b[..|b| - 1]);
    }
  }

  lemma {:induction false} OnlyConcat(a: seq<Frame>, b: seq<Frame>, pongs: bool)
    ensures Only(a + b, pongs) == Only(a, pongs) + Only(b, pongs)
    decreases |b|
  {
    if |b| == 0 {
      assert a + b == a;
    } else {
      assert (a + b)[..|a + b| - 1] == a + b[..|b| - 1];
      OnlyConcat(a, b[..|b| - 1], pongs);
    }
  }

  lemma OnlyNext(frames: seq<Frame>, f: Frame, pongs: bool)
    ensures Only(frames + [f], pongs) == Only(frames, pongs) + if (f.opcode == PONG) == pongs then [f] else []
  {
    assert (frames + [f])[..|frames|] == frames;
  }

  lemma PongsNext(frames: seq<Frame>, last: Frame)
    ensures PongFrames(frames + [last])
            == PongFrames(frames) + if last.opcode == PING then [Frame(true, PONG, last.payload)] else []
  {
    assert (frames + [last])[..|frames|] == frames;
  }

  lemma NoFrames()
    ensures PongFrames([]) == [] && LetterFrames([]) == [] && Only([], true) == [] && Only([], false) == []
  {}

  lemma {:induction false} OnlyPongs(frames: seq<Frame>)
    ensures Only(PongFrames(frames), true) == PongFrames(frames) && Only(PongFrames(frames), false) == []
    decreases |frames|
  {
    hide PongFrames, Only;
    NoFrames();
    if |frames| > 0 {
      var before, last := frames[..|frames| - 1], frames[|frames| - 1];
      assert frames == before + [last];
      OnlyPongs(before);
      PongsNext(before, last);
      if last.opcode == PING {
        OnlyNext(PongFrames(before), Frame(true, PONG, last.payload), true);
        OnlyNext(PongFrames(before), Frame(true, PONG, last.payload), false);
      } else {
        assert PongFrames(frames) == PongFrames(before);
      }
    } else {
      assert frames == [];
    }
  }

  predicate IsLetter(item: SendItem) {
    item.opcode == TEXT || item.opcode == BINARY
  }

  lemma LettersNext(items: seq<SendItem>, last: SendItem)
    ensures LetterFrames(items + [last]) == LetterFrames(items) + [Frame(true, last.opcode, last.data)]
  {}

  lemma {:induction false} OnlyLetters(items: seq<SendItem>)
    requires forall i | i in items :: IsLetter(i)
    ensures Only(LetterFrames(items), false) == LetterFrames(items) && Only(LetterFrames(items), true) == []
    decreases |items|
  {
    hide LetterFrames, Only;
    NoFrames();
    if |items| > 0 {
      var before, last := items[..|items| - 1], items[|items| - 1];
      assert last in items && items == before + [last];
      OnlyLetters(before);
      LettersNext(before, last);
      OnlyNext(LetterFrames(before), Frame(true, last.opcode, last.data), true);
      OnlyNext(LetterFrames(before), Frame(true, last.opcode, last.data), false);
    } else {
      assert items == [];
    }
  }

  // ---------------------------------------------------------------- one answer

  lemma FrameFits(buf: Bytes)
    ensures Next(buf).Complete? ==>
              Next(buf).frame.opcode < 16 && |Next(buf).frame.payload| <= MAX_FRAME_PAYLOAD
  {
    hide ApplyMask, BigEndian;
  }

  /** What handling a ping adds to the wire reads as a final pong with the ping's payload. */
  lemma PingIsAnswered(s: State, f: Frame)
    requires f.opcode == PING && |f.payload| <= MAX_FRAME_PAYLOAD
    ensures var wire := WsSession.Handle(s, f).wire;
            && s.wire <= wire
            && Next(wire[|s.wire|..]) == Complete(Frame(true, PONG, f.payload), |wire| - |s.wire|)
  {
    var wire := WsSession.Handle(s, f).wire;
    ReplyIsRead(PONG, f.payload, []);
    hide Next, Print;
    assert wire[|s.wire|..] == Reply(PONG, f.payload) + [];
  }

  lemma ReplyIsRead(opcode: nat, data: Bytes, rest: Bytes)
    requires opcode < 16 && |data| <= MAX_FRAME_PAYLOAD
    ensures Next(Reply(opcode, data) + rest) == Complete(Frame(true, opcode, data), |Reply(opcode, data)|)
    ensures Parse(Reply(opcode, data) + rest)
            == if opcode == CLOSE then Parsed([], rest, true)
               else Parse(rest).(frames := [Frame(true, opcode, data)] + Parse(rest).frames)
  {
    PrintedIsRead(Frame(true, opcode, data), None, rest);
    hide Next, Print;
    var r := Reply(opcode, data);
    NextExtends(r + rest, []);
    assert (r + rest)[|r|..] == rest;
  }

  // ---------------------------------------------------------------- the answers to a stream

  /** Reading ends at a close frame. */
  function ClosedBy(bytes: Bytes): bool
    decreases |bytes|
  {
    match Next(bytes)
    case NeedMore => false
    case TooBig => false
    case Complete(f, total) =>
      NextExtends(bytes, []);
      f.opcode == CLOSE || ClosedBy(bytes[total..])
  }

  function Answers(bytes: Bytes): Bytes
    decreases |bytes|
  {
    match Next(bytes)
    case NeedMore => []
    case TooBig => []
    case Complete(f, total) =>
      NextExtends(bytes, []);
      if f.opcode == CLOSE then Reply(CLOSE, [])
      else (if f.opcode == PING then Reply(PONG, f.payload) else []) + Answers(bytes[total..])
  }

  lemma {:induction false} DrainAnswers(s: State)
    ensures Drain(s).0.wire == s.wire + Answers(s.recvBuf)
    decreases |s.recvBuf|
  {
    hide Next, Reply;
    NextExtends(s.recvBuf, []);
    match Next(s.recvBuf)
    case NeedMore =>
    case TooBig =>
    case Complete(f, total) =>
      var rest := s.(recvBuf := s.recvBuf[total..]);
      if f.opcode != CLOSE {
        DrainAnswers(WsSession.Handle(rest, f));
        var pong := if f.opcode == PING then Reply(PONG, f.payload) else [];
        assert WsSession.Handle(rest, f).wire == s.wire + pong;
        assert s.wire + pong + Answers(rest.recvBuf) == s.wire + (pong + Answers(rest.recvBuf));
      }
  }

  lemma {:induction false} AnswersAreRead(bytes: Bytes)
    ensures Parse(Answers(bytes)) == Parsed(PongFrames(Parse(bytes).frames), [], ClosedBy(bytes))
    decreases |bytes|
  {
    hide Next, Reply;
    NextExtends(bytes, []);
    NothingParsed();
    match Next(bytes)
    case NeedMore =>
    case TooBig =>
    case Complete(f, total) =>
      var rest := bytes[total..];
      FrameFits(bytes);
      if f.opcode == CLOSE {
        ReplyIsRead(CLOSE, [], []);
        assert Reply(CLOSE, []) + [] == Reply(CLOSE, []);
      } else {
        AnswersAreRead(rest);
        PongsConcat([f], Parse(rest).frames);
        OnePong(f);
        if f.opcode == PING {
          ReplyIsRead(PONG, f.payload, Answers(rest));
        } else {
          assert [] + Answers(rest) == Answers(rest);
        }
      }
  }

  lemma NothingParsed()
    ensures Parse([]) == Parsed([], [], false)
  {}

  lemma OnePong(f: Frame)
    ensures PongFrames([f]) == if f.opcode == PING then [Frame(true, PONG, f.payload)] else []
  {
    assert [f][..0] == [];
  }

  lemma {:induction false} ClosedMore(a: Bytes, b: Bytes)
    requires !Parse(a).over
    ensures ClosedBy(a + b) == ClosedBy(Parse(a).rest + b) && !ClosedBy(a)
    decreases |a|
  {
    hide Next;
    NextExtends(a, b);
    NextExtends(a, []);
    match Next(a)
    case NeedMore =>
    case Complete(f, total) =>
      assert (a + b)[total..] == a[total..] + b;
      ClosedMore(a[total..], b);
  }

  // ---------------------------------------------------------------- a whole wire

  /** What the pieces of a wire say, one after the other. */
  function Spoken(pieces: seq<Piece>): Parsed {
    if |pieces| == 0 then Parsed([], [], false)
    else
      var before := Spoken(pieces[..|pieces| - 1]);
      match pieces[|pieces| - 1]
      case Answer(bytes) => Parsed(before.frames + Parse(bytes).frames, [], before.over || Parse(bytes).over)
      case Data(items) => Parsed(before.frames + LetterFrames(items), [], before.over)
  }

  /** Every answer is whole frames, nothing follows a close, and messages are of the kinds there are. */
  ghost predicate Honest(pieces: seq<Piece>) {
    |pieces| == 0 ||
    var before, last := pieces[..|pieces| - 1], pieces[|pieces| - 1];
    && Honest(before) && !Spoken(before).over
    && match last
       case Answer(bytes) => Parse(bytes).rest == []
       case Data(items) => forall i | i in items :: IsLetter(i)
  }

  /** Messages a peer will accept. */
  predicate Sized(items: seq<SendItem>) {
    forall i | i in items :: |i.data| <= 16 * 1024 * 1024
  }

  lemma {:induction false} LettersAreRead(items: seq<SendItem>)
    requires Sized(items) && forall i | i in items :: IsLetter(i)
    ensures (forall i | i in items :: i.opcode < 16) && Parse(Frames(items)) == Parsed(LetterFrames(items), [], false)
    decreases |items|
  {
    hide Reply, Parse;
    NothingParsed();
    if |items| > 0 {
      assert items[0] in items && IsLetter(items[0]) && |items[0].data| <= MAX_FRAME_PAYLOAD;
      LettersAreRead(items[1..]);
      ReplyIsRead(items[0].opcode, items[0].data, Frames(items[1..]));
      assert LetterFrames(items) == [Frame(true, items[0].opcode, items[0].data)] + LetterFrames(items[1..]);
    }
  }

  /** Reading the bytes of a wire gives what was said. */
  lemma {:induction false} WireIsRead(pieces: seq<Piece>)
    requires Honest(pieces) && Sized(WireItems(pieces))
    ensures Parse(WireBytes(pieces)) == Spoken(pieces)
    decreases |pieces|
  {
    hide Parse, Frames, LetterFrames;
    NothingParsed();
    if |pieces| > 0 {
      var before, last := pieces[..|pieces| - 1], pieces[|pieces| - 1];
      SizedParts(WireItems(before), if last.Data? then last.items else []);
      WireIsRead(before);
      if last.Data? {
        LettersAreRead(last.items);
        ParseMore(WireBytes(before), Frames(last.items));
        assert [] + Frames(last.items) == Frames(last.items);
      } else {
        ParseMore(WireBytes(before), last.bytes);
        assert [] + last.bytes == last.bytes;
      }
    }
  }

  lemma SizedParts(a: seq<SendItem>, b: seq<SendItem>)
    requires Sized(a + b)
    ensures Sized(a) && Sized(b)
  {
    forall i | i in a
      ensures i in a + b
    {}
    forall i | i in b
      ensures i in a + b
    {}
  }

  // ---------------------------------------------------------------- runs

  /** What is said on a session's wire: a pong for each ping heard, the messages among its pieces, and
      a close if one was heard. */
  ghost predicate Told(pieces: seq<Piece>, bytes: Bytes) {
    && Honest(pieces) && Spoken(pieces).over == ClosedBy(bytes)
    && Only(Spoken(pieces).frames, true) == PongFrames(Parse(bytes).frames)
    && Only(Spoken(pieces).frames, false) == LetterFrames(WireItems(pieces))
  }

  lemma TellAnswer(pieces: seq<Piece>, bytes: Bytes, more: Bytes)
    requires Told(pieces, bytes) && !Parse(bytes).over
    ensures Told(pieces + [Answer(Answers(Parse(bytes).rest + more))], bytes + more)
  {
    hide Parse, Answers, ClosedBy, PongFrames, Only, LetterFrames;
    var rest := Parse(bytes).rest + more;
    var v := pieces + [Answer(Answers(rest))];
    assert v[..|pieces|] == pieces && v[|pieces|] == Answer(Answers(rest));
    ClosedMore(bytes, more);
    ParseMore(bytes, more);
    AnswersAreRead(rest);
    PongsConcat(Parse(bytes).frames, Parse(rest).frames);
    OnlyPongs(Parse(rest).frames);
    OnlyConcat(Spoken(pieces).frames, PongFrames(Parse(rest).frames), true);
    OnlyConcat(Spoken(pieces).frames, PongFrames(Parse(rest).frames), false);
    assert WireItems(v) == WireItems(pieces);
    assert Only(Spoken(v).frames, false) == Only(Spoken(pieces).frames, false);
  }

  lemma TellNothing(pieces: seq<Piece>, bytes: Bytes)
    requires Told(pieces, bytes) && !Parse(bytes).over
    ensures Told(pieces + [Answer([])], bytes)
  {
    var v := pieces + [Answer([])];
    assert v[..|pieces|] == pieces && v[|pieces|] == Answer([]);
    NothingParsed();
    ClosedMore(bytes, []);
    hide Parse, ClosedBy, PongFrames, Only;
    assert Spoken(pieces).frames + [] == Spoken(pieces).frames;
    assert WireItems(pieces) + [] == WireItems(pieces);
  }

  lemma LettersConcat(a: seq<SendItem>, b: seq<SendItem>)
    ensures LetterFrames(a + b) == LetterFrames(a) + LetterFrames(b)
  {}

  lemma TellData(pieces: seq<Piece>, bytes: Bytes, items: seq<SendItem>)
    requires Told(pieces, bytes) && !Parse(bytes).over && forall i | i in items :: IsLetter(i)
    ensures Told(pieces + [Data(items)], bytes)
  {
    hide Parse, ClosedBy, PongFrames, Only, LetterFrames, IsLetter;
    var v := pieces + [Data(items)];
    assert v[..|pieces|] == pieces && v[|pieces|] == Data(items);
    ClosedMore(bytes, []);
    OnlyLetters(items);
    OnlyConcat(Spoken(pieces).frames, LetterFrames(items), true);
    OnlyConcat(Spoken(pieces).frames, LetterFrames(items), false);
    LettersConcat(WireItems(pieces), items);
  }

  ghost predicate AllTold(wires: seq<seq<Piece>>, received: seq<Bytes>) {
    |wires| == |received| && forall s | 0 <= s < |received| :: Told(wires[s], received[s])
  }

  lemma LastTold(wires: seq<seq<Piece>>, received: seq<Bytes>, pieces: seq<Piece>, bytes: Bytes)
    requires AllTold(wires, received) && |wires| > 0 && Told(pieces, bytes)
    ensures AllTold(wires[|wires| - 1 := pieces], received[|received| - 1 := bytes])
  {
    hide Told;
  }

  lemma NewTold(wires: seq<seq<Piece>>, received: seq<Bytes>)
    requires AllTold(wires, received)
    ensures AllTold(wires + [[]], received + [[]])
  {
    NothingParsed();
    NoFrames();
    ClosedMore([], []);
    assert Told([], []);
    hide Told;
  }

  ghost predicate AllLetters(items: seq<SendItem>) {
    forall i | i in items :: IsLetter(i)
  }

  /** The two records of one run, and what they have to do with each other. */
  ghost predicate Inv(p: Post, b: Inbox) {
    && WsOutbox.Inv(p) && WsInbox.Inv(b) && p.w == b.w
    && AllLetters(p.w.sendQueue) && AllTold(p.log.wires, b.received)
  }

  lemma InvShared(p: Post, b: Inbox)
    requires Inv(p, b)
    ensures WellFormed(p.w) && p.w == b.w && WsOutbox.Inv(p) && WsInbox.Inv(b)
  {}

  /** While a client is connected its wire is the last one, and its bytes are still being read. */
  lemma Current(p: Post, b: Inbox)
    requires Inv(p, b) && p.w.client.Some?
    ensures |p.log.wires| == |b.received| > 0 && Told(p.log.wires[|p.log.wires| - 1], b.received[|b.received| - 1])
    ensures var q := Parse(b.received[|b.received| - 1]); !q.over && p.w.session.recvBuf == q.rest
  {
    hide Told, Parse;
  }

  lemma ListenWire(w: World, event: Event)
    requires w.client.Some?
    ensures Listen(w, event).session.wire
            == w.session.wire + if event.Received? then Answers(w.session.recvBuf + event.data) else []
    ensures Listen(w, event).sendQueue == w.sendQueue
  {
    if event.Received? {
      DrainAnswers(w.session.(recvBuf := w.session.recvBuf + event.data));
    } else {
      assert w.session.wire + [] == w.session.wire;
    }
    hide Drain, Answers;
  }

  lemma ListenRecords(p: Post, b: Inbox, event: Event, classify: Bytes -> Request)
    requires WellFormed(p.w) && p.w == b.w && p.w.client.Some? && |p.log.wires| == |b.received| > 0
    ensures var q, c := StepPost(p, DoListen(event), classify), StepInbox(b, DoListen(event), classify);
            var last := |b.received| - 1;
            var said := if event.Received? then Answers(p.w.session.recvBuf + event.data) else [];
            && q.w == c.w && q.w.sendQueue == p.w.sendQueue
            && q.log.wires == p.log.wires[last := p.log.wires[last] + [Answer(said)]]
            && c.received == b.received[last := b.received[last] + if event.Received? then event.data else []]
  {
    ListenWire(p.w, event);
    hide Listen, Answers;
    var last := |b.received| - 1;
    assert b.received[last] + [] == b.received[last];
    assert b.received[last := b.received[last]] == b.received;
    var said := if event.Received? then Answers(p.w.session.recvBuf + event.data) else [];
    assert (p.w.session.wire + said)[|p.w.session.wire|..] == said;
  }

  lemma ListenTells(p: Post, b: Inbox, event: Event, classify: Bytes -> Request)
    requires Inv(p, b)
    ensures WellFormed(p.w) && p.w == b.w
    ensures var q, c := StepPost(p, DoListen(event), classify), StepInbox(b, DoListen(event), classify);
            q.w == c.w && AllLetters(q.w.sendQueue) && AllTold(q.log.wires, c.received)
  {
    hide WsOutbox.Inv, WsInbox.Inv, AllTold, AllLetters, Told, Parse, Answers;
    InvShared(p, b);
    if p.w.client.Some? {
      Current(p, b);
      ListenRecords(p, b, event, classify);
      hide StepPost, StepInbox;
      var last := |b.received| - 1;
      if event.Received? {
        TellAnswer(p.log.wires[last], b.received[last], event.data);
        LastTold(p.log.wires, b.received,
                 p.log.wires[last] + [Answer(Answers(Parse(b.received[last]).rest + event.data))],
                 b.received[last] + event.data);
      } else {
        TellNothing(p.log.wires[last], b.received[last]);
        assert b.received[last] + [] == b.received[last];
        LastTold(p.log.wires, b.received, p.log.wires[last] + [Answer([])], b.received[last]);
      }
    }
  }

  lemma ServeTells(p: Post, b: Inbox, i: nat, event: Event, classify: Bytes -> Request)
    requires Inv(p, b)
    ensures WellFormed(p.w) && p.w == b.w
    ensures var q, c := StepPost(p, DoServe(i, event), classify), StepInbox(b, DoServe(i, event), classify);
            q.w == c.w && AllLetters(q.w.sendQueue) && AllTold(q.log.wires, c.received)
  {
    hide WsOutbox.Inv, WsInbox.Inv, AllTold, AllLetters;
    InvShared(p, b);
    NewTold(p.log.wires, b.received);
    if i < MAX_PENDING_HTTP {
      ServeShape(p.w, i, event, classify);
    }
    hide Serve, WellFormed;
  }

  lemma DrainTells(p: Post, b: Inbox, classify: Bytes -> Request)
    requires Inv(p, b)
    ensures WellFormed(p.w) && p.w == b.w
    ensures var q, c := StepPost(p, DoDrain, classify), StepInbox(b, DoDrain, classify);
            q.w == c.w && AllLetters(q.w.sendQueue) && AllTold(q.log.wires, c.received)
  {
    hide WsOutbox.Inv, WsInbox.Inv, AllTold, Told, Parse, Frames;
    InvShared(p, b);
    if p.w.client.Some? {
      Current(p, b);
      var last := |b.received| - 1;
      TellData(p.log.wires[last], b.received[last], p.w.sendQueue);
      LastTold(p.log.wires, b.received, p.log.wires[last] + [Data(p.w.sendQueue)], b.received[last]);
      assert b.received[last := b.received[last]] == b.received;
    }
  }

  lemma OtherTells(p: Post, b: Inbox, a: Action, classify: Bytes -> Request)
    requires Inv(p, b) && (a.DoAccept? || a.DoCheck? || a.DoPush?)
    ensures WellFormed(p.w) && p.w == b.w
    ensures var q, c := StepPost(p, a, classify), StepInbox(b, a, classify);
            q.w == c.w && AllLetters(q.w.sendQueue) && AllTold(q.log.wires, c.received)
  {
    hide WsOutbox.Inv, WsInbox.Inv, AllTold, Open;
    InvShared(p, b);
  }

  lemma StepBoth(p: Post, b: Inbox, a: Action, classify: Bytes -> Request)
    requires Inv(p, b)
    ensures WellFormed(p.w) && p.w == b.w && Inv(StepPost(p, a, classify), StepInbox(b, a, classify))
  {
    InvShared(p, b);
    StepPosts(p, a, classify);
    StepHears(b, a, classify);
    hide WsOutbox.Inv, WsInbox.Inv, AllTold, AllLetters, StepPost, StepInbox;
    match a
    case DoListen(event) => ListenTells(p, b, event, classify);
    case DoServe(i, event) => ServeTells(p, b, i, event, classify);
    case DoDrain => DrainTells(p, b, classify);
    case _ => OtherTells(p, b, a, classify);
  }

  lemma {:induction false} RunBoth(p: Post, b: Inbox, actions: seq<Action>, classify: Bytes -> Request)
    requires Inv(p, b)
    ensures WellFormed(p.w) && p.w == b.w && Inv(RunPost(p, actions, classify), RunInbox(b, actions, classify))
    decreases |actions|
  {
    hide Inv, StepPost, StepInbox, WellFormed;
    InvShared(p, b);
    if |actions| > 0 {
      StepBoth(p, b, actions[0], classify);
      RunBoth(StepPost(p, actions[0], classify), StepInbox(b, actions[0], classify), actions[1..], classify);
    }
  }

  lemma StartBoth(listener: Handle)
    ensures WellFormed(Start(listener)) && Inv(Begin(listener), Inbox(Start(listener), []))
  {
    StartPosts(listener);
    StartHears(listener);
    hide WsOutbox.Inv, WsInbox.Inv;
  }

  /** Over any run, for every session whose messages are at most 16 MiB each: its wire reads as whole
      frames with nothing left over. The pongs among them are just one for each ping it sent, final and
      with the ping's payload, in order; the others are just a final frame for each message that went to
      it, in order; and reading ends at a close frame if and only if the session sent one. */
  lemma PeerReadsItAll(listener: Handle, actions: seq<Action>, classify: Bytes -> Request, s: nat)
    ensures WellFormed(Start(listener))
    ensures var p := RunPost(Begin(listener), actions, classify);
            var b := RunInbox(Inbox(Start(listener), []), actions, classify);
            |p.log.wires| == |b.received|
            && (s < |p.log.wires| ==>
                  var sent := SentTo(p.log, s, |p.log.letters|);
                  var wire := Parse(WireBytes(p.log.wires[s]));
                  Sized(sent) ==>
                    && wire.rest == [] && wire.over == ClosedBy(b.received[s])
                    && Only(wire.frames, true) == PongFrames(Parse(b.received[s]).frames)
                    && Only(wire.frames, false) == LetterFrames(sent)
                    && (p.w.client.Some? && s == |p.log.ended| ==> WireBytes(p.log.wires[s]) == p.w.session.wire))
  {
    StartBoth(listener);
    RunBoth(Begin(listener), Inbox(Start(listener), []), actions, classify);
    WiresCarryTheMessages(listener, actions, classify, s);
    var p := RunPost(Begin(listener), actions, classify);
    var b := RunInbox(Inbox(Start(listener), []), actions, classify);
    hide RunPost, RunInbox, Begin, Start, WsOutbox.Inv, WsInbox.Inv, Only, PongFrames, LetterFrames, Parse, ClosedBy;
    if s < |p.log.wires| && Sized(SentTo(p.log, s, |p.log.letters|)) {
      WireIsRead(p.log.wires[s]);
      SpokenRest(p.log.wires[s]);
    }
  }

  lemma SpokenRest(pieces: seq<Piece>)
    ensures Spoken(pieces).rest == []
  {
    hide Parse, LetterFrames;
  }
}
