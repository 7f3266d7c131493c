/** Whole streams of frames, well formed or not, and what they deliver. */
module WsStreams {
  import opened Basics
  import opened WsFrames
  import opened WsSession
  import opened WsDelivery

  // ---------------------------------------------------------------- any list of frames

  predicate IsData(f: Frame) {
    f.opcode == TEXT || f.opcode == BINARY
  }

  predicate Opens(f: Frame) {
    IsData(f) && !f.fin
  }

  predicate Finishes(f: Frame) {
    f.opcode == CONTINUATION && f.fin
  }

  /** The frame that opened the message under way after the first `n` frames, if there is one. */
  function Opener(frames: seq<Frame>, n: nat): (opener: Option<nat>)
    requires n <= |frames|
    ensures opener.Some? ==> opener.value < n && Opens(frames[opener.value])
  {
    if n == 0 then None
    else if Opens(frames[n - 1]) then Some(n - 1)
    else if Finishes(frames[n - 1]) then None
    else Opener(frames, n - 1)
  }

  /** It is the frame behind which none opens another message and none finishes one. */
  lemma {:induction false} OpenerIs(frames: seq<Frame>, n: nat, i: nat)
    requires i < n <= |frames|
    ensures Opener(frames, n) == Some(i)
            <==> Opens(frames[i]) && forall k | i < k < n :: !Opens(frames[k]) && !Finishes(frames[k])
  {
    if i < n - 1 {
      OpenerIs(frames, n - 1, i);
    }
  }

  /** The payload of the opening frame and of the continuations behind it, before frame `n`. */
  function Gathered(frames: seq<Frame>, i: nat, n: nat): Bytes
    requires i < n <= |frames|
  {
    if n == i + 1 then frames[i].payload
    else Gathered(frames, i, n - 1) + if frames[n - 1].opcode == CONTINUATION then frames[n - 1].payload else []
  }

  /** The message frame `j` completes, if it completes one: its own if it stands alone, or the one
      under way. */
  function Completes(frames: seq<Frame>, j: nat): Option<Frame>
    requires j < |frames|
  {
    if IsData(frames[j]) && frames[j].fin then Some(frames[j])
    else if Finishes(frames[j]) then
      match Opener(frames, j)
      case None => None
      case Some(i) => Some(Frame(true, frames[i].opcode, Gathered(frames, i, j) + frames[j].payload))
    else None
  }

  /** The messages of one kind that the first `n` frames complete, in order. */
  function Messages(frames: seq<Frame>, opcode: nat, n: nat): seq<Bytes>
    requires n <= |frames|
  {
    if n == 0 then []
    else
      var before := Messages(frames, opcode, n - 1);
      match Completes(frames, n - 1)
      case None => before
      case Some(m) => if m.opcode == opcode then before + [m.payload] else before
  }

  function Pongs(frames: seq<Frame>, n: nat): Bytes
    requires n <= |frames|
  {
    if n == 0 then []
    else if frames[n - 1].opcode == PING then Pongs(frames, n - 1) + Reply(PONG, frames[n - 1].payload)
    else Pongs(frames, n - 1)
  }

  /** The parser's accumulator is the message under way. */
  predicate UnderWay(s: State, frames: seq<Frame>, n: nat)
    requires n <= |frames|
  {
    match Opener(frames, n)
    case None => s.fragOpcode == 0
    case Some(i) => s.fragOpcode == frames[i].opcode && s.fragAcc == Gathered(frames, i, n)
  }

  lemma OneMoreFrame(s: State, t: State, frames: seq<Frame>, n: nat)
    requires n < |frames| && UnderWay(t, frames, n) && frames[n].opcode != CLOSE
    requires t.recvQueue == s.recvQueue + Messages(frames, TEXT, n)
    requires t.recvBinaryQueue == s.recvBinaryQueue + Messages(frames, BINARY, n)
    requires t.wire == s.wire + Pongs(frames, n)
    ensures var u := Handle(t, frames[n]);
            && UnderWay(u, frames, n + 1)
            && u.recvQueue == s.recvQueue + Messages(frames, TEXT, n + 1)
            && u.recvBinaryQueue == s.recvBinaryQueue + Messages(frames, BINARY, n + 1)
            && u.wire == s.wire + Pongs(frames, n + 1)
  {
    hide Print;
  }

  lemma {:induction false} FirstFramesDeliver(s: State, frames: seq<Frame>, n: nat)
    requires s.fragOpcode == 0 && n <= |frames| && forall f | f in frames :: f.opcode != CLOSE
    ensures var t := HandleAll(s, frames[..n]);
            && UnderWay(t, frames, n)
            && t.recvQueue == s.recvQueue + Messages(frames, TEXT, n)
            && t.recvBinaryQueue == s.recvBinaryQueue + Messages(frames, BINARY, n)
            && t.wire == s.wire + Pongs(frames, n)
    decreases n
  {
    hide UnderWay, Messages, Pongs, HandleAll, Handle;
    if n == 0 {
      NoFrames(s, frames);
    } else {
      FirstFramesDeliver(s, frames, n - 1);
      HandleConcat(s, frames[..n - 1], [frames[n - 1]]);
      assert frames[..n] == frames[..n - 1] + [frames[n - 1]];
      OneFrame(HandleAll(s, frames[..n - 1]), frames[n - 1]);
      OneMoreFrame(s, HandleAll(s, frames[..n - 1]), frames, n - 1);
    }
  }

  lemma NoFrames(s: State, frames: seq<Frame>)
    requires s.fragOpcode == 0
    ensures HandleAll(s, frames[..0]) == s && UnderWay(s, frames, 0) && Pongs(frames, 0) == []
    ensures Messages(frames, TEXT, 0) == [] && Messages(frames, BINARY, 0) == []
  {}

  lemma OneFrame(s: State, f: Frame)
    ensures HandleAll(s, [f]) == Handle(s, f)
  {
    hide Handle;
  }

  /** Any list of frames but a close - messages in fragments, abandoned or interleaved, stray
      continuations, opcodes nobody assigned - on any cutting of its bytes: each queue gets exactly the
      messages completed, in order, the peer one pong per ping, and the parser keeps what is under way. */
  lemma FramesDeliver(s: State, frames: seq<Frame>, masks: seq<Option<Bytes>>, chunks: seq<Bytes>)
    requires s.recvBuf == [] && s.fragOpcode == 0
    requires Sendable(frames, masks) && Flatten(chunks) == OnWire(frames, masks)
    requires forall f | f in frames :: f.opcode != CLOSE
    ensures var (t, closed) := FeedAll(s, chunks);
            && !closed && t.recvBuf == [] && UnderWay(t, frames, |frames|)
            && t.recvQueue == s.recvQueue + Messages(frames, TEXT, |frames|)
            && t.recvBinaryQueue == s.recvBinaryQueue + Messages(frames, BINARY, |frames|)
            && t.wire == s.wire + Pongs(frames, |frames|)
  {
    hide *;
    StreamIsHandled(s, frames, masks, chunks);
    FirstFramesDeliver(s, frames, |frames|);
    HandleAllKeeps(s, frames);
    assert frames[..|frames|] == frames;
  }

  // ---------------------------------------------------------------- streams of messages

  /** What a peer may send: messages, messages it abandons before their last fragment, control
      frames of their own, and continuations of nothing. */
  datatype Item =
    | Whole(m: Message)
    | Unfinished(binary: bool, first: Piece, rest: seq<Piece>)
    | Between(control: Control)
    | Stray(fin: bool, data: Bytes)

  /** Continuations are strays only while no message is under way. */
  predicate Proper(items: seq<Item>, open: bool)
    decreases |items|
  {
    |items| == 0 ||
    match items[0]
    case Whole(m) => Proper(items[1..], open && |m.rest| == 0)
    case Unfinished(_, _, _) => Proper(items[1..], true)
    case Between(_) => Proper(items[1..], open)
    case Stray(_, _) => !open && Proper(items[1..], false)
  }

  /** Fragments none of which is the last. */
  function MoreFrames(pieces: seq<Piece>): seq<Frame> {
    if |pieces| == 0 then []
    else ControlFrames(pieces[0].before) + [Frame(false, CONTINUATION, pieces[0].data)] + MoreFrames(pieces[1..])
  }

  function ItemFrames(item: Item): seq<Frame> {
    match item
    case Whole(m) => MessageFrames(m)
    case Unfinished(binary, first, rest) =>
      ControlFrames(first.before) + [Frame(false, if binary then BINARY else TEXT, first.data)] + MoreFrames(rest)
    case Between(control) => ControlFrames([control])
    case Stray(fin, data) => [Frame(fin, CONTINUATION, data)]
  }

  /** What each item ought to do. Only whole messages are ever queued. */
  function Take(s: State, item: Item): State {
    match item
    case Whole(m) => Deliver(s, m)
    case Unfinished(binary, first, rest) =>
      s.(wire := s.wire + (Echoes(first.before) + PieceEchoes(rest)),
         fragAcc := first.data + Content(rest),
         fragOpcode := if binary then BINARY else TEXT)
    case Between(control) => s.(wire := s.wire + Echoes([control]))
    case Stray(fin, data) => s.(fragAcc := if fin then [] else s.fragAcc + data)
  }

  function AllFrames(items: seq<Item>): seq<Frame> {
    if |items| == 0 then [] else ItemFrames(items[0]) + AllFrames(items[1..])
  }

  function TakeAll(s: State, items: seq<Item>): State
    decreases |items|
  {
    if |items| == 0 then s else TakeAll(Take(s, items[0]), items[1..])
  }

  lemma {:induction false} MorePiecesGather(s: State, pieces: seq<Piece>)
    ensures HandleAll(s, MoreFrames(pieces))
         == s.(wire := s.wire + PieceEchoes(pieces), fragAcc := s.fragAcc + Content(pieces))
    decreases |pieces|
  {
    if |pieces| > 0 {
      var controls := ControlFrames(pieces[0].before);
      var data := [Frame(false, CONTINUATION, pieces[0].data)];
      HandleConcat(s, controls + data, MoreFrames(pieces[1..]));
      HandleConcat(s, controls, data);
      ControlsEcho(s, pieces[0].before);
      var t := Handle(s.(wire := s.wire + Echoes(pieces[0].before)), data[0]);
      assert HandleAll(s, controls + data) == t;
      hide Echoes, ControlFrames;
      Assoc(s.fragAcc, pieces[0].data, Content(pieces[1..]));
      Assoc(s.wire, Echoes(pieces[0].before), PieceEchoes(pieces[1..]));
      MorePiecesGather(t, pieces[1..]);
    }
  }

  lemma UnfinishedIsKept(s: State, item: Item)
    requires item.Unfinished?
    ensures HandleAll(s, ItemFrames(item)) == Take(s, item)
  {
    var controls := ControlFrames(item.first.before);
    var data := [Frame(false, if item.binary then BINARY else TEXT, item.first.data)];
    HandleConcat(s, controls + data, MoreFrames(item.rest));
    HandleConcat(s, controls, data);
    ControlsEcho(s, item.first.before);
    var t := Handle(s.(wire := s.wire + Echoes(item.first.before)), data[0]);
    assert HandleAll(s, controls + data) == t;
    hide Echoes, ControlFrames;
    Assoc(s.wire, Echoes(item.first.before), PieceEchoes(item.rest));
    MorePiecesGather(t, item.rest);
  }

  lemma ItemIsTaken(s: State, item: Item)
    requires item.Stray? ==> s.fragOpcode == 0
    ensures HandleAll(s, ItemFrames(item)) == Take(s, item)
  {
    match item
    case Whole(m) => MessageIsDelivered(s, m);
    case Unfinished(_, _, _) => UnfinishedIsKept(s, item);
    case Between(control) => ControlsEcho(s, [control]);
    case Stray(_, _) =>
  }

  lemma {:induction false} ItemsAreTaken(s: State, items: seq<Item>)
    requires Proper(items, s.fragOpcode != 0)
    ensures HandleAll(s, AllFrames(items)) == TakeAll(s, items)
    decreases |items|
  {
    hide ItemFrames, HandleAll;
    if |items| == 0 {
      NothingHandled(s);
    } else {
      HandleConcat(s, ItemFrames(items[0]), AllFrames(items[1..]));
      ItemIsTaken(s, items[0]);
      ItemsAreTaken(Take(s, items[0]), items[1..]);
    }
  }

  lemma NothingHandled(s: State)
    ensures HandleAll(s, []) == s
  {}

  lemma {:induction false} ControlFramesStayOpen(controls: seq<Control>)
    ensures forall f | f in ControlFrames(controls) :: f.opcode != CLOSE
  {
    if |controls| > 0 {
      ControlFramesStayOpen(controls[1..]);
    }
  }

  lemma {:induction false} PiecesStayOpen(pieces: seq<Piece>)
    ensures forall f | f in ContinuationFrames(pieces) || f in MoreFrames(pieces) :: f.opcode != CLOSE
  {
    if |pieces| > 0 {
      ControlFramesStayOpen(pieces[0].before);
      PiecesStayOpen(pieces[1..]);
    }
  }

  lemma ItemStaysOpen(item: Item)
    ensures forall f | f in ItemFrames(item) :: f.opcode != CLOSE
  {
    match item
    case Whole(m) =>
      ControlFramesStayOpen(m.first.before);
      PiecesStayOpen(m.rest);
    case Unfinished(_, first, rest) =>
      ControlFramesStayOpen(first.before);
      PiecesStayOpen(rest);
    case Between(control) => ControlFramesStayOpen([control]);
    case Stray(_, _) =>
  }

  lemma {:induction false} AllFramesStayOpen(items: seq<Item>)
    ensures forall f | f in AllFrames(items) :: f.opcode != CLOSE
  {
    hide ItemFrames;
    if |items| > 0 {
      ItemStaysOpen(items[0]);
      AllFramesStayOpen(items[1..]);
    }
  }

  /** End to end, from any session with an empty buffer: messages fragmented anyhow with control
      frames in between, messages abandoned, control frames and stray continuations, masked with any
      keys and cut into any chunks - the messages arrive whole, in order and once, and nothing else. */
  lemma StreamIsDelivered(s: State, items: seq<Item>, masks: seq<Option<Bytes>>, chunks: seq<Bytes>)
    requires s.recvBuf == [] && Proper(items, s.fragOpcode != 0)
    requires Sendable(AllFrames(items), masks) && Flatten(chunks) == OnWire(AllFrames(items), masks)
    ensures FeedAll(s, chunks) == (TakeAll(s, items), false)
  {
    hide *;
    AllFramesStayOpen(items);
    ItemsAreTaken(s, items);
    StreamIsHandled(s, AllFrames(items), masks, chunks);
  }
}
