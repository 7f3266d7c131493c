/** The lock-free microphone ring: one producer, one consumer, two monotonic counters. Every
    load, store and slot access is a step of its own, so the two sides interleave freely. */
module MicRing {
  import opened Basics
  import opened Division

  const RING_CAP := 2048

  /** Where the producer is inside a push: between calls, after loading its own counter, or
      copying sample `k` of the `n` that fit. */
  datatype Producer =
    | Resting
    | HasHead(samples: seq<Sample>, head: nat)
    | Copying(samples: seq<Sample>, head: nat, n: nat, k: nat)

  /** Where the consumer is inside a pull; `out` is what it has read so far. */
  datatype Consumer =
    | Waiting
    | HasTail(want: nat, tail: nat)
    | Reading(tail: nat, n: nat, out: seq<Sample>)

  datatype World = World(
    ring: seq<Sample>,
    head: nat,
    tail: nat,
    producer: Producer,
    consumer: Consumer,
    accepted: seq<Sample>,   // samples of completed pushes, for stating properties
    pulled: seq<Sample>      // samples of completed pulls, likewise
  )

  const START := World(seq(RING_CAP, _ => 0), 0, 0, Resting, Waiting, [], [])

  function Index(c: nat): (i: nat)
    ensures i < RING_CAP
  {
    c % RING_CAP
  }

  datatype Action =
    | Push(samples: seq<Sample>)   // producer loads head
    | ProducerLoadsTail
    | CopyIn
    | PublishHead
    | Pull(want: nat)              // consumer loads tail
    | ConsumerLoadsHead
    | CopyOut
    | PublishTail

  /** One step; an action not enabled where its thread stands does nothing. */
  function Step(w: World, a: Action): World
    requires |w.ring| == RING_CAP
    ensures |Step(w, a).ring| == RING_CAP
  {
    match a
    case Push(samples) =>
      if w.producer == Resting && |samples| > 0 then w.(producer := HasHead(samples, w.head)) else w
    case ProducerLoadsTail =>
      if !w.producer.HasHead? then w
      else
        var p := w.producer;
        var free := RING_CAP - (p.head - w.tail);
        var n := if |p.samples| < free then |p.samples| else free;
        if n < 0 then w else w.(producer := Copying(p.samples, p.head, n, 0))
    case CopyIn =>
      if !w.producer.Copying? || w.producer.k >= w.producer.n || w.producer.k >= |w.producer.samples| then w
      else
        var p := w.producer;
        w.(ring := w.ring[Index(p.head + p.k) := p.samples[p.k]], producer := p.(k := p.k + 1))
    case PublishHead =>
      if !w.producer.Copying? || w.producer.k < w.producer.n || w.producer.n > |w.producer.samples| then w
      else
        var p := w.producer;
        w.(head := p.head + p.n, producer := Resting, accepted := w.accepted + p.samples[..p.n])
    case Pull(want) =>
      if w.consumer == Waiting then w.(consumer := HasTail(want, w.tail)) else w
    case ConsumerLoadsHead =>
      if !w.consumer.HasTail? then w
      else
        var c := w.consumer;
        var avail := w.head - c.tail;
        var n := if c.want < avail then c.want else avail;
        if n < 0 then w else w.(consumer := Reading(c.tail, n, []))
    case CopyOut =>
      if !w.consumer.Reading? || |w.consumer.out| >= w.consumer.n then w
      else
        var c := w.consumer;
        w.(consumer := c.(out := c.out + [w.ring[Index(c.tail + |c.out|)]]))
    case PublishTail =>
      if !w.consumer.Reading? || |w.consumer.out| < w.consumer.n then w
      else
        var c := w.consumer;
        w.(tail := c.tail + c.n, consumer := Waiting, pulled := w.pulled + c.out)
  }

  function Run(w: World, actions: seq<Action>): World
    requires |w.ring| == RING_CAP
    decreases |actions|
  {
    if |actions| == 0 then w else Run(Step(w, actions[0]), actions[1..])
  }

  // ---------------------------------------------------------------- invariant

  ghost predicate ProducerRight(w: World)
    requires |w.ring| == RING_CAP
  {
    match w.producer
    case Resting => true
    case HasHead(samples, head) => head == w.head
    case Copying(samples, head, n, k) =>
      && head == w.head && k <= n <= |samples| && head + n - w.tail <= RING_CAP
      && forall j | head <= j < head + k :: w.ring[Index(j)] == samples[j - head]
  }

  ghost predicate ConsumerRight(w: World) {
    match w.consumer
    case Waiting => true
    case HasTail(want, tail) => tail == w.tail
    case Reading(tail, n, out) =>
      && tail == w.tail && tail + n <= w.head && |out| <= n && w.head == |w.accepted|
      && out == w.accepted[tail..tail + |out|]
  }

  ghost predicate Inv(w: World) {
    && |w.ring| == RING_CAP
    && w.tail <= w.head <= w.tail + RING_CAP
    && w.head == |w.accepted|
    && w.pulled == w.accepted[..w.tail]
    && (forall j | w.tail <= j < w.head :: w.ring[Index(j)] == w.accepted[j])
    && ProducerRight(w)
    && ConsumerRight(w)
  }

  /** Counters less than a ring apart use different slots. */
  lemma SlotsDistinct(a: nat, b: nat)
    requires a < b < a + RING_CAP
    ensures Index(a) != Index(b)
  {
    ModDistinct(a, b, RING_CAP);
  }

  /** Writing past the published head leaves the unread slots as they were. */
  lemma CopyInKeeps(w: World)
    requires Inv(w)
    ensures Inv(Step(w, CopyIn))
  {
    if w.producer.Copying? && w.producer.k < w.producer.n {
      var c := w.producer.head + w.producer.k;
      forall j | w.tail <= j < c
        ensures Index(j) != Index(c)
      {
        SlotsDistinct(j, c);
      }
      hide Index;
    }
  }

  /** The published samples become the newest accepted ones, still in their slots. */
  lemma PublishHeadKeeps(w: World)
    requires Inv(w)
    ensures Inv(Step(w, PublishHead))
  {
    hide Index;
  }

  lemma ProducerKeeps(w: World, a: Action)
    requires Inv(w) && (a.Push? || a.ProducerLoadsTail?)
    ensures Inv(Step(w, a))
  {
    hide Index;
  }

  lemma ConsumerKeeps(w: World, a: Action)
    requires Inv(w) && (a.Pull? || a.ConsumerLoadsHead? || a.PublishTail?)
    ensures Inv(Step(w, a))
  {
    hide Index;
  }

  lemma CopyOutKeeps(w: World)
    requires Inv(w)
    ensures Inv(Step(w, CopyOut))
  {
    hide Index;
  }

  lemma StepKeeps(w: World, a: Action)
    requires Inv(w)
    ensures Inv(Step(w, a))
  {
    match a
    case Push(_) => ProducerKeeps(w, a);
    case ProducerLoadsTail => ProducerKeeps(w, a);
    case CopyIn => CopyInKeeps(w);
    case PublishHead => PublishHeadKeeps(w);
    case Pull(_) => ConsumerKeeps(w, a);
    case ConsumerLoadsHead => ConsumerKeeps(w, a);
    case CopyOut => CopyOutKeeps(w);
    case PublishTail => ConsumerKeeps(w, a);
  }

  lemma {:induction false} RunKeeps(w: World, actions: seq<Action>)
    requires Inv(w)
    ensures Inv(Run(w, actions))
    decreases |actions|
  {
    hide Step, ProducerRight, ConsumerRight;
    if |actions| > 0 {
      StepKeeps(w, actions[0]);
      RunKeeps(Step(w, actions[0]), actions[1..]);
    }
  }

  /** For every interleaving, what the consumer has pulled is a prefix of what the producer had
      accepted, in order, and the counters are never more than a ring apart. */
  lemma PulledIsPrefix(actions: seq<Action>)
    ensures var w := Run(START, actions);
            && w.pulled <= w.accepted
            && w.tail == |w.pulled| && w.head == |w.accepted| && 0 <= w.head - w.tail <= 2048
  {
    RunKeeps(START, actions);
    hide Run, START;
  }

  // ---------------------------------------------------------------- the calls themselves

  /** What a ring holds between two counters, oldest first. */
  function Slots(ring: seq<Sample>, tail: nat, head: nat): (s: seq<Sample>)
    requires |ring| == RING_CAP && tail <= head
    ensures |s| == head - tail
    ensures forall k | 0 <= k < |s| :: s[k] == ring[Index(tail + k)]
  {
    seq(head - tail, k requires 0 <= k => ring[Index(tail + k)])
  }

  lemma {:induction false} RunSnoc(w: World, actions: seq<Action>, a: Action)
    requires |w.ring| == RING_CAP
    ensures |Run(w, actions).ring| == RING_CAP && Run(w, actions + [a]) == Step(Run(w, actions), a)
    decreases |actions|
  {
    hide Step;
    if |actions| == 0 {
      assert actions + [a] == [a];
    } else {
      assert (actions + [a])[1..] == actions[1..] + [a];
      RunSnoc(Step(w, actions[0]), actions[1..], a);
    }
  }

  /** The steps of a push of which `n` samples fit, and of a pull that gets `n`. */
  function PushActions(samples: seq<Sample>, n: nat): seq<Action> {
    [Push(samples), ProducerLoadsTail] + seq(n, _ => CopyIn) + [PublishHead]
  }

  function PullActions(want: nat, n: nat): seq<Action> {
    [Pull(want), ConsumerLoadsHead] + seq(n, _ => CopyOut) + [PublishTail]
  }

  /** An undisturbed push, up to its `k`-th copy. */
  lemma {:induction false} PushRuns(w: World, samples: seq<Sample>, n: nat, k: nat)
    requires |w.ring| == RING_CAP && w.producer == Resting && w.tail <= w.head <= w.tail + RING_CAP
    requires |samples| > 0 && k <= n
    requires var free := RING_CAP - (w.head - w.tail); n == if |samples| < free then |samples| else free
    ensures Run(w, [Push(samples), ProducerLoadsTail] + seq(k, _ => CopyIn))
            == w.(ring := Copied(w.ring, w.head, samples[..k]), producer := Copying(samples, w.head, n, k))
    decreases k
  {
    var begin := [Push(samples), ProducerLoadsTail];
    if k == 0 {
      assert begin + seq(0, _ => CopyIn) == [] + [Push(samples)] + [ProducerLoadsTail];
      RunSnoc(w, [], Push(samples));
      RunSnoc(w, [] + [Push(samples)], ProducerLoadsTail);
    } else {
      hide Index;
      PushRuns(w, samples, n, k - 1);
      RunSnoc(w, begin + seq(k - 1, _ => CopyIn), CopyIn);
      assert begin + seq(k, _ => CopyIn) == begin + seq(k - 1, _ => CopyIn) + [CopyIn];
      assert samples[..k][..k - 1] == samples[..k - 1];
      hide Run;
    }
  }

  /** The ring with samples written from slot `head` on. */
  function Copied(ring: seq<Sample>, head: nat, samples: seq<Sample>): (r: seq<Sample>)
    requires |ring| == RING_CAP
    ensures |r| == RING_CAP
  {
    if |samples| == 0 then ring
    else
      var n := |samples| - 1;
      Copied(ring, head, samples[..n])[Index(head + n) := samples[n]]
  }

  /** An undisturbed pull, up to its `k`-th copy. */
  lemma {:induction false} PullRuns(w: World, want: nat, n: nat, k: nat)
    requires |w.ring| == RING_CAP && w.consumer == Waiting && w.tail <= w.head && k <= n
    requires n == if want < w.head - w.tail then want else w.head - w.tail
    ensures Run(w, [Pull(want), ConsumerLoadsHead] + seq(k, _ => CopyOut))
            == w.(consumer := Reading(w.tail, n, Slots(w.ring, w.tail, w.tail + k)))
    decreases k
  {
    var begin := [Pull(want), ConsumerLoadsHead];
    if k == 0 {
      assert begin + seq(0, _ => CopyOut) == [] + [Pull(want)] + [ConsumerLoadsHead];
      RunSnoc(w, [], Pull(want));
      RunSnoc(w, [] + [Pull(want)], ConsumerLoadsHead);
    } else {
      hide Index;
      PullRuns(w, want, n, k - 1);
      RunSnoc(w, begin + seq(k - 1, _ => CopyOut), CopyOut);
      assert begin + seq(k, _ => CopyOut) == begin + seq(k - 1, _ => CopyOut) + [CopyOut];
      assert Slots(w.ring, w.tail, w.tail + k)
          == Slots(w.ring, w.tail, w.tail + (k - 1)) + [w.ring[Index(w.tail + (k - 1))]];
      hide Run;
    }
  }

  class VoicePath {
    var passthrough: bool
    var ptt: bool
    const ringBuf: array<Sample>
    var ringHead: nat
    var ringTail: nat
    ghost var accepted: seq<Sample>
    ghost var pulled: seq<Sample>

    /** Between calls neither thread is inside one. */
    ghost function Now(): World
      reads this, ringBuf
    {
      World(ringBuf[..], ringHead, ringTail, Resting, Waiting, accepted, pulled)
    }

    ghost predicate Valid()
      reads this, ringBuf
    {
      ringBuf.Length == RING_CAP && Inv(Now())
    }

    ghost function Unread(): seq<Sample>
      requires Valid()
      reads this, ringBuf
    {
      Slots(ringBuf[..], ringTail, ringHead)
    }

    constructor ()
      ensures Valid() && Now() == START && !passthrough && !ptt && fresh(ringBuf)
    {
      passthrough, ptt := false, false;
      ringBuf := new Sample[RING_CAP](_ => 0);
      ringHead, ringTail, accepted, pulled := 0, 0, [], [];
      new;
      assert ringBuf[..] == START.ring;
    }

    /** Microphone samples are queued only while a voice link transmits; what does not fit is
        dropped from the end. The call is a run of the producer's steps. */
    method PushMicPcm(samples: seq<Sample>)
      requires Valid()
      modifies this`ringHead, this`accepted, ringBuf
      ensures Valid()
      ensures var room := 2048 - |old(Unread())|;
              var n := if |samples| < room then |samples| else room;
              if !passthrough || !ptt || |samples| == 0 then Now() == old(Now())
              else Unread() == old(Unread()) + samples[..n] && Now() == Run(old(Now()), PushActions(samples, n))
    {
      hide Inv, Run, Step, Slots, Index, Copied, PushActions;
      if !passthrough || !ptt || |samples| == 0 {
        return;
      }
      ghost var start := Now();
      InvBounds(start);
      var free := RING_CAP - (ringHead - ringTail);
      var n := if |samples| < free then |samples| else free;
      var k := 0;
      NothingCopied(start.ring, ringHead, samples);
      while k < n
        invariant 0 <= k <= n && ringBuf[..] == Copied(start.ring, ringHead, samples[..k])
        invariant ringHead == start.head && accepted == start.accepted
      {
        CopiedMore(start.ring, ringHead, samples, k);
        ringBuf[Index(ringHead + k)] := samples[k];
        k := k + 1;
      }
      PushEnds(start, samples, n);
      PushAdds(start, samples, n);
      accepted := accepted + samples[..n];
      ringHead := ringHead + n;
      assert Now() == Run(start, PushActions(samples, n));
    }

    /** The oldest unread samples move to `out`, as many as are there and wanted. The call is a
        run of the consumer's steps. */
    method PullMicPcm(out: array<Sample>, want: nat) returns (n: nat)
      requires Valid() && want <= out.Length && out != ringBuf
      modifies this`ringTail, this`pulled, out
      ensures Valid()
      ensures n == if want < |old(Unread())| then want else |old(Unread())|
      ensures out[..n] == old(Unread())[..n] && out[n..] == old(out[n..])
      ensures Unread() == old(Unread())[n..] && Now() == Run(old(Now()), PullActions(want, n))
    {
      hide Inv, Run, Step, Index, PullActions;
      ghost var start := Now();
      InvBounds(start);
      var avail := ringHead - ringTail;
      n := if want < avail then want else avail;
      var k := 0;
      while k < n
        invariant 0 <= k <= n && ringTail == old(ringTail) && pulled == old(pulled)
        invariant out[..k] == old(Unread())[..k] && out[n..] == old(out[n..])
      {
        out[k] := ringBuf[Index(ringTail + k)];
        k := k + 1;
      }
      PullEnds(start, want, n);
      PullTakes(start, want, n);
      assert out[..n] == Slots(start.ring, start.tail, start.tail + n);
      pulled := pulled + out[..n];
      if n > 0 {
        ringTail := ringTail + n;
      }
      assert Now() == Run(start, PullActions(want, n));
    }
  }

  lemma InvBounds(w: World)
    requires Inv(w)
    ensures |w.ring| == RING_CAP && w.tail <= w.head <= w.tail + RING_CAP
  {}

  /** What a ring holds unread is what has been accepted and not yet pulled. */
  lemma UnreadIs(w: World)
    requires Inv(w)
    ensures |w.ring| == RING_CAP && w.tail <= w.head == |w.accepted|
    ensures Slots(w.ring, w.tail, w.head) == w.accepted[w.tail..]
  {
    hide Index;
  }

  lemma NothingCopied(ring: seq<Sample>, head: nat, samples: seq<Sample>)
    requires |ring| == RING_CAP
    ensures Copied(ring, head, samples[..0]) == ring
  {}

  lemma CopiedMore(ring: seq<Sample>, head: nat, samples: seq<Sample>, k: nat)
    requires |ring| == RING_CAP && k < |samples|
    ensures Copied(ring, head, samples[..k + 1]) == Copied(ring, head, samples[..k])[Index(head + k) := samples[k]]
  {
    assert samples[..k + 1][..k] == samples[..k];
    hide Index;
  }

  /** A push adds to what is unread. */
  lemma PushAdds(w: World, samples: seq<Sample>, n: nat)
    requires Inv(w) && n <= |samples|
    requires Run(w, PushActions(samples, n))
          == w.(ring := Copied(w.ring, w.head, samples[..n]), head := w.head + n, accepted := w.accepted + samples[..n])
    ensures w.tail <= w.head
    ensures var v := Run(w, PushActions(samples, n));
            Inv(v) && v.tail <= v.head && Slots(v.ring, v.tail, v.head) == Slots(w.ring, w.tail, w.head) + samples[..n]
  {
    hide Run, Copied, Index;
    var v := Run(w, PushActions(samples, n));
    RunKeeps(w, PushActions(samples, n));
    UnreadIs(w);
    UnreadIs(v);
    hide Inv;
    assert v.accepted[v.tail..] == w.accepted[w.tail..] + samples[..n];
  }

  /** A pull takes from its front. */
  lemma PullTakes(w: World, want: nat, n: nat)
    requires Inv(w) && n <= w.head - w.tail
    requires Run(w, PullActions(want, n))
          == w.(tail := w.tail + n, pulled := w.pulled + Slots(w.ring, w.tail, w.tail + n))
    ensures var v := Run(w, PullActions(want, n));
            Inv(v) && v.tail <= v.head && Slots(v.ring, v.tail, v.head) == Slots(w.ring, w.tail, w.head)[n..]
  {
    hide Run, Index, Slots;
    RunKeeps(w, PullActions(want, n));
    InvBounds(w);
    InvBounds(Run(w, PullActions(want, n)));
    hide Inv;
    SlotsFrom(w.ring, w.tail, n, w.head);
  }

  lemma SlotsFrom(ring: seq<Sample>, tail: nat, n: nat, head: nat)
    requires |ring| == RING_CAP && tail + n <= head
    ensures Slots(ring, tail + n, head) == Slots(ring, tail, head)[n..]
  {
    hide Index;
    assert forall k | 0 <= k < head - tail - n :: Slots(ring, tail, head)[n..][k] == ring[Index(tail + n + k)];
  }

  lemma PushEnds(w: World, samples: seq<Sample>, n: nat)
    requires |w.ring| == RING_CAP && w.producer == Resting && w.tail <= w.head <= w.tail + RING_CAP
    requires |samples| > 0
    requires var free := RING_CAP - (w.head - w.tail); n == if |samples| < free then |samples| else free
    ensures Run(w, PushActions(samples, n))
            == w.(ring := Copied(w.ring, w.head, samples[..n]), head := w.head + n,
                  accepted := w.accepted + samples[..n])
  {
    hide Run, Copied, Index;
    PushRuns(w, samples, n, n);
    RunSnoc(w, [Push(samples), ProducerLoadsTail] + seq(n, _ => CopyIn), PublishHead);
  }

  lemma PullEnds(w: World, want: nat, n: nat)
    requires |w.ring| == RING_CAP && w.consumer == Waiting && w.tail <= w.head
    requires n == if want < w.head - w.tail then want else w.head - w.tail
    ensures Run(w, PullActions(want, n))
            == w.(tail := w.tail + n, pulled := w.pulled + Slots(w.ring, w.tail, w.tail + n))
  {
    hide Run, Index, Slots;
    PullRuns(w, want, n, n);
    RunSnoc(w, [Pull(want), ConsumerLoadsHead] + seq(n, _ => CopyOut), PublishTail);
  }

  // ---------------------------------------------------------------- machine words

  /** Counters wrapping at a machine word give the same index and the same distance, because
      the ring's capacity divides the word and the distance is below it. */
  lemma WrapIsInvisible(head: nat, tail: nat, word: nat)
    requires tail <= head <= tail + RING_CAP < tail + word && word % RING_CAP == 0
    ensures Index(head % word) == Index(head)
    ensures (head % word - tail % word) % word == head - tail
  {
    var q, r := head / word, head % word;
    assert word == word / RING_CAP * RING_CAP;
    ModOfMod(head, word, RING_CAP);
    DistanceModulo(head, tail, word);
  }

  lemma ModOfMod(a: nat, m: nat, n: nat)
    requires n > 0 && m > 0 && m % n == 0
    ensures a % m % n == a % n
  {
    var q, r, k := a / m, a % m, m / n;
    SameFactor(q, m, k * n);
    Associate(q, k, n);
    Distribute2(q * k, r / n, n);
    DivUnique(a, n, q * k + r / n, r % n);
  }

  lemma DistanceModulo(a: nat, b: nat, m: nat)
    requires m > 0 && b <= a < b + m
    ensures (a % m - b % m) % m == a - b
  {
    var d := a - b;
    var q, r := b / m, b % m;
    if r + d < m {
      DivUnique(a, m, q, r + d);
      DivUnique(d, m, 0, d);
    } else {
      Distribute(q, m);
      DivUnique(a, m, q + 1, r + d - m);
      DivUnique(d - m, m, -1, d);
    }
  }
}
