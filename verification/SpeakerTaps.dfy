/** Which samples a played block really depends on: interpolation looks two samples ahead, and near
    the end of the buffer these may be leftovers. */
module SpeakerTaps {
  import opened RealArithmetic
  import opened SpeakerRing

  /** Whole and fractional part of the position of output `i` behind the read position. */
  function Whole(i: nat, ratio: real): (k: nat)
    requires ratio > 0.0
  {
    NonNegative(i as real, ratio);
    (i as real / ratio).Floor
  }

  function Fraction(i: nat, ratio: real): (t: real)
    requires ratio > 0.0
    ensures 0.0 <= t < 1.0
  {
    i as real / ratio - Whole(i, ratio) as real
  }

  // ---------------------------------------------------------------- taps within the buffer

  lemma WholeMonotone(i: nat, j: nat, ratio: real)
    requires ratio > 0.0 && i <= j
    ensures Whole(i, ratio) <= Whole(j, ratio)
  {
    var y := j as real / ratio;
    Divided(j as real, ratio);
    DivideMonotone(i as real, y, ratio);
  }

  /** Every tap of every played sample is a buffered one exactly when those of the last are. */
  lemma TapsAreBuffered(avail: nat, n: nat, ratio: real)
    requires ratio > 0.0 && Fill(avail, n, ratio) > 0
    ensures (forall i | 0 <= i < Fill(avail, n, ratio) :: Whole(i, ratio) + 2 < avail)
            <==> Whole(Fill(avail, n, ratio) - 1, ratio) + 2 < avail
  {
    var fill := Fill(avail, n, ratio);
    hide Fill, Whole;
    forall i | 0 <= i < fill
      ensures Whole(i, ratio) <= Whole(fill - 1, ratio)
    {
      WholeMonotone(i, fill - 1, ratio);
    }
  }

  // ---------------------------------------------------------------- what a block depends on

  /** The same samples buffered, and the same one before them. */
  ghost predicate SameSound(ring: seq<real>, read: nat, ring': seq<real>, read': nat, avail: nat) {
    && |ring| == |ring'| == CAP
    && Window(ring, read, avail) == Window(ring', read', avail)
    && ring[Slot(read + CAP - 1)] == ring'[Slot(read' + CAP - 1)]
  }

  /** The block is decided by what is buffered and the sample before it. */
  ghost predicate Determined(avail: nat, n: nat, ratio: real)
    requires ratio > 0.0
  {
    forall ring, read, ring', read' | SameSound(ring, read, ring', read', avail) ::
      Played(ring, read, avail, n, ratio) == Played(ring', read', avail, n, ratio)
  }

  /** Output `i` needs no leftover: its taps are buffered, it falls on a sample, or the ring is so
      full that the taps ahead wrap around to buffered samples. */
  predicate Settled(i: nat, avail: nat, ratio: real)
    requires ratio > 0.0
  {
    Whole(i, ratio) + 2 < avail || Fraction(i, ratio) == 0.0 || avail + 1 >= CAP
  }

  lemma CubicAround(ring: seq<real>, read: nat, i: nat, ratio: real)
    requires |ring| == CAP && ratio > 0.0
    ensures i as real / ratio >= 0.0
    ensures var k := Whole(i, ratio);
            CubicAt(ring, read as real + i as real / ratio)
            == Cubic(ring[Slot(read + k + CAP - 1)], ring[Slot(read + k)], ring[Slot(read + k + 1)],
                     ring[Slot(read + k + 2)], Fraction(i, ratio))
  {
    NonNegative(i as real, ratio);
    assert (read as real + i as real / ratio).Floor == read + Whole(i, ratio);
    hide Cubic;
  }

  /** One sample before position `k`: buffered too, or the one before the buffer. */
  lemma Before(read: nat, k: nat)
    requires k > 0
    ensures Slot(read + k + CAP - 1) == Slot(read + (k - 1))
  {}

  lemma NeighboursAgree(ring: seq<real>, read: nat, ring': seq<real>, read': nat, avail: nat, k: nat)
    requires SameSound(ring, read, ring', read', avail) && k < avail <= CAP
    ensures ring[Slot(read + k + CAP - 1)] == ring'[Slot(read' + k + CAP - 1)]
    ensures ring[Slot(read + k)] == ring'[Slot(read' + k)]
    ensures k + 2 < avail || avail + 1 >= CAP ==>
              ring[Slot(read + k + 1)] == ring'[Slot(read' + k + 1)]
              && ring[Slot(read + k + 2)] == ring'[Slot(read' + k + 2)]
  {
    var w, w' := Window(ring, read, avail), Window(ring', read', avail);
    if k > 0 {
      Before(read, k);
      Before(read', k);
      assert w[k - 1] == w'[k - 1];
    }
    assert w[k] == w'[k];
    if k + 2 < avail || avail + 1 >= CAP {
      AheadAgrees(ring, read, ring', read', avail, k + 1);
      AheadAgrees(ring, read, ring', read', avail, k + 2);
    }
    hide Slot;
  }

  lemma Around(read: nat, n: nat)
    ensures Slot(read + (CAP + n)) == Slot(read + n) && Slot(read + (CAP - 1)) == Slot(read + CAP - 1)
  {}

  /** A full ring, or one with a single free slot, has only buffered samples ahead. */
  lemma AheadAgrees(ring: seq<real>, read: nat, ring': seq<real>, read': nat, avail: nat, m: nat)
    requires SameSound(ring, read, ring', read', avail) && 0 < avail <= CAP
    requires m < avail || (avail + 1 >= CAP && m <= avail + 1)
    ensures ring[Slot(read + m)] == ring'[Slot(read' + m)]
  {
    var w, w' := Window(ring, read, avail), Window(ring', read', avail);
    var n := if m >= CAP then m - CAP else m;
    Around(read, n);
    Around(read', n);
    hide Slot;
    if n < avail {
      assert w[n] == w'[n];
    }
  }

  lemma CubicOnSample(p0: real, p1: real, p2: real, p3: real, q0: real, q2: real, q3: real)
    ensures Cubic(p0, p1, p2, p3, 0.0) == Cubic(q0, p1, q2, q3, 0.0)
  {}

  lemma SettledAgrees(ring: seq<real>, read: nat, ring': seq<real>, read': nat, avail: nat, n: nat, ratio: real, i: nat)
    requires ratio > 0.0 && avail <= CAP && i < Fill(avail, n, ratio) && Settled(i, avail, ratio)
    requires SameSound(ring, read, ring', read', avail)
    ensures Played(ring, read, avail, n, ratio)[i] == Played(ring', read', avail, n, ratio)[i]
  {
    var k := Whole(i, ratio);
    BaseIsLive(avail, n, ratio, i);
    NeighboursAgree(ring, read, ring', read', avail, k);
    hide Fill, Whole, Slot, Cubic, CubicAt, Clamp, Fraction, Window;
    PlayedAt(ring, read, avail, n, ratio, i);
    PlayedAt(ring', read', avail, n, ratio, i);
    CubicAround(ring, read, i, ratio);
    CubicAround(ring', read', i, ratio);
    if Fraction(i, ratio) == 0.0 {
      CubicOnSample(ring[Slot(read + k + CAP - 1)], ring[Slot(read + k)], ring[Slot(read + k + 1)],
                    ring[Slot(read + k + 2)], ring'[Slot(read' + k + CAP - 1)], ring'[Slot(read' + k + 1)],
                    ring'[Slot(read' + k + 2)]);
    }
  }

  // ---------------------------------------------------------------- leftovers are heard

  lemma Product(a: real, b: real, c: real)
    requires a > 0.0 && b > 0.0 && c == a * b
    ensures c > 0.0
  {}

  lemma CubeShape(t: real, u: real)
    requires u == t * t
    ensures Cubic(0.0, 0.0, 0.0, 1.0, t) == 0.5 * (t * u) - 0.5 * u
  {}

  /** Between samples each of the two samples ahead has a say. */
  lemma TapsAheadCount(t: real)
    requires 0.0 < t < 1.0
    ensures Cubic(0.0, 0.0, 1.0, 0.0, t) > 0.0 && Cubic(0.0, 0.0, 0.0, 1.0, t) < 0.0
    ensures Cubic(0.0, 0.0, 0.0, 0.0, t) == 0.0
  {
    var u := t * t;
    Product(t, t, u);
    CubeShape(t, u);
    ScaleStrict(t, 1.0, u);
    var v := -1.5 * t + 2.0;
    Product(v, t, v * t);
    Product(v * t + 0.5, t, (v * t + 0.5) * t);
  }

  lemma Unsettled(avail: nat, n: nat, ratio: real, i: nat)
    requires ratio > 0.0 && i < Fill(avail, n, ratio) && !Settled(i, avail, ratio)
    ensures avail + 1 < CAP && Whole(i, ratio) < avail <= Whole(i, ratio) + 2 && 0.0 < Fraction(i, ratio) < 1.0
  {
    BaseIsLive(avail, n, ratio, i);
    hide Fill;
  }

  lemma Audible(v: real)
    ensures v != 0.0 ==> Clamp(v) != Clamp(0.0)
  {}

  /** Two rings that agree but play differently at output `i`. */
  lemma Tells(ring: seq<real>, ring': seq<real>, avail: nat, n: nat, ratio: real, i: nat)
    requires ratio > 0.0 && i < Fill(avail, n, ratio) && SameSound(ring, 0, ring', 0, avail)
    requires Played(ring, 0, avail, n, ratio)[i] != Played(ring', 0, avail, n, ratio)[i]
    ensures !Determined(avail, n, ratio)
  {
    hide Played, SameSound;
  }

  /** A silent ring, and one whose only sound is a leftover just past the newest sample. */
  lemma LeftoverIsHeard(avail: nat, n: nat, ratio: real, i: nat)
    requires ratio > 0.0 && i < Fill(avail, n, ratio) && !Settled(i, avail, ratio)
    ensures !Determined(avail, n, ratio)
  {
    hide *;
    var k, t := Whole(i, ratio), Fraction(i, ratio);
    Unsettled(avail, n, ratio, i);
    var silent := seq(CAP, _ => 0.0);
    var loud := silent[avail := 1.0];
    Leftover(silent, loud, avail, k);
    PlayedAt(silent, 0, avail, n, ratio, i);
    PlayedAt(loud, 0, avail, n, ratio, i);
    CubicAround(silent, 0, i, ratio);
    CubicAround(loud, 0, i, ratio);
    TapsAheadCount(t);
    Audible(Cubic(0.0, 0.0, 0.0, 1.0, t));
    Audible(Cubic(0.0, 0.0, 1.0, 0.0, t));
    Tells(silent, loud, avail, n, ratio, i);
  }

  lemma Leftover(silent: seq<real>, loud: seq<real>, avail: nat, k: nat)
    requires silent == seq(CAP, _ => 0.0) && k < avail <= k + 2 && avail + 1 < CAP && loud == silent[avail := 1.0]
    ensures SameSound(silent, 0, loud, 0, avail)
    ensures silent[Slot(k + CAP - 1)] == 0.0 == loud[Slot(k + CAP - 1)]
    ensures silent[Slot(k)] == silent[Slot(k + 1)] == silent[Slot(k + 2)] == 0.0
    ensures loud[Slot(k)] == 0.0
    ensures loud[Slot(k + 1)] == (if k + 1 == avail then 1.0 else 0.0)
    ensures loud[Slot(k + 2)] == (if k + 2 == avail then 1.0 else 0.0)
  {
    assert Slot(k) == k && Slot(k + 1) == k + 1 && Slot(CAP - 1) == CAP - 1;
    if k > 0 {
      Before(0, k);
    }
    var w, w' := Window(silent, 0, avail), Window(loud, 0, avail);
    forall j | 0 <= j < avail
      ensures w[j] == w'[j]
    {
      assert Slot(0 + j) == j;
    }
  }

  /** A block is decided by what is buffered and the sample before it if and only if every output
      that reaches past the newest sample falls on a sample, or the ring is full but for one slot. */
  lemma BlockIsDetermined(avail: nat, n: nat, ratio: real)
    requires ratio > 0.0 && avail <= CAP
    ensures Determined(avail, n, ratio) <==> forall i | 0 <= i < Fill(avail, n, ratio) :: Settled(i, avail, ratio)
  {
    hide Fill, Settled, Played;
    var fill := Fill(avail, n, ratio);
    if forall i | 0 <= i < fill :: Settled(i, avail, ratio) {
      forall ring, read, ring', read' | SameSound(ring, read, ring', read', avail)
        ensures Played(ring, read, avail, n, ratio) == Played(ring', read', avail, n, ratio)
      {
        SettledBlock(ring, read, ring', read', avail, n, ratio);
      }
    } else {
      var i :| 0 <= i < fill && !Settled(i, avail, ratio);
      LeftoverIsHeard(avail, n, ratio, i);
    }
  }

  lemma SettledBlock(ring: seq<real>, read: nat, ring': seq<real>, read': nat, avail: nat, n: nat, ratio: real)
    requires ratio > 0.0 && avail <= CAP && SameSound(ring, read, ring', read', avail)
    requires forall i | 0 <= i < Fill(avail, n, ratio) :: Settled(i, avail, ratio)
    ensures Played(ring, read, avail, n, ratio) == Played(ring', read', avail, n, ratio)
  {
    var p, p' := Played(ring, read, avail, n, ratio), Played(ring', read', avail, n, ratio);
    forall i | 0 <= i < n
      ensures p[i] == p'[i]
    {
      if i < Fill(avail, n, ratio) {
        SettledAgrees(ring, read, ring', read', avail, n, ratio, i);
      } else {
        SilenceAfter(ring, read, avail, n, ratio, i);
        SilenceAfter(ring', read', avail, n, ratio, i);
      }
    }
    hide Played;
  }

  lemma SilenceAfter(ring: seq<real>, read: nat, avail: nat, n: nat, ratio: real, i: nat)
    requires |ring| == CAP && ratio > 0.0 && Fill(avail, n, ratio) <= i < n
    ensures Played(ring, read, avail, n, ratio)[i] == 0.0
  {
    hide Fill, CubicAt, Clamp;
  }

  /** The smallest case: one sample buffered, played at twice its rate. */
  lemma OneSampleIsNotEnough()
    ensures !Determined(1, 2, 2.0)
  {
    assert Fill(1, 2, 2.0) == 2;
    assert Whole(1, 2.0) == 0;
    assert Fraction(1, 2.0) == 0.5;
    LeftoverIsHeard(1, 2, 2.0, 1);
  }
}
