/** The one-time fill of the syndrome table over every pattern of at most three errors. */
module SyndromeTable {
  import opened Basics
  import opened BitWords
  import opened Golay

  function Errors1(i: nat): (r: Bits)
    requires i < 24
    ensures |r| == 24
  {
    Zeros(24)[i := true]
  }

  function Errors2(i: nat, j: nat): (r: Bits)
    requires i < j < 24
    ensures |r| == 24
  {
    Errors1(i)[j := true]
  }

  function Errors3(i: nat, j: nat, k: nat): (r: Bits)
    requires i < j < k < 24
    ensures |r| == 24
  {
    Errors2(i, j)[k := true]
  }

  lemma PatternWeight2(i: nat, j: nat)
    requires i < j < 24
    ensures Weight(Errors1(i)) == 1 && Weight(Errors2(i, j)) == 2
  {
    WeightZero(Zeros(24));
    CountSet(Zeros(24), i, 24);
    CountSet(Errors1(i), j, 24);
  }

  lemma PatternWeight(i: nat, j: nat, k: nat)
    requires i < j < k < 24
    ensures Weight(Errors1(i)) == 1 && Weight(Errors2(i, j)) == 2 && Weight(Errors3(i, j, k)) == 3
  {
    PatternWeight2(i, j);
    CountSet(Errors2(i, j), k, 24);
  }

  /** A word of weight at most three is the pattern of its positions. */
  lemma {:induction false} Positions(e: Bits, n: nat) returns (i: nat, j: nat, k: nat)
    requires n <= |e|
    ensures Count(e, n) == 0 ==> forall t | 0 <= t < n :: !e[t]
    ensures Count(e, n) == 1 ==> i < n && forall t | 0 <= t < n :: e[t] <==> t == i
    ensures Count(e, n) == 2 ==> i < j < n && forall t | 0 <= t < n :: e[t] <==> t == i || t == j
    ensures Count(e, n) == 3 ==>
              i < j < k < n && forall t | 0 <= t < n :: e[t] <==> t == i || t == j || t == k
  {
    i, j, k := 0, 0, 0;
    if n > 0 {
      i, j, k := Positions(e, n - 1);
      if e[n - 1] {
        match Count(e, n)
        case 1 => i := n - 1;
        case 2 => j := n - 1;
        case _ => k := n - 1;
      }
    }
  }

  /** `table` holds the patterns of `seen`, each in its own slot, and nothing else. */
  ghost predicate Holds(table: Table, seen: set<Bits>) {
    && |table| == Power(12)
    && (forall e | e in seen :: |e| == 24 && Weight(e) <= 3
                             && Slot(e) < |table| && table[Slot(e)] == Some(e))
    && (forall k | 0 <= k < |table| && table[k].Some? ::
          table[k].value in seen && |table[k].value| == 24 && Slot(table[k].value) == k)
  }

  function Filled(table: Table, n: nat): nat
    requires n <= |table|
  {
    if n == 0 then 0 else Filled(table, n - 1) + One(table[n - 1].Some?)
  }

  lemma {:induction false} FilledSame(a: Table, b: Table, n: nat)
    requires n <= |a| == |b| && forall k | 0 <= k < n :: a[k] == b[k]
    ensures Filled(a, n) == Filled(b, n)
  {
    if n > 0 {
      FilledSame(a, b, n - 1);
    }
  }

  lemma {:induction false} FilledSet(table: Table, slot: nat, e: Bits, n: nat)
    requires slot < n <= |table| && table[slot] == None
    ensures Filled(table[slot := Some(e)], n) == Filled(table, n) + 1
  {
    if slot == n - 1 {
      FilledSame(table, table[slot := Some(e)], n - 1);
    } else {
      FilledSet(table, slot, e, n - 1);
    }
  }

  /** A pattern not yet recorded always finds its slot free: patterns never collide. */
  lemma SlotIsFree(table: Table, seen: set<Bits>, e: Bits)
    requires Holds(table, seen) && |e| == 24 && Weight(e) <= 3 && e !in seen
    ensures Slot(e) < |table| && table[Slot(e)] == None
  {
    ValueRange(Syndrome(e));
    var entry := table[Slot(e)];
    hide Syndrome;
    if entry.Some? {
      ValueInjective(Syndrome(e), Syndrome(entry.value));
      SyndromeSeparates(e, entry.value);
    }
  }

  /** Filling that slot records the pattern and disturbs no other. */
  lemma Recorded(table: Table, seen: set<Bits>, e: Bits)
    requires Holds(table, seen) && |e| == 24 && Weight(e) <= 3 && e !in seen
    ensures Slot(e) < |table| && table[Slot(e)] == None
    ensures Holds(table[Slot(e) := Some(e)], seen + {e})
    ensures Filled(table[Slot(e) := Some(e)], |table|) == Filled(table, |table|) + 1
  {
    hide Slot, Weight, Filled, Power;
    SlotIsFree(table, seen, e);
    FilledSet(table, Slot(e), e, |table|);
  }

  /** The body of each fill loop: an entry is written only if it still holds the sentinel. */
  method Record(table: array<Option<Bits>>, e: Bits, ghost seen: set<Bits>)
    requires Holds(table[..], seen) && |e| == 24 && Weight(e) <= 3 && e !in seen
    modifies table
    ensures Holds(table[..], seen + {e})
    ensures Filled(table[..], table.Length) == old(Filled(table[..], table.Length)) + 1
  {
    ghost var before := table[..];
    Recorded(before, seen, e);
    hide *;
    var syndrome := Slot(e);
    if table[syndrome] == None {
      table[syndrome] := Some(e);
    }
    assert table[..] == before[syndrome := Some(e)];
  }

  // ---------------------------------------------------------------- the three loops

  /** Numbers of pairs and of triples out of `n` positions. */
  function Pairs(n: nat): nat {
    if n == 0 then 0 else Pairs(n - 1) + (n - 1)
  }

  function Triples(n: nat): nat {
    if n == 0 then 0 else Triples(n - 1) + Pairs(n - 1)
  }

  lemma CountStep(n: nat)
    ensures Pairs(n + 1) == Pairs(n) + n && Triples(n + 1) == Triples(n) + Pairs(n)
    ensures Pairs(0) == Triples(0) == 0
  {}

  lemma {:induction false} Binomials(n: nat)
    ensures 2 * Pairs(n) == n * (n - 1) && 6 * Triples(n) == n * (n - 1) * (n - 2)
  {
    if n > 0 {
      Binomials(n - 1);
    }
  }

  /** The order in which the loops visit patterns. */
  predicate Before(i: nat, j: nat, k: nat, i': nat, j': nat, k': nat) {
    i < i' || (i == i' && (j < j' || (j == j' && k < k')))
  }

  ghost predicate Covers1(seen: set<Bits>, n: nat)
    requires n <= 24
  {
    && Zeros(24) in seen
    && (forall e | e in seen :: |e| == 24 && Weight(e) <= 1)
    && (forall i | 0 <= i < 24 :: Errors1(i) in seen <==> i < n)
  }

  ghost predicate Covers2(seen: set<Bits>, i': nat, j': nat) {
    && Zeros(24) in seen
    && (forall e | e in seen :: |e| == 24 && Weight(e) <= 2)
    && (forall i | 0 <= i < 24 :: Errors1(i) in seen)
    && (forall i, j | 0 <= i < j < 24 :: Errors2(i, j) in seen <==> Before(i, j, 0, i', j', 0))
  }

  ghost predicate Covers3(seen: set<Bits>, i': nat, j': nat, k': nat) {
    && Zeros(24) in seen
    && (forall e | e in seen :: |e| == 24 && Weight(e) <= 3)
    && (forall i | 0 <= i < 24 :: Errors1(i) in seen)
    && (forall i, j | 0 <= i < j < 24 :: Errors2(i, j) in seen)
    && (forall i, j, k | 0 <= i < j < k < 24 :: Errors3(i, j, k) in seen <==> Before(i, j, k, i', j', k'))
  }

  lemma Distinct(i: nat, j: nat, k: nat, i': nat, j': nat, k': nat)
    requires i < j < k < 24 && i' < j' < k' < 24
    ensures Errors1(i) == Errors1(i') ==> i == i'
    ensures Errors2(i, j) == Errors2(i', j') ==> i == i' && j == j'
    ensures Errors3(i, j, k) == Errors3(i', j', k') ==> i == i' && j == j' && k == k'
  {
    forall t | 0 <= t < 24
      ensures Errors1(i)[t] <==> t == i
      ensures Errors2(i, j)[t] <==> t == i || t == j
      ensures Errors3(i, j, k)[t] <==> t == i || t == j || t == k
    {}
    assert Errors1(i')[i'] && Errors2(i', j')[i'] && Errors2(i', j')[j'];
    assert Errors3(i', j', k')[i'] && Errors3(i', j', k')[j'] && Errors3(i', j', k')[k'];
  }

  lemma Step1(seen: set<Bits>, i: nat)
    requires i < 24 && Covers1(seen, i)
    ensures Errors1(i) !in seen && Weight(Errors1(i)) == 1
    ensures Covers1(seen + {Errors1(i)}, i + 1)
  {
    CountSet(Zeros(24), i, 24);
    WeightZero(Zeros(24));
    forall i' | 0 <= i' < 24
      ensures Errors1(i) == Errors1(i') ==> i == i'
    {
      assert Errors1(i)[i];
    }
    hide Errors1, Weight, Zeros;
  }

  lemma Step2(seen: set<Bits>, i: nat, j: nat)
    requires i < j < 24 && Covers2(seen, i, j)
    ensures Errors2(i, j) !in seen && Weight(Errors2(i, j)) == 2
    ensures Covers2(seen + {Errors2(i, j)}, i, j + 1)
  {
    PatternWeight2(i, j);
    forall i', j' | 0 <= i' < j' < 24
      ensures Errors2(i, j) == Errors2(i', j') ==> i == i' && j == j'
    {
      assert Errors2(i, j)[i] && Errors2(i, j)[j] && Errors2(i', j')[i'] && Errors2(i', j')[j'];
    }
    hide Errors1, Errors2, Weight, Zeros;
  }

  lemma Step3(seen: set<Bits>, i: nat, j: nat, k: nat)
    requires i < j < k < 24 && Covers3(seen, i, j, k)
    ensures Errors3(i, j, k) !in seen && Weight(Errors3(i, j, k)) == 3
    ensures Covers3(seen + {Errors3(i, j, k)}, i, j, k + 1)
  {
    PatternWeight(i, j, k);
    forall i', j', k' | 0 <= i' < j' < k' < 24
      ensures Errors3(i, j, k) == Errors3(i', j', k') ==> i == i' && j == j' && k == k'
    {
      Distinct(i, j, k, i', j', k');
    }
    hide Errors1, Errors2, Errors3, Weight, Zeros;
  }

  /** Once every triple has been visited, every pattern of at most three errors has. */
  lemma CoversAll(seen: set<Bits>, e: Bits)
    requires Covers3(seen, 24, 0, 0) && |e| == 24 && Weight(e) <= 3
    ensures e in seen
  {
    var i, j, k := Positions(e, |e|);
    if Weight(e) == 0 {
      assert e == Zeros(24);
    } else if Weight(e) == 1 {
      assert e == Errors1(i);
    } else if Weight(e) == 2 {
      assert e == Errors2(i, j);
    } else {
      assert e == Errors3(i, j, k);
    }
  }

  lemma Finished(table: Table, seen: set<Bits>)
    requires Holds(table, seen) && Covers3(seen, 24, 0, 0)
    ensures Correct(table)
  {
    forall e: Bits | |e| == 24 && Weight(e) <= 3
      ensures e in seen
    {
      CoversAll(seen, e);
    }
    hide Weight, Slot, Power;
  }

  lemma {:induction false} FilledNone(table: Table, n: nat)
    requires n <= |table| && forall k | 0 <= k < n :: table[k] == None
    ensures Filled(table, n) == 0
  {
    if n > 0 {
      FilledNone(table, n - 1);
    }
  }

  lemma SlotOfZero()
    ensures Slot(Zeros(24)) == 0
    ensures Power(12) > 0
  {
    SyndromeOfZero();
    ValueZero(12);
  }

  lemma NoSingleIsEmpty(i: nat)
    requires i < 24
    ensures Errors1(i) != Zeros(24)
  {
    assert Errors1(i)[i];
  }

  lemma ClearHolds(blank: Table)
    requires |blank| == Power(12) && forall k | 0 <= k < |blank| :: blank[k] == None
    ensures Holds(blank[0 := Some(Zeros(24))], {Zeros(24)}) && Covers1({Zeros(24)}, 0)
    ensures |blank| > 0 && Filled(blank[0 := Some(Zeros(24))], |blank|) == 1
  {
    hide Filled, Slot, Power, Weight, Errors1, Zeros;
    SlotOfZero();
    FilledNone(blank, |blank|);
    FilledSet(blank, 0, Zeros(24), |blank|);
    EmptyWeight();
    forall i | 0 <= i < 24 { NoSingleIsEmpty(i); }
  }

  lemma EmptyWeight()
    ensures Weight(Zeros(24)) == 0 && |Zeros(24)| == 24
  {
    WeightZero(Zeros(24));
  }

  /** Start of the fill: every entry the sentinel, then the empty pattern at syndrome 0. */
  method Clear(table: array<Option<Bits>>)
    requires table.Length == Power(12)
    modifies table
    ensures Holds(table[..], {Zeros(24)}) && Covers1({Zeros(24)}, 0)
    ensures Filled(table[..], table.Length) == 1
  {
    for k := 0 to table.Length
      invariant forall k' | 0 <= k' < k :: table[k'] == None
    {
      table[k] := None;
    }
    ghost var blank := table[..];
    SlotOfZero();
    ClearHolds(blank);
    hide *;
    table[0] := Some(Zeros(24));
    assert table[..] == blank[0 := Some(Zeros(24))];
  }

  method FillSingles(table: array<Option<Bits>>) returns (ghost seen: set<Bits>)
    requires Holds(table[..], {Zeros(24)}) && Covers1({Zeros(24)}, 0)
    modifies table
    ensures Holds(table[..], seen) && Covers1(seen, 24)
    ensures Filled(table[..], table.Length) == old(Filled(table[..], table.Length)) + 24
  {
    hide Holds, Filled, Errors1, Weight, Zeros;
    seen := {Zeros(24)};
    for bit := 0 to 24
      invariant Holds(table[..], seen) && Covers1(seen, bit)
      invariant Filled(table[..], table.Length) == old(Filled(table[..], table.Length)) + bit
    {
      Step1(seen, bit);
      Record(table, Errors1(bit), seen);
      seen := seen + {Errors1(bit)};
    }
  }

  method FillPairs(table: array<Option<Bits>>, ghost before: set<Bits>) returns (ghost seen: set<Bits>)
    requires Holds(table[..], before) && Covers2(before, 0, 0)
    modifies table
    ensures Holds(table[..], seen) && Covers2(seen, 24, 0)
    ensures Filled(table[..], table.Length) == old(Filled(table[..], table.Length)) + Pairs(24)
  {
    hide Holds, Filled, Errors1, Errors2, Weight, Zeros, Pairs;
    seen := before;
    CountStep(0);
    for bit1 := 0 to 24
      invariant Holds(table[..], seen) && Covers2(seen, bit1, 0)
      invariant Filled(table[..], table.Length) + Pairs(24 - bit1)
             == old(Filled(table[..], table.Length)) + Pairs(24)
    {
      CountStep(23 - bit1);
      for bit2 := bit1 + 1 to 24
        invariant Holds(table[..], seen) && Covers2(seen, bit1, bit2)
        invariant Filled(table[..], table.Length) + (24 - bit2) + Pairs(23 - bit1)
               == old(Filled(table[..], table.Length)) + Pairs(24)
      {
        Step2(seen, bit1, bit2);
        Record(table, Errors2(bit1, bit2), seen);
        seen := seen + {Errors2(bit1, bit2)};
      }
    }
  }

  method FillTriples(table: array<Option<Bits>>, ghost before: set<Bits>) returns (ghost seen: set<Bits>)
    requires Holds(table[..], before) && Covers3(before, 0, 0, 0)
    modifies table
    ensures Holds(table[..], seen) && Covers3(seen, 24, 0, 0)
    ensures Filled(table[..], table.Length) == old(Filled(table[..], table.Length)) + Triples(24)
  {
    hide Holds, Filled, Errors1, Errors2, Errors3, Weight, Zeros, Pairs, Triples;
    seen := before;
    CountStep(0);
    for bit1 := 0 to 24
      invariant Holds(table[..], seen) && Covers3(seen, bit1, 0, 0)
      invariant Filled(table[..], table.Length) + Triples(24 - bit1)
             == old(Filled(table[..], table.Length)) + Triples(24)
    {
      CountStep(23 - bit1);
      for bit2 := bit1 + 1 to 24
        invariant Holds(table[..], seen) && Covers3(seen, bit1, bit2, 0)
        invariant Filled(table[..], table.Length) + Pairs(24 - bit2) + Triples(23 - bit1)
               == old(Filled(table[..], table.Length)) + Triples(24)
      {
        CountStep(23 - bit2);
        for bit3 := bit2 + 1 to 24
          invariant Holds(table[..], seen) && Covers3(seen, bit1, bit2, bit3)
          invariant Filled(table[..], table.Length) + (24 - bit3) + Pairs(23 - bit2) + Triples(23 - bit1)
                 == old(Filled(table[..], table.Length)) + Triples(24)
        {
          Step3(seen, bit1, bit2, bit3);
          Record(table, Errors3(bit1, bit2, bit3), seen);
          seen := seen + {Errors3(bit1, bit2, bit3)};
        }
      }
    }
  }

  lemma NextStage(seen: set<Bits>)
    ensures Covers1(seen, 24) ==> Covers2(seen, 0, 0)
    ensures Covers2(seen, 24, 0) ==> Covers3(seen, 0, 0, 0)
  {
    forall i, j | 0 <= i < j < 24
      ensures Weight(Errors2(i, j)) == 2
    {
      PatternWeight2(i, j);
    }
    forall i, j, k | 0 <= i < j < k < 24
      ensures Weight(Errors3(i, j, k)) == 3
    {
      PatternWeight(i, j, k);
    }
    hide Weight, Errors1, Errors2, Errors3, Zeros;
  }

  /** The filled table is correct, and all 2325 patterns have found distinct entries. */
  method InitSyndromeTable(table: array<Option<Bits>>)
    requires table.Length == Power(12)
    modifies table
    ensures Correct(table[..])
    ensures Filled(table[..], table.Length) == 2325
  {
    hide *;
    Binomials(24);
    Clear(table);
    ghost var seen := FillSingles(table);
    NextStage(seen);
    seen := FillPairs(table, seen);
    NextStage(seen);
    seen := FillTriples(table, seen);
    Finished(table[..], seen);
  }
}
