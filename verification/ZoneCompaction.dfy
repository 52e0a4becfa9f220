/** Zones made compact: which operators are present, and their amounts in a row. */
module ZoneCompaction {
  import opened CInt
  import opened LittleEndian
  import opened PresenceBits
  import opened AssetFormat
  import opened AssetView
  import opened Wrappers

  const KEY_RANGE: int := 43
  const VELOCITY_RANGE: int := 44
  const SAMPLE_ID: int := 53
  const NO_SAMPLE: U16 := 65535

  datatype Generator = Generator(oper: U16, amount: U16)

  datatype Candidate = Candidate(keyLow: U8, keyHigh: U8, velocityLow: U8, velocityHigh: U8, generators: seq<Generator>)

  predicate IsCarried(g: Generator) { g.oper != KEY_RANGE && g.oper != VELOCITY_RANGE && g.oper != SAMPLE_ID }

  /** The generators a compact zone carries. */
  function Carried(gs: seq<Generator>): (r: seq<Generator>)
    ensures |r| <= |gs|
  {
    if gs == [] then []
    else if IsCarried(gs[|gs| - 1]) then Carried(gs[..|gs| - 1]) + [gs[|gs| - 1]]
    else Carried(gs[..|gs| - 1])
  }

  /** The sample a zone plays: the last sample generator. */
  function SampleIndex(gs: seq<Generator>): U16
  {
    if gs == [] then NO_SAMPLE
    else if gs[|gs| - 1].oper == SAMPLE_ID then gs[|gs| - 1].amount
    else SampleIndex(gs[..|gs| - 1])
  }

  function Presence(carried: seq<Generator>): nat
  {
    if carried == [] then 0 else SetBit(Presence(carried[..|carried| - 1]), carried[|carried| - 1].oper)
  }

  function Amounts(carried: seq<Generator>): (r: seq<U16>)
    ensures |r| == |carried| && forall i | 0 <= i < |r| :: r[i] == carried[i].amount
  {
    seq(|carried|, i requires 0 <= i < |carried| => carried[i].amount)
  }

  /** No operator twice, none out of range. */
  predicate Distinct(carried: seq<Generator>)
  {
    && (forall i | 0 <= i < |carried| :: carried[i].oper < OPERATORS)
    && (forall i, j | 0 <= i < j < |carried| :: carried[i].oper != carried[j].oper)
  }

  lemma {:induction false} PresenceBitsAre(carried: seq<Generator>, op: nat)
    ensures BitAt(Presence(carried), op) <==> exists i :: 0 <= i < |carried| && carried[i].oper == op
  {
    if carried == [] {
      ZeroBits(op);
    } else {
      var n := |carried| - 1;
      PresenceBitsAre(carried[..n], op);
      SetBitMeaning(Presence(carried[..n]), carried[n].oper, op);
      if BitAt(Presence(carried[..n]), op) {
        var i :| 0 <= i < n && carried[..n][i].oper == op;
        assert carried[i].oper == op;
      }
      if i :| 0 <= i < |carried| && carried[i].oper == op {
        if i < n {
          assert carried[..n][i].oper == op;
        }
      }
    }
  }

  lemma {:induction false} ZeroBits(op: nat)
    ensures !BitAt(0, op)
  {
    if op > 0 {
      ZeroBits(op - 1);
    }
  }

  lemma {:induction false} ZeroFits(n: nat)
    ensures Fits(0, n)
  {
    if n > 0 {
      ZeroFits(n - 1);
    }
  }

  /** A zone's presence has one bit for each carried generator. */
  lemma {:induction false} PresenceOnes(carried: seq<Generator>, bound: nat)
    requires Distinct(carried) && forall i | 0 <= i < |carried| :: carried[i].oper < bound
    ensures Ones(Presence(carried)) == |carried| && Fits(Presence(carried), bound)
  {
    if carried == [] {
      ZeroFits(bound);
    } else {
      var n := |carried| - 1;
      PresenceOnes(carried[..n], bound);
      PresenceBitsAre(carried[..n], carried[n].oper);
      SetBitOnes(Presence(carried[..n]), carried[n].oper);
      SetBitFits(Presence(carried[..n]), carried[n].oper, bound);
    }
  }

  lemma {:induction false} FitsMore(x: nat, m: nat, n: nat)
    requires Fits(x, m) && m <= n
    ensures Fits(x, n)
  {
    if m == 0 {
      ZeroFits(n);
    } else {
      FitsMore(x / 2, m - 1, n - 1);
    }
  }

  /** Distinct operators fit sixty-four bits. */
  lemma PresenceIsU64(carried: seq<Generator>)
    requires Distinct(carried)
    ensures Presence(carried) < TWO_64 && Fits(Presence(carried), OPERATORS) && |carried| <= OPERATORS
  {
    PresenceOnes(carried, OPERATORS);
    FitsMore(Presence(carried), OPERATORS, 64);
    FitsBound(Presence(carried), 64);
    Pow2Word();
    FewOnes(Presence(carried), OPERATORS);
  }

  lemma {:induction false} FewOnes(x: nat, n: nat)
    requires Fits(x, n)
    ensures Ones(x) <= n
  {
    if n > 0 {
      FewOnes(x / 2, n - 1);
    }
  }

  /** What a candidate needs to become a compact zone. */
  predicate Buildable(c: Candidate, samples: nat)
  {
    Distinct(Carried(c.generators)) && SampleIndex(c.generators) < samples
  }

  function ZoneOf(c: Candidate, first: U32): Zone
    requires Distinct(Carried(c.generators))
  {
    PresenceIsU64(Carried(c.generators));
    Zone(c.keyLow, c.keyHigh, c.velocityLow, c.velocityHigh, first, |Carried(c.generators)|,
         SampleIndex(c.generators), Presence(Carried(c.generators)))
  }

  /** Makes one candidate compact, its amounts appended to the others'. */
  method CompactZone(c: Candidate, amounts: seq<U16>, samples: nat) returns (r: Option<Zone>, amounts': seq<U16>)
    requires |amounts| < TWO_32
    ensures r.Some? <==> Buildable(c, samples)
    ensures r.Some? ==> r.value == ZoneOf(c, |amounts|) && amounts' == amounts + Amounts(Carried(c.generators))
  {
    hide BitAt, SetBit, Ones, Fits, Carried, SampleIndex, Presence, Distinct, Amounts;
    var gs := c.generators;
    var sampleIndex, presence := NO_SAMPLE, 0;
    amounts' := amounts;
    NothingCarried(gs);
    for index := 0 to |gs|
      invariant sampleIndex == SampleIndex(gs[..index])
      invariant presence == Presence(Carried(gs[..index])) && Distinct(Carried(gs[..index]))
      invariant amounts' == amounts + Amounts(Carried(gs[..index]))
    {
      var g := gs[index];
      CarryStep(gs, index);
      if g.oper == SAMPLE_ID {
        sampleIndex := g.amount;
      }
      if !IsCarried(g) {
        continue;
      }
      DistinctStep(Carried(gs[..index]), g);
      if g.oper >= OPERATORS || BitAt(presence, g.oper) {
        CarriedGrows(gs, index + 1);
        StaysIndistinct(Carried(gs[..index]), g, Carried(gs));
        return None, amounts;
      }
      presence := SetBit(presence, g.oper);
      amounts' := amounts' + [g.amount];
      assert amounts' == amounts + (Amounts(Carried(gs[..index])) + [g.amount]);
    }
    assert gs[..|gs|] == gs;
    PresenceIsU64(Carried(gs));
    var count := |amounts'| - |amounts|;
    if sampleIndex >= samples || count > OPERATORS {
      return None, amounts;
    }
    r := Some(Zone(c.keyLow, c.keyHigh, c.velocityLow, c.velocityHigh, |amounts|, count, sampleIndex, presence));
  }

  lemma NothingCarried(gs: seq<Generator>)
    ensures SampleIndex(gs[..0]) == NO_SAMPLE && Carried(gs[..0]) == [] && Presence([]) == 0 && Distinct([]) && Amounts([]) == []
  {
  }

  /** One generator more. */
  lemma CarryStep(gs: seq<Generator>, index: nat)
    requires index < |gs|
    ensures SampleIndex(gs[..index + 1]) == if gs[index].oper == SAMPLE_ID then gs[index].amount else SampleIndex(gs[..index])
    ensures Carried(gs[..index + 1]) == if IsCarried(gs[index]) then Carried(gs[..index]) + [gs[index]] else Carried(gs[..index])
  {
    assert gs[..index + 1][..index] == gs[..index];
  }

  lemma DistinctStep(front: seq<Generator>, g: Generator)
    requires Distinct(front)
    ensures Distinct(front + [g]) <==> g.oper < OPERATORS && !BitAt(Presence(front), g.oper)
    ensures Presence(front + [g]) == SetBit(Presence(front), g.oper)
    ensures Amounts(front + [g]) == Amounts(front) + [g.amount]
  {
    hide BitAt, SetBit;
    PresenceBitsAre(front, g.oper);
    var all := front + [g];
    assert all[..|front|] == front && all[|front|] == g;
    if BitAt(Presence(front), g.oper) {
      var i :| 0 <= i < |front| && front[i].oper == g.oper;
      assert all[i].oper == all[|front|].oper;
    }
  }

  lemma StaysIndistinct(front: seq<Generator>, g: Generator, r: seq<Generator>)
    requires !Distinct(front + [g]) && front + [g] <= r
    ensures !Distinct(r)
  {
    var all := front + [g];
    assert forall i | 0 <= i < |all| :: r[i] == all[i];
  }

  lemma {:induction false} CarriedGrows(gs: seq<Generator>, k: nat)
    requires k <= |gs|
    ensures Carried(gs[..k]) <= Carried(gs)
    decreases |gs| - k
  {
    if k == |gs| {
      assert gs[..k] == gs;
    } else {
      assert gs[..k + 1][..k] == gs[..k];
      CarriedGrows(gs, k + 1);
    }
  }

  // ---- Decoding gives the amounts back ----------------------------------------------------

  predicate Ascending(carried: seq<Generator>)
  {
    forall i, j | 0 <= i < j < |carried| :: carried[i].oper < carried[j].oper
  }

  lemma {:induction false} BelowUnchanged(x: nat, i: nat, n: nat)
    requires n <= i
    ensures OnesBelow(SetBit(x, i), n) == OnesBelow(x, n)
  {
    if n > 0 {
      BelowUnchanged(x, i, n - 1);
      SetBitMeaning(x, i, n - 1);
    }
  }

  /** In ascending order, an operator's rank among the bits is its place in the list. */
  lemma {:induction false} RankIsPlace(carried: seq<Generator>, j: nat)
    requires Distinct(carried) && Ascending(carried) && j < |carried|
    ensures OnesBelow(Presence(carried), carried[j].oper) == j
  {
    hide BitAt, SetBit, Ones, Fits;
    var n := |carried| - 1;
    var front, g := carried[..n], carried[n];
    if j < n {
      RankIsPlace(front, j);
      BelowUnchanged(Presence(front), g.oper, carried[j].oper);
    } else {
      PresenceOnes(front, g.oper);
      OnesBelowAll(Presence(front), g.oper);
      BelowUnchanged(Presence(front), g.oper, g.oper);
    }
  }

  /** Every rank is a place exactly when the list is ascending; only then does each operator find
      its own amount whatever the amounts are. */
  lemma RanksArePlacesExactly(carried: seq<Generator>)
    requires Distinct(carried)
    ensures (forall j | 0 <= j < |carried| :: OnesBelow(Presence(carried), carried[j].oper) == j) <==> Ascending(carried)
  {
    hide BitAt, SetBit, Ones, Fits;
    if Ascending(carried) {
      forall j | 0 <= j < |carried|
        ensures OnesBelow(Presence(carried), carried[j].oper) == j
      {
        RankIsPlace(carried, j);
      }
    } else {
      var i, j :| 0 <= i < j < |carried| && carried[i].oper >= carried[j].oper;
      OnesBelowMonotone(Presence(carried), carried[j].oper, carried[i].oper);
    }
  }

  /** The amount a zone gives an operator: the generator's, or zero. */
  ghost predicate IsAmountOf(carried: seq<Generator>, op: nat, amount: U16)
  {
    if exists j :: 0 <= j < |carried| && carried[j].oper == op then
      exists j :: 0 <= j < |carried| && carried[j].oper == op && amount == carried[j].amount
    else amount == 0
  }

  /** Decoding a compact zone in an image gives every operator the amount its generator had. */
  lemma DecodesToGenerators(image: Bytes, c: Candidate, first: U32, samples: nat, op: nat)
    requires SectionsOk(image) && Buildable(c, samples) && Ascending(Carried(c.generators)) && op < OPERATORS
    requires ZoneSound(ZoneOf(c, first), Count(image, 2), Count(image, 3))
    requires forall j | 0 <= j < |Carried(c.generators)| :: first + j < Count(image, 2)
               && AmountAt(image, first + j) == Carried(c.generators)[j].amount
    ensures IsAmountOf(Carried(c.generators), op, Amount(image, ZoneOf(c, first), op))
  {
    hide BitAt, SetBit, Ones, Fits, AmountAt, SectionOk, Count, OnesBelow, Presence, ZoneSound, Carried, Ascending, Distinct;
    var carried := Carried(c.generators);
    PresenceBitsAre(carried, op);
    if j :| 0 <= j < |carried| && carried[j].oper == op {
      RankIsPlace(carried, j);
    }
  }

  /** Out of order, amounts go astray: operator one gets what was meant for operator two. */
  lemma UnsortedSwaps(a: U16, b: U16)
    ensures var carried := [Generator(2, a), Generator(1, b)];
            Distinct(carried) && !Ascending(carried) && OnesBelow(Presence(carried), 1) == 0 && OnesBelow(Presence(carried), 2) == 1
  {
    var carried := [Generator(2, a), Generator(1, b)];
    assert carried[..1] == [Generator(2, a)] && carried[..1][..0] == [];
    assert Presence([]) == 0 && Presence(carried[..1]) == 4 && Presence(carried) == 6;
    assert !BitAt(6, 0) && BitAt(6, 1);
    assert carried[0].oper > carried[1].oper;
  }
}
