/**
 SoundFont modulators, from the list attached to a zone to the sums a voice uses at a control
 tick. The asset builder drops, partitions and shares modulator lists; the firmware caches the
 note-static prefix of each list when a voice starts and evaluates the rest in one traversal.
 The plain per-destination sum over the zone's own modulators is the specification.
 */
module Modulation {
  import opened CInt
  import opened Channels
  import opened Wrappers

  const MOD_ONE: int := 65536

  // ---- Sources ----------------------------------------------------------------------------

  /** What a modulator reads from its voice; the effective velocity is -1 when not overridden. */
  datatype VoiceSources = VoiceSources(note: int, velocity: int, effectiveVelocity: int)

  predicate Playable(v: VoiceSources)
  {
    0 <= v.note <= 127 && 1 <= v.velocity <= 127 && -1 <= v.effectiveVelocity <= 127
  }

  /** Sixteen source curves of 128 entries, indexed by curve and native value. */
  type Curves = (int, int) -> int

  const DEP_NOTE: bv16 := 1
  const DEP_CC: bv16 := 2
  const DEP_WHEEL: bv16 := 4
  const DEP_PRESSURE: bv16 := 8
  const DEP_TUNING: bv16 := 16

  predicate IsController(source: U16) { (source / 0x80) % 2 == 1 }

  function Index(source: U16): int { source % 0x80 }

  predicate IsNegative(source: U16) { (source / 0x100) % 2 == 1 }

  function CurveId(source: U16): int
  {
    (source / 0x400) % 4 + (if (source / 0x200) % 2 == 1 then 4 else 0)
                         + (if IsNegative(source) then 8 else 0)
  }

  function SourceDependencies(source: U16): bv16
  {
    if source == 0 then 0
    else if IsController(source) then DEP_CC
    else if Index(source) == 2 || Index(source) == 3 then DEP_NOTE
    else if Index(source) == 10 || Index(source) == 13 then DEP_PRESSURE
    else if Index(source) == 14 then DEP_WHEEL
    else if Index(source) == 16 then DEP_TUNING
    else 0
  }

  function WheelValue(source: U16, c: Channel): int
  {
    if IsNegative(source) then -(c.pitchBend * 8) else c.pitchBend * 8
  }

  function TuningValue(source: U16, c: Channel): int
  {
    var hundredths := c.bendSemitones * 100 + c.bendCents;
    var raw := (hundredths * MOD_ONE + 50) / 100;
    var value := if raw > 127 * MOD_ONE then 127 * MOD_ONE else raw;
    (if IsNegative(source) then 127 * MOD_ONE - value else value) / 128
  }

  function VoiceVelocity(v: VoiceSources): int
  {
    if v.effectiveVelocity >= 0 then v.effectiveVelocity else v.velocity
  }

  /** The firmware's seven-bit source: index 2 is raised from 0 to 1 even for a controller. */
  function NativeMcu(source: U16, c: Channel, v: VoiceSources): int
    requires Playable(v)
  {
    var index := Index(source);
    var native :=
      if IsController(source) then c.cc[index]
      else if index == 2 then VoiceVelocity(v)
      else if index == 3 then v.note
      else if index == 10 then c.keyPressure[v.note]
      else if index == 13 then c.channelPressure
      else 0;
    if index == 2 && native == 0 then 1 else native
  }

  /** The host's seven-bit source: only a note velocity is raised from 0 to 1. */
  function NativeHost(source: U16, c: Channel, v: VoiceSources): int
    requires Playable(v)
  {
    var index := Index(source);
    if IsController(source) then c.cc[index]
    else if index == 2 then (if VoiceVelocity(v) < 1 then 1 else VoiceVelocity(v))
    else if index == 3 then v.note
    else if index == 10 then c.keyPressure[v.note]
    else if index == 13 then c.channelPressure
    else 0
  }

  function SourceValue(curves: Curves, source: U16, c: Channel, native: int): int
  {
    if source == 0 then MOD_ONE
    else if !IsController(source) && Index(source) == 14 then WheelValue(source, c)
    else if !IsController(source) && Index(source) == 16 then TuningValue(source, c)
    else curves(CurveId(source), native)
  }

  function SourceMcu(curves: Curves, source: U16, c: Channel, v: VoiceSources): int
    requires Playable(v)
  {
    SourceValue(curves, source, c, NativeMcu(source, c, v))
  }

  function SourceHost(curves: Curves, source: U16, c: Channel, v: VoiceSources): int
    requires Playable(v)
  {
    SourceValue(curves, source, c, NativeHost(source, c, v))
  }

  /** Which of the two programs reads the sources. */
  datatype Reading = Firmware | Host

  function SourceBy(reading: Reading, curves: Curves, source: U16, c: Channel, v: VoiceSources): int
    requires Playable(v)
  {
    match reading
    case Firmware => SourceMcu(curves, source, c, v)
    case Host => SourceHost(curves, source, c, v)
  }

  predicate IsBreath(source: U16) { IsController(source) && Index(source) == 2 }

  /** Firmware and host read every source alike, except MIDI controller 2 at zero, where they
      agree exactly when the source's curve starts flat. */
  lemma SourcesAgree(curves: Curves, source: U16, c: Channel, v: VoiceSources)
    requires Playable(v)
    ensures SourceMcu(curves, source, c, v) == SourceHost(curves, source, c, v) <==>
            (IsBreath(source) && c.cc[2] == 0 ==>
               curves(CurveId(source), 0) == curves(CurveId(source), 1))
  {
  }

  /** Signed Q16.16 product, rounded to nearest with ties away from zero. */
  function MultiplyQ16(a: int, b: int): int
  {
    var product := a * b;
    TruncDiv(product + (if product >= 0 then 32768 else -32768), MOD_ONE)
  }

  /** The product is rounded to the nearest integer, ties away from zero. */
  lemma MultiplyRounds(a: int, b: int)
    ensures a * b >= 0 ==> -MOD_ONE < 2 * (MOD_ONE * MultiplyQ16(a, b) - a * b) <= MOD_ONE
    ensures MultiplyQ16(-a, b) == -MultiplyQ16(a, b) == MultiplyQ16(a, -b)
    ensures MultiplyQ16(a, MOD_ONE) == a
  {
    assert (-a) * b == -(a * b) == a * (-b);
    var product := a * b;
    TruncDivBounds(product + if product >= 0 then 32768 else -32768, MOD_ONE);
  }

  // ---- Modulators and terms ---------------------------------------------------------------

  datatype Modulator = Modulator(src: U16, dest: U16, amount: int, amountSrc: U16, transform: U16)

  datatype Term = Term(source: U16, destination: U16, amount: int, amountSource: U16,
                       transform: U16, dependencies: bv16)

  datatype Family = GainFamily | PitchFamily | FilterFamily

  function FamilyCode(f: Family): int
  {
    match f case GainFamily => 0 case PitchFamily => 1 case FilterFamily => 2
  }

  /** Destinations of a family, in the order a voice's sums use. */
  function Destinations(f: Family): (ds: seq<int>)
    ensures 3 <= |ds| <= 4
  {
    match f
    case GainFamily => [13, 48, 17]
    case PitchFamily => [0, 5, 6, 7]
    case FilterFamily => [8, 10, 11]
  }

  /** Attenuation and pan ignore note-dependent modulators. */
  predicate IncludesNote(d: int) { d != 48 && d != 17 }

  function ToInt16(x: int): int
  {
    var low := x % 0x1_0000;
    if low >= 0x8000 then low - 0x1_0000 else low
  }

  function TermOf(m: Modulator): Term
  {
    Term(m.src, m.dest, ToInt16(m.amount), m.amountSrc, m.transform,
         SourceDependencies(m.src) | SourceDependencies(m.amountSrc))
  }

  predicate DependsOnNote(dependencies: bv16) { dependencies & DEP_NOTE != 0 }

  /** A note-static term reads nothing that can change while the voice sounds. */
  predicate IsStatic(t: Term) { t.dependencies & 0xfffe == 0 }

  /** Value of one term from its two source readings. */
  function Weighted(source: int, amountSource: int, amount: int, transform: U16): int
  {
    var value := MultiplyQ16(source, amountSource) * amount;
    if transform == 2 && value < 0 then -value else value
  }

  function TermValue(curves: Curves, t: Term, c: Channel, v: VoiceSources): int
    requires Playable(v)
  {
    Weighted(SourceMcu(curves, t.source, c, v), SourceMcu(curves, t.amountSource, c, v),
           t.amount, t.transform)
  }

  function ModulatorValue(reading: Reading, curves: Curves, m: Modulator, c: Channel, v: VoiceSources): int
    requires Playable(v)
  {
    Weighted(SourceBy(reading, curves, m.src, c, v), SourceBy(reading, curves, m.amountSrc, c, v),
           m.amount, m.transform)
  }

  /** A term contributes to one destination, and only where its note dependence is allowed. */
  predicate Contributes(t: Term, d: int)
  {
    t.destination == d && (IncludesNote(d) || !DependsOnNote(t.dependencies))
  }

  /** Sum of a term list for one destination. */
  function SumTerms(curves: Curves, ts: seq<Term>, d: int, c: Channel, v: VoiceSources): int
    requires Playable(v)
  {
    if ts == [] then 0
    else (if Contributes(ts[0], d) then TermValue(curves, ts[0], c, v) else 0)
         + SumTerms(curves, ts[1..], d, c, v)
  }

  /** The specification: the sum over the zone's own modulators for one destination. */
  function DirectSum(reading: Reading, curves: Curves, ms: seq<Modulator>, d: int, c: Channel, v: VoiceSources): int
    requires Playable(v)
  {
    if ms == [] then 0
    else (if ms[0].dest == d && (IncludesNote(d) || !DependsOnNote(
                SourceDependencies(ms[0].src) | SourceDependencies(ms[0].amountSrc)))
          then ModulatorValue(reading, curves, ms[0], c, v) else 0)
         + DirectSum(reading, curves, ms[1..], d, c, v)
  }

  // ---- Compilation ------------------------------------------------------------------------

  /** Nonzero modulators of one family, as terms, in their original order. */
  function TermsOf(ms: seq<Modulator>, f: Family): (ts: seq<Term>)
    ensures |ts| <= |ms|
    ensures forall t <- ts :: Packable(t)
  {
    if ms == [] then []
    else if ms[0].amount != 0 && ms[0].dest in Destinations(f) then
      [TermOf(ms[0])] + TermsOf(ms[1..], f)
    else TermsOf(ms[1..], f)
  }

  /** Terms on one side of the static test, order kept. */
  function Keep(ts: seq<Term>, isStatic: bool): (r: seq<Term>)
    ensures |r| <= |ts|
  {
    if ts == [] then []
    else if IsStatic(ts[0]) == isStatic then [ts[0]] + Keep(ts[1..], isStatic)
    else Keep(ts[1..], isStatic)
  }

  lemma {:induction false} KeepMembers(ts: seq<Term>, isStatic: bool)
    ensures forall t <- Keep(ts, isStatic) :: t in ts && IsStatic(t) == isStatic
  {
    if ts != [] {
      KeepMembers(ts[1..], isStatic);
    }
  }

  function StablePartition(ts: seq<Term>): seq<Term>
  {
    Keep(ts, true) + Keep(ts, false)
  }

  function Compiled(ms: seq<Modulator>, f: Family): seq<Term>
  {
    StablePartition(TermsOf(ms, f))
  }

  function AllDependencies(ts: seq<Term>): bv16
  {
    if ts == [] then 0 else AllDependencies(ts[..|ts| - 1]) | ts[|ts| - 1].dependencies
  }

  datatype Program = Program(firstTerm: int, termCount: U16, noteCount: U16, dependencies: bv16,
                             family: Family)

  datatype Refs = Refs(gain: Option<nat>, pitch: Option<nat>, filter: Option<nat>) {
    function Of(f: Family): Option<nat>
    {
      match f case GainFamily => gain case PitchFamily => pitch case FilterFamily => filter
    }

    function With(f: Family, index: nat): Refs
    {
      match f
      case GainFamily => this.(gain := Some(index))
      case PitchFamily => this.(pitch := Some(index))
      case FilterFamily => this.(filter := Some(index))
    }
  }

  datatype Build = Build(candidates: seq<Refs>, programs: seq<Program>, terms: seq<Term>)

  datatype Candidate = Candidate(firstModulator: U32, modulatorCount: U32)

  datatype BuildResult = Built(build: Build) | OutOfRange | TooLarge(build: Build)

  /** Interning key: the family, then two packed words for each term. */
  function Key(f: Family, ts: seq<Term>): seq<int>
  {
    [FamilyCode(f)] + PackedTerms(ts)
  }

  function PackedTerms(ts: seq<Term>): (r: seq<int>)
    ensures |r| == 2 * |ts|
  {
    if ts == [] then []
    else
      var t := ts[0];
      [FirstWord(t), SecondWord(t)] + PackedTerms(ts[1..])
  }

  /** Amounts are 16-bit and dependencies are the ones the sources imply. */
  predicate Packable(t: Term)
  {
    && -0x8000 <= t.amount < 0x8000
    && t.dependencies == SourceDependencies(t.source) | SourceDependencies(t.amountSource)
  }

  lemma PackInjective(a: int, b: int, c: int, x: int, y: int, z: int)
    requires 0 <= a < 0x1_0000 && 0 <= b < 0x1_0000
    requires 0 <= x < 0x1_0000 && 0 <= y < 0x1_0000
    requires a + b * 0x1_0000 + c * 0x1_0000_0000 == x + y * 0x1_0000 + z * 0x1_0000_0000
    ensures a == x && b == y && c == z
  {
  }

  lemma Int16FromLowBits(a: int, b: int)
    requires -0x8000 <= a < 0x8000 && -0x8000 <= b < 0x8000
    requires a % 0x1_0000 == b % 0x1_0000
    ensures a == b
  {
    assert ToInt16(a) == a && ToInt16(b) == b;
  }

  /** Two lists share a program only when they are the same list of the same family. */
  lemma {:induction false} KeyInjective(f: Family, ts: seq<Term>, g: Family, us: seq<Term>)
    requires forall t <- ts :: Packable(t)
    requires forall t <- us :: Packable(t)
    requires Key(f, ts) == Key(g, us)
    ensures f == g && ts == us
  {
    assert Key(f, ts)[0] == Key(g, us)[0];
    assert PackedTerms(ts) == Key(f, ts)[1..] == Key(g, us)[1..] == PackedTerms(us);
    PackedInjective(ts, us);
  }

  function FirstWord(t: Term): int
  {
    t.source + t.destination * 0x1_0000 + (t.amount % 0x1_0000) * 0x1_0000_0000
  }

  function SecondWord(t: Term): int
  {
    t.amountSource + t.transform * 0x1_0000 + (t.dependencies as int) * 0x1_0000_0000
  }

  lemma PackedTermInjective(t: Term, u: Term)
    requires Packable(t) && Packable(u)
    requires FirstWord(t) == FirstWord(u) && SecondWord(t) == SecondWord(u)
    ensures t == u
  {
    hide SourceDependencies, ToInt16, FirstWord, SecondWord;
    FirstWordFields(t, u);
    SecondWordFields(t, u);
    Int16FromLowBits(t.amount, u.amount);
  }

  lemma FirstWordFields(t: Term, u: Term)
    requires FirstWord(t) == FirstWord(u)
    ensures t.source == u.source && t.destination == u.destination && t.amount % 0x1_0000 == u.amount % 0x1_0000
  {
    PackInjective(t.source, t.destination, t.amount % 0x1_0000, u.source, u.destination, u.amount % 0x1_0000);
  }

  lemma SecondWordFields(t: Term, u: Term)
    requires SecondWord(t) == SecondWord(u)
    ensures t.amountSource == u.amountSource && t.transform == u.transform
  {
    PackInjective(t.amountSource, t.transform, t.dependencies as int, u.amountSource, u.transform, u.dependencies as int);
  }

  lemma {:induction false} PackedInjective(ts: seq<Term>, us: seq<Term>)
    requires forall t <- ts :: Packable(t)
    requires forall t <- us :: Packable(t)
    requires PackedTerms(ts) == PackedTerms(us)
    ensures ts == us
  {
    if ts != [] {
      var p, q := PackedTerms(ts), PackedTerms(us);
      assert p[0] == q[0] && p[1] == q[1];
      assert p[2..] == PackedTerms(ts[1..]);
      assert q[2..] == PackedTerms(us[1..]);
      PackedInjective(ts[1..], us[1..]);
      assert ts[0] in ts && us[0] in us;
      PackedTermInjective(ts[0], us[0]);
      assert ts == [ts[0]] + ts[1..];
      assert us == [us[0]] + us[1..];
    }
  }

  // ---- Compilation keeps the meaning ------------------------------------------------------

  lemma {:induction false} SumTermsConcat(curves: Curves, a: seq<Term>, b: seq<Term>, d: int,
                                          c: Channel, v: VoiceSources)
    requires Playable(v)
    ensures SumTerms(curves, a + b, d, c, v) == SumTerms(curves, a, d, c, v) + SumTerms(curves, b, d, c, v)
  {
    if a == [] {
      assert a + b == b;
    } else {
      SumTermsConcat(curves, a[1..], b, d, c, v);
      assert (a + b)[1..] == a[1..] + b;
    }
  }

  /** Splitting a list by the static test moves terms but loses none. */
  lemma {:induction false} PartitionSum(curves: Curves, ts: seq<Term>, d: int, c: Channel, v: VoiceSources)
    requires Playable(v)
    ensures SumTerms(curves, ts, d, c, v) ==
            SumTerms(curves, Keep(ts, true), d, c, v) + SumTerms(curves, Keep(ts, false), d, c, v)
  {
    if ts != [] {
      PartitionSum(curves, ts[1..], d, c, v);
      var head := IsStatic(ts[0]);
      SumTermsConcat(curves, [ts[0]], Keep(ts[1..], head), d, c, v);
      assert Keep(ts, head) == [ts[0]] + Keep(ts[1..], head);
      assert Keep(ts, !head) == Keep(ts[1..], !head);
      assert [ts[0]][1..] == [];
    }
  }

  ghost predicate SixteenBit(ms: seq<Modulator>)
  {
    forall m <- ms :: -0x8000 <= m.amount < 0x8000
  }

  lemma Int16Identity(x: int)
    requires -0x8000 <= x < 0x8000
    ensures ToInt16(x) == x
  {
  }

  lemma TermKeepsValue(curves: Curves, m: Modulator, c: Channel, v: VoiceSources)
    requires Playable(v) && SixteenBit([m])
    ensures TermValue(curves, TermOf(m), c, v) == ModulatorValue(Firmware, curves, m, c, v)
  {
    hide SourceMcu, SourceHost, MultiplyQ16, ToInt16, SourceDependencies;
    assert m in [m];
    Int16Identity(m.amount);
  }

  /** Dropping zero amounts and foreign destinations keeps every sum of the family. */
  lemma {:induction false} FilterKeepsSum(curves: Curves, ms: seq<Modulator>, f: Family, d: int,
                                          c: Channel, v: VoiceSources)
    requires Playable(v) && SixteenBit(ms) && d in Destinations(f)
    ensures SumTerms(curves, TermsOf(ms, f), d, c, v) == DirectSum(Firmware, curves, ms, d, c, v)
  {
    hide SourceMcu, SourceHost, MultiplyQ16, ToInt16;
    if ms != [] {
      var m, rest := ms[0], ms[1..];
      FilterKeepsSum(curves, rest, f, d, c, v);
      if m.amount != 0 && m.dest in Destinations(f) {
        assert TermsOf(ms, f)[1..] == TermsOf(rest, f);
        TermKeepsValue(curves, m, c, v);
      } else {
        assert TermsOf(ms, f) == TermsOf(rest, f);
        assert m.amount == 0 ==> ModulatorValue(Firmware, curves, m, c, v) == 0;
      }
    }
  }

  /** The host's own sum for one destination, over a compiled program. */
  function HostSum(curves: Curves, ts: seq<Term>, d: int, c: Channel, v: VoiceSources): int
    requires Playable(v)
  {
    if ts == [] then 0
    else (if Contributes(ts[0], d)
          then Weighted(SourceHost(curves, ts[0].source, c, v), SourceHost(curves, ts[0].amountSource, c, v),
                      ts[0].amount, ts[0].transform)
          else 0)
         + HostSum(curves, ts[1..], d, c, v)
  }

  lemma {:induction false} HostSumAgrees(curves: Curves, ts: seq<Term>, d: int, c: Channel, v: VoiceSources)
    requires Playable(v)
    requires forall t <- ts :: SourceAgrees(curves, t.source, c) && SourceAgrees(curves, t.amountSource, c)
    ensures HostSum(curves, ts, d, c, v) == SumTerms(curves, ts, d, c, v)
  {
    hide SourceMcu, SourceHost, MultiplyQ16;
    if ts != [] {
      assert ts[0] in ts;
      SourcesAgree(curves, ts[0].source, c, v);
      SourcesAgree(curves, ts[0].amountSource, c, v);
      HostSumAgrees(curves, ts[1..], d, c, v);
    }
  }

  /** The channel and the curves are such that the host reads no source of these modulators
      differently: controller 2 is not at zero, or the curve starts flat. */
  ghost predicate BreathAgrees(curves: Curves, ms: seq<Modulator>, c: Channel)
  {
    forall m <- ms :: SourceAgrees(curves, m.src, c) && SourceAgrees(curves, m.amountSrc, c)
  }

  predicate SourceAgrees(curves: Curves, source: U16, c: Channel)
  {
    IsBreath(source) && c.cc[2] == 0 ==> curves(CurveId(source), 0) == curves(CurveId(source), 1)
  }

  /** Then, and only then, every source of the list is read alike, and so is every sum. */
  lemma {:induction false} ReadingsAgree(curves: Curves, ms: seq<Modulator>, d: int, c: Channel, v: VoiceSources)
    requires Playable(v)
    ensures BreathAgrees(curves, ms, c) <==>
              forall m <- ms :: && SourceMcu(curves, m.src, c, v) == SourceHost(curves, m.src, c, v)
                                && SourceMcu(curves, m.amountSrc, c, v) == SourceHost(curves, m.amountSrc, c, v)
    ensures BreathAgrees(curves, ms, c) ==>
              DirectSum(Host, curves, ms, d, c, v) == DirectSum(Firmware, curves, ms, d, c, v)
  {
    hide SourceMcu, SourceHost, MultiplyQ16, SourceDependencies;
    forall m | m in ms
      ensures SourceAgrees(curves, m.src, c) <==> SourceMcu(curves, m.src, c, v) == SourceHost(curves, m.src, c, v)
      ensures SourceAgrees(curves, m.amountSrc, c) <==>
              SourceMcu(curves, m.amountSrc, c, v) == SourceHost(curves, m.amountSrc, c, v)
    {
      SourcesAgree(curves, m.src, c, v);
      SourcesAgree(curves, m.amountSrc, c, v);
    }
    if ms != [] {
      ReadingsAgree(curves, ms[1..], d, c, v);
      assert ms[0] in ms;
    }
  }

  lemma StaticSource(curves: Curves, source: U16, c0: Channel, c: Channel, v: VoiceSources)
    requires Playable(v) && SourceDependencies(source) & 0xfffe == 0
    ensures SourceMcu(curves, source, c0, v) == SourceMcu(curves, source, c, v)
  {
  }

  /** A note-static term has the value it had when the voice started, whatever the channel did. */
  lemma StaticTerm(curves: Curves, t: Term, c0: Channel, c: Channel, v: VoiceSources)
    requires Playable(v) && IsStatic(t)
    requires t.dependencies == SourceDependencies(t.source) | SourceDependencies(t.amountSource)
    ensures TermValue(curves, t, c0, v) == TermValue(curves, t, c, v)
  {
    var a, b := SourceDependencies(t.source), SourceDependencies(t.amountSource);
    assert a & 0xfffe == 0 && b & 0xfffe == 0 by {
      assert (a | b) & 0xfffe == (a & 0xfffe) | (b & 0xfffe);
    }
    StaticSource(curves, t.source, c0, c, v);
    StaticSource(curves, t.amountSource, c0, c, v);
  }

  lemma {:induction false} StaticSum(curves: Curves, ts: seq<Term>, d: int,
                                     c0: Channel, c: Channel, v: VoiceSources)
    requires Playable(v)
    requires forall t <- ts :: IsStatic(t) && Packable(t)
    ensures SumTerms(curves, ts, d, c0, v) == SumTerms(curves, ts, d, c, v)
  {
    if ts != [] {
      assert ts[0] in ts;
      StaticTerm(curves, ts[0], c0, c, v);
      StaticSum(curves, ts[1..], d, c0, c, v);
    }
  }

  /** The static prefix summed when the note started, plus the rest summed now, is the direct
      sum over the zone's modulators now. */
  lemma CompiledSum(curves: Curves, ms: seq<Modulator>, f: Family, d: int,
                    c0: Channel, c: Channel, v: VoiceSources)
    requires Playable(v) && SixteenBit(ms) && d in Destinations(f)
    ensures SumTerms(curves, Keep(TermsOf(ms, f), true), d, c0, v)
            + SumTerms(curves, Keep(TermsOf(ms, f), false), d, c, v)
            == DirectSum(Firmware, curves, ms, d, c, v)
  {
    var ts := TermsOf(ms, f);
    KeepMembers(ts, true);
    forall t | t in Keep(ts, true)
      ensures IsStatic(t) && Packable(t)
    {
      assert t in ts;
    }
    StaticSum(curves, Keep(ts, true), d, c0, c, v);
    PartitionSum(curves, ts, d, c, v);
    FilterKeepsSum(curves, ms, f, d, c, v);
  }

  // ---- The asset builder ------------------------------------------------------------------

  datatype Semantic = Semantic(candidates: seq<Candidate>, modulators: seq<Modulator>)

  predicate InRange(sem: Semantic, i: nat)
    requires i < |sem.candidates|
  {
    forall k | 0 <= k < sem.candidates[i].modulatorCount :: ModulatorIndex(sem.candidates[i], k) < |sem.modulators|
  }

  function ModulatorIndex(c: Candidate, k: nat): U32 { ToU32(c.firstModulator + k) }

  /** The modulators of candidate `i`; the builder's index is a 32-bit sum. */
  function ModulatorsOf(sem: Semantic, i: nat): seq<Modulator>
    requires i < |sem.candidates| && InRange(sem, i)
  {
    var c := sem.candidates[i];
    seq(c.modulatorCount, k requires 0 <= k < c.modulatorCount => sem.modulators[ModulatorIndex(c, k)])
  }

  /** A program record describes `body`, counts truncated to sixteen bits. */
  ghost predicate Describes(p: Program, f: Family, body: seq<Term>, terms: seq<Term>)
  {
    && p.family == f
    && 0 <= p.firstTerm && p.firstTerm + |body| <= |terms|
    && terms[p.firstTerm..p.firstTerm + |body|] == body
    && p.termCount == ToU16(|body|)
    && p.noteCount == ToU16(|Keep(body, true)|)
    && p.dependencies == AllDependencies(body)
  }

  /** A candidate's reference for one family is absent exactly when it has no term there, and
      otherwise leads to a record of its compiled list. */
  ghost predicate Means(b: Build, r: Option<nat>, f: Family, body: seq<Term>)
  {
    match r
    case None => body == []
    case Some(j) => body != [] && j < |b.programs| && Describes(b.programs[j], f, body, b.terms)
  }

  lemma MeansExtended(b: Build, r: Option<nat>, f: Family, body: seq<Term>, b': Build)
    requires Means(b, r, f, body) && b.programs <= b'.programs && b.terms <= b'.terms
    ensures Means(b', r, f, body)
  {
    if r.Some? {
      var p := b.programs[r.value];
      assert b'.terms[p.firstTerm..p.firstTerm + |body|] == b.terms[p.firstTerm..p.firstTerm + |body|];
    }
  }

  method CollectTerms(ms: seq<Modulator>, f: Family) returns (terms: seq<Term>)
    ensures terms == TermsOf(ms, f)
  {
    hide Packable, TermOf, Destinations;
    terms := [];
    var index := 0;
    while index < |ms|
      invariant 0 <= index <= |ms|
      invariant terms + TermsOf(ms[index..], f) == TermsOf(ms, f)
    {
      var m := ms[index];
      assert ms[index..][1..] == ms[index + 1..];
      index := index + 1;
      if m.amount == 0 || m.dest !in Destinations(f) {
        continue;
      }
      Associate(terms, [TermOf(m)], TermsOf(ms[index..], f));
      terms := terms + [TermOf(m)];
    }
  }

  method OrDependencies(ts: seq<Term>) returns (d: bv16)
    ensures d == AllDependencies(ts)
  {
    d := 0;
    for i := 0 to |ts|
      invariant d == AllDependencies(ts[..i])
    {
      assert ts[..i + 1][..i] == ts[..i];
      d := d | ts[i].dependencies;
    }
    assert ts[..|ts|] == ts;
  }

  /** A list compiled for some candidate. */
  ghost predicate Grown(f: Family, body: seq<Term>, sem: Semantic)
  {
    exists i | 0 <= i < |sem.candidates| :: InRange(sem, i) && body == Compiled(ModulatorsOf(sem, i), f)
  }

  /** A record describes such a list. */
  ghost predicate Sourced(p: Program, terms: seq<Term>, sem: Semantic)
  {
    exists body :: body != [] && Describes(p, p.family, body, terms) && Grown(p.family, body, sem)
  }

  ghost predicate IsTermOf(t: Term, ms: seq<Modulator>)
  {
    exists m <- ms :: t == TermOf(m)
  }

  lemma {:induction false} TermsOfMembers(ms: seq<Modulator>, f: Family)
    ensures forall t <- TermsOf(ms, f) :: t.destination in Destinations(f) && IsTermOf(t, ms)
  {
    if ms != [] {
      TermsOfMembers(ms[1..], f);
      forall t | t in TermsOf(ms, f)
        ensures t.destination in Destinations(f) && IsTermOf(t, ms)
      {
        if t in TermsOf(ms[1..], f) {
          var m :| m in ms[1..] && t == TermOf(m);
          assert m in ms;
        } else {
          assert t == TermOf(ms[0]) && ms[0] in ms;
        }
      }
    }
  }

  /** A compiled list holds terms of its family, note-static ones first, no more than there were
      modulators. */
  lemma CompiledShape(ms: seq<Modulator>, f: Family)
    ensures var body := Compiled(ms, f);
            && |body| <= |ms| && |Keep(body, true)| <= |body|
            && (forall t <- body :: t.destination in Destinations(f) && IsTermOf(t, ms))
            && (forall i | 0 <= i < |Keep(body, true)| :: IsStatic(body[i]))
  {
    var ts := TermsOf(ms, f);
    TermsOfMembers(ms, f);
    KeepMembers(ts, true);
    KeepMembers(ts, false);
    KeepOfPartition(ts);
    forall t | t in StablePartition(ts)
      ensures t.destination in Destinations(f) && IsTermOf(t, ms)
    {
      assert t in ts;
    }
    forall i | 0 <= i < |Keep(ts, true)|
      ensures IsStatic(StablePartition(ts)[i])
    {
      assert StablePartition(ts)[i] == Keep(ts, true)[i];
    }
  }

  /** The interning table and its records: `bodies` lists the distinct programs built so far. */
  ghost predicate Interned(interned: map<seq<int>, nat>, programs: seq<Program>, terms: seq<Term>,
                           bodies: seq<seq<Term>>, sem: Semantic)
  {
    && |bodies| == |programs|
    && (forall j | 0 <= j < |programs| ::
          bodies[j] != [] && Describes(programs[j], programs[j].family, bodies[j], terms))
    && (forall j, t | 0 <= j < |bodies| && t in bodies[j] :: Packable(t))
    && (forall j | 0 <= j < |bodies| :: Grown(programs[j].family, bodies[j], sem))
    && (forall k <- interned :: interned[k] < |programs| &&
          k == Key(programs[interned[k]].family, bodies[interned[k]]))
  }

  /** Finds or appends the record of one nonempty list. */
  method Intern(f: Family, body: seq<Term>, noteCount: nat,
                interned: map<seq<int>, nat>, programs: seq<Program>, terms: seq<Term>,
                ghost bodies: seq<seq<Term>>, ghost sem: Semantic)
    returns (index: nat, interned': map<seq<int>, nat>, programs': seq<Program>, terms': seq<Term>,
             ghost bodies': seq<seq<Term>>)
    requires body != [] && (forall t <- body :: Packable(t))
    requires noteCount == |Keep(body, true)| && Grown(f, body, sem)
    requires Interned(interned, programs, terms, bodies, sem)
    ensures Interned(interned', programs', terms', bodies', sem)
    ensures programs <= programs' && terms <= terms'
    ensures index < |programs'| && Describes(programs'[index], f, body, terms')
  {
    var key := Key(f, body);
    hide SourceDependencies, Packable, AllDependencies, IsStatic, Grown;
    if key in interned {
      index := interned[key];
      KeyInjective(f, body, programs[index].family, bodies[index]);
      interned', programs', terms', bodies' := interned, programs, terms, bodies;
    } else {
      var dependencies := OrDependencies(body);
      var program := Program(|terms|, ToU16(|body|), ToU16(noteCount), dependencies, f);
      index := |programs|;
      programs' := programs + [program];
      terms' := terms + body;
      interned' := interned[key := index];
      bodies' := bodies + [body];
      assert terms'[|terms|..|terms| + |body|] == body;
      forall j | 0 <= j < |programs|
        ensures Describes(programs'[j], programs'[j].family, bodies'[j], terms')
      {
        var p := programs[j];
        assert terms'[p.firstTerm..p.firstTerm + |bodies[j]|]
            == terms[p.firstTerm..p.firstTerm + |bodies[j]|];
      }
    }
  }

  method CountStatic(ts: seq<Term>) returns (n: nat)
    ensures n == |Keep(ts, true)|
  {
    n := 0;
    for i := 0 to |ts|
      invariant n + |Keep(ts[i..], true)| == |Keep(ts, true)|
    {
      assert ts[i..][1..] == ts[i + 1..];
      if IsStatic(ts[i]) {
        n := n + 1;
      }
    }
  }

  lemma KeepOfPartition(ts: seq<Term>)
    ensures Keep(StablePartition(ts), true) == Keep(ts, true)
    ensures Keep(StablePartition(ts), false) == Keep(ts, false)
    ensures |StablePartition(ts)| == |ts|
  {
    var a, b := Keep(ts, true), Keep(ts, false);
    KeepConcat(a, b, true);
    KeepConcat(a, b, false);
    KeepMembers(ts, true);
    KeepMembers(ts, false);
    KeepAll(a, true);
    KeepAll(b, false);
    KeepSizes(ts);
  }

  lemma {:induction false} KeepConcat(a: seq<Term>, b: seq<Term>, isStatic: bool)
    ensures Keep(a + b, isStatic) == Keep(a, isStatic) + Keep(b, isStatic)
  {
    hide IsStatic, Keep;
    KeepUnfolds(a, isStatic);
    if a == [] {
      assert a + b == b;
    } else {
      var ab := a + b;
      assert ab[0] == a[0] && ab[1..] == a[1..] + b;
      KeepConcat(a[1..], b, isStatic);
      KeepUnfolds(ab, isStatic);
      Associate(if IsStatic(a[0]) == isStatic then [a[0]] else [], Keep(a[1..], isStatic), Keep(b, isStatic));
    }
  }

  lemma Associate<T>(x: seq<T>, y: seq<T>, z: seq<T>)
    ensures (x + y) + z == x + (y + z)
  {
  }

  lemma KeepUnfolds(ts: seq<Term>, isStatic: bool)
    ensures Keep(ts, isStatic) ==
            if ts == [] then []
            else (if IsStatic(ts[0]) == isStatic then [ts[0]] else []) + Keep(ts[1..], isStatic)
  {
  }

  lemma {:induction false} KeepAll(a: seq<Term>, isStatic: bool)
    requires forall t <- a :: IsStatic(t) == isStatic
    ensures Keep(a, isStatic) == a && Keep(a, !isStatic) == []
  {
    if a != [] {
      KeepAll(a[1..], isStatic);
    }
  }

  lemma {:induction false} KeepSizes(ts: seq<Term>)
    ensures |Keep(ts, true)| + |Keep(ts, false)| == |ts|
  {
    if ts != [] {
      KeepSizes(ts[1..]);
    }
  }

  const FAMILIES: seq<Family> := [GainFamily, PitchFamily, FilterFamily]

  /** Every candidate handled so far refers to its three compiled lists. */
  ghost predicate Done(sem: Semantic, n: nat, b: Build)
    requires n <= |sem.candidates|
  {
    && |b.candidates| == n
    && forall i | 0 <= i < n :: InRange(sem, i) && CandidateDone(b, b.candidates[i], ModulatorsOf(sem, i))
  }

  ghost predicate CandidateDone(b: Build, refs: Refs, ms: seq<Modulator>)
  {
    forall f: Family :: Means(b, refs.Of(f), f, Compiled(ms, f))
  }

  ghost predicate FamiliesDone(b: Build, refs: Refs, ms: seq<Modulator>, n: nat)
    requires n <= 3
  {
    && (forall k | 0 <= k < n :: Means(b, refs.Of(FAMILIES[k]), FAMILIES[k], Compiled(ms, FAMILIES[k])))
    && (forall k | n <= k < 3 :: refs.Of(FAMILIES[k]) == None)
  }

  /** Records are only ever appended, so what a reference means survives later records. */
  lemma CandidateExtended(b: Build, refs: Refs, ms: seq<Modulator>, b': Build)
    requires CandidateDone(b, refs, ms) && b.programs <= b'.programs && b.terms <= b'.terms
    ensures CandidateDone(b', refs, ms)
  {
    forall f: Family
      ensures Means(b', refs.Of(f), f, Compiled(ms, f))
    {
      MeansExtended(b, refs.Of(f), f, Compiled(ms, f), b');
    }
  }

  lemma DoneExtended(sem: Semantic, n: nat, b: Build, b': Build)
    requires n <= |sem.candidates| && Done(sem, n, b)
    requires b'.candidates == b.candidates && b.programs <= b'.programs && b.terms <= b'.terms
    ensures Done(sem, n, b')
  {
    forall i | 0 <= i < n
      ensures InRange(sem, i) && CandidateDone(b', b'.candidates[i], ModulatorsOf(sem, i))
    {
      CandidateExtended(b, b.candidates[i], ModulatorsOf(sem, i), b');
    }
  }

  lemma FamilyAdded(b: Build, refs: Refs, ms: seq<Modulator>, n: nat, b': Build, index: nat)
    requires n < 3 && FamiliesDone(b, refs, ms, n)
    requires b.programs <= b'.programs && b.terms <= b'.terms
    requires Means(b', Some(index), FAMILIES[n], Compiled(ms, FAMILIES[n]))
    ensures FamiliesDone(b', refs.With(FAMILIES[n], index), ms, n + 1)
  {
    var refs' := refs.With(FAMILIES[n], index);
    forall k | 0 <= k < n + 1
      ensures Means(b', refs'.Of(FAMILIES[k]), FAMILIES[k], Compiled(ms, FAMILIES[k]))
    {
      WithOf(refs, FAMILIES[n], index, FAMILIES[k]);
      if k < n {
        MeansExtended(b, refs.Of(FAMILIES[k]), FAMILIES[k], Compiled(ms, FAMILIES[k]), b');
      }
    }
    forall k | n + 1 <= k < 3
      ensures refs'.Of(FAMILIES[k]) == None
    {
      WithOf(refs, FAMILIES[n], index, FAMILIES[k]);
    }
  }

  lemma WithOf(refs: Refs, f: Family, index: nat, g: Family)
    ensures refs.With(f, index).Of(g) == if f == g then Some(index) else refs.Of(g)
  {
  }

  lemma AllFamiliesDone(b: Build, refs: Refs, ms: seq<Modulator>)
    requires FamiliesDone(b, refs, ms, 3)
    ensures CandidateDone(b, refs, ms)
  {
    forall f: Family
      ensures Means(b, refs.Of(f), f, Compiled(ms, f))
    {
      assert FAMILIES[FamilyCode(f)] == f;
    }
  }

  /** Compiles the three families of one candidate. */
  method CompileCandidate(ms: seq<Modulator>, interned: map<seq<int>, nat>, b: Build,
                          ghost bodies: seq<seq<Term>>, ghost sem: Semantic, ghost candidate: nat)
    returns (ok: bool, refs: Refs, interned': map<seq<int>, nat>, b': Build,
             ghost bodies': seq<seq<Term>>)
    requires Interned(interned, b.programs, b.terms, bodies, sem)
    requires candidate < |sem.candidates| && InRange(sem, candidate) && ms == ModulatorsOf(sem, candidate)
    ensures Interned(interned', b'.programs, b'.terms, bodies', sem)
    ensures b'.candidates == b.candidates && b.programs <= b'.programs && b.terms <= b'.terms
    ensures ok ==> CandidateDone(b', refs, ms)
    ensures !ok ==> |b'.terms| >= TWO_32 || |b'.programs| >= TWO_32
  {
    refs, interned', b', bodies' := Refs(None, None, None), interned, b, bodies;
    for raw := 0 to 3
      invariant b'.candidates == b.candidates && b.programs <= b'.programs && b.terms <= b'.terms
      invariant Interned(interned', b'.programs, b'.terms, bodies', sem)
      invariant FamiliesDone(b', refs, ms, raw)
    {
      var family := FAMILIES[raw];
      var collected := CollectTerms(ms, family);
      var terms := StablePartition(collected);
      KeepOfPartition(collected);
      if terms == [] {
        continue;
      }
      if Key(family, terms) !in interned' && (|b'.terms| >= TWO_32 || |b'.programs| >= TWO_32) {
        ok := false;
        return;
      }
      var noteCount := CountStatic(terms);
      KeepMembers(collected, true);
      KeepMembers(collected, false);
      forall t | t in terms
        ensures Packable(t)
      {
        assert t in collected;
      }
      assert Grown(family, Compiled(ms, family), sem);
      var index, programs, all;
      index, interned', programs, all, bodies' :=
        Intern(family, terms, noteCount, interned', b'.programs, b'.terms, bodies', sem);
      var extended := b'.(programs := programs, terms := all);
      FamilyAdded(b', refs, ms, raw, extended, index);
      b' := extended;
      refs := refs.With(family, index);
    }
    AllFamiliesDone(b', refs, ms);
    ok := true;
  }

  /** Compiles every candidate's modulators into shared programs. */
  method BuildModulation(sem: Semantic) returns (result: BuildResult)
    ensures result.Built? ==> Done(sem, |sem.candidates|, result.build)
    ensures result.Built? ==>
              forall j | 0 <= j < |result.build.programs| :: Sourced(result.build.programs[j], result.build.terms, sem)
    ensures result == OutOfRange ==> exists i | 0 <= i < |sem.candidates| :: !InRange(sem, i)
    ensures result.TooLarge? ==> |result.build.terms| >= TWO_32 || |result.build.programs| >= TWO_32
  {
    var interned: map<seq<int>, nat> := map[];
    var b := Build([], [], []);
    ghost var bodies: seq<seq<Term>> := [];
    for i := 0 to |sem.candidates|
      invariant Done(sem, i, b)
      invariant Interned(interned, b.programs, b.terms, bodies, sem)
    {
      if !InRange(sem, i) {
        return OutOfRange;
      }
      var ok, refs, b';
      ok, refs, interned, b', bodies := CompileCandidate(ModulatorsOf(sem, i), interned, b, bodies, sem, i);
      if !ok {
        return TooLarge(b');
      }
      DoneExtended(sem, i, b, b');
      AppendCandidate(sem, i, b', refs);
      b := b'.(candidates := b'.candidates + [refs]);
    }
    forall j | 0 <= j < |b.programs|
      ensures Sourced(b.programs[j], b.terms, sem)
    {
      assert Describes(b.programs[j], b.programs[j].family, bodies[j], b.terms);
    }
    result := Built(b);
  }

  lemma AppendCandidate(sem: Semantic, n: nat, b: Build, refs: Refs)
    requires n < |sem.candidates| && InRange(sem, n) && Done(sem, n, b)
    requires CandidateDone(b, refs, ModulatorsOf(sem, n))
    ensures Done(sem, n + 1, b.(candidates := b.candidates + [refs]))
  {
    var b' := b.(candidates := b.candidates + [refs]);
    CandidateExtended(b, refs, ModulatorsOf(sem, n), b');
    assert b'.candidates[n] == refs;
    forall i | 0 <= i < n
      ensures InRange(sem, i) && CandidateDone(b', b'.candidates[i], ModulatorsOf(sem, i))
    {
      assert b'.candidates[i] == b.candidates[i];
      CandidateExtended(b, b.candidates[i], ModulatorsOf(sem, i), b');
    }
  }

  // ---- The firmware's caches --------------------------------------------------------------

  /** One family's program as cached in a voice; an absent program has no terms. */
  datatype Slot = Slot(present: bool, firstTerm: int, termCount: nat, noteCount: nat)

  /** What a started voice keeps: its three programs and its ten note-static sums. */
  datatype Cache = Cache(sources: VoiceSources, slots: seq<Slot>, staticSums: seq<int>)

  function StaticOffset(f: Family): nat
  {
    match f case GainFamily => 0 case PitchFamily => 3 case FilterFamily => 7
  }

  function SlotOf(b: Build, r: Option<nat>): Slot
    requires r.Some? ==> r.value < |b.programs|
  {
    match r
    case None => Slot(false, 0, 0, 0)
    case Some(j) => Slot(true, b.programs[j].firstTerm, b.programs[j].termCount, b.programs[j].noteCount)
  }

  predicate SlotFits(s: Slot, terms: seq<Term>)
  {
    && s.noteCount <= s.termCount
    && 0 <= s.firstTerm && s.firstTerm + s.termCount <= |terms|
    && (!s.present ==> s.termCount == 0)
  }

  function StaticPart(s: Slot, terms: seq<Term>): seq<Term>
    requires SlotFits(s, terms)
  {
    terms[s.firstTerm..s.firstTerm + s.noteCount]
  }

  function DynamicPart(s: Slot, terms: seq<Term>): seq<Term>
    requires SlotFits(s, terms)
  {
    terms[s.firstTerm + s.noteCount..s.firstTerm + s.termCount]
  }

  /** One traversal adds every term to the single output it belongs to. */
  method Accumulate(curves: Curves, terms: seq<Term>, f: Family, c: Channel, v: VoiceSources,
                    start: seq<int>)
    returns (sums: seq<int>)
    requires Playable(v) && |start| == |Destinations(f)|
    ensures |sums| == |start|
    ensures forall o | 0 <= o < |sums| ::
              sums[o] == start[o] + SumTerms(curves, terms, Destinations(f)[o], c, v)
  {
    sums := start;
    var ds := Destinations(f);
    for local := 0 to |terms|
      invariant |sums| == |start|
      invariant forall o | 0 <= o < |sums| ::
                  sums[o] + SumTerms(curves, terms[local..], ds[o], c, v)
                  == start[o] + SumTerms(curves, terms, ds[o], c, v)
    {
      var t := terms[local];
      assert terms[local..][1..] == terms[local + 1..];
      var output := 0;
      while output < |ds|
        invariant 0 <= output <= |ds|
        invariant forall o | 0 <= o < output :: ds[o] != t.destination
      {
        if ds[output] == t.destination {
          break;
        }
        output := output + 1;
      }
      if output == |ds| || (!IncludesNote(ds[output]) && DependsOnNote(t.dependencies)) {
        continue;
      }
      var source := SourceMcu(curves, t.source, c, v);
      var amountSource := SourceMcu(curves, t.amountSource, c, v);
      var value := MultiplyQ16(source, amountSource) * t.amount;
      if t.transform == 2 && value < 0 {
        value := -value;
      }
      sums := sums[output := sums[output] + value];
    }
  }

  ghost predicate CacheHolds(curves: Curves, cache: Cache, terms: seq<Term>, c: Channel)
  {
    && Playable(cache.sources) && |cache.slots| == 3 && |cache.staticSums| == 10
    && (forall k | 0 <= k < 3 :: SlotFits(cache.slots[k], terms))
    && forall f: Family, o | 0 <= o < |Destinations(f)| ::
         cache.staticSums[StaticOffset(f) + o] ==
         SumTerms(curves, StaticPart(cache.slots[FamilyCode(f)], terms), Destinations(f)[o], c, cache.sources)
  }

  /** Start of a voice: the note-static part of each program is summed once. */
  method CacheNoteStatic(curves: Curves, terms: seq<Term>, slots: seq<Slot>, c: Channel, v: VoiceSources)
    returns (cache: Cache)
    requires Playable(v) && |slots| == 3 && (forall k | 0 <= k < 3 :: SlotFits(slots[k], terms))
    ensures CacheHolds(curves, cache, terms, c)
    ensures cache.slots == slots && cache.sources == v
  {
    var gain := Accumulate(curves, StaticPart(slots[0], terms), GainFamily, c, v, [0, 0, 0]);
    var pitch := Accumulate(curves, StaticPart(slots[1], terms), PitchFamily, c, v, [0, 0, 0, 0]);
    var filter := Accumulate(curves, StaticPart(slots[2], terms), FilterFamily, c, v, [0, 0, 0]);
    cache := Cache(v, slots, gain + pitch + filter);
    SumsInPlace(curves, terms, cache, c, gain, pitch, filter);
  }

  /** The sums of one family. */
  ghost predicate StaticSums(curves: Curves, terms: seq<Term>, cache: Cache, c: Channel, f: Family, sums: seq<int>)
    requires Playable(cache.sources) && |cache.slots| == 3 && SlotFits(cache.slots[FamilyCode(f)], terms)
  {
    |sums| == |Destinations(f)| && forall o | 0 <= o < |sums| ::
      sums[o] == SumTerms(curves, StaticPart(cache.slots[FamilyCode(f)], terms), Destinations(f)[o], c, cache.sources)
  }

  lemma SumsInPlace(curves: Curves, terms: seq<Term>, cache: Cache, c: Channel, gain: seq<int>, pitch: seq<int>, filter: seq<int>)
    requires Playable(cache.sources) && |cache.slots| == 3 && (forall k | 0 <= k < 3 :: SlotFits(cache.slots[k], terms))
    requires StaticSums(curves, terms, cache, c, GainFamily, gain) && StaticSums(curves, terms, cache, c, PitchFamily, pitch)
    requires StaticSums(curves, terms, cache, c, FilterFamily, filter) && cache.staticSums == gain + pitch + filter
    ensures CacheHolds(curves, cache, terms, c)
  {
    hide SumTerms, StaticPart, SlotFits, Playable;
    forall f: Family, o | 0 <= o < |Destinations(f)|
      ensures cache.staticSums[StaticOffset(f) + o] ==
              SumTerms(curves, StaticPart(cache.slots[FamilyCode(f)], terms), Destinations(f)[o], c, cache.sources)
    {
      match f
      case GainFamily => assert cache.staticSums[o] == gain[o];
      case PitchFamily => assert cache.staticSums[3 + o] == pitch[o];
      case FilterFamily => assert cache.staticSums[7 + o] == filter[o];
    }
  }

  /** A family's sums at a control tick, as a specification. */
  function FamilySum(curves: Curves, cache: Cache, terms: seq<Term>, f: Family, o: nat, c: Channel): int
    requires Playable(cache.sources) && |cache.slots| == 3 && |cache.staticSums| == 10
    requires SlotFits(cache.slots[FamilyCode(f)], terms) && o < |Destinations(f)|
  {
    c.offsets[Destinations(f)[o]] + cache.staticSums[StaticOffset(f) + o]
    + SumTerms(curves, DynamicPart(cache.slots[FamilyCode(f)], terms), Destinations(f)[o], c, cache.sources)
  }

  /** Sums of all destinations of one family in one traversal of the dynamic suffix. */
  method DestinationSums(curves: Curves, cache: Cache, terms: seq<Term>, f: Family, c: Channel)
    returns (sums: seq<int>)
    requires Playable(cache.sources) && |cache.slots| == 3 && |cache.staticSums| == 10
    requires SlotFits(cache.slots[FamilyCode(f)], terms)
    ensures |sums| == |Destinations(f)|
    ensures forall o | 0 <= o < |sums| :: sums[o] == FamilySum(curves, cache, terms, f, o, c)
  {
    var ds := Destinations(f);
    var start := [];
    for output := 0 to |ds|
      invariant |start| == output
      invariant forall o | 0 <= o < output ::
                  start[o] == c.offsets[ds[o]] + cache.staticSums[StaticOffset(f) + o]
    {
      start := start + [c.offsets[ds[output]] + cache.staticSums[StaticOffset(f) + output]];
    }
    var slot := cache.slots[FamilyCode(f)];
    if !slot.present {
      sums := start;
      return;
    }
    sums := Accumulate(curves, DynamicPart(slot, terms), f, c, cache.sources, start);
  }

  /** A described record splits its list where the static prefix ends. */
  lemma RecordSplits(p: Program, f: Family, a: seq<Term>, b: seq<Term>, terms: seq<Term>)
    requires Describes(p, f, a + b, terms) && |a + b| < TWO_16 && |Keep(a + b, true)| == |a|
    ensures var s := Slot(true, p.firstTerm, p.termCount, p.noteCount);
            SlotFits(s, terms) && StaticPart(s, terms) == a && DynamicPart(s, terms) == b
  {
    hide Keep, AllDependencies;
    SliceOfSlice(terms, p.firstTerm, a, b);
  }

  lemma SliceOfSlice<T>(s: seq<T>, first: nat, a: seq<T>, b: seq<T>)
    requires first + |a| + |b| <= |s| && s[first..first + |a + b|] == a + b
    ensures s[first..first + |a|] == a && s[first + |a|..first + |a| + |b|] == b
  {
    var slice := s[first..first + |a + b|];
    assert slice[..|a|] == a && slice[|a|..] == b;
  }

  /** A voice of this candidate: its caches were filled while the channel was in state `c0`. */
  ghost predicate VoiceOf(curves: Curves, b: Build, refs: Refs, cache: Cache, c0: Channel)
  {
    SlotsFrom(cache.slots, b, refs) && CacheHolds(curves, cache, b.terms, c0)
  }

  ghost predicate SlotsFrom(slots: seq<Slot>, b: Build, refs: Refs)
  {
    |slots| == 3 && forall f: Family ::
      (refs.Of(f).Some? ==> refs.Of(f).value < |b.programs|) && slots[FamilyCode(f)] == SlotOf(b, refs.Of(f))
  }

  /** The slots of a candidate lead back to its compiled lists. */
  lemma SlotsMatch(b: Build, refs: Refs, ms: seq<Modulator>, f: Family, slots: seq<Slot>)
    requires CandidateDone(b, refs, ms) && |ms| < TWO_16 && SlotsFrom(slots, b, refs)
    ensures SlotFits(slots[FamilyCode(f)], b.terms)
    ensures StaticPart(slots[FamilyCode(f)], b.terms) == Keep(TermsOf(ms, f), true)
    ensures DynamicPart(slots[FamilyCode(f)], b.terms) == Keep(TermsOf(ms, f), false)
  {
    var ts := TermsOf(ms, f);
    assert Means(b, refs.Of(f), f, Compiled(ms, f));
    match refs.Of(f)
    case None =>
      KeepOfPartition(ts);
      assert Keep(ts, true) + Keep(ts, false) == [];
    case Some(j) =>
      KeepOfPartition(ts);
      RecordSplits(b.programs[j], f, Keep(ts, true), Keep(ts, false), b.terms);
  }

  /** Compiling, sharing and caching preserve meaning: at any later tick, with the channel in any
      state, every sum a voice uses is the channel's generator offset plus the direct sum over the
      zone's original modulators. */
  lemma CompileAndCachePreserveMeaning(
    curves: Curves, b: Build, refs: Refs, ms: seq<Modulator>, cache: Cache,
    c0: Channel, c: Channel, f: Family, o: nat)
    requires CandidateDone(b, refs, ms) && |ms| < TWO_16 && SixteenBit(ms)
    requires VoiceOf(curves, b, refs, cache, c0) && o < |Destinations(f)|
    ensures FamilySum(curves, cache, b.terms, f, o, c) ==
            c.offsets[Destinations(f)[o]] + DirectSum(Firmware, curves, ms, Destinations(f)[o], c, cache.sources)
  {
    var d, v := Destinations(f)[o], cache.sources;
    SlotsMatch(b, refs, ms, f, cache.slots);
    CompiledSum(curves, ms, f, d, c0, c, v);
  }

  /** It is also the host's direct sum wherever the host reads the modulators' sources alike. */
  lemma CompileAndCacheMeetHost(
    curves: Curves, b: Build, refs: Refs, ms: seq<Modulator>, cache: Cache,
    c0: Channel, c: Channel, f: Family, o: nat)
    requires CandidateDone(b, refs, ms) && |ms| < TWO_16 && SixteenBit(ms)
    requires VoiceOf(curves, b, refs, cache, c0) && o < |Destinations(f)|
    requires BreathAgrees(curves, ms, c)
    ensures FamilySum(curves, cache, b.terms, f, o, c) ==
            c.offsets[Destinations(f)[o]] + DirectSum(Host, curves, ms, Destinations(f)[o], c, cache.sources)
  {
    CompileAndCachePreserveMeaning(curves, b, refs, ms, cache, c0, c, f, o);
    ReadingsAgree(curves, ms, Destinations(f)[o], c, cache.sources);
  }

  /** Elsewhere the host's sum may differ: a zone whose cutoff follows controller 2 linearly, at
      power-on. */
  lemma BreathCounterexample(v: VoiceSources)
    requires Playable(v)
    ensures var m := Modulator(0x82, 8, 128, 0, 0);
            var linear := (id: int, x: int) => x * 512;
            && !BreathAgrees(linear, [m], PowerOn())
            && DirectSum(Firmware, linear, [m], 8, PowerOn(), v) != DirectSum(Host, linear, [m], 8, PowerOn(), v)
  {
    var m := Modulator(0x82, 8, 128, 0, 0);
    var linear := (id: int, x: int) => x * 512;
    var c: Channel := PowerOn();
    assert m in [m] && [m][1..] == [];
    assert SourceMcu(linear, 0x82, c, v) == 512;
    assert SourceHost(linear, 0x82, c, v) == 0;
    assert MultiplyQ16(512, MOD_ONE) == 512;
    assert MultiplyQ16(0, MOD_ONE) == 0;
  }
}
