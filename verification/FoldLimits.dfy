/**
 Where folding control ticks stops being invisible: generator offsets on the depth generators of a
 dirty family. For every channel with such an offset there is a voice whose pitch or gains come out
 differently from one fold than from single ticks.
 */
module FoldLimits {
  import opened CInt
  import opened Channels
  import opened Modulation
  import opened Envelope
  import opened Scaling
  import opened ControlFold

  /** Neighbouring entries lie well apart, as those of a table of powers of two do, whose first
      and smallest step is above eleven million. */
  ghost predicate Steep(t: ExpTable)
  {
    TableOk(t) && forall k | 0 <= k < 256 :: Anchor(t, k + 1) - Anchor(t, k) >= 0x10_0000
  }

  /** Folding is invisible on this channel with these exponents and source curves: whatever the
      programs, the gains, the filters, the voice and the interval. */
  ghost predicate FoldSafe(t: ExpTable, curves: Curves, c: Channel, enabled: bool)
  {
    forall tb: Tables, s: Sound, c0: Channel, tickIndex: U32, n: U32 ::
      tb.exp == t && tb.curves == curves && Started(tb, s, c0) ==> SameSent(tb, s, c, enabled, tickIndex, n)
  }

  /** A voice with these exponents and source curves to which one fold of two ticks sends something
      else than two single ticks. */
  ghost predicate FoldShows(t: ExpTable, curves: Curves, c: Channel)
  {
    exists tb: Tables, s: Sound, c0: Channel ::
      tb.exp == t && tb.curves == curves && Started(tb, s, c0) && !SameSent(tb, s, c, true, 0, 2)
  }

  /** What decides it: modulation is on and a dirty family has an offset on a depth. */
  predicate QuietChannel(c: Channel, enabled: bool)
  {
    enabled ==> (Pitch in c.dirtyGroups ==> QuietDepths(c, Pitch)) && (Gain in c.dirtyGroups ==> QuietDepths(c, Gain))
  }

  /** Generator offsets are 32-bit. */
  predicate OffsetsFit(c: Channel)
  {
    forall g | 0 <= g < GENERATORS :: -0x8000_0000 <= c.offsets[g] < 0x8000_0000
  }

  lemma FoldSafeExactly(t: ExpTable, curves: Curves, c: Channel, enabled: bool)
    requires Steep(t) && OffsetsFit(c)
    ensures FoldSafe(t, curves, c, enabled) <==> QuietChannel(c, enabled)
  {
    hide SameSent, CacheHolds, Moves;
    if QuietChannel(c, enabled) {
      forall tb: Tables, s: Sound, c0: Channel, tickIndex: U32, n: U32
        | tb.exp == t && tb.curves == curves && Started(tb, s, c0)
        ensures SameSent(tb, s, c, enabled, tickIndex, n)
      {
        FoldEqualsSingles(tb, s, c0, c, enabled, tickIndex, n);
      }
    } else if Gain in c.dirtyGroups && c.offsets[13] != 0 {
      VolumeOffsetBreaksFold(t, curves, c);
    } else if c.offsets[5] != 0 {
      DepthOffsetBreaksFold(t, curves, c, 5);
    } else if c.offsets[6] != 0 {
      DepthOffsetBreaksFold(t, curves, c, 6);
    } else {
      DepthOffsetBreaksFold(t, curves, c, 7);
    }
  }

  // ---- Pitch ------------------------------------------------------------------------------

  const BASE: int := 0x4000_0000

  /** From this base every next exponent within the octave is a higher pitch. */
  lemma PhaseClimbs(t: ExpTable, e: int)
    requires Steep(t) && 0 <= e < Q24 - 1
    ensures Scaled(t, BASE, 1, e, 1) < Scaled(t, BASE, 1, e + 1, 1)
  {
    hide Ratio, Scaled, Steep;
    QuarterRatio(t, e);
    QuarterRatio(t, e + 1);
    RatioClimbs(t, e);
  }

  lemma QuarterRatio(t: ExpTable, e: int)
    requires Steep(t) && 0 <= e < Q24
    ensures Scaled(t, BASE, 1, e, 1) == (Ratio(t, e) + 2) / 4
  {
    hide Ratio;
    assert Octave(e) == 0 && Fraction(e) == e;
    RatioPositive(t, e);
    ExactAtOctaveZero(BASE * Ratio(t, e), TWO_32);
  }

  lemma RatioClimbs(t: ExpTable, x: int)
    requires Steep(t) && 0 <= x < Q24 - 1
    ensures Ratio(t, x) + 16 <= Ratio(t, x + 1)
  {
    var k, y := x / 0x1_0000, x % 0x1_0000;
    var gap := Anchor(t, k + 1) - Anchor(t, k);
    assert Interpolate(gap, y) + 16 <= Interpolate(gap, y + 1);
    assert y == 0xffff ==> (x + 1) / 0x1_0000 == k + 1 && (x + 1) % 0x1_0000 == 0 && Interpolate(gap, 0x1_0000) == gap;
    assert y < 0xffff ==> (x + 1) / 0x1_0000 == k && (x + 1) % 0x1_0000 == y + 1;
  }

  /** A height whole cents above `r` from which a step by `d` is heard: whole cents reach every
      remainder modulo 75, and with it the edge between two exponents. */
  function Height(r: nat, d: int): int
    requires r < MOD_ONE
  {
    r + MOD_ONE * WholeCents(r, d)
  }

  function WholeCents(r: nat, d: int): (j: nat)
    ensures j < 150
  {
    if d > 0 then (74 - 16 * r) % 75 else 75 + (-16 * r) % 75
  }

  lemma Remainder(q: int, rest: nat)
    requires rest < 75
    ensures (75 * q + rest) % 75 == rest
  {
  }

  /** The last cent below the edge the step crosses. */
  function BelowEdge(r: nat, d: int): int
    requires r < MOD_ONE
  {
    if d > 0 then Height(r, d) else Height(r, d) - 1
  }

  lemma HeightAtEdge(r: nat, d: int)
    requires r < MOD_ONE
    ensures 0 <= BelowEdge(r, d) < 150 * MOD_ONE - 1 && 16 * BelowEdge(r, d) % 75 >= 59
  {
    var j := WholeCents(r, d);
    assert 16 * Height(r, d) == 75 * (13981 * j) + (16 * r + j);
    if d > 0 {
      var m := (74 - 16 * r) / 75;
      assert 16 * r + j == 74 - 75 * m;
      Remainder(13981 * j - m, 74);
    } else {
      var m := (-16 * r) / 75;
      assert 16 * r + j == 75 - 75 * m;
      Remainder(13981 * j - m, 59);
    }
  }

  lemma ExponentAt(c: nat)
    requires c < 150 * MOD_ONE
    ensures PitchExponent(ClampCents(c)) == 16 * c / 75
  {
    PitchExponentExact(c);
  }

  /** Between these two cents lies such an edge. */
  lemma EdgeIsHeard(t: ExpTable, c: nat)
    requires Steep(t) && c + 1 < 150 * MOD_ONE && 16 * c % 75 >= 59
    ensures PhaseWithCents(t, BASE, c) < PhaseWithCents(t, BASE, c + 1)
  {
    hide Scaled, Steep, PitchExponent, ClampCents;
    ExponentAt(c);
    ExponentAt(c + 1);
    PhaseClimbs(t, 16 * c / 75);
  }

  lemma AcrossEdge(t: ExpTable, c: int, edge: nat, c': int)
    requires Steep(t) && edge + 1 < 150 * MOD_ONE && 16 * edge % 75 >= 59
    requires c <= edge < c'
    ensures PhaseWithCents(t, BASE, c) < PhaseWithCents(t, BASE, c')
  {
    hide PhaseWithCents, TopRatio;
    EdgeIsHeard(t, edge);
    SmallBaseFits(t, BASE);
    PitchMonotone(t, BASE, c, edge);
    PitchMonotone(t, BASE, edge + 1, c');
  }

  lemma StepIsHeard(t: ExpTable, r: nat, d: int)
    requires Steep(t) && r < MOD_ONE && d != 0
    ensures PhaseWithCents(t, BASE, Height(r, d) + d) != PhaseWithCents(t, BASE, Height(r, d))
  {
    hide PhaseWithCents, Steep, Height;
    HeightAtEdge(r, d);
    if d > 0 {
      AcrossEdge(t, Height(r, d), BelowEdge(r, d), Height(r, d) + d);
    } else {
      AcrossEdge(t, Height(r, d) + d, BelowEdge(r, d), Height(r, d));
    }
  }

  /** A term without sources: its amount, in cents. */
  function Constant(amount: int): Term { Term(0, 0, amount, 0, 0, 0) }

  /** Four constant terms raise the pitch of every voice of their program by `k` cents. Their amounts
      have 16 bits wherever `k` is the distance of two sums of 32-bit offsets. */
  function ShiftTables(t: ExpTable, curves: Curves, k: int): Tables
  {
    Tables(t, curves, [Constant(k / 4), Constant(k / 4), Constant(k / 4), Constant(k - 3 * (k / 4))],
           (gain, pan, attenuation, offset) => (attenuation, offset), (cutoff, q) => cutoff)
  }

  lemma ShiftSum(t: ExpTable, curves: Curves, k: int, d: int, c: Channel, v: VoiceSources)
    requires Playable(v)
    ensures SumTerms(curves, ShiftTables(t, curves, k).terms, d, c, v) == if d == 0 then k * MOD_ONE else 0
  {
    hide MultiplyQ16;
    var ts := ShiftTables(t, curves, k).terms;
    MultiplyRounds(MOD_ONE, 0);
    assert forall i | 0 <= i < 4 :: Contributes(ts[i], d) <==> d == 0;
    assert forall i | 0 <= i < 4 :: TermValue(curves, ts[i], c, v) == MOD_ONE * ts[i].amount;
    assert ts[1..][0] == ts[1] && ts[1..][1..] == ts[2..] && ts[2..][1..] == ts[3..] && ts[3..][1..] == [];
    assert SumTerms(curves, ts[3..], d, c, v) == if d == 0 then MOD_ONE * ts[3].amount else 0;
    assert SumTerms(curves, ts[2..], d, c, v) == if d == 0 then MOD_ONE * (ts[2].amount + ts[3].amount) else 0;
  }

  const NO_SLOT: Slot := Slot(false, 0, 0, 0)

  /** A voice whose filter moves, so that time passes in it, and whose oscillators and envelope
      change at the second tick: the modulation oscillator falls from its peak to zero when `mod`,
      the vibrato oscillator when `vib`, and the envelope rises from zero to full when `env`. */
  function PitchVoice(k: int, mod: bool, vib: bool, env: bool): Sound
  {
    var peak := (on: bool) => Lfo(if on then 16384 else 0, 0);
    var step := (on: bool) => if on then 16384 else 0;
    Sound(VoiceConfig(EnvConfig(0, 1, 0, 1, 1, 0, false), step(mod), step(vib), 0, 0, 0, 1, 0, 0, 5000, 0),
          Cache(VoiceSources(60, 100, -1), [NO_SLOT, Slot(true, 0, 4, 4), NO_SLOT], seq(10, _ => 0)[3 := k * MOD_ONE]),
          BASE, 0, 0, {Filter}, if env then EnvState(Delay, 0, 1, 0, 0) else EnvState(Idle, 0, 0, 0, 0),
          peak(mod), peak(vib), 0, (0, 0), 0)
  }

  lemma PitchVoiceStarts(t: ExpTable, curves: Curves, k: int, mod: bool, vib: bool, env: bool)
    requires TableOk(t)
    ensures Started(ShiftTables(t, curves, k), PitchVoice(k, mod, vib, env), PowerOn())
  {
    hide SumTerms, TableOk;
    var tb, s := ShiftTables(t, curves, k), PitchVoice(k, mod, vib, env);
    assert Fits(tb, s);
    assert StaticPart(s.cache.slots[1], tb.terms) == tb.terms;
    assert StaticPart(NO_SLOT, tb.terms) == [];
    forall f: Family, o | 0 <= o < |Destinations(f)|
      ensures s.cache.staticSums[StaticOffset(f) + o] ==
              SumTerms(curves, StaticPart(s.cache.slots[FamilyCode(f)], tb.terms), Destinations(f)[o], PowerOn(), s.cache.sources)
    {
      if f == PitchFamily {
        ShiftSum(t, curves, k, Destinations(f)[o], PowerOn(), s.cache.sources);
      } else {
        NoTerms(curves, Destinations(f)[o], PowerOn(), s.cache.sources);
      }
    }
    assert Moves(tb, s, Filter) && !Moves(tb, s, Pitch) && !Moves(tb, s, Gain);
  }

  lemma NoTerms(curves: Curves, d: int, c: Channel, v: VoiceSources)
    requires Playable(v)
    ensures SumTerms(curves, [], d, c, v) == 0
  {
  }

  /** The pitch sums of such a voice: the shift and the channel's offsets. */
  lemma PitchVoiceSums(t: ExpTable, curves: Curves, k: int, s: Sound, c: Channel)
    requires Fits(ShiftTables(t, curves, k), s) && s.cache == PitchVoice(k, false, false, false).cache
    ensures FamilySums(ShiftTables(t, curves, k), s, PitchFamily, c)
         == [c.offsets[0] + k * MOD_ONE, c.offsets[5], c.offsets[6], c.offsets[7]]
  {
    var tb := ShiftTables(t, curves, k);
    assert DynamicPart(s.cache.slots[1], tb.terms) == [];
    var sums := [c.offsets[0] + k * MOD_ONE, c.offsets[5], c.offsets[6], c.offsets[7]];
    assert forall o | 0 <= o < 4 :: FamilySum(curves, s.cache, tb.terms, PitchFamily, o, c) == sums[o];
  }

  lemma PeakTicks(on: bool)
    ensures var step, l := if on then 16384 else 0, Lfo(if on then 16384 else 0, 0);
            LfoTicks(step, l, 0) == l && LfoTicks(step, l, 1) == Lfo(if on then 32768 else 0, 0)
  {
    var step, l := if on then 16384 else 0, Lfo(if on then 16384 else 0, 0);
    assert LfoTicks(step, l, 1) == LfoTicks(step, LfoTick(step, l), 0);
  }

  /** The two moments at which such a voice is evaluated. */
  lemma PitchVoiceMoments(k: int, mod: bool, vib: bool, env: bool)
    ensures var s := PitchVoice(k, mod, vib, env); var a, b := Moment(s, 1), Moment(s, 2);
            && LfoValue(true, a.modLfo) == (if mod then MOD_ONE else 0) && LfoValue(true, b.modLfo) == 0
            && LfoValue(true, a.vibLfo) == (if vib then MOD_ONE else 0) && LfoValue(true, b.vibLfo) == 0
            && EnvelopeQ16(true, a.env) == 0 && EnvelopeQ16(true, b.env) == (if env then MOD_ONE else 0)
  {
    var s := PitchVoice(k, mod, vib, env);
    PeakTicks(true);
    PeakTicks(false);
    assert LfoQ16(16384) == MOD_ONE && LfoQ16(32768) == 0 && LfoQ16(0) == 0;
    var e1 := EnvTick(s.config.env, s.env);
    assert EnvTicks(s.config.env, s.env, 1) == EnvTicks(s.config.env, e1, 0) == e1;
    assert EnvTicks(s.config.env, s.env, 2) == EnvTicks(s.config.env, e1, 1)
        == EnvTicks(s.config.env, EnvTick(s.config.env, e1), 0);
  }

  /** For every offset on a pitch depth there is a voice for which one fold of two ticks leaves a
      different pitch than two single ticks. */
  lemma DepthOffsetBreaksFold(t: ExpTable, curves: Curves, c: Channel, generator: int)
    requires Steep(t) && generator in {5, 6, 7} && c.offsets[generator] != 0 && Pitch in c.dirtyGroups
    ensures FoldShows(t, curves, c)
  {
    hide PhaseWithCents, EvalPhase, EvalGains, Moment, MultiplyQ16, SameSent, CacheHolds, Moves, LfoValue, EnvelopeQ16,
         TableOk, Anchor, WholeCents;
    var d := c.offsets[generator];
    var before := c.offsets[0] + Tuning(c);
    var r := before % MOD_ONE;
    var k := WholeCents(r, d) - before / MOD_ONE;
    assert before + k * MOD_ONE == Height(r, d);
    var mod, vib, env := generator == 5, generator == 6, generator == 7;
    var tb, s := ShiftTables(t, curves, k), PitchVoice(k, mod, vib, env);
    PitchVoiceStarts(t, curves, k, mod, vib, env);
    SameSentExactly(tb, s, c, true, 0, 2);
    PitchVoiceMoments(k, mod, vib, env);
    var a, b := Moment(s, 1), Moment(s, 2);
    MomentFits(tb, s, 1);
    MomentFits(tb, s, 2);
    PitchAt(t, curves, c, k, a);
    PitchAt(t, curves, c, k, b);
    StepIsHeard(t, r, d);
    assert EvalPhase(tb, a, c, true) != EvalPhase(tb, b, c, true);
  }

  /** Pitch at a moment when at most one depth is lifted, and that one fully. */
  lemma PitchAt(t: ExpTable, curves: Curves, c: Channel, k: int, s: Sound)
    requires Fits(ShiftTables(t, curves, k), s) && SameVoice(s, PitchVoice(k, false, false, false).(config := s.config))
    requires s.config.modLfoToPitch == 0 == s.config.vibLfoToPitch == s.config.modEnvToPitch
    requires LfoValue(true, s.modLfo) in {0, MOD_ONE} && LfoValue(true, s.vibLfo) in {0, MOD_ONE}
    requires EnvelopeQ16(true, s.env) in {0, MOD_ONE}
    ensures var lifted := (x: int, offset: int) => if x == 0 then 0 else offset;
            EvalPhase(ShiftTables(t, curves, k), s, c, true) ==
            PhaseWithCents(t, BASE, c.offsets[0] + k * MOD_ONE + Tuning(c)
              + lifted(LfoValue(true, s.modLfo), c.offsets[5]) + lifted(LfoValue(true, s.vibLfo), c.offsets[6])
              + lifted(EnvelopeQ16(true, s.env), c.offsets[7]))
  {
    hide PhaseWithCents, MultiplyQ16, LfoValue, EnvelopeQ16, FamilySums;
    PitchVoiceSums(t, curves, k, s, c);
    OneOrNothing(c.offsets[5]);
    OneOrNothing(c.offsets[6]);
    OneOrNothing(c.offsets[7]);
  }

  lemma OneOrNothing(depth: int)
    ensures MultiplyQ16(0, depth) == 0 && MultiplyQ16(MOD_ONE, depth) == depth
  {
    MultiplyRounds(depth, 0);
    assert 0 * depth == 0 && MOD_ONE * depth == depth * MOD_ONE;
  }

  // ---- Gains ------------------------------------------------------------------------------

  /** The same for gains: no programs, and the modulation oscillator falls from its peak. */
  function GainVoice(): Sound
  {
    var s := PitchVoice(0, true, false, false);
    s.(cache := s.cache.(slots := [NO_SLOT, NO_SLOT, NO_SLOT]))
  }

  lemma GainVoiceStarts(t: ExpTable, curves: Curves)
    requires TableOk(t)
    ensures Started(ShiftTables(t, curves, 0), GainVoice(), PowerOn())
  {
    hide TableOk;
    var tb, s := ShiftTables(t, curves, 0), GainVoice();
    assert Fits(tb, s);
    assert forall f: Family :: StaticPart(s.cache.slots[FamilyCode(f)], tb.terms) == [];
    assert Moves(tb, s, Filter) && !Moves(tb, s, Pitch) && !Moves(tb, s, Gain);
  }

  /** For every offset on the volume depth there is a voice for which one fold of two ticks leaves
      different gains than two single ticks, with gains that tell every attenuation apart. */
  lemma VolumeOffsetBreaksFold(t: ExpTable, curves: Curves, c: Channel)
    requires TableOk(t) && OffsetsFit(c) && c.offsets[13] != 0 && Gain in c.dirtyGroups
    ensures FoldShows(t, curves, c)
  {
    hide EvalPhase, EvalGains, Moment, MultiplyQ16, SameSent, CacheHolds, Moves, LfoValue, GainVoice, PitchVoice,
         EnvelopeQ16, TableOk;
    var tb, s := ShiftTables(t, curves, 0), GainVoice();
    GainVoiceStarts(t, curves);
    assert Gain !in s.periodic by { PeriodicOfGainVoice(); }
    SameSentExactly(tb, s, c, true, 0, 2);
    PitchVoiceMoments(0, true, false, false);
    var a, b := Moment(s, 1), Moment(s, 2);
    SameMoments();
    MomentFits(tb, s, 1);
    MomentFits(tb, s, 2);
    GainsAt(t, curves, c, a);
    GainsAt(t, curves, c, b);
    OneOrNothing(c.offsets[13]);
    assert ToInt32(-c.offsets[13]) != 0 == ToInt32(-0);
    assert EvalGains(tb, a, c, true) != EvalGains(tb, b, c, true);
  }

  lemma PeriodicOfGainVoice()
    ensures GainVoice().periodic == {Filter}
  {
  }

  lemma SameMoments()
    ensures Moment(GainVoice(), 1).modLfo == Moment(PitchVoice(0, true, false, false), 1).modLfo
    ensures Moment(GainVoice(), 2).modLfo == Moment(PitchVoice(0, true, false, false), 2).modLfo
  {
    hide LfoTicks, EnvTicks;
  }

  lemma GainsAt(t: ExpTable, curves: Curves, c: Channel, s: Sound)
    requires Fits(ShiftTables(t, curves, 0), s) && SameVoice(s, GainVoice())
    ensures EvalGains(ShiftTables(t, curves, 0), s, c, true).0 ==
            c.offsets[48] + ToInt32(-MultiplyQ16(LfoValue(true, s.modLfo), c.offsets[13])) + if c.soft then 30 * MOD_ONE else 0
  {
    hide MultiplyQ16, LfoValue;
    var tb := ShiftTables(t, curves, 0);
    assert DynamicPart(s.cache.slots[0], tb.terms) == [];
    assert FamilySums(tb, s, GainFamily, c) == [c.offsets[13], c.offsets[48], c.offsets[17]];
    assert Depth(0, c.offsets[13]) == c.offsets[13];
  }
}
