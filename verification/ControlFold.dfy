/**
 Control-rate updates of one sounding voice. The firmware folds the elapsed milliseconds of a
 control interval into one evaluation and skips parameter families that cannot move; the host
 evaluates pitch and gain every millisecond.
 */
module ControlFold {
  import opened CInt
  import opened Channels
  import opened Modulation
  import opened Envelope
  import opened Scaling

  /** Generated tables and the parts of the sound computation that are not modelled further:
      panned gains from (base gain, pan, attenuation, pan offset), and filter coefficients from
      (cutoff, resonance). */
  datatype Tables = Tables(exp: ExpTable, curves: Curves, terms: seq<Term>,
                           gains: (int, int, int, int) -> (int, int), filters: (int, int) -> int)

  /** Generator values fixed when the note starts. */
  datatype VoiceConfig = VoiceConfig(
    env: EnvConfig, modLfoStep: U32, vibLfoStep: U32,
    modLfoToPitch: int, vibLfoToPitch: int, modEnvToPitch: int,
    modLfoToFilter: int, modEnvToFilter: int, modLfoToVolume: int,
    filterCutoff: int, filterQ: int)

  /** The continuing state of a voice and the parameters it last sent to the FPGA. */
  datatype Sound = Sound(
    config: VoiceConfig, cache: Cache, base: U32, baseGain: int, pan: int, periodic: set<Group>,
    env: EnvState, modLfo: Lfo, vibLfo: Lfo,
    phase: U32, gains: (int, int), filter: int)

  ghost predicate Fits(tb: Tables, s: Sound)
  {
    && TableOk(tb.exp)
    && Playable(s.cache.sources) && |s.cache.slots| == 3 && |s.cache.staticSums| == 10
    && forall k | 0 <= k < 3 :: SlotFits(s.cache.slots[k], tb.terms)
  }

  // ---- Evaluation -------------------------------------------------------------------------

  function LfoValue(enabled: bool, l: Lfo): int
  {
    if enabled && l.waitTicks == 0 then LfoQ16(l.phase) else 0
  }

  function EnvelopeQ16(enabled: bool, e: EnvState): int
  {
    if enabled then (e.level * MOD_ONE + Q15_FULL / 2) / Q15_FULL else 0
  }

  function ToInt32(x: int): int
  {
    var low := x % TWO_32;
    if low >= 0x8000_0000 then low - TWO_32 else low
  }

  /** A modulation depth: the generator in cents or centibels plus the destination's sum. */
  function Depth(generator: int, sum: int): int { generator * MOD_ONE + sum }

  function PitchCents(cfg: VoiceConfig, sums: seq<int>, tuning: int, mod: int, vib: int, env: int): int
    requires |sums| == 4
  {
    sums[0] + tuning
    + MultiplyQ16(mod, Depth(cfg.modLfoToPitch, sums[1]))
    + MultiplyQ16(vib, Depth(cfg.vibLfoToPitch, sums[2]))
    + MultiplyQ16(env, Depth(cfg.modEnvToPitch, sums[3]))
  }

  function Attenuation(cfg: VoiceConfig, sums: seq<int>, soft: bool, mod: int): int
    requires |sums| == 3
  {
    sums[1] + ToInt32(-MultiplyQ16(mod, Depth(cfg.modLfoToVolume, sums[0])))
    + (if soft then 30 * MOD_ONE else 0)
  }

  /** The channel's coarse and fine tuning. */
  function Tuning(c: Channel): int { c.offsets[51] + c.offsets[52] }

  function Cutoff(cfg: VoiceConfig, sums: seq<int>, mod: int, env: int): int
    requires |sums| == 3
  {
    var raw := cfg.filterCutoff * MOD_ONE + sums[0]
               + MultiplyQ16(mod, Depth(cfg.modLfoToFilter, sums[1]))
               + MultiplyQ16(env, Depth(cfg.modEnvToFilter, sums[2]));
    var clamped := Clamp(raw, 1500 * MOD_ONE, 13500 * MOD_ONE);
    TruncDiv(clamped + 32768, MOD_ONE)
  }

  function FamilySums(tb: Tables, s: Sound, f: Family, c: Channel): (sums: seq<int>)
    requires Fits(tb, s)
    ensures |sums| == |Destinations(f)|
  {
    seq(|Destinations(f)|, o requires 0 <= o < |Destinations(f)| => FamilySum(tb.curves, s.cache, tb.terms, f, o, c))
  }

  function EvalPhase(tb: Tables, s: Sound, c: Channel, enabled: bool): U32
    requires Fits(tb, s)
  {
    PhaseFrom(tb, s, FamilySums(tb, s, PitchFamily, c), Tuning(c), enabled)
  }

  function PhaseFrom(tb: Tables, s: Sound, sums: seq<int>, tuning: int, enabled: bool): U32
    requires Fits(tb, s) && |sums| == 4
  {
    PhaseWithCents(tb.exp, s.base,
      PitchCents(s.config, sums, tuning,
                 LfoValue(enabled, s.modLfo), LfoValue(enabled, s.vibLfo), EnvelopeQ16(enabled, s.env)))
  }

  function EvalGains(tb: Tables, s: Sound, c: Channel, enabled: bool): (int, int)
    requires Fits(tb, s)
  {
    GainsFrom(tb, s, FamilySums(tb, s, GainFamily, c), c.soft, enabled)
  }

  function GainsFrom(tb: Tables, s: Sound, sums: seq<int>, soft: bool, enabled: bool): (int, int)
    requires |sums| == 3
  {
    tb.gains(s.baseGain, s.pan, Attenuation(s.config, sums, soft, LfoValue(enabled, s.modLfo)), sums[2])
  }

  function EvalFilter(tb: Tables, s: Sound, c: Channel, enabled: bool): int
    requires Fits(tb, s)
  {
    tb.filters(Cutoff(s.config, FamilySums(tb, s, FilterFamily, c),
                      LfoValue(enabled, s.modLfo), EnvelopeQ16(enabled, s.env)), s.config.filterQ)
  }

  /** The voice after publishing the requested families. */
  function Refreshed(tb: Tables, s: Sound, c: Channel, enabled: bool, groups: set<Group>): Sound
    requires Fits(tb, s)
  {
    s.(phase := if Pitch in groups then EvalPhase(tb, s, c, enabled) else s.phase,
       gains := if Gain in groups then EvalGains(tb, s, c, enabled) else s.gains,
       filter := if Filter in groups then EvalFilter(tb, s, c, enabled) else s.filter)
  }

  /** Recomputes the requested families and sends those that changed, pitch before gain before
      filter. */
  method RefreshVoice(tb: Tables, s: Sound, c: Channel, enabled: bool, groups: set<Group>)
    returns (r: Sound, sent: seq<Group>)
    requires Fits(tb, s)
    ensures r == Refreshed(tb, s, c, enabled, groups)
    ensures sent == (if r.phase != s.phase then [Pitch] else [])
                    + (if r.gains != s.gains then [Gain] else [])
                    + (if r.filter != s.filter then [Filter] else [])
  {
    hide FamilySum, PitchCents, Attenuation, Cutoff, PhaseWithCents, LfoValue, EnvelopeQ16, SlotFits;
    r, sent := s, [];
    var mod, vib := LfoValue(enabled, s.modLfo), LfoValue(enabled, s.vibLfo);
    var env := EnvelopeQ16(enabled, s.env);
    if Pitch in groups {
      var sums := DestinationSums(tb.curves, s.cache, tb.terms, PitchFamily, c);
      assert sums == FamilySums(tb, s, PitchFamily, c);
      var phase := ComputePhase(tb.exp, s.base, PitchCents(s.config, sums, Tuning(c), mod, vib, env));
      if phase != r.phase {
        sent := sent + [Pitch];
        r := r.(phase := phase);
      }
    }
    if Gain in groups {
      var sums := DestinationSums(tb.curves, s.cache, tb.terms, GainFamily, c);
      assert sums == FamilySums(tb, s, GainFamily, c);
      var gains := tb.gains(s.baseGain, s.pan, Attenuation(s.config, sums, c.soft, mod), sums[2]);
      if gains != r.gains {
        sent := sent + [Gain];
        r := r.(gains := gains);
      }
    }
    if Filter in groups {
      var sums := DestinationSums(tb.curves, s.cache, tb.terms, FilterFamily, c);
      assert sums == FamilySums(tb, s, FilterFamily, c);
      var filter := tb.filters(Cutoff(s.config, sums, mod, env), s.config.filterQ);
      if filter != r.filter {
        sent := sent + [Filter];
        r := r.(filter := filter);
      }
    }
  }

  // ---- The firmware's folded step ---------------------------------------------------------

  function TimeBeforePublish(s: Sound, elapsed: U32): Sound
    requires elapsed >= 1
  {
    s.(env := EnvTicks(s.config.env, s.env, elapsed),
       modLfo := LfoTicks(s.config.modLfoStep, s.modLfo, elapsed - 1),
       vibLfo := LfoTicks(s.config.vibLfoStep, s.vibLfo, elapsed - 1))
  }

  function FinalLfoTick(s: Sound): Sound
  {
    s.(modLfo := LfoTick(s.config.modLfoStep, s.modLfo), vibLfo := LfoTick(s.config.vibLfoStep, s.vibLfo))
  }

  function Advanced(tb: Tables, s: Sound, c: Channel, enabled: bool, tickIndex: U32, elapsed: U32): Sound
    requires Fits(tb, s)
  {
    if elapsed == 0 then s
    else if s.periodic == {} then Refreshed(tb, s, c, enabled, c.dirtyGroups)
    else FinalLfoTick(Refreshed(tb, TimeBeforePublish(s, elapsed), c, enabled,
                                GroupsToPublish(c.dirtyGroups, s.periodic, enabled, tickIndex, elapsed)))
  }

  /** One voice through a whole control interval. */
  method AdvanceVoice(tb: Tables, s: Sound, c: Channel, enabled: bool, tickIndex: U32, elapsed: U32)
    returns (r: Sound, sent: seq<Group>)
    requires Fits(tb, s)
    ensures r == Advanced(tb, s, c, enabled, tickIndex, elapsed)
  {
    hide EvalPhase, EvalGains, EvalFilter, TableOk, SlotFits, EnvTicks, LfoTicks, AdvanceLfoBeforeFinal;
    r, sent := s, [];
    if elapsed == 0 {
      return;
    }
    if s.periodic == {} {
      if c.dirtyGroups != {} {
        r, sent := RefreshVoice(tb, s, c, enabled, c.dirtyGroups);
      }
      return;
    }
    var env := AdvanceElapsed(s.config.env, s.env, elapsed);
    LfoFoldExact(s.config.modLfoStep, s.modLfo, elapsed - 1);
    LfoFoldExact(s.config.vibLfoStep, s.vibLfo, elapsed - 1);
    r := s.(env := env,
            modLfo := AdvanceLfoBeforeFinal(s.config.modLfoStep, s.modLfo, elapsed - 1),
            vibLfo := AdvanceLfoBeforeFinal(s.config.vibLfoStep, s.vibLfo, elapsed - 1));
    var groups := c.dirtyGroups;
    if enabled {
      groups := groups + s.periodic * {Gain, Pitch};
      if Filter in s.periodic && (elapsed > 1 || ToU32(tickIndex + elapsed - 1) % 4 == 0) {
        groups := groups + {Filter};
      }
    }
    if groups != {} {
      r, sent := RefreshVoice(tb, r, c, enabled, groups);
    }
    r := FinalLfoTick(r);
  }

  // ---- One millisecond at a time ----------------------------------------------------------

  /** The envelope, then pitch and gain, then the oscillators: nothing folded, nothing skipped. */
  function PlainTick(tb: Tables, s: Sound, c: Channel, enabled: bool): Sound
    requires Fits(tb, s)
  {
    var e := s.(env := EnvTick(s.config.env, s.env));
    FinalLfoTick(Refreshed(tb, e, c, enabled, {Gain, Pitch}))
  }

  function PlainTicks(tb: Tables, s: Sound, c: Channel, enabled: bool, n: nat): (r: Sound)
    requires Fits(tb, s)
    ensures Fits(tb, r)
    decreases n
  {
    if n == 0 then s else PlainTicks(tb, PlainTick(tb, s, c, enabled), c, enabled, n - 1)
  }

  // ---- Which families move by themselves --------------------------------------------------

  ghost predicate Reaches(terms: seq<Term>, slot: Slot, d: int)
    requires SlotFits(slot, terms)
  {
    slot.present && exists i | slot.firstTerm <= i < slot.firstTerm + slot.termCount :: terms[i].destination == d
  }

  method ProgramHasDestination(terms: seq<Term>, slot: Slot, d: int) returns (found: bool)
    requires SlotFits(slot, terms)
    ensures found <==> Reaches(terms, slot, d)
  {
    if !slot.present {
      return false;
    }
    for local := 0 to slot.termCount
      invariant forall i | slot.firstTerm <= i < slot.firstTerm + local :: terms[i].destination != d
    {
      if terms[slot.firstTerm + local].destination == d {
        return true;
      }
    }
    return false;
  }

  /** A family is periodic when an oscillator or envelope can reach it. */
  ghost predicate Moves(tb: Tables, s: Sound, g: Group)
    requires Fits(tb, s)
  {
    match g
    case Gain => s.config.modLfoToVolume != 0 || Reaches(tb.terms, s.cache.slots[0], 13)
    case Pitch =>
      || s.config.modLfoToPitch != 0 || s.config.vibLfoToPitch != 0 || s.config.modEnvToPitch != 0
      || Reaches(tb.terms, s.cache.slots[1], 5) || Reaches(tb.terms, s.cache.slots[1], 6)
      || Reaches(tb.terms, s.cache.slots[1], 7)
    case Filter =>
      || s.config.modLfoToFilter != 0 || s.config.modEnvToFilter != 0
      || Reaches(tb.terms, s.cache.slots[2], 10) || Reaches(tb.terms, s.cache.slots[2], 11)
  }

  method VoicePeriodicGroups(tb: Tables, s: Sound) returns (groups: set<Group>)
    requires Fits(tb, s)
    ensures forall g :: g in groups <==> Moves(tb, s, g)
  {
    groups := {};
    var cfg, slots := s.config, s.cache.slots;
    var tremolo := ProgramHasDestination(tb.terms, slots[0], 13);
    if cfg.modLfoToVolume != 0 || tremolo {
      groups := groups + {Gain};
    }
    var modPitch := ProgramHasDestination(tb.terms, slots[1], 5);
    var vibPitch := ProgramHasDestination(tb.terms, slots[1], 6);
    var envPitch := ProgramHasDestination(tb.terms, slots[1], 7);
    if cfg.modLfoToPitch != 0 || cfg.vibLfoToPitch != 0 || cfg.modEnvToPitch != 0
       || modPitch || vibPitch || envPitch {
      groups := groups + {Pitch};
    }
    var modFilter := ProgramHasDestination(tb.terms, slots[2], 10);
    var envFilter := ProgramHasDestination(tb.terms, slots[2], 11);
    if cfg.modLfoToFilter != 0 || cfg.modEnvToFilter != 0 || modFilter || envFilter {
      groups := groups + {Filter};
    }
  }

  /** A voice as note-on leaves it: caches filled, periodic families computed. */
  ghost predicate Started(tb: Tables, s: Sound, c0: Channel)
  {
    && Fits(tb, s)
    && CacheHolds(tb.curves, s.cache, tb.terms, c0)
    && forall g :: g in s.periodic <==> Moves(tb, s, g)
  }

  /** No generator offset feeds a depth of this family. */
  predicate QuietDepths(c: Channel, g: Group)
  {
    match g
    case Gain => c.offsets[13] == 0
    case Pitch => c.offsets[5] == 0 && c.offsets[6] == 0 && c.offsets[7] == 0
    case Filter => c.offsets[10] == 0 && c.offsets[11] == 0
  }

  /** A family the firmware does not move by itself does not move. */
  predicate Still(s: Sound, c: Channel, enabled: bool, g: Group)
  {
    enabled && g !in s.periodic ==> QuietDepths(c, g)
  }

  // ---- Skipping and folding lose nothing --------------------------------------------------

  lemma {:induction false} NoTermNoSum(curves: Curves, ts: seq<Term>, d: int, c: Channel, v: VoiceSources)
    requires Playable(v) && forall t <- ts :: t.destination != d
    ensures SumTerms(curves, ts, d, c, v) == 0
  {
    if ts != [] {
      NoTermNoSum(curves, ts[1..], d, c, v);
    }
  }

  lemma UnreachedSumIsZero(tb: Tables, s: Sound, c0: Channel, c: Channel, f: Family, o: nat)
    requires Started(tb, s, c0) && o < |Destinations(f)| && c.offsets[Destinations(f)[o]] == 0
    requires !Reaches(tb.terms, s.cache.slots[FamilyCode(f)], Destinations(f)[o])
    ensures FamilySum(tb.curves, s.cache, tb.terms, f, o, c) == 0
  {
    var d, slot := Destinations(f)[o], s.cache.slots[FamilyCode(f)];
    assert SlotFits(slot, tb.terms);
    forall t | t in StaticPart(slot, tb.terms) || t in DynamicPart(slot, tb.terms)
      ensures t.destination != d
    {
    }
    NoTermNoSum(tb.curves, StaticPart(slot, tb.terms), d, c0, s.cache.sources);
    NoTermNoSum(tb.curves, DynamicPart(slot, tb.terms), d, c, s.cache.sources);
  }

  lemma MultiplyByZero(a: int)
    ensures MultiplyQ16(a, 0) == 0
  {
    assert a * 0 == 0;
  }

  /** Two snapshots of one voice: everything but time and what was last sent. */
  predicate SameVoice(s: Sound, r: Sound)
  {
    s.config == r.config && s.cache == r.cache && s.base == r.base && s.baseGain == r.baseGain
    && s.pan == r.pan && s.periodic == r.periodic
  }

  predicate SameTime(s: Sound, r: Sound)
  {
    s.env == r.env && s.modLfo == r.modLfo && s.vibLfo == r.vibLfo
  }

  lemma SumsIgnoreTime(tb: Tables, s: Sound, r: Sound, f: Family, c: Channel)
    requires Fits(tb, s) && SameVoice(s, r)
    ensures Fits(tb, r) && FamilySums(tb, s, f, c) == FamilySums(tb, r, f, c)
  {
  }

  lemma EvalFromTime(tb: Tables, s: Sound, r: Sound, c: Channel, enabled: bool)
    requires Fits(tb, s) && SameVoice(s, r) && SameTime(s, r)
    ensures Fits(tb, r)
    ensures EvalPhase(tb, s, c, enabled) == EvalPhase(tb, r, c, enabled)
    ensures EvalGains(tb, s, c, enabled) == EvalGains(tb, r, c, enabled)
  {
    SumsIgnoreTime(tb, s, r, PitchFamily, c);
    SumsIgnoreTime(tb, s, r, GainFamily, c);
  }

  /** A pitch that nothing moves, or whose movement is switched off, is the same at any time. */
  lemma StillPitch(tb: Tables, s: Sound, r: Sound, c0: Channel, c: Channel, enabled: bool)
    requires Started(tb, s, c0) && SameVoice(s, r) && Still(s, c, enabled, Pitch)
    requires !(enabled && Pitch in s.periodic)
    ensures Fits(tb, r) && EvalPhase(tb, s, c, enabled) == EvalPhase(tb, r, c, enabled)
  {
    hide PhaseWithCents, MultiplyQ16, FamilySum;
    SumsIgnoreTime(tb, s, r, PitchFamily, c);
    if enabled {
      assert !Moves(tb, s, Pitch);
      UnreachedSumIsZero(tb, s, c0, c, PitchFamily, 1);
      UnreachedSumIsZero(tb, s, c0, c, PitchFamily, 2);
      UnreachedSumIsZero(tb, s, c0, c, PitchFamily, 3);
      MultiplyByZero(LfoValue(true, s.modLfo));
      MultiplyByZero(LfoValue(true, s.vibLfo));
      MultiplyByZero(EnvelopeQ16(true, s.env));
      MultiplyByZero(LfoValue(true, r.modLfo));
      MultiplyByZero(LfoValue(true, r.vibLfo));
      MultiplyByZero(EnvelopeQ16(true, r.env));
    }
  }

  lemma StillGains(tb: Tables, s: Sound, r: Sound, c0: Channel, c: Channel, enabled: bool)
    requires Started(tb, s, c0) && SameVoice(s, r) && Still(s, c, enabled, Gain)
    requires !(enabled && Gain in s.periodic)
    ensures Fits(tb, r) && EvalGains(tb, s, c, enabled) == EvalGains(tb, r, c, enabled)
  {
    hide MultiplyQ16, FamilySum;
    SumsIgnoreTime(tb, s, r, GainFamily, c);
    if enabled {
      assert !Moves(tb, s, Gain);
      UnreachedSumIsZero(tb, s, c0, c, GainFamily, 0);
      MultiplyByZero(LfoValue(true, s.modLfo));
      MultiplyByZero(LfoValue(true, r.modLfo));
    }
  }

  /** What the host has sent after `n` milliseconds is one evaluation at the folded time. */
  lemma {:induction false} PlainTicksEvaluate(tb: Tables, s: Sound, c: Channel, enabled: bool, n: U32)
    requires Fits(tb, s) && n >= 1
    ensures SameVoice(PlainTicks(tb, s, c, enabled, n), s)
    ensures SameTime(PlainTicks(tb, s, c, enabled, n), FinalLfoTick(TimeBeforePublish(s, n)))
    ensures PlainTicks(tb, s, c, enabled, n).phase == EvalPhase(tb, TimeBeforePublish(s, n), c, enabled)
    ensures PlainTicks(tb, s, c, enabled, n).gains == EvalGains(tb, TimeBeforePublish(s, n), c, enabled)
    decreases n
  {
    hide EvalPhase, EvalGains, EvalFilter, Fits;
    var s1 := PlainTick(tb, s, c, enabled);
    if n == 1 {
      assert PlainTicks(tb, s, c, enabled, 1) == PlainTicks(tb, s1, c, enabled, 0) == s1;
      var e := s.(env := EnvTick(s.config.env, s.env));
      assert EnvTicks(s.config.env, s.env, 1) == EnvTicks(s.config.env, EnvTick(s.config.env, s.env), 0);
      assert TimeBeforePublish(s, 1) == e;
    } else {
      FitsAfterTick(tb, s, c, enabled);
      PlainTicksEvaluate(tb, s1, c, enabled, n - 1);
      var m, m1 := TimeBeforePublish(s, n), TimeBeforePublish(s1, n - 1);
      assert SameVoice(m, m1) && SameTime(m, m1);
      FitsAfterTime(tb, s, n);
      EvalFromTime(tb, m, m1, c, enabled);
    }
  }

  lemma FitsAfterTick(tb: Tables, s: Sound, c: Channel, enabled: bool)
    requires Fits(tb, s)
    ensures Fits(tb, PlainTick(tb, s, c, enabled))
  {
  }

  lemma FitsAfterTime(tb: Tables, s: Sound, n: U32)
    requires Fits(tb, s) && n >= 1
    ensures Fits(tb, TimeBeforePublish(s, n))
  {
  }

  lemma StillFilter(tb: Tables, s: Sound, r: Sound, c0: Channel, c: Channel, enabled: bool)
    requires Started(tb, s, c0) && SameVoice(s, r) && Still(s, c, enabled, Filter)
    requires !(enabled && Filter in s.periodic)
    ensures Fits(tb, r) && EvalFilter(tb, s, c, enabled) == EvalFilter(tb, r, c, enabled)
  {
    hide MultiplyQ16, FamilySum;
    SumsIgnoreTime(tb, s, r, FilterFamily, c);
    if enabled {
      assert !Moves(tb, s, Filter);
      UnreachedSumIsZero(tb, s, c0, c, FilterFamily, 1);
      UnreachedSumIsZero(tb, s, c0, c, FilterFamily, 2);
      MultiplyByZero(LfoValue(true, s.modLfo));
      MultiplyByZero(EnvelopeQ16(true, s.env));
      MultiplyByZero(LfoValue(true, r.modLfo));
      MultiplyByZero(EnvelopeQ16(true, r.env));
    }
  }

  /** A family that is neither dirty nor moving was last sent with its current value. */
  ghost predicate SettledIn(tb: Tables, s: Sound, c: Channel, dirty: set<Group>, enabled: bool, g: Group)
    requires Fits(tb, s)
  {
    g in dirty || (enabled && g in s.periodic) ||
    match g
    case Gain => s.gains == EvalGains(tb, s, c, enabled)
    case Pitch => s.phase == EvalPhase(tb, s, c, enabled)
    case Filter => s.filter == EvalFilter(tb, s, c, enabled)
  }

  ghost predicate Settled(tb: Tables, s: Sound, c: Channel, dirty: set<Group>, enabled: bool)
    requires Fits(tb, s)
  {
    forall g: Group :: SettledIn(tb, s, c, dirty, enabled, g)
  }

  /** A control advance settles what was dirty and unsettles nothing. */
  lemma AdvanceKeepsSettled(tb: Tables, s: Sound, c0: Channel, c: Channel, enabled: bool, tickIndex: U32, n: U32, g: Group)
    requires Started(tb, s, c0) && Still(s, c, enabled, g) && n >= 1
    requires SettledIn(tb, s, c, c.dirtyGroups, enabled, g)
    ensures var s' := Advanced(tb, s, c, enabled, tickIndex, n); Fits(tb, s') && SettledIn(tb, s', c, {}, enabled, g)
  {
    hide EvalPhase, EvalGains, EvalFilter, EnvTicks, LfoTicks;
    var s' := Advanced(tb, s, c, enabled, tickIndex, n);
    if !(enabled && g in s.periodic) {
      var m := TimeBeforePublish(s, n);
      match g
      case Gain => StillGains(tb, s, m, c0, c, enabled); StillGains(tb, s, s', c0, c, enabled);
      case Pitch => StillPitch(tb, s, m, c0, c, enabled); StillPitch(tb, s, s', c0, c, enabled);
      case Filter => StillFilter(tb, s, m, c0, c, enabled); StillFilter(tb, s, s', c0, c, enabled);
    }
  }

  /** Firmware voice `s` and voice `r`, evaluated every millisecond, agree on the pitch and gains
      that can still be heard. */
  ghost predicate InStep(tb: Tables, s: Sound, r: Sound, c: Channel, dirty: set<Group>, enabled: bool)
  {
    && Fits(tb, s) && SameVoice(s, r)
    && (s.periodic != {} ==> SameTime(s, r))
    && SettledIn(tb, s, c, dirty, enabled, Pitch) && SettledIn(tb, s, c, dirty, enabled, Gain)
  }

  /** One folded interval of n milliseconds keeps the two in step and leaves the same pitch and
      gains on the wire as n single milliseconds. */
  lemma FoldKeepsStep(tb: Tables, s: Sound, r: Sound, c0: Channel, c: Channel, enabled: bool,
                      tickIndex: U32, n: U32)
    requires Started(tb, s, c0) && Still(s, c, enabled, Pitch) && Still(s, c, enabled, Gain) && n >= 1
    requires InStep(tb, s, r, c, c.dirtyGroups, enabled) && Fits(tb, r)
    ensures var s' := Advanced(tb, s, c, enabled, tickIndex, n);
            var r' := PlainTicks(tb, r, c, enabled, n);
            && Started(tb, s', c0) && InStep(tb, s', r', c, {}, enabled)
            && s'.phase == r'.phase && s'.gains == r'.gains
  {
    hide EvalPhase, EvalGains, EvalFilter, EnvTicks, LfoTicks, PlainTicks;
    var s' := Advanced(tb, s, c, enabled, tickIndex, n);
    var m := TimeBeforePublish(s, n);
    PlainTicksEvaluate(tb, r, c, enabled, n);
    var last := TimeBeforePublish(r, n);
    if s.periodic != {} {
      EvalFromTime(tb, m, last, c, enabled);
    }
    if !(enabled && Pitch in s.periodic) {
      StillPitch(tb, s, m, c0, c, enabled);
      StillPitch(tb, s, last, c0, c, enabled);
      StillPitch(tb, s, s', c0, c, enabled);
    }
    if !(enabled && Gain in s.periodic) {
      StillGains(tb, s, m, c0, c, enabled);
      StillGains(tb, s, last, c0, c, enabled);
      StillGains(tb, s, s', c0, c, enabled);
    }
    StartedAfter(tb, s, s', c0);
  }

  lemma StartedAfter(tb: Tables, s: Sound, s': Sound, c0: Channel)
    requires Started(tb, s, c0) && SameVoice(s, s')
    ensures Started(tb, s', c0)
  {
    forall g
      ensures Moves(tb, s', g) == Moves(tb, s, g)
    {
    }
  }

  // ---- One fold against single advances ---------------------------------------------------

  /** The channel once a control interval has completed. */
  function Clean(c: Channel): Channel { c.(dirtyGroups := {}) }

  /** `n` control advances of one tick, with no event in between. */
  function SingleAdvances(tb: Tables, s: Sound, c: Channel, enabled: bool, tickIndex: U32, n: nat): (r: Sound)
    requires Fits(tb, s)
    ensures Fits(tb, r)
    decreases n
  {
    if n == 0 then s
    else SingleAdvances(tb, Advanced(tb, s, c, enabled, tickIndex, 1), Clean(c), enabled,
                        ToU32(tickIndex + 1), n - 1)
  }

  lemma {:induction false} CleanSum(curves: Curves, ts: seq<Term>, d: int, c: Channel, v: VoiceSources)
    requires Playable(v)
    ensures SumTerms(curves, ts, d, c, v) == SumTerms(curves, ts, d, Clean(c), v)
  {
    if ts != [] {
      CleanSum(curves, ts[1..], d, c, v);
    }
  }

  lemma CleanFamilySums(tb: Tables, s: Sound, f: Family, c: Channel)
    requires Fits(tb, s)
    ensures FamilySums(tb, s, f, c) == FamilySums(tb, s, f, Clean(c))
  {
    forall o | 0 <= o < |Destinations(f)|
      ensures FamilySum(tb.curves, s.cache, tb.terms, f, o, c) == FamilySum(tb.curves, s.cache, tb.terms, f, o, Clean(c))
    {
      CleanSum(tb.curves, DynamicPart(s.cache.slots[FamilyCode(f)], tb.terms), Destinations(f)[o], c, s.cache.sources);
    }
  }

  /** Dirty marks are bookkeeping: they change no evaluation. */
  lemma CleanChangesNothing(tb: Tables, s: Sound, c: Channel, enabled: bool)
    requires Fits(tb, s)
    ensures EvalPhase(tb, s, c, enabled) == EvalPhase(tb, s, Clean(c), enabled)
    ensures EvalGains(tb, s, c, enabled) == EvalGains(tb, s, Clean(c), enabled)
  {
    CleanFamilySums(tb, s, PitchFamily, c);
    CleanFamilySums(tb, s, GainFamily, c);
  }

  /** The pitch a voice has sent after an interval in which moving pitch was evaluated at `last`
      and dirty pitch at `first`. */
  function SentPhase(tb: Tables, s: Sound, first: Sound, last: Sound, c: Channel, enabled: bool): U32
    requires Fits(tb, first) && Fits(tb, last)
  {
    if enabled && Pitch in s.periodic then EvalPhase(tb, last, c, enabled)
    else if Pitch in c.dirtyGroups then EvalPhase(tb, first, c, enabled)
    else s.phase
  }

  function SentGains(tb: Tables, s: Sound, first: Sound, last: Sound, c: Channel, enabled: bool): (int, int)
    requires Fits(tb, first) && Fits(tb, last)
  {
    if enabled && Gain in s.periodic then EvalGains(tb, last, c, enabled)
    else if Gain in c.dirtyGroups then EvalGains(tb, first, c, enabled)
    else s.gains
  }

  /** The moment at which the n-th tick of an interval evaluates; time stands still in a voice
      that nothing moves. */
  function Moment(s: Sound, n: U32): Sound
    requires n >= 1
  {
    if s.periodic == {} then s else TimeBeforePublish(s, n)
  }

  lemma MomentFits(tb: Tables, s: Sound, n: U32)
    requires Fits(tb, s) && n >= 1
    ensures Fits(tb, Moment(s, n)) && SameVoice(s, Moment(s, n))
  {
  }

  /** A fold evaluates everything at its last tick. */
  lemma FoldSends(tb: Tables, s: Sound, c: Channel, enabled: bool, tickIndex: U32, n: U32)
    requires Fits(tb, s) && n >= 1
    ensures Fits(tb, Moment(s, n))
    ensures var r := Advanced(tb, s, c, enabled, tickIndex, n);
            && r.phase == SentPhase(tb, s, Moment(s, n), Moment(s, n), c, enabled)
            && r.gains == SentGains(tb, s, Moment(s, n), Moment(s, n), c, enabled)
  {
    hide EvalPhase, EvalGains, EvalFilter, EnvTicks, LfoTicks;
    MomentFits(tb, s, n);
  }

  /** Single advances evaluate what was dirty at their first tick and what moves at their last. */
  lemma {:induction false} SinglesSend(tb: Tables, s: Sound, c: Channel, enabled: bool, tickIndex: U32, n: U32)
    requires Fits(tb, s) && n >= 1
    ensures Fits(tb, Moment(s, 1)) && Fits(tb, Moment(s, n))
    ensures var r := SingleAdvances(tb, s, c, enabled, tickIndex, n);
            && r.phase == SentPhase(tb, s, Moment(s, 1), Moment(s, n), c, enabled)
            && r.gains == SentGains(tb, s, Moment(s, 1), Moment(s, n), c, enabled)
    decreases n
  {
    hide EvalPhase, EvalGains, EvalFilter, EnvTick, LfoTick, Advanced;
    MomentFits(tb, s, 1);
    MomentFits(tb, s, n);
    FoldSends(tb, s, c, enabled, tickIndex, 1);
    var s1 := Advanced(tb, s, c, enabled, tickIndex, 1);
    AdvancedMoment(tb, s, c, enabled, tickIndex, n);
    assert SingleAdvances(tb, s, c, enabled, tickIndex, n)
        == SingleAdvances(tb, s1, Clean(c), enabled, ToU32(tickIndex + 1), n - 1);
    if n == 1 {
      assert SingleAdvances(tb, s1, Clean(c), enabled, ToU32(tickIndex + 1), 0) == s1;
    } else {
      SinglesSend(tb, s1, Clean(c), enabled, ToU32(tickIndex + 1), n - 1);
      MomentFits(tb, s1, n - 1);
      var m, m1 := Moment(s, n), Moment(s1, n - 1);
      EvalFromTime(tb, m, m1, c, enabled);
      CleanChangesNothing(tb, m1, c, enabled);
    }
  }

  /** After one advance, the n-th tick is the tick before the n-th. */
  lemma AdvancedMoment(tb: Tables, s: Sound, c: Channel, enabled: bool, tickIndex: U32, n: U32)
    requires Fits(tb, s) && n >= 1
    ensures var s1 := Advanced(tb, s, c, enabled, tickIndex, 1);
            && SameVoice(s, s1) && Fits(tb, s1)
            && (n > 1 ==> SameVoice(Moment(s, n), Moment(s1, n - 1)) && SameTime(Moment(s, n), Moment(s1, n - 1)))
  {
    hide EvalPhase, EvalGains, EvalFilter;
    if s.periodic != {} {
      var e := TimeBeforePublish(s, 1);
      assert EnvTicks(s.config.env, s.env, 1) == EnvTicks(s.config.env, EnvTick(s.config.env, s.env), 0);
      assert e.modLfo == s.modLfo && e.vibLfo == s.vibLfo;
      if n > 1 {
        assert LfoTicks(s.config.modLfoStep, s.modLfo, n - 1)
            == LfoTicks(s.config.modLfoStep, LfoTick(s.config.modLfoStep, s.modLfo), n - 2);
        assert LfoTicks(s.config.vibLfoStep, s.vibLfo, n - 1)
            == LfoTicks(s.config.vibLfoStep, LfoTick(s.config.vibLfoStep, s.vibLfo), n - 2);
      }
    }
  }

  /** Folding n ticks sends the pitch and the gains that n single ticks send. */
  ghost predicate SameSent(tb: Tables, s: Sound, c: Channel, enabled: bool, tickIndex: U32, n: U32)
    requires Fits(tb, s)
  {
    var folded, single := Advanced(tb, s, c, enabled, tickIndex, n), SingleAdvances(tb, s, c, enabled, tickIndex, n);
    folded.phase == single.phase && folded.gains == single.gains
  }

  /** Exactly when that is so: a family that is dirty, and that the firmware does not move by
      itself, is evaluated at the last tick by the one and at the first tick by the other. */
  lemma SameSentExactly(tb: Tables, s: Sound, c: Channel, enabled: bool, tickIndex: U32, n: U32)
    requires Fits(tb, s) && n >= 1
    ensures Fits(tb, Moment(s, 1)) && Fits(tb, Moment(s, n))
    ensures SameSent(tb, s, c, enabled, tickIndex, n) <==>
              && (Pitch in c.dirtyGroups && !(enabled && Pitch in s.periodic) ==>
                    EvalPhase(tb, Moment(s, 1), c, enabled) == EvalPhase(tb, Moment(s, n), c, enabled))
              && (Gain in c.dirtyGroups && !(enabled && Gain in s.periodic) ==>
                    EvalGains(tb, Moment(s, 1), c, enabled) == EvalGains(tb, Moment(s, n), c, enabled))
  {
    hide EvalPhase, EvalGains, Advanced, SingleAdvances, Moment;
    FoldSends(tb, s, c, enabled, tickIndex, n);
    SinglesSend(tb, s, c, enabled, tickIndex, n);
  }

  /** Nothing the firmware leaves to dirty marks moves within an interval. */
  predicate FoldGuard(s: Sound, c: Channel, enabled: bool)
  {
    s.periodic != {} ==>
      && (Pitch in c.dirtyGroups ==> Still(s, c, enabled, Pitch))
      && (Gain in c.dirtyGroups ==> Still(s, c, enabled, Gain))
  }

  /** One control advance of n ticks leaves on the wire the same pitch and gains as n advances of
      one tick, also for voices and families the firmware skips. */
  lemma FoldEqualsSingles(tb: Tables, s: Sound, c0: Channel, c: Channel, enabled: bool, tickIndex: U32, n: U32)
    requires Started(tb, s, c0) && FoldGuard(s, c, enabled)
    ensures SameSent(tb, s, c, enabled, tickIndex, n)
  {
    hide EvalPhase, EvalGains, Moment;
    if n == 0 {
      assert SingleAdvances(tb, s, c, enabled, tickIndex, 0) == s;
    } else {
      SameSentExactly(tb, s, c, enabled, tickIndex, n);
      StandsStill(tb, s, c0, c, enabled, n);
    }
  }

  lemma StandsStill(tb: Tables, s: Sound, c0: Channel, c: Channel, enabled: bool, n: U32)
    requires Started(tb, s, c0) && FoldGuard(s, c, enabled) && n >= 1
    ensures Fits(tb, Moment(s, 1)) && Fits(tb, Moment(s, n))
    ensures Pitch in c.dirtyGroups && !(enabled && Pitch in s.periodic) ==>
              EvalPhase(tb, Moment(s, 1), c, enabled) == EvalPhase(tb, Moment(s, n), c, enabled)
    ensures Gain in c.dirtyGroups && !(enabled && Gain in s.periodic) ==>
              EvalGains(tb, Moment(s, 1), c, enabled) == EvalGains(tb, Moment(s, n), c, enabled)
  {
    hide EvalPhase, EvalGains, EnvTicks, LfoTicks;
    MomentFits(tb, s, 1);
    MomentFits(tb, s, n);
    if s.periodic != {} {
      if Pitch in c.dirtyGroups && !(enabled && Pitch in s.periodic) {
        StillPitch(tb, s, Moment(s, 1), c0, c, enabled);
        StillPitch(tb, s, Moment(s, n), c0, c, enabled);
      }
      if Gain in c.dirtyGroups && !(enabled && Gain in s.periodic) {
        StillGains(tb, s, Moment(s, 1), c0, c, enabled);
        StillGains(tb, s, Moment(s, n), c0, c, enabled);
      }
    }
  }

  // ---- The host's own ticks ---------------------------------------------------------------

  /** The host sums a whole program every time, and knows no generator offsets. */
  function HostSums(tb: Tables, s: Sound, f: Family, c: Channel): (sums: seq<int>)
    requires Fits(tb, s)
    ensures |sums| == |Destinations(f)|
  {
    var slot := s.cache.slots[FamilyCode(f)];
    seq(|Destinations(f)|, o requires 0 <= o < |Destinations(f)| =>
          HostSum(tb.curves, StaticPart(slot, tb.terms) + DynamicPart(slot, tb.terms), Destinations(f)[o], c, s.cache.sources))
  }

  /** One millisecond of the host. */
  function HostTick(tb: Tables, s: Sound, c: Channel): Sound
    requires Fits(tb, s)
  {
    var e := s.(env := EnvTick(s.config.env, s.env));
    FinalLfoTick(e.(phase := PhaseFrom(tb, e, HostSums(tb, e, PitchFamily, c), 0, true),
                    gains := GainsFrom(tb, e, HostSums(tb, e, GainFamily, c), c.soft, true)))
  }

  function HostTicks(tb: Tables, s: Sound, c: Channel, n: nat): Sound
    requires Fits(tb, s)
    decreases n
  {
    if n == 0 then s else HostTicks(tb, HostTick(tb, s, c), c, n - 1)
  }

  /** The host and the firmware sum alike: no offsets, static prefixes that are static, and every
      source read alike. */
  ghost predicate HostAlike(tb: Tables, s: Sound, c: Channel)
    requires Fits(tb, s)
  {
    && Tuning(c) == 0
    && forall f: Family | f != FilterFamily ::
         var slot := s.cache.slots[FamilyCode(f)];
         && (forall o | 0 <= o < |Destinations(f)| :: c.offsets[Destinations(f)[o]] == 0)
         && (forall t <- StaticPart(slot, tb.terms) :: IsStatic(t) && Packable(t))
         && (forall t <- StaticPart(slot, tb.terms) + DynamicPart(slot, tb.terms) ::
               SourceAgrees(tb.curves, t.source, c) && SourceAgrees(tb.curves, t.amountSource, c))
  }

  lemma HostSumsAlike(tb: Tables, s: Sound, c0: Channel, c: Channel, f: Family)
    requires Fits(tb, s) && CacheHolds(tb.curves, s.cache, tb.terms, c0) && HostAlike(tb, s, c) && f != FilterFamily
    ensures HostSums(tb, s, f, c) == FamilySums(tb, s, f, c)
  {
    var slot, v := s.cache.slots[FamilyCode(f)], s.cache.sources;
    var a, b := StaticPart(slot, tb.terms), DynamicPart(slot, tb.terms);
    forall o | 0 <= o < |Destinations(f)|
      ensures HostSum(tb.curves, a + b, Destinations(f)[o], c, v) == FamilySum(tb.curves, s.cache, tb.terms, f, o, c)
    {
      var d := Destinations(f)[o];
      HostSumAgrees(tb.curves, a + b, d, c, v);
      SumTermsConcat(tb.curves, a, b, d, c, v);
      StaticSum(tb.curves, a, d, c0, c, v);
    }
  }

  /** There the host's milliseconds are the plain ones. */
  lemma {:induction false} HostTicksArePlain(tb: Tables, s: Sound, c0: Channel, c: Channel, n: nat)
    requires Fits(tb, s) && CacheHolds(tb.curves, s.cache, tb.terms, c0) && HostAlike(tb, s, c)
    ensures HostTicks(tb, s, c, n) == PlainTicks(tb, s, c, true, n)
    decreases n
  {
    hide HostSums, FamilySums, PhaseFrom, GainsFrom, EvalFilter, StaticPart, DynamicPart;
    if n != 0 {
      var e := s.(env := EnvTick(s.config.env, s.env));
      HostSumsAlike(tb, e, c0, c, PitchFamily);
      HostSumsAlike(tb, e, c0, c, GainFamily);
      assert HostTick(tb, s, c) == PlainTick(tb, s, c, true);
      HostTicksArePlain(tb, PlainTick(tb, s, c, true), c0, c, n - 1);
    }
  }

  /** One folded interval leaves the pitch of n plain milliseconds if and only if the pitch was up to
      date. */
  lemma FoldMeetsPlainPitch(tb: Tables, s: Sound, c0: Channel, c: Channel, enabled: bool, tickIndex: U32, n: U32)
    requires Started(tb, s, c0) && Still(s, c, enabled, Pitch) && n >= 1
    ensures Advanced(tb, s, c, enabled, tickIndex, n).phase == PlainTicks(tb, s, c, enabled, n).phase <==>
            SettledIn(tb, s, c, c.dirtyGroups, enabled, Pitch)
  {
    hide EvalPhase, EvalGains, EvalFilter, EnvTicks, LfoTicks, PlainTicks;
    var m := TimeBeforePublish(s, n);
    PlainTicksEvaluate(tb, s, c, enabled, n);
    if !(enabled && Pitch in s.periodic) {
      StillPitch(tb, s, m, c0, c, enabled);
    }
  }

  lemma FoldMeetsPlainGains(tb: Tables, s: Sound, c0: Channel, c: Channel, enabled: bool, tickIndex: U32, n: U32)
    requires Started(tb, s, c0) && Still(s, c, enabled, Gain) && n >= 1
    ensures Advanced(tb, s, c, enabled, tickIndex, n).gains == PlainTicks(tb, s, c, enabled, n).gains <==>
            SettledIn(tb, s, c, c.dirtyGroups, enabled, Gain)
  {
    hide EvalPhase, EvalGains, EvalFilter, EnvTicks, LfoTicks, PlainTicks;
    var m := TimeBeforePublish(s, n);
    PlainTicksEvaluate(tb, s, c, enabled, n);
    if !(enabled && Gain in s.periodic) {
      StillGains(tb, s, m, c0, c, enabled);
    }
  }

  /** The fold meets the host: n folded ticks leave the pitch and gains of n host milliseconds, each
      if and only if it was up to date. */
  lemma FoldMeetsHost(tb: Tables, s: Sound, c0: Channel, c: Channel, tickIndex: U32, n: U32)
    requires Started(tb, s, c0) && HostAlike(tb, s, c) && n >= 1
    ensures var folded, host := Advanced(tb, s, c, true, tickIndex, n), HostTicks(tb, s, c, n);
            && (folded.phase == host.phase <==> SettledIn(tb, s, c, c.dirtyGroups, true, Pitch))
            && (folded.gains == host.gains <==> SettledIn(tb, s, c, c.dirtyGroups, true, Gain))
  {
    hide EvalPhase, EvalGains, EvalFilter, Advanced, PlainTicks, HostTicks, SettledIn;
    assert Destinations(PitchFamily)[1] == 5 && Destinations(PitchFamily)[2] == 6 && Destinations(PitchFamily)[3] == 7;
    assert Destinations(GainFamily)[0] == 13;
    HostTicksArePlain(tb, s, c0, c, n);
    FoldMeetsPlainPitch(tb, s, c0, c, true, tickIndex, n);
    FoldMeetsPlainGains(tb, s, c0, c, true, tickIndex, n);
  }
}
