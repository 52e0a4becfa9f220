/**
 What note starts and channel messages do to voices that only dirty families will bring up to date.
 A message marks some families dirty; every family it can reach must be among them.
 */
module ControlEvents {
  import opened CInt
  import opened Channels
  import opened Modulation
  import opened Envelope
  import opened Scaling
  import opened ControlFold

  // ---- Note start -------------------------------------------------------------------------

  /** The first pitch, gains and filter, sent inside the start command, leave oscillators out. */
  function StartPhase(tb: Tables, s: Sound, c: Channel, enabled: bool): U32
    requires Fits(tb, s)
  {
    var sums := FamilySums(tb, s, PitchFamily, c);
    PhaseWithCents(tb.exp, s.base,
      sums[0] + c.offsets[51] + c.offsets[52]
      + MultiplyQ16(EnvelopeQ16(enabled, s.env), Depth(s.config.modEnvToPitch, sums[3])))
  }

  function StartGains(tb: Tables, s: Sound, c: Channel): (int, int)
    requires Fits(tb, s)
  {
    var sums := FamilySums(tb, s, GainFamily, c);
    tb.gains(s.baseGain, s.pan, sums[1] + (if c.soft then 30 * MOD_ONE else 0), sums[2])
  }

  function StartFilter(tb: Tables, s: Sound, c: Channel, enabled: bool): int
    requires Fits(tb, s)
  {
    var sums := FamilySums(tb, s, FilterFamily, c);
    var raw := s.config.filterCutoff * MOD_ONE + sums[0]
               + MultiplyQ16(EnvelopeQ16(enabled, s.env), Depth(s.config.modEnvToFilter, sums[2]));
    tb.filters(TruncDiv(Clamp(raw, 1500 * MOD_ONE, 13500 * MOD_ONE) + 32768, MOD_ONE), s.config.filterQ)
  }

  /** A starting voice is settled: with oscillators at phase zero nothing was left out. */
  lemma StartSettles(tb: Tables, s: Sound, c: Channel, enabled: bool)
    requires Fits(tb, s) && s.modLfo.phase == 0 && s.vibLfo.phase == 0
    requires s.phase == StartPhase(tb, s, c, enabled) && s.gains == StartGains(tb, s, c)
    requires s.filter == StartFilter(tb, s, c, enabled)
    ensures Settled(tb, s, c, {}, enabled)
  {
    hide PhaseWithCents, FamilySum, EnvelopeQ16;
    assert LfoValue(enabled, s.modLfo) == 0 && LfoValue(enabled, s.vibLfo) == 0;
    var sums, gainSums := FamilySums(tb, s, PitchFamily, c), FamilySums(tb, s, GainFamily, c);
    ZeroTimes(Depth(s.config.modLfoToPitch, sums[1]));
    ZeroTimes(Depth(s.config.vibLfoToPitch, sums[2]));
    ZeroTimes(Depth(s.config.modLfoToVolume, gainSums[0]));
    ZeroTimes(Depth(s.config.modLfoToFilter, FamilySums(tb, s, FilterFamily, c)[1]));
  }

  lemma ZeroTimes(a: int)
    ensures MultiplyQ16(0, a) == 0
  {
    assert 0 * a == 0;
  }

  // ---- Channel messages -------------------------------------------------------------------

  /** What a message writes: the pitch wheel, the wheel's range, a controller value that is stored
      without any mark, or anything together with a mark on every family. The third is a channel
      mode message, controller 120 or one from 123 on; it is also what is left of any controller
      message whose voice commands were refused. */
  datatype Kind = Wheel | Range | Unmarked(controller: U8) | Marked

  datatype Change =
    | Bend(wheel: int)
    | SetRange(semitones: U8, cents: U8)
    | Store(controller: U8, value: U8)
    | Rewrite(channel: Channel)

  predicate Makes(kind: Kind, change: Change)
  {
    match change
    case Bend(_) => kind == Wheel
    case SetRange(_, _) => kind == Range
    case Store(controller, _) => kind == Unmarked(controller) && controller < 128
    case Rewrite(_) => kind == Marked
  }

  function Changed(c: Channel, change: Change): Channel
  {
    match change
    case Bend(wheel) => c.(pitchBend := Clamp(wheel, -8192, 8191))
    case SetRange(semitones, cents) => c.(bendSemitones := semitones, bendCents := cents)
    case Store(controller, value) => if controller < 128 then c.(cc := c.cc[controller := value]) else c
    case Rewrite(channel) => channel
  }

  function MarkedBy(kind: Kind): set<Group>
  {
    match kind
    case Wheel => {Pitch}
    case Range => {Pitch}
    case Unmarked(_) => {}
    case Marked => ALL_GROUPS
  }

  /** Whether a modulation source reads what the message writes. */
  predicate Reads(kind: Kind, source: U16)
  {
    match kind
    case Wheel => source != 0 && !IsController(source) && Index(source) == 14
    case Range => source != 0 && !IsController(source) && Index(source) == 16
    case Unmarked(controller) => IsController(source) && Index(source) == controller
    case Marked => true
  }

  predicate TermReads(kind: Kind, t: Term) { Reads(kind, t.source) || Reads(kind, t.amountSource) }

  function GroupOf(f: Family): Group
  {
    match f case GainFamily => Gain case PitchFamily => Pitch case FilterFamily => Filter
  }

  /** No term of this family's program that can still change reads what the message writes. */
  ghost predicate FamilyFree(tb: Tables, s: Sound, kind: Kind, f: Family)
    requires Fits(tb, s)
  {
    forall t <- DynamicPart(s.cache.slots[FamilyCode(f)], tb.terms) :: !TermReads(kind, t)
  }

  lemma SourceUnmoved(curves: Curves, kind: Kind, change: Change, source: U16, c: Channel, v: VoiceSources)
    requires Playable(v) && Makes(kind, change) && !Reads(kind, source)
    ensures SourceMcu(curves, source, c, v) == SourceMcu(curves, source, Changed(c, change), v)
  {
  }

  lemma {:induction false} SumUnmoved(curves: Curves, kind: Kind, change: Change, ts: seq<Term>, d: int, c: Channel, v: VoiceSources)
    requires Playable(v) && Makes(kind, change) && forall t <- ts :: !TermReads(kind, t)
    ensures SumTerms(curves, ts, d, c, v) == SumTerms(curves, ts, d, Changed(c, change), v)
  {
    hide SourceMcu, MultiplyQ16, Changed;
    if ts != [] {
      assert ts[0] in ts;
      SourceUnmoved(curves, kind, change, ts[0].source, c, v);
      SourceUnmoved(curves, kind, change, ts[0].amountSource, c, v);
      SumUnmoved(curves, kind, change, ts[1..], d, c, v);
    }
  }

  lemma FamilyUnmoved(tb: Tables, s: Sound, kind: Kind, change: Change, f: Family, c: Channel)
    requires Fits(tb, s) && Makes(kind, change) && kind != Marked && FamilyFree(tb, s, kind, f)
    ensures FamilySums(tb, s, f, c) == FamilySums(tb, s, f, Changed(c, change))
  {
    forall o | 0 <= o < |Destinations(f)|
      ensures FamilySum(tb.curves, s.cache, tb.terms, f, o, c) == FamilySum(tb.curves, s.cache, tb.terms, f, o, Changed(c, change))
    {
      SumUnmoved(tb.curves, kind, change, DynamicPart(s.cache.slots[FamilyCode(f)], tb.terms), Destinations(f)[o], c, s.cache.sources);
    }
  }

  /** A message of any kind keeps a voice settled when each family that reads what it writes is
      among those it marks. */
  lemma MessageKeepsSettled(tb: Tables, s: Sound, c: Channel, kind: Kind, change: Change, enabled: bool)
    requires Fits(tb, s) && Makes(kind, change) && Settled(tb, s, c, c.dirtyGroups, enabled)
    requires forall f: Family | GroupOf(f) !in MarkedBy(kind) :: FamilyFree(tb, s, kind, f)
    ensures Settled(tb, s, Changed(c, change), c.dirtyGroups + MarkedBy(kind), enabled)
  {
    hide PhaseFrom, GainsFrom, Cutoff, FamilySums, FamilyFree, Reads;
    var c', marks := Changed(c, change), MarkedBy(kind);
    forall g: Group
      ensures SettledIn(tb, s, c', c.dirtyGroups + marks, enabled, g)
    {
      assert SettledIn(tb, s, c, c.dirtyGroups, enabled, g);
      if g !in marks {
        var f := match g case Gain => GainFamily case Pitch => PitchFamily case Filter => FilterFamily;
        assert GroupOf(f) == g;
        FamilyUnmoved(tb, s, kind, change, f, c);
        assert Tuning(c) == Tuning(c') && c.soft == c'.soft;
      }
    }
  }

  // ---- Which programs a message is safe for -----------------------------------------------

  /** Messages of this kind leave every voice settled whose programs read what they write at most
      in the families `readers`. */
  ghost predicate MessageSafe(kind: Kind, readers: set<Family>)
  {
    forall tb: Tables, s: Sound, c: Channel, change: Change, enabled: bool ::
      Fits(tb, s) && Makes(kind, change) && Settled(tb, s, c, c.dirtyGroups, enabled)
      && (forall f: Family | f !in readers :: FamilyFree(tb, s, kind, f)) ==>
        Settled(tb, s, Changed(c, change), c.dirtyGroups + MarkedBy(kind), enabled)
  }

  /** Exactly the families a message marks may read what it writes. For the pitch wheel and its
      range that is pitch alone: gain and filter programs that read them are left stale. */
  lemma MessageSafeExactly(kind: Kind, readers: set<Family>)
    requires kind.Unmarked? ==> kind.controller < 128
    ensures MessageSafe(kind, readers) <==> forall f <- readers :: GroupOf(f) in MarkedBy(kind)
  {
    hide Fits, Settled, FamilyFree;
    if f :| f in readers && GroupOf(f) !in MarkedBy(kind) {
      StaleVoice(kind, f);
    } else {
      forall tb: Tables, s: Sound, c: Channel, change: Change, enabled: bool |
        Fits(tb, s) && Makes(kind, change) && Settled(tb, s, c, c.dirtyGroups, enabled)
        && (forall f: Family | f !in readers :: FamilyFree(tb, s, kind, f))
        ensures Settled(tb, s, Changed(c, change), c.dirtyGroups + MarkedBy(kind), enabled)
      {
        MessageKeepsSettled(tb, s, c, kind, change, enabled);
      }
    }
  }

  /** A source that reads what the message writes, and the message that moves it. */
  function SourceFor(kind: Kind): U16
    requires kind.Unmarked? ==> kind.controller < 128
  {
    match kind case Wheel => 14 case Range => 16 case Unmarked(controller) => 0x80 + controller case Marked => 0
  }

  function ChangeFor(kind: Kind): Change
  {
    match kind
    case Wheel => Bend(8191)
    case Range => SetRange(127, 0)
    case Unmarked(controller) => Store(controller, 127)
    case Marked => Rewrite(PowerOn())
  }

  /** A channel on which the message changes something: power-on with all controllers at zero. */
  function QuietStart(): Channel { PowerOn().(cc := seq(MIDI_VALUES, _ => 0)) }

  function FirstDestination(f: Family): U16
  {
    match f case GainFamily => 48 case PitchFamily => 0 case FilterFamily => 8
  }

  function ReaderTerm(kind: Kind, f: Family): Term
    requires kind.Unmarked? ==> kind.controller < 128
  {
    var source := SourceFor(kind);
    Term(source, FirstDestination(f), 1200, 0, 0, SourceDependencies(source))
  }

  /** One program with one term, for the family `f`. */
  function ReaderTables(exp: ExpTable, kind: Kind, f: Family): Tables
    requires kind.Unmarked? ==> kind.controller < 128
  {
    Tables(exp, (id, x) => if x < 64 then 0 else MOD_ONE, [ReaderTerm(kind, f)],
           (gain, pan, attenuation, offset) => (attenuation, offset), (cutoff, q) => cutoff)
  }

  function ReaderVoice(f: Family): Sound
  {
    var slot := (g: Family) => if f == g then Slot(true, 0, 1, 0) else Slot(false, 0, 0, 0);
    Sound(VoiceConfig(EnvConfig(0, 1, 0, 1, 1, 0, false), 0, 0, 0, 0, 0, 0, 0, 0, 5000, 0),
          Cache(VoiceSources(60, 100, -1), [slot(GainFamily), slot(PitchFamily), slot(FilterFamily)], seq(10, _ => 0)),
          0x1000, 0, 0, {}, EnvState(Idle, 0, 0, 0, 0), Lfo(0, 0), Lfo(0, 0), 0, (0, 0), 0)
  }

  /** The same voice once everything has been sent. */
  function UpToDate(tb: Tables, s: Sound, c: Channel, enabled: bool): Sound
    requires Fits(tb, s)
  {
    s.(phase := EvalPhase(tb, s, c, enabled), gains := EvalGains(tb, s, c, enabled), filter := EvalFilter(tb, s, c, enabled))
  }

  lemma UpToDateIsSettled(tb: Tables, s: Sound, c: Channel, enabled: bool)
    requires Fits(tb, s)
    ensures var r := UpToDate(tb, s, c, enabled);
            && Fits(tb, r) && SameVoice(s, r) && Settled(tb, r, c, c.dirtyGroups, enabled)
            && r.phase == EvalPhase(tb, s, c, enabled) && r.gains == EvalGains(tb, s, c, enabled)
            && r.filter == EvalFilter(tb, s, c, enabled)
    ensures forall c': Channel ::
              var r := UpToDate(tb, s, c, enabled);
              && EvalPhase(tb, r, c', enabled) == EvalPhase(tb, s, c', enabled)
              && EvalGains(tb, r, c', enabled) == EvalGains(tb, s, c', enabled)
              && EvalFilter(tb, r, c', enabled) == EvalFilter(tb, s, c', enabled)
  {
    hide PhaseFrom, GainsFrom, Cutoff;
    var r := UpToDate(tb, s, c, enabled);
    assert SameVoice(s, r) && SameTime(s, r);
    forall c': Channel
      ensures && EvalPhase(tb, r, c', enabled) == EvalPhase(tb, s, c', enabled)
              && EvalGains(tb, r, c', enabled) == EvalGains(tb, s, c', enabled)
              && EvalFilter(tb, r, c', enabled) == EvalFilter(tb, s, c', enabled)
    {
      EvalFromTime(tb, s, r, c', enabled);
      SumsIgnoreTime(tb, s, r, FilterFamily, c');
    }
  }

  /** For every family a message does not mark there is a settled voice, reading the message's
      value in that family alone, that the message leaves stale. */
  lemma StaleVoice(kind: Kind, f: Family)
    requires (kind.Unmarked? ==> kind.controller < 128) && GroupOf(f) !in MarkedBy(kind)
    ensures exists tb: Tables, s: Sound, c: Channel, change: Change, enabled: bool ::
              && Fits(tb, s) && Makes(kind, change) && Settled(tb, s, c, c.dirtyGroups, enabled)
              && (forall g: Family | g != f :: FamilyFree(tb, s, kind, g))
              && !Settled(tb, s, Changed(c, change), c.dirtyGroups + MarkedBy(kind), enabled)
  {
    hide EvalPhase, EvalGains, EvalFilter, UpToDate, FamilyFree;
    var exp := seq(256, k => k * 0x100_0000);
    var tb, s, c, change := ReaderTables(exp, kind, f), ReaderVoice(f), QuietStart(), ChangeFor(kind);
    ReaderFits(exp, kind, f);
    var c' := Changed(c, change);
    UpToDateIsSettled(tb, s, c, false);
    var r := UpToDate(tb, s, c, false);
    ReaderFree(tb, s, r, kind, f);
    ReaderMoves(exp, kind, f);
    assert !SettledIn(tb, r, c', c.dirtyGroups + MarkedBy(kind), false, GroupOf(f));
  }

  lemma ReaderFits(exp: ExpTable, kind: Kind, f: Family)
    requires (kind.Unmarked? ==> kind.controller < 128) && TableOk(exp)
    ensures Fits(ReaderTables(exp, kind, f), ReaderVoice(f))
  {
  }

  lemma ReaderFree(tb: Tables, s: Sound, r: Sound, kind: Kind, f: Family)
    requires Fits(tb, s) && Fits(tb, r) && s == ReaderVoice(f) && SameVoice(s, r)
    ensures forall g: Family | g != f :: FamilyFree(tb, r, kind, g)
  {
    assert forall g: Family | g != f :: DynamicPart(r.cache.slots[FamilyCode(g)], tb.terms) == [];
  }

  /** What the reading source gives before and after the message. */
  function ReaderValue(kind: Kind, after: bool): int
  {
    match kind
    case Wheel => if after then 65528 else 0
    case Range => if after then 65024 else 1024
    case _ => if after then MOD_ONE else 0
  }

  lemma ReaderSource(exp: ExpTable, kind: Kind, f: Family)
    requires (kind.Unmarked? ==> kind.controller < 128) && kind != Marked
    ensures var curves, v := ReaderTables(exp, kind, f).curves, ReaderVoice(f).cache.sources;
            && SourceMcu(curves, SourceFor(kind), QuietStart(), v) == ReaderValue(kind, false)
            && SourceMcu(curves, SourceFor(kind), Changed(QuietStart(), ChangeFor(kind)), v) == ReaderValue(kind, true)
  {
    if kind.Unmarked? {
      assert IsController(SourceFor(kind)) && Index(SourceFor(kind)) == kind.controller;
    }
  }

  lemma ReaderSum(exp: ExpTable, kind: Kind, f: Family, c: Channel, after: bool)
    requires (kind.Unmarked? ==> kind.controller < 128) && kind != Marked
    requires c == if after then Changed(QuietStart(), ChangeFor(kind)) else QuietStart()
    requires Fits(ReaderTables(exp, kind, f), ReaderVoice(f))
    ensures var sums, x := FamilySums(ReaderTables(exp, kind, f), ReaderVoice(f), f, c), 1200 * ReaderValue(kind, after);
            sums == match f case GainFamily => [0, x, 0] case PitchFamily => [x, 0, 0, 0] case FilterFamily => [x, 0, 0]
  {
    hide MultiplyQ16, SourceMcu, ReaderValue;
    var tb, s := ReaderTables(exp, kind, f), ReaderVoice(f);
    var t, ts := ReaderTerm(kind, f), DynamicPart(s.cache.slots[FamilyCode(f)], tb.terms);
    assert ts == [t] && ts[1..] == [];
    ReaderSource(exp, kind, f);
    var value := ReaderValue(kind, after);
    MultiplyRounds(value, 0);
    assert SourceMcu(tb.curves, 0, c, s.cache.sources) == MOD_ONE by { IdentitySource(tb.curves, c, s.cache.sources); }
    assert TermValue(tb.curves, t, c, s.cache.sources) == 1200 * value;
    assert !DependsOnNote(t.dependencies) by { ReaderDependencies(kind); }
    forall o | 0 <= o < |Destinations(f)|
      ensures FamilySum(tb.curves, s.cache, tb.terms, f, o, c) == if Destinations(f)[o] == FirstDestination(f) then 1200 * value else 0
    {
      assert SumTerms(tb.curves, ts[1..], Destinations(f)[o], c, s.cache.sources) == 0;
    }
  }

  lemma IdentitySource(curves: Curves, c: Channel, v: VoiceSources)
    requires Playable(v)
    ensures SourceMcu(curves, 0, c, v) == MOD_ONE
  {
  }

  lemma ReaderDependencies(kind: Kind)
    requires (kind.Unmarked? ==> kind.controller < 128) && kind != Marked
    ensures !DependsOnNote(SourceDependencies(SourceFor(kind)))
  {
    if kind.Unmarked? {
      assert IsController(SourceFor(kind));
    }
  }

  /** The message moves the one parameter that reads it. */
  lemma ReaderMoves(exp: ExpTable, kind: Kind, f: Family)
    requires (kind.Unmarked? ==> kind.controller < 128) && kind != Marked && TableOk(exp)
    requires GroupOf(f) !in MarkedBy(kind) && Fits(ReaderTables(exp, kind, f), ReaderVoice(f))
    ensures var tb, s, c := ReaderTables(exp, kind, f), ReaderVoice(f), QuietStart();
            var c' := Changed(c, ChangeFor(kind));
            match f
            case GainFamily => EvalGains(tb, s, c, false) != EvalGains(tb, s, c', false)
            case PitchFamily => EvalPhase(tb, s, c, false) != EvalPhase(tb, s, c', false)
            case FilterFamily => EvalFilter(tb, s, c, false) != EvalFilter(tb, s, c', false)
  {
    hide PhaseWithCents, MultiplyQ16, FamilySums, ReaderVoice, TruncDiv;
    var c := QuietStart();
    var c' := Changed(c, ChangeFor(kind));
    ReaderSum(exp, kind, f, c, false);
    ReaderSum(exp, kind, f, c', true);
    ReaderConfig(f);
    ZeroTimes(0);
    if f == PitchFamily {
      PitchIdentity(exp, 0x1000);
      OctaveUp(exp);
    } else if f == FilterFamily {
      CutoffMoves(kind);
    }
  }

  lemma ReaderConfig(f: Family)
    ensures var s := ReaderVoice(f);
            && s.config.modLfoToPitch == s.config.vibLfoToPitch == s.config.modEnvToPitch == s.config.modLfoToVolume == 0
            && s.config.modLfoToFilter == s.config.modEnvToFilter == 0 && s.config.filterCutoff == 5000
            && s.base == 0x1000
  {
  }

  lemma CutoffMoves(kind: Kind)
    requires kind != Marked
    ensures var at := (x: int) => TruncDiv(Clamp(5000 * MOD_ONE + 1200 * x, 1500 * MOD_ONE, 13500 * MOD_ONE) + 32768, MOD_ONE);
            at(ReaderValue(kind, false)) != at(ReaderValue(kind, true))
  {
  }

  lemma OctaveUp(t: ExpTable)
    requires TableOk(t)
    ensures PhaseWithCents(t, 0x1000, 1200 * MOD_ONE) == 0x2000
  {
    hide RoundHalfUp, Ratio;
    PitchExponentExact(1200 * MOD_ONE);
    RatioOfZero(t);
    assert Pow2(1) == 2;
    RoundFromResidual(0x2000, 0, TWO_32);
  }
}
