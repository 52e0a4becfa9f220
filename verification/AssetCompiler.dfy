/** From compiled modulation and candidate zones to an image, and the theorem that links the two ends. */
module AssetCompiler {
  import opened CInt
  import opened LittleEndian
  import opened PresenceBits
  import opened AssetFormat
  import opened AssetView
  import opened AssetImage
  import AssetBuild
  import Modulation
  import Zones = ZoneCompaction
  import opened Wrappers

  // ---- Modulation records -----------------------------------------------------------------

  function DependencyBits(d: bv16): U16
  {
    BitsFit(d);
    d as int
  }

  lemma BitsFit(d: bv16)
    ensures 0 <= d as int < 0x1_0000
  {
  }

  lemma BitsBack(d: bv16)
    ensures Bits(DependencyBits(d)) == d
  {
  }

  function TermRecordOf(t: Modulation.Term): TermRecord
  {
    TermRecord(t.source, t.destination, ToU16(t.amount), t.amountSource, t.transform, DependencyBits(t.dependencies))
  }

  function ProgramRecordOf(p: Modulation.Program): ProgramRecord
    requires 0 <= p.firstTerm < TWO_32
  {
    ProgramRecord(p.firstTerm, p.termCount, p.noteCount, DependencyBits(p.dependencies), Modulation.FamilyCode(p.family), 0)
  }

  function RefByte(r: Option<nat>): U8
    requires r.Some? ==> r.value < ABSENT
  {
    if r.Some? then r.value else ABSENT
  }

  function RefsOf(r: Modulation.Refs): Refs
    requires NamesFit(r)
  {
    Refs(RefByte(r.gain), RefByte(r.pitch), RefByte(r.filter))
  }

  predicate NamesFit(r: Modulation.Refs)
  {
    && (r.gain.Some? ==> r.gain.value < ABSENT) && (r.pitch.Some? ==> r.pitch.value < ABSENT)
    && (r.filter.Some? ==> r.filter.value < ABSENT)
  }

  /** Program numbers fit a byte with one value to spare. */
  predicate BuildFits(b: Modulation.Build)
  {
    && |b.programs| <= 255 && (forall i | 0 <= i < |b.candidates| :: NamesFit(b.candidates[i]))
    && (forall j | 0 <= j < |b.programs| :: 0 <= b.programs[j].firstTerm < TWO_32)
  }

  function TermRecords(ts: seq<Modulation.Term>): (r: seq<TermRecord>)
    ensures |r| == |ts| && forall i | 0 <= i < |r| :: r[i] == TermRecordOf(ts[i])
  {
    seq(|ts|, i requires 0 <= i < |ts| => TermRecordOf(ts[i]))
  }

  lemma ImpliedOf(m: Modulation.Modulator)
    ensures Implied(TermRecordOf(Modulation.TermOf(m))) == Modulation.TermOf(m).dependencies
  {
    hide Modulation.SourceDependencies, DependencyBits, Modulation.ToInt16, ToU16;
  }

  lemma SourceDefined(source: U16)
    ensures Modulation.SourceDependencies(source) & 0xffe0 == 0
  {
    hide Modulation.IsController, Modulation.Index;
  }

  lemma TermDefined(m: Modulation.Modulator)
    ensures Modulation.TermOf(m).dependencies & 0xffe0 == 0
  {
    hide Modulation.SourceDependencies, Modulation.ToInt16;
    SourceDefined(m.src);
    SourceDefined(m.amountSrc);
    OrDefined(Modulation.SourceDependencies(m.src), Modulation.SourceDependencies(m.amountSrc));
  }

  lemma FamilyBack(f: Modulation.Family)
    ensures FamilyOf(Modulation.FamilyCode(f)) == f && 0 <= Modulation.FamilyCode(f) <= 2
  {
  }

  lemma TermPasses(m: Modulation.Modulator, f: Modulation.Family, noteStatic: bool)
    requires m.dest in Modulation.Destinations(f) && m.transform in {0, 2}
    requires noteStatic ==> Modulation.IsStatic(Modulation.TermOf(m))
    ensures TermSound(TermRecordOf(Modulation.TermOf(m)), Modulation.FamilyCode(f), noteStatic)
  {
    hide Modulation.SourceDependencies, DependencyBits, Bits, Implied, Modulation.ToInt16, ToU16;
    FamilyBack(f);
    ImpliedOf(m);
    BitsBack(Modulation.TermOf(m).dependencies);
  }

  lemma {:induction false} ObservedIsAll(ts: seq<Modulation.Term>)
    ensures Observed(TermRecords(ts)) == Modulation.AllDependencies(ts)
  {
    hide DependencyBits, Bits, ToU16, Or, Modulation.AllDependencies;
    AllStep(ts);
    if ts != [] {
      var n := |ts| - 1;
      ObservedIsAll(ts[..n]);
      BitsBack(ts[n].dependencies);
      assert TermRecords(ts)[..n] == TermRecords(ts[..n]);
    }
  }

  lemma AllStep(ts: seq<Modulation.Term>)
    ensures Modulation.AllDependencies(ts) ==
            if ts == [] then 0 else Or(Modulation.AllDependencies(ts[..|ts| - 1]), ts[|ts| - 1].dependencies)
  {
  }

  lemma OrDefined(x: bv16, y: bv16)
    requires x & 0xffe0 == 0 && y & 0xffe0 == 0
    ensures (x | y) & 0xffe0 == 0
  {
  }

  lemma {:induction false} AllDefined(ts: seq<Modulation.Term>)
    requires forall t <- ts :: t.dependencies & 0xffe0 == 0
    ensures Modulation.AllDependencies(ts) & 0xffe0 == 0
  {
    if ts != [] {
      var n := |ts| - 1;
      AllDefined(ts[..n]);
      OrDefined(Modulation.AllDependencies(ts[..n]), ts[n].dependencies);
    }
  }

  /** Modulators whose transform the firmware knows, few enough for sixteen-bit counts. */
  predicate Ordinary(sem: Modulation.Semantic)
  {
    && (forall m <- sem.modulators :: m.transform in {0, 2})
    && (forall i | 0 <= i < |sem.candidates| :: sem.candidates[i].modulatorCount < TWO_16)
  }

  /** Every program the modulation compiler makes passes the firmware's checks. */
  lemma ProgramPasses(sem: Modulation.Semantic, b: Modulation.Build, p: Modulation.Program)
    requires Ordinary(sem) && Modulation.Sourced(p, b.terms, sem) && 0 <= p.firstTerm < TWO_32
    ensures ProgramFits(ProgramRecordOf(p), TermRecords(b.terms))
  {
    hide Modulation.Compiled, TermSound, Bits, Modulation.AllDependencies, Observed, TermRecordOf, DependencyBits, ProgramHeaderSound, Modulation.Keep;
    var body: seq<Modulation.Term> :| body != [] && Modulation.Describes(p, p.family, body, b.terms) && Modulation.Grown(p.family, body, sem);
    var i :| 0 <= i < |sem.candidates| && Modulation.InRange(sem, i) && body == Modulation.Compiled(Modulation.ModulatorsOf(sem, i), p.family);
    var ms := Modulation.ModulatorsOf(sem, i);
    Modulation.CompiledShape(ms, p.family);
    BodyPasses(ms, p.family, body);
    assert p.termCount == |body| && p.noteCount == |Modulation.Keep(body, true)|;
    assert TermRecords(b.terms)[p.firstTerm..p.firstTerm + |body|] == TermRecords(body);
    HeaderPasses(p, |b.terms|);
    BitsBack(p.dependencies);
  }

  lemma HeaderPasses(p: Modulation.Program, terms: nat)
    requires 0 <= p.firstTerm < TWO_32 && p.dependencies & 0xffe0 == 0 && p.noteCount <= p.termCount
    requires p.firstTerm + p.termCount <= terms
    ensures ProgramHeaderSound(ProgramRecordOf(p), terms)
  {
    hide DependencyBits, Bits;
    BitsBack(p.dependencies);
    FamilyBack(p.family);
  }

  lemma BodyPasses(ms: seq<Modulation.Modulator>, f: Modulation.Family, body: seq<Modulation.Term>)
    requires forall m <- ms :: m.transform in {0, 2}
    requires forall t <- body :: t.destination in Modulation.Destinations(f) && Modulation.IsTermOf(t, ms)
    requires |Modulation.Keep(body, true)| <= |body|
    requires forall i | 0 <= i < |Modulation.Keep(body, true)| :: Modulation.IsStatic(body[i])
    ensures forall k | 0 <= k < |body| ::
              TermSound(TermRecords(body)[k], Modulation.FamilyCode(f), k < |Modulation.Keep(body, true)|)
    ensures Observed(TermRecords(body)) == Modulation.AllDependencies(body)
    ensures Modulation.AllDependencies(body) & 0xffe0 == 0
  {
    hide TermSound, Bits, Modulation.AllDependencies, Observed, TermRecordOf, DependencyBits, Modulation.TermOf, Modulation.IsStatic, Modulation.Keep;
    forall k | 0 <= k < |body|
      ensures TermSound(TermRecords(body)[k], Modulation.FamilyCode(f), k < |Modulation.Keep(body, true)|)
      ensures body[k].dependencies & 0xffe0 == 0
    {
      assert body[k] in body && Modulation.IsTermOf(body[k], ms);
      var m :| m in ms && body[k] == Modulation.TermOf(m);
      DestinationOf(m);
      TermPasses(m, f, k < |Modulation.Keep(body, true)|);
      TermDefined(m);
    }
    ObservedIsAll(body);
    AllDefined(body);
  }

  lemma DestinationOf(m: Modulation.Modulator)
    ensures Modulation.TermOf(m).destination == m.dest
  {
  }

  // ---- Zones ------------------------------------------------------------------------------

  /** Compact zones, in order, each with its own run of amounts. */
  ghost predicate ZonesFrom(candidates: seq<Zones.Candidate>, zones: seq<Zone>, amounts: seq<U16>, samples: nat)
  {
    && |zones| == |candidates|
    && forall i | 0 <= i < |candidates| :: ZoneFrom(candidates[i], zones[i], amounts, samples)
  }

  ghost predicate ZoneFrom(c: Zones.Candidate, z: Zone, amounts: seq<U16>, samples: nat)
  {
    var carried := Zones.Carried(c.generators);
    && Zones.Buildable(c, samples) && z == Zones.ZoneOf(c, z.firstGenerator)
    && z.firstGenerator + |carried| <= |amounts|
    && forall j | 0 <= j < |carried| :: amounts[z.firstGenerator + j] == carried[j].amount
  }

  lemma ZoneFromGrows(c: Zones.Candidate, z: Zone, amounts: seq<U16>, amounts': seq<U16>, samples: nat)
    requires ZoneFrom(c, z, amounts, samples) && amounts <= amounts'
    ensures ZoneFrom(c, z, amounts', samples)
  {
  }

  /** Makes all candidates compact. */
  method CompactZones(candidates: seq<Zones.Candidate>, samples: nat)
    returns (ok: bool, zones: seq<Zone>, amounts: seq<U16>)
    ensures ok ==> ZonesFrom(candidates, zones, amounts, samples) && |amounts| < TWO_32
    ensures !ok ==> |amounts| >= TWO_32 || exists i | 0 <= i < |candidates| :: !Zones.Buildable(candidates[i], samples)
  {
    hide ZoneFrom;
    zones, amounts := [], [];
    for i := 0 to |candidates|
      invariant ZonesFrom(candidates[..i], zones, amounts, samples) && |amounts| < TWO_32
    {
      var zone, more := Zones.CompactZone(candidates[i], amounts, samples);
      if zone.None? {
        return false, zones, amounts;
      }
      NewZone(candidates[i], |amounts|, amounts, more, samples);
      forall k | 0 <= k < i
        ensures ZoneFrom(candidates[..i + 1][k], zones[k], more, samples)
      {
        assert candidates[..i + 1][k] == candidates[..i][k];
        ZoneFromGrows(candidates[..i][k], zones[k], amounts, more, samples);
      }
      zones, amounts := zones + [zone.value], more;
      if |amounts| >= TWO_32 {
        return false, zones, amounts;
      }
    }
    assert candidates[..|candidates|] == candidates;
    ok := true;
  }

  lemma NewZone(c: Zones.Candidate, first: U32, amounts: seq<U16>, more: seq<U16>, samples: nat)
    requires Zones.Buildable(c, samples) && first == |amounts|
    requires more == amounts + Zones.Amounts(Zones.Carried(c.generators))
    ensures ZoneFrom(c, Zones.ZoneOf(c, first), more, samples)
  {
  }

  // ---- Both ends --------------------------------------------------------------------------

  /** What the semantic data must satisfy. */
  ghost predicate WellFormed(info: Info, presets: seq<Preset>, candidates: seq<Zones.Candidate>, samples: seq<Sample>,
                             sem: Modulation.Semantic)
  {
    && SpanOk(info) && Ordinary(sem)
    && (forall i | 0 <= i < |presets| :: PresetSound(presets[i], |candidates|))
    && (forall i | 0 <= i < |candidates| :: RangesSound(candidates[i]))
    && (forall i | 0 <= i < |samples| :: SampleSound(samples[i], info.wordCount))
  }

  predicate RangesSound(c: Zones.Candidate)
  {
    c.keyLow <= c.keyHigh <= 127 && c.velocityLow <= c.velocityHigh <= 127
  }

  /** Every operator of a zone decodes to what its candidate asked for. */
  ghost predicate Decodes(image: Bytes, i: nat, c: Zones.Candidate)
    requires SectionsOk(image) && i < Count(image, 1)
  {
    var zone := ZoneAt(image, i);
    && ZoneSound(zone, Count(image, 2), Count(image, 3))
    && forall op | 0 <= op < OPERATORS :: Zones.IsAmountOf(Zones.Carried(c.generators), op, Amount(image, zone, op))
  }

  lemma ZonePasses(c: Zones.Candidate, z: Zone, amounts: seq<U16>, samples: nat)
    requires ZoneFrom(c, z, amounts, samples) && RangesSound(c)
    ensures ZoneSound(z, |amounts|, samples)
  {
    var carried := Zones.Carried(c.generators);
    Zones.PresenceIsU64(carried);
    Zones.PresenceOnes(carried, OPERATORS);
    NotCarried(c.generators);
    Zones.PresenceBitsAre(carried, Zones.KEY_RANGE);
    Zones.PresenceBitsAre(carried, Zones.VELOCITY_RANGE);
    Zones.PresenceBitsAre(carried, Zones.SAMPLE_ID);
  }

  lemma {:induction false} NotCarried(gs: seq<Zones.Generator>)
    ensures forall i | 0 <= i < |Zones.Carried(gs)| :: Zones.IsCarried(Zones.Carried(gs)[i])
  {
    if gs != [] {
      NotCarried(gs[..|gs| - 1]);
    }
  }

  lemma ZoneDecodes(image: Bytes, a: Asset, i: nat, c: Zones.Candidate)
    requires Reads(image, a) && i < |a.zones| && ZoneFrom(c, a.zones[i], a.amounts, |a.samples|) && RangesSound(c)
    requires Zones.Ascending(Zones.Carried(c.generators))
    ensures Decodes(image, i, c)
  {
    hide BitAt, Ones, Fits, SectionOk, Count, ZoneAt, AmountAt, Zones.Carried, Zones.IsAmountOf, PresetAt, SampleAt, RefsAt, ProgramAt, TermAt;
    ZonePasses(c, a.zones[i], a.amounts, |a.samples|);
    var z := a.zones[i];
    assert ZoneAt(image, i) == z;
    forall op | 0 <= op < OPERATORS
      ensures Zones.IsAmountOf(Zones.Carried(c.generators), op, Amount(image, z, op))
    {
      Zones.DecodesToGenerators(image, c, z.firstGenerator, |a.samples|, op);
    }
  }

  lemma RefsPass(b: Modulation.Build, refs: Modulation.Refs, ms: seq<Modulation.Modulator>)
    requires Modulation.CandidateDone(b, refs, ms) && |b.programs| <= 255
    ensures NamesFit(refs) && RefsSound(RefsOf(refs), |b.programs|)
  {
    hide Modulation.Compiled, Modulation.Describes;
    assert Modulation.Means(b, refs.Of(Modulation.GainFamily), Modulation.GainFamily, Modulation.Compiled(ms, Modulation.GainFamily));
    assert Modulation.Means(b, refs.Of(Modulation.PitchFamily), Modulation.PitchFamily, Modulation.Compiled(ms, Modulation.PitchFamily));
    assert Modulation.Means(b, refs.Of(Modulation.FilterFamily), Modulation.FilterFamily, Modulation.Compiled(ms, Modulation.FilterFamily));
  }

  lemma FirstTermFits(b: Modulation.Build, p: Modulation.Program, sem: Modulation.Semantic)
    requires Modulation.Sourced(p, b.terms, sem) && |b.terms| < TWO_32
    ensures 0 <= p.firstTerm < TWO_32
  {
    hide Modulation.Compiled;
  }

  lemma CompiledFits(sem: Modulation.Semantic, b: Modulation.Build)
    requires Modulation.Done(sem, |sem.candidates|, b) && |b.programs| <= 255 && |b.terms| < TWO_32
    requires forall j | 0 <= j < |b.programs| :: Modulation.Sourced(b.programs[j], b.terms, sem)
    ensures BuildFits(b)
    ensures forall i | 0 <= i < |b.candidates| :: RefsSound(RefsOf(b.candidates[i]), |b.programs|)
  {
    hide Modulation.Sourced, Modulation.CandidateDone, NamesFit, RefsOf, RefsSound;
    forall i | 0 <= i < |b.candidates|
      ensures NamesFit(b.candidates[i]) && RefsSound(RefsOf(b.candidates[i]), |b.programs|)
    {
      RefsPass(b, b.candidates[i], Modulation.ModulatorsOf(sem, i));
    }
    forall j | 0 <= j < |b.programs|
      ensures 0 <= b.programs[j].firstTerm < TWO_32
    {
      FirstTermFits(b, b.programs[j], sem);
    }
  }

  function AssetOf(info: Info, presets: seq<Preset>, zones: seq<Zone>, amounts: seq<U16>, samples: seq<Sample>,
                   b: Modulation.Build): Asset
    requires BuildFits(b)
  {
    Asset(info, presets, zones, amounts, samples,
          seq(|b.candidates|, i requires 0 <= i < |b.candidates| => RefsOf(b.candidates[i])),
          seq(|b.programs|, j requires 0 <= j < |b.programs| => ProgramRecordOf(b.programs[j])),
          TermRecords(b.terms))
  }

  lemma CompiledAssetSound(info: Info, presets: seq<Preset>, candidates: seq<Zones.Candidate>, zones: seq<Zone>,
                           amounts: seq<U16>, samples: seq<Sample>, sem: Modulation.Semantic, b: Modulation.Build)
    requires WellFormed(info, presets, candidates, samples, sem) && |sem.candidates| == |candidates|
    requires ZonesFrom(candidates, zones, amounts, |samples|)
    requires Modulation.Done(sem, |sem.candidates|, b) && |b.programs| <= 255 && |b.terms| < TWO_32
    requires forall j | 0 <= j < |b.programs| :: Modulation.Sourced(b.programs[j], b.terms, sem)
    ensures BuildFits(b) && AssetSound(AssetOf(info, presets, zones, amounts, samples, b))
  {
    hide Modulation.Sourced, Modulation.CandidateDone, NamesFit, RefsOf, RefsSound, ZoneFrom, ZoneSound, PresetSound, SampleSound, Ordinary, RangesSound, ProgramRecordOf, ProgramFits;
    CompiledFits(sem, b);
    forall i | 0 <= i < |zones|
      ensures ZoneSound(zones[i], |amounts|, |samples|)
    {
      ZonePasses(candidates[i], zones[i], amounts, |samples|);
    }
    forall j | 0 <= j < |b.programs|
      ensures ProgramFits(ProgramRecordOf(b.programs[j]), TermRecords(b.terms))
    {
      ProgramPasses(sem, b, b.programs[j]);
    }
  }

  datatype Outcome = Image(bytes: Bytes) | BadModulators | ModulationTooLarge | TooManyPrograms | BadZone | Oversized

  /** Builds the image of a sound font. When the data is well formed the firmware accepts the image,
      reads back the presets, zones and samples, and, for zones whose generators come in ascending
      order, decodes every amount. The ghost results are the compiled modulation and the asset. */
  method BuildAsset(info: Info, presets: seq<Preset>, candidates: seq<Zones.Candidate>,
                    samples: seq<Sample>, sem: Modulation.Semantic)
    returns (r: Outcome, ghost b: Modulation.Build, ghost a: Asset)
    requires |sem.candidates| == |candidates| && (forall i | 0 <= i < |samples| :: -128 <= samples[i].correction < 128)
    ensures r.Image? ==>
              && Reads(r.bytes, a) && a.info == info && a.presets == presets && a.samples == samples
              && ZonesFrom(candidates, a.zones, a.amounts, |samples|)
              && Modulation.Done(sem, |sem.candidates|, b) && BuildFits(b)
              && a == AssetOf(info, presets, a.zones, a.amounts, samples, b)
    ensures r.Image? && WellFormed(info, presets, candidates, samples, sem) ==>
              && Verdict(r.bytes) == Accepted
              && forall i | 0 <= i < |candidates| && Zones.Ascending(Zones.Carried(candidates[i].generators)) ::
                   Decodes(r.bytes, i, candidates[i])
    ensures r.BadModulators? ==> exists i | 0 <= i < |sem.candidates| :: !Modulation.InRange(sem, i)
    ensures r.ModulationTooLarge? ==> |b.terms| >= TWO_32 || |b.programs| >= TWO_32
    ensures r.TooManyPrograms? ==>
              Modulation.Done(sem, |sem.candidates|, b) && (|b.programs| > 255 || |b.terms| >= TWO_32)
    ensures r.BadZone? ==>
              |a.amounts| >= TWO_32 || exists i | 0 <= i < |candidates| :: !Zones.Buildable(candidates[i], |samples|)
    ensures r.Oversized? ==> !Small(SectionsOf(a)) && ZonesFrom(candidates, a.zones, a.amounts, |samples|)
  {
    hide WellFormed, Modulation.Done, Modulation.Sourced, Modulation.InRange, ZoneFrom, Reads, SectionOk, Verdict, AssetSound, Decodes, Small, ImageOf, SectionsOf, BuildFits, Zones.Buildable;
    a, b := Asset(info, [], [], [], [], [], [], []), Modulation.Build([], [], []);
    var compiled := Modulation.BuildModulation(sem);
    if compiled.OutOfRange? {
      return BadModulators, b, a;
    }
    if compiled.TooLarge? {
      return ModulationTooLarge, compiled.build, a;
    }
    var build := compiled.build;
    b := build;
    if |build.programs| > 255 || |build.terms| >= TWO_32 {
      return TooManyPrograms, b, a;
    }
    CompiledFits(sem, build);
    var ok, zones, amounts := CompactZones(candidates, |samples|);
    if !ok {
      a := a.(amounts := amounts);
      return BadZone, b, a;
    }
    var asset := AssetOf(info, presets, zones, amounts, samples, build);
    a := asset;
    var image := AssetBuild.BuildImage(info, SectionsOf(asset));
    if image.None? {
      return Oversized, b, a;
    }
    r := Image(image.value);
    AcceptedExactly(asset);
    if WellFormed(info, presets, candidates, samples, sem) {
      CompiledAssetSound(info, presets, candidates, zones, amounts, samples, sem, build);
      AllDecode(image.value, asset, candidates, info, presets, samples, sem);
    }
  }

  lemma AllDecode(image: Bytes, a: Asset, candidates: seq<Zones.Candidate>, info: Info, presets: seq<Preset>,
                  samples: seq<Sample>, sem: Modulation.Semantic)
    requires Reads(image, a) && ZonesFrom(candidates, a.zones, a.amounts, |a.samples|)
    requires WellFormed(info, presets, candidates, samples, sem)
    ensures SectionsOk(image) && |candidates| == Count(image, 1)
    ensures forall i | 0 <= i < |candidates| && Zones.Ascending(Zones.Carried(candidates[i].generators)) ::
              Decodes(image, i, candidates[i])
  {
    hide ZoneFrom, SectionOk, Decodes, PresetAt, ZoneAt, AmountAt, SampleAt, RefsAt, ProgramAt, TermAt, Count;
    forall i | 0 <= i < |candidates| && Zones.Ascending(Zones.Carried(candidates[i].generators))
      ensures Decodes(image, i, candidates[i])
    {
      ZoneDecodes(image, a, i, candidates[i]);
    }
  }
}
