/** Validation of an asset image, and the lookups that rely on it. */
module AssetView {
  import opened CInt
  import opened ImageCrc
  import opened LittleEndian
  import opened PresenceBits
  import opened AssetFormat
  import Modulation

  datatype Status = Accepted | HeaderError | ProfileError | CrcError | DirectoryError | RecordError

  // ---- Sections ---------------------------------------------------------------------------

  predicate Sized(image: Bytes) { |image| >= BODY_OFFSET }

  function EntryAt(k: int): int { 96 + 16 * k }

  function Offset(image: Bytes, k: nat): U32
    requires Sized(image) && k < SECTIONS
  {
    Read32(image, EntryAt(k) + 4)
  }

  function Count(image: Bytes, k: nat): U32
    requires Sized(image) && k < SECTIONS
  {
    Read32(image, EntryAt(k) + 8)
  }

  /** Where the records of section `k` end. */
  function End(image: Bytes, k: nat): int
    requires Sized(image) && k < SECTIONS
  {
    Offset(image, k) + Count(image, k) * STRIDES[k]
  }

  /** The end of what comes before section `k`. */
  function Before(image: Bytes, k: nat): int
    requires Sized(image) && k < SECTIONS
  {
    if k == 0 then BODY_OFFSET else End(image, k - 1)
  }

  predicate SectionOk(image: Bytes, k: nat)
    requires Sized(image) && k < SECTIONS
  {
    && Read16(image, EntryAt(k)) == k + 1 && Read16(image, EntryAt(k) + 2) == 1
    && Read32(image, EntryAt(k) + 12) == STRIDES[k] && Offset(image, k) % 4 == 0
    && Before(image, k) <= Offset(image, k) && End(image, k) <= |image|
  }

  /** What the section loop tests, entry by entry. */
  lemma SectionMeans(image: Bytes, k: nat)
    requires Sized(image) && k < SECTIONS
    ensures var entry, offset, end := EntryAt(k), Offset(image, k), End(image, k);
            SectionOk(image, k) <==>
              !(Read16(image, entry) != k + 1 || Read16(image, entry + 2) != 1 || Read32(image, entry + 12) != STRIDES[k]
                || offset % 4 != 0 || offset < Before(image, k) || end > |image|)
  {
    hide Read16, Read32;
  }

  predicate SectionsOk(image: Bytes)
  {
    Sized(image) && forall k | 0 <= k < SECTIONS :: SectionOk(image, k)
  }

  /** Where record `i` of section `k` lies. */
  function RecordAt(image: Bytes, k: nat, i: int): int
    requires Sized(image) && k < SECTIONS
  {
    Offset(image, k) + i * STRIDES[k]
  }

  /** Every record of every section lies inside the image. */
  lemma RecordFits(image: Bytes, k: nat, i: int)
    requires SectionsOk(image) && k < SECTIONS && 0 <= i < Count(image, k)
    ensures Room(image, RecordAt(image, k, i), STRIDES[k])
  {
    assert SectionOk(image, k);
    MulMonotone(0, i, STRIDES[k]);
    MulMonotone(i + 1, Count(image, k), STRIDES[k]);
  }

  // ---- Records ----------------------------------------------------------------------------

  function PresetAt(image: Bytes, i: nat): Preset
    requires SectionsOk(image) && i < Count(image, 0)
  {
    RecordFits(image, 0, i);
    DecodePreset(image, RecordAt(image, 0, i))
  }

  function ZoneAt(image: Bytes, i: nat): Zone
    requires SectionsOk(image) && i < Count(image, 1)
  {
    RecordFits(image, 1, i);
    DecodeZone(image, RecordAt(image, 1, i))
  }

  function AmountAt(image: Bytes, i: nat): U16
    requires SectionsOk(image) && i < Count(image, 2)
  {
    RecordFits(image, 2, i);
    Read16(image, RecordAt(image, 2, i))
  }

  function SampleAt(image: Bytes, i: nat): Sample
    requires SectionsOk(image) && i < Count(image, 3)
  {
    RecordFits(image, 3, i);
    DecodeSample(image, RecordAt(image, 3, i))
  }

  function RefsAt(image: Bytes, i: nat): Refs
    requires SectionsOk(image) && i < Count(image, 4)
  {
    RecordFits(image, 4, i);
    DecodeRefs(image, RecordAt(image, 4, i))
  }

  function ProgramAt(image: Bytes, i: nat): ProgramRecord
    requires SectionsOk(image) && i < Count(image, 5)
  {
    RecordFits(image, 5, i);
    DecodeProgram(image, RecordAt(image, 5, i))
  }

  function TermAt(image: Bytes, i: nat): TermRecord
    requires SectionsOk(image) && i < Count(image, 6)
  {
    RecordFits(image, 6, i);
    DecodeTerm(image, RecordAt(image, 6, i))
  }

  predicate RangeFits(first: int, count: int, total: int) { first <= total && count <= total - first }

  predicate PresetSound(p: Preset, zones: int)
  {
    p.program <= 127 && p.bank <= 16383 && RangeFits(p.firstZone, p.zoneCount, zones)
  }

  /** No bit but those of the operators a zone may carry. */
  predicate ValidPresence(x: nat)
  {
    Fits(x, OPERATORS) && !BitAt(x, 43) && !BitAt(x, 44) && !BitAt(x, 53)
  }

  predicate ZoneSound(z: Zone, amounts: int, samples: int)
  {
    && z.keyLow <= z.keyHigh <= 127 && z.velocityLow <= z.velocityHigh <= 127
    && z.generatorCount <= OPERATORS && z.sampleIndex < samples
    && ValidPresence(z.presence) && Ones(z.presence) == z.generatorCount
    && RangeFits(z.firstGenerator, z.generatorCount, amounts)
  }

  predicate SampleSound(s: Sample, words: int)
  {
    s.start <= s.startLoop <= s.endLoop <= s.end <= words && s.rate != 0
  }

  predicate RefSound(r: U8, programs: int) { r == ABSENT || r < programs }

  predicate RefsSound(r: Refs, programs: int)
  {
    RefSound(r.gain, programs) && RefSound(r.pitch, programs) && RefSound(r.filter, programs)
  }

  function FamilyOf(code: U8): Modulation.Family
  {
    if code == 0 then Modulation.GainFamily else if code == 1 then Modulation.PitchFamily else Modulation.FilterFamily
  }

  function Implied(t: TermRecord): bv16
  {
    Modulation.SourceDependencies(t.source) | Modulation.SourceDependencies(t.amountSource)
  }

  function Bits(x: U16): bv16 { x as bv16 }

  predicate TermSound(t: TermRecord, family: U8, noteStatic: bool)
  {
    && t.destination in Modulation.Destinations(FamilyOf(family)) && t.transform in {0, 2}
    && Bits(t.dependencies) == Implied(t)
    && (noteStatic ==> Bits(t.dependencies) & 0xfffe == 0)
  }

  function Or(x: bv16, y: bv16): bv16 { x | y }

  /** Dependencies of a program's terms, together. */
  function Observed(terms: seq<TermRecord>): bv16
  {
    if terms == [] then 0 else Or(Observed(terms[..|terms| - 1]), Bits(terms[|terms| - 1].dependencies))
  }

  predicate ProgramHeaderSound(p: ProgramRecord, terms: int)
  {
    && p.family <= 2 && p.reserved == 0 && p.noteCount <= p.termCount
    && Bits(p.dependencies) & 0xffe0 == 0 && RangeFits(p.firstTerm, p.termCount, terms)
  }

  /** A program's own terms. */
  function TermsAt(image: Bytes, first: nat, n: nat): (ts: seq<TermRecord>)
    requires SectionsOk(image) && first + n <= Count(image, 6)
    ensures |ts| == n
  {
    seq(n, i requires 0 <= i < n => TermAt(image, first + i))
  }

  predicate ProgramSound(p: ProgramRecord, terms: seq<TermRecord>)
  {
    && (forall i | 0 <= i < |terms| :: TermSound(terms[i], p.family, i < p.noteCount))
    && Observed(terms) == Bits(p.dependencies)
  }

  predicate ProgramOk(image: Bytes, i: nat)
    requires SectionsOk(image) && i < Count(image, 5)
  {
    var p := ProgramAt(image, i);
    ProgramHeaderSound(p, Count(image, 6)) && ProgramSound(p, TermsAt(image, p.firstTerm, p.termCount))
  }

  // ---- The verdict ------------------------------------------------------------------------

  predicate HeaderOk(image: Bytes)
  {
    && |image| >= 96 && image[0] == 0x4d && image[1] == 0x53 && image[2] == 0x46 && image[3] == 0x32
    && Read16(image, 4) == 2 && Read16(image, 6) == 96 && Read32(image, 8) == |image|
  }

  predicate ProfileOk(image: Bytes)
    requires |image| >= 96
  {
    && Read32(image, 12) == 0 && Read32(image, 16) == SAMPLE_RATE
    && Read32(image, 20) == CONTROL_TICK_SAMPLES && Read32(image, 56) == PROFILE_CRC32
  }

  predicate DirectoryOk(image: Bytes)
    requires |image| >= 96
  {
    Read32(image, 40) == 96 && Read16(image, 44) == SECTIONS && Read32(image, 60) == 1 && Sized(image)
  }

  function InfoOf(image: Bytes): Info
    requires |image| >= 96
  {
    Info(Join64(Read32(image, 24), Read32(image, 28)), Read32(image, 32), Read32(image, 48), Read32(image, 52), Read32(image, 64))
  }

  predicate SpanOk(info: Info) { (info.wordOffset + info.wordCount) * 2 <= info.sourceSize }

  predicate RecordsOk(image: Bytes)
    requires SectionsOk(image)
  {
    && Read32(image, 68) == Count(image, 0) && Count(image, 4) == Count(image, 1)
    && (forall i | 0 <= i < Count(image, 0) :: PresetSound(PresetAt(image, i), Count(image, 1)))
    && (forall i | 0 <= i < Count(image, 1) :: ZoneSound(ZoneAt(image, i), Count(image, 2), Count(image, 3)))
    && (forall i | 0 <= i < Count(image, 3) :: SampleSound(SampleAt(image, i), InfoOf(image).wordCount))
    && (forall i | 0 <= i < Count(image, 4) :: RefsSound(RefsAt(image, i), Count(image, 5)))
    && (forall i | 0 <= i < Count(image, 5) :: ProgramOk(image, i))
  }

  function Verdict(image: Bytes): Status
  {
    if !HeaderOk(image) then HeaderError
    else if !ProfileOk(image) then ProfileError
    else if Read32(image, CRC_FIELD) != Checksum(image) then CrcError
    else if !DirectoryOk(image) then DirectoryError
    else if !SpanOk(InfoOf(image)) then RecordError
    else if !SectionsOk(image) then DirectoryError
    else if !RecordsOk(image) then RecordError
    else Accepted
  }

  // ---- The validating loops ---------------------------------------------------------------

  /** Walks the directory, each section after the one before. */
  method CheckSections(image: Bytes) returns (ok: bool)
    requires Sized(image)
    ensures ok == SectionsOk(image)
  {
    hide Read16, Read32, SectionOk;
    var previousEnd := BODY_OFFSET;
    for index := 0 to SECTIONS
      invariant forall k | 0 <= k < index :: SectionOk(image, k)
      invariant index < SECTIONS ==> previousEnd == Before(image, index)
    {
      var entry := EntryAt(index);
      var offset := Read32(image, entry + 4);
      var count := Read32(image, entry + 8);
      var end := offset + count * STRIDES[index];
      SectionMeans(image, index);
      if Read16(image, entry) != index + 1 || Read16(image, entry + 2) != 1
         || Read32(image, entry + 12) != STRIDES[index] || offset % 4 != 0
         || offset < previousEnd || end > |image| {
        assert !SectionOk(image, index);
        return false;
      }
      previousEnd := end;
    }
    ok := true;
  }

  method CheckPresets(image: Bytes) returns (ok: bool)
    requires SectionsOk(image)
    ensures ok == forall i | 0 <= i < Count(image, 0) :: PresetSound(PresetAt(image, i), Count(image, 1))
  {
    hide SectionOk, PresetAt, PresetSound, Count;
    var index := 0;
    while index < Count(image, 0)
      invariant 0 <= index <= Count(image, 0)
      invariant forall i | 0 <= i < index :: PresetSound(PresetAt(image, i), Count(image, 1))
    {
      if !PresetSound(PresetAt(image, index), Count(image, 1)) {
        return false;
      }
      index := index + 1;
    }
    ok := true;
  }

  /** Zones: ranges of keys and velocities, and as many amounts as operators present. */
  method CheckZones(image: Bytes) returns (ok: bool)
    requires SectionsOk(image)
    ensures ok == forall i | 0 <= i < Count(image, 1) :: ZoneSound(ZoneAt(image, i), Count(image, 2), Count(image, 3))
  {
    hide SectionOk, ZoneAt, Count, ValidPresence, Ones;
    var index := 0;
    while index < Count(image, 1)
      invariant 0 <= index <= Count(image, 1)
      invariant forall i | 0 <= i < index :: ZoneSound(ZoneAt(image, i), Count(image, 2), Count(image, 3))
    {
      var zone := ZoneAt(image, index);
      var population := PopCount(zone.presence);
      if zone.keyLow > zone.keyHigh || zone.keyHigh > 127 || zone.velocityLow > zone.velocityHigh
         || zone.velocityHigh > 127 || zone.generatorCount > OPERATORS || zone.sampleIndex >= Count(image, 3)
         || !ValidPresence(zone.presence) || population != zone.generatorCount
         || !RangeFits(zone.firstGenerator, zone.generatorCount, Count(image, 2)) {
        assert !ZoneSound(ZoneAt(image, index), Count(image, 2), Count(image, 3));
        return false;
      }
      index := index + 1;
    }
    ok := true;
  }

  method CheckSamples(image: Bytes, words: int) returns (ok: bool)
    requires SectionsOk(image)
    ensures ok == forall i | 0 <= i < Count(image, 3) :: SampleSound(SampleAt(image, i), words)
  {
    hide SectionOk, SampleAt, Count;
    var index := 0;
    while index < Count(image, 3)
      invariant 0 <= index <= Count(image, 3)
      invariant forall i | 0 <= i < index :: SampleSound(SampleAt(image, i), words)
    {
      var sample := SampleAt(image, index);
      if sample.start > sample.end || sample.end > words || sample.startLoop < sample.start
         || sample.startLoop > sample.endLoop || sample.endLoop > sample.end || sample.rate == 0 {
        assert !SampleSound(SampleAt(image, index), words);
        return false;
      }
      index := index + 1;
    }
    ok := true;
  }

  method CheckRefs(image: Bytes) returns (ok: bool)
    requires SectionsOk(image)
    ensures ok == forall i | 0 <= i < Count(image, 4) :: RefsSound(RefsAt(image, i), Count(image, 5))
  {
    hide SectionOk, RefsAt, RefsSound, Count;
    var index := 0;
    while index < Count(image, 4)
      invariant 0 <= index <= Count(image, 4)
      invariant forall i | 0 <= i < index :: RefsSound(RefsAt(image, i), Count(image, 5))
    {
      if !RefsSound(RefsAt(image, index), Count(image, 5)) {
        return false;
      }
      index := index + 1;
    }
    ok := true;
  }

  /** One program: its terms one by one, their dependencies collected on the way. */
  method CheckProgram(image: Bytes, index: nat) returns (ok: bool)
    requires SectionsOk(image) && index < Count(image, 5)
    ensures ok == ProgramOk(image, index)
  {
    hide SectionOk, ProgramAt, TermAt, Count, TermSound, Bits, Or;
    var program := ProgramAt(image, index);
    if !ProgramHeaderSound(program, Count(image, 6)) {
      return false;
    }
    ghost var terms := TermsAt(image, program.firstTerm, program.termCount);
    var observed: bv16 := 0;
    var local := 0;
    while local < program.termCount
      invariant 0 <= local <= program.termCount
      invariant forall i | 0 <= i < local :: TermSound(terms[i], program.family, i < program.noteCount)
      invariant observed == Observed(terms[..local])
    {
      var term := TermAt(image, program.firstTerm + local);
      assert term == terms[local] && terms[..local + 1][..local] == terms[..local];
      if !TermSound(term, program.family, local < program.noteCount) {
        return false;
      }
      observed := Or(observed, Bits(term.dependencies));
      local := local + 1;
    }
    assert terms[..local] == terms;
    ok := observed == Bits(program.dependencies);
  }

  method CheckPrograms(image: Bytes) returns (ok: bool)
    requires SectionsOk(image)
    ensures ok == forall i | 0 <= i < Count(image, 5) :: ProgramOk(image, i)
  {
    hide SectionOk, ProgramOk, Count;
    var index := 0;
    while index < Count(image, 5)
      invariant 0 <= index <= Count(image, 5)
      invariant forall i | 0 <= i < index :: ProgramOk(image, i)
    {
      var fine := CheckProgram(image, index);
      if !fine {
        return false;
      }
      index := index + 1;
    }
    ok := true;
  }

  method CheckRecords(image: Bytes) returns (ok: bool)
    requires SectionsOk(image) && |image| >= 96
    ensures ok == RecordsOk(image)
  {
    hide SectionOk, Count, PresetAt, ZoneAt, SampleAt, RefsAt, ProgramOk, PresetSound, ZoneSound, SampleSound, RefsSound, Read32;
    if Read32(image, 68) != Count(image, 0) || Count(image, 4) != Count(image, 1) {
      return false;
    }
    var presets := CheckPresets(image);
    if !presets {
      return false;
    }
    var zones := CheckZones(image);
    if !zones {
      return false;
    }
    var samples := CheckSamples(image, InfoOf(image).wordCount);
    if !samples {
      return false;
    }
    var refs := CheckRefs(image);
    if !refs {
      return false;
    }
    ok := CheckPrograms(image);
  }

  /** The firmware's validation of an image. */
  method ViewInit(image: Bytes) returns (status: Status)
    ensures status == Verdict(image)
  {
    hide SectionOk, RecordsOk, SpanOk, HeaderOk, ProfileOk, DirectoryOk, Read32, Checksum;
    SizeOfHeader(image);
    if !HeaderOk(image) {
      return HeaderError;
    }
    if !ProfileOk(image) {
      return ProfileError;
    }
    var crc := FirmwareChecksum(image);
    if Read32(image, CRC_FIELD) != crc {
      return CrcError;
    }
    if !DirectoryOk(image) {
      return DirectoryError;
    }
    if !SpanOk(InfoOf(image)) {
      return RecordError;
    }
    SizeOfDirectory(image);
    var sections := CheckSections(image);
    if !sections {
      return DirectoryError;
    }
    var records := CheckRecords(image);
    status := if records then Accepted else RecordError;
  }

  lemma SizeOfHeader(image: Bytes)
    ensures HeaderOk(image) ==> |image| >= 96
  {
  }

  lemma SizeOfDirectory(image: Bytes)
    requires |image| >= 96
    ensures DirectoryOk(image) ==> Sized(image)
  {
  }

  // ---- Damage -----------------------------------------------------------------------------

  lemma JoinInjective(a: Bytes, b: Bytes)
    requires |a| == |b| == 4 && Join32(a[0], a[1], a[2], a[3]) == Join32(b[0], b[1], b[2], b[3])
    ensures a == b
  {
    var a0: int, a1: int, a2: int, a3: int := a[0], a[1], a[2], a[3];
    var b0: int, b1: int, b2: int, b3: int := b[0], b[1], b[2], b[3];
    assert a0 + a1 * 0x100 + a2 * 0x1_0000 + a3 * 0x100_0000 == b0 + b1 * 0x100 + b2 * 0x1_0000 + b3 * 0x100_0000;
    assert a3 == b3 && a2 == b2 && a1 == b1 && a0 == b0;
  }

  /** An accepted image with any one byte changed is refused. */
  lemma DamageIsRefused(image: Bytes, i: nat, b: U8)
    requires Verdict(image) == Accepted && i < |image| && b != image[i]
    ensures Verdict(image[i := b]) != Accepted
  {
    hide Checksum, SectionsOk, RecordsOk, DirectoryOk, ProfileOk, SpanOk, Join32;
    var damaged := image[i := b];
    ChecksumNotices(image, i, b);
    if CRC_FIELD <= i < CRC_FIELD + 4 && Read32(damaged, CRC_FIELD) == Read32(image, CRC_FIELD) {
      var k := i - CRC_FIELD;
      var was, is_ := image[CRC_FIELD..CRC_FIELD + 4], damaged[CRC_FIELD..CRC_FIELD + 4];
      assert was[k] == image[i] && is_[k] == b;
      JoinInjective(was, is_);
      assert false;
    }
  }

  // ---- Lookups after acceptance -----------------------------------------------------------

  /** What an accepted image promises to every later lookup: presets name zones, zones name samples
      and as many amounts as operators, references name programs, programs name terms. */
  lemma LookupsInRange(image: Bytes)
    requires Verdict(image) == Accepted
    ensures SectionsOk(image)
    ensures forall i | 0 <= i < Count(image, 0) ::
              PresetAt(image, i).firstZone + PresetAt(image, i).zoneCount <= Count(image, 1)
    ensures forall i | 0 <= i < Count(image, 1) :: ZoneAt(image, i).sampleIndex < Count(image, 3) && i < Count(image, 4)
    ensures forall i, op | 0 <= i < Count(image, 1) && 0 <= op < OPERATORS && BitAt(ZoneAt(image, i).presence, op) ::
              ZoneAt(image, i).firstGenerator + OnesBelow(ZoneAt(image, i).presence, op) < Count(image, 2)
    ensures forall i | 0 <= i < Count(image, 5) :: ProgramAt(image, i).firstTerm + ProgramAt(image, i).termCount <= Count(image, 6)
  {
    hide PresetAt, ZoneAt, SampleAt, RefsAt, ProgramAt, Count, SampleSound, RefsSound, OnesBelow, BitAt, Ones;
    forall i, op | 0 <= i < Count(image, 1) && 0 <= op < OPERATORS && BitAt(ZoneAt(image, i).presence, op)
      ensures ZoneAt(image, i).firstGenerator + OnesBelow(ZoneAt(image, i).presence, op) < Count(image, 2)
    {
      var z := ZoneAt(image, i);
      assert ZoneSound(z, Count(image, 2), Count(image, 3));
      OnesBefore(z.presence, op);
    }
    forall i | 0 <= i < Count(image, 5)
      ensures ProgramAt(image, i).firstTerm + ProgramAt(image, i).termCount <= Count(image, 6)
    {
      assert ProgramOk(image, i);
    }
  }

  /** A set operator has fewer set operators below it than there are in all. */
  lemma OnesBefore(x: nat, op: nat)
    requires Fits(x, OPERATORS) && op < OPERATORS && BitAt(x, op)
    ensures OnesBelow(x, op) < Ones(x)
  {
    OnesBelowAll(x, OPERATORS);
    OnesBelowMonotone(x, op + 1, OPERATORS);
  }

  /** Amount of one operator of a zone, zero if absent. */
  function Amount(image: Bytes, zone: Zone, op: nat): U16
    requires SectionsOk(image) && ZoneSound(zone, Count(image, 2), Count(image, 3)) && op < OPERATORS
  {
    if BitAt(zone.presence, op) then
      OnesBefore(zone.presence, op);
      AmountAt(image, zone.firstGenerator + OnesBelow(zone.presence, op))
    else 0
  }

  /** Spreads a zone's compact amounts over all operators. */
  method DecodeGenerators(image: Bytes, zoneIndex: nat) returns (ok: bool, amounts: array<U16>, presence: U64)
    requires SectionsOk(image)
    requires forall i | 0 <= i < Count(image, 1) :: ZoneSound(ZoneAt(image, i), Count(image, 2), Count(image, 3))
    ensures ok <==> zoneIndex < Count(image, 1)
    ensures fresh(amounts) && amounts.Length == OPERATORS
    ensures ok ==> presence == ZoneAt(image, zoneIndex).presence
    ensures ok ==> forall op | 0 <= op < OPERATORS :: amounts[op] == Amount(image, ZoneAt(image, zoneIndex), op)
  {
    hide SectionOk, ZoneAt, AmountAt, Count, ZoneSound, BitAt, Ones;
    amounts := new U16[OPERATORS](_ => 0);
    ok, presence := zoneIndex < Count(image, 1), 0;
    if !ok {
      return;
    }
    var zone := ZoneAt(image, zoneIndex);
    presence := zone.presence;
    var amountIndex := 0;
    for oper := 0 to OPERATORS
      invariant amountIndex == OnesBelow(zone.presence, oper)
      invariant forall op | 0 <= op < oper :: amounts[op] == Amount(image, zone, op)
      invariant forall op | oper <= op < OPERATORS :: amounts[op] == 0
    {
      if BitAt(zone.presence, oper) {
        AmountInRange(image, zone, oper);
        amounts[oper] := AmountAt(image, zone.firstGenerator + amountIndex);
        amountIndex := amountIndex + 1;
      }
    }
  }

  lemma AmountInRange(image: Bytes, zone: Zone, op: nat)
    requires SectionsOk(image) && ZoneSound(zone, Count(image, 2), Count(image, 3)) && op < OPERATORS
    requires BitAt(zone.presence, op)
    ensures 0 <= zone.firstGenerator + OnesBelow(zone.presence, op) < Count(image, 2)
  {
    OnesBefore(zone.presence, op);
  }
}
