/**
 The compact asset image: a header of 24 words, a directory of seven sections, and the sections'
 records, each section padded to a word boundary.
 */
module AssetFormat {
  import opened CInt
  import opened ImageCrc
  import opened LittleEndian
  import opened PresenceBits

  const HEADER_WORDS: int := 24
  const DIRECTORY_WORDS: int := 28
  const BODY_OFFSET: int := 208
  const SECTIONS: int := 7
  const STRIDES: seq<int> := [12, 20, 2, 22, 3, 12, 12]
  const MAGIC: U32 := 0x3246_534d
  const SAMPLE_RATE: U32 := 48000
  const CONTROL_TICK_SAMPLES: U32 := 48
  const PROFILE_CRC32: U32 := 0xa769_5a6c
  const OPERATORS: int := 61
  const ABSENT: U8 := 255

  type U64 = x: int | 0 <= x < 0x1_0000_0000_0000_0000

  // ---- Records ----------------------------------------------------------------------------

  datatype Preset = Preset(program: U16, bank: U16, firstZone: U32, zoneCount: U32)

  datatype Zone = Zone(keyLow: U8, keyHigh: U8, velocityLow: U8, velocityHigh: U8, firstGenerator: U32,
                       generatorCount: U16, sampleIndex: U16, presence: U64)

  datatype Sample = Sample(start: U32, end: U32, startLoop: U32, endLoop: U32, rate: U32, pitch: U8, correction: int)

  datatype Refs = Refs(gain: U8, pitch: U8, filter: U8)

  datatype ProgramRecord = ProgramRecord(firstTerm: U32, termCount: U16, noteCount: U16, dependencies: U16, family: U8, reserved: U8)

  datatype TermRecord = TermRecord(source: U16, destination: U16, amount: U16, amountSource: U16,
                                   transform: U16, dependencies: U16)

  function LowWord(x: U64): U32 { x % 0x1_0000_0000 }

  function HighWord(x: U64): U32 { x / 0x1_0000_0000 }

  function Join64(low: U32, high: U32): U64
  {
    var l: int, h: int := low, high;
    l + h * 0x1_0000_0000
  }

  function SignedByte(b: U8): int { if b >= 128 then b - 256 else b }

  function PresetWords(p: Preset): seq<U32> { [Pair(p.program, p.bank), p.firstZone, p.zoneCount] }

  function ZoneWords(z: Zone): seq<U32>
  {
    [Pair(Join16(z.keyLow, z.keyHigh), Join16(z.velocityLow, z.velocityHigh)), z.firstGenerator,
     Pair(z.generatorCount, z.sampleIndex), LowWord(z.presence), HighWord(z.presence)]
  }

  function SampleWords(s: Sample): seq<U32> { [s.start, s.end, s.startLoop, s.endLoop, s.rate] }

  function ProgramWords(p: ProgramRecord): seq<U32>
  {
    [p.firstTerm, Pair(p.termCount, p.noteCount), Pair(p.dependencies, Join16(p.family, p.reserved))]
  }

  function TermWords(t: TermRecord): seq<U32>
  {
    [Pair(t.source, t.destination), Pair(t.amount, t.amountSource), Pair(t.transform, t.dependencies)]
  }

  function PresetBytes(p: Preset): (b: Bytes) ensures |b| == 12 { Words(PresetWords(p)) }

  function ZoneBytes(z: Zone): (b: Bytes) ensures |b| == 20 { Words(ZoneWords(z)) }

  function SampleBytes(s: Sample): (b: Bytes) ensures |b| == 22 { Words(SampleWords(s)) + [s.pitch, s.correction % 256] }

  function RefsBytes(r: Refs): (b: Bytes) ensures |b| == 3 { [r.gain, r.pitch, r.filter] }

  function ProgramBytes(p: ProgramRecord): (b: Bytes) ensures |b| == 12 { Words(ProgramWords(p)) }

  function TermBytes(t: TermRecord): (b: Bytes) ensures |b| == 12 { Words(TermWords(t)) }

  function DecodePreset(image: Bytes, o: int): Preset
    requires Room(image, o, 12)
  {
    Preset(Read16(image, o), Read16(image, o + 2), Read32(image, o + 4), Read32(image, o + 8))
  }

  function DecodeZone(image: Bytes, o: int): Zone
    requires Room(image, o, 20)
  {
    Zone(image[o], image[o + 1], image[o + 2], image[o + 3], Read32(image, o + 4), Read16(image, o + 8),
         Read16(image, o + 10), Join64(Read32(image, o + 12), Read32(image, o + 16)))
  }

  function DecodeSample(image: Bytes, o: int): Sample
    requires Room(image, o, 22)
  {
    Sample(Read32(image, o), Read32(image, o + 4), Read32(image, o + 8), Read32(image, o + 12), Read32(image, o + 16),
           image[o + 20], SignedByte(image[o + 21]))
  }

  function DecodeRefs(image: Bytes, o: int): Refs
    requires Room(image, o, 3)
  {
    Refs(image[o], image[o + 1], image[o + 2])
  }

  function DecodeProgram(image: Bytes, o: int): ProgramRecord
    requires Room(image, o, 12)
  {
    ProgramRecord(Read32(image, o), Read16(image, o + 4), Read16(image, o + 6), Read16(image, o + 8), image[o + 10], image[o + 11])
  }

  function DecodeTerm(image: Bytes, o: int): TermRecord
    requires Room(image, o, 12)
  {
    TermRecord(Read16(image, o), Read16(image, o + 2), Read16(image, o + 4), Read16(image, o + 6),
               Read16(image, o + 8), Read16(image, o + 10))
  }

  lemma PresetInside(image: Bytes, o: int, p: Preset)
    requires Holds(image, o, PresetBytes(p))
    ensures DecodePreset(image, o) == p
  {
    hide Words, Read16, Read32, Pair;
    var ws := PresetWords(p);
    PairInside(image, o, ws, 0, p.program, p.bank);
    WordInside(image, o, ws, 1);
    WordInside(image, o, ws, 2);
  }

  lemma ZoneInside(image: Bytes, o: int, z: Zone)
    requires Holds(image, o, ZoneBytes(z))
    ensures DecodeZone(image, o) == z
  {
    hide Words, Read32, Pair, Le32, Join16;
    var ws := ZoneWords(z);
    PairInside(image, o, ws, 0, Join16(z.keyLow, z.keyHigh), Join16(z.velocityLow, z.velocityHigh));
    BytesOfJoin(z.keyLow, z.keyHigh, image[o], image[o + 1]);
    BytesOfJoin(z.velocityLow, z.velocityHigh, image[o + 2], image[o + 3]);
    WordInside(image, o, ws, 1);
    PairInside(image, o, ws, 2, z.generatorCount, z.sampleIndex);
    WordInside(image, o, ws, 3);
    WordInside(image, o, ws, 4);
  }

  lemma BytesOfJoin(a: U8, b: U8, c: U8, d: U8)
    requires Join16(a, b) == Join16(c, d)
    ensures a == c && b == d
  {
  }

  lemma SampleInside(image: Bytes, o: int, s: Sample)
    requires Holds(image, o, SampleBytes(s)) && -128 <= s.correction < 128
    ensures DecodeSample(image, o) == s
  {
    hide Words, Read32, Le32;
    var ws := SampleWords(s);
    assert image[o..o + 20] == image[o..o + 22][..20] == Words(ws);
    WordInside(image, o, ws, 0);
    WordInside(image, o, ws, 1);
    WordInside(image, o, ws, 2);
    WordInside(image, o, ws, 3);
    WordInside(image, o, ws, 4);
    assert image[o + 20] == image[o..o + 22][20] && image[o + 21] == image[o..o + 22][21];
  }

  lemma RefsInside(image: Bytes, o: int, r: Refs)
    requires Holds(image, o, RefsBytes(r))
    ensures DecodeRefs(image, o) == r
  {
    var piece := image[o..o + 3];
    assert image[o] == piece[0] && image[o + 1] == piece[1] && image[o + 2] == piece[2];
  }

  lemma ProgramInside(image: Bytes, o: int, p: ProgramRecord)
    requires Holds(image, o, ProgramBytes(p))
    ensures DecodeProgram(image, o) == p
  {
    hide Words, Read32, Pair, Le32, Join16;
    var ws := ProgramWords(p);
    WordInside(image, o, ws, 0);
    PairInside(image, o, ws, 1, p.termCount, p.noteCount);
    PairInside(image, o, ws, 2, p.dependencies, Join16(p.family, p.reserved));
    BytesOfJoin(p.family, p.reserved, image[o + 10], image[o + 11]);
  }

  lemma TermInside(image: Bytes, o: int, t: TermRecord)
    requires Holds(image, o, TermBytes(t))
    ensures DecodeTerm(image, o) == t
  {
    hide Words, Read32, Pair, Le32, Join16;
    var ws := TermWords(t);
    PairInside(image, o, ws, 0, t.source, t.destination);
    PairInside(image, o, ws, 1, t.amount, t.amountSource);
    PairInside(image, o, ws, 2, t.transform, t.dependencies);
  }

  lemma AmountInside(image: Bytes, o: int, amount: U16)
    requires Holds(image, o, Le16(amount))
    ensures Read16(image, o) == amount
  {
    assert image[o] == image[o..o + 2][0] && image[o + 1] == image[o..o + 2][1];
  }

  // ---- Sections ---------------------------------------------------------------------------

  function Flat(rs: seq<Bytes>): Bytes
  {
    if rs == [] then [] else Flat(rs[..|rs| - 1]) + rs[|rs| - 1]
  }

  predicate Uniform(rs: seq<Bytes>, stride: nat) { forall i | 0 <= i < |rs| :: |rs[i]| == stride }

  lemma {:induction false} FlatSize(rs: seq<Bytes>, stride: nat)
    requires Uniform(rs, stride)
    ensures |Flat(rs)| == |rs| * stride
  {
    if rs != [] {
      FlatSize(rs[..|rs| - 1], stride);
      assert |rs| * stride == (|rs| - 1) * stride + stride;
    }
  }

  /** Record `i` of a section lies `i` strides into it. */
  lemma {:induction false} FlatAt(rs: seq<Bytes>, stride: nat, i: nat)
    requires Uniform(rs, stride) && i < |rs|
    ensures 0 <= i * stride && i * stride + stride <= |Flat(rs)|
    ensures Flat(rs)[i * stride..i * stride + stride] == rs[i]
  {
    var n := |rs| - 1;
    var front := Flat(rs[..n]);
    FlatSize(rs[..n], stride);
    assert i * stride >= 0 by { MulMonotone(0, i, stride); }
    if i == n {
      assert (front + rs[n])[n * stride..n * stride + stride] == rs[n];
    } else {
      FlatAt(rs[..n], stride, i);
      assert (front + rs[n])[i * stride..i * stride + stride] == front[i * stride..i * stride + stride];
    }
  }

  function Padding(n: nat): (b: Bytes)
    ensures (n + |b|) % 4 == 0 && |b| < 4
  {
    if n % 4 == 0 then [] else if n % 4 == 1 then [0, 0, 0] else if n % 4 == 2 then [0, 0] else [0]
  }

  function Padded(b: Bytes): (r: Bytes)
    ensures |r| % 4 == 0 && |b| <= |r| && r[..|b|] == b
  {
    b + Padding(|b|)
  }

  type Sections = seq<seq<Bytes>>

  function Body(recs: Sections): Bytes
  {
    if recs == [] then [] else Body(recs[..|recs| - 1]) + Padded(Flat(recs[|recs| - 1]))
  }

  lemma {:induction false} BodyAligned(recs: Sections)
    ensures |Body(recs)| % 4 == 0
  {
    hide Flat, Padded;
    if recs != [] {
      var n := |recs| - 1;
      BodyAligned(recs[..n]);
      AlignedSum(|Body(recs[..n])|, |Padded(Flat(recs[n]))|);
    }
  }

  lemma AlignedSum(a: int, b: int)
    requires a % 4 == 0 && b % 4 == 0
    ensures (a + b) % 4 == 0
  {
  }

  /** Where section `k` begins. */
  function OffsetOf(recs: Sections, k: nat): nat
    requires k <= |recs|
  {
    BODY_OFFSET + |Body(recs[..k])|
  }

  predicate Shaped(recs: Sections)
  {
    |recs| == SECTIONS && forall k | 0 <= k < SECTIONS :: Uniform(recs[k], STRIDES[k])
  }

  lemma OffsetStep(recs: Sections, k: nat)
    requires k < |recs|
    ensures OffsetOf(recs, k) % 4 == 0
    ensures OffsetOf(recs, k) + |Flat(recs[k])| <= OffsetOf(recs, k + 1)
    ensures Body(recs[..k + 1]) == Body(recs[..k]) + Padded(Flat(recs[k]))
  {
    hide Flat, Padded;
    BodyAligned(recs[..k]);
    AlignedSum(BODY_OFFSET, |Body(recs[..k])|);
    assert recs[..k + 1][..k] == recs[..k];
  }

  lemma {:induction false} OffsetMonotone(recs: Sections, k: nat, l: nat)
    requires k <= l <= |recs|
    ensures OffsetOf(recs, k) <= OffsetOf(recs, l) && Body(recs[..k]) <= Body(recs[..l])
  {
    hide Body, Flat, Padded;
    if k < l {
      OffsetMonotone(recs, k, l - 1);
      OffsetStep(recs, l - 1);
      assert Body(recs[..l - 1]) <= Body(recs[..l]);
    }
  }

  /** A whole section in place. */
  lemma SectionInBody(recs: Sections, k: nat)
    requires k < |recs|
    ensures var from := |Body(recs[..k])|;
            from + |Flat(recs[k])| <= |Body(recs)| && Body(recs)[from..from + |Flat(recs[k])|] == Flat(recs[k])
  {
    hide Body, Flat;
    OffsetStep(recs, k);
    OffsetMonotone(recs, k + 1, |recs|);
    assert recs[..|recs|] == recs;
    var b, from, flat := Body(recs[..k + 1]), |Body(recs[..k])|, Flat(recs[k]);
    assert b[from..from + |flat|] == Padded(flat)[..|flat|];
    assert Body(recs)[from..from + |flat|] == b[from..from + |flat|];
  }

  // ---- The image --------------------------------------------------------------------------

  /** What the header says beside sizes and offsets. */
  datatype Info = Info(sourceSize: U64, sourceCrc: U32, wordOffset: U32, wordCount: U32, selectionCrc: U32)

  function HeaderWords(info: Info, size: U32, imageCrc: U32, presets: U32): (ws: seq<U32>)
    ensures |ws| == HEADER_WORDS
  {
    [MAGIC, Pair(2, 96), size, 0, SAMPLE_RATE, CONTROL_TICK_SAMPLES,
     LowWord(info.sourceSize), HighWord(info.sourceSize), info.sourceCrc, imageCrc,
     96, Pair(7, 0), info.wordOffset, info.wordCount, PROFILE_CRC32, 1, info.selectionCrc, presets,
     0, 0, 0, 0, 0, 0]
  }

  /** Directory entry of section `k`. */
  function EntryWords(k: nat, offset: U32, count: U32): (ws: seq<U32>)
    requires k < SECTIONS
    ensures |ws| == 4
  {
    [Pair(k + 1, 1), offset, count, STRIDES[k]]
  }

  /** Small enough for 32-bit offsets and counts. */
  predicate Small(recs: Sections)
  {
    BODY_OFFSET + |Body(recs)| < TWO_32
  }

  lemma SmallOffsets(recs: Sections, k: nat)
    requires Shaped(recs) && Small(recs) && k < SECTIONS
    ensures OffsetOf(recs, k) < TWO_32 && |recs[k]| < TWO_32
    ensures OffsetOf(recs, k) + |recs[k]| * STRIDES[k] <= BODY_OFFSET + |Body(recs)|
  {
    hide Body, Flat;
    SectionInBody(recs, k);
    FlatSize(recs[k], STRIDES[k]);
    MulMonotone(1, STRIDES[k], |recs[k]|);
  }

  function DirectoryUpTo(recs: Sections, n: nat): (ws: seq<U32>)
    requires Shaped(recs) && Small(recs) && n <= SECTIONS
    ensures |ws| == 4 * n
  {
    if n == 0 then []
    else
      SmallOffsets(recs, n - 1);
      DirectoryUpTo(recs, n - 1) + EntryWords(n - 1, OffsetOf(recs, n - 1), |recs[n - 1]|)
  }

  function HeadWords(info: Info, recs: Sections, imageCrc: U32): (ws: seq<U32>)
    requires Shaped(recs) && Small(recs)
    ensures |ws| == HEADER_WORDS + DIRECTORY_WORDS
  {
    SmallOffsets(recs, 0);
    HeaderWords(info, BODY_OFFSET + |Body(recs)|, imageCrc, |recs[0]|) + DirectoryUpTo(recs, SECTIONS)
  }

  function RawImage(info: Info, recs: Sections, imageCrc: U32): (image: Bytes)
    requires Shaped(recs) && Small(recs)
    ensures |image| == BODY_OFFSET + |Body(recs)|
  {
    Words(HeadWords(info, recs, imageCrc)) + Body(recs)
  }

  /** The image of an asset. */
  function ImageOf(info: Info, recs: Sections): (image: Bytes)
    requires Shaped(recs) && Small(recs)
    ensures |image| == BODY_OFFSET + |Body(recs)|
  {
    RawImage(info, recs, Checksum(RawImage(info, recs, 0)))
  }
}
