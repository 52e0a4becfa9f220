/** Writing an asset image, and reading it back. */
module AssetImage {
  import opened CInt
  import opened ImageCrc
  import opened LittleEndian
  import opened PresenceBits
  import opened AssetFormat
  import opened AssetView

  /** The records of all seven sections. */
  datatype Asset = Asset(
    info: Info, presets: seq<Preset>, zones: seq<Zone>, amounts: seq<U16>, samples: seq<Sample>,
    refs: seq<Refs>, programs: seq<ProgramRecord>, terms: seq<TermRecord>)

  function EncodeAll<T>(xs: seq<T>, encode: T -> Bytes): (rs: seq<Bytes>)
    ensures |rs| == |xs| && forall i | 0 <= i < |xs| :: rs[i] == encode(xs[i])
  {
    seq(|xs|, i requires 0 <= i < |xs| => encode(xs[i]))
  }

  function SectionsOf(a: Asset): (recs: Sections)
    ensures Shaped(recs)
  {
    [EncodeAll(a.presets, p => PresetBytes(p)), EncodeAll(a.zones, z => ZoneBytes(z)), EncodeAll(a.amounts, x => Le16(x)),
     EncodeAll(a.samples, s => SampleBytes(s)), EncodeAll(a.refs, r => RefsBytes(r)),
     EncodeAll(a.programs, p => ProgramBytes(p)), EncodeAll(a.terms, t => TermBytes(t))]
  }

  predicate SignedPitches(a: Asset)
  {
    forall i | 0 <= i < |a.samples| :: -128 <= a.samples[i].correction < 128
  }

  // ---- The head reads back ----------------------------------------------------------------

  lemma {:induction false} WordsConcat(a: seq<U32>, b: seq<U32>)
    ensures Words(a + b) == Words(a) + Words(b)
  {
    hide Le32;
    if b == [] {
      assert a + b == a;
    } else {
      var n := |b| - 1;
      WordsConcat(a, b[..n]);
      assert (a + b)[..|a + b| - 1] == a + b[..n];
      assert Words(a) + (Words(b[..n]) + Le32(b[n])) == (Words(a) + Words(b[..n])) + Le32(b[n]);
    }
  }

  lemma HeadInside(info: Info, recs: Sections, crc: U32, k: nat)
    requires Shaped(recs) && Small(recs) && k < HEADER_WORDS + DIRECTORY_WORDS
    ensures var image := RawImage(info, recs, crc); var ws := HeadWords(info, recs, crc);
            && Read32(image, 4 * k) == ws[k] && Spells(image, 4 * k, Le32(ws[k]))
            && Read16(image, 4 * k) == ws[k] % 0x1_0000 && Read16(image, 4 * k + 2) == ws[k] / 0x1_0000
  {
    hide Words, Body, HeadWords, Le32, Read16;
    var image, ws := RawImage(info, recs, crc), HeadWords(info, recs, crc);
    assert Holds(image, 0, Words(ws));
    WordInside(image, 0, ws, k);
    SplitPair(ws[k]);
    PairInside(image, 0, ws, k, ws[k] % 0x1_0000, ws[k] / 0x1_0000);
  }

  lemma SplitPair(w: U32)
    ensures w == Pair(w % 0x1_0000, w / 0x1_0000)
  {
  }

  lemma PairParts(low: U16, high: U16)
    ensures Pair(low, high) % 0x1_0000 == low && Pair(low, high) / 0x1_0000 == high
  {
    DivUnique(Pair(low, high), 0x1_0000, high);
  }

  /** Word `j` of directory entry `k`. */
  lemma {:induction false} EntryInDirectory(recs: Sections, n: nat, k: nat, j: nat)
    requires Shaped(recs) && Small(recs) && k < n <= SECTIONS && j < 4
    ensures OffsetOf(recs, k) < TWO_32 && |recs[k]| < TWO_32
    ensures DirectoryUpTo(recs, n)[4 * k + j] == EntryWords(k, OffsetOf(recs, k), |recs[k]|)[j]
  {
    hide Body, EntryWords;
    SmallOffsets(recs, k);
    if k < n - 1 {
      EntryInDirectory(recs, n - 1, k, j);
    }
  }

  /** The directory says where each section is and how many records it has. */
  lemma DirectoryReads(info: Info, recs: Sections, crc: U32, k: nat)
    requires Shaped(recs) && Small(recs) && k < SECTIONS
    ensures var image := RawImage(info, recs, crc);
            && Sized(image) && Offset(image, k) == OffsetOf(recs, k) && Count(image, k) == |recs[k]|
            && Read16(image, EntryAt(k)) == k + 1 && Read16(image, EntryAt(k) + 2) == 1
            && Read32(image, EntryAt(k) + 12) == STRIDES[k]
  {
    hide Words, Body, Read16, Read32, Pair, Le32, DirectoryUpTo;
    EntryInDirectory(recs, SECTIONS, k, 0);
    EntryInDirectory(recs, SECTIONS, k, 1);
    EntryInDirectory(recs, SECTIONS, k, 2);
    EntryInDirectory(recs, SECTIONS, k, 3);
    var base := HEADER_WORDS + 4 * k;
    HeadInside(info, recs, crc, base);
    HeadInside(info, recs, crc, base + 1);
    HeadInside(info, recs, crc, base + 2);
    HeadInside(info, recs, crc, base + 3);
    PairParts(k + 1, 1);
  }

  /** The header alone, as words. */
  function Header(info: Info, recs: Sections, crc: U32): (ws: seq<U32>)
    requires Shaped(recs) && Small(recs)
    ensures |ws| == HEADER_WORDS
  {
    SmallOffsets(recs, 0);
    HeaderWords(info, BODY_OFFSET + |Body(recs)|, crc, |recs[0]|)
  }

  lemma HeaderWord(info: Info, recs: Sections, crc: U32, image: Bytes, k: nat)
    requires Shaped(recs) && Small(recs) && image == RawImage(info, recs, crc) && k < HEADER_WORDS
    ensures var w := Header(info, recs, crc)[k];
            && |image| >= BODY_OFFSET && Read32(image, 4 * k) == w
            && Read16(image, 4 * k) == w % 0x1_0000 && Read16(image, 4 * k + 2) == w / 0x1_0000
  {
    hide Words, Body, Read16, Read32, Pair, Le32, DirectoryUpTo, HeaderWords;
    HeadInside(info, recs, crc, k);
  }

  lemma MagicReads(info: Info, recs: Sections, crc: U32, image: Bytes)
    requires Shaped(recs) && Small(recs) && image == RawImage(info, recs, crc)
    ensures |image| >= BODY_OFFSET && image[0] == 0x4d && image[1] == 0x53 && image[2] == 0x46 && image[3] == 0x32
  {
    hide Words, Body, Read16, Read32, Pair, DirectoryUpTo;
    SmallOffsets(recs, 0);
    HeadInside(info, recs, crc, 0);
    var magic := Le32(MAGIC);
    assert magic[0] == 0x4d && magic[1] == 0x53 && magic[2] == 0x46 && magic[3] == 0x32;
    assert HeadWords(info, recs, crc)[0] == MAGIC;
  }

  /** The header passes every check that does not look at records. */
  lemma HeaderReads(info: Info, recs: Sections, crc: U32, image: Bytes)
    requires Shaped(recs) && Small(recs) && image == RawImage(info, recs, crc)
    ensures HeaderOk(image) && ProfileOk(image) && DirectoryOk(image)
    ensures Read32(image, 36) == crc && Read32(image, 68) == |recs[0]|
  {
    hide Words, Body, Read16, Read32, Pair, RawImage, Shaped, Small;
    MagicReads(info, recs, crc, image);
    HeaderWord(info, recs, crc, image, 1);
    HeaderWord(info, recs, crc, image, 2);
    PairParts(2, 96);
    RawSize(info, recs, crc);
    HeaderWord(info, recs, crc, image, 3);
    HeaderWord(info, recs, crc, image, 4);
    HeaderWord(info, recs, crc, image, 5);
    HeaderWord(info, recs, crc, image, 14);
    HeaderWord(info, recs, crc, image, 9);
    HeaderWord(info, recs, crc, image, 17);
    HeaderWord(info, recs, crc, image, 10);
    HeaderWord(info, recs, crc, image, 11);
    HeaderWord(info, recs, crc, image, 15);
    PairParts(7, 0);
  }

  lemma RawSize(info: Info, recs: Sections, crc: U32)
    requires Shaped(recs) && Small(recs)
    ensures |RawImage(info, recs, crc)| == BODY_OFFSET + |Body(recs)|
  {
  }

  lemma InfoReads(info: Info, recs: Sections, crc: U32, image: Bytes)
    requires Shaped(recs) && Small(recs) && image == RawImage(info, recs, crc)
    ensures |image| >= 96 && InfoOf(image) == info
  {
    hide Words, Body, Read16, Read32, Pair, RawImage, Shaped, Small, LowWord, HighWord, Join64;
    HeaderWord(info, recs, crc, image, 6);
    HeaderWord(info, recs, crc, image, 7);
    HeaderWord(info, recs, crc, image, 8);
    HeaderWord(info, recs, crc, image, 12);
    HeaderWord(info, recs, crc, image, 13);
    HeaderWord(info, recs, crc, image, 16);
    JoinedWords(info.sourceSize);
  }

  lemma JoinedWords(x: U64)
    ensures Join64(LowWord(x), HighWord(x)) == x
  {
  }

  // ---- The checksum field -----------------------------------------------------------------

  lemma WordsOne(w: U32)
    ensures Words([w]) == Le32(w)
  {
    assert Words([]) == [];
    assert [w][..0] == [];
  }

  /** Masking the checksum field undoes writing it, so the checksum covers it as zero. */
  lemma CrcFieldOnly(info: Info, recs: Sections, crc: U32)
    requires Shaped(recs) && Small(recs)
    ensures Masked(RawImage(info, recs, crc)) == RawImage(info, recs, 0)
    ensures Checksum(RawImage(info, recs, crc)) == Checksum(RawImage(info, recs, 0))
  {
    hide Words, Body, DirectoryUpTo, HeaderWords, Iso32, Masked;
    SmallOffsets(recs, 0);
    var n, size := |recs[0]|, BODY_OFFSET + |Body(recs)|;
    var before, after := HeadWords(info, recs, crc), HeadWords(info, recs, 0);
    HeadersDiffer(info, size, crc, n);
    var a, c := before[..9], before[10..];
    assert before == a + [crc] + c && after == a + [0] + c;
    SplitWords(a, crc, c);
    SplitWords(a, 0, c);
    var front, back := Words(a), Words(c) + Body(recs);
    assert RawImage(info, recs, crc) == front + Le32(crc) + back;
    assert RawImage(info, recs, 0) == front + Le32(0) + back;
    MaskField(front, Le32(crc), back);
    MaskField(front, Le32(0), back);
    assert Le32(0) == [0, 0, 0, 0];
  }

  lemma MaskField(front: Bytes, field: Bytes, back: Bytes)
    requires |front| == CRC_FIELD && |field| == 4
    ensures Masked(front + field + back) == front + [0, 0, 0, 0] + back
  {
  }

  lemma HeadersDiffer(info: Info, size: U32, crc: U32, n: U32)
    ensures var h, z := HeaderWords(info, size, crc, n), HeaderWords(info, size, 0, n);
            h[9] == crc && z[9] == 0 && h[..9] == z[..9] && h[10..] == z[10..]
  {
  }

  lemma SplitWords(a: seq<U32>, w: U32, c: seq<U32>)
    ensures Words(a + [w] + c) == Words(a) + Le32(w) + Words(c)
  {
    WordsConcat(a + [w], c);
    WordsConcat(a, [w]);
    WordsOne(w);
  }

  // ---- The records read back --------------------------------------------------------------

  /** All directory checks pass. */
  lemma SectionsRead(info: Info, recs: Sections, crc: U32, image: Bytes)
    requires Shaped(recs) && Small(recs) && image == RawImage(info, recs, crc)
    ensures SectionsOk(image)
    ensures forall k | 0 <= k < SECTIONS :: Count(image, k) == |recs[k]| && Offset(image, k) == OffsetOf(recs, k)
  {
    hide Words, Body, Read16, Read32, Flat, HeadWords, RawImage;
    forall k | 0 <= k < SECTIONS
      ensures Sized(image) && Count(image, k) == |recs[k]| && Offset(image, k) == OffsetOf(recs, k) && SectionOk(image, k)
    {
      SectionReads(info, recs, crc, image, k);
    }
  }

  lemma SectionReads(info: Info, recs: Sections, crc: U32, image: Bytes, k: nat)
    requires Shaped(recs) && Small(recs) && image == RawImage(info, recs, crc) && k < SECTIONS
    ensures Sized(image) && Count(image, k) == |recs[k]| && Offset(image, k) == OffsetOf(recs, k) && SectionOk(image, k)
  {
    hide Words, Body, Read16, Read32, Flat, HeadWords, RawImage, OffsetOf;
    DirectoryReads(info, recs, crc, k);
    RawSize(info, recs, crc);
    OffsetStep(recs, k);
    SmallOffsets(recs, k);
    if k > 0 {
      DirectoryReads(info, recs, crc, k - 1);
      OffsetStep(recs, k - 1);
      FlatSize(recs[k - 1], STRIDES[k - 1]);
    } else {
      FirstOffset(recs);
    }
  }

  lemma FirstOffset(recs: Sections)
    requires |recs| == SECTIONS
    ensures OffsetOf(recs, 0) == BODY_OFFSET
  {
  }

  /** Record `i` of section `k` lies where a lookup looks for it. */
  lemma RecordHolds(info: Info, recs: Sections, crc: U32, image: Bytes, k: nat, i: nat)
    requires Shaped(recs) && Small(recs) && image == RawImage(info, recs, crc) && k < SECTIONS && i < |recs[k]|
    requires SectionsOk(image) && Count(image, k) == |recs[k]| && Offset(image, k) == OffsetOf(recs, k)
    ensures Holds(image, RecordAt(image, k, i), recs[k][i])
  {
    hide Words, Body, Read16, Read32, Flat, HeadWords;
    SectionInBody(recs, k);
    FlatAt(recs[k], STRIDES[k], i);
    var from, flat := |Body(recs[..k])|, Flat(recs[k]);
    var o := RecordAt(image, k, i);
    var at, n := i * STRIDES[k], STRIDES[k];
    assert o == BODY_OFFSET + from + at;
    Nested(image, Words(HeadWords(info, recs, crc)), Body(recs), from, flat, at, n);
  }

  lemma Nested(image: Bytes, head: Bytes, body: Bytes, from: nat, flat: Bytes, at: nat, n: nat)
    requires image == head + body && from + |flat| <= |body| && body[from..from + |flat|] == flat && at + n <= |flat|
    ensures |head| + from + at + n <= |image| && image[|head| + from + at..|head| + from + at + n] == flat[at..at + n]
  {
    var o := |head| + from + at;
    assert image[o..o + n] == body[from + at..from + at + n] == body[from..from + |flat|][at..at + n];
  }

  /** An image says exactly what the asset says. */
  ghost predicate Reads(image: Bytes, a: Asset)
  {
    && SectionsOk(image) && |image| >= 96 && InfoOf(image) == a.info && Read32(image, 68) == |a.presets|
    && Count(image, 0) == |a.presets| && Count(image, 1) == |a.zones| && Count(image, 2) == |a.amounts|
    && Count(image, 3) == |a.samples| && Count(image, 4) == |a.refs| && Count(image, 5) == |a.programs|
    && Count(image, 6) == |a.terms|
    && (forall i | 0 <= i < |a.presets| :: PresetAt(image, i) == a.presets[i])
    && (forall i | 0 <= i < |a.zones| :: ZoneAt(image, i) == a.zones[i])
    && (forall i | 0 <= i < |a.amounts| :: AmountAt(image, i) == a.amounts[i])
    && (forall i | 0 <= i < |a.samples| :: SampleAt(image, i) == a.samples[i])
    && (forall i | 0 <= i < |a.refs| :: RefsAt(image, i) == a.refs[i])
    && (forall i | 0 <= i < |a.programs| :: ProgramAt(image, i) == a.programs[i])
    && (forall i | 0 <= i < |a.terms| :: TermAt(image, i) == a.terms[i])
  }

  /** Printing and parsing: every record of an image is the record that was written. */
  lemma ImageReads(a: Asset, crc: U32, image: Bytes)
    requires Small(SectionsOf(a)) && SignedPitches(a) && image == RawImage(a.info, SectionsOf(a), crc)
    ensures Reads(image, a)
  {
    hide Words, Body, Read16, Read32, Flat, HeadWords, RawImage, SectionOk, Count, Offset, RecordAt, Holds;
    hide PresetBytes, ZoneBytes, SampleBytes, RefsBytes, ProgramBytes, TermBytes, Le16;
    hide DecodePreset, DecodeZone, DecodeSample, DecodeRefs, DecodeProgram, DecodeTerm;
    var recs := SectionsOf(a);
    SectionsRead(a.info, recs, crc, image);
    HeaderReads(a.info, recs, crc, image);
    InfoReads(a.info, recs, crc, image);
    forall i | 0 <= i < |a.presets|
      ensures PresetAt(image, i) == a.presets[i]
    {
      RecordHolds(a.info, recs, crc, image, 0, i);
      PresetInside(image, RecordAt(image, 0, i), a.presets[i]);
    }
    forall i | 0 <= i < |a.zones|
      ensures ZoneAt(image, i) == a.zones[i]
    {
      RecordHolds(a.info, recs, crc, image, 1, i);
      ZoneInside(image, RecordAt(image, 1, i), a.zones[i]);
    }
    forall i | 0 <= i < |a.amounts|
      ensures AmountAt(image, i) == a.amounts[i]
    {
      RecordHolds(a.info, recs, crc, image, 2, i);
      AmountInside(image, RecordAt(image, 2, i), a.amounts[i]);
    }
    forall i | 0 <= i < |a.samples|
      ensures SampleAt(image, i) == a.samples[i]
    {
      RecordHolds(a.info, recs, crc, image, 3, i);
      SampleInside(image, RecordAt(image, 3, i), a.samples[i]);
    }
    forall i | 0 <= i < |a.refs|
      ensures RefsAt(image, i) == a.refs[i]
    {
      RecordHolds(a.info, recs, crc, image, 4, i);
      RefsInside(image, RecordAt(image, 4, i), a.refs[i]);
    }
    forall i | 0 <= i < |a.programs|
      ensures ProgramAt(image, i) == a.programs[i]
    {
      RecordHolds(a.info, recs, crc, image, 5, i);
      ProgramInside(image, RecordAt(image, 5, i), a.programs[i]);
    }
    forall i | 0 <= i < |a.terms|
      ensures TermAt(image, i) == a.terms[i]
    {
      RecordHolds(a.info, recs, crc, image, 6, i);
      TermInside(image, RecordAt(image, 6, i), a.terms[i]);
    }
  }

  /** What an asset must satisfy. */
  ghost predicate AssetSound(a: Asset)
  {
    && SpanOk(a.info) && |a.refs| == |a.zones|
    && (forall i | 0 <= i < |a.presets| :: PresetSound(a.presets[i], |a.zones|))
    && (forall i | 0 <= i < |a.zones| :: ZoneSound(a.zones[i], |a.amounts|, |a.samples|))
    && (forall i | 0 <= i < |a.samples| :: SampleSound(a.samples[i], a.info.wordCount))
    && (forall i | 0 <= i < |a.refs| :: RefsSound(a.refs[i], |a.programs|))
    && (forall i | 0 <= i < |a.programs| :: ProgramFits(a.programs[i], a.terms))
  }

  predicate ProgramFits(p: ProgramRecord, terms: seq<TermRecord>)
  {
    ProgramHeaderSound(p, |terms|) && ProgramSound(p, terms[p.firstTerm..p.firstTerm + p.termCount])
  }

  lemma ProgramsRead(image: Bytes, a: Asset, i: nat)
    requires Reads(image, a) && i < |a.programs|
    ensures ProgramOk(image, i) <==> ProgramFits(a.programs[i], a.terms)
  {
    hide SectionOk, Count, ProgramAt, TermAt, ProgramSound, RefsAt, SampleAt, AmountAt, ZoneAt, PresetAt;
    var p := a.programs[i];
    if ProgramHeaderSound(p, |a.terms|) {
      assert TermsAt(image, p.firstTerm, p.termCount) == a.terms[p.firstTerm..p.firstTerm + p.termCount];
    }
  }

  /** The firmware accepts the image of an asset exactly when the asset is sound. */
  lemma AcceptedExactly(a: Asset)
    requires Small(SectionsOf(a)) && SignedPitches(a)
    ensures var image := ImageOf(a.info, SectionsOf(a));
            && Reads(image, a) && (Verdict(image) == Accepted <==> AssetSound(a))
  {
    hide Words, Body, Read16, Read32, HeadWords, RawImage, SectionOk, Iso32, Masked;
    hide ProgramOk, ProgramFits, PresetSound, ZoneSound, SampleSound, RefsSound;
    var recs := SectionsOf(a);
    var crc := Checksum(RawImage(a.info, recs, 0));
    var image := RawImage(a.info, recs, crc);
    ImageReads(a, crc, image);
    HeaderReads(a.info, recs, crc, image);
    CrcFieldOnly(a.info, recs, crc);
    forall i | 0 <= i < |a.programs|
      ensures ProgramOk(image, i) <==> ProgramFits(a.programs[i], a.terms)
    {
      ProgramsRead(image, a, i);
    }
    RecordsAgree(image, a);
  }

  lemma RecordsAgree(image: Bytes, a: Asset)
    requires Reads(image, a)
    requires forall i | 0 <= i < |a.programs| :: ProgramOk(image, i) <==> ProgramFits(a.programs[i], a.terms)
    ensures SpanOk(InfoOf(image)) && RecordsOk(image) <==> AssetSound(a)
  {
    hide SectionOk, Count, PresetAt, ZoneAt, AmountAt, SampleAt, RefsAt, ProgramAt, TermAt, InfoOf, Read32;
    hide ProgramOk, ProgramFits, PresetSound, ZoneSound, SampleSound, RefsSound;
  }
}
