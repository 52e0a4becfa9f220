/** The asset builder: zones made compact, records appended, header fields patched in. */
module AssetBuild {
  import opened CInt
  import opened ImageCrc
  import opened LittleEndian
  import opened PresenceBits
  import opened AssetFormat
  import opened AssetView
  import opened AssetImage
  import opened Wrappers

  // ---- Patching fields --------------------------------------------------------------------

  function Write16(image: Bytes, o: nat, v: U16): (r: Bytes)
    requires o + 2 <= |image|
    ensures |r| == |image|
  {
    image[..o] + Le16(v) + image[o + 2..]
  }

  function Write32(image: Bytes, o: nat, v: U32): (r: Bytes)
    requires o + 4 <= |image|
    ensures |r| == |image|
  {
    image[..o] + Le32(v) + image[o + 4..]
  }

  /** Writing an aligned word changes that word of the head. */
  lemma WriteWord(ws: seq<U32>, k: nat, v: U32, rest: Bytes)
    requires k < |ws|
    ensures Write32(Words(ws) + rest, 4 * k, v) == Words(ws[k := v]) + rest
  {
    hide Words, Le32;
    var a, c := ws[..k], ws[k + 1..];
    assert ws == a + [ws[k]] + c && ws[k := v] == a + [v] + c;
    SplitWords(a, ws[k], c);
    SplitWords(a, v, c);
    var image := Words(ws) + rest;
    assert image == Words(a) + Le32(ws[k]) + Words(c) + rest;
    assert image[..4 * k] == Words(a) && image[4 * k + 4..] == Words(c) + rest;
  }

  lemma PairBytes(low: U16, high: U16)
    ensures Le32(Pair(low, high)) == Le16(low) + Le16(high)
  {
    var p: int := Pair(low, high);
    DivUnique(p, 0x1_0000, high);
    DivUnique(p, 0x100_0000, high / 0x100);
    DivUnique(p, 0x100, high * 0x100 + low / 0x100);
    ModShift(low / 0x100, high, 0x100);
    ModShift(high % 0x100, high / 0x100, 0x100);
    ModShift(low % 0x100, high * 0x100 + low / 0x100, 0x100);
  }

  /** Two halves written one after the other make a word. */
  lemma WriteHalves(ws: seq<U32>, k: nat, low: U16, high: U16, rest: Bytes)
    requires k < |ws|
    ensures Write16(Write16(Words(ws) + rest, 4 * k, low), 4 * k + 2, high) == Words(ws[k := Pair(low, high)]) + rest
  {
    hide Words, Le32, Le16, Pair;
    WriteWord(ws, k, Pair(low, high), rest);
    PairBytes(low, high);
    var image := Words(ws) + rest;
    var first := Write16(image, 4 * k, low);
    assert first[..4 * k + 2] == image[..4 * k] + Le16(low) && first[4 * k + 4..] == image[4 * k + 4..];
    assert Write16(first, 4 * k + 2, high) == image[..4 * k] + (Le16(low) + Le16(high)) + image[4 * k + 4..];
  }

  // ---- Sections ---------------------------------------------------------------------------

  function Blank(n: nat): (ws: seq<U32>)
    ensures |ws| == n
  {
    seq(n, _ => 0)
  }

  /** Zeros up to the next word boundary. */
  method AlignFour(image: Bytes) returns (r: Bytes)
    ensures r == image + Padding(|image|)
  {
    r := image;
    var target := |image| + |Padding(|image|)|;
    while |r| % 4 != 0
      invariant |image| <= |r| <= target && r == image + Padding(|image|)[..|r| - |image|]
      decreases target - |r|
    {
      var done := |r| - |image|;
      assert Padding(|image|)[..done + 1] == Padding(|image|)[..done] + [0];
      r := r + [0];
    }
    assert |r| == target;
    assert Padding(|image|)[..|Padding(|image|)|] == Padding(|image|);
  }

  /** Appends the records of one section, and says where they start. */
  method AppendSection(image: Bytes, rs: seq<Bytes>) returns (r: Bytes, offset: nat)
    requires |image| % 4 == 0
    ensures offset == |image| && r == image + Padded(Flat(rs))
  {
    hide Flat, Padding;
    offset := |image|;
    r := image;
    FlatNone(rs);
    for i := 0 to |rs|
      invariant r == image + Flat(rs[..i])
    {
      FlatSnoc(rs, i);
      r := r + rs[i];
    }
    assert rs[..|rs|] == rs;
    ghost var flat := Flat(rs);
    SamePadding(|image|, |flat|);
    r := AlignFour(r);
    assert r == image + (flat + Padding(|flat|));
  }

  lemma FlatNone(rs: seq<Bytes>)
    ensures Flat(rs[..0]) == []
  {
  }

  lemma FlatSnoc(rs: seq<Bytes>, i: nat)
    requires i < |rs|
    ensures Flat(rs[..i + 1]) == Flat(rs[..i]) + rs[i]
  {
    assert rs[..i + 1][..i] == rs[..i];
  }

  lemma SamePadding(a: nat, b: nat)
    requires a % 4 == 0
    ensures Padding(a + b) == Padding(b)
  {
    assert (a + b) % 4 == b % 4;
  }

  /** Appends all seven sections behind a blank head. */
  method AppendSections(recs: Sections) returns (image: Bytes, offsets: seq<nat>)
    requires Shaped(recs)
    ensures image == Words(Blank(HEADER_WORDS + DIRECTORY_WORDS)) + Body(recs)
    ensures |offsets| == SECTIONS && forall k | 0 <= k < SECTIONS :: offsets[k] == OffsetOf(recs, k)
  {
    hide Words, Body, Flat, Padded;
    ghost var head := Words(Blank(HEADER_WORDS + DIRECTORY_WORDS));
    image := Words(Blank(HEADER_WORDS + DIRECTORY_WORDS));
    offsets := [];
    NoBody(recs);
    for k := 0 to SECTIONS
      invariant image == head + Body(recs[..k]) && |offsets| == k
      invariant forall j | 0 <= j < k :: offsets[j] == OffsetOf(recs, j)
    {
      OffsetStep(recs, k);
      BodyAligned(recs[..k]);
      AlignedSum(|head|, |Body(recs[..k])|);
      ghost var before := image;
      var offset;
      image, offset := AppendSection(image, recs[k]);
      assert image == head + (Body(recs[..k]) + Padded(Flat(recs[k])));
      offsets := offsets + [offset];
    }
    assert recs[..SECTIONS] == recs;
  }

  lemma NoBody(recs: Sections)
    ensures Body(recs[..0]) == []
  {
  }

  // ---- The head ---------------------------------------------------------------------------

  /** Patches the header into a blank head. */
  method WriteHeader(info: Info, recs: Sections, blank: Bytes) returns (image: Bytes)
    requires Shaped(recs) && Small(recs)
    requires blank == Words(Blank(HEADER_WORDS + DIRECTORY_WORDS)) + Body(recs)
    ensures image == Words(Header(info, recs, 0) + Blank(DIRECTORY_WORDS)) + Body(recs)
  {
    hide Words, Body, Le32, Le16, Pair;
    SmallOffsets(recs, 0);
    ghost var rest, ws := Body(recs), Blank(HEADER_WORDS + DIRECTORY_WORDS);
    var size := |blank|;
    image := blank;
    WriteWord(ws, 0, MAGIC, rest);
    ws := ws[0 := MAGIC];
    image := Write32(image, 0, MAGIC);
    WriteHalves(ws, 1, 2, 96, rest);
    ws := ws[1 := Pair(2, 96)];
    image := Write16(Write16(image, 4, 2), 6, 96);
    WriteWord(ws, 2, size, rest);
    ws := ws[2 := size];
    image := Write32(image, 8, size);
    WriteWord(ws, 4, SAMPLE_RATE, rest);
    ws := ws[4 := SAMPLE_RATE];
    image := Write32(image, 16, SAMPLE_RATE);
    WriteWord(ws, 5, CONTROL_TICK_SAMPLES, rest);
    ws := ws[5 := CONTROL_TICK_SAMPLES];
    image := Write32(image, 20, CONTROL_TICK_SAMPLES);
    WriteWord(ws, 6, LowWord(info.sourceSize), rest);
    ws := ws[6 := LowWord(info.sourceSize)];
    image := Write32(image, 24, LowWord(info.sourceSize));
    WriteWord(ws, 7, HighWord(info.sourceSize), rest);
    ws := ws[7 := HighWord(info.sourceSize)];
    image := Write32(image, 28, HighWord(info.sourceSize));
    WriteWord(ws, 8, info.sourceCrc, rest);
    ws := ws[8 := info.sourceCrc];
    image := Write32(image, 32, info.sourceCrc);
    image := WriteRest(info, recs, ws, image);
  }

  method WriteRest(info: Info, recs: Sections, ghost head: seq<U32>, before: Bytes) returns (image: Bytes)
    requires Shaped(recs) && Small(recs) && |head| == HEADER_WORDS + DIRECTORY_WORDS
    requires before == Words(head) + Body(recs)
    requires head[..9] == Header(info, recs, 0)[..9] && forall k | 9 <= k < |head| :: head[k] == 0
    ensures image == Words(Header(info, recs, 0) + Blank(DIRECTORY_WORDS)) + Body(recs)
  {
    hide Words, Body, Le32, Le16, Pair;
    SmallOffsets(recs, 0);
    ghost var rest, ws := Body(recs), head;
    image := before;
    WriteWord(ws, 10, 96, rest);
    ws := ws[10 := 96];
    image := Write32(image, 40, 96);
    WriteHalves(ws, 11, 7, 0, rest);
    SecondHalfBlank(ws, 11, 7, rest);
    ws := ws[11 := Pair(7, 0)];
    image := Write16(image, 44, 7);
    WriteWord(ws, 12, info.wordOffset, rest);
    ws := ws[12 := info.wordOffset];
    image := Write32(image, 48, info.wordOffset);
    WriteWord(ws, 13, info.wordCount, rest);
    ws := ws[13 := info.wordCount];
    image := Write32(image, 52, info.wordCount);
    WriteWord(ws, 14, PROFILE_CRC32, rest);
    ws := ws[14 := PROFILE_CRC32];
    image := Write32(image, 56, PROFILE_CRC32);
    WriteWord(ws, 15, 1, rest);
    ws := ws[15 := 1];
    image := Write32(image, 60, 1);
    WriteWord(ws, 16, info.selectionCrc, rest);
    ws := ws[16 := info.selectionCrc];
    image := Write32(image, 64, info.selectionCrc);
    WriteWord(ws, 17, |recs[0]|, rest);
    ws := ws[17 := |recs[0]|];
    image := Write32(image, 68, |recs[0]|);
    HeaderDone(info, recs, head, ws);
  }

  /** A half word written over a blank word. */
  lemma SecondHalfBlank(ws: seq<U32>, k: nat, low: U16, rest: Bytes)
    requires k < |ws| && ws[k] == 0
    ensures Write16(Words(ws) + rest, 4 * k, low) == Words(ws[k := Pair(low, 0)]) + rest
  {
    hide Words, Pair;
    WriteHalves(ws, k, low, 0, rest);
    WriteHalves(ws, k, 0, 0, rest);
    var image := Words(ws) + rest;
    assert Pair(0, 0) == 0 by { PairZero(); }
    assert ws[k := 0] == ws;
    var cleared := Write16(Write16(image, 4 * k, 0), 4 * k + 2, 0);
    assert cleared == image;
    assert cleared[4 * k + 2..4 * k + 4] == Le16(0);
    var first := Write16(image, 4 * k, low);
    assert first[4 * k + 2..4 * k + 4] == Le16(0);
    assert Write16(first, 4 * k + 2, 0) == first;
  }

  lemma PairZero()
    ensures Pair(0, 0) == 0
  {
  }

  lemma HeaderDone(info: Info, recs: Sections, head: seq<U32>, ws: seq<U32>)
    requires Shaped(recs) && Small(recs) && |head| == HEADER_WORDS + DIRECTORY_WORDS && |recs[0]| < TWO_32
    requires head[..9] == Header(info, recs, 0)[..9] && forall k | 9 <= k < |head| :: head[k] == 0
    requires ws == head[10 := 96][11 := Pair(7, 0)][12 := info.wordOffset][13 := info.wordCount][14 := PROFILE_CRC32]
                       [15 := 1][16 := info.selectionCrc][17 := |recs[0]|]
    ensures ws == Header(info, recs, 0) + Blank(DIRECTORY_WORDS)
  {
    hide Words, Body, Pair;
    var h := Header(info, recs, 0) + Blank(DIRECTORY_WORDS);
    forall k | 0 <= k < |ws|
      ensures ws[k] == h[k]
    {
      if k < 9 {
        assert head[..9][k] == Header(info, recs, 0)[..9][k];
      }
    }
  }

  /** Patches one directory entry. */
  method WriteEntry(image: Bytes, ghost ws: seq<U32>, ghost rest: Bytes, k: nat, offset: U32, count: U32) returns (r: Bytes)
    requires k < SECTIONS && |ws| == HEADER_WORDS + DIRECTORY_WORDS && image == Words(ws) + rest
    ensures r == Words(Entered(ws, k, offset, count)) + rest
  {
    hide Words, Le32, Le16, Pair, Write16, Write32;
    ghost var base: nat := HEADER_WORDS + 4 * k;
    var o := EntryAt(k);
    WriteHalves(ws, base, k + 1, 1, rest);
    ghost var w1 := ws[base := Pair(k + 1, 1)];
    r := Write16(Write16(image, o, k + 1), o + 2, 1);
    WriteWord(w1, base + 1, offset, rest);
    r := Write32(r, o + 4, offset);
    ghost var w2 := w1[base + 1 := offset];
    WriteWord(w2, base + 2, count, rest);
    r := Write32(r, o + 8, count);
    ghost var w3 := w2[base + 2 := count];
    WriteWord(w3, base + 3, STRIDES[k], rest);
    r := Write32(r, o + 12, STRIDES[k]);
  }

  function Entered(ws: seq<U32>, k: nat, offset: U32, count: U32): (r: seq<U32>)
    requires k < SECTIONS && |ws| == HEADER_WORDS + DIRECTORY_WORDS
    ensures |r| == |ws|
  {
    var base := HEADER_WORDS + 4 * k;
    ws[base := Pair(k + 1, 1)][base + 1 := offset][base + 2 := count][base + 3 := STRIDES[k]]
  }

  lemma EnteredDirectory(recs: Sections, head: seq<U32>, k: nat)
    requires Shaped(recs) && Small(recs) && k < SECTIONS && |head| == HEADER_WORDS
    ensures OffsetOf(recs, k) < TWO_32 && |recs[k]| < TWO_32
    ensures Entered(head + DirectoryUpTo(recs, k) + Blank(DIRECTORY_WORDS - 4 * k), k, OffsetOf(recs, k), |recs[k]|)
            == head + DirectoryUpTo(recs, k + 1) + Blank(DIRECTORY_WORDS - 4 * (k + 1))
  {
    hide Body, Pair, DirectoryUpTo;
    SmallOffsets(recs, k);
    DirectoryStep(recs, k);
  }

  lemma DirectoryStep(recs: Sections, k: nat)
    requires Shaped(recs) && Small(recs) && k < SECTIONS && OffsetOf(recs, k) < TWO_32 && |recs[k]| < TWO_32
    ensures DirectoryUpTo(recs, k + 1) == DirectoryUpTo(recs, k) + EntryWords(k, OffsetOf(recs, k), |recs[k]|)
    ensures DirectoryUpTo(recs, 0) == []
  {
  }

  method WriteDirectory(recs: Sections, offsets: seq<nat>, ghost head: seq<U32>, before: Bytes) returns (image: Bytes)
    requires Shaped(recs) && Small(recs) && |head| == HEADER_WORDS
    requires |offsets| == SECTIONS && forall k | 0 <= k < SECTIONS :: offsets[k] == OffsetOf(recs, k)
    requires before == Words(head + Blank(DIRECTORY_WORDS)) + Body(recs)
    ensures image == Words(head + DirectoryUpTo(recs, SECTIONS)) + Body(recs)
  {
    hide Words, Body, DirectoryUpTo, Entered, Blank, OffsetOf;
    image := before;
    NoDirectory(recs);
    assert head + [] + Blank(DIRECTORY_WORDS) == head + Blank(DIRECTORY_WORDS);
    for k := 0 to SECTIONS
      invariant image == Words(head + DirectoryUpTo(recs, k) + Blank(DIRECTORY_WORDS - 4 * k)) + Body(recs)
    {
      EnteredDirectory(recs, head, k);
      image := WriteEntry(image, head + DirectoryUpTo(recs, k) + Blank(DIRECTORY_WORDS - 4 * k), Body(recs), k,
                          offsets[k], |recs[k]|);
    }
    NoBlank();
    assert head + DirectoryUpTo(recs, SECTIONS) + [] == head + DirectoryUpTo(recs, SECTIONS);
  }

  lemma NoDirectory(recs: Sections)
    requires Shaped(recs) && Small(recs)
    ensures DirectoryUpTo(recs, 0) == []
  {
  }

  lemma NoBlank()
    ensures Blank(0) == []
  {
  }

  /** Builds the image: sections behind a blank head, then header, directory and checksum. Images
      that do not fit 32-bit offsets are refused. */
  method BuildImage(info: Info, recs: Sections) returns (r: Option<Bytes>)
    requires Shaped(recs)
    ensures r.Some? <==> Small(recs)
    ensures r.Some? ==> r.value == ImageOf(info, recs)
  {
    hide Words, Body, DirectoryUpTo, HeaderWords, OffsetOf, Checksum;
    var image, offsets := AppendSections(recs);
    if |image| >= TWO_32 {
      return None;
    }
    image := WriteHeader(info, recs, image);
    image := WriteDirectory(recs, offsets, Header(info, recs, 0), image);
    assert image == RawImage(info, recs, 0);
    var crc := BuilderChecksum(image);
    WriteWord(HeadWords(info, recs, 0), 9, crc.value, Body(recs));
    HeadWithCrc(info, recs, crc.value);
    image := Write32(image, CRC_FIELD, crc.value);
    r := Some(image);
  }

  lemma HeadWithCrc(info: Info, recs: Sections, crc: U32)
    requires Shaped(recs) && Small(recs)
    ensures HeadWords(info, recs, 0)[9 := crc] == HeadWords(info, recs, crc)
  {
    hide Body, DirectoryUpTo;
    SmallOffsets(recs, 0);
    HeadersDiffer(info, BODY_OFFSET + |Body(recs)|, crc, |recs[0]|);
  }
}
