/**
 The checksum of an asset image as the firmware and the builder compute it: CRC-32/ISO-HDLC over the
 whole image with its own field read as zero.
 */
module ImageCrc {
  import opened CInt
  import opened LittleEndian
  import opened Wrappers
  import Crc

  const CRC_FIELD: int := 36

  /** The image with its checksum field read as zero. */
  function Masked(image: Bytes): (r: Bytes)
    ensures |r| == |image|
  {
    seq(|image|, i requires 0 <= i < |image| => MaskedByte(image, i))
  }

  function MaskedByte(image: Bytes, i: nat): U8
    requires i < |image|
  {
    if CRC_FIELD <= i < CRC_FIELD + 4 then 0 else image[i]
  }

  function Bits(bytes: Bytes): (r: seq<bv8>)
    ensures |r| == |bytes|
  {
    seq(|bytes|, i requires 0 <= i < |bytes| => bytes[i] as bv8)
  }

  /** A 32-bit register as a number. */
  function Number(x: bv32): U32 { x as int }

  /** Starts from all ones and ends inverted. */
  function Iso32(bytes: Bytes): U32
  {
    Number(Crc.Xor32(Crc.Crc32(0xffff_ffff, Bits(bytes)), 0xffff_ffff))
  }

  function Checksum(image: Bytes): U32 { Iso32(Masked(image)) }

  lemma BitsSnoc(bytes: Bytes, i: nat)
    requires i < |bytes|
    ensures Bits(bytes[..i + 1]) == Bits(bytes[..i]) + [bytes[i] as bv8]
  {
  }

  lemma FeedMasked(image: Bytes, i: nat)
    requires i < |image|
    ensures Crc.Crc32(0xffff_ffff, Bits(Masked(image)[..i + 1])) ==
            Crc.Feed32(Crc.Crc32(0xffff_ffff, Bits(Masked(image)[..i])), (MaskedByte(image, i) as bv8) as bv32)
  {
    hide Crc.Crc32, Crc.Feed32, Bits, MaskedByte;
    BitsSnoc(Masked(image), i);
    Crc.Crc32Snoc(0xffff_ffff, Bits(Masked(image)[..i]), MaskedByte(image, i) as bv8);
  }

  /** The firmware's loop, bit by bit. */
  method FirmwareChecksum(image: Bytes) returns (r: U32)
    ensures r == Checksum(image)
  {
    hide Crc.Crc32, Crc.Feed32, Crc.Xor32, Number, Bits, MaskedByte;
    ghost var masked := Masked(image);
    var crc: bv32 := 0xffff_ffff;
    EmptyMessage();
    for index := 0 to |image|
      invariant crc == Crc.Crc32(0xffff_ffff, Bits(masked[..index]))
    {
      FeedMasked(image, index);
      var value: bv8 := MaskedByte(image, index) as bv8;
      crc := Crc.FeedBits32(crc, value);
    }
    assert masked[..|image|] == masked;
    r := Number(Crc.Xor32(crc, 0xffff_ffff));
  }

  lemma EmptyMessage()
    ensures Crc.Crc32(0xffff_ffff, Bits([])) == 0xffff_ffff
  {
  }

  /** The builder's loop, table driven. It refuses images too short to hold the field. */
  method BuilderChecksum(image: Bytes) returns (r: Option<U32>)
    ensures r == if |image| < CRC_FIELD + 4 then None else Some(Checksum(image))
  {
    hide Crc.Crc32, Crc.Feed32, Crc.Xor32, Number, Bits, MaskedByte;
    if |image| < CRC_FIELD + 4 {
      return None;
    }
    var table := Crc.BuildTable32();
    ghost var masked := Masked(image);
    var crc: bv32 := 0xffff_ffff;
    EmptyMessage();
    for index := 0 to |image|
      invariant crc == Crc.Crc32(0xffff_ffff, Bits(masked[..index])) && Crc.IsTable32(table)
    {
      FeedMasked(image, index);
      var value: bv8 := MaskedByte(image, index) as bv8;
      crc := Crc.FeedTable32(table, crc, value);
    }
    assert masked[..|image|] == masked;
    r := Some(Number(Crc.Xor32(crc, 0xffff_ffff)));
  }

  // ---- What the checksum notices ----------------------------------------------------------

  lemma BackToBits(x: bv32)
    ensures Number(x) as bv32 == x
  {
  }

  lemma NextByte(b: bv8)
    requires b as int < 255
    ensures (b + 1) as int == b as int + 1
  {
  }

  /** The bits of a byte, by counting up. */
  ghost function Counted(x: U8): (b: bv8)
    ensures b as int == x
  {
    if x == 0 then 0 else NextByte(Counted(x - 1)); Counted(x - 1) + 1
  }

  lemma SameByte(b: bv8)
    ensures (b as int) as bv8 == b
  {
  }

  lemma BackToByte(x: U8)
    ensures (x as bv8) as int == x
  {
    SameByte(Counted(x));
  }

  lemma NumberInjective(x: bv32, y: bv32)
    ensures Number(x) == Number(y) <==> x == y
  {
    hide Number;
    BackToBits(x);
    BackToBits(y);
  }

  lemma ByteInjective(x: U8, y: U8)
    ensures x as bv8 == y as bv8 <==> x == y
  {
    BackToByte(x);
    BackToByte(y);
  }

  lemma BitsSplit(bytes: Bytes, i: nat, b: U8)
    requires i < |bytes|
    ensures Bits(bytes[i := b]) == Bits(bytes[..i]) + [b as bv8] + Bits(bytes[i + 1..])
  {
  }

  /** One wrong byte anywhere changes the checksum. */
  lemma WrongByteShows(bytes: Bytes, i: nat, b: U8)
    requires i < |bytes| && b != bytes[i]
    ensures Iso32(bytes[i := b]) != Iso32(bytes)
  {
    hide Crc.Crc32, Crc.Xor32, Number, Bits;
    BitsSplit(bytes, i, b);
    BitsSplit(bytes, i, bytes[i]);
    assert bytes[i := bytes[i]] == bytes;
    ByteInjective(b, bytes[i]);
    Crc.WrongByteShows32(0xffff_ffff, Bits(bytes[..i]), bytes[i] as bv8, b as bv8, Bits(bytes[i + 1..]));
    var x, y := Crc.Crc32(0xffff_ffff, Bits(bytes[i := b])), Crc.Crc32(0xffff_ffff, Bits(bytes));
    Crc.Cancel32(x, y, 0xffff_ffff);
    NumberInjective(Crc.Xor32(x, 0xffff_ffff), Crc.Xor32(y, 0xffff_ffff));
  }

  /** Of the image itself: a change of one byte changes the checksum exactly if it lies outside the
      checksum field. */
  lemma ChecksumNotices(image: Bytes, i: nat, b: U8)
    requires i < |image| && b != image[i]
    ensures Checksum(image[i := b]) == Checksum(image) <==> CRC_FIELD <= i < CRC_FIELD + 4
  {
    hide Iso32;
    if CRC_FIELD <= i < CRC_FIELD + 4 {
      assert Masked(image[i := b]) == Masked(image);
    } else {
      assert Masked(image[i := b]) == Masked(image)[i := b];
      WrongByteShows(Masked(image), i, b);
    }
  }
}
