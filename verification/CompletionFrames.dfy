/**
 Completion requests and responses as bytes on the wire: both sides put the most significant byte
 first, the request carries a CRC16 and the response a CRC-32/ISO-HDLC.
 */
module CompletionFrames {
  import opened CInt
  import opened Completion
  import opened LittleEndian
  import opened Wrappers
  import Crc
  import ImageCrc

  const FRAME_BYTES: int := 93
  const RESPONSE_AT: int := 13
  const ITEMS_AT: int := 25
  const CRC_AT: int := 89
  const REQUEST: U8 := 0x5d

  function Be16(b: Bytes, o: int): U16
    requires 0 <= o && o + 2 <= |b|
  {
    Join16(b[o + 1], b[o])
  }

  function Be32(b: Bytes, o: int): U32
    requires 0 <= o && o + 4 <= |b|
  {
    Join32(b[o + 3], b[o + 2], b[o + 1], b[o])
  }

  function Be16Bytes(x: U16): (b: Bytes)
    ensures |b| == 2
  {
    [Le16(x)[1], Le16(x)[0]]
  }

  function Be32Bytes(x: U32): (b: Bytes)
    ensures |b| == 4
  {
    [Le32(x)[3], Le32(x)[2], Le32(x)[1], Le32(x)[0]]
  }

  lemma Be16Reads(b: Bytes, o: int, x: U16)
    requires 0 <= o && o + 2 <= |b| && b[o..o + 2] == Be16Bytes(x)
    ensures Be16(b, o) == x
  {
    assert b[o] == b[o..o + 2][0] && b[o + 1] == b[o..o + 2][1];
  }

  lemma Be32Reads(b: Bytes, o: int, x: U32)
    requires 0 <= o && o + 4 <= |b| && b[o..o + 4] == Be32Bytes(x)
    ensures Be32(b, o) == x
  {
    hide Join32, Le32;
    var four := b[o..o + 4];
    assert b[o] == four[0] && b[o + 1] == four[1] && b[o + 2] == four[2] && b[o + 3] == four[3];
    Join32Le32(x);
  }

  // ---- The request ------------------------------------------------------------------------

  /** The checksum of some bytes, as a number. */
  function Crc16Of(bytes: Bytes): U16
  {
    Crc.Crc16(0xffff, ImageCrc.Bits(bytes)) as int
  }

  /** Builds the request for the records from a sequence number on. */
  method BuildRequest(sequence: U16) returns (tx: Bytes)
    ensures |tx| == FRAME_BYTES && tx[0] == REQUEST && Be16(tx, 1) == sequence && Be16(tx, 3) == Crc16Of(tx[..3])
    ensures forall i | 5 <= i < FRAME_BYTES :: tx[i] == 0
  {
    hide Crc.Crc16, Crc.Feed16, ImageCrc.Bits, Le16, Join16;
    var head: Bytes := [REQUEST] + Be16Bytes(sequence);
    var crc: bv16 := 0xffff;
    NoBytes();
    for i := 0 to 3
      invariant crc == Crc.Crc16(0xffff, ImageCrc.Bits(head[..i]))
    {
      ImageCrc.BitsSnoc(head, i);
      Crc.Crc16Snoc(0xffff, ImageCrc.Bits(head[..i]), head[i] as bv8);
      crc := Crc.FeedBits16(crc, head[i] as bv8);
    }
    assert head[..3] == head;
    var check: U16 := crc as int;
    tx := head + Be16Bytes(check) + seq(FRAME_BYTES - 5, _ => 0);
    assert tx[..3] == head;
    assert tx[1..3] == Be16Bytes(sequence) && tx[3..5] == Be16Bytes(check);
    Be16Reads(tx, 1, sequence);
    Be16Reads(tx, 3, check);
  }

  lemma NoBytes()
    ensures ImageCrc.Bits([]) == [] && Crc.Crc16(0xffff, []) == 0xffff && Crc.Crc32(0xffff_ffff, []) == 0xffff_ffff
  {
  }

  // ---- The response -----------------------------------------------------------------------

  function WordBytes(words: seq<U32>): (b: Bytes)
    ensures |b| == 4 * |words|
  {
    if words == [] then [] else WordBytes(words[..|words| - 1]) + Be32Bytes(words[|words| - 1])
  }

  lemma {:induction false} WordBytesAt(words: seq<U32>, k: nat)
    requires k < |words|
    ensures WordBytes(words)[4 * k..4 * k + 4] == Be32Bytes(words[k])
  {
    hide Be32Bytes;
    var n := |words| - 1;
    if k < n {
      WordBytesAt(words[..n], k);
      assert WordBytes(words)[4 * k..4 * k + 4] == WordBytes(words[..n])[4 * k..4 * k + 4];
    }
  }

  function Head(r: Response): (b: Bytes)
    ensures |b| == 12
  {
    [r.status, r.version, r.flags, r.count] + Be32Bytes(r.epoch) + Be16Bytes(r.writeSequence) + Be16Bytes(r.startSequence)
  }

  function Payload(r: Response): (b: Bytes)
    requires |r.words| == BATCH_ITEMS
    ensures |b| == CRC_AT - RESPONSE_AT
  {
    Head(r) + WordBytes(r.words)
  }

  /** A response behind the bytes clocked in while the request goes out. */
  function Frame(lead: Bytes, r: Response): (b: Bytes)
    requires |lead| == RESPONSE_AT && |r.words| == BATCH_ITEMS
    ensures |b| == FRAME_BYTES
  {
    lead + Payload(r) + Be32Bytes(ImageCrc.Iso32(Payload(r)))
  }

  function WordsOf(rx: Bytes): (words: seq<U32>)
    requires |rx| == FRAME_BYTES
    ensures |words| == BATCH_ITEMS
  {
    seq(BATCH_ITEMS, i requires 0 <= i < BATCH_ITEMS => Be32(rx, ITEMS_AT + 4 * i))
  }

  /** What the bytes say. */
  function Parse(rx: Bytes): Response
    requires |rx| == FRAME_BYTES
  {
    Response(Be32(rx, CRC_AT) == ImageCrc.Iso32(rx[RESPONSE_AT..CRC_AT]),
             rx[RESPONSE_AT], rx[RESPONSE_AT + 1], rx[RESPONSE_AT + 2], rx[RESPONSE_AT + 3],
             Be32(rx, 17), Be16(rx, 21), Be16(rx, 23), WordsOf(rx))
  }

  /** Reading undoes writing, whatever came before. */
  lemma FrameParses(lead: Bytes, r: Response)
    requires |lead| == RESPONSE_AT && |r.words| == BATCH_ITEMS && r.intact
    ensures Parse(Frame(lead, r)) == r
  {
    hide Be32, Be16, Be32Bytes, Be16Bytes, ImageCrc.Iso32, WordBytes;
    var rx, payload := Frame(lead, r), Payload(r);
    assert rx[RESPONSE_AT..CRC_AT] == payload;
    assert rx[CRC_AT..CRC_AT + 4] == Be32Bytes(ImageCrc.Iso32(payload));
    Be32Reads(rx, CRC_AT, ImageCrc.Iso32(payload));
    HeadReads(rx, lead, r, WordBytes(r.words) + Be32Bytes(ImageCrc.Iso32(payload)));
    forall i | 0 <= i < BATCH_ITEMS
      ensures Be32(rx, ITEMS_AT + 4 * i) == r.words[i]
    {
      WordBytesAt(r.words, i);
      assert rx[ITEMS_AT + 4 * i..ITEMS_AT + 4 * i + 4] == WordBytes(r.words)[4 * i..4 * i + 4];
      Be32Reads(rx, ITEMS_AT + 4 * i, r.words[i]);
    }
    assert WordsOf(rx) == r.words;
  }

  lemma HeadReads(rx: Bytes, lead: Bytes, r: Response, rest: Bytes)
    requires |lead| == RESPONSE_AT && rx == lead + Head(r) + rest
    ensures rx[RESPONSE_AT] == r.status && rx[RESPONSE_AT + 1] == r.version
    ensures rx[RESPONSE_AT + 2] == r.flags && rx[RESPONSE_AT + 3] == r.count
    ensures Be32(rx, 17) == r.epoch && Be16(rx, 21) == r.writeSequence && Be16(rx, 23) == r.startSequence
  {
    hide Be32, Be16, Be32Bytes, Be16Bytes;
    assert rx[17..21] == Be32Bytes(r.epoch);
    assert rx[21..23] == Be16Bytes(r.writeSequence);
    assert rx[23..25] == Be16Bytes(r.startSequence);
    Be32Reads(rx, 17, r.epoch);
    Be16Reads(rx, 21, r.writeSequence);
    Be16Reads(rx, 23, r.startSequence);
  }

  /** The bit-by-bit checksum of some bytes. */
  method Crc32Bytes(bytes: Bytes) returns (r: U32)
    ensures r == ImageCrc.Iso32(bytes)
  {
    hide Crc.Crc32, Crc.Feed32, Crc.Xor32, ImageCrc.Number, ImageCrc.Bits;
    var crc: bv32 := 0xffff_ffff;
    NoBytes();
    for i := 0 to |bytes|
      invariant crc == Crc.Crc32(0xffff_ffff, ImageCrc.Bits(bytes[..i]))
    {
      ImageCrc.BitsSnoc(bytes, i);
      Crc.Crc32Snoc(0xffff_ffff, ImageCrc.Bits(bytes[..i]), bytes[i] as bv8);
      crc := Crc.FeedBits32(crc, bytes[i] as bv8);
    }
    assert bytes[..|bytes|] == bytes;
    r := ImageCrc.Number(Crc.Xor32(crc, 0xffff_ffff));
  }

  /** Checks and unpacks the bytes of a response. */
  method Receive(rx: Bytes, sequence: U16) returns (batch: Option<Batch>)
    requires |rx| == FRAME_BYTES
    ensures batch.Some? <==> Accepted(Parse(rx), sequence)
    ensures batch.Some? ==>
              var r := Parse(rx); batch.value == Batch(r.flags == 1, r.epoch, r.writeSequence, ItemsOf(r.words, r.count))
  {
    hide Be32, Be16, ImageCrc.Iso32, Accepted, ItemsOf;
    var crc := Crc32Bytes(rx[RESPONSE_AT..CRC_AT]);
    if Be32(rx, CRC_AT) != crc {
      NotIntact(Parse(rx), sequence);
      return None;
    }
    var words: seq<U32> := [];
    for item := 0 to BATCH_ITEMS
      invariant |words| == item && forall i | 0 <= i < item :: words[i] == Be32(rx, ITEMS_AT + 4 * i)
    {
      words := words + [Be32(rx, ITEMS_AT + item * 4)];
    }
    assert words == WordsOf(rx);
    batch := ReadCompletions(Parse(rx).(words := words), sequence);
  }

  lemma NotIntact(r: Response, sequence: U16)
    ensures Accepted(r, sequence) ==> r.intact
  {
  }

  // ---- What arrives -----------------------------------------------------------------------

  /** The answer of the FPGA is accepted as it arrives, byte for byte, and names the next records. */
  lemma AnswerArrives(s: State, lead: Bytes)
    requires Inv(s) && |lead| == RESPONSE_AT
    ensures var r := Parse(Frame(lead, Answer(s)));
            && Accepted(r, s.sequence) && r.count <= |s.log| - |s.seen|
            && forall i | 0 <= i < r.count :: ItemsOf(r.words, r.count)[i] == Seen(s.log[|s.seen| + i])
  {
    hide Parse, Frame, Accepted, ItemsOf, Seen, InOrder, Logged, Read;
    AnswerAccepted(s);
    FrameParses(lead, Answer(s));
  }

  /** A response with one wrong byte, in its payload or in its checksum, is refused. */
  lemma DamageIsRefused(rx: Bytes, sequence: U16, i: nat, b: U8)
    requires |rx| == FRAME_BYTES && Accepted(Parse(rx), sequence)
    requires RESPONSE_AT <= i < FRAME_BYTES && b != rx[i]
    ensures !Accepted(Parse(rx[i := b]), sequence)
  {
    hide ImageCrc.Iso32, Join32;
    var damaged := rx[i := b];
    var payload := rx[RESPONSE_AT..CRC_AT];
    NotIntact(Parse(damaged), sequence);
    if i < CRC_AT {
      assert damaged[RESPONSE_AT..CRC_AT] == payload[i - RESPONSE_AT := b];
      ImageCrc.WrongByteShows(payload, i - RESPONSE_AT, b);
    } else {
      assert damaged[RESPONSE_AT..CRC_AT] == payload;
      JoinDiffers(rx[CRC_AT + 3], rx[CRC_AT + 2], rx[CRC_AT + 1], rx[CRC_AT], b);
    }
  }

  lemma JoinDiffers(x0: U8, x1: U8, x2: U8, x3: U8, b: U8)
    ensures b != x0 ==> Join32(b, x1, x2, x3) != Join32(x0, x1, x2, x3)
    ensures b != x1 ==> Join32(x0, b, x2, x3) != Join32(x0, x1, x2, x3)
    ensures b != x2 ==> Join32(x0, x1, b, x3) != Join32(x0, x1, x2, x3)
    ensures b != x3 ==> Join32(x0, x1, x2, b) != Join32(x0, x1, x2, x3)
  {
  }
}
