/**
 Command frames as the host and the microcontroller build them: a marker, a word count, a checksum,
 and the words from the most significant byte down.
 */
module CommandFrames {
  import opened Crc

  const MAX_WORDS: int := 63
  const MAX_PAYLOAD: int := 16
  const MARKER: bv8 := 0xa5

  type Bytes = seq<bv8>

  /** Payload words announced by a header. */
  function Payload(header: bv32): (n: int)
    ensures 0 <= n < 256
  {
    SmallHeader(header & 0xff);
    (header & 0xff) as int
  }

  lemma SmallHeader(low: bv32)
    requires low & 0xffff_ff00 == 0
    ensures 0 <= low as int < 256
  {
  }

  // ---- Which transactions are accepted ----------------------------------------------------

  /** From an offset on, the words are whole commands with payloads of at most `limit` words. */
  predicate WholeFrom(words: seq<bv32>, offset: nat, limit: int)
    decreases |words| - offset
  {
    offset == |words| ||
    (offset < |words|
     && Payload(words[offset]) <= limit && Payload(words[offset]) + 1 <= |words| - offset
     && WholeFrom(words, offset + Payload(words[offset]) + 1, limit))
  }

  predicate HostAccepts(words: seq<bv32>)
  {
    0 < |words| <= MAX_WORDS && WholeFrom(words, 0, MAX_PAYLOAD)
  }

  predicate McuAccepts(words: seq<bv32>)
  {
    0 < |words| <= MAX_WORDS && WholeFrom(words, 0, 255)
  }

  /** The headers met while walking over whole commands. */
  predicate ShortFrom(words: seq<bv32>, offset: nat)
    decreases |words| - offset
  {
    offset < |words| ==>
      && Payload(words[offset]) <= MAX_PAYLOAD
      && ShortFrom(words, offset + Payload(words[offset]) + 1)
  }

  lemma {:induction false} WalkAgrees(words: seq<bv32>, offset: nat)
    requires offset <= |words|
    ensures WholeFrom(words, offset, MAX_PAYLOAD) <==> WholeFrom(words, offset, 255) && ShortFrom(words, offset)
    decreases |words| - offset
  {
    hide Payload;
    if offset < |words| && Payload(words[offset]) + 1 <= |words| - offset {
      WalkAgrees(words, offset + Payload(words[offset]) + 1);
    }
  }

  /** The host accepts exactly what the microcontroller accepts and no command of which is longer
      than sixteen payload words. */
  lemma HostIsStricter(words: seq<bv32>)
    ensures HostAccepts(words) <==> McuAccepts(words) && ShortFrom(words, 0)
  {
    WalkAgrees(words, 0);
  }

  method HostValidate(words: seq<bv32>) returns (ok: bool)
    ensures ok == HostAccepts(words)
  {
    hide Payload;
    if |words| == 0 || |words| > MAX_WORDS {
      return false;
    }
    var offset := 0;
    while offset < |words|
      invariant 0 <= offset <= |words|
      invariant HostAccepts(words) <==> WholeFrom(words, offset, MAX_PAYLOAD)
    {
      var payloadWords := Payload(words[offset]);
      if payloadWords > MAX_PAYLOAD {
        return false;
      }
      var commandWords := payloadWords + 1;
      if commandWords > |words| - offset {
        return false;
      }
      offset := offset + commandWords;
    }
    ok := true;
  }

  method McuValidate(words: seq<bv32>) returns (ok: bool)
    ensures ok == McuAccepts(words)
  {
    hide Payload;
    if |words| == 0 || |words| > MAX_WORDS {
      return false;
    }
    var commandIndex := 0;
    while commandIndex < |words|
      invariant 0 <= commandIndex <= |words|
      invariant McuAccepts(words) <==> WholeFrom(words, commandIndex, 255)
    {
      PayloadFits(words[commandIndex]);
      var payloadWords := Payload(words[commandIndex]);
      var remaining := |words| - commandIndex - 1;
      if payloadWords > remaining {
        return false;
      }
      commandIndex := commandIndex + payloadWords + 1;
    }
    ok := true;
  }

  lemma PayloadFits(header: bv32)
    ensures 0 <= Payload(header) <= 255
  {
  }

  // ---- What a frame is --------------------------------------------------------------------

  /** The low byte of a shifted word. */
  function ByteOf(word: bv32): bv8 { (word & 0xff) as bv8 }

  function WordBytes(word: bv32): (b: Bytes)
    ensures |b| == 4
  {
    [ByteOf(word >> 24), ByteOf(word >> 16), ByteOf(word >> 8), ByteOf(word)]
  }

  function WordsBytes(words: seq<bv32>): (b: Bytes)
    ensures |b| == 4 * |words|
  {
    if words == [] then [] else WordsBytes(words[..|words| - 1]) + WordBytes(words[|words| - 1])
  }

  lemma WordsSnoc(words: seq<bv32>, i: nat)
    requires i < |words|
    ensures WordsBytes(words[..i + 1]) == WordsBytes(words[..i]) + WordBytes(words[i])
  {
    assert words[..i + 1][..i] == words[..i];
  }

  function Count(words: seq<bv32>): bv8
    requires |words| <= MAX_WORDS
  {
    |words| as bv8
  }

  /** The checksum covers the count and the words. */
  function Checksum(words: seq<bv32>): bv16
    requires |words| <= MAX_WORDS
  {
    Crc16(0xffff, [Count(words)] + WordsBytes(words))
  }

  function Frame(words: seq<bv32>): Bytes
    requires |words| <= MAX_WORDS
  {
    var crc := Checksum(words);
    [MARKER, Count(words), HighByte(crc), LowByte(crc)] + WordsBytes(words)
  }

  function HighByte(crc: bv16): bv8 { (crc >> 8) as bv8 }

  function LowByte(crc: bv16): bv8 { (crc & 0xff) as bv8 }

  lemma Crc16Four(crc: bv16, bytes: Bytes, w: Bytes)
    requires |w| == 4
    ensures Crc16(crc, bytes + w) == Crc16(crc, bytes + [w[0]] + [w[1]] + [w[2]] + [w[3]])
  {
    assert bytes + w == bytes + [w[0]] + [w[1]] + [w[2]] + [w[3]];
  }

  lemma Crc16One(crc: bv16, b: bv8)
    ensures Crc16(crc, [b]) == Feed16(crc, b as bv16)
  {
    Crc16Snoc(crc, [], b);
    assert [] + [b] == [b];
  }

  // ---- The host's encoder -----------------------------------------------------------------

  /** Checksum by table. */
  method HostChecksum(words: seq<bv32>) returns (crc: bv16)
    requires 0 < |words| <= MAX_WORDS
    ensures crc == Checksum(words)
  {
    hide Feed16, Crc16, IsTable16, WordsBytes;
    var table := BuildTable16();
    crc := FeedTable16(table, 0xffff, Count(words));
    ghost var bytes := [Count(words)];
    Crc16One(0xffff, Count(words));
    EmptyWords(words, bytes);
    for i := 0 to |words|
      invariant IsTable16(table) && crc == Crc16(0xffff, bytes + WordsBytes(words[..i]))
    {
      var w := WordBytes(words[i]);
      ghost var front := bytes + WordsBytes(words[..i]);
      WordsSnoc(words, i);
      assert bytes + WordsBytes(words[..i + 1]) == front + w;
      crc := FeedWord(table, crc, w, front);
    }
    assert words[..|words|] == words;
  }

  lemma EmptyWords(words: seq<bv32>, bytes: Bytes)
    ensures bytes + WordsBytes(words[..0]) == bytes
  {
  }

  method FeedWord(table: array<bv16>, start: bv16, w: Bytes, ghost front: Bytes) returns (crc: bv16)
    requires IsTable16(table)
    requires |w| == 4 && start == Crc16(0xffff, front)
    ensures crc == Crc16(0xffff, front + w)
  {
    hide Feed16, Crc16, IsTable16;
    Crc16Four(0xffff, front, w);
    Crc16Snoc(0xffff, front, w[0]);
    Crc16Snoc(0xffff, front + [w[0]], w[1]);
    Crc16Snoc(0xffff, front + [w[0]] + [w[1]], w[2]);
    Crc16Snoc(0xffff, front + [w[0]] + [w[1]] + [w[2]], w[3]);
    crc := FeedTable16(table, start, w[0]);
    crc := FeedTable16(table, crc, w[1]);
    crc := FeedTable16(table, crc, w[2]);
    crc := FeedTable16(table, crc, w[3]);
  }

  /** The host's frame, pushed byte by byte. */
  method HostEncode(words: seq<bv32>) returns (ok: bool, bytes: array<bv8>, length: int)
    ensures ok == HostAccepts(words) && fresh(bytes)
    ensures ok ==> 0 <= length <= bytes.Length && bytes[..length] == Frame(words)
  {
    hide Crc16, WordsBytes, WholeFrom;
    bytes := new bv8[4 + 4 * MAX_WORDS];
    length := 0;
    ok := HostValidate(words);
    if !ok {
      return;
    }
    var crc := HostChecksum(words);
    bytes[0], bytes[1], bytes[2], bytes[3] := MARKER, Count(words), HighByte(crc), LowByte(crc);
    length := 4;
    ghost var header := bytes[..4];
    EmptyWords(words, header);
    for i := 0 to |words|
      invariant length == 4 + 4 * i && bytes[..length] == header + WordsBytes(words[..i])
    {
      WordsSnoc(words, i);
      length := PushWord(bytes, length, WordBytes(words[i]));
    }
    assert words[..|words|] == words;
  }

  method PushWord(bytes: array<bv8>, start: int, w: Bytes) returns (length: int)
    requires 0 <= start && start + 4 <= bytes.Length && |w| == 4
    modifies bytes
    ensures length == start + 4 && bytes[..length] == old(bytes[..start]) + w
  {
    bytes[start], bytes[start + 1], bytes[start + 2], bytes[start + 3] := w[0], w[1], w[2], w[3];
    length := start + 4;
  }

  // ---- The microcontroller's encoder ------------------------------------------------------

  /** The microcontroller's frame: words and checksum in one pass, bit by bit, the header last. */
  method McuEncode(words: seq<bv32>) returns (ok: bool, frame: array<bv8>, length: int)
    ensures ok == McuAccepts(words) && fresh(frame)
    ensures ok ==> 0 <= length <= frame.Length && frame[..length] == Frame(words)
  {
    hide Crc16, WordsBytes, WholeFrom, Feed16;
    frame := new bv8[4 + 4 * MAX_WORDS];
    length := 4;
    ok := McuValidate(words);
    if !ok {
      return;
    }
    var crc := FeedBits16(0xffff, Count(words));
    ghost var bytes := [Count(words)];
    Crc16One(0xffff, Count(words));
    EmptyWords(words, bytes);
    EmptyWords(words, []);
    for i := 0 to |words|
      invariant length == 4 + 4 * i && frame[4..length] == WordsBytes(words[..i])
      invariant crc == Crc16(0xffff, bytes + WordsBytes(words[..i]))
    {
      ghost var front := bytes + WordsBytes(words[..i]);
      WordsSnoc(words, i);
      assert bytes + WordsBytes(words[..i + 1]) == front + WordBytes(words[i]);
      crc := McuWord(frame, length, crc, WordBytes(words[i]), front);
      length := length + 4;
    }
    assert words[..|words|] == words;
    frame[0], frame[1], frame[2], frame[3] := MARKER, Count(words), HighByte(crc), LowByte(crc);
    assert frame[..length] == frame[..4] + frame[4..length];
  }

  method McuWord(frame: array<bv8>, start: int, before: bv16, w: Bytes, ghost front: Bytes) returns (crc: bv16)
    requires 4 <= start && start + 4 <= frame.Length && |w| == 4 && before == Crc16(0xffff, front)
    modifies frame
    ensures crc == Crc16(0xffff, front + w)
    ensures frame[4..start + 4] == old(frame[4..start]) + w
  {
    hide Feed16, Crc16;
    crc := before;
    Crc16Four(0xffff, front, w);
    assert front + w[..0] == front;
    for k := 0 to 4
      invariant crc == Crc16(0xffff, front + w[..k])
      invariant frame[4..start + k] == old(frame[4..start]) + w[..k]
    {
      Crc16Snoc(0xffff, front + w[..k], w[k]);
      assert front + w[..k + 1] == front + w[..k] + [w[k]];
      frame[start + k] := w[k];
      crc := FeedBits16(crc, w[k]);
    }
    assert w[..4] == w;
  }

  /** Host and microcontroller put the same bytes on the wire for everything the host accepts. */
  method SameFrames(words: seq<bv32>) returns (host: Bytes, mcu: Bytes)
    requires HostAccepts(words)
    ensures host == mcu == Frame(words)
  {
    HostIsStricter(words);
    var ok, bytes, length := HostEncode(words);
    host := bytes[..length];
    var ok', frame, length' := McuEncode(words);
    mcu := frame[..length'];
  }
}
