/**
 The two checksums, each as a bit loop and as a table: CRC16 of command frames (polynomial 0x1021,
 most significant bit first) and CRC32 of images and register frames (the CRC of section 8 of
 RFC 1952, least significant bit first).
 */
module Crc {

  // ---- CRC16 ------------------------------------------------------------------------------

  function Xor16(x: bv16, y: bv16): bv16 { x ^ y }

  function Shift16(c: bv16): bv16 { c << 1 }

  /** The polynomial, if the bit shifted out is set. */
  function Tap16(c: bv16): bv16 { if c & 0x8000 == 0 then 0 else 0x1021 }

  function Step16(c: bv16): bv16 { Xor16(Shift16(c), Tap16(c)) }

  function Steps16(c: bv16, n: nat): bv16
  {
    if n == 0 then c else Step16(Steps16(c, n - 1))
  }

  lemma Bits16(x: bv16, y: bv16, z: bv16)
    requires z == x ^ y
    ensures z << 1 == (x << 1) ^ (y << 1)
    ensures z & 0x8000 == 0 <==> (x & 0x8000 == 0) == (y & 0x8000 == 0)
  {
  }

  lemma ShiftXor16(x: bv16, y: bv16)
    ensures Shift16(Xor16(x, y)) == Xor16(Shift16(x), Shift16(y))
  {
    Bits16(x, y, Xor16(x, y));
  }

  lemma Units16(p: bv16)
    ensures Xor16(0, p) == p && Xor16(p, 0) == p && Xor16(p, p) == 0
  {
  }

  lemma TapXor16(x: bv16, y: bv16, z: bv16)
    requires z & 0x8000 == 0 <==> (x & 0x8000 == 0) == (y & 0x8000 == 0)
    ensures Tap16(z) == Xor16(Tap16(x), Tap16(y))
  {
    hide Xor16;
    Units16(0);
    Units16(0x1021);
  }

  lemma Associates16(x: bv16, y: bv16, z: bv16)
    ensures Xor16(Xor16(x, y), z) == Xor16(x, Xor16(y, z))
  {
    Associated16(x, y, z, Xor16(x, y), Xor16(y, z));
  }

  lemma Associated16(x: bv16, y: bv16, z: bv16, xy: bv16, yz: bv16)
    requires xy == x ^ y && yz == y ^ z
    ensures xy ^ z == x ^ yz
  {
  }

  lemma Commutes16(x: bv16, y: bv16)
    ensures Xor16(x, y) == Xor16(y, x)
  {
  }

  lemma Regroup16(a: bv16, b: bv16, p: bv16, q: bv16)
    ensures Xor16(Xor16(a, b), Xor16(p, q)) == Xor16(Xor16(a, p), Xor16(b, q))
  {
    hide Xor16;
    Associates16(a, b, Xor16(p, q));
    Associates16(b, p, q);
    Commutes16(b, p);
    Associates16(p, b, q);
    Associates16(a, p, Xor16(b, q));
  }

  lemma StepLinear16(x: bv16, y: bv16)
    ensures Step16(Xor16(x, y)) == Xor16(Step16(x), Step16(y))
  {
    hide Tap16, Shift16;
    Bits16(x, y, Xor16(x, y));
    Linearly16(x, y, Xor16(x, y));
  }

  lemma Linearly16(x: bv16, y: bv16, z: bv16)
    requires z == Xor16(x, y) && (z & 0x8000 == 0 <==> (x & 0x8000 == 0) == (y & 0x8000 == 0))
    ensures Step16(z) == Xor16(Step16(x), Step16(y))
  {
    hide Tap16, Shift16, Xor16;
    ShiftXor16(x, y);
    TapXor16(x, y, z);
    Regroup16(Shift16(x), Shift16(y), Tap16(x), Tap16(y));
  }

  /** Steps commute with exclusive or. */
  lemma {:induction false} Linear16(x: bv16, y: bv16, n: nat)
    ensures Steps16(Xor16(x, y), n) == Xor16(Steps16(x, n), Steps16(y, n))
  {
    hide Step16, Xor16;
    if n > 0 {
      Linear16(x, y, n - 1);
      StepLinear16(Steps16(x, n - 1), Steps16(y, n - 1));
    }
  }

  lemma Eight16(c: bv16)
    ensures Steps16(c, 8) == Step16(Step16(Step16(Step16(Step16(Step16(Step16(Step16(c))))))))
  {
    hide Step16;
    assert Steps16(c, 1) == Step16(c);
    assert Steps16(c, 3) == Step16(Step16(Step16(c)));
    assert Steps16(c, 5) == Step16(Step16(Steps16(c, 3)));
    assert Steps16(c, 7) == Step16(Step16(Steps16(c, 5)));
  }

  lemma Kernel16(z: bv16)
    requires Step16(z) == 0
    ensures z == 0
  {
    if z & 0x8000 == 0 {
      NoTap16(z);
    } else {
      SomeTap16(z);
    }
  }

  lemma NoTap16(z: bv16)
    requires z & 0x8000 == 0 && (z << 1) ^ 0 == 0
    ensures z == 0
  {
  }

  lemma SomeTap16(z: bv16)
    ensures (z << 1) ^ 0x1021 != 0
  {
  }

  lemma Undo16(x: bv16, y: bv16)
    ensures Xor16(Xor16(x, y), y) == x
  {
  }

  lemma Zero16(x: bv16)
    ensures Xor16(x, x) == 0 && Xor16(0, x) == x
  {
  }

  lemma Same16(x: bv16, y: bv16)
    ensures Xor16(x, y) == 0 <==> x == y
  {
    hide Xor16;
    Undo16(x, y);
    Zero16(y);
  }

  /** Every step can be undone. */
  lemma StepInjective16(x: bv16, y: bv16)
    requires Step16(x) == Step16(y)
    ensures x == y
  {
    hide Step16, Xor16;
    StepLinear16(x, y);
    Same16(Step16(x), Step16(y));
    Kernel16(Xor16(x, y));
    Same16(x, y);
  }

  lemma {:induction false} StepsInjective16(x: bv16, y: bv16, n: nat)
    requires Steps16(x, n) == Steps16(y, n)
    ensures x == y
  {
    hide Step16;
    if n > 0 {
      StepInjective16(Steps16(x, n - 1), Steps16(y, n - 1));
      StepsInjective16(x, y, n - 1);
    }
  }

  /** A low byte just moves up. */
  lemma LowByte16(c: bv16)
    requires c & 0xff00 == 0
    ensures Steps16(c, 8) == c << 8
  {
    Eight16(c);
  }

  function Entry16(i: bv16): bv16 { Steps16(i << 8, 8) }

  /** What one byte does to the checksum. */
  function Feed16(crc: bv16, byte: bv16): bv16 { Steps16(Xor16(crc, byte << 8), 8) }

  function TableFeed16(crc: bv16, byte: bv16): bv16 { Xor16(crc << 8, Entry16(Xor16(crc >> 8, byte))) }

  /** One table lookup does what eight single steps do. */
  lemma TableStep16(crc: bv16, byte: bv16)
    ensures Feed16(crc, byte) == TableFeed16(crc, byte)
  {
    hide Steps16, Xor16;
    var index, low := Xor16(crc >> 8, byte), crc & 0xff;
    Split16(crc, byte, index);
    Linear16(index << 8, low, 8);
    LowByte16(low);
    Commutes16(Steps16(index << 8, 8), crc << 8);
  }

  lemma Split16(crc: bv16, byte: bv16, index: bv16)
    requires index == Xor16(crc >> 8, byte)
    ensures Xor16(crc, byte << 8) == Xor16(index << 8, crc & 0xff)
    ensures (crc & 0xff) & 0xff00 == 0 && (crc & 0xff) << 8 == crc << 8
  {
    Halves16(crc, byte, index);
    Exchange16((crc >> 8) << 8, crc & 0xff, byte << 8);
  }

  lemma Exchange16(high: bv16, low: bv16, byte: bv16)
    ensures Xor16(Xor16(high, low), byte) == Xor16(Xor16(high, byte), low)
  {
    hide Xor16;
    Associates16(high, low, byte);
    Commutes16(low, byte);
    Associates16(high, byte, low);
  }

  lemma Halves16(crc: bv16, byte: bv16, index: bv16)
    requires index == (crc >> 8) ^ byte
    ensures ((crc >> 8) << 8) ^ (crc & 0xff) == crc && index << 8 == ((crc >> 8) << 8) ^ (byte << 8)
    ensures (crc & 0xff) & 0xff00 == 0 && (crc & 0xff) << 8 == crc << 8
  {
  }

  // ---- CRC32 ------------------------------------------------------------------------------

  function Xor32(x: bv32, y: bv32): bv32 { x ^ y }

  function Shift32(c: bv32): bv32 { c >> 1 }

  /** The polynomial, if the bit shifted out is set. */
  function Tap32(c: bv32): bv32 { if c & 1 == 0 then 0 else 0xedb88320 }

  function Step32(c: bv32): bv32 { Xor32(Shift32(c), Tap32(c)) }

  function Steps32(c: bv32, n: nat): bv32
  {
    if n == 0 then c else Step32(Steps32(c, n - 1))
  }

  lemma Bits32(x: bv32, y: bv32, z: bv32)
    requires z == x ^ y
    ensures z >> 1 == (x >> 1) ^ (y >> 1)
    ensures z & 1 == 0 <==> (x & 1 == 0) == (y & 1 == 0)
  {
  }

  lemma ShiftXor32(x: bv32, y: bv32)
    ensures Shift32(Xor32(x, y)) == Xor32(Shift32(x), Shift32(y))
  {
    Bits32(x, y, Xor32(x, y));
  }

  lemma Units32(p: bv32)
    ensures Xor32(0, p) == p && Xor32(p, 0) == p && Xor32(p, p) == 0
  {
  }

  lemma TapXor32(x: bv32, y: bv32, z: bv32)
    requires z & 1 == 0 <==> (x & 1 == 0) == (y & 1 == 0)
    ensures Tap32(z) == Xor32(Tap32(x), Tap32(y))
  {
    hide Xor32;
    Units32(0);
    Units32(0xedb88320);
  }

  lemma Associates32(x: bv32, y: bv32, z: bv32)
    ensures Xor32(Xor32(x, y), z) == Xor32(x, Xor32(y, z))
  {
    Associated32(x, y, z, Xor32(x, y), Xor32(y, z));
  }

  lemma Associated32(x: bv32, y: bv32, z: bv32, xy: bv32, yz: bv32)
    requires xy == x ^ y && yz == y ^ z
    ensures xy ^ z == x ^ yz
  {
  }

  lemma Commutes32(x: bv32, y: bv32)
    ensures Xor32(x, y) == Xor32(y, x)
  {
  }

  lemma Regroup32(a: bv32, b: bv32, p: bv32, q: bv32)
    ensures Xor32(Xor32(a, b), Xor32(p, q)) == Xor32(Xor32(a, p), Xor32(b, q))
  {
    hide Xor32;
    Associates32(a, b, Xor32(p, q));
    Associates32(b, p, q);
    Commutes32(b, p);
    Associates32(p, b, q);
    Associates32(a, p, Xor32(b, q));
  }

  lemma StepLinear32(x: bv32, y: bv32)
    ensures Step32(Xor32(x, y)) == Xor32(Step32(x), Step32(y))
  {
    hide Tap32, Shift32;
    Bits32(x, y, Xor32(x, y));
    Linearly32(x, y, Xor32(x, y));
  }

  lemma Linearly32(x: bv32, y: bv32, z: bv32)
    requires z == Xor32(x, y) && (z & 1 == 0 <==> (x & 1 == 0) == (y & 1 == 0))
    ensures Step32(z) == Xor32(Step32(x), Step32(y))
  {
    hide Tap32, Shift32, Xor32;
    ShiftXor32(x, y);
    TapXor32(x, y, z);
    Regroup32(Shift32(x), Shift32(y), Tap32(x), Tap32(y));
  }

  /** Steps commute with exclusive or. */
  lemma {:induction false} Linear32(x: bv32, y: bv32, n: nat)
    ensures Steps32(Xor32(x, y), n) == Xor32(Steps32(x, n), Steps32(y, n))
  {
    hide Step32, Xor32;
    if n > 0 {
      Linear32(x, y, n - 1);
      StepLinear32(Steps32(x, n - 1), Steps32(y, n - 1));
    }
  }

  lemma Eight32(c: bv32)
    ensures Steps32(c, 8) == Step32(Step32(Step32(Step32(Step32(Step32(Step32(Step32(c))))))))
  {
    hide Step32;
    assert Steps32(c, 1) == Step32(c);
    assert Steps32(c, 3) == Step32(Step32(Step32(c)));
    assert Steps32(c, 5) == Step32(Step32(Steps32(c, 3)));
    assert Steps32(c, 7) == Step32(Step32(Steps32(c, 5)));
  }

  lemma Kernel32(z: bv32)
    requires Step32(z) == 0
    ensures z == 0
  {
    if z & 1 == 0 {
      NoTap32(z);
    } else {
      SomeTap32(z);
    }
  }

  lemma NoTap32(z: bv32)
    requires z & 1 == 0 && (z >> 1) ^ 0 == 0
    ensures z == 0
  {
  }

  lemma SomeTap32(z: bv32)
    ensures (z >> 1) ^ 0xedb88320 != 0
  {
  }

  lemma Undo32(x: bv32, y: bv32)
    ensures Xor32(Xor32(x, y), y) == x
  {
  }

  lemma Zero32(x: bv32)
    ensures Xor32(x, x) == 0 && Xor32(0, x) == x
  {
  }

  lemma Same32(x: bv32, y: bv32)
    ensures Xor32(x, y) == 0 <==> x == y
  {
    hide Xor32;
    Undo32(x, y);
    Zero32(y);
  }

  /** Every step can be undone. */
  lemma StepInjective32(x: bv32, y: bv32)
    requires Step32(x) == Step32(y)
    ensures x == y
  {
    hide Step32, Xor32;
    StepLinear32(x, y);
    Same32(Step32(x), Step32(y));
    Kernel32(Xor32(x, y));
    Same32(x, y);
  }

  lemma {:induction false} StepsInjective32(x: bv32, y: bv32, n: nat)
    requires Steps32(x, n) == Steps32(y, n)
    ensures x == y
  {
    hide Step32;
    if n > 0 {
      StepInjective32(Steps32(x, n - 1), Steps32(y, n - 1));
      StepsInjective32(x, y, n - 1);
    }
  }

  /** Bits above the low byte just move down. */
  lemma HighBytes32(c: bv32)
    requires c & 0xff == 0
    ensures Steps32(c, 8) == c >> 8
  {
    Eight32(c);
  }

  function Feed32(crc: bv32, byte: bv32): bv32 { Steps32(Xor32(crc, byte), 8) }

  function TableFeed32(crc: bv32, byte: bv32): bv32 { Xor32(crc >> 8, Steps32(Xor32(crc, byte) & 0xff, 8)) }

  lemma TableStep32(crc: bv32, byte: bv32)
    requires byte & 0xffff_ff00 == 0
    ensures Feed32(crc, byte) == TableFeed32(crc, byte)
  {
    hide Steps32, Xor32;
    var index, high := Xor32(crc, byte) & 0xff, crc & 0xffff_ff00;
    Split32(crc, byte, Xor32(crc, byte));
    Linear32(index, high, 8);
    HighBytes32(high);
    Commutes32(Steps32(index, 8), crc >> 8);
  }

  lemma Split32(crc: bv32, byte: bv32, mixed: bv32)
    requires byte & 0xffff_ff00 == 0 && mixed == Xor32(crc, byte)
    ensures mixed == Xor32(mixed & 0xff, crc & 0xffff_ff00)
    ensures (crc & 0xffff_ff00) & 0xff == 0 && (crc & 0xffff_ff00) >> 8 == crc >> 8
  {
  }


  // ---- Whole messages ---------------------------------------------------------------------

  function Crc16(crc: bv16, bytes: seq<bv8>): bv16
  {
    if bytes == [] then crc
    else Feed16(Crc16(crc, bytes[..|bytes| - 1]), bytes[|bytes| - 1] as bv16)
  }

  function TableCrc16(crc: bv16, bytes: seq<bv8>): bv16
  {
    if bytes == [] then crc
    else TableFeed16(TableCrc16(crc, bytes[..|bytes| - 1]), bytes[|bytes| - 1] as bv16)
  }

  function Crc32(crc: bv32, bytes: seq<bv8>): bv32
  {
    if bytes == [] then crc
    else Feed32(Crc32(crc, bytes[..|bytes| - 1]), bytes[|bytes| - 1] as bv32)
  }

  function TableCrc32(crc: bv32, bytes: seq<bv8>): bv32
  {
    if bytes == [] then crc
    else TableFeed32(TableCrc32(crc, bytes[..|bytes| - 1]), bytes[|bytes| - 1] as bv32)
  }

  /** Table and bit loop agree on every message. */
  lemma {:induction false} TablesAgree(bytes: seq<bv8>, c: bv16, d: bv32)
    ensures TableCrc16(c, bytes) == Crc16(c, bytes)
    ensures TableCrc32(d, bytes) == Crc32(d, bytes)
  {
    hide Feed16, TableFeed16, Feed32, TableFeed32;
    if bytes != [] {
      var front, last := bytes[..|bytes| - 1], bytes[|bytes| - 1];
      TablesAgree(front, c, d);
      TableStep16(Crc16(c, front), last as bv16);
      ByteIsLow(last);
      TableStep32(Crc32(d, front), last as bv32);
    }
  }

  lemma ByteIsLow(b: bv8)
    ensures (b as bv32) & 0xffff_ff00 == 0
  {
  }

  lemma Crc16Snoc(crc: bv16, bytes: seq<bv8>, b: bv8)
    ensures Crc16(crc, bytes + [b]) == Feed16(Crc16(crc, bytes), b as bv16)
  {
    assert (bytes + [b])[..|bytes|] == bytes;
  }

  /** Two checksums that differ keep differing over equal bytes. */
  lemma {:induction false} StaysDifferent16(c: bv16, d: bv16, bytes: seq<bv8>)
    requires c != d
    ensures Crc16(c, bytes) != Crc16(d, bytes)
  {
    hide Steps16, Xor16;
    if bytes != [] {
      var front, last := bytes[..|bytes| - 1], bytes[|bytes| - 1] as bv16;
      StaysDifferent16(c, d, front);
      var x, y := Crc16(c, front), Crc16(d, front);
      if Feed16(x, last) == Feed16(y, last) {
        StepsInjective16(Xor16(x, last << 8), Xor16(y, last << 8), 8);
        Cancel16(x, y, last << 8);
      }
    }
  }

  lemma Cancel16(x: bv16, y: bv16, z: bv16)
    ensures Xor16(x, z) == Xor16(y, z) <==> x == y
    ensures Xor16(z, x) == Xor16(z, y) <==> x == y
  {
  }

  /** A frame with one wrong byte has a wrong checksum. */
  lemma WrongByteShows(crc: bv16, before: seq<bv8>, good: bv8, bad: bv8, after: seq<bv8>)
    requires good != bad
    ensures Crc16(crc, before + [good] + after) != Crc16(crc, before + [bad] + after)
  {
    hide Steps16, Xor16, Crc16;
    var c := Crc16(crc, before);
    Crc16Snoc(crc, before, good);
    Crc16Snoc(crc, before, bad);
    if Feed16(c, good as bv16) == Feed16(c, bad as bv16) {
      StepsInjective16(Xor16(c, (good as bv16) << 8), Xor16(c, (bad as bv16) << 8), 8);
      Cancel16((good as bv16) << 8, (bad as bv16) << 8, c);
      ShiftedBytes(good, bad);
    }
    Continue16(crc, before + [good], after);
    Continue16(crc, before + [bad], after);
    StaysDifferent16(Crc16(crc, before + [good]), Crc16(crc, before + [bad]), after);
  }

  lemma ShiftedBytes(a: bv8, b: bv8)
    ensures (a as bv16) << 8 == (b as bv16) << 8 ==> a == b
  {
  }

  lemma {:induction false} Continue16(crc: bv16, front: seq<bv8>, back: seq<bv8>)
    ensures Crc16(crc, front + back) == Crc16(Crc16(crc, front), back)
  {
    hide Feed16;
    if back == [] {
      assert front + back == front;
    } else {
      var n := |back| - 1;
      Continue16(crc, front, back[..n]);
      Crc16Snoc(crc, front + back[..n], back[n]);
      assert front + back == front + back[..n] + [back[n]];
    }
  }

  lemma Crc32Snoc(crc: bv32, bytes: seq<bv8>, b: bv8)
    ensures Crc32(crc, bytes + [b]) == Feed32(Crc32(crc, bytes), b as bv32)
  {
    assert (bytes + [b])[..|bytes|] == bytes;
  }

  lemma {:induction false} StaysDifferent32(c: bv32, d: bv32, bytes: seq<bv8>)
    requires c != d
    ensures Crc32(c, bytes) != Crc32(d, bytes)
  {
    hide Steps32, Xor32;
    if bytes != [] {
      var front, last := bytes[..|bytes| - 1], bytes[|bytes| - 1] as bv32;
      StaysDifferent32(c, d, front);
      var x, y := Crc32(c, front), Crc32(d, front);
      if Feed32(x, last) == Feed32(y, last) {
        StepsInjective32(Xor32(x, last), Xor32(y, last), 8);
        Cancel32(x, y, last);
      }
    }
  }

  lemma Cancel32(x: bv32, y: bv32, z: bv32)
    ensures Xor32(x, z) == Xor32(y, z) <==> x == y
    ensures Xor32(z, x) == Xor32(z, y) <==> x == y
  {
  }

  /** A message with one wrong byte has a wrong checksum. */
  lemma WrongByteShows32(crc: bv32, before: seq<bv8>, good: bv8, bad: bv8, after: seq<bv8>)
    requires good != bad
    ensures Crc32(crc, before + [good] + after) != Crc32(crc, before + [bad] + after)
  {
    hide Steps32, Xor32, Crc32;
    var c := Crc32(crc, before);
    Crc32Snoc(crc, before, good);
    Crc32Snoc(crc, before, bad);
    if Feed32(c, good as bv32) == Feed32(c, bad as bv32) {
      StepsInjective32(Xor32(c, good as bv32), Xor32(c, bad as bv32), 8);
      Cancel32(good as bv32, bad as bv32, c);
      WideBytes(good, bad);
    }
    Continue32(crc, before + [good], after);
    Continue32(crc, before + [bad], after);
    StaysDifferent32(Crc32(crc, before + [good]), Crc32(crc, before + [bad]), after);
  }

  lemma WideBytes(a: bv8, b: bv8)
    ensures a as bv32 == b as bv32 ==> a == b
  {
  }

  lemma {:induction false} Continue32(crc: bv32, front: seq<bv8>, back: seq<bv8>)
    ensures Crc32(crc, front + back) == Crc32(Crc32(crc, front), back)
  {
    hide Feed32;
    if back == [] {
      assert front + back == front;
    } else {
      var n := |back| - 1;
      Continue32(crc, front, back[..n]);
      Crc32Snoc(crc, front + back[..n], back[n]);
      assert front + back == front + back[..n] + [back[n]];
    }
  }

  // ---- Loops ------------------------------------------------------------------------------

  lemma StepIs16(c: bv16)
    ensures Step16(c) == if c & 0x8000 != 0 then (c << 1) ^ 0x1021 else c << 1
  {
    hide Xor16;
    XorIs16(c << 1, 0x1021);
    Units16(c << 1);
  }

  lemma XorIs16(x: bv16, y: bv16)
    ensures Xor16(x, y) == x ^ y
  {
  }

  lemma StepIs32(c: bv32)
    ensures Step32(c) == (c >> 1) ^ (if c & 1 != 0 then 0xedb88320 else 0)
  {
    hide Xor32;
    if c & 1 != 0 {
      XorIs32(c >> 1, 0xedb88320);
    } else {
      XorIs32(c >> 1, 0);
    }
  }

  lemma XorIs32(x: bv32, y: bv32)
    ensures Xor32(x, y) == x ^ y
  {
  }

  /** One byte of the bit-by-bit CRC16. */
  method FeedBits16(crc: bv16, byte: bv8) returns (r: bv16)
    ensures r == Feed16(crc, byte as bv16)
  {
    hide Step16, Xor16;
    r := crc ^ ((byte as bv16) << 8);
    ghost var start := r;
    XorIs16(crc, (byte as bv16) << 8);
    for bit := 0 to 8
      invariant r == Steps16(start, bit)
    {
      StepIs16(r);
      r := if r & 0x8000 != 0 then (r << 1) ^ 0x1021 else r << 1;
    }
  }

  ghost predicate IsTable16(table: array<bv16>)
    reads table
  {
    table.Length == 256 && forall i | 0 <= i < 256 :: table[i] == Entry16(i as bv16)
  }

  method BuildTable16() returns (table: array<bv16>)
    ensures fresh(table) && IsTable16(table)
  {
    hide Step16, Steps16;
    table := new bv16[256];
    for i := 0 to 256
      invariant forall k | 0 <= k < i :: table[k] == Entry16(k as bv16)
    {
      var crc: bv16 := (i as bv16) << 8;
      crc := EightSteps16(crc);
      table[i] := crc;
    }
  }

  method EightSteps16(start: bv16) returns (r: bv16)
    ensures r == Steps16(start, 8)
  {
    hide Step16;
    r := start;
    for bit := 0 to 8
      invariant r == Steps16(start, bit)
    {
      StepIs16(r);
      r := if r & 0x8000 != 0 then (r << 1) ^ 0x1021 else r << 1;
    }
  }

  method Lookup16(table: array<bv16>, index: bv16) returns (entry: bv16)
    requires IsTable16(table)
    requires index & 0xff00 == 0
    ensures entry == Entry16(index)
  {
    hide Entry16;
    InTable(index);
    var i := index as int;
    entry := table[i];
    assert entry == Entry16(i as bv16);
  }

  lemma InTable(index: bv16)
    requires index & 0xff00 == 0
    ensures 0 <= index as int < 256 && (index as int) as bv16 == index
  {
  }

  lemma LowIndex(crc: bv16, byte: bv8, index: bv16)
    requires index == Xor16(crc >> 8, byte as bv16)
    ensures index & 0xff00 == 0
  {
  }

  /** One byte of the table CRC16. */
  method FeedTable16(table: array<bv16>, crc: bv16, byte: bv8) returns (r: bv16)
    requires IsTable16(table)
    ensures r == Feed16(crc, byte as bv16)
  {
    hide Entry16, Feed16, Xor16;
    TableStep16(crc, byte as bv16);
    var index := Xor16(crc >> 8, byte as bv16);
    LowIndex(crc, byte, index);
    var entry := Lookup16(table, index);
    r := Xor16(crc << 8, entry);
  }

  /** One byte of the bit-by-bit CRC32. */
  method FeedBits32(crc: bv32, byte: bv8) returns (r: bv32)
    ensures r == Feed32(crc, byte as bv32)
  {
    hide Step32, Xor32;
    r := Xor32(crc, byte as bv32);
    ghost var start := r;
    for bit := 0 to 8
      invariant r == Steps32(start, bit)
    {
      StepIs32(r);
      r := (r >> 1) ^ (if r & 1 != 0 then 0xedb88320 else 0);
    }
  }

  ghost predicate IsTable32(table: array<bv32>)
    reads table
  {
    table.Length == 256 && forall i | 0 <= i < 256 :: table[i] == Steps32(i as bv32, 8)
  }

  method BuildTable32() returns (table: array<bv32>)
    ensures fresh(table) && IsTable32(table)
  {
    hide Step32, Steps32;
    table := new bv32[256];
    for index := 0 to 256
      invariant forall k | 0 <= k < index :: table[k] == Steps32(k as bv32, 8)
    {
      var entry: bv32 := index as bv32;
      entry := EightSteps32(entry);
      table[index] := entry;
    }
  }

  method EightSteps32(start: bv32) returns (r: bv32)
    ensures r == Steps32(start, 8)
  {
    hide Step32;
    r := start;
    for bit := 0 to 8
      invariant r == Steps32(start, bit)
    {
      StepIs32(r);
      r := (r >> 1) ^ (if r & 1 != 0 then 0xedb88320 else 0);
    }
  }

  method Lookup32(table: array<bv32>, index: bv32) returns (entry: bv32)
    requires IsTable32(table) && index & 0xffff_ff00 == 0
    ensures entry == Steps32(index, 8)
  {
    hide Steps32;
    InTable32(index);
    var i := index as int;
    entry := table[i];
    assert entry == Steps32(i as bv32, 8);
  }

  lemma InTable32(index: bv32)
    requires index & 0xffff_ff00 == 0
    ensures 0 <= index as int < 256 && (index as int) as bv32 == index
  {
  }

  lemma LowIndex32(mixed: bv32)
    ensures (mixed & 0xff) & 0xffff_ff00 == 0
  {
  }

  /** One byte of the table CRC32. */
  method FeedTable32(table: array<bv32>, crc: bv32, byte: bv8) returns (r: bv32)
    requires IsTable32(table)
    ensures r == Feed32(crc, byte as bv32)
  {
    hide Steps32, Feed32, Xor32, IsTable32;
    ByteIsLow(byte);
    TableStep32(crc, byte as bv32);
    var mixed := Xor32(crc, byte as bv32);
    LowIndex32(mixed);
    var entry := Lookup32(table, mixed & 0xff);
    r := Xor32(crc >> 8, entry);
  }
}
