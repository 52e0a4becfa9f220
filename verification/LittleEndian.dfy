/** Little-endian fields inside byte images. */
module LittleEndian {
  import opened CInt

  type Bytes = seq<U8>

  function Le16(x: U16): (b: Bytes)
    ensures |b| == 2
  {
    [x % 0x100, x / 0x100]
  }

  function Le32(x: U32): (b: Bytes)
    ensures |b| == 4
  {
    [x % 0x100, (x / 0x100) % 0x100, (x / 0x1_0000) % 0x100, x / 0x100_0000]
  }

  function Read16(b: Bytes, o: int): U16
    requires 0 <= o && o + 2 <= |b|
  {
    Join16(b[o], b[o + 1])
  }

  function Read32(b: Bytes, o: int): U32
    requires 0 <= o && o + 4 <= |b|
  {
    Join32(b[o], b[o + 1], b[o + 2], b[o + 3])
  }

  function Join16(b0: U8, b1: U8): U16
  {
    var low: int, high: int := b0, b1;
    low + high * 0x100
  }

  function Join32(b0: U8, b1: U8, b2: U8, b3: U8): U32
  {
    var x0: int, x1: int, x2: int, x3: int := b0, b1, b2, b3;
    x0 + x1 * 0x100 + x2 * 0x1_0000 + x3 * 0x100_0000
  }

  function Pair(low: U16, high: U16): U32
  {
    var l: int, h: int := low, high;
    l + h * 0x1_0000
  }

  lemma Div256(x: int)
    ensures (x / 0x100) / 0x100 == x / 0x1_0000 && (x / 0x1_0000) / 0x100 == x / 0x100_0000
  {
    var a, b := x / 0x100, x / 0x1_0000;
    DivUnique(x, 0x1_0000, a / 0x100);
    DivUnique(x, 0x100_0000, b / 0x100);
  }

  lemma Join32Le32(x: U32)
    ensures Join32(Le32(x)[0], Le32(x)[1], Le32(x)[2], Le32(x)[3]) == x
  {
    Div256(x);
    var a, b, c: int := x / 0x100, x / 0x1_0000, x / 0x100_0000;
    assert x == 0x100 * a + x % 0x100 && a == 0x100 * b + a % 0x100 && b == 0x100 * c + b % 0x100;
  }

  lemma HalvesOfPair(low: U16, high: U16)
    ensures var b := Le32(Pair(low, high)); Join16(b[0], b[1]) == low && Join16(b[2], b[3]) == high
  {
    var p: int := Pair(low, high);
    DivUnique(p, 0x1_0000, high);
    assert p % 0x1_0000 == low;
  }

  /** A run of 32-bit words. */
  function Words(ws: seq<U32>): (b: Bytes)
    ensures |b| == 4 * |ws|
  {
    if ws == [] then [] else Words(ws[..|ws| - 1]) + Le32(ws[|ws| - 1])
  }

  lemma {:induction false} WordsAt(ws: seq<U32>, k: nat)
    requires k < |ws|
    ensures |Words(ws)| >= 4 * k + 4
    ensures Words(ws)[4 * k..4 * k + 4] == Le32(ws[k])
  {
    var n := |ws| - 1;
    var front, last := Words(ws[..n]), Le32(ws[n]);
    if k == n {
      assert (front + last)[4 * n..4 * n + 4] == last;
    } else {
      WordsAt(ws[..n], k);
      assert (front + last)[4 * k..4 * k + 4] == front[4 * k..4 * k + 4];
    }
  }

  predicate Room(image: Bytes, o: int, n: int) { 0 <= o && o + n <= |image| }

  /** A piece lies in an image at a position. */
  predicate Holds(image: Bytes, o: int, piece: Bytes)
  {
    Room(image, o, |piece|) && image[o..o + |piece|] == piece
  }

  /** Word `k` of a run of words that lies somewhere in an image. */
  lemma WordInside(image: Bytes, o: int, ws: seq<U32>, k: nat)
    requires Holds(image, o, Words(ws)) && k < |ws|
    ensures Read32(image, o + 4 * k) == ws[k] && Spells(image, o + 4 * k, Le32(ws[k]))
  {
    hide Words, Le32, Read32, Spells, Holds;
    FourInside(image, o, ws, k);
    SpelledWord(image, o + 4 * k, ws[k]);
  }

  /** The four bytes from a position on. */
  predicate Spells(image: Bytes, p: int, four: Bytes)
    requires 0 <= p && p + 4 <= |image| && |four| == 4
  {
    image[p] == four[0] && image[p + 1] == four[1] && image[p + 2] == four[2] && image[p + 3] == four[3]
  }

  lemma SpelledWord(image: Bytes, p: int, w: U32)
    requires 0 <= p && p + 4 <= |image| && Spells(image, p, Le32(w))
    ensures Read32(image, p) == w
  {
    hide Le32, Join32;
    Join32Le32(w);
  }

  /** Its four bytes. */
  lemma FourInside(image: Bytes, o: int, ws: seq<U32>, k: nat)
    requires Holds(image, o, Words(ws)) && k < |ws|
    ensures Room(image, o + 4 * k, 4) && Spells(image, o + 4 * k, Le32(ws[k]))
  {
    hide Words, Le32, Holds;
    FourOfWords(ws, k);
    ByteOfPiece(image, o, Words(ws), 4 * k);
    ByteOfPiece(image, o, Words(ws), 4 * k + 1);
    ByteOfPiece(image, o, Words(ws), 4 * k + 2);
    ByteOfPiece(image, o, Words(ws), 4 * k + 3);
  }

  lemma FourOfWords(ws: seq<U32>, k: nat)
    requires k < |ws|
    ensures var at, piece, four := 4 * k, Words(ws), Le32(ws[k]);
            piece[at] == four[0] && piece[at + 1] == four[1] && piece[at + 2] == four[2] && piece[at + 3] == four[3]
  {
    hide Words, Le32;
    WordsAt(ws, k);
    FourOf(Words(ws), 4 * k);
  }

  lemma FourOf(piece: Bytes, at: nat)
    requires at + 4 <= |piece|
    ensures var four := piece[at..at + 4];
            four[0] == piece[at] && four[1] == piece[at + 1] && four[2] == piece[at + 2] && four[3] == piece[at + 3]
  {
  }

  lemma ByteOfPiece(image: Bytes, o: int, piece: Bytes, i: int)
    requires Holds(image, o, piece) && 0 <= i < |piece|
    ensures Room(image, o, |piece|) && image[o + i] == piece[i]
  {
  }

  /** The two halves of such a word. */
  lemma PairInside(image: Bytes, o: int, ws: seq<U32>, k: nat, low: U16, high: U16)
    requires Holds(image, o, Words(ws)) && k < |ws| && ws[k] == Pair(low, high)
    ensures Read16(image, o + 4 * k) == low && Read16(image, o + 4 * k + 2) == high
  {
    hide Le32, Words, Pair, Join16, Holds;
    WordInside(image, o, ws, k);
    HalvesOfPair(low, high);
  }
}
