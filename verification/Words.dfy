/** Bytes, 32-bit words and the byte orders in which the drivers move them.

    Register words are built in C with shifts, masks and `|` over disjoint fields. The model writes them with
    multiplication, `%` and `+`; FieldsDoNotOverlap and BytesDoNotOverlap justify that on bit-vectors. */
module Words {
  type byte = x: int | 0 <= x < 0x100
  type word = x: int | 0 <= x < 0x1_0000_0000

  datatype Option<+T> = None | Some(value: T)

  /** 256^n: the weight of the byte that is shifted left by 8*n bits. */
  function Weight(n: nat): (w: nat)
    ensures w > 0
  {
    if n == 0 then 1 else 0x100 * Weight(n - 1)
  }

  lemma DigitBound(b: byte, w: nat)
    ensures 0 <= b as int * w <= 0xff * w
  {
  }

  /** The value of a big-endian (most significant byte first) byte string. */
  function BigEndian(s: seq<byte>): int {
    if s == [] then 0 else s[0] as int * Weight(|s| - 1) + BigEndian(s[1..])
  }

  /** The memory image of a word on this little-endian core: what memcpy(array, &w, 4) stores. */
  function Image(w: word): (s: seq<byte>)
    ensures |s| == 4
  {
    [w % 0x100, w / 0x100 % 0x100, w / 0x1_0000 % 0x100, w / 0x100_0000]
  }

  function Reversed<T>(s: seq<T>): (r: seq<T>)
    ensures |r| == |s|
    ensures forall k :: 0 <= k < |s| ==> r[k] == s[|s| - 1 - k]
  {
    if s == [] then [] else Reversed(s[1..]) + [s[0]]
  }

  /** The four bytes of a word in the order in which the queue carries them. */
  function Queued(w: word): (s: seq<byte>)
    ensures |s| == 4
  {
    Reversed(Image(w))
  }

  lemma FourDigits(a: byte, b: byte, c: byte, d: byte)
    ensures BigEndian([a, b, c, d]) == a as int * 0x100_0000 + b as int * 0x1_0000 + c as int * 0x100 + d
  {
    assert Weight(1) == 0x100 && Weight(2) == 0x1_0000 && Weight(3) == 0x100_0000;
    assert [a, b, c, d][1..] == [b, c, d] && [b, c, d][1..] == [c, d] && [c, d][1..] == [d];
    assert BigEndian([d]) == d;
    assert BigEndian([c, d]) == c as int * 0x100 + d;
  }

  lemma SplitWord(w: int)
    requires 0 <= w < 0x1_0000_0000
    ensures w == w / 0x100_0000 * 0x100_0000 + w / 0x1_0000 % 0x100 * 0x1_0000 + w / 0x100 % 0x100 * 0x100 + w % 0x100
  {
    assert w / 0x100 / 0x100 == w / 0x1_0000 && w / 0x1_0000 / 0x100 == w / 0x100_0000;
    assert w == w / 0x100 * 0x100 + w % 0x100;
    assert w / 0x100 == w / 0x1_0000 * 0x100 + w / 0x100 % 0x100;
    assert w / 0x1_0000 == w / 0x100_0000 * 0x100 + w / 0x1_0000 % 0x100;
  }

  lemma QueuedValue(w: word)
    ensures BigEndian(Queued(w)) == w
  {
    assert Queued(w) == [w / 0x100_0000, w / 0x1_0000 % 0x100, w / 0x100 % 0x100, w % 0x100];
    FourDigits(w / 0x100_0000, w / 0x1_0000 % 0x100, w / 0x100 % 0x100, w % 0x100);
    SplitWord(w);
  }

  /** Distinct words have distinct queue images. */
  lemma QueuedInjective(v: word, w: word)
    requires Queued(v) == Queued(w)
    ensures v == w
  {
    QueuedValue(v);
    QueuedValue(w);
  }

  /** The CR2 expression of the driver, `((n << 16) & 0xFF0000) | rd | (a & 0x3FF)`, is a sum, and an oversized count
      loses its high bits. */
  lemma FieldsDoNotOverlap(n: bv32, rd: bv32, a: bv32)
    requires n < 0x200 && a < 0x100 && (rd == 0 || rd == 0x400)
    ensures ((n << 16) & 0x00ff_0000) | rd | (a & 0x3ff) == ((n & 0xff) << 16) + rd + a
  {
  }

  /** OR-ing a byte into the zero bits below a partially assembled 64-bit value is an addition. */
  lemma BytesDoNotOverlap(sum: bv64, b: bv64, low: bv64)
    requires b < 0x100 && low < 57
    requires sum & ((1 << (low + 8)) - 1) == 0
    ensures sum | (b << low) == sum + (b << low)
  {
  }
}
