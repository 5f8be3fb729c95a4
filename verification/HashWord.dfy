/**
 The packing of four digest bytes into one 32-bit ring point.
 */
module HashWord {

  const WORD_LIMIT := 0x1_0000_0000

  /** The value of a C `unsigned int`. */
  type Word = w: int | 0 <= w < WORD_LIMIT

  /** The four bytes side by side, the first one highest, by shifting and or-ing. */
  function PackBits(a: bv8, b: bv8, c: bv8, d: bv8): bv32 {
    (a as bv32 << 24) | (b as bv32 << 16) | (c as bv32 << 8) | d as bv32
  }

  /** Byte number `k` of a word, counted from the low end. */
  function ByteAt(w: bv32, k: nat): bv8
    requires k < 4
  {
    match k
    case 0 => (w & 0xFF) as bv8
    case 1 => ((w >> 8) & 0xFF) as bv8
    case 2 => ((w >> 16) & 0xFF) as bv8
    case _ => ((w >> 24) & 0xFF) as bv8
  }

  /** The number a 32-bit pattern stands for. */
  function Value(w: bv32): Word {
    ByteAt(w, 3) as int * 0x100_0000 + ByteAt(w, 2) as int * 0x1_0000
    + ByteAt(w, 1) as int * 0x100 + ByteAt(w, 0) as int
  }

  function Hash(a: bv8, b: bv8, c: bv8, d: bv8): Word {
    Value(PackBits(a, b, c, d))
  }

  /** Packing keeps the bytes apart: each can be read back, and together they are the value. */
  lemma HashValueOfBytes(a: bv8, b: bv8, c: bv8, d: bv8)
    ensures Hash(a, b, c, d)
         == a as int * 0x100_0000 + b as int * 0x1_0000 + c as int * 0x100 + d as int
  {
    var w := PackBits(a, b, c, d);
    assert ByteAt(w, 3) == a && ByteAt(w, 2) == b && ByteAt(w, 1) == c && ByteAt(w, 0) == d;
  }

  lemma HashInjective(a: bv8, b: bv8, c: bv8, d: bv8, a': bv8, b': bv8, c': bv8, d': bv8)
    ensures Hash(a, b, c, d) == Hash(a', b', c', d') <==> a == a' && b == b' && c == c' && d == d'
  {
    HashValueOfBytes(a, b, c, d);
    HashValueOfBytes(a', b', c', d');
    hide *;
    if Hash(a, b, c, d) == Hash(a', b', c', d') {
      SameFourBytes(a, b, c, d, a', b', c', d');
    }
  }

  lemma NextByte(b: bv8)
    requires b != 0xFF
    ensures (b + 1) as int == b as int + 1
  {
  }

  function ByteOfInt(n: int): (b: bv8)
    requires 0 <= n < 0x100
    ensures b as int == n
  {
    if n == 0 then 0
    else
      NextByte(ByteOfInt(n - 1));
      ByteOfInt(n - 1) + 1
  }

  lemma PositionalDigits(w: Word)
    ensures w == w / 0x100_0000 * 0x100_0000 + w / 0x1_0000 % 0x100 * 0x1_0000
               + w / 0x100 % 0x100 * 0x100 + w % 0x100
    ensures w / 0x100_0000 < 0x100
  {
    assert w / 0x1_0000 / 0x100 == w / 0x100_0000;
    assert w / 0x100 / 0x100 == w / 0x1_0000;
  }

  lemma SameByte(a: bv8, b: bv8)
    requires a as int == b as int
    ensures a == b
  {
  }

  lemma PositionalUnique(a: int, b: int, c: int, d: int, a': int, b': int, c': int, d': int)
    requires 0 <= a < 0x100 && 0 <= b < 0x100 && 0 <= c < 0x100 && 0 <= d < 0x100
    requires 0 <= a' < 0x100 && 0 <= b' < 0x100 && 0 <= c' < 0x100 && 0 <= d' < 0x100
    requires a * 0x100_0000 + b * 0x1_0000 + c * 0x100 + d
          == a' * 0x100_0000 + b' * 0x1_0000 + c' * 0x100 + d'
    ensures a == a' && b == b' && c == c' && d == d'
  {
  }

  lemma SameFourBytes(a: bv8, b: bv8, c: bv8, d: bv8, a': bv8, b': bv8, c': bv8, d': bv8)
    requires a as int * 0x100_0000 + b as int * 0x1_0000 + c as int * 0x100 + d as int
          == a' as int * 0x100_0000 + b' as int * 0x1_0000 + c' as int * 0x100 + d' as int
    ensures a == a' && b == b' && c == c' && d == d'
  {
    PositionalUnique(a as int, b as int, c as int, d as int, a' as int, b' as int, c' as int, d' as int);
    SameByte(a, a');
    SameByte(b, b');
    SameByte(c, c');
    SameByte(d, d');
  }

  /** Byte `k` of a number, counted from the low end. */
  function ByteOfWord(w: Word, k: nat): bv8
    requires k < 4
  {
    PositionalDigits(w);
    match k
    case 0 => ByteOfInt(w % 0x100)
    case 1 => ByteOfInt(w / 0x100 % 0x100)
    case 2 => ByteOfInt(w / 0x1_0000 % 0x100)
    case _ => ByteOfInt(w / 0x100_0000)
  }

  /** Every 32-bit value is the hash of its own four bytes. */
  lemma HashSurjective(w: Word)
    ensures Hash(ByteOfWord(w, 3), ByteOfWord(w, 2), ByteOfWord(w, 1), ByteOfWord(w, 0)) == w
  {
    PositionalDigits(w);
    HashValueOfBytes(ByteOfWord(w, 3), ByteOfWord(w, 2), ByteOfWord(w, 1), ByteOfWord(w, 0));
  }
}
