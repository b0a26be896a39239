/** Machine words of a 64-bit target and Rust's `as` casts between them. A
    cast between `usize` and `i64` keeps the 64-bit word and changes only how
    it is read: as an unsigned number, or in two's complement. */
module Words {

  const WORD_BITS: nat := 64
  const TWO_TO_THE_63: int := 0x8000_0000_0000_0000
  const TWO_TO_THE_64: int := 0x1_0000_0000_0000_0000

  newtype byte = x: int | 0 <= x < 0x100
  newtype u16 = x: int | 0 <= x < 0x1_0000
  newtype i64 = x: int | -0x8000_0000_0000_0000 <= x < 0x8000_0000_0000_0000
  /** `usize` on a 64-bit target. */
  newtype usize = x: int | 0 <= x < 0x1_0000_0000_0000_0000

  function Pow2(n: nat): (p: nat)
    ensures p > 0
  {
    if n == 0 then 1 else 2 * Pow2(n - 1)
  }

  lemma {:induction false} Pow2Add(a: nat, b: nat)
    ensures Pow2(a + b) == Pow2(a) * Pow2(b)
  {
    if a > 0 {
      Pow2Add(a - 1, b);
      assert Pow2(a + b) == 2 * Pow2(a - 1 + b);
      assert 2 * (Pow2(a - 1) * Pow2(b)) == (2 * Pow2(a - 1)) * Pow2(b);
    }
  }

  lemma Pow2OfWord()
    ensures Pow2(WORD_BITS - 1) == TWO_TO_THE_63
    ensures Pow2(WORD_BITS) == TWO_TO_THE_64
  {
    var p8 := Pow2(8);
    assert p8 == 0x100;
    Pow2Add(8, 8);
    var p16 := Pow2(16);
    assert p16 == 0x100 * 0x100 == 0x1_0000;
    Pow2Add(16, 16);
    var p32 := Pow2(32);
    assert p32 == 0x1_0000 * 0x1_0000 == 0x1_0000_0000;
    Pow2Add(32, 32);
    assert Pow2(64) == 0x1_0000_0000 * 0x1_0000_0000;
  }

  /** The low `width` bits of `x` in two's complement, least significant first. */
  function Bits(x: int, width: nat): (b: seq<bool>)
    ensures |b| == width
    decreases width
  {
    if width == 0 then [] else [x % 2 == 1] + Bits(x / 2, width - 1)
  }

  /** A word read as an unsigned number. */
  function Unsigned(b: seq<bool>): (u: nat)
  {
    if b == [] then 0 else (if b[0] then 1 else 0) + 2 * Unsigned(b[1..])
  }

  /** A word read in two's complement: the top bit weighs -2^(width-1). */
  function Signed(b: seq<bool>): (i: int)
    requires |b| > 0
  {
    if b[|b| - 1] then Unsigned(b) - Pow2(|b|) else Unsigned(b)
  }

  lemma {:induction false} UnsignedBound(b: seq<bool>)
    ensures Unsigned(b) < Pow2(|b|)
  {
    if b != [] {
      UnsignedBound(b[1..]);
    }
  }

  /** The top bit is set exactly when the unsigned reading is at least 2^(width-1). */
  lemma TopBitIsHigh(b: seq<bool>)
    requires |b| > 0
    ensures b[|b| - 1] <==> Unsigned(b) >= Pow2(|b| - 1)
  {
  }

  /** A positive multiple of a positive number is at least that number. */
  lemma MulAtLeast(d: int, k: int)
    requires d > 0 && k > 0
    ensures d * k >= d
  {
  }

  /** Euclidean division has one remainder. */
  lemma ModUnique(x: int, d: int, q: int, r: int)
    requires d > 0 && x == d * q + r && 0 <= r < d
    ensures x % d == r
  {
    var q', r' := x / d, x % d;
    assert x == d * q' + r';
    if q' < q {
      MulAtLeast(d, q - q');
      assert false;
    } else if q' > q {
      MulAtLeast(d, q' - q);
      assert false;
    }
  }

  /** One step of binary long division: the remainder modulo 2p is the low
      bit plus twice the remainder of the halved value modulo p. */
  lemma HalveMod(x: int, p: int)
    requires p > 0
    ensures x % (2 * p) == x % 2 + 2 * ((x / 2) % p)
  {
    var q := x / 2;
    var k := q / p;
    assert x == 2 * q + x % 2;
    assert q == p * k + q % p;
    assert x == (2 * p) * k + (x % 2 + 2 * (q % p));
    ModUnique(x, 2 * p, k, x % 2 + 2 * (q % p));
  }

  /** Reading the low `width` bits of `x` as unsigned gives `x` modulo 2^width. */
  lemma {:induction false} UnsignedOfBits(x: int, width: nat)
    ensures Unsigned(Bits(x, width)) == x % Pow2(width)
    decreases width
  {
    if width > 0 {
      var b := Bits(x, width);
      UnsignedOfBits(x / 2, width - 1);
      assert b[1..] == Bits(x / 2, width - 1);
      assert Unsigned(b) == x % 2 + 2 * ((x / 2) % Pow2(width - 1));
      HalveMod(x, Pow2(width - 1));
    }
  }

  /** Every word is the bit pattern of its own unsigned reading. */
  lemma {:induction false} BitsOfUnsigned(b: seq<bool>)
    ensures Bits(Unsigned(b), |b|) == b
  {
    if b != [] {
      BitsOfUnsigned(b[1..]);
      var u := Unsigned(b);
      assert u % 2 == (if b[0] then 1 else 0);
      assert u / 2 == Unsigned(b[1..]);
    }
  }

  /** Every word is the bit pattern of its own two's-complement reading. */
  lemma BitsOfSigned(b: seq<bool>)
    requires |b| > 0
    ensures Bits(Signed(b), |b|) == b
  {
    var s, u := Signed(b), Unsigned(b);
    UnsignedOfBits(s, |b|);
    UnsignedOfBits(u, |b|);
    UnsignedBound(b);
    if b[|b| - 1] {
      ModUnique(s, Pow2(|b|), -1, u);
    }
    ModUnique(u, Pow2(|b|), 0, u);
    assert Unsigned(Bits(s, |b|)) == Unsigned(Bits(u, |b|));
    BitsOfUnsigned(Bits(s, |b|));
    BitsOfUnsigned(Bits(u, |b|));
    BitsOfUnsigned(b);
  }

  /** A value in the signed range of a width reads back from its own bits. */
  lemma SignedOfBits(x: int, width: nat)
    requires width > 0 && 0 <= x + Pow2(width - 1) && x < Pow2(width - 1)
    ensures Signed(Bits(x, width)) == x
  {
    var b := Bits(x, width);
    UnsignedOfBits(x, width);
    TopBitIsHigh(b);
    if x >= 0 {
      ModUnique(x, Pow2(width), 0, x);
    } else {
      ModUnique(x, Pow2(width), -1, x + Pow2(width));
    }
  }

  /** True when two integers have the same 64-bit two's-complement word. */
  predicate SameWord(a: int, b: int) {
    (a - b) % TWO_TO_THE_64 == 0
  }

  /** `u as i64`: the 64-bit word of `u` read in two's complement. */
  function UsizeAsI64(u: usize): (i: i64)
    ensures SameWord(i as int, u as int)
    ensures i < 0 <==> u as int >= TWO_TO_THE_63
  {
    if u as int < TWO_TO_THE_63 then u as int as i64 else (u as int - TWO_TO_THE_64) as i64
  }

  /** `i as usize`: the 64-bit word of `i` read as an unsigned number. */
  function I64AsUsize(i: i64): (u: usize)
    ensures SameWord(u as int, i as int)
    ensures i >= 0 ==> u as int == i as int
    ensures i < 0 ==> u as int >= TWO_TO_THE_63
  {
    if i >= 0 then i as int as usize else (i as int + TWO_TO_THE_64) as usize
  }

  /** `as i64` is the two's-complement reading of the `usize`'s word. */
  lemma UsizeAsI64IsSignedReading(u: usize)
    ensures UsizeAsI64(u) as int == Signed(Bits(u as int, WORD_BITS))
  {
    var b := Bits(u as int, WORD_BITS);
    Pow2OfWord();
    UnsignedOfBits(u as int, WORD_BITS);
    ModUnique(u as int, TWO_TO_THE_64, 0, u as int);
    TopBitIsHigh(b);
  }

  /** `as usize` is the unsigned reading of the `i64`'s word. */
  lemma I64AsUsizeIsUnsignedReading(i: i64)
    ensures I64AsUsize(i) as int == Unsigned(Bits(i as int, WORD_BITS))
  {
    Pow2OfWord();
    UnsignedOfBits(i as int, WORD_BITS);
    if i >= 0 {
      ModUnique(i as int, TWO_TO_THE_64, 0, i as int);
    } else {
      ModUnique(i as int, TWO_TO_THE_64, -1, i as int + TWO_TO_THE_64);
    }
  }

  /** `as i64` keeps the 64-bit word of the `usize`. */
  lemma UsizeAsI64KeepsWord(u: usize)
    ensures Bits(UsizeAsI64(u) as int, WORD_BITS) == Bits(u as int, WORD_BITS)
  {
    UsizeAsI64IsSignedReading(u);
    BitsOfSigned(Bits(u as int, WORD_BITS));
  }

  /** `as usize` keeps the 64-bit word of the `i64`. */
  lemma I64AsUsizeKeepsWord(i: i64)
    ensures Bits(I64AsUsize(i) as int, WORD_BITS) == Bits(i as int, WORD_BITS)
  {
    I64AsUsizeIsUnsignedReading(i);
    BitsOfUnsigned(Bits(i as int, WORD_BITS));
  }

  /** Writing a `usize` as `i64` and reading it back as `usize` gives the same value. */
  lemma UsizeSurvivesI64(u: usize)
    ensures I64AsUsize(UsizeAsI64(u)) == u
  {
  }

  /** Reading an `i64` as `usize` and writing it back as `i64` gives the same value. */
  lemma I64SurvivesUsize(i: i64)
    ensures UsizeAsI64(I64AsUsize(i)) == i
  {
    // Both casts keep the word, and an `i64` is the signed reading of its own word.
    I64AsUsizeKeepsWord(i);
    UsizeAsI64IsSignedReading(I64AsUsize(i));
    Pow2OfWord();
    SignedOfBits(i as int, WORD_BITS);
  }

  /** The cast `as i64` loses nothing: distinct `usize` values stay distinct. */
  lemma UsizeAsI64Injective(u: usize, v: usize)
    requires UsizeAsI64(u) == UsizeAsI64(v)
    ensures u == v
  {
  }
}
