/**
 The hash functions of hash.h: the shift-and-add form of multiplicative hashing
 on 64-bit words, and Bob Jenkins' hash on 32-bit words.
 */
module Hash {
  import opened Bits

  const U64: nat := 0x1_0000_0000_0000_0000
  const GOLDEN_RATIO_PRIME: nat := 0x9e37_ffff_fffc_0001

  // ----- Multiplicative hashing -----

  function W64(x: int): nat {
    x % U64
  }

  lemma W64Add(x: int, y: int)
    ensures W64(W64(x) + W64(y)) == W64(x + y) && W64(W64(x) - W64(y)) == W64(x - y)
  {
    var p, q := x / U64, y / U64;
    assert x + y == W64(x) + W64(y) + (p + q) * U64;
    assert x - y == W64(x) - W64(y) + (p - q) * U64;
    W64Shift(W64(x) + W64(y), p + q);
    W64Shift(W64(x) - W64(y), p - q);
  }

  lemma W64Scale(x: int, c: int)
    ensures W64(W64(x) * c) == W64(x * c)
  {
    var q := x / U64;
    assert x == q * U64 + W64(x);
    assert x * c == W64(x) * c + q * c * U64 by {
      assert (q * U64 + W64(x)) * c == q * U64 * c + W64(x) * c;
    }
    W64Shift(W64(x) * c, q * c);
  }

  lemma W64Shift(x: int, m: int)
    ensures W64(x + m * U64) == W64(x)
  {
    ModIs(x + m * U64, U64, x / U64 + m, W64(x));
  }

  /** A multiple of the hashed value, as a word. */
  function Multiple(m: int, val: nat): nat {
    W64(m * val)
  }

  /** One line of __hash_long: shift n left, then add it to the hash or
      subtract it.  If n is m times the value and the hash is h times the value,
      the shift multiplies m by k, the power of two that it stands for. */
  lemma ShiftAdd(val: nat, m: int, h: int, k: nat, mk: int, n: nat, hash: nat)
    requires n == Multiple(m, val) && hash == Multiple(h, val) && mk == m * k
    ensures W64(n * k) == Multiple(mk, val)
    ensures W64(hash + W64(n * k)) == Multiple(h + mk, val)
    ensures W64(hash - W64(n * k)) == Multiple(h - mk, val)
  {
    W64Scale(m * val, k);
    assert m * val * k == mk * val;
    W64Add(h * val, mk * val);
    assert h * val + mk * val == (h + mk) * val;
    assert h * val - mk * val == (h - mk) * val;
  }

  /** Such a line: n is shifted, multiplying it by k, and goes into the hash. */
  method HashLine(ghost val: nat, ghost m: int, ghost h: int, k: nat, ghost mk: int, add: bool, n0: nat, hash0: nat)
      returns (n: nat, hash: nat)
    requires n0 == Multiple(m, val) && hash0 == Multiple(h, val) && mk == m * k
    ensures n == Multiple(mk, val)
    ensures hash == Multiple(if add then h + mk else h - mk, val)
  {
    hide W64, Multiple;
    ShiftAdd(val, m, h, k, mk, n0, hash0);
    n := W64(n0 * k);
    hash := if add then W64(hash0 + n) else W64(hash0 - n);
  }

  /** __hash_long with 64-bit longs. */
  method HashLong(val: nat) returns (hash: nat)
    requires val < U64
    ensures hash == W64(GOLDEN_RATIO_PRIME * val)
  {
    hash := val;
    var n := hash;
    assert Multiple(1, val) == val;
    assert Multiple(GOLDEN_RATIO_PRIME, val) == W64(GOLDEN_RATIO_PRIME * val);
    hide W64, Multiple;
    ghost var h := 1;
    n, hash := HashLine(val, 1, h, 0x4_0000, 0x4_0000, false, n, hash);                              // n <<= 18
    h := h - 0x4_0000;
    n, hash := HashLine(val, 0x4_0000, h, 0x2_0000_0000, 0x8_0000_0000_0000, false, n, hash);        // n <<= 33
    h := h - 0x8_0000_0000_0000;
    n, hash := HashLine(val, 0x8_0000_0000_0000, h, 8, 0x40_0000_0000_0000, true, n, hash);          // n <<= 3
    h := h + 0x40_0000_0000_0000;
    n, hash := HashLine(val, 0x40_0000_0000_0000, h, 8, 0x200_0000_0000_0000, false, n, hash);       // n <<= 3
    h := h - 0x200_0000_0000_0000;
    n, hash := HashLine(val, 0x200_0000_0000_0000, h, 16, 0x2000_0000_0000_0000, true, n, hash);     // n <<= 4
    h := h + 0x2000_0000_0000_0000;
    n, hash := HashLine(val, 0x2000_0000_0000_0000, h, 4, 0x8000_0000_0000_0000, true, n, hash);     // n <<= 2
    h := h + 0x8000_0000_0000_0000;
    assert h == GOLDEN_RATIO_PRIME;
  }

  /** The multiplicative inverse of the prime modulo 2^64. */
  const GOLDEN_INVERSE: nat := 0x6208_0010_0004_0001

  /** Hashing can be undone, so different words have different hashes. */
  lemma HashLongInvertible(val: nat)
    requires val < U64
    ensures W64(GOLDEN_INVERSE * W64(GOLDEN_RATIO_PRIME * val)) == val
  {
    W64Scale(GOLDEN_RATIO_PRIME * val, GOLDEN_INVERSE);
    var q := 4365784408515473601;
    assert GOLDEN_RATIO_PRIME * GOLDEN_INVERSE == 1 + q * U64;
    assert GOLDEN_RATIO_PRIME * val * GOLDEN_INVERSE == val + q * val * U64;
    W64Shift(val, q * val);
  }

  lemma HashLongInjective(x: nat, y: nat)
    requires x < U64 && y < U64 && W64(GOLDEN_RATIO_PRIME * x) == W64(GOLDEN_RATIO_PRIME * y)
    ensures x == y
  {
    HashLongInvertible(x);
    HashLongInvertible(y);
  }

  // ----- Jenkins' hash -----

  type Word = bv32
  datatype Mixed = Mixed(a: Word, b: Word, c: Word)

  function Or(x: Word, y: Word): Word {
    x | y
  }

  function Rol32(word: Word, shift: bv6): Word
    requires 0 < shift < 32
  {
    (word << shift) | (word >> (32 - shift))
  }

  /** A rotation by one doubles the word and brings the top bit to the bottom. */
  lemma RolByOne(word: Word)
    ensures Rol32(word, 1) == word + word + (if word >= 0x8000_0000 then 1 else 0)
  {
    DoubledBits(word);
  }

  lemma DoubledBits(w: Word)
    ensures (w << 1) | (w >> 31) == w + w + (if w >= 0x8000_0000 then 1 else 0)
  {
  }

  /** A rotation by k + 1 is one by k and another by one. */
  lemma RolByMore(word: Word, k: bv6)
    requires 0 < k < 31
    ensures Rol32(word, k + 1) == Rol32(Rol32(word, k), 1)
  {
    RolBits(word, k);
  }

  lemma RolBits(w: Word, k: bv6)
    requires 0 < k < 31
    ensures (w << (k + 1)) | (w >> (32 - (k + 1)))
         == (((w << k) | (w >> (32 - k))) << 1) | (((w << k) | (w >> (32 - k))) >> (32 - 1))
  {
  }

  function Plus(x: Word, y: Word): Word {
    x + y
  }

  function Minus(x: Word, y: Word): Word {
    x - y
  }

  function Xor(x: Word, y: Word): Word {
    x ^ y
  }

  lemma MinusPlus(x: Word, y: Word)
    ensures Minus(Plus(x, y), y) == x
  {
    assert Plus(x, y) == x + y;
    assert Minus(x + y, y) == x + y - y;
  }

  lemma PlusMinus(x: Word, y: Word)
    ensures Plus(Minus(x, y), y) == x
  {
    assert Minus(x, y) == x - y;
    assert Plus(x - y, y) == x - y + y;
  }

  lemma XorXor(x: Word, y: Word)
    ensures Xor(Xor(x, y), y) == x
  {
    assert Xor(x, y) == x ^ y;
    assert Xor(x ^ y, y) == x ^ y ^ y;
  }

  /** One line of __jhash_mix: x -= z; x ^= rol32(z, k); z += y. */
  function Stir(x: Word, y: Word, z: Word, k: bv6): (Word, Word)
    requires 0 < k < 32
  {
    (Xor(Minus(x, z), Rol32(z, k)), Plus(z, y))
  }

  function Unstir(x: Word, y: Word, z: Word, k: bv6): (Word, Word)
    requires 0 < k < 32
  {
    var z0 := Minus(z, y);
    (Plus(Xor(x, Rol32(z0, k)), z0), z0)
  }

  lemma StirInverse(x: Word, y: Word, z: Word, k: bv6)
    requires 0 < k < 32
    ensures var (x', z') := Stir(x, y, z, k); Unstir(x', y, z', k) == (x, z)
    ensures var (x', z') := Unstir(x, y, z, k); Stir(x', y, z', k) == (x, z)
  {
    hide Plus, Minus, Xor, Rol32;
    MinusPlus(z, y);
    XorXor(Minus(x, z), Rol32(z, k));
    PlusMinus(x, z);
    var z0 := Minus(z, y);
    PlusMinus(z, y);
    MinusPlus(Xor(x, Rol32(z0, k)), z0);
    XorXor(x, Rol32(z0, k));
  }

  /** Three lines, each with the roles moved on by one. */
  function Half(m: Mixed, k1: bv6, k2: bv6, k3: bv6): Mixed
    requires 0 < k1 < 32 && 0 < k2 < 32 && 0 < k3 < 32
  {
    var (a1, c1) := Stir(m.a, m.b, m.c, k1);
    var (b1, a2) := Stir(m.b, c1, a1, k2);
    var (c2, b2) := Stir(c1, a2, b1, k3);
    Mixed(a2, b2, c2)
  }

  function Unhalf(m: Mixed, k1: bv6, k2: bv6, k3: bv6): Mixed
    requires 0 < k1 < 32 && 0 < k2 < 32 && 0 < k3 < 32
  {
    var (c1, b1) := Unstir(m.c, m.a, m.b, k3);
    var (b0, a1) := Unstir(b1, c1, m.a, k2);
    var (a0, c0) := Unstir(a1, b0, c1, k1);
    Mixed(a0, b0, c0)
  }

  lemma HalfInverse(m: Mixed, k1: bv6, k2: bv6, k3: bv6)
    requires 0 < k1 < 32 && 0 < k2 < 32 && 0 < k3 < 32
    ensures Unhalf(Half(m, k1, k2, k3), k1, k2, k3) == m
    ensures Half(Unhalf(m, k1, k2, k3), k1, k2, k3) == m
  {
    hide Stir, Unstir;
    var (a1, c1) := Stir(m.a, m.b, m.c, k1);
    var (b1, a2) := Stir(m.b, c1, a1, k2);
    StirInverse(m.a, m.b, m.c, k1);
    StirInverse(m.b, c1, a1, k2);
    StirInverse(c1, a2, b1, k3);
    var (d1, e1) := Unstir(m.c, m.a, m.b, k3);
    var (b0, f1) := Unstir(e1, d1, m.a, k2);
    StirInverse(m.c, m.a, m.b, k3);
    StirInverse(e1, d1, m.a, k2);
    StirInverse(f1, b0, d1, k1);
  }

  ghost function Mix(m: Mixed): Mixed {
    Half(Half(m, 4, 6, 8), 16, 19, 4)
  }

  ghost function Unmix(m: Mixed): Mixed {
    Unhalf(Unhalf(m, 16, 19, 4), 4, 6, 8)
  }

  /** __jhash_mix loses nothing: it is a bijection on triples of words. */
  lemma MixBijective(m: Mixed)
    ensures Unmix(Mix(m)) == m && Mix(Unmix(m)) == m
  {
    hide Half, Unhalf;
    HalfInverse(m, 4, 6, 8);
    HalfInverse(Half(m, 4, 6, 8), 16, 19, 4);
    HalfInverse(m, 16, 19, 4);
    HalfInverse(Unhalf(m, 16, 19, 4), 4, 6, 8);
  }

  /** One line of the macro, assignment by assignment. */
  method StirLine(x0: Word, y: Word, z0: Word, k: bv6) returns (x: Word, z: Word)
    requires 0 < k < 32
    ensures (x, z) == Stir(x0, y, z0, k)
  {
    hide Plus, Minus, Xor, Rol32;
    x, z := x0, z0;
    x := Minus(x, z);
    x := Xor(x, Rol32(z, k));
    z := Plus(z, y);
  }

  method JhashMix(a0: Word, b0: Word, c0: Word) returns (a: Word, b: Word, c: Word)
    ensures Mixed(a, b, c) == Mix(Mixed(a0, b0, c0))
  {
    hide Stir;
    a, b, c := a0, b0, c0;
    a, c := StirLine(a, b, c, 4);
    b, a := StirLine(b, c, a, 6);
    c, b := StirLine(c, a, b, 8);
    assert Mixed(a, b, c) == Half(Mixed(a0, b0, c0), 4, 6, 8);
    a, c := StirLine(a, b, c, 16);
    b, a := StirLine(b, c, a, 19);
    c, b := StirLine(c, a, b, 4);
  }

  /** Half a line of __jhash_final: x ^= y; x -= rol32(y, k). */
  function Blend(x: Word, y: Word, k: bv6): Word
    requires 0 < k < 32
  {
    Minus(Xor(x, y), Rol32(y, k))
  }

  /** __jhash_final */
  function Final(m: Mixed): Word {
    var c1 := Blend(m.c, m.b, 14);
    var a1 := Blend(m.a, c1, 11);
    var b1 := Blend(m.b, a1, 25);
    var c2 := Blend(c1, b1, 16);
    var a2 := Blend(a1, c2, 4);
    var b2 := Blend(b1, a2, 14);
    Blend(c2, b2, 24)
  }

  function Unblend(x: Word, y: Word, k: bv6): Word
    requires 0 < k < 32
  {
    Xor(Plus(x, Rol32(y, k)), y)
  }

  lemma BlendInverse(x: Word, y: Word, k: bv6)
    requires 0 < k < 32
    ensures Unblend(Blend(x, y, k), y, k) == x && Blend(Unblend(x, y, k), y, k) == x
  {
    hide Plus, Minus, Xor, Rol32;
    PlusMinus(Xor(x, y), Rol32(y, k));
    XorXor(x, y);
    XorXor(Plus(x, Rol32(y, k)), y);
    MinusPlus(x, Rol32(y, k));
  }

  /** All three words after __jhash_final; the hash is the third. */
  function FinalMix(m: Mixed): Mixed {
    var c1 := Blend(m.c, m.b, 14);
    var a1 := Blend(m.a, c1, 11);
    var b1 := Blend(m.b, a1, 25);
    var c2 := Blend(c1, b1, 16);
    var a2 := Blend(a1, c2, 4);
    var b2 := Blend(b1, a2, 14);
    Mixed(a2, b2, Blend(c2, b2, 24))
  }

  function Unfinal(m: Mixed): Mixed {
    var c2 := Unblend(m.c, m.b, 24);
    var b1 := Unblend(m.b, m.a, 14);
    var a1 := Unblend(m.a, c2, 4);
    var c1 := Unblend(c2, b1, 16);
    var b0 := Unblend(b1, a1, 25);
    var a0 := Unblend(a1, c1, 11);
    Mixed(a0, b0, Unblend(c1, b0, 14))
  }

  /** __jhash_final loses nothing either, up to the two words it drops: it is the
      third word of a bijection, so every hash is that of equally many states. */
  lemma FinalBijective(m: Mixed)
    ensures Final(m) == FinalMix(m).c
    ensures Unfinal(FinalMix(m)) == m && FinalMix(Unfinal(m)) == m
  {
    hide Blend, Unblend;
    UnfinalFinal(m);
    FinalUnfinal(m);
  }

  lemma UnfinalFinal(m: Mixed)
    ensures Unfinal(FinalMix(m)) == m
  {
    hide Blend, Unblend;
    BlendInverse(m.c, m.b, 14);
    var c1 := Blend(m.c, m.b, 14);
    BlendInverse(m.a, c1, 11);
    var a1 := Blend(m.a, c1, 11);
    BlendInverse(m.b, a1, 25);
    var b1 := Blend(m.b, a1, 25);
    BlendInverse(c1, b1, 16);
    var c2 := Blend(c1, b1, 16);
    BlendInverse(a1, c2, 4);
    var a2 := Blend(a1, c2, 4);
    BlendInverse(b1, a2, 14);
    BlendInverse(c2, Blend(b1, a2, 14), 24);
  }

  lemma FinalUnfinal(m: Mixed)
    ensures FinalMix(Unfinal(m)) == m
  {
    hide Blend, Unblend;
    BlendInverse(m.c, m.b, 24);
    var c2 := Unblend(m.c, m.b, 24);
    BlendInverse(m.b, m.a, 14);
    var b1 := Unblend(m.b, m.a, 14);
    BlendInverse(m.a, c2, 4);
    var a1 := Unblend(m.a, c2, 4);
    BlendInverse(c2, b1, 16);
    var c1 := Unblend(c2, b1, 16);
    BlendInverse(b1, a1, 25);
    var b0 := Unblend(b1, a1, 25);
    BlendInverse(a1, c1, 11);
    BlendInverse(c1, b0, 14);
  }

  method BlendLine(x0: Word, y: Word, k: bv6) returns (x: Word)
    requires 0 < k < 32
    ensures x == Blend(x0, y, k)
  {
    hide Minus, Xor, Rol32;
    x := x0;
    x := Xor(x, y);
    x := Minus(x, Rol32(y, k));
  }

  method JhashFinal(a0: Word, b0: Word, c0: Word) returns (c: Word)
    ensures c == Final(Mixed(a0, b0, c0))
  {
    hide Blend;
    var a, b := a0, b0;
    c := c0;
    c := BlendLine(c, b, 14);
    a := BlendLine(a, c, 11);
    b := BlendLine(b, a, 25);
    c := BlendLine(c, b, 16);
    a := BlendLine(a, c, 4);
    b := BlendLine(b, a, 14);
    c := BlendLine(c, b, 24);
  }

  // ----- Hashing a name -----

  type Byte = bv8

  /** The byte at a position as a shifted word, zero past the end. */
  function Lane(k: seq<Byte>, i: nat, shift: bv6): Word
    requires shift <= 24
  {
    if i < |k| then (k[i] as bv32) << shift else 0
  }

  /** All but the last block: one byte out of four enters each word. */
  ghost function Absorb(m: Mixed, k: seq<Byte>): Mixed {
    Mix(Mixed(Plus(m.a, Lane(k, 0, 0)), Plus(m.b, Lane(k, 4, 0)), Plus(m.c, Lane(k, 8, 0))))
  }

  /** Four bytes of the last block, the highest first. */
  function AddFour(x: Word, k: seq<Byte>, i: nat): Word {
    Plus(Plus(Plus(Plus(x, Lane(k, i + 3, 24)), Lane(k, i + 2, 16)), Lane(k, i + 1, 8)), Lane(k, i, 0))
  }

  /** The last block, up to twelve bytes. */
  function Tail(m: Mixed, k: seq<Byte>): Mixed {
    Mixed(AddFour(m.a, k, 0), AddFour(m.b, k, 4), AddFour(m.c, k, 8))
  }

  ghost function Blocks(m: Mixed, k: seq<Byte>): Word
    decreases |k|
  {
    if |k| > 12 then Blocks(Absorb(m, k), k[12..])
    else if k == [] then m.c
    else Final(Tail(m, k))
  }

  /** The low 32 bits of GOLDEN_RATIO_PRIME. */
  const JHASH_INITVAL: Word := 0xfffc_0001

  /** One case of the switch on the length: it and all below it are executed when
      the last block reaches that far. */
  method AddByte(x0: Word, k: seq<Byte>, i: nat, shift: bv6) returns (x: Word)
    requires shift <= 24
    ensures x == Plus(x0, Lane(k, i, shift))
  {
    x := x0;
    if i < |k| {
      x := Plus(x, (k[i] as bv32) << shift);
    }
  }

  method LastBlock(a0: Word, b0: Word, c0: Word, k: seq<Byte>) returns (a: Word, b: Word, c: Word)
    ensures Mixed(a, b, c) == Tail(Mixed(a0, b0, c0), k)
  {
    hide Plus, Lane;
    a, b, c := a0, b0, c0;
    c := AddByte(c, k, 11, 24);
    c := AddByte(c, k, 10, 16);
    c := AddByte(c, k, 9, 8);
    c := AddByte(c, k, 8, 0);
    b := AddByte(b, k, 7, 24);
    b := AddByte(b, k, 6, 16);
    b := AddByte(b, k, 5, 8);
    b := AddByte(b, k, 4, 0);
    a := AddByte(a, k, 3, 24);
    a := AddByte(a, k, 2, 16);
    a := AddByte(a, k, 1, 8);
    a := AddByte(a, k, 0, 0);
  }

  method Jhash(key: seq<Byte>, initval: Word) returns (h: Word)
    requires |key| < 0x1_0000_0000
    ensures var m := JHASH_INITVAL + (|key| as bv32) + initval;
            h == Blocks(Mixed(m, m, m), key)
  {
    var a := JHASH_INITVAL + (|key| as bv32) + initval;
    var b, c := a, a;
    var k := key;
    ghost var goal := Blocks(Mixed(a, b, c), key);
    hide Mix, Final, Tail, Plus, Lane;
    while |k| > 12
      invariant Blocks(Mixed(a, b, c), k) == goal
      decreases |k|
    {
      a := Plus(a, Lane(k, 0, 0));
      b := Plus(b, Lane(k, 4, 0));
      c := Plus(c, Lane(k, 8, 0));
      a, b, c := JhashMix(a, b, c);
      k := k[12..];
    }
    if k == [] {
      return c;
    }
    a, b, c := LastBlock(a, b, c, k);
    h := JhashFinal(a, b, c);
  }

  /** The positions of a key that the hash reads: in every block but the last,
      the bytes 0, 4 and 8 of its twelve; in the last block, all bytes. */
  ghost predicate SameWhereRead(k: seq<Byte>, l: seq<Byte>)
    decreases |k|
  {
    && |k| == |l|
    && if |k| > 12 then k[0] == l[0] && k[4] == l[4] && k[8] == l[8] && SameWhereRead(k[12..], l[12..])
       else k == l
  }

  lemma LaneSame(k: seq<Byte>, l: seq<Byte>, i: nat)
    requires i < |k| == |l| && k[i] == l[i]
    ensures Lane(k, i, 0) == Lane(l, i, 0)
  {
  }

  /** Names that agree on those positions have the same hash, whatever the
      other bytes are; as file locks they are the same lock. */
  lemma {:induction false} UnreadBytesCollide(m: Mixed, k: seq<Byte>, l: seq<Byte>)
    requires SameWhereRead(k, l)
    ensures Blocks(m, k) == Blocks(m, l)
    decreases |k|
  {
    hide Mix, Final, Tail, Plus, Lane;
    if |k| > 12 {
      LaneSame(k, l, 0);
      LaneSame(k, l, 4);
      LaneSame(k, l, 8);
      assert Absorb(m, k) == Absorb(m, l);
      UnreadBytesCollide(Absorb(m, k), k[12..], l[12..]);
    }
  }

  // ----- Exactly which keys stay apart -----

  lemma PlusCancels(x: Word, y: Word, z: Word)
    ensures Plus(x, y) == Plus(x, z) <==> y == z
    ensures Plus(x, y) == Plus(z, y) <==> x == z
  {
    MinusPlus(x, y);
    MinusPlus(z, y);
    PlusSwaps(x, y);
    PlusSwaps(x, z);
    MinusPlus(y, x);
    MinusPlus(z, x);
  }

  lemma PlusSwaps(x: Word, y: Word)
    ensures Plus(x, y) == Plus(y, x)
  {
  }

  lemma MixInjective(m: Mixed, n: Mixed)
    ensures Mix(m) == Mix(n) <==> m == n
  {
    MixBijective(m);
    MixBijective(n);
  }

  lemma LaneExact(k: seq<Byte>, l: seq<Byte>, i: nat)
    requires i < |k| && i < |l|
    ensures Lane(k, i, 0) == Lane(l, i, 0) <==> k[i] == l[i]
  {
  }

  /** A block but the last: from one state, two blocks lead to the same state
      exactly when they agree on their bytes 0, 4 and 8. */
  lemma AbsorbExact(m: Mixed, k: seq<Byte>, l: seq<Byte>)
    requires |k| > 12 && |l| > 12
    ensures Absorb(m, k) == Absorb(m, l) <==> k[0] == l[0] && k[4] == l[4] && k[8] == l[8]
  {
    LaneExact(k, l, 0);
    LaneExact(k, l, 4);
    LaneExact(k, l, 8);
    PlusCancels(m.a, Lane(k, 0, 0), Lane(l, 0, 0));
    PlusCancels(m.b, Lane(k, 4, 0), Lane(l, 4, 0));
    PlusCancels(m.c, Lane(k, 8, 0), Lane(l, 8, 0));
    hide Mix, Plus, Lane;
    MixInjective(Mixed(Plus(m.a, Lane(k, 0, 0)), Plus(m.b, Lane(k, 4, 0)), Plus(m.c, Lane(k, 8, 0))),
                 Mixed(Plus(m.a, Lane(l, 0, 0)), Plus(m.b, Lane(l, 4, 0)), Plus(m.c, Lane(l, 8, 0))));
  }

  /** And different states stay different through the same block. */
  lemma AbsorbKeepsApart(m: Mixed, n: Mixed, k: seq<Byte>)
    ensures Absorb(m, k) == Absorb(n, k) <==> m == n
  {
    PlusCancels(m.a, Lane(k, 0, 0), n.a);
    PlusCancels(m.b, Lane(k, 4, 0), n.b);
    PlusCancels(m.c, Lane(k, 8, 0), n.c);
    hide Mix, Plus, Lane;
    MixInjective(Mixed(Plus(m.a, Lane(k, 0, 0)), Plus(m.b, Lane(k, 4, 0)), Plus(m.c, Lane(k, 8, 0))),
                 Mixed(Plus(n.a, Lane(k, 0, 0)), Plus(n.b, Lane(k, 4, 0)), Plus(n.c, Lane(k, 8, 0))));
  }

  function ByteAt(k: seq<Byte>, i: nat): Byte {
    if i < |k| then k[i] else 0
  }

  function Shifted(x: Byte, shift: bv6): Word
    requires shift <= 24
  {
    (x as bv32) << shift
  }

  function FourBytes(x3: Byte, x2: Byte, x1: Byte, x0: Byte): Word {
    Plus(Plus(Plus(Shifted(x3, 24), Shifted(x2, 16)), Shifted(x1, 8)), Shifted(x0, 0))
  }

  function Pack(k: seq<Byte>, i: nat): Word {
    FourBytes(ByteAt(k, i + 3), ByteAt(k, i + 2), ByteAt(k, i + 1), ByteAt(k, i))
  }

  lemma PlusIs(x: Word, y: Word)
    ensures Plus(x, y) == x + y
  {
  }

  lemma PlusOfSum(x: Word, y: Word, z: Word)
    ensures Plus(x + y, z) == x + y + z && Plus(x, y + z) == x + y + z
  {
  }

  lemma PlusGroups(x: Word, y: Word, z: Word)
    ensures Plus(Plus(x, y), z) == Plus(x, Plus(y, z))
  {
    hide Plus;
    PlusIs(x, y);
    PlusIs(y, z);
    PlusOfSum(x, y, z);
  }

  lemma LaneIs(k: seq<Byte>, i: nat, shift: bv6)
    requires shift <= 24
    ensures Lane(k, i, shift) == Shifted(ByteAt(k, i), shift)
  {
  }

  /** Adding four bytes one after the other adds the word they form. */
  lemma AddLanes(a: Word, k: seq<Byte>, i: nat)
    ensures AddFour(a, k, i) == Plus(a, Pack(k, i))
  {
    LaneIs(k, i + 3, 24);
    LaneIs(k, i + 2, 16);
    LaneIs(k, i + 1, 8);
    LaneIs(k, i, 0);
    var h, g, f, e := Lane(k, i + 3, 24), Lane(k, i + 2, 16), Lane(k, i + 1, 8), Lane(k, i, 0);
    hide Plus, Lane, Shifted, ByteAt;
    PlusGroups(a, h, g);
    PlusGroups(a, Plus(h, g), f);
    PlusGroups(a, Plus(Plus(h, g), f), e);
  }

  lemma TailPacks(m: Mixed, k: seq<Byte>)
    ensures Tail(m, k) == Mixed(Plus(m.a, Pack(k, 0)), Plus(m.b, Pack(k, 4)), Plus(m.c, Pack(k, 8)))
  {
    hide Pack, AddFour, Plus;
    AddLanes(m.a, k, 0);
    AddLanes(m.b, k, 4);
    AddLanes(m.c, k, 8);
  }

  /** No bit is set in both. */
  predicate Apart(x: Word, y: Word) {
    x & y == 0
  }

  lemma AddApart(x: Word, y: Word)
    requires Apart(x, y)
    ensures Plus(x, y) == Or(x, y)
  {
    hide Plus;
    PlusIs(x, y);
    BitsApart(x, y);
  }

  lemma BitsApart(x: Word, y: Word)
    requires x & y == 0
    ensures x + y == x | y
  {
  }

  lemma BytesApart(x3: Byte, x2: Byte, x1: Byte, x0: Byte)
    ensures Apart(Shifted(x3, 24), Shifted(x2, 16))
    ensures Apart(Or(Shifted(x3, 24), Shifted(x2, 16)), Shifted(x1, 8))
    ensures Apart(Or(Or(Shifted(x3, 24), Shifted(x2, 16)), Shifted(x1, 8)), Shifted(x0, 0))
  {
  }

  lemma SumIsOr(x3: Byte, x2: Byte, x1: Byte, x0: Byte)
    ensures FourBytes(x3, x2, x1, x0) == Or(Or(Or(Shifted(x3, 24), Shifted(x2, 16)), Shifted(x1, 8)), Shifted(x0, 0))
  {
    hide Plus, Or, Apart, Shifted;
    BytesApart(x3, x2, x1, x0);
    var h, g, f, e := Shifted(x3, 24), Shifted(x2, 16), Shifted(x1, 8), Shifted(x0, 0);
    AddApart(h, g);
    AddApart(Or(h, g), f);
    AddApart(Or(Or(h, g), f), e);
  }

  lemma BitsExact(x3: Byte, x2: Byte, x1: Byte, x0: Byte, y3: Byte, y2: Byte, y1: Byte, y0: Byte)
    requires ((x3 as bv32) << 24) | ((x2 as bv32) << 16) | ((x1 as bv32) << 8) | ((x0 as bv32) << 0)
          == ((y3 as bv32) << 24) | ((y2 as bv32) << 16) | ((y1 as bv32) << 8) | ((y0 as bv32) << 0)
    ensures x3 == y3 && x2 == y2 && x1 == y1 && x0 == y0
  {
  }

  lemma OrIs(x3: Byte, x2: Byte, x1: Byte, x0: Byte)
    ensures Or(Or(Or(Shifted(x3, 24), Shifted(x2, 16)), Shifted(x1, 8)), Shifted(x0, 0))
         == ((x3 as bv32) << 24) | ((x2 as bv32) << 16) | ((x1 as bv32) << 8) | ((x0 as bv32) << 0)
  {
  }

  lemma FourBytesExact(x3: Byte, x2: Byte, x1: Byte, x0: Byte, y3: Byte, y2: Byte, y1: Byte, y0: Byte)
    ensures FourBytes(x3, x2, x1, x0) == FourBytes(y3, y2, y1, y0) <==>
              x3 == y3 && x2 == y2 && x1 == y1 && x0 == y0
  {
    hide *;
    if FourBytes(x3, x2, x1, x0) == FourBytes(y3, y2, y1, y0) {
      SumIsOr(x3, x2, x1, x0);
      SumIsOr(y3, y2, y1, y0);
      OrIs(x3, x2, x1, x0);
      OrIs(y3, y2, y1, y0);
      BitsExact(x3, x2, x1, x0, y3, y2, y1, y0);
    }
  }

  lemma PackExact(k: seq<Byte>, l: seq<Byte>, i: nat)
    ensures Pack(k, i) == Pack(l, i) <==> forall j: nat :: i <= j < i + 4 ==> ByteAt(k, j) == ByteAt(l, j)
  {
    hide FourBytes, ByteAt;
    FourBytesExact(ByteAt(k, i + 3), ByteAt(k, i + 2), ByteAt(k, i + 1), ByteAt(k, i),
                   ByteAt(l, i + 3), ByteAt(l, i + 2), ByteAt(l, i + 1), ByteAt(l, i));
  }

  /** The last block loses nothing. */
  lemma TailExact(m: Mixed, k: seq<Byte>, l: seq<Byte>)
    requires |k| == |l| <= 12
    ensures Tail(m, k) == Tail(m, l) <==> k == l
  {
    TailPacks(m, k);
    TailPacks(m, l);
    PackExact(k, l, 0);
    PackExact(k, l, 4);
    PackExact(k, l, 8);
    PlusCancels(m.a, Pack(k, 0), Pack(l, 0));
    PlusCancels(m.b, Pack(k, 4), Pack(l, 4));
    PlusCancels(m.c, Pack(k, 8), Pack(l, 8));
    hide Pack, Plus, Tail;
    if Tail(m, k) == Tail(m, l) {
      assert forall j :: 0 <= j < |k| ==> ByteAt(k, j) == ByteAt(l, j);
      assert forall j :: 0 <= j < |k| ==> k[j] == ByteAt(k, j) && l[j] == ByteAt(l, j);
    }
  }

  lemma TailKeepsApart(m: Mixed, n: Mixed, k: seq<Byte>)
    ensures Tail(m, k) == Tail(n, k) <==> m == n
  {
    hide Tail, Pack, Plus;
    TailPacks(m, k);
    TailPacks(n, k);
    PlusCancels(m.a, Pack(k, 0), n.a);
    PlusCancels(m.b, Pack(k, 4), n.b);
    PlusCancels(m.c, Pack(k, 8), n.c);
  }

  /** The state that the final mixing turns into the hash. */
  ghost function Gathered(m: Mixed, k: seq<Byte>): Mixed
    decreases |k|
  {
    if |k| > 12 then Gathered(Absorb(m, k), k[12..]) else Tail(m, k)
  }

  lemma {:induction false} HashIsFinal(m: Mixed, k: seq<Byte>)
    requires k != []
    ensures Blocks(m, k) == Final(Gathered(m, k))
    decreases |k|
  {
    hide Absorb, Tail, Final;
    if |k| > 12 {
      HashIsFinal(Absorb(m, k), k[12..]);
    }
  }

  lemma {:induction false} GatheredKeepsApart(m: Mixed, n: Mixed, k: seq<Byte>)
    ensures Gathered(m, k) == Gathered(n, k) <==> m == n
    decreases |k|
  {
    hide Absorb, Tail;
    if |k| > 12 {
      GatheredKeepsApart(Absorb(m, k), Absorb(n, k), k[12..]);
      AbsorbKeepsApart(m, n, k);
    } else {
      TailKeepsApart(m, n, k);
    }
  }

  /** Keys of one length that are equal outside one block of twelve bytes. */
  ghost predicate OneBlockApart(k: seq<Byte>, l: seq<Byte>)
    decreases |k|
  {
    && |k| == |l|
    && (|k| <= 12 || k[12..] == l[12..] || (k[..12] == l[..12] && OneBlockApart(k[12..], l[12..])))
  }

  lemma {:induction false} SameWhereReadReflexive(k: seq<Byte>)
    ensures SameWhereRead(k, k)
    decreases |k|
  {
    if |k| > 12 {
      SameWhereReadReflexive(k[12..]);
    }
  }

  /** Keys that are equal outside one block reach the same state before the final
      mixing exactly when they agree on the bytes that are read: up to there, the
      unread bytes are all that is lost. */
  lemma {:induction false} OneBlockExact(m: Mixed, k: seq<Byte>, l: seq<Byte>)
    requires OneBlockApart(k, l)
    ensures Gathered(m, k) == Gathered(m, l) <==> SameWhereRead(k, l)
    decreases |k|
  {
    hide Absorb, Tail;
    if |k| <= 12 {
      TailExact(m, k, l);
    } else {
      AbsorbExact(m, k, l);
      if k[12..] == l[12..] {
        GatheredKeepsApart(Absorb(m, k), Absorb(m, l), k[12..]);
        SameWhereReadReflexive(k[12..]);
      } else {
        OneBlockExact(Absorb(m, k), k[12..], l[12..]);
        assert forall j :: 0 <= j < 12 ==> k[j] == k[..12][j] && l[j] == l[..12][j];
      }
    }
  }
}
