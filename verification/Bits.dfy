/**
 Unsigned machine words as natural numbers: powers of two, bitwise and and or,
 masks, and rounding up to a power of two by smearing the highest bit down.
 */
module Bits {

  const U32: nat := 0x1_0000_0000

  /** Unsigned 32-bit arithmetic; words already in range stay as they are. */
  function Wrap(x: int): nat {
    if 0 <= x < U32 then x else x % U32
  }

  lemma WrapShift(x: int, d: int)
    ensures Wrap(Wrap(x) + d) == Wrap(x + d)
  {
  }

  function Pow2(k: nat): (r: nat)
    ensures r > 0
  {
    if k == 0 then 1 else 2 * Pow2(k - 1)
  }

  function And(x: nat, y: nat): nat {
    if x == 0 || y == 0 then 0
    else (if x % 2 == 1 && y % 2 == 1 then 1 else 0) + 2 * And(x / 2, y / 2)
  }

  function Or(x: nat, y: nat): nat
    decreases x + y
  {
    if x == 0 then y
    else if y == 0 then x
    else (if x % 2 == 1 || y % 2 == 1 then 1 else 0) + 2 * Or(x / 2, y / 2)
  }

  function Shr(x: nat, k: nat): nat {
    if k == 0 then x else Shr(x / 2, k - 1)
  }

  ghost predicate IsPow2(n: nat) {
    exists k: nat :: n == Pow2(k)
  }

  lemma {:induction false} Pow2Add(j: nat, k: nat)
    ensures Pow2(j + k) == Pow2(j) * Pow2(k)
    decreases j
  {
    if j > 0 {
      Pow2Add(j - 1, k);
      assert Pow2(j + k) == 2 * Pow2(j - 1 + k);
    }
  }

  lemma {:induction false} Pow2Mono(j: nat, k: nat)
    requires j <= k
    ensures Pow2(j) <= Pow2(k)
    ensures j < k ==> Pow2(j) < Pow2(k)
    decreases k - j
  {
    if j < k {
      Pow2Mono(j, k - 1);
    }
  }

  lemma Pow32()
    ensures Pow2(32) == U32 && Pow2(31) == U32 / 2
  {
    assert Pow2(8) == 256;
    Pow2Add(8, 8);
    assert Pow2(7) == 128;
    Pow2Add(16, 7);
    Pow2Add(16, 16);
    Pow2Add(23, 8);
  }

  /** A mask of k ones keeps the remainder modulo a power of two. */
  lemma {:induction false} AndMask(x: nat, k: nat)
    ensures And(x, Pow2(k) - 1) == x % Pow2(k)
    decreases k
  {
    if k > 0 {
      AndMask(x / 2, k - 1);
      var m := Pow2(k - 1);
      assert (2 * m - 1) / 2 == m - 1;
      HalfMod(x, m);
      if x == 0 {
        assert 0 % Pow2(k) == 0;
      }
    }
  }

  lemma HalfMod(x: nat, m: nat)
    requires m > 0
    ensures x % (2 * m) == x % 2 + 2 * (x / 2 % m)
  {
    var q, r := x / 2 / m, x / 2 % m;
    assert x / 2 == q * m + r;
    assert x == q * (2 * m) + (x % 2 + 2 * r);
    ModIs(x, 2 * m, q, x % 2 + 2 * r);
  }

  lemma ModIs(x: int, m: nat, q: int, r: nat)
    requires x == q * m + r && r < m
    ensures x % m == r && x / m == q
  {
    var d := x / m - q;
    assert x == x / m * m + x % m;
    assert d * m == r - x % m;
    assert (d <= 0 || d * m >= m) && (d >= 0 || d * m <= -1 * m);
  }

  /** The classic test for a power of two. */
  lemma {:induction false} PowerTest(n: nat)
    requires n > 0
    ensures And(n, n - 1) == 0 <==> IsPow2(n)
    decreases n
  {
    if n % 2 == 1 {
      AndSelf(n / 2);
      assert n - 1 == 2 * (n / 2);
      if n == 1 {
        assert Pow2(0) == 1;
      }
    } else {
      PowerTest(n / 2);
      assert (n - 1) / 2 == n / 2 - 1;
      if k: nat :| n / 2 == Pow2(k) {
        assert n == Pow2(k + 1);
      }
      if k: nat :| n == Pow2(k) {
        assert k > 0 && n / 2 == Pow2(k - 1);
      }
    }
  }

  lemma {:induction false} AndSelf(x: nat)
    ensures And(x, x) == x
    decreases x
  {
    if x > 0 {
      AndSelf(x / 2);
    }
  }

  // ----- Rounding up -----

  /** The highest s of the b + 1 low bits are set, and nothing above them. */
  ghost predicate TopSet(x: nat, b: nat, s: nat) {
    x < Pow2(b + 1) && x >= Pow2(b + 1) - Pow2(if s > b then 0 else b + 1 - s)
  }

  lemma {:induction false} ShrHalf(x: nat, s: nat)
    ensures Shr(x, s) / 2 == Shr(x / 2, s)
    decreases s
  {
    if s > 0 {
      ShrHalf(x / 2, s - 1);
    }
  }

  /** Shifting the set bits down leaves only set bits once they reach the end. */
  lemma {:induction false} ShrTop(x: nat, b: nat, s: nat, k: nat)
    requires TopSet(x, b, s) && k <= b && b + 1 - s <= k
    ensures Shr(x, k) == Pow2(b + 1 - k) - 1
    decreases k
  {
    if k > 0 {
      if s > b {
        assert x == Pow2(b + 1) - 1 == 2 * Pow2(b) - 1;
        ShrTop(x / 2, b - 1, s, k - 1);
      } else {
        assert Pow2(b + 1) == 2 * Pow2(b) && Pow2(b + 1 - s) == 2 * Pow2(b - s);
        assert TopSet(x / 2, b - 1, s);
        ShrTop(x / 2, b - 1, s, k - 1);
      }
    }
  }

  lemma OrHalf(x: nat, y: nat)
    ensures Or(x, y) / 2 == Or(x / 2, y / 2)
    ensures Or(x, y) % 2 == if x % 2 == 1 || y % 2 == 1 then 1 else 0
  {
  }

  /** x |= x >> s doubles the number of set top bits. */
  lemma {:induction false} SmearStep(x: nat, b: nat, s: nat)
    requires s >= 1 && TopSet(x, b, s)
    ensures TopSet(Or(x, Shr(x, s)), b, 2 * s)
    decreases b
  {
    var y := Or(x, Shr(x, s));
    OrHalf(x, Shr(x, s));
    ShrHalf(x, s);
    assert y / 2 == Or(x / 2, Shr(x / 2, s));
    if b == 0 {
      assert Pow2(1) == 2 && x == 1;
      assert Shr(1, s) == 0 by { ShrZero(s - 1); }
    } else {
      assert Pow2(b + 1) == 2 * Pow2(b);
      assert s <= b ==> Pow2(b + 1 - s) == 2 * Pow2(b - s);
      assert TopSet(x / 2, b - 1, s);
      SmearStep(x / 2, b - 1, s);
      if 2 * s <= b {
        assert Pow2(b + 1 - 2 * s) == 2 * Pow2(b - 2 * s);
      } else {
        assert y / 2 == Pow2(b) - 1;
        if s <= b {
          ShrTop(x, b, s, s);
          assert Pow2(b + 1 - s) == 2 * Pow2(b - s);
        }
        assert y % 2 == 1;
      }
    }
  }

  lemma {:induction false} ShrZero(s: nat)
    ensures Shr(0, s) == 0
  {
    if s > 0 {
      ShrZero(s - 1);
    }
  }

  /** The position of the highest set bit. */
  lemma {:induction false} TopBit(x: nat) returns (b: nat)
    requires x > 0
    ensures Pow2(b) <= x < Pow2(b + 1)
    decreases x
  {
    if x == 1 {
      b := 0;
      assert Pow2(1) == 2;
    } else {
      b := TopBit(x / 2);
      b := b + 1;
    }
  }

  ghost function Smeared(x: nat): nat {
    var a := Or(x, Shr(x, 1));
    var b := Or(a, Shr(a, 2));
    var c := Or(b, Shr(b, 4));
    var d := Or(c, Shr(c, 8));
    Or(d, Shr(d, 16))
  }

  /** Five doublings cover every bit below the highest of a 32-bit word. */
  lemma SmearedAllOnes(x: nat, b: nat)
    requires Pow2(b) <= x < Pow2(b + 1) && b < 32
    ensures Smeared(x) == Pow2(b + 1) - 1
  {
    assert TopSet(x, b, 1);
    SmearStep(x, b, 1);
    var x1 := Or(x, Shr(x, 1));
    SmearStep(x1, b, 2);
    var x2 := Or(x1, Shr(x1, 2));
    SmearStep(x2, b, 4);
    var x3 := Or(x2, Shr(x2, 4));
    SmearStep(x3, b, 8);
    var x4 := Or(x3, Shr(x3, 8));
    SmearStep(x4, b, 16);
  }
}
