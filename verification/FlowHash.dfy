/**
 * The 64-bit hash that joins a packet's network flow and its transport flow, and the choice of
 * an assembly worker by that hash. Words are integers below 2^64 and wrap around explicitly.
 */
module FlowHash {
  const MODULUS := 0x1_0000_0000_0000_0000
  const MULTIPLIER := 0xc6a4a7935bd1e995
  const INVERSE := 0x5f7a0ea7e59b19bd
  const INCREMENT := 0xe6546b64

  type Word = x: int | 0 <= x < 0x1_0000_0000_0000_0000

  // ---------- Exclusive or and right shift ----------

  function Xor(a: nat, b: nat): nat
    decreases a + b
  {
    if a == 0 && b == 0 then 0 else (if a % 2 == b % 2 then 0 else 1) + 2 * Xor(a / 2, b / 2)
  }

  function Shift(x: nat, n: nat): nat {
    if n == 0 then x else Shift(x / 2, n - 1)
  }

  function Pow2(n: nat): (p: nat)
    ensures p > 0
  {
    if n == 0 then 1 else 2 * Pow2(n - 1)
  }

  lemma XorHalves(a: nat, b: nat)
    ensures Xor(a, b) / 2 == Xor(a / 2, b / 2)
    ensures Xor(a, b) % 2 == 0 <==> a % 2 == b % 2
  {
  }

  lemma Halves(x: nat, y: nat)
    requires x / 2 == y / 2 && (x % 2 == 0 <==> y % 2 == 0)
    ensures x == y
  {
  }

  lemma {:induction false} XorTwice(a: nat, b: nat)
    ensures Xor(Xor(a, b), b) == a
    decreases a + b
  {
    if a != 0 || b != 0 {
      XorTwice(a / 2, b / 2);
      XorHalves(a, b);
      XorHalves(Xor(a, b), b);
      Halves(Xor(Xor(a, b), b), a);
    }
  }

  lemma {:induction false} XorCommutes(a: nat, b: nat)
    ensures Xor(a, b) == Xor(b, a)
    decreases a + b
  {
    if a != 0 || b != 0 {
      XorCommutes(a / 2, b / 2);
    }
  }

  lemma {:induction false} XorZero(a: nat)
    ensures Xor(a, 0) == a
  {
    if a != 0 {
      XorZero(a / 2);
    }
  }

  lemma {:induction false} XorBelow(a: nat, b: nat, n: nat)
    requires a < Pow2(n) && b < Pow2(n)
    ensures Xor(a, b) < Pow2(n)
    decreases n
  {
    if n > 0 {
      XorBelow(a / 2, b / 2, n - 1);
    }
  }

  lemma {:induction false} ShiftXor(a: nat, b: nat, n: nat)
    ensures Shift(Xor(a, b), n) == Xor(Shift(a, n), Shift(b, n))
    decreases n
  {
    if n > 0 {
      assert Xor(a, b) / 2 == Xor(a / 2, b / 2);
      ShiftXor(a / 2, b / 2, n - 1);
    }
  }

  lemma {:induction false} ShiftShift(x: nat, m: nat, n: nat)
    ensures Shift(Shift(x, m), n) == Shift(x, m + n)
    decreases m
  {
    if m > 0 {
      ShiftShift(x / 2, m - 1, n);
    }
  }

  lemma Doubled(x: nat, p: nat, s: nat)
    requires p * s <= x / 2 < p * (s + 1)
    ensures 2 * p * s <= x < 2 * p * (s + 1)
  {
    var low, high := p * s, p * (s + 1);
    assert 2 * p * s == 2 * low && 2 * p * (s + 1) == 2 * high;
  }

  lemma {:induction false} ShiftDivides(x: nat, n: nat)
    ensures Pow2(n) * Shift(x, n) <= x < Pow2(n) * (Shift(x, n) + 1)
    decreases n
  {
    if n > 0 {
      ShiftDivides(x / 2, n - 1);
      Doubled(x, Pow2(n - 1), Shift(x, n));
    }
  }

  lemma {:induction false} ShiftAway(x: nat, n: nat, more: nat)
    requires x < Pow2(n)
    ensures Shift(x, n + more) == 0
    decreases n, more
  {
    if n > 0 {
      ShiftAway(x / 2, n - 1, more);
    } else if more > 0 {
      ShiftAway(x, 0, more - 1);
    }
  }

  lemma Powers()
    ensures Pow2(47) == 0x8000_0000_0000 && Pow2(64) == MODULUS
  {
    assert Pow2(8) == 256;
    assert Pow2(16) == 0x1_0000;
    assert Pow2(24) == 0x100_0000;
    assert Pow2(32) == 0x1_0000_0000;
    assert Pow2(40) == 0x100_0000_0000;
    assert Pow2(47) == 0x8000_0000_0000;
    assert Pow2(55) == 0x80_0000_0000_0000;
    assert Pow2(64) == MODULUS;
  }

  /** Shifting a word right by 47 bits is dividing it by 2^47, which is how the hash below is written. */
  lemma Shift47(x: Word)
    ensures Shift(x, 47) == x / 0x8000_0000_0000
  {
    Powers();
    ShiftDivides(x, 47);
  }

  // ---------- The hash ----------

  function Xored(a: Word, b: Word): Word {
    Powers();
    XorBelow(a, b, 64);
    Xor(a, b)
  }

  function Times(a: Word, m: Word): Word {
    a * m % MODULUS
  }

  function Fold(k: Word): Word {
    Xored(k, k / 0x8000_0000_0000)
  }

  function Scramble(k: Word): Word {
    Times(Fold(Times(k, MULTIPLIER)), MULTIPLIER)
  }

  function Finish(x: Word): Word {
    (Times(x, MULTIPLIER) + INCREMENT) % MODULUS
  }

  function HashCombine(h: Word, k: Word): Word {
    Finish(Xored(h, Scramble(k)))
  }

  // ---------- Its inverses ----------

  function Unscramble(x: Word): Word {
    Times(Fold(Times(x, INVERSE)), INVERSE)
  }

  function Unfinish(hash: Word): Word {
    Times((hash - INCREMENT) % MODULUS, INVERSE)
  }

  /** The first argument that, with this second argument, hashes to `hash`. */
  function FirstFor(hash: Word, k: Word): Word {
    Xored(Unfinish(hash), Scramble(k))
  }

  /** The second argument that, with this first argument, hashes to `hash`. */
  function SecondFor(hash: Word, h: Word): Word {
    Unscramble(Xored(Unfinish(hash), h))
  }

  lemma TimesInverse(x: Word)
    ensures Times(Times(x, MULTIPLIER), INVERSE) == x
    ensures Times(Times(x, INVERSE), MULTIPLIER) == x
  {
    assert MULTIPLIER * INVERSE % MODULUS == 1;
    Unwinds(x, MULTIPLIER, INVERSE);
    Unwinds(x, INVERSE, MULTIPLIER);
  }

  lemma Unwinds(x: Word, m: Word, w: Word)
    requires m * w % MODULUS == 1
    ensures Times(Times(x, m), w) == x
  {
    var q := m * w / MODULUS;
    var d := x * m / MODULUS;
    calc {
      Times(x, m) * w;
      (x * m - d * MODULUS) * w;
      x * m * w - d * MODULUS * w;
      { assert x * m * w == x * (m * w); assert d * MODULUS * w == d * w * MODULUS; }
      x * (q * MODULUS + 1) - d * w * MODULUS;
      { assert x * (q * MODULUS + 1) == x * q * MODULUS + x; }
      x + (x * q - d * w) * MODULUS;
    }
    Remainder(x, x * q - d * w);
  }

  lemma Remainder(x: Word, q: int)
    ensures (x + q * MODULUS) % MODULUS == x
  {
  }

  lemma FoldInverse(x: Word)
    ensures Fold(Fold(x)) == x
  {
    var s := x / 0x8000_0000_0000;
    Shift47(x);
    Shift47(Fold(x));
    ShiftXor(x, s, 47);
    ShiftShift(x, 47, 47);
    Powers();
    ShiftAway(x, 64, 30);
    XorZero(s);
    XorTwice(x, s);
  }

  lemma ScrambleInverse(k: Word)
    ensures Unscramble(Scramble(k)) == k
    ensures Scramble(Unscramble(k)) == k
  {
    TimesInverse(Fold(Times(k, MULTIPLIER)));
    FoldInverse(Times(k, MULTIPLIER));
    TimesInverse(k);
    TimesInverse(Fold(Times(k, INVERSE)));
    FoldInverse(Times(k, INVERSE));
  }

  lemma Offset(x: Word)
    ensures ((x + INCREMENT) % MODULUS - INCREMENT) % MODULUS == x
    ensures ((x - INCREMENT) % MODULUS + INCREMENT) % MODULUS == x
  {
  }

  lemma FinishInverse(x: Word)
    ensures Unfinish(Finish(x)) == x
    ensures Finish(Unfinish(x)) == x
  {
    TimesInverse(x);
    TimesInverse((x - INCREMENT) % MODULUS);
    Offset(Times(x, MULTIPLIER));
    Offset(x);
  }

  /** For each second argument the hash is a bijection of the first, with inverse FirstFor. */
  lemma BijectiveInFirst(h: Word, k: Word, hash: Word)
    ensures HashCombine(h, k) == hash <==> h == FirstFor(hash, k)
  {
    var s := Scramble(k);
    if HashCombine(h, k) == hash {
      FinishInverse(Xored(h, s));
      XorTwice(h, s);
    }
    if h == FirstFor(hash, k) {
      XorTwice(Unfinish(hash), s);
      FinishInverse(hash);
    }
  }

  /** For each first argument the hash is a bijection of the second, with inverse SecondFor. */
  lemma BijectiveInSecond(h: Word, k: Word, hash: Word)
    ensures HashCombine(h, k) == hash <==> k == SecondFor(hash, h)
  {
    var s := Scramble(k);
    if HashCombine(h, k) == hash {
      FinishInverse(Xored(h, s));
      XorCommutes(h, s);
      XorTwice(s, h);
      ScrambleInverse(k);
    }
    if k == SecondFor(hash, h) {
      var u := Unfinish(hash);
      ScrambleInverse(Xored(u, h));
      XorCommutes(h, Xored(u, h));
      XorTwice(u, h);
      FinishInverse(hash);
    }
  }

  // ---------- What the low bits depend on ----------

  predicate Odd(x: nat) { x % 2 == 1 }

  lemma OddProduct(a: Word, m: Word)
    requires Odd(m)
    ensures Odd(Times(a, m)) == Odd(a)
  {
    var x, y := a * m, a * (m / 2);
    assert x == a + 2 * y by { assert m == 2 * (m / 2) + 1; }
    EvenMore(a, y);
    OddRemainder(x);
  }

  lemma EvenMore(r: nat, y: nat)
    ensures Odd(r + 2 * y) == Odd(r)
  {
  }

  lemma OddRemainder(x: nat)
    ensures Odd(x % MODULUS) == Odd(x)
  {
    var r, q := Remains(x);
    EvenMore(r, 0x8000_0000_0000_0000 * q);
  }

  lemma Remains(x: nat) returns (r: nat, q: nat)
    ensures r == x % MODULUS && x == r + 2 * (0x8000_0000_0000_0000 * q)
  {
    r, q := x % MODULUS, x / MODULUS;
  }

  lemma OddXor(a: Word, b: Word)
    ensures Odd(Xored(a, b)) == (Odd(a) != Odd(b))
  {
    XorHalves(a, b);
  }

  lemma OddScramble(k: Word)
    ensures var t := Times(k, MULTIPLIER);
            Odd(Scramble(k)) == (Odd(t) != Odd(t / 0x8000_0000_0000))
  {
    var t := Times(k, MULTIPLIER);
    OddXor(t, t / 0x8000_0000_0000);
    OddProduct(Fold(t), MULTIPLIER);
  }

  lemma OddFinish(x: Word)
    ensures Odd(Finish(x)) == Odd(x)
  {
    var y := Times(x, MULTIPLIER);
    OddProduct(x, MULTIPLIER);
    EvenMore(y, 0x732a_35b2);
    OddRemainder(y + INCREMENT);
  }

  /** The lowest bit of the hash, for all words: bit 47 of the product is folded into it. */
  lemma LowBit(h: Word, k: Word)
    ensures var t := Times(k, 0xc6a4a7935bd1e995);
            Odd(HashCombine(h, k)) == (Odd(h) != (Odd(t) != Odd(t / 0x8000_0000_0000)))
  {
    OddScramble(k);
    OddXor(h, Scramble(k));
    OddFinish(Xored(h, Scramble(k)));
  }

  lemma ScrambleZero()
    ensures Scramble(0) == 0
  {
    assert Times(0, MULTIPLIER) == 0;
    XorZero(0);
  }

  /** A second word whose low 47 bits are zero, and whose product has only bit 47 set. */
  const HIGH_BITS: Word := 0x8cde_8000_0000_0000

  lemma HighBitsProduct()
    ensures Times(HIGH_BITS, 0xc6a4a7935bd1e995) == 0x8000_0000_0000 && Times(0, 0xc6a4a7935bd1e995) == 0
  {
  }

  /** So second words that agree in their low 47 bits hash to different low bits, with every first word. */
  lemma HighBitsReachLowBits(h: Word)
    ensures HIGH_BITS % 0x8000_0000_0000 == 0 && Odd(HashCombine(h, HIGH_BITS)) != Odd(HashCombine(h, 0))
  {
    HighBitsProduct();
    LowBit(h, HIGH_BITS);
    LowBit(h, 0);
  }

  /** With a zero second word only the last multiplication and addition remain. */
  lemma ZeroSecond(h: Word)
    ensures HashCombine(h, 0) == (Times(h, 0xc6a4a7935bd1e995) + 0xe6546b64) % 0x1_0000_0000_0000_0000
  {
    ScrambleZero();
    XorZero(h);
  }
}
