/** `_proposal_seed` of `cogni_flow/aflow.py`: 64-bit mixing on unbounded integers,
    and why two iterations never get the same seed. */
module SeedMixer {

  const WORD: nat := 0x1_0000_0000_0000_0000

  const GAMMA: nat := 0x9E3779B97F4A7C15
  const MIX1: nat := 0xBF58476D1CE4E5B9
  const MIX2: nat := 0x94D049BB133111EB

  function Pow2(n: nat): (p: nat)
    ensures p >= 1
  {
    if n == 0 then 1 else 2 * Pow2(n - 1)
  }

  function Shr(a: nat, k: nat): nat {
    if k == 0 then a else Shr(a / 2, k - 1)
  }

  /** Exclusive or, bit by bit. */
  function Xor(a: nat, b: nat): nat
    decreases a + b
  {
    if a == 0 && b == 0 then 0
    else 2 * Xor(a / 2, b / 2) + (if a % 2 == b % 2 then 0 else 1)
  }

  function XorShift(x: nat, k: nat): nat {
    Xor(x, Shr(x, k))
  }

  function Times(x: nat, c: nat): nat {
    x * c % WORD
  }

  /** The mixing of one word. */
  function Mix(start: nat): nat {
    XorShift(Times(XorShift(Times(XorShift(start, 30), MIX1), 27), MIX2), 31)
  }

  /** `_proposal_seed`. The seed may be any integer; masking keeps it in range. */
  function ProposalSeed(seed: int, iteration: nat): nat {
    Mix((seed + iteration * GAMMA) % WORD)
  }

  // ------------------------------------------------------------------
  // Xor and shift
  // ------------------------------------------------------------------

  lemma {:induction false} XorCancels(a: nat, b: nat, c: nat)
    requires Xor(a, c) == Xor(b, c)
    ensures a == b
    decreases a + b + c
  {
    if a + b + c > 0 {
      assert Xor(a, c) / 2 == Xor(a / 2, c / 2) && Xor(b, c) / 2 == Xor(b / 2, c / 2);
      XorCancels(a / 2, b / 2, c / 2);
    }
  }

  lemma {:induction false} XorBounded(a: nat, b: nat, n: nat)
    requires a < Pow2(n) && b < Pow2(n)
    ensures Xor(a, b) < Pow2(n)
  {
    if n > 0 { XorBounded(a / 2, b / 2, n - 1); }
  }

  lemma {:induction false} ShrBounded(a: nat, k: nat)
    ensures Shr(a, k) <= a
  {
    if k > 0 { ShrBounded(a / 2, k - 1); }
  }

  lemma {:induction false} ShrAll(a: nat, n: nat)
    requires a < Pow2(n)
    ensures Shr(a, n) == 0
  {
    if n > 0 { ShrAll(a / 2, n - 1); }
  }

  lemma {:induction false} ShrXor(a: nat, b: nat, j: nat)
    ensures Shr(Xor(a, b), j) == Xor(Shr(a, j), Shr(b, j))
  {
    if j > 0 {
      assert Xor(a, b) / 2 == Xor(a / 2, b / 2);
      ShrXor(a / 2, b / 2, j - 1);
    }
  }

  /** The exclusive or of two numbers has exactly the bits in which they differ. */
  lemma XorBits(a: nat, b: nat, i: nat)
    ensures Shr(Xor(a, b), i) % 2 == 1 <==> Shr(a, i) % 2 != Shr(b, i) % 2
  {
    ShrXor(a, b, i);
  }

  /** A shift to the right divides by a power of two, rounding down. */
  lemma {:induction false} ShrDivides(a: nat, k: nat)
    ensures Shr(a, k) * Pow2(k) <= a < (Shr(a, k) + 1) * Pow2(k)
  {
    if k > 0 {
      ShrDivides(a / 2, k - 1);
      Halved(a, Shr(a, k), Pow2(k - 1));
    }
  }

  lemma Halved(a: nat, q: nat, p: nat)
    requires q * p <= a / 2 < (q + 1) * p
    ensures q * (2 * p) <= a < (q + 1) * (2 * p)
  {
    var low, high := q * p, (q + 1) * p;
    assert q * (2 * p) == 2 * low;
    assert (q + 1) * (2 * p) == 2 * high;
  }

  lemma {:induction false} ShrShr(a: nat, j: nat, k: nat)
    ensures Shr(Shr(a, k), j) == Shr(a, j + k)
  {
    if k > 0 {
      ShrShr(a / 2, j, k - 1);
    }
  }

  /** The high bits of the two arguments agree, then the next lower ones, down to all. */
  lemma {:induction false} XorShiftBits(x: nat, y: nat, k: nat, j: nat, n: nat)
    requires k >= 1 && x < Pow2(n) && y < Pow2(n) && XorShift(x, k) == XorShift(y, k) && j <= n
    ensures Shr(x, j) == Shr(y, j)
    decreases n - j
  {
    if j == n {
      ShrAll(x, n);
      ShrAll(y, n);
    } else {
      if j + k <= n { XorShiftBits(x, y, k, j + k, n); } else { ShrBeyond(x, n, j + k); ShrBeyond(y, n, j + k); }
      ShrXor(x, Shr(x, k), j);
      ShrXor(y, Shr(y, k), j);
      ShrShr(x, j, k);
      ShrShr(y, j, k);
      XorCancels(Shr(x, j), Shr(y, j), Shr(x, j + k));
    }
  }

  lemma ShrBeyond(a: nat, n: nat, m: nat)
    requires a < Pow2(n) && n <= m
    ensures Shr(a, m) == 0
  {
    ShrAll(a, n);
    ShrShr(a, m - n, n);
    ShrBounded(0, m - n);
  }

  /** A xor-shift loses nothing. */
  lemma XorShiftIsInjective(x: nat, y: nat, k: nat, n: nat)
    requires k >= 1 && x < Pow2(n) && y < Pow2(n)
    requires XorShift(x, k) == XorShift(y, k)
    ensures x == y
  {
    XorShiftBits(x, y, k, 0, n);
  }

  lemma XorShiftFits(x: nat, k: nat)
    requires x < WORD
    ensures XorShift(x, k) < WORD
  {
    WordIsPow2();
    ShrBounded(x, k);
    XorBounded(x, Shr(x, k), 64);
  }

  lemma WordIsPow2()
    ensures Pow2(64) == WORD
  {
    Doubling(32, 32);
    assert Pow2(32) == 0x1_0000_0000 by { Doubling(16, 16); assert Pow2(16) == 0x1_0000 by { Doubling(8, 8); } }
  }

  lemma {:induction false} Doubling(m: nat, n: nat)
    ensures Pow2(m + n) == Pow2(m) * Pow2(n)
  {
    if n > 0 {
      Doubling(m, n - 1);
      assert Pow2(m + n) == 2 * Pow2(m + n - 1);
      assert Pow2(m) * (2 * Pow2(n - 1)) == 2 * (Pow2(m) * Pow2(n - 1));
    }
  }

  // ------------------------------------------------------------------
  // Odd multipliers
  // ------------------------------------------------------------------

  lemma Quotient(a: int, b: int, m: nat)
    requires m > 0 && a % m == b % m
    ensures a - b == m * (a / m - b / m)
  {
  }

  /** A multiplier with an inverse separates what is less than a whole word apart. */
  lemma InverseSeparates(a: int, b: int, c: nat, inverse: nat, over: nat)
    requires c * inverse == 1 + WORD * over
    requires (a * c) % WORD == (b * c) % WORD && 0 - WORD < a - b < WORD
    ensures a == b
  {
    var d, t := a - b, a * c / WORD - b * c / WORD;
    Quotient(a * c, b * c, WORD);
    assert d * c == WORD * t;
    assert (d * c) * inverse == d * (c * inverse);
    assert d * (1 + WORD * over) == d + WORD * (d * over);
    assert (WORD * t) * inverse == WORD * (t * inverse);
    Multiple(d, t * inverse - d * over);
  }

  lemma Multiple(d: int, q: int)
    requires d == WORD * q && 0 - WORD < d < WORD
    ensures d == 0
  {
  }

  /** The inverses of the three multipliers modulo one word. */
  lemma Inverses()
    ensures GAMMA * 0xF1DE83E19937733D == 1 + WORD * 0x957BBF35006ED677
    ensures MIX1 * 0x96DE1B173F119089 == 1 + WORD * 0x70C3BCA78F27F46C
    ensures MIX2 * 0x319642B2D24D8EC3 == 1 + WORD * 0x1CD336EDA85F1453
  {
  }

  lemma TimesIsInjective(x: nat, y: nat, c: nat)
    requires (c == MIX1 || c == MIX2) && x < WORD && y < WORD && Times(x, c) == Times(y, c)
    ensures x == y
  {
    Inverses();
    if c == MIX1 {
      InverseSeparates(x, y, c, 0x96DE1B173F119089, 0x70C3BCA78F27F46C);
    } else {
      InverseSeparates(x, y, c, 0x319642B2D24D8EC3, 0x1CD336EDA85F1453);
    }
  }

  /** The start values of different iterations differ, for any seed. */
  lemma StartIsInjective(seed: int, i: nat, j: nat)
    requires i < WORD && j < WORD && (seed + i * GAMMA) % WORD == (seed + j * GAMMA) % WORD
    ensures i == j
  {
    Inverses();
    var t := (seed + i * GAMMA) / WORD - (seed + j * GAMMA) / WORD;
    Quotient(seed + i * GAMMA, seed + j * GAMMA, WORD);
    assert (i - j) * GAMMA == WORD * t;
    SameRemainder(i * GAMMA, j * GAMMA, t);
    InverseSeparates(i, j, GAMMA, 0xF1DE83E19937733D, 0x957BBF35006ED677);
  }

  lemma SameRemainder(a: int, b: int, t: int)
    requires a - b == WORD * t
    ensures a % WORD == b % WORD
  {
    var q := b / WORD;
    assert a == WORD * (q + t) + b % WORD;
  }

  lemma ShiftsFit(x: nat)
    requires x < WORD
    ensures XorShift(x, 30) < WORD && XorShift(x, 27) < WORD && XorShift(x, 31) < WORD
  {
    XorShiftFits(x, 30);
    XorShiftFits(x, 27);
    XorShiftFits(x, 31);
  }

  lemma ShiftIsInjective(x: nat, y: nat, k: nat)
    requires k >= 1 && x < WORD && y < WORD && XorShift(x, k) == XorShift(y, k)
    ensures x == y
  {
    WordIsPow2();
    XorShiftIsInjective(x, y, k, 64);
  }

  /** The seed is a 64-bit word. */
  lemma SeedFits(seed: int, iteration: nat)
    ensures ProposalSeed(seed, iteration) < WORD
  {
    var start := (seed + iteration * GAMMA) % WORD;
    ShiftsFit(start);
    var first := Times(XorShift(start, 30), MIX1);
    ShiftsFit(first);
    ShiftsFit(Times(XorShift(first, 27), MIX2));
  }

  lemma MixIsInjective(x: nat, y: nat)
    requires x < WORD && y < WORD && Mix(x) == Mix(y)
    ensures x == y
  {
    ShiftsFit(x);
    ShiftsFit(y);
    var x1, y1 := Times(XorShift(x, 30), MIX1), Times(XorShift(y, 30), MIX1);
    ShiftsFit(x1);
    ShiftsFit(y1);
    var x2, y2 := Times(XorShift(x1, 27), MIX2), Times(XorShift(y1, 27), MIX2);
    hide XorShift;
    hide Times;
    ShiftIsInjective(x2, y2, 31);
    TimesIsInjective(XorShift(x1, 27), XorShift(y1, 27), MIX2);
    ShiftIsInjective(x1, y1, 27);
    TimesIsInjective(XorShift(x, 30), XorShift(y, 30), MIX1);
    ShiftIsInjective(x, y, 30);
  }

  /** Whatever the seed of a run, two different iterations below 2^64 get different
      proposal seeds. */
  lemma SeedsDiffer(seed: int, i: nat, j: nat)
    requires i < j < WORD
    ensures ProposalSeed(seed, i) != ProposalSeed(seed, j)
  {
    if ProposalSeed(seed, i) == ProposalSeed(seed, j) {
      MixIsInjective((seed + i * GAMMA) % WORD, (seed + j * GAMMA) % WORD);
      StartIsInjective(seed, i, j);
      assert false;
    }
  }
}
