/** Exclusive or, bit by bit, and products that wrap at 64 bits. */
module Bits {
  const WORDS: nat := 0x1_0000_0000_0000_0000

  /** A 64-bit word. */
  type Word = n: nat | n < WORDS

  function Xor(a: nat, b: nat): nat {
    if b == 0 then a else (a + b) % 2 + 2 * Xor(a / 2, b / 2)
  }

  lemma {:induction false} NoneKeeps(a: nat)
    ensures Xor(0, a) == a
  {
    if a != 0 { NoneKeeps(a / 2); }
  }

  lemma {:induction false} EitherWay(a: nat, b: nat)
    ensures Xor(a, b) == Xor(b, a)
  {
    if b == 0 { NoneKeeps(a); } else if a == 0 { NoneKeeps(b); } else { EitherWay(a / 2, b / 2); }
  }

  lemma OneBit(a: nat, b: nat, u: nat, x: nat, v: nat)
    requires (a + b) % 2 + 2 * u == (x + b) % 2 + 2 * v
    ensures a % 2 == x % 2 && u == v
  {
    var (p, q) := ((a + b) % 2, (x + b) % 2);
    assert p == (p + 2 * u) % 2 && q == (q + 2 * v) % 2;
  }

  /** With the same bits it is one to one. */
  lemma {:induction false} XorTells(a: nat, x: nat, b: nat)
    requires Xor(a, b) == Xor(x, b)
    ensures a == x
  {
    if b != 0 {
      OneBit(a, b, Xor(a / 2, b / 2), x, Xor(x / 2, b / 2));
      XorTells(a / 2, x / 2, b / 2);
    }
  }

  function Power(k: nat): nat { if k == 0 then 1 else 2 * Power(k - 1) }

  lemma EightMore(k: nat)
    ensures Power(0) == 1 && Power(k + 8) == 256 * Power(k)
  {
    assert Power(k + 2) == 4 * Power(k);
    assert Power(k + 4) == 4 * Power(k + 2);
    assert Power(k + 6) == 4 * Power(k + 4);
  }

  lemma {:induction false} XorBelow(a: nat, b: nat, bits: nat)
    requires a < Power(bits) && b < Power(bits)
    ensures Xor(a, b) < Power(bits)
  {
    if b != 0 { XorBelow(a / 2, b / 2, bits - 1); }
  }

  lemma PowerOfWord()
    ensures Power(64) == WORDS
  {
    hide Power;
    EightMore(0);
    EightMore(8);
    EightMore(16);
    EightMore(24);
    EightMore(32);
    EightMore(40);
    EightMore(48);
    EightMore(56);
  }

  lemma XorOfWords(a: Word, b: Word)
    ensures Xor(a, b) < WORDS
  {
    hide Power;
    PowerOfWord();
    XorBelow(a, b, 64);
  }

  // ---- Wrapping products ----

  const PRIME: nat := 0x0000_0100_0000_01b3

  /** What turns the product back: the factor is odd, so it has one, and the two multiply
      to one more than `TURNS` whole words. */
  const INVERSE: nat := 0xce96_5057_aff6_957b
  const TURNS: nat := 0xce9650590f

  lemma TurnedBack(d: int, k: int)
    requires d * PRIME == k * WORDS
    ensures d == WORDS * (k * INVERSE - d * TURNS)
  {
    assert PRIME * INVERSE == 1 + WORDS * TURNS;
  }

  lemma WholeWords(d: int, n: int)
    requires d == WORDS * n && d < WORDS && -d < WORDS
    ensures d == 0
  {}

  lemma SameRest(a: nat, b: nat)
    requires a % WORDS == b % WORDS
    ensures a - b == (a / WORDS - b / WORDS) * WORDS
  {}

  lemma ProductTells(x: Word, y: Word)
    requires x * PRIME % WORDS == y * PRIME % WORDS
    ensures x == y
  {
    var (d, k) := (x - y, x * PRIME / WORDS - y * PRIME / WORDS);
    SameRest(x * PRIME, y * PRIME);
    TurnedBack(d, k);
    WholeWords(d, k * INVERSE - d * TURNS);
  }
}
