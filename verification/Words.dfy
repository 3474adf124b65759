// Unsigned machine words as numbers: wrap-around at 64 bits, truncation to 32,
// and the bitwise operations, bit by bit.
module Words {

  const W64: nat := 0x1_0000_0000_0000_0000
  const W32: nat := 0x1_0000_0000

  type Word = n: nat | n < 0x1_0000_0000_0000_0000

  function Plus(x: Word, y: Word): Word {
    if x + y < W64 then x + y else x + y - W64
  }

  function Minus(x: Word, y: Word): Word {
    if x >= y then x - y else x + W64 - y
  }

  function Low(x: Word): Word {
    x % W32
  }

  datatype BitOp = BAnd | BOr | BXor

  function Bit(op: BitOp, a: nat, b: nat): (r: nat)
    requires a < 2 && b < 2
    ensures r < 2
  {
    match op
    case BAnd => if a == 1 && b == 1 then 1 else 0
    case BOr => if a == 1 || b == 1 then 1 else 0
    case BXor => if a != b then 1 else 0
  }

  // The n low bits of x op y.
  function Bits(op: BitOp, x: nat, y: nat, n: nat): nat {
    if n == 0 then 0 else Bit(op, x % 2, y % 2) + 2 * Bits(op, x / 2, y / 2, n - 1)
  }

  function Pow2(n: nat): (r: nat)
    ensures r > 0
  {
    if n == 0 then 1 else 2 * Pow2(n - 1)
  }

  lemma {:induction false} BitsLow(op: BitOp, x: nat, y: nat, n: nat)
    ensures Bits(op, x, y, n) < Pow2(n)
  {
    if n > 0 {
      BitsLow(op, x / 2, y / 2, n - 1);
    }
  }

  lemma EightMore(n: nat)
    ensures Pow2(n + 8) == 256 * Pow2(n)
  {
    assert Pow2(n + 2) == 2 * Pow2(n + 1) == 4 * Pow2(n);
    assert Pow2(n + 4) == 2 * Pow2(n + 3) == 4 * Pow2(n + 2);
    assert Pow2(n + 6) == 2 * Pow2(n + 5) == 4 * Pow2(n + 4);
    assert Pow2(n + 8) == 2 * Pow2(n + 7) == 4 * Pow2(n + 6);
  }

  lemma Pow2Is()
    ensures Pow2(32) == W32 && Pow2(64) == W64
  {
    EightMore(0);
    EightMore(8);
    EightMore(16);
    EightMore(24);
    EightMore(32);
    EightMore(40);
    EightMore(48);
    EightMore(56);
  }

  function Bitwise(op: BitOp, x: Word, y: Word): Word {
    Pow2Is();
    BitsLow(op, x, y, 64);
    Bits(op, x, y, 64)
  }

  // Bit k of a number.
  predicate BitOf(x: nat, k: nat) {
    if k == 0 then x % 2 == 1 else BitOf(x / 2, k - 1)
  }

  // ---- laws ------------------------------------------------------------------------------

  // Each bit of the result is and, or, exclusive or of the operands' bits.
  lemma {:induction false} BitOfBits(x: nat, y: nat, n: nat, k: nat)
    requires k < n
    ensures BitOf(Bits(BAnd, x, y, n), k) <==> BitOf(x, k) && BitOf(y, k)
    ensures BitOf(Bits(BOr, x, y, n), k) <==> BitOf(x, k) || BitOf(y, k)
    ensures BitOf(Bits(BXor, x, y, n), k) <==> (BitOf(x, k) <==> !BitOf(y, k))
  {
    HalfBits(BAnd, x, y, n);
    HalfBits(BOr, x, y, n);
    HalfBits(BXor, x, y, n);
    if k > 0 {
      BitOfBits(x / 2, y / 2, n - 1, k - 1);
    }
  }

  // A word with itself, and with zero.
  lemma {:induction false} BitsUnits(x: nat, n: nat)
    requires x < Pow2(n)
    ensures Bits(BAnd, x, x, n) == x && Bits(BAnd, x, 0, n) == 0
    ensures Bits(BOr, x, x, n) == x && Bits(BOr, x, 0, n) == x
    ensures Bits(BXor, x, x, n) == 0 && Bits(BXor, x, 0, n) == x
  {
    if n > 0 {
      BitsUnits(x / 2, n - 1);
      assert x == x % 2 + 2 * (x / 2);
    }
  }

  // s is n wrapped to a word; its low half and its negation are n's.
  lemma WrapOnce(n: int, q: int, s: int)
    requires n == W64 * q + s && 0 <= s < W64
    ensures n % W64 == s && n % W32 == s % W32 && (-n) % W64 == (-s) % W64
  {
    var h := s / W32;
    assert n == W32 * (W32 * q + h) + s % W32;
    RemainderIs(n, W32 * q + h, s % W32);
    RemainderIs64(n, q, s);
    RemainderIs64(-n, (-s) / W64 - q, (-s) % W64);
  }

  lemma RemainderIs64(x: int, q: int, r: int)
    requires x == W64 * q + r && 0 <= r < W64
    ensures x % W64 == r
  {
  }

  lemma WrapIs(x: Word, y: Word)
    ensures Plus(x, y) == (x + y) % W64 && Minus(x, y) == (x - y) % W64
  {
  }

  lemma LowPlus(x: Word, y: Word)
    ensures Low(Plus(Low(x), Low(y))) == Low(Plus(x, y))
  {
    var a, b := x / W32, y / W32;
    var s := Low(x) + Low(y);
    var c, r := s / W32, s % W32;
    assert x + y == W32 * (a + b) + s == W32 * (a + b + c) + r;
    RemainderIs(x + y, a + b + c, r);
    RemainderIs(x + y - W64, a + b + c - W32, r);
  }

  lemma LowMinus(x: Word, y: Word)
    ensures Low(Minus(Low(x), Low(y))) == Low(Minus(x, y))
  {
    var a, b := x / W32, y / W32;
    var s: int := Low(x) - Low(y);
    var c, r := s / W32, s % W32;
    assert x - y == W32 * (a - b) + s == W32 * (a - b + c) + r;
    RemainderIs(x - y, a - b + c, r);
    RemainderIs(x - y + W64, a - b + c + W32, r);
    RemainderIs(s, c, r);
    RemainderIs(s + W64, c + W32, r);
  }

  lemma {:induction false} BitsAssoc(op: BitOp, x: nat, y: nat, z: nat, n: nat)
    ensures Bits(op, Bits(op, x, y, n), z, n) == Bits(op, x, Bits(op, y, z, n), n)
  {
    if n > 0 {
      BitsAssoc(op, x / 2, y / 2, z / 2, n - 1);
      BitAssoc(op, x % 2, y % 2, z % 2);
      HalfBits(op, x, y, n);
      HalfBits(op, y, z, n);
    }
  }

  lemma HalfBits(op: BitOp, x: nat, y: nat, n: nat)
    requires n > 0
    ensures Bits(op, x, y, n) % 2 == Bit(op, x % 2, y % 2)
    ensures Bits(op, x, y, n) / 2 == Bits(op, x / 2, y / 2, n - 1)
  {
    HalfOf(Bit(op, x % 2, y % 2), Bits(op, x / 2, y / 2, n - 1));
  }

  lemma {:induction false} BitsCommute(op: BitOp, x: nat, y: nat, n: nat)
    ensures Bits(op, x, y, n) == Bits(op, y, x, n)
  {
    if n > 0 {
      BitsCommute(op, x / 2, y / 2, n - 1);
      BitAssoc(op, x % 2, y % 2, 0);
    }
  }

  // The low bits of the result come from the low bits of the operands.
  lemma {:induction false} BitsSplit(op: BitOp, x: nat, y: nat, n: nat, m: nat)
    ensures Bits(op, x, y, n + m) % Pow2(n) == Bits(op, x, y, n)
  {
    BitsLow(op, x, y, n);
    if n > 0 {
      BitsSplit(op, x / 2, y / 2, n - 1, m);
      var h := Bits(op, x / 2, y / 2, n - 1 + m);
      assert n + m - 1 == n - 1 + m;
      var b := Bit(op, x % 2, y % 2);
      DoubleMod(b, h, Pow2(n - 1));
    } else {
      assert Pow2(0) == 1;
    }
  }

  lemma DoubleMod(b: nat, h: nat, p: nat)
    requires b < 2 && p > 0
    ensures (b + 2 * h) % (2 * p) == b + 2 * (h % p)
  {
    var q, r := h / p, h % p;
    assert h == p * q + r;
    assert b + 2 * h == (2 * p) * q + (b + 2 * r);
    QuotientIs(b + 2 * h, 2 * p, q, b + 2 * r);
  }

  lemma QuotientIs(x: nat, m: nat, q: nat, r: nat)
    requires x == m * q + r && r < m
    ensures x % m == r
  {
    TimesLess(m, q, x / m);
    TimesLess(m, x / m, q);
  }

  lemma {:induction false} TimesLess(m: nat, a: nat, b: nat)
    ensures a < b ==> m * a + m <= m * b
    decreases b
  {
    if a + 1 < b {
      TimesLess(m, a, b - 1);
      Distribute(m, b - 1, 1);
    } else if a + 1 == b {
      Distribute(m, a, 1);
    }
  }

  lemma {:induction false} BitsMod(op: BitOp, x: nat, y: nat, n: nat)
    ensures Bits(op, x % Pow2(n), y % Pow2(n), n) == Bits(op, x, y, n)
  {
    if n > 0 {
      HalfMod(x, Pow2(n - 1));
      HalfMod(y, Pow2(n - 1));
      BitsMod(op, x / 2, y / 2, n - 1);
    }
  }

  lemma HalfMod(x: nat, p: nat)
    requires p > 0
    ensures (x % (2 * p)) % 2 == x % 2 && (x % (2 * p)) / 2 == (x / 2) % p
  {
    DoubleMod(x % 2, x / 2, p);
    assert x == x % 2 + 2 * (x / 2);
  }

  lemma LowBitwise(op: BitOp, x: Word, y: Word)
    ensures Low(Bitwise(op, Low(x), Low(y))) == Low(Bitwise(op, x, y))
  {
    Pow2Is();
    BitsSplit(op, x, y, 32, 32);
    BitsSplit(op, Low(x), Low(y), 32, 32);
    BitsMod(op, x, y, 32);
  }

  lemma BitwiseAssoc(op: BitOp, x: Word, y: Word, z: Word)
    ensures Bitwise(op, Bitwise(op, x, y), z) == Bitwise(op, x, Bitwise(op, y, z))
  {
    BitsAssoc(op, x, y, z, 64);
  }

  lemma BitwiseCommutes(op: BitOp, x: Word, y: Word)
    ensures Bitwise(op, x, y) == Bitwise(op, y, x)
  {
    BitsCommute(op, x, y, 64);
  }

  // ---- facts that unfold at once ----------------------------------------------------------

  lemma PlusAssoc(x: Word, y: Word, z: Word)
    ensures Plus(Plus(x, y), z) == Plus(x, Plus(y, z))
  {
  }

  lemma PlusCommutes(x: Word, y: Word)
    ensures Plus(x, y) == Plus(y, x)
  {
  }

  lemma MinusIsPlus(x: Word, y: Word)
    ensures Minus(x, y) == Plus(x, Minus(0, y))
    ensures Minus(0, Minus(0, y)) == y
  {
  }

  lemma MinusPlus(s: Word, x: Word, y: Word)
    ensures Minus(Plus(s, x), Plus(s, y)) == Minus(x, y)
    ensures Minus(Plus(s, x), y) == Plus(s, Minus(x, y))
  {
  }

  // A remainder is the one number in range at a multiple's distance.
  lemma RemainderIs(x: int, q: int, r: int)
    requires x == W32 * q + r && 0 <= r < W32
    ensures x % W32 == r
  {
  }

  lemma LowLow(x: Word)
    ensures Low(Low(x)) == Low(x)
  {
  }

  lemma BitAssoc(op: BitOp, a: nat, b: nat, c: nat)
    requires a < 2 && b < 2 && c < 2
    ensures Bit(op, Bit(op, a, b), c) == Bit(op, a, Bit(op, b, c))
    ensures Bit(op, a, b) == Bit(op, b, a)
  {
  }

  lemma HalfOf(b: nat, h: nat)
    requires b < 2
    ensures (b + 2 * h) % 2 == b && (b + 2 * h) / 2 == h
  {
  }

  lemma Distribute(m: nat, a: nat, b: nat)
    ensures m * (a + b) == m * a + m * b
  {
  }
}
