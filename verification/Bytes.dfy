// 64-bit words as eight bytes, least significant first, with the operations that
// opt/load.c inserts: and, or, complement, shifts by whole bytes, zero extension.
module Bytes {

  type Word = w: seq<bv8> | |w| == 8 witness [0, 0, 0, 0, 0, 0, 0, 0]

  const ZERO: Word := [0, 0, 0, 0, 0, 0, 0, 0]

  function And(a: Word, b: Word): Word {
    seq(8, k requires 0 <= k < 8 => a[k] & b[k])
  }

  function Or(a: Word, b: Word): Word {
    seq(8, k requires 0 <= k < 8 => a[k] | b[k])
  }

  function Not(a: Word): Word {
    seq(8, k requires 0 <= k < 8 => !a[k])
  }

  // Shifts by 8 * off bits.
  function Shl(v: Word, off: nat): Word
    requires off < 8
  {
    seq(8, k requires 0 <= k < 8 => if k < off then 0 else v[k - off])
  }

  function Shr(v: Word, off: nat): Word
    requires off < 8
  {
    seq(8, k requires 0 <= k < 8 => if k + off < 8 then v[k + off] else 0)
  }

  // The low half, zero-extended.
  function Low(v: Word): Word {
    seq(8, k requires 0 <= k < 8 => if k < 4 then v[k] else 0)
  }

  predicate Size(w: nat) {
    w == 1 || w == 2 || w == 4 || w == 8
  }

  // MASK(w): w bytes of ones.
  function Mask(w: nat): Word {
    seq(8, k requires 0 <= k < 8 => if k < w then 0xFF else 0)
  }

  // ---- masks made of whole bytes -----------------------------------------------------

  predicate ByteWise(m: Word) {
    forall k :: 0 <= k < 8 ==> m[k] == 0 || m[k] == 0xFF
  }

  predicate Has(m: Word, k: int) {
    0 <= k < 8 && m[k] == 0xFF
  }

  lemma HasAnd(a: Word, b: Word)
    requires ByteWise(a) && ByteWise(b)
    ensures ByteWise(And(a, b))
    ensures forall k :: Has(And(a, b), k) <==> Has(a, k) && Has(b, k)
  {
    forall k | 0 <= k < 8
      ensures And(a, b)[k] == (if a[k] == 0xFF && b[k] == 0xFF then 0xFF else 0)
    {
      ByteAnd(a[k], b[k]);
      ByteAnd(b[k], a[k]);
    }
  }

  // a & ~b
  lemma HasMinus(a: Word, b: Word)
    requires ByteWise(a) && ByteWise(b)
    ensures ByteWise(And(a, Not(b)))
    ensures forall k :: Has(And(a, Not(b)), k) <==> Has(a, k) && !Has(b, k)
  {
    forall k | 0 <= k < 8 ensures Not(b)[k] == if b[k] == 0xFF then 0 else 0xFF {
      ByteNot(b[k]);
    }
    HasAnd(a, Not(b));
  }

  lemma MasksEqual(a: Word, b: Word)
    requires ByteWise(a) && ByteWise(b)
    ensures a == b <==> forall k :: 0 <= k < 8 ==> (Has(a, k) <==> Has(b, k))
  {
    if forall k :: 0 <= k < 8 ==> (Has(a, k) <==> Has(b, k)) {
      forall k | 0 <= k < 8 ensures a[k] == b[k] {
        assert Has(a, k) <==> Has(b, k);
      }
    }
  }

  lemma MaskEmpty(m: Word)
    requires ByteWise(m)
    ensures m == ZERO <==> forall k :: 0 <= k < 8 ==> !Has(m, k)
  {
    MasksEqual(m, ZERO);
  }

  // ---- facts that unfold at once ----------------------------------------------------------

  lemma ByteAnd(x: bv8, m: bv8)
    ensures m == 0xFF ==> x & m == x
    ensures m == 0 ==> x & m == 0
    ensures x == 0 ==> x & m == 0
  {
  }

  lemma ByteOr(x: bv8, y: bv8)
    ensures x == 0 ==> x | y == y
    ensures y == 0 ==> x | y == x
  {
  }

  lemma ByteNot(m: bv8)
    ensures m == 0xFF ==> !m == 0
    ensures m == 0 ==> !m == 0xFF
  {
  }
}
