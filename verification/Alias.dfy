// opt/alias.c: the three-way answer for two memory accesses, and what it may
// be trusted to say about real addresses.
module Alias {

  // ALoc: a stack slot whose address goes nowhere; AEsc: one whose address
  // escapes; ACon: an absolute address; ASym: a symbol; AUnk: an unknown pointer.
  datatype Kind = ALoc | AEsc | ACon | ASym | AUnk

  // An alias record as getalias returns it: the kind is already that of the slot.
  datatype Rec = Rec(kind: Kind, base: nat, sym: nat, offset: int)

  datatype Answer = NoAlias | MayAlias | MustAlias

  predicate Stack(k: Kind) {
    k.ALoc? || k.AEsc?
  }

  // alias(): sp bytes at p + op against sq bytes at q; with the answer comes delta.
  function AliasOf(p: Rec, op: int, sp: int, q: Rec, sq: int): (Answer, int) {
    var off := p.offset + op;
    var delta := off - q.offset;
    var ovlap := off < q.offset + sq && q.offset < off + sp;
    (if Stack(p.kind) && Stack(q.kind) then (if p.base == q.base && ovlap then MustAlias else NoAlias)
     else if p.kind.ASym? && q.kind.ASym? then
       (if p.sym != q.sym then MayAlias else if ovlap then MustAlias else NoAlias)
     else if (p.kind.ACon? && q.kind.ACon?) || (p.kind == q.kind && p.base == q.base) then
       (if ovlap then MustAlias else NoAlias)
     else if p.kind.AUnk? && !q.kind.ALoc? then MayAlias
     else if q.kind.AUnk? && !p.kind.ALoc? then MayAlias
     else NoAlias,
     delta)
  }

  // Where bases and symbols are at run time.
  datatype Place = Place(base: nat -> int, sym: nat -> int)

  function Address(pl: Place, a: Rec): int {
    match a.kind
    case ACon => a.offset
    case ASym => pl.sym(a.sym) + a.offset
    case _ => pl.base(a.base) + a.offset
  }

  predicate Apart(a: int, n: int, b: int, m: int) {
    a + n <= b || b + m <= a
  }

  // What the source language promises of two accesses that stay inside the
  // objects they name: different slots, a slot and a symbol or absolute address,
  // a symbol and an absolute address, an unknown pointer and a slot whose
  // address is nowhere, never share a byte.
  predicate Provenance(pl: Place, p: Rec, op: int, sp: int, q: Rec, sq: int) {
    Foreign(p, q) || Foreign(q, p) ==> Apart(Address(pl, p) + op, sp, Address(pl, q), sq)
  }

  predicate Foreign(p: Rec, q: Rec) {
    || (Stack(p.kind) && Stack(q.kind) && p.base != q.base)
    || (Stack(p.kind) && (q.kind.ASym? || q.kind.ACon?))
    || (p.kind.ASym? && q.kind.ACon?)
    || (p.kind.ALoc? && q.kind.AUnk?)
  }

  // The two addresses differ by what their records say.
  predicate Comparable(p: Rec, q: Rec) {
    || (Stack(p.kind) && Stack(q.kind) && p.base == q.base)
    || (p.kind.ASym? && q.kind.ASym? && p.sym == q.sym)
    || (p.kind.ACon? && q.kind.ACon?)
    || (p.kind.AUnk? && q.kind.AUnk? && p.base == q.base)
  }

  predicate Based(k: Kind) {
    Stack(k) || k.AUnk?
  }

  // A placement with p at address a and q at address b.
  function PutAt(p: Rec, a: int, q: Rec, b: int): Place {
    Place(x => if Based(p.kind) && x == p.base then a - p.offset else b - q.offset,
          x => if p.kind.ASym? && x == p.sym then a - p.offset else b - q.offset)
  }

  // May is answered only where both outcomes are possible at run time: accesses that start
  // at one address, and accesses without a common byte.
  lemma MayIsOpen(p: Rec, op: int, sp: nat, q: Rec, sq: nat)
    requires AliasOf(p, op, sp, q, sq).0.MayAlias?
    // a base is a slot or an unknown pointer, not both
    requires Based(p.kind) && Based(q.kind) && p.kind != q.kind ==> p.base != q.base
    ensures exists pl: Place :: Provenance(pl, p, op, sp, q, sq) && Address(pl, p) + op == Address(pl, q)
    ensures exists pl: Place :: Provenance(pl, p, op, sp, q, sq) && Apart(Address(pl, p) + op, sp, Address(pl, q), sq)
  {
    var t := if p.kind.ACon? then p.offset + op else if q.kind.ACon? then q.offset else 0;
    var near := PutAt(p, t - op, q, t);
    assert Provenance(near, p, op, sp, q, sq) && Address(near, p) + op == Address(near, q);
    var far := if p.kind.ACon? then PutAt(p, t - op, q, t + sp) else PutAt(p, t + sq - op, q, t);
    assert Provenance(far, p, op, sp, q, sq) && Apart(Address(far, p) + op, sp, Address(far, q), sq);
  }

  // ---- facts that unfold at once ----------------------------------------------------------

  // Must means overlap at exactly the distance delta, No means no common byte,
  // and of comparable records the answer is never May.
  lemma AliasSound(pl: Place, p: Rec, op: int, sp: int, q: Rec, sq: int)
    requires Provenance(pl, p, op, sp, q, sq)
    ensures var (ans, delta) := AliasOf(p, op, sp, q, sq);
            && (ans.MustAlias? ==> delta == Address(pl, p) + op - Address(pl, q) && -sp < delta < sq)
            && (ans.NoAlias? ==> Apart(Address(pl, p) + op, sp, Address(pl, q), sq))
            && (Comparable(p, q) ==> !ans.MayAlias?)
            && (ans.MustAlias? ==> Comparable(p, q))
  {
  }
}
