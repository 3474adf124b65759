// opt/gvn.c, negcon and assoccon, on opt/fold.c, foldint, and ir/ir_util.c,
// newcon: a constant combined with the result of combining a constant.
module AssocCon {
  import opened Graph
  import W = Words

  type Word = W.Word

  datatype Cls = Kw | Kl | Ks | Kd

  datatype Op = Add | Sub | And | Or | Xor | Other(n: nat)

  // CUndef, CBits, or an offset from a symbol (CAddr).
  datatype Con = Undef | Bits(v: Word) | AddrOf(sym: nat, v: Word)

  datatype Ref = Tmp(t: nat) | ConRef(c: nat)

  datatype Ins = Ins(op: Op, cls: Cls, to: nat, a0: Ref, a1: Ref)

  // KBASE(k) == 0
  predicate IsInt(k: Cls) { k.Kw? || k.Kl? }

  // KWIDE(k)
  predicate Wide(k: Cls) { k.Kl? || k.Kd? }

  // optab[op].assoc
  predicate Assoc(op: Op) { op.Add? || op.And? || op.Or? || op.Xor? }

  // Subtraction is taken as the addition of the negated constant.
  function SubAsAdd(op: Op): Op { if op.Sub? then Add else op }

  // ---- values ---------------------------------------------------------------------------

  // What of a word a class looks at.
  function Trunc(k: Cls, x: Word): Word {
    if Wide(k) then x else W.Low(x)
  }

  // The operations on 64-bit words; those not listed are not looked at.
  function Raw(op: Op, x: Word, y: Word): Word {
    match op
    case Add => W.Plus(x, y)
    case Sub => W.Minus(x, y)
    case And => W.Bitwise(W.BAnd, x, y)
    case Or => W.Bitwise(W.BOr, x, y)
    case Xor => W.Bitwise(W.BXor, x, y)
    case Other(_) => x
  }

  // What the operations are, bit by bit and as numbers.
  lemma RawIs(x: Word, y: Word, k: nat)
    requires k < 64
    ensures Raw(Add, x, y) == (x + y) % W.W64 && Raw(Sub, x, y) == (x - y) % W.W64
    ensures W.BitOf(Raw(And, x, y), k) <==> W.BitOf(x, k) && W.BitOf(y, k)
    ensures W.BitOf(Raw(Or, x, y), k) <==> W.BitOf(x, k) || W.BitOf(y, k)
    ensures W.BitOf(Raw(Xor, x, y), k) <==> (W.BitOf(x, k) <==> !W.BitOf(y, k))
    ensures Raw(And, x, x) == x && Raw(And, x, 0) == 0
    ensures Raw(Or, x, x) == x && Raw(Or, x, 0) == x
    ensures Raw(Xor, x, x) == 0 && Raw(Xor, x, 0) == x
  {
    W.Pow2Is();
    W.WrapIs(x, y);
    W.BitOfBits(x, y, 64, k);
    W.BitsUnits(x, 64);
  }

  // The result of an operation of class k, which reads and defines only that class's bits.
  function OpVal(op: Op, k: Cls, x: Word, y: Word): Word {
    Trunc(k, Raw(op, Trunc(k, x), Trunc(k, y)))
  }

  // Symbol addresses and temporaries.
  type Values = map<nat, Word>

  function At(m: Values, n: nat): Word {
    if n in m then m[n] else 0
  }

  function ConVal(c: Con, syms: Values): Word {
    match c
    case Undef => 0
    case Bits(v) => v
    case AddrOf(s, v) => W.Plus(At(syms, s), v)
  }

  function RefVal(r: Ref, con: seq<Con>, env: Values, syms: Values): Word {
    match r
    case Tmp(t) => At(env, t)
    case ConRef(c) => if c < |con| then ConVal(con[c], syms) else 0
  }

  function InsVal(i: Ins, con: seq<Con>, env: Values, syms: Values): Word {
    OpVal(i.op, i.cls, RefVal(i.a0, con, env, syms), RefVal(i.a1, con, env, syms))
  }

  // The bits an instruction defines of its result are what it computes.
  predicate Defined(i: Ins, con: seq<Con>, env: Values, syms: Values) {
    Trunc(i.cls, At(env, i.to)) == InsVal(i, con, env, syms)
  }

  // ---- laws -----------------------------------------------------------------------------

  lemma TruncTrunc(k: Cls, l: Cls, x: Word)
    requires Wide(k) ==> Wide(l)
    ensures Trunc(k, Trunc(l, x)) == Trunc(k, x)
  {
    W.LowLow(x);
  }

  // Cutting the operands first changes none of the bits kept.
  lemma TruncRaw(op: Op, k: Cls, x: Word, y: Word)
    ensures OpVal(op, k, x, y) == Trunc(k, Raw(op, x, y))
  {
    hide W.Low;
    hide W.Plus;
    hide W.Minus;
    hide W.Bitwise;
    if !Wide(k) {
      match op {
        case Add => W.LowPlus(x, y);
        case Sub => W.LowMinus(x, y);
        case And => W.LowBitwise(W.BAnd, x, y);
        case Or => W.LowBitwise(W.BOr, x, y);
        case Xor => W.LowBitwise(W.BXor, x, y);
        case Other(_) => W.LowLow(x);
      }
    }
  }

  lemma RawAssoc(op: Op, x: Word, y: Word, z: Word)
    requires Assoc(op)
    ensures Raw(op, Raw(op, x, y), z) == Raw(op, x, Raw(op, z, y))
  {
    hide W.Plus;
    hide W.Minus;
    hide W.Bitwise;
    if op.Add? {
      W.PlusAssoc(x, y, z);
      W.PlusCommutes(y, z);
    } else if op.And? {
      W.BitwiseAssoc(W.BAnd, x, y, z);
      W.BitwiseCommutes(W.BAnd, y, z);
    } else if op.Or? {
      W.BitwiseAssoc(W.BOr, x, y, z);
      W.BitwiseCommutes(W.BOr, y, z);
    } else {
      W.BitwiseAssoc(W.BXor, x, y, z);
      W.BitwiseCommutes(W.BXor, y, z);
    }
  }

  // ---- folding --------------------------------------------------------------------------

  function NumOf(c: Con): Word {
    if c.Undef? then 0 else c.v
  }

  // foldint, for the listed operations; None where it returns 1.
  function FoldInt(op: Op, cl: Con, cr: Con): Option<Con> {
    var x := Raw(op, NumOf(cl), NumOf(cr));
    if op.Add? then
      if cl.AddrOf? then (if cr.AddrOf? then None else Some(AddrOf(cl.sym, x)))
      else if cr.AddrOf? then Some(AddrOf(cr.sym, x))
      else Some(Bits(x))
    else if op.Sub? then
      if cl.AddrOf? then
        if !cr.AddrOf? then Some(AddrOf(cl.sym, x))
        else if cl.sym == cr.sym then Some(Bits(x)) else None
      else if cr.AddrOf? then None
      else Some(Bits(x))
    else if cl.AddrOf? || cr.AddrOf? || op.Other? then None
    else Some(Bits(x))
  }

  // A folded constant is what the operation gives, wherever the symbols are.
  lemma FoldIsValue(op: Op, cl: Con, cr: Con, syms: Values)
    requires FoldInt(op, cl, cr).Some?
    ensures ConVal(FoldInt(op, cl, cr).value, syms) == Raw(op, ConVal(cl, syms), ConVal(cr, syms))
  {
    hide W.Plus;
    hide W.Minus;
    hide W.Bitwise;
    hide At;
    if cl.AddrOf? && cr.AddrOf? {
      W.MinusPlus(At(syms, cl.sym), cl.v, cr.v);
    } else if cl.AddrOf? {
      W.PlusAssoc(At(syms, cl.sym), cl.v, NumOf(cr));
      W.MinusPlus(At(syms, cl.sym), cl.v, NumOf(cr));
    } else if cr.AddrOf? {
      W.PlusAssoc(At(syms, cr.sym), cr.v, NumOf(cl));
      W.PlusCommutes(NumOf(cl), cr.v);
      W.PlusCommutes(NumOf(cl), W.Plus(At(syms, cr.sym), cr.v));
    }
  }

  function NegCon(c: Con): Option<Con> {
    FoldInt(Sub, Bits(0), c)
  }

  // The sign that decides between add and sub.
  predicate Negative(k: Cls, v: Word) {
    if k.Kl? then v >= 0x8000_0000_0000_0000 else W.Low(v) >= 0x8000_0000
  }

  // Subtracting is adding the negated constant, the most negative one included.
  lemma SubIsAddNeg(x: Word, c: Con, syms: Values)
    requires NegCon(c).Some?
    ensures Raw(Sub, x, ConVal(c, syms)) == Raw(Add, x, ConVal(NegCon(c).value, syms))
    ensures Raw(Add, x, ConVal(c, syms)) == Raw(Sub, x, ConVal(NegCon(c).value, syms))
  {
    hide W.Plus;
    hide W.Minus;
    hide FoldInt;
    FoldIsValue(Sub, Bits(0), c, syms);
    W.MinusIsPlus(x, ConVal(c, syms));
    W.MinusIsPlus(x, W.Minus(0, ConVal(c, syms)));
  }

  // ---- the rewrite ----------------------------------------------------------------------

  // The constant an instruction adds: that of a sub negated.
  function Signed(op: Op, c: Con): Option<Con> {
    if op.Sub? then NegCon(c) else Some(c)
  }

  lemma SignedIs(op: Op, x: Word, c: Con, syms: Values)
    requires Signed(op, c).Some?
    ensures Raw(op, x, ConVal(c, syms)) == Raw(SubAsAdd(op), x, ConVal(Signed(op, c).value, syms))
  {
    hide Raw;
    hide NegCon;
    hide ConVal;
    if op.Sub? {
      SubIsAddNeg(x, c, syms);
    }
  }

  // Two constants applied one after the other, at the classes of the two instructions.
  lemma TwoIsOne(op1: Op, k1: Cls, c1: Con, op2: Op, k2: Cls, c2: Con, x: Word, t: Word, syms: Values)
    requires Assoc(SubAsAdd(op1)) && SubAsAdd(op1) == SubAsAdd(op2)
    requires Wide(k1) ==> Wide(k2)
    requires Signed(op1, c1).Some? && Signed(op2, c2).Some?
    requires FoldInt(SubAsAdd(op1), Signed(op1, c1).value, Signed(op2, c2).value).Some?
    requires Trunc(k2, t) == OpVal(op2, k2, x, ConVal(c2, syms))
    ensures OpVal(op1, k1, t, ConVal(c1, syms))
         == OpVal(SubAsAdd(op1), k1, x,
                  ConVal(FoldInt(SubAsAdd(op1), Signed(op1, c1).value, Signed(op2, c2).value).value, syms))
  {
    hide *;
    var op := SubAsAdd(op1);
    var d1, d2 := Signed(op1, c1).value, Signed(op2, c2).value;
    var v1, v2 := ConVal(d1, syms), ConVal(d2, syms);
    var mid := Raw(op2, x, ConVal(c2, syms));
    TruncRaw(op2, k2, x, ConVal(c2, syms));
    TruncTrunc(k1, k2, t);
    TruncTrunc(k1, k2, mid);
    assert Trunc(k1, t) == Trunc(k1, mid);
    SameTrunc(op1, k1, t, mid, ConVal(c1, syms));
    TruncRaw(op1, k1, mid, ConVal(c1, syms));
    SignedIs(op1, mid, c1, syms);
    SignedIs(op2, x, c2, syms);
    RawAssoc(op, x, v2, v1);
    FoldIsValue(op, d1, d2, syms);
    TruncRaw(op, k1, x, Raw(op, v1, v2));
  }

  // The instruction assoccon leaves behind, or None where it leaves i1 as it was: the
  // operation and the constant.
  function Folded(i1: Ins, c1: Con, i2: Ins, c2: Con): Option<(Op, Con)> {
    var op := SubAsAdd(i1.op);
    var d1, d2 := Signed(i1.op, c1), Signed(i2.op, c2);
    if d1.None? || d2.None? || FoldInt(op, d1.value, d2.value).None? then None
    else
      var c := FoldInt(op, d1.value, d2.value).value;
      if op.Add? && c.Bits? && Negative(i1.cls, c.v) && NegCon(c).Some? then Some((Sub, NegCon(c).value))
      else Some((op, c))
  }

  // Two constants are merged unless symbols are in the way: one that is subtracted, two of
  // them, or one in a bitwise operation.
  lemma FoldedWhen(i1: Ins, c1: Con, i2: Ins, c2: Con)
    requires Assoc(SubAsAdd(i1.op)) && SubAsAdd(i1.op) == SubAsAdd(i2.op)
    ensures Folded(i1, c1, i2, c2).Some? <==>
              match SubAsAdd(i1.op)
              case Add => !(c1.AddrOf? && (c2.AddrOf? || i1.op.Sub?)) && !(c2.AddrOf? && i2.op.Sub?)
              case _ => !c1.AddrOf? && !c2.AddrOf?
  {
    hide W.Plus;
    hide W.Minus;
    hide W.Bitwise;
  }

  // What both constants come to: the sum of the two, the subtracted ones counted negative.
  function Total(i1: Ins, c1: Con, i2: Ins, c2: Con): int {
    var x: int, y: int := NumOf(c1), NumOf(c2);
    (if i1.op.Sub? then -x else x) + (if i2.op.Sub? then -y else y)
  }

  // Read as a signed number of the class, n is negative.
  predicate IsNegative(k: Cls, n: int) {
    if k.Kl? then n % W.W64 >= W.W64 / 2 else n % W.W32 >= W.W32 / 2
  }

  // A merged sum: an offset from the one symbol there is; else an addition, or, if the sum is
  // negative in the instruction's class, the subtraction of its absolute value.
  lemma FoldedSum(i1: Ins, c1: Con, i2: Ins, c2: Con)
    requires SubAsAdd(i1.op) == Add == SubAsAdd(i2.op) && Folded(i1, c1, i2, c2).Some?
    ensures var n := Total(i1, c1, i2, c2);
            Folded(i1, c1, i2, c2).value ==
              if c1.AddrOf? then (Add, AddrOf(c1.sym, n % W.W64))
              else if c2.AddrOf? then (Add, AddrOf(c2.sym, n % W.W64))
              else if IsNegative(i1.cls, n) then (Sub, Bits((-n) % W.W64))
              else (Add, Bits(n % W.W64))
  {
    hide W.Plus;
    hide W.Minus;
    hide IsNegative;
    hide Negative;
    hide Total;
    TotalIs(i1, c1, i2, c2);
  }

  lemma TotalIs(i1: Ins, c1: Con, i2: Ins, c2: Con)
    requires Signed(i1.op, c1).Some? && Signed(i2.op, c2).Some?
    ensures var n, s := Total(i1, c1, i2, c2), W.Plus(NumOf(Signed(i1.op, c1).value), NumOf(Signed(i2.op, c2).value));
            n % W.W64 == s && (-n) % W.W64 == W.Minus(0, s) && (IsNegative(i1.cls, n) <==> Negative(i1.cls, s))
  {
    hide IsNegative;
    hide Negative;
    var d1, d2 := NumOf(Signed(i1.op, c1).value), NumOf(Signed(i2.op, c2).value);
    NegatedIs(i1.op, c1);
    NegatedIs(i2.op, c2);
    var n, s := Total(i1, c1, i2, c2), W.Plus(d1, d2);
    W.WrapIs(0, s);
    var q := (if d1 + d2 < W.W64 then 0 else 1) - (if i1.op.Sub? && NumOf(c1) > 0 then 1 else 0)
             - (if i2.op.Sub? && NumOf(c2) > 0 then 1 else 0);
    W.WrapOnce(n, q, s);
    NegativeIs(i1.cls, n, s);
  }

  lemma NegatedIs(op: Op, c: Con)
    requires Signed(op, c).Some?
    ensures NumOf(Signed(op, c).value) == if op.Sub? then W.Minus(0, NumOf(c)) else NumOf(c)
  {
    hide W.Minus;
  }

  lemma NegativeIs(k: Cls, n: int, s: Word)
    requires n % W.W64 == s && n % W.W32 == s % W.W32
    ensures IsNegative(k, n) <==> Negative(k, s)
  {
  }

  lemma FoldedBits(i1: Ins, c1: Con, i2: Ins, c2: Con)
    requires i1.op == i2.op && (i1.op.And? || i1.op.Or? || i1.op.Xor?) && Folded(i1, c1, i2, c2).Some?
    ensures Folded(i1, c1, i2, c2).value == (i1.op, Bits(Raw(i1.op, NumOf(c1), NumOf(c2))))
  {
    hide W.Bitwise;
  }

  // The instruction merged with defines the first operand, by a sum if this is a sum and by
  // the same bitwise operation otherwise, and both have a constant second operand.
  lemma InnerIs(i1: Ins, ins: seq<Ins>, def: map<nat, nat>, j: nat)
    ensures Inner(i1, ins, def) == Some(j) <==>
              && i1.cls in {Kw, Kl} && i1.a0.Tmp? && i1.a0.t in def && def[i1.a0.t] == j && j < |ins|
              && i1.a1.ConRef? && ins[j].a1.ConRef?
              && ((i1.op in {Add, Sub} && ins[j].op in {Add, Sub}) || (i1.op in {And, Or, Xor} && ins[j].op == i1.op))
  {
  }

  // The rewritten instruction computes what the old one did, in every environment that
  // holds what the inner instruction computed.
  lemma FoldedKeeps(i1: Ins, c1: Con, i2: Ins, c2: Con, x: Word, t: Word, syms: Values)
    requires Assoc(SubAsAdd(i1.op)) && SubAsAdd(i1.op) == SubAsAdd(i2.op)
    requires Wide(i1.cls) ==> Wide(i2.cls)
    requires Folded(i1, c1, i2, c2).Some?
    requires Trunc(i2.cls, t) == OpVal(i2.op, i2.cls, x, ConVal(c2, syms))
    ensures OpVal(i1.op, i1.cls, t, ConVal(c1, syms))
         == OpVal(Folded(i1, c1, i2, c2).value.0, i1.cls, x, ConVal(Folded(i1, c1, i2, c2).value.1, syms))
  {
    hide OpVal;
    hide Trunc;
    hide ConVal;
    hide FoldInt;
    TwoIsOne(i1.op, i1.cls, c1, i2.op, i2.cls, c2, x, t, syms);
    var c := FoldInt(SubAsAdd(i1.op), Signed(i1.op, c1).value, Signed(i2.op, c2).value).value;
    if NegCon(c).Some? {
      var d := NegCon(c).value;
      SubIsAddNeg(x, c, syms);
      TruncRaw(Add, i1.cls, x, ConVal(c, syms));
      TruncRaw(Sub, i1.cls, x, ConVal(d, syms));
    }
  }

  // ---- the function's instructions ------------------------------------------------------

  // Every instruction's result agrees with its operands.
  predicate Solves(ins: seq<Ins>, con: seq<Con>, env: Values, syms: Values) {
    forall i :: 0 <= i < |ins| ==> Defined(ins[i], con, env, syms)
  }

  ghost predicate SameSolutions(ins: seq<Ins>, con: seq<Con>, ins': seq<Ins>, con': seq<Con>) {
    forall env: Values, syms: Values :: Solves(ins, con, env, syms) <==> Solves(ins', con', env, syms)
  }

  predicate RefIn(r: Ref, con: seq<Con>, uses: seq<seq<nat>>) {
    if r.Tmp? then r.t < |uses| else r.c < |con|
  }

  predicate Listed(r: Ref, i: nat, uses: seq<seq<nat>>) {
    r.Tmp? && r.t < |uses| ==> i in uses[r.t]
  }

  // Operands exist, definitions point at defining instructions, uses are listed.
  predicate Sound(ins: seq<Ins>, con: seq<Con>, def: map<nat, nat>, uses: seq<seq<nat>>) {
    && (forall i :: 0 <= i < |ins| ==> RefIn(ins[i].a0, con, uses) && RefIn(ins[i].a1, con, uses))
    && (forall i :: 0 <= i < |ins| ==> Listed(ins[i].a0, i, uses) && Listed(ins[i].a1, i, uses))
    && (forall t :: t in def ==> def[t] < |ins| && ins[def[t]].to == t)
  }

  // The instruction whose constant assoccon tries to merge into that of i1.
  function Inner(i1: Ins, ins: seq<Ins>, def: map<nat, nat>): Option<nat> {
    if !Assoc(SubAsAdd(i1.op)) || !IsInt(i1.cls) || !i1.a0.Tmp? || !i1.a1.ConRef? then None
    else if i1.a0.t !in def then None
    else
      var j := def[i1.a0.t];
      if j >= |ins| || SubAsAdd(i1.op) != SubAsAdd(ins[j].op) || !ins[j].a1.ConRef? then None
      else Some(j)
  }

  lemma DefinedGrows(i: Ins, con: seq<Con>, con': seq<Con>, uses: seq<seq<nat>>, env: Values, syms: Values)
    requires RefIn(i.a0, con, uses) && RefIn(i.a1, con, uses) && con <= con'
    ensures Defined(i, con, env, syms) == Defined(i, con', env, syms)
  {
    hide OpVal;
    hide Trunc;
    hide RefVal;
    ConGrows(i.a0, con, con', uses, env, syms);
    ConGrows(i.a1, con, con', uses, env, syms);
  }

  // What the rewrite puts in place of i1.
  predicate Rewritten(i1: Ins, c1: Con, i2: Ins, c2: Con, con': seq<Con>, new1: Ins) {
    && Folded(i1, c1, i2, c2).Some?
    && new1.op == Folded(i1, c1, i2, c2).value.0
    && new1.cls == i1.cls && new1.to == i1.to && new1.a0 == i2.a0
    && new1.a1.ConRef? && new1.a1.c < |con'|
    && con'[new1.a1.c] == Folded(i1, c1, i2, c2).value.1
  }

  predicate Merges(i: nat, j: nat, ins: seq<Ins>, con: seq<Con>, def: map<nat, nat>, uses: seq<seq<nat>>) {
    && i < |ins| && j < |ins| && i != j
    && Sound(ins, con, def, uses)
    && Inner(ins[i], ins, def) == Some(j)
    && (Wide(ins[i].cls) ==> Wide(ins[j].cls))
  }

  lemma OneKept(i: nat, j: nat, ins: seq<Ins>, con: seq<Con>, def: map<nat, nat>, uses: seq<seq<nat>>,
                con': seq<Con>, new1: Ins, env: Values, syms: Values)
    requires Merges(i, j, ins, con, def, uses)
    requires con <= con' && Rewritten(ins[i], con[ins[i].a1.c], ins[j], con[ins[j].a1.c], con', new1)
    requires Defined(ins[j], con, env, syms)
    ensures Defined(ins[i], con, env, syms) <==> Defined(new1, con', env, syms)
  {
    hide OpVal;
    hide Trunc;
    hide ConVal;
    hide Folded;
    var i1, i2 := ins[i], ins[j];
    var x := RefVal(i2.a0, con, env, syms);
    ConGrows(i2.a0, con, con', uses, env, syms);
    FoldedKeeps(i1, con[i1.a1.c], i2, con[i2.a1.c], x, At(env, i2.to), syms);
  }

  lemma RewriteKeeps(i: nat, j: nat, ins: seq<Ins>, con: seq<Con>, def: map<nat, nat>, uses: seq<seq<nat>>,
                     con': seq<Con>, new1: Ins)
    requires Merges(i, j, ins, con, def, uses)
    requires con <= con' && Rewritten(ins[i], con[ins[i].a1.c], ins[j], con[ins[j].a1.c], con', new1)
    ensures SameSolutions(ins, con, ins[i := new1], con')
  {
    hide Solves;
    forall env: Values, syms: Values
      ensures Solves(ins, con, env, syms) <==> Solves(ins[i := new1], con', env, syms)
    {
      SolvesKept(i, j, ins, con, def, uses, con', new1, env, syms);
    }
  }

  lemma SolvesKept(i: nat, j: nat, ins: seq<Ins>, con: seq<Con>, def: map<nat, nat>, uses: seq<seq<nat>>,
                   con': seq<Con>, new1: Ins, env: Values, syms: Values)
    requires Merges(i, j, ins, con, def, uses)
    requires con <= con' && Rewritten(ins[i], con[ins[i].a1.c], ins[j], con[ins[j].a1.c], con', new1)
    ensures Solves(ins, con, env, syms) <==> Solves(ins[i := new1], con', env, syms)
  {
    hide Defined;
    hide Rewritten;
    hide Inner;
    hide Folded;
    var ins' := ins[i := new1];
    forall k | 0 <= k < |ins| && k != i
      ensures Defined(ins[k], con, env, syms) <==> Defined(ins'[k], con', env, syms)
    {
      DefinedGrows(ins[k], con, con', uses, env, syms);
    }
    if Defined(ins[j], con, env, syms) {
      OneKept(i, j, ins, con, def, uses, con', new1, env, syms);
      assert ins'[i] == new1;
      if Solves(ins', con', env, syms) {
        forall k | 0 <= k < |ins|
          ensures Defined(ins[k], con, env, syms)
        {
          assert Defined(ins'[k], con', env, syms);
        }
      }
    } else {
      assert !Defined(ins'[j], con', env, syms);
    }
  }

  lemma GrowKeeps(ins: seq<Ins>, con: seq<Con>, def: map<nat, nat>, uses: seq<seq<nat>>, i: nat, j: nat, new1: Ins,
                  con': seq<Con>, uses': seq<seq<nat>>)
    requires Merges(i, j, ins, con, def, uses)
    requires con <= con' && Rewritten(ins[i], con[ins[i].a1.c], ins[j], con[ins[j].a1.c], con', new1)
    requires |uses'| == |uses| && (forall t :: 0 <= t < |uses| ==> uses[t] <= uses'[t])
    requires new1.a0.Tmp? ==> i in uses'[new1.a0.t]
    ensures Sound(ins[i := new1], con', def, uses')
  {
    hide Folded;
    var ins' := ins[i := new1];
    forall k | 0 <= k < |ins'|
      ensures RefIn(ins'[k].a0, con', uses') && RefIn(ins'[k].a1, con', uses')
      ensures Listed(ins'[k].a0, k, uses') && Listed(ins'[k].a1, k, uses')
    {
      assert RefIn(ins[k].a0, con, uses) && RefIn(ins[k].a1, con, uses);
      assert Listed(ins[k].a0, k, uses) && Listed(ins[k].a1, k, uses);
      assert RefIn(ins[j].a0, con, uses);
    }
  }

  class Fn {
    var ins: seq<Ins>
    var con: seq<Con>
    var def: map<nat, nat>
    var uses: seq<seq<nat>>

    constructor (ins: seq<Ins>, con: seq<Con>, def: map<nat, nat>, uses: seq<seq<nat>>)
      ensures this.ins == ins && this.con == con && this.def == def && this.uses == uses
    {
      this.ins, this.con, this.def, this.uses := ins, con, def, uses;
    }

    // newcon: the first equal constant past the undefined one, or a new one at the end.
    method NewCon(c: Con) returns (r: nat)
      requires |con| > 0
      modifies `con
      ensures 1 <= r < |con| && con[r] == c
      ensures forall k :: 1 <= k < r ==> con[k] != c
      ensures con == old(con) || con == old(con) + [c]
      ensures |con| > |old(con)| <==> forall k :: 1 <= k < |old(con)| ==> old(con)[k] != c
    {
      r := 1;
      while r < |con|
        invariant 1 <= r <= |con|
        invariant forall k :: 1 <= k < r ==> con[k] != c
      {
        if con[r] == c {
          return;
        }
        r := r + 1;
      }
      con := con + [c];
    }

    // The use list is chosen by the operand's number, whatever its kind.
    method AddUse(r: Ref, i: nat)
      modifies `uses
      ensures |uses| == |old(uses)|
      ensures forall t :: 0 <= t < |uses| ==>
        uses[t] == if t == (if r.Tmp? then r.t else r.c) then old(uses)[t] + [i] else old(uses)[t]
    {
      var n := if r.Tmp? then r.t else r.c;
      if n < |uses| {
        uses := uses[n := uses[n] + [i]];
      }
    }

    // The last lines of assoccon: i gets its operation, operand and constant.
    method Rewrite(i: nat, j: nat, op: Op, c: Con)
      requires |con| > 0 && Merges(i, j, ins, con, def, uses)
      requires Folded(ins[i], con[ins[i].a1.c], ins[j], con[ins[j].a1.c]) == Some((op, c))
      modifies `ins, `con, `uses
      ensures Sound(ins, con, def, uses)
      ensures SameSolutions(old(ins), old(con), ins, con)
      ensures |ins| == |old(ins)| && forall k :: 0 <= k < |ins| && k != i ==> ins[k] == old(ins)[k]
      ensures old(con) <= con
      ensures Rewritten(old(ins)[i], old(con)[old(ins)[i].a1.c], old(ins)[j], old(con)[old(ins)[j].a1.c], con, ins[i])
    {
      hide SameSolutions;
      hide Folded;
      var i1, i2 := ins[i], ins[j];
      var r := NewCon(c);
      ins := ins[i := Ins(op, i1.cls, i1.to, i2.a0, ConRef(r))];
      AddUse(i2.a0, i);
      RewriteKeeps(i, j, old(ins), old(con), def, old(uses), con, ins[i]);
      GrowKeeps(old(ins), old(con), def, old(uses), i, j, ins[i], con, uses);
    }

    method AssocCon(i: nat)
      requires i < |ins| && |con| > 0 && Sound(ins, con, def, uses)
      requires Inner(ins[i], ins, def).Some? ==>
        var j := Inner(ins[i], ins, def).value;
        j != i && IsInt(ins[j].cls) && (Wide(ins[i].cls) ==> Wide(ins[j].cls))
      modifies `ins, `con, `uses
      ensures Sound(ins, con, def, uses)
      ensures SameSolutions(old(ins), old(con), ins, con)
      ensures |ins| == |old(ins)| && forall k :: 0 <= k < |ins| && k != i ==> ins[k] == old(ins)[k]
      ensures old(con) <= con
      ensures forall j :: Inner(old(ins)[i], old(ins), def) == Some(j) ==>
        var i1, i2 := old(ins)[i], old(ins)[j];
        var c1, c2 := old(con)[i1.a1.c], old(con)[i2.a1.c];
        if Folded(i1, c1, i2, c2).Some? then Rewritten(i1, c1, i2, c2, con, ins[i])
        else ins == old(ins) && con == old(con) && uses == old(uses)
      ensures Inner(old(ins)[i], old(ins), def) == None ==>
        ins == old(ins) && con == old(con) && uses == old(uses)
    {
      hide Raw;
      hide Solves;
      hide Defined;
      var i1 := ins[i];
      var op := SubAsAdd(i1.op);
      if !Assoc(op) || !IsInt(i1.cls) || !i1.a0.Tmp? || !i1.a1.ConRef? {
        return;
      }
      var c1 := con[i1.a1.c];
      if i1.a0.t !in def {
        return;
      }
      var j := def[i1.a0.t];
      var i2 := ins[j];
      if op != SubAsAdd(i2.op) || !i2.a1.ConRef? {
        return;
      }
      assert RefIn(i2.a1, con, uses);
      var c2 := con[i2.a1.c];
      var d1, d2 := c1, c2;
      if i1.op.Sub? {
        var n := NegCon(c1);
        if n.None? {
          return;
        }
        d1 := n.value;
      }
      if i2.op.Sub? {
        var n := NegCon(c2);
        if n.None? {
          return;
        }
        d2 := n.value;
      }
      var f := FoldInt(op, d1, d2);
      if f.None? {
        return;
      }
      var c := f.value;
      if op.Add? && c.Bits? && Negative(i1.cls, c.v) {
        var n := NegCon(c);
        c := n.value;
        op := Sub;
      }
      assert Folded(i1, c1, i2, c2) == Some((op, c));
      Rewrite(i, j, op, c);
    }
  }

  // ---- facts that unfold at once ----------------------------------------------------------

  lemma SameTrunc(op: Op, k: Cls, x: Word, y: Word, z: Word)
    requires Trunc(k, x) == Trunc(k, y)
    ensures OpVal(op, k, x, z) == OpVal(op, k, y, z)
  {
  }

  // Adding constants at the end changes no operand.
  lemma ConGrows(r: Ref, con: seq<Con>, con': seq<Con>, uses: seq<seq<nat>>, env: Values, syms: Values)
    requires RefIn(r, con, uses) && con <= con'
    ensures RefVal(r, con, env, syms) == RefVal(r, con', env, syms)
  {
  }
}
