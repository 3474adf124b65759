// opt/gcm.c: schedearly and schedlate, and where the chosen blocks lie.
module GcmSched {
  import opened Graph
  import opened DomTree
  import opened Gcm

  // A temporary's definition: an instruction, with its block and place in it,
  // or a phi.  elim: a pinned instruction that may be dropped when unused.
  datatype Def =
    | InsDef(bid: nat, pos: nat, pinned: bool, elim: bool, a0: Option<nat>, a1: Option<nat>)
    | PhiDef(bid: nat)

  datatype Use =
    | UIns(b: nat, pin: bool, canelim: bool, to: Option<nat>)
    | UPhi(phi: nat)
    | UJmp(b: nat)

  datatype Phi = Phi(to: nat, args: seq<(Option<nat>, nat)>)

  // Operands of a pinned instruction, and its result if it has one.
  datatype Pin = Pin(a0: Option<nat>, a1: Option<nat>, to: Option<nat>)

  datatype Blk = Blk(phis: seq<nat>, pins: seq<Pin>, jmp: Option<nat>)

  datatype Fn = Fn(d: Idom, depth: seq<int>, loop: seq<int>, def: seq<Def>, use: seq<seq<Use>>, phi: seq<Phi>, blk: seq<Blk>)

  // ---- what gcm is given ---------------------------------------------------------------

  function Pos(x: Def): int {
    if x.InsDef? then x.pos else -1
  }

  predicate Lt(x: Def, y: Def) {
    x.bid < y.bid || (x.bid == y.bid && Pos(x) < Pos(y))
  }

  // x comes before y on every path to y.
  predicate Precedes(d: Idom, x: Def, y: Def)
    requires IsTree(d) && y.bid < |d|
  {
    OnChain(d, x.bid, y.bid) && (x.bid == y.bid ==> Pos(x) < Pos(y))
  }

  predicate Operand(x: Def, t: nat) {
    x.InsDef? && (x.a0 == Some(t) || x.a1 == Some(t))
  }

  ghost predicate WfFn(f: Fn) {
    && Complete(f.d) && HasDepth(f.d, f.depth) && |f.loop| == |f.d| == |f.blk| && |f.use| == |f.def|
    && (forall t: nat :: t < |f.def| ==> f.def[t].bid < |f.d| && DefOk(f, f.def[t]))
    && (forall t: nat, k: nat :: t < |f.use| && k < |f.use[t]| ==> UseOk(f, t, f.use[t][k]))
    && (forall t: nat, u: nat :: t < |f.def| && u < |f.def| && Operand(f.def[u], t) ==> UseOf(f, u) in f.use[t])
    && (forall b: nat :: b < |f.blk| ==> BlkOk(f, f.blk[b]))
  }

  // Strict SSA: operands are defined before they are read.
  ghost predicate DefOk(f: Fn, x: Def)
    requires Complete(f.d) && x.bid < |f.d|
  {
    forall t: nat :: Operand(x, t) ==> t < |f.def| && f.def[t].bid < |f.d| && Precedes(f.d, f.def[t], x)
  }

  function UseOf(f: Fn, u: nat): Use
    requires u < |f.def| && f.def[u].InsDef?
  {
    UIns(f.def[u].bid, f.def[u].pinned, f.def[u].elim, Some(u))
  }

  ghost predicate UseOk(f: Fn, t: nat, u: Use)
    requires Complete(f.d) && t < |f.def|
  {
    match u
    case UIns(b, pin, elim, to) =>
      && b < |f.d| && OnChain(f.d, f.def[t].bid, b)
      && (if to.Some? then to.value < |f.def| && Operand(f.def[to.value], t) && u == UseOf(f, to.value) else pin && !elim)
    case UPhi(k) =>
      && k < |f.phi| && PhiOk(f, f.phi[k]) && (exists n: nat :: n < |f.phi[k].args| && f.phi[k].args[n].0 == Some(t))
    case UJmp(b) => b < |f.d| && OnChain(f.d, f.def[t].bid, b)
  }

  // A phi argument is defined above the end of the block it comes from.
  ghost predicate PhiOk(f: Fn, p: Phi)
    requires Complete(f.d)
  {
    && p.to < |f.def| && f.def[p.to].PhiDef?
    && (forall n: nat :: n < |p.args| ==>
          && p.args[n].1 < |f.d|
          && (p.args[n].0.Some? ==> p.args[n].0.value < |f.def| && OnChain(f.d, f.def[p.args[n].0.value].bid, p.args[n].1)))
  }

  ghost predicate BlkOk(f: Fn, x: Blk)
    requires Complete(f.d)
  {
    && (forall k: nat :: k < |x.phis| ==> x.phis[k] < |f.phi| && PhiOk(f, f.phi[x.phis[k]]))
    && (forall k: nat :: k < |x.pins| ==> RefOk(f, x.pins[k].a0) && RefOk(f, x.pins[k].a1) && PinOk(f, x.pins[k].to))
    && RefOk(f, x.jmp)
  }

  predicate PinOk(f: Fn, r: Option<nat>) {
    r.Some? ==> r.value < |f.def| && f.def[r.value].InsDef? && f.def[r.value].pinned
  }

  predicate RefOk(f: Fn, r: Option<nat>) {
    r.Some? ==> r.value < |f.def|
  }

  lemma OperandBefore(f: Fn, u: nat, t: nat)
    requires WfFn(f) && u < |f.def| && Operand(f.def[u], t)
    ensures t < |f.def| && f.def[t].bid < |f.d| && f.def[u].bid < |f.d|
    ensures OnChain(f.d, f.def[t].bid, f.def[u].bid) && Lt(f.def[t], f.def[u])
  {
    assert DefOk(f, f.def[u]);
    ChainLow(f.d, f.def[t].bid, f.def[u].bid);
  }

  // ---- early: as high in the tree as the operands allow -----------------------------------

  ghost function EarlyRef(f: Fn, r: Option<nat>): (b: nat)
    requires WfFn(f) && RefOk(f, r)
    ensures b < |f.d|
    decreases if r.Some? then f.def[r.value].bid else 0, if r.Some? then Pos(f.def[r.value]) + 1 else 0, 1
  {
    if r.Some? then EarlyOf(f, r.value) else 0
  }

  ghost function EarlyOf(f: Fn, t: nat): (b: nat)
    requires WfFn(f) && t < |f.def|
    ensures b < |f.d|
    decreases f.def[t].bid, Pos(f.def[t]) + 1, 0
  {
    var x := f.def[t];
    if x.PhiDef? || x.pinned then x.bid
    else
      EarlyOperands(f, t);
      var b0, b1 := EarlyRef(f, x.a0), EarlyRef(f, x.a1);
      if f.depth[b0] < f.depth[b1] then b1 else b0
  }

  lemma EarlyOperands(f: Fn, t: nat)
    requires WfFn(f) && t < |f.def| && f.def[t].InsDef?
    ensures RefOk(f, f.def[t].a0) && RefOk(f, f.def[t].a1)
    ensures f.def[t].a0.Some? ==> Lt(f.def[f.def[t].a0.value], f.def[t])
    ensures f.def[t].a1.Some? ==> Lt(f.def[f.def[t].a1.value], f.def[t])
    ensures f.def[t].a0.Some? ==> Operand(f.def[t], f.def[t].a0.value)
    ensures f.def[t].a1.Some? ==> Operand(f.def[t], f.def[t].a1.value)
  {
    if f.def[t].a0.Some? {
      OperandBefore(f, t, f.def[t].a0.value);
    }
    if f.def[t].a1.Some? {
      OperandBefore(f, t, f.def[t].a1.value);
    }
  }

  // The early block dominates the block the instruction is in, and is dominated
  // by the early blocks of the operands.
  lemma {:induction false} EarlyIsHigh(f: Fn, t: nat)
    requires WfFn(f) && t < |f.def|
    ensures f.def[t].bid < |f.d| && OnChain(f.d, EarlyOf(f, t), f.def[t].bid)
    decreases f.def[t].bid, Pos(f.def[t]) + 1
  {
    var x := f.def[t];
    if x.InsDef? && !x.pinned {
      EarlyOperands(f, t);
      EarlyRefHigh(f, t, x.a0);
      EarlyRefHigh(f, t, x.a1);
    }
  }

  lemma {:induction false} EarlyRefHigh(f: Fn, t: nat, r: Option<nat>)
    requires WfFn(f) && t < |f.def| && f.def[t].InsDef? && (r.Some? ==> Operand(f.def[t], r.value))
    ensures RefOk(f, r) && f.def[t].bid < |f.d| && OnChain(f.d, EarlyRef(f, r), f.def[t].bid)
    decreases f.def[t].bid, Pos(f.def[t]) + 1, 0
  {
    if r.Some? {
      OperandBefore(f, t, r.value);
      EarlyIsHigh(f, r.value);
      ChainTrans(f.d, EarlyOf(f, r.value), f.def[r.value].bid, f.def[t].bid);
    } else {
      RootOnChain(f.d, f.def[t].bid);
    }
  }

  // It is the highest such place: it is above every block that lies below the early blocks
  // of the operands.  What does not move keeps its block.
  lemma EarlyIsHighest(f: Fn, u: nat, b: nat)
    requires WfFn(f) && u < |f.def| && b < |f.d|
    ensures f.def[u].PhiDef? || f.def[u].pinned ==> EarlyOf(f, u) == f.def[u].bid
    ensures f.def[u].InsDef? && !f.def[u].pinned
            && (forall t: nat :: Operand(f.def[u], t) ==> t < |f.def| && OnChain(f.d, EarlyOf(f, t), b)) ==>
              OnChain(f.d, EarlyOf(f, u), b)
  {
    var x := f.def[u];
    if x.InsDef? && !x.pinned {
      EarlyOperands(f, u);
      RootOnChain(f.d, b);
      assert x.a0.Some? ==> Operand(x, x.a0.value);
      assert x.a1.Some? ==> Operand(x, x.a1.value);
    }
  }

  lemma EarlyBelowOperand(f: Fn, u: nat, t: nat)
    requires WfFn(f) && u < |f.def| && Operand(f.def[u], t)
    ensures t < |f.def| && OnChain(f.d, EarlyOf(f, t), EarlyOf(f, u))
  {
    var x := f.def[u];
    OperandBefore(f, u, t);
    EarlyOperands(f, u);
    EarlyRefHigh(f, u, Some(t));
    if !x.pinned {
      EarlyRefHigh(f, u, x.a0);
      EarlyRefHigh(f, u, x.a1);
      var b0, b1 := EarlyRef(f, x.a0), EarlyRef(f, x.a1);
      ChainByDepth(f.d, b0, b1, x.bid);
      ChainByDepth(f.d, b1, b0, x.bid);
    }
  }

  // An instruction that may move and is computed from constants only, itself or
  // through instructions of the same kind.
  ghost predicate FromConsts(f: Fn, t: nat)
    requires WfFn(f) && t < |f.def|
    decreases f.def[t].bid, Pos(f.def[t]) + 1
  {
    var x := f.def[t];
    && x.InsDef? && !x.pinned
    && (EarlyOperands(f, t);
        (x.a0.Some? ==> FromConsts(f, x.a0.value)) && (x.a1.Some? ==> FromConsts(f, x.a1.value)))
  }

  // Such an instruction can go to the start of the function.
  lemma {:induction false} ConstsAtStart(f: Fn, t: nat)
    requires WfFn(f) && t < |f.def| && FromConsts(f, t)
    ensures EarlyOf(f, t) == 0
    decreases f.def[t].bid, Pos(f.def[t]) + 1
  {
    var x := f.def[t];
    EarlyOperands(f, t);
    if x.a0.Some? {
      ConstsAtStart(f, x.a0.value);
    }
    if x.a1.Some? {
      ConstsAtStart(f, x.a1.value);
    }
  }

  ghost predicate NoConsts(f: Fn, visit: seq<bool>)
    requires WfFn(f)
  {
    |visit| == |f.def| && forall t: nat :: t < |visit| && visit[t] ==> !FromConsts(f, t)
  }

  lemma NoConstsAdd(f: Fn, visit: seq<bool>, t: nat)
    requires WfFn(f) && NoConsts(f, visit) && t < |f.def| && !FromConsts(f, t)
    ensures NoConsts(f, visit[t := true])
  {
    hide WfFn;
    hide FromConsts;
  }

  // ---- the scheduler's state ----------------------------------------------------------------

  // The early phase has given t no block yet, or the right one, and its operands too.
  ghost predicate EarlyAt(f: Fn, gcm: seq<Option<nat>>, t: nat)
    requires WfFn(f) && |gcm| == |f.def| && t < |f.def|
  {
    gcm[t].Some? ==>
      gcm[t].value == EarlyOf(f, t) && forall o: nat :: Operand(f.def[t], o) ==> o < |gcm| && gcm[o].Some?
  }

  ghost predicate UpTo(f: Fn, t: nat, w: nat)
    requires t < |f.def| && w < |f.def|
  {
    w == t || Lt(f.def[w], f.def[t])
  }

  ghost predicate EarlyBelow(f: Fn, gcm: seq<Option<nat>>, t: nat)
    requires WfFn(f) && |gcm| == |f.def| && t < |f.def|
  {
    forall w: nat :: w < |f.def| && UpTo(f, t, w) ==> EarlyAt(f, gcm, w)
  }

  // Only blocks up to t were given, and none was taken back.
  ghost predicate EarlyStep(f: Fn, gcm0: seq<Option<nat>>, gcm: seq<Option<nat>>, t: nat)
    requires WfFn(f) && t < |f.def|
  {
    && |gcm0| == |gcm| == |f.def|
    && (forall w: nat :: w < |f.def| && !UpTo(f, t, w) ==> gcm[w] == gcm0[w])
    && (forall w: nat :: w < |f.def| && gcm0[w].Some? ==> gcm[w] == gcm0[w])
  }

  lemma EarlyBelowLess(f: Fn, gcm: seq<Option<nat>>, t: nat, u: nat)
    requires WfFn(f) && |gcm| == |f.def| && t < |f.def| && u < |f.def| && Lt(f.def[u], f.def[t])
    requires forall w: nat :: w < |f.def| && UpTo(f, t, w) && w != t ==> EarlyAt(f, gcm, w)
    ensures EarlyBelow(f, gcm, u)
  {
    hide WfFn;
    hide EarlyAt;
    UpToTrans(f, t, u);
  }

  // A nested search keeps what the outer one may rely on.
  lemma EarlyNested(f: Fn, gcm0: seq<Option<nat>>, gcm: seq<Option<nat>>, t: nat, u: nat)
    requires WfFn(f) && t < |f.def| && u < |f.def| && Lt(f.def[u], f.def[t]) && EarlyStep(f, gcm0, gcm, u)
    requires forall w: nat :: w < |f.def| && UpTo(f, t, w) && w != t ==> EarlyAt(f, gcm0, w)
    requires EarlyBelow(f, gcm, u)
    ensures forall w: nat :: w < |f.def| && UpTo(f, t, w) && w != t ==> EarlyAt(f, gcm, w)
    ensures |gcm| == |gcm0| == |f.def| && gcm[t] == gcm0[t]
  {
    hide WfFn;
    hide EarlyOf;
    UpToTrans(f, t, u);
    forall w: nat | w < |f.def| && UpTo(f, t, w) && w != t ensures EarlyAt(f, gcm, w) {
      if !UpTo(f, u, w) {
        assert EarlyAt(f, gcm0, w);
      }
    }
  }

  class Early {
    const f: Fn
    var gcm: seq<Option<nat>>

    constructor (f: Fn)
      ensures this.f == f && |gcm| == |f.def| && forall t: nat :: t < |gcm| ==> gcm[t].None?
    {
      this.f := f;
      gcm := seq(|f.def|, _ => None);
    }

    // schedearly, for a temporary.
    method SchedEarly(t: nat) returns (e: nat)
      requires WfFn(f) && t < |f.def| && |gcm| == |f.def| && EarlyBelow(f, gcm, t)
      modifies this`gcm
      ensures EarlyStep(f, old(gcm), gcm, t) && EarlyBelow(f, gcm, t) && gcm[t] == Some(e) && e == EarlyOf(f, t)
      decreases f.def[t].bid, Pos(f.def[t]) + 1, 1
    {
      hide *;
      if gcm[t].Some? {
        EarlyHere(f, gcm, t);
        return gcm[t].value;
      }
      ghost var gcm0 := gcm;
      var x := f.def[t];
      if x.InsDef? {
        gcm := gcm[t := Some(0)];          // marked as being visited
        EarlyMarked(f, gcm0, t);
        EarlyOperands(f, t);
        ghost var gcm1 := gcm;
        var b0 := SchedRef(t, x.a0);
        ghost var gcm2 := gcm;
        var b1 := SchedRef(t, x.a1);
        DefsSized(f, b0, b1);
        if f.depth[b0] < f.depth[b1] {
          b0 := b1;
        }
        e := if x.pinned then x.bid else b0;
        EarlyDone(f, gcm0, gcm1, gcm2, gcm, t, e);
        gcm := gcm[t := Some(e)];
      } else {
        e := x.bid;
        gcm := gcm[t := Some(e)];
        EarlyPhi(f, gcm0, t, e);
      }
    }

    // An operand of t, t being marked.
    method SchedRef(ghost t: nat, r: Option<nat>) returns (e: nat)
      requires WfFn(f) && t < |f.def| && |gcm| == |f.def| && f.def[t].InsDef?
      requires r.Some? ==> Operand(f.def[t], r.value)
      requires forall w: nat :: w < |f.def| && UpTo(f, t, w) && w != t ==> EarlyAt(f, gcm, w)
      modifies this`gcm
      ensures RefOk(f, r) && e == EarlyRef(f, r) && RefStep(f, old(gcm), gcm, t)
      ensures |gcm| == |f.def| && (r.Some? ==> gcm[r.value].Some?)
      ensures forall w: nat :: w < |f.def| && UpTo(f, t, w) && w != t ==> EarlyAt(f, gcm, w)
      decreases f.def[t].bid, Pos(f.def[t]) + 1, 0
    {
      hide *;
      RefStepRefl(f, gcm, t);
      if r.None? {
        NoRef(f);
        return 0;
      }
      ghost var gcm0 := gcm;
      OperandBefore(f, t, r.value);
      SmallerMeasure(f, t, r.value);
      EarlyBelowLess(f, gcm, t, r.value);
      e := SchedEarly(r.value);
      EarlyNested(f, gcm0, gcm, t, r.value);
      RefStepOf(f, gcm0, gcm, t, r.value);
      RefIs(f, r.value);
    }
  }

  ghost predicate RefStep(f: Fn, gcm0: seq<Option<nat>>, gcm: seq<Option<nat>>, t: nat)
    requires WfFn(f) && t < |f.def|
  {
    && |gcm0| == |gcm| == |f.def| && gcm[t] == gcm0[t]
    && (forall w: nat :: w < |f.def| && !UpTo(f, t, w) ==> gcm[w] == gcm0[w])
    && (forall w: nat :: w < |f.def| && gcm0[w].Some? ==> gcm[w] == gcm0[w])
  }

  lemma RefStepOf(f: Fn, gcm0: seq<Option<nat>>, gcm: seq<Option<nat>>, t: nat, u: nat)
    requires WfFn(f) && t < |f.def| && u < |f.def| && Lt(f.def[u], f.def[t]) && EarlyStep(f, gcm0, gcm, u)
    ensures RefStep(f, gcm0, gcm, t)
  {
    hide WfFn;
    UpToTrans(f, t, u);
  }

  lemma EarlyHere(f: Fn, gcm: seq<Option<nat>>, t: nat)
    requires WfFn(f) && t < |f.def| && |gcm| == |f.def| && EarlyBelow(f, gcm, t) && gcm[t].Some?
    ensures EarlyStep(f, gcm, gcm, t) && gcm[t].value == EarlyOf(f, t)
  {
    assert EarlyAt(f, gcm, t);
  }

  lemma EarlyMarked(f: Fn, gcm0: seq<Option<nat>>, t: nat)
    requires WfFn(f) && t < |f.def| && |gcm0| == |f.def| && EarlyBelow(f, gcm0, t)
    ensures forall w: nat :: w < |f.def| && UpTo(f, t, w) && w != t ==> EarlyAt(f, gcm0[t := Some(0)], w)
  {
    hide WfFn;
    hide EarlyOf;
    var gcm := gcm0[t := Some(0)];
    forall w: nat | w < |f.def| && UpTo(f, t, w) && w != t ensures EarlyAt(f, gcm, w) {
      assert EarlyAt(f, gcm0, w);
    }
  }

  lemma EarlyDone(f: Fn, gcm0: seq<Option<nat>>, gcm1: seq<Option<nat>>, gcm2: seq<Option<nat>>, gcm3: seq<Option<nat>>, t: nat, e: nat)
    requires WfFn(f) && t < |f.def| && |gcm0| == |f.def| && f.def[t].InsDef? && EarlyBelow(f, gcm0, t) && gcm0[t].None?
    requires gcm1 == gcm0[t := Some(0)] && RefStep(f, gcm1, gcm2, t) && RefStep(f, gcm2, gcm3, t)
    requires forall w: nat :: w < |f.def| && UpTo(f, t, w) && w != t ==> EarlyAt(f, gcm3, w)
    requires RefOk(f, f.def[t].a0) && RefOk(f, f.def[t].a1)
    requires f.def[t].a0.Some? ==> gcm2[f.def[t].a0.value].Some?
    requires f.def[t].a1.Some? ==> gcm3[f.def[t].a1.value].Some?
    requires e == if f.def[t].pinned then f.def[t].bid
                  else if f.depth[EarlyRef(f, f.def[t].a0)] < f.depth[EarlyRef(f, f.def[t].a1)] then EarlyRef(f, f.def[t].a1)
                  else EarlyRef(f, f.def[t].a0)
    ensures |gcm3| == |f.def| && e == EarlyOf(f, t)
    ensures EarlyStep(f, gcm0, gcm3[t := Some(e)], t) && EarlyBelow(f, gcm3[t := Some(e)], t)
  {
    var gcm := gcm3[t := Some(e)];
    assert e == EarlyOf(f, t);
    hide WfFn;
    forall w: nat | w < |f.def| && UpTo(f, t, w) ensures EarlyAt(f, gcm, w) {
      if w != t {
        assert EarlyAt(f, gcm3, w);
      }
    }
  }

  lemma EarlyPhi(f: Fn, gcm0: seq<Option<nat>>, t: nat, e: nat)
    requires WfFn(f) && t < |f.def| && |gcm0| == |f.def| && f.def[t].PhiDef? && EarlyBelow(f, gcm0, t) && gcm0[t].None?
    requires e == f.def[t].bid
    ensures e == EarlyOf(f, t)
    ensures EarlyStep(f, gcm0, gcm0[t := Some(e)], t) && EarlyBelow(f, gcm0[t := Some(e)], t)
  {
    var gcm := gcm0[t := Some(e)];
    assert e == EarlyOf(f, t);
    forall w: nat | w < |f.def| && UpTo(f, t, w) ensures EarlyAt(f, gcm, w) {
      if w != t {
        assert EarlyAt(f, gcm0, w);
      }
    }
  }

  // ---- late: the common ancestor of the uses' blocks -------------------------------------------

  function LcaOpt(d: Idom, a: Option<nat>, b: Option<nat>): (r: Option<nat>)
    requires Complete(d) && (a.Some? ==> a.value < |d|) && (b.Some? ==> b.value < |d|)
    ensures r.Some? ==> r.value < |d|
    ensures r.None? <==> a.None? && b.None?
  {
    if a.None? then b else if b.None? then a
    else
      assert Placed(d, a.value) && Placed(d, b.value);
      Some(Meet(d, a.value, b.value))
  }

  // The blocks t reaches a phi from.
  function PhiLate(d: Idom, args: seq<(Option<nat>, nat)>, t: nat, n: nat): (r: Option<nat>)
    requires Complete(d) && n <= |args| && forall k: nat :: k < |args| ==> args[k].1 < |d|
    ensures r.Some? ==> r.value < |d|
  {
    if n == 0 then None
    else if args[n - 1].0 == Some(t) then LcaOpt(d, PhiLate(d, args, t, n - 1), Some(args[n - 1].1))
    else PhiLate(d, args, t, n - 1)
  }

  ghost predicate InTree(f: Fn, gcm: seq<Option<nat>>, dead: seq<bool>)
    requires WfFn(f)
  {
    && |gcm| == |f.def| && |dead| == |f.phi|
    && (forall t: nat :: t < |gcm| && gcm[t].Some? ==> gcm[t].value < |f.d|)
  }

  // Where one use of t holds it, None if the use may go.
  ghost function UseLate(f: Fn, gcm: seq<Option<nat>>, dead: seq<bool>, t: nat, u: Use): (r: Option<nat>)
    requires WfFn(f) && InTree(f, gcm, dead) && t < |f.def| && UseOk(f, t, u)
    ensures r.Some? ==> r.value < |f.d|
  {
    match u
    case UIns(b, pin, elim, to) =>
      var l := if to.Some? then gcm[to.value] else None;
      if !pin then l else if l.None? && elim then None else Some(b)
    case UPhi(k) => if dead[k] then None else PhiLate(f.d, f.phi[k].args, t, |f.phi[k].args|)
    case UJmp(b) => Some(b)
  }

  ghost function LateOf(f: Fn, gcm: seq<Option<nat>>, dead: seq<bool>, t: nat, n: nat): (r: Option<nat>)
    requires WfFn(f) && InTree(f, gcm, dead) && t < |f.def| && n <= |f.use[t]|
    ensures r.Some? ==> r.value < |f.d|
  {
    if n == 0 then None
    else
      assert UseOk(f, t, f.use[t][n - 1]);
      LcaOpt(f.d, LateOf(f, gcm, dead, t, n - 1), UseLate(f, gcm, dead, t, f.use[t][n - 1]))
  }

  // The block chosen for t, the phis in dead being gone.
  ghost predicate Chosen(f: Fn, E: seq<Option<nat>>, gcm: seq<Option<nat>>, dead: seq<bool>, t: nat)
    requires WfFn(f) && InTree(f, gcm, dead) && InTree(f, E, dead) && t < |f.def| && E[t].Some?
  {
    var l := LateOf(f, gcm, dead, t, |f.use[t]|);
    if l.None? then gcm[t].None?
    else gcm[t].Some? && IsBest(f.d, f.loop, E[t].value, l.value, gcm[t].value)
  }

  ghost predicate Fewer(dead0: seq<bool>, dead: seq<bool>) {
    |dead0| == |dead| && forall k :: 0 <= k < |dead| && dead0[k] ==> dead[k]
  }

  ghost predicate SomeChosen(f: Fn, E: seq<Option<nat>>, gcm: seq<Option<nat>>, dead: seq<bool>, t: nat)
    requires WfFn(f) && InTree(f, gcm, dead) && InTree(f, E, dead) && t < |f.def| && E[t].Some?
  {
    exists dead0: seq<bool> :: Fewer(dead0, dead) && Chosen(f, E, gcm, dead0, t)
  }

  predicate Fixed(x: Def) {
    x.PhiDef? || x.pinned
  }

  ghost predicate UsesSeen(f: Fn, visit: seq<bool>, t: nat, n: nat)
    requires WfFn(f) && |visit| == |f.def| && t < |f.def| && n <= |f.use[t]|
  {
    forall k: nat :: k < n && f.use[t][k].UIns? && f.use[t][k].to.Some? ==> f.use[t][k].to.value < |visit| && visit[f.use[t][k].to.value]
  }

  // t is finished.
  ghost predicate Done(f: Fn, E: seq<Option<nat>>, gcm: seq<Option<nat>>, visit: seq<bool>, dead: seq<bool>, t: nat)
    requires WfFn(f) && InTree(f, gcm, dead) && InTree(f, E, dead) && |visit| == |f.def| && t < |f.def|
  {
    if E[t].None? then gcm[t].None?
    else
      && UsesSeen(f, visit, t, |f.use[t]|)
      && (if Fixed(f.def[t]) then gcm[t] == Some(f.def[t].bid) else SomeChosen(f, E, gcm, dead, t))
  }

  ghost predicate LateAt(f: Fn, E: seq<Option<nat>>, gcm: seq<Option<nat>>, visit: seq<bool>, dead: seq<bool>, t: nat)
    requires WfFn(f) && InTree(f, gcm, dead) && InTree(f, E, dead) && |visit| == |f.def| && t < |f.def|
  {
    if visit[t] then Done(f, E, gcm, visit, dead, t) else gcm[t] == E[t]
  }

  // t or something that comes later.
  ghost predicate FromOn(f: Fn, t: nat, w: nat)
    requires t < |f.def| && w < |f.def|
  {
    w == t || Lt(f.def[t], f.def[w])
  }

  ghost predicate LateFrom(f: Fn, E: seq<Option<nat>>, gcm: seq<Option<nat>>, visit: seq<bool>, dead: seq<bool>, t: nat)
    requires WfFn(f) && InTree(f, gcm, dead) && InTree(f, E, dead) && |visit| == |f.def| && t < |f.def|
  {
    forall w: nat :: w < |f.def| && FromOn(f, t, w) ==> LateAt(f, E, gcm, visit, dead, w)
  }

  // The same but for t, which is being worked on.
  ghost predicate LateAfter(f: Fn, E: seq<Option<nat>>, gcm: seq<Option<nat>>, visit: seq<bool>, dead: seq<bool>, t: nat)
    requires WfFn(f) && InTree(f, gcm, dead) && InTree(f, E, dead) && |visit| == |f.def| && t < |f.def|
  {
    forall w: nat :: w < |f.def| && FromOn(f, t, w) && w != t ==> LateAt(f, E, gcm, visit, dead, w)
  }

  // Nothing before t was touched and nothing seen was changed.
  ghost predicate LateStep(f: Fn, gcm0: seq<Option<nat>>, visit0: seq<bool>, gcm: seq<Option<nat>>, visit: seq<bool>, t: nat)
    requires t < |f.def|
  {
    && |gcm0| == |gcm| == |visit0| == |visit| == |f.def|
    && (forall w: nat :: w < |f.def| && !FromOn(f, t, w) ==> gcm[w] == gcm0[w] && visit[w] == visit0[w])
    && (forall w: nat :: w < |f.def| && visit0[w] ==> visit[w] && gcm[w] == gcm0[w])
  }

  ghost predicate EarlyAll(f: Fn, E: seq<Option<nat>>) {
    && WfFn(f) && |E| == |f.def|
    && (forall t: nat :: t < |f.def| ==> EarlyAt(f, E, t))
  }

  // ---- stability ----------------------------------------------------------------------------------

  lemma {:induction false} LateSame(f: Fn, gcm0: seq<Option<nat>>, gcm: seq<Option<nat>>, visit: seq<bool>, dead: seq<bool>, t: nat, n: nat)
    requires WfFn(f) && InTree(f, gcm0, dead) && InTree(f, gcm, dead) && |visit| == |f.def| && t < |f.def| && n <= |f.use[t]|
    requires UsesSeen(f, visit, t, n) && forall w: nat :: w < |f.def| && visit[w] ==> gcm[w] == gcm0[w]
    ensures LateOf(f, gcm, dead, t, n) == LateOf(f, gcm0, dead, t, n)
  {
    hide WfFn;
    hide LcaOpt;
    hide PhiLate;
    if n > 0 {
      LateSame(f, gcm0, gcm, visit, dead, t, n - 1);
      UseFits(f, t, n - 1);
    }
  }

  lemma ChosenSame(f: Fn, E: seq<Option<nat>>, gcm0: seq<Option<nat>>, gcm: seq<Option<nat>>, visit: seq<bool>, dead: seq<bool>, t: nat)
    requires WfFn(f) && InTree(f, gcm0, dead) && InTree(f, gcm, dead) && InTree(f, E, dead) && |visit| == |f.def| && t < |f.def|
    requires UsesSeen(f, visit, t, |f.use[t]|) && forall w: nat :: w < |f.def| && visit[w] ==> gcm[w] == gcm0[w]
    requires E[t].Some? && gcm[t] == gcm0[t] && SomeChosen(f, E, gcm0, dead, t)
    ensures SomeChosen(f, E, gcm, dead, t)
  {
    hide LateOf;
    hide IsBest;
    var dead0 :| Fewer(dead0, dead) && Chosen(f, E, gcm0, dead0, t);
    LateSame(f, gcm0, gcm, visit, dead0, t, |f.use[t]|);
    assert Chosen(f, E, gcm, dead0, t);
  }

  lemma DoneKept(f: Fn, E: seq<Option<nat>>, gcm0: seq<Option<nat>>, visit0: seq<bool>, gcm: seq<Option<nat>>, visit: seq<bool>, dead: seq<bool>, t: nat)
    requires WfFn(f) && InTree(f, gcm0, dead) && InTree(f, gcm, dead) && InTree(f, E, dead)
    requires |visit0| == |visit| == |f.def| && t < |f.def|
    requires forall w: nat :: w < |f.def| && visit0[w] ==> visit[w] && gcm[w] == gcm0[w]
    requires visit0[t] && Done(f, E, gcm0, visit0, dead, t)
    ensures Done(f, E, gcm, visit, dead, t)
  {
    hide SomeChosen;
    if E[t].Some? && !Fixed(f.def[t]) {
      ChosenSame(f, E, gcm0, gcm, visit0, dead, t);
    }
  }

  // A search from a later u leaves the rest of t's surroundings in order.
  lemma LateNested(f: Fn, E: seq<Option<nat>>, gcm0: seq<Option<nat>>, visit0: seq<bool>, gcm: seq<Option<nat>>, visit: seq<bool>, dead: seq<bool>, t: nat, u: nat)
    requires WfFn(f) && InTree(f, gcm0, dead) && InTree(f, gcm, dead) && InTree(f, E, dead) && |visit0| == |visit| == |f.def|
    requires t < |f.def| && u < |f.def| && Lt(f.def[t], f.def[u])
    requires LateAfter(f, E, gcm0, visit0, dead, t) && LateStep(f, gcm0, visit0, gcm, visit, u) && LateFrom(f, E, gcm, visit, dead, u)
    ensures LateAfter(f, E, gcm, visit, dead, t) && LateStep(f, gcm0, visit0, gcm, visit, t)
    ensures gcm[t] == gcm0[t] && visit[t] == visit0[t]
  {
    hide WfFn;
    hide Done;
    hide InTree;
    forall w: nat | w < |f.def| && FromOn(f, t, w) && w != t ensures LateAt(f, E, gcm, visit, dead, w) {
      assert LateAt(f, E, gcm0, visit0, dead, w);
      if !FromOn(f, u, w) && visit0[w] {
        DoneKept(f, E, gcm0, visit0, gcm, visit, dead, w);
      }
    }
  }

  lemma LateLess(f: Fn, E: seq<Option<nat>>, gcm: seq<Option<nat>>, visit: seq<bool>, dead: seq<bool>, t: nat, u: nat)
    requires WfFn(f) && InTree(f, gcm, dead) && InTree(f, E, dead) && |visit| == |f.def|
    requires t < |f.def| && u < |f.def| && Lt(f.def[t], f.def[u]) && LateAfter(f, E, gcm, visit, dead, t)
    ensures LateFrom(f, E, gcm, visit, dead, u)
  {
    hide WfFn;
    hide LateAt;
    hide InTree;
  }

  // ---- the early block is above everything late ------------------------------------------------------

  lemma LcaAbove(d: Idom, e: nat, a: Option<nat>, b: Option<nat>)
    requires Complete(d) && (a.Some? ==> a.value < |d| && OnChain(d, e, a.value)) && (b.Some? ==> b.value < |d| && OnChain(d, e, b.value))
    ensures LcaOpt(d, a, b).Some? ==> OnChain(d, e, LcaOpt(d, a, b).value)
  {
    if a.Some? && b.Some? {
      assert Placed(d, a.value) && Placed(d, b.value);
      MeetIsGreatestCommon(d, a.value, b.value);
    }
  }

  lemma LcaBelow(d: Idom, a: Option<nat>, b: Option<nat>)
    requires Complete(d) && (a.Some? ==> a.value < |d|) && (b.Some? ==> b.value < |d|)
    ensures a.Some? ==> OnChain(d, LcaOpt(d, a, b).value, a.value)
    ensures b.Some? ==> OnChain(d, LcaOpt(d, a, b).value, b.value)
  {
    if a.Some? && b.Some? {
      assert Placed(d, a.value) && Placed(d, b.value);
      MeetIsGreatestCommon(d, a.value, b.value);
    }
  }

  lemma LcaIs(d: Idom, a: nat, b: nat, r: nat)
    requires Complete(d) && a < |d| && b < |d| && IsLca(d, a, b, r)
    ensures LcaOpt(d, Some(a), Some(b)) == Some(r)
  {
    assert Placed(d, a) && Placed(d, b);
    MeetIsGreatestCommon(d, a, b);
    ChainLow(d, Meet(d, a, b), r);
    ChainLow(d, r, Meet(d, a, b));
  }

  lemma {:induction false} PhiLateAbove(d: Idom, args: seq<(Option<nat>, nat)>, t: nat, n: nat, e: nat)
    requires Complete(d) && n <= |args| && forall k: nat :: k < |args| ==> args[k].1 < |d|
    requires forall k: nat :: k < |args| && args[k].0 == Some(t) ==> OnChain(d, e, args[k].1)
    ensures PhiLate(d, args, t, n).Some? ==> OnChain(d, e, PhiLate(d, args, t, n).value)
  {
    if n > 0 {
      PhiLateAbove(d, args, t, n - 1, e);
      if args[n - 1].0 == Some(t) {
        LcaAbove(d, e, PhiLate(d, args, t, n - 1), Some(args[n - 1].1));
      }
    }
  }

  lemma {:induction false} PhiLateBelow(d: Idom, args: seq<(Option<nat>, nat)>, t: nat, n: nat, k: nat)
    requires Complete(d) && n <= |args| && (forall k: nat :: k < |args| ==> args[k].1 < |d|)
    requires k < n && args[k].0 == Some(t)
    ensures PhiLate(d, args, t, n).Some? && OnChain(d, PhiLate(d, args, t, n).value, args[k].1)
  {
    if args[n - 1].0 == Some(t) {
      LcaBelow(d, PhiLate(d, args, t, n - 1), Some(args[n - 1].1));
    }
    if k < n - 1 {
      PhiLateBelow(d, args, t, n - 1, k);
      if args[n - 1].0 == Some(t) {
        ChainTrans(d, PhiLate(d, args, t, n).value, PhiLate(d, args, t, n - 1).value, args[k].1);
      }
    }
  }

  // A finished temporary lies below its early block.
  lemma DoneBelowEarly(f: Fn, E: seq<Option<nat>>, gcm: seq<Option<nat>>, visit: seq<bool>, dead: seq<bool>, u: nat)
    requires EarlyAll(f, E) && InTree(f, gcm, dead) && InTree(f, E, dead) && |visit| == |f.def| && u < |f.def|
    requires LateAt(f, E, gcm, visit, dead, u) && gcm[u].Some?
    ensures E[u].Some? && OnChain(f.d, EarlyOf(f, u), gcm[u].value)
  {
    hide EarlyOf;
    hide LateOf;
    assert EarlyAt(f, E, u);
    if !visit[u] {
      assert OnChain(f.d, EarlyOf(f, u), EarlyOf(f, u));
    } else if Fixed(f.def[u]) {
      EarlyIsHigh(f, u);
    } else {
      var dead0 :| Fewer(dead0, dead) && Chosen(f, E, gcm, dead0, u);
    }
  }

  lemma UseAboveEarly(f: Fn, E: seq<Option<nat>>, gcm: seq<Option<nat>>, visit: seq<bool>, dead: seq<bool>, t: nat, k: nat)
    requires EarlyAll(f, E) && InTree(f, gcm, dead) && InTree(f, E, dead) && |visit| == |f.def| && t < |f.def| && k < |f.use[t]|
    requires UseOk(f, t, f.use[t][k])
    requires f.use[t][k].UIns? && f.use[t][k].to.Some? ==> LateAt(f, E, gcm, visit, dead, f.use[t][k].to.value)
    ensures UseLate(f, gcm, dead, t, f.use[t][k]).Some? ==>
              OnChain(f.d, EarlyOf(f, t), UseLate(f, gcm, dead, t, f.use[t][k]).value)
  {
    hide EarlyOf;
    hide LateAt;
    EarlyIsHigh(f, t);
    var x := f.use[t][k];
    match x
    case UIns(b, pin, elim, to) =>
      ChainTrans(f.d, EarlyOf(f, t), f.def[t].bid, b);
      if !pin && gcm[to.value].Some? {
        DoneBelowEarly(f, E, gcm, visit, dead, to.value);
        EarlyBelowOperand(f, to.value, t);
        ChainTrans(f.d, EarlyOf(f, t), EarlyOf(f, to.value), gcm[to.value].value);
      }
    case UJmp(b) =>
      ChainTrans(f.d, EarlyOf(f, t), f.def[t].bid, b);
    case UPhi(p) =>
      forall n: nat | n < |f.phi[p].args| && f.phi[p].args[n].0 == Some(t) ensures OnChain(f.d, EarlyOf(f, t), f.phi[p].args[n].1) {
        ChainTrans(f.d, EarlyOf(f, t), f.def[t].bid, f.phi[p].args[n].1);
      }
      PhiLateAbove(f.d, f.phi[p].args, t, |f.phi[p].args|, EarlyOf(f, t));
  }

  lemma {:induction false} LateAboveEarly(f: Fn, E: seq<Option<nat>>, gcm: seq<Option<nat>>, visit: seq<bool>, dead: seq<bool>, t: nat, n: nat)
    requires EarlyAll(f, E) && InTree(f, gcm, dead) && InTree(f, E, dead) && |visit| == |f.def| && t < |f.def| && n <= |f.use[t]|
    requires UsesSeen(f, visit, t, n) && LateAfter(f, E, gcm, visit, dead, t)
    ensures LateOf(f, gcm, dead, t, n).Some? ==> OnChain(f.d, EarlyOf(f, t), LateOf(f, gcm, dead, t, n).value)
  {
    hide EarlyOf;
    hide LateAt;
    hide UseLate;
    hide UseOk;
    if n > 0 {
      LateAboveEarly(f, E, gcm, visit, dead, t, n - 1);
      UseFits(f, t, n - 1);
      UseLater(f, t, n - 1);
      UseAboveEarly(f, E, gcm, visit, dead, t, n - 1);
      LcaAbove(f.d, EarlyOf(f, t), LateOf(f, gcm, dead, t, n - 1), UseLate(f, gcm, dead, t, f.use[t][n - 1]));
    }
  }

  // The result of an instruction comes later than its operands.
  lemma UseLater(f: Fn, t: nat, k: nat)
    requires WfFn(f) && t < |f.def| && k < |f.use[t]|
    ensures f.use[t][k].UIns? && f.use[t][k].to.Some? ==>
              f.use[t][k].to.value < |f.def| && Lt(f.def[t], f.def[f.use[t][k].to.value])
  {
    UseFits(f, t, k);
    if f.use[t][k].UIns? && f.use[t][k].to.Some? {
      OperandBefore(f, f.use[t][k].to.value, t);
    }
  }

  lemma UseOperand(f: Fn, t: nat, k: nat)
    requires WfFn(f) && t < |f.def| && k < |f.use[t]|
    ensures f.use[t][k].UIns? && f.use[t][k].to.Some? ==>
              f.use[t][k].to.value < |f.def| && Operand(f.def[f.use[t][k].to.value], t)
  {
    UseFits(f, t, k);
  }

  class Late {
    const f: Fn
    ghost const E: seq<Option<nat>>
    var gcm: seq<Option<nat>>
    var visit: seq<bool>
    var dead: seq<bool>          // phis with their arguments dropped

    constructor (f: Fn, E: seq<Option<nat>>)
      ensures this.f == f && this.E == E && gcm == E && |visit| == |f.def| && |dead| == |f.phi|
      ensures (forall t: nat :: t < |visit| ==> !visit[t]) && (forall k: nat :: k < |dead| ==> !dead[k])
    {
      this.f, this.E, gcm := f, E, E;
      visit := seq(|f.def|, _ => false);
      dead := seq(|f.phi|, _ => false);
    }

    ghost predicate Sound()
      reads this
    {
      EarlyAll(f, E) && InTree(f, gcm, dead) && InTree(f, E, dead) && |visit| == |f.def|
    }

    lemma Parts()
      requires Sound()
      ensures EarlyAll(f, E) && WfFn(f) && InTree(f, gcm, dead) && InTree(f, E, dead)
      ensures |visit| == |gcm| == |E| == |f.def| == |f.use| && |dead| == |f.phi| && Complete(f.d) && HasDepth(f.d, f.depth) && |f.loop| == |f.d|
    {
    }

    lemma Make()
      requires EarlyAll(f, E) && InTree(f, gcm, dead) && InTree(f, E, dead) && |visit| == |f.def|
      ensures Sound()
    {
    }

    method LcaBid(a: Option<nat>, b: Option<nat>) returns (r: Option<nat>)
      requires Complete(f.d) && HasDepth(f.d, f.depth) && (a.Some? ==> a.value < |f.d|) && (b.Some? ==> b.value < |f.d|)
      ensures r == LcaOpt(f.d, a, b)
    {
      if a.None? {
        return b;
      }
      if b.None? {
        return a;
      }
      var m := Lca(f.d, f.depth, a.value, b.value);
      LcaIs(f.d, a.value, b.value, m);
      r := Some(m);
    }

    method LatePhi(k: nat, t: nat) returns (r: Option<nat>)
      requires WfFn(f) && |dead| == |f.phi| && k < |f.phi| && forall n: nat :: n < |f.phi[k].args| ==> f.phi[k].args[n].1 < |f.d|
      ensures r == if dead[k] then None else PhiLate(f.d, f.phi[k].args, t, |f.phi[k].args|)
    {
      r := None;
      if dead[k] {
        return;
      }
      var n: nat := 0;
      while n < |f.phi[k].args|
        invariant n <= |f.phi[k].args| && r == PhiLate(f.d, f.phi[k].args, t, n)
      {
        if f.phi[k].args[n].0 == Some(t) {
          r := LcaBid(r, Some(f.phi[k].args[n].1));
        }
        n := n + 1;
      }
    }

    // schedlate, for a temporary.
    method SchedLate(t: nat) returns (r: Option<nat>)
      requires Sound() && t < |f.def| && LateFrom(f, E, gcm, visit, dead, t)
      requires NoConsts(f, visit) && !FromConsts(f, t)
      modifies this`gcm, this`visit
      ensures Sound() && t < |gcm| && t < |visit| && LateFrom(f, E, gcm, visit, dead, t) && NoConsts(f, visit)
      ensures LateStep(f, old(gcm), old(visit), gcm, visit, t) && visit[t] && r == gcm[t]
      decreases |f.d| - f.def[t].bid, PastEnd(f) - Pos(f.def[t]), 1
    {
      hide *;
      Parts();
      if visit[t] {
        StepRefl(f, gcm, visit, t);
        return gcm[t];
      }
      ghost var gcm0, visit0 := gcm, visit;
      NoConstsAdd(f, visit, t);
      visit := visit[t := true];
      Make();
      var early := gcm[t];
      LateUnused(f, E, gcm0, visit0, dead, t);
      if early.None? {
        return None;
      }
      gcm := gcm[t := Some(f.def[t].bid)];
      LateStarted(f, E, gcm0, visit0, dead, t);
      Make();
      var late: Option<nat> := None;
      var k: nat := 0;
      while k < |f.use[t]|
        invariant Sound() && k <= |f.use[t]| && |gcm| == |visit| == |f.def| == |f.use|
        invariant Scanning(f, E, gcm0, visit0, gcm, visit, dead, t, k, late)
        invariant WfFn(f) && NoConsts(f, visit)
        decreases |f.use[t]| - k
      {
        var u := UseBid(t, k, gcm0, visit0, late);
        Parts();
        ScanParts(f, E, gcm0, visit0, gcm, visit, dead, t, k, late, u);
        late := LcaBid(late, u);
        k := k + 1;
      }
      Parts();
      ScanDone(f, E, gcm0, visit0, gcm, visit, dead, t, late);
      if f.def[t].InsDef? && !f.def[t].pinned {
        if late.Some? {
          var m := BestBid(f.d, f.loop, early.value, late.value);
          FinishBest(f, E, gcm0, visit0, gcm, visit, dead, t, late, Some(m));
          gcm := gcm[t := Some(m)];
        } else {
          FinishBest(f, E, gcm0, visit0, gcm, visit, dead, t, late, None);
          gcm := gcm[t := None];
        }
        Make();
      } else {
        FinishFixed(f, E, gcm0, visit0, gcm, visit, dead, t, late);
      }
      Parts();
      r := gcm[t];
    }

    // One use: latejmp, latephi or lateins.
    method UseBid(t: nat, k: nat, ghost gcm0: seq<Option<nat>>, ghost visit0: seq<bool>, ghost late: Option<nat>) returns (u: Option<nat>)
      requires Sound() && t < |f.def| == |f.use| && k < |f.use[t]| && Scanning(f, E, gcm0, visit0, gcm, visit, dead, t, k, late)
      requires WfFn(f) && NoConsts(f, visit) && !FromConsts(f, t)
      modifies this`gcm, this`visit
      ensures Sound() && Scanned(f, E, gcm0, visit0, gcm, visit, dead, t, k, late, u)
      ensures NoConsts(f, visit)
      decreases |f.d| - f.def[t].bid, PastEnd(f) - Pos(f.def[t]), 0
    {
      hide *;
      Parts();
      UseShape(f, t, k);
      var x := f.use[t][k];
      match x {
        case UJmp(b) =>
          u := Some(b);
          UseIsJmp(f, gcm, dead, t, b);
        case UPhi(p) =>
          u := LatePhi(p, t);
          UseIsPhi(f, gcm, dead, t, p);
        case UIns(b, pin, elim, to) =>
          var l: Option<nat> := None;
          if to.Some? {
            UseLater(f, t, k);
            UseOperand(f, t, k);
            ConstsUse(f, t, to.value);
            NearerEnd(f, t, to.value);
            ScanNested(f, E, gcm0, visit0, gcm, visit, dead, t, k, late, to.value);
            ghost var gcm1, visit1 := gcm, visit;
            l := SchedLate(to.value);
            Parts();
            ScanResumed(f, E, gcm0, visit0, gcm1, visit1, gcm, visit, dead, t, k, late, to.value);
          }
          u := if !pin then l else if l.None? && elim then None else Some(b);
          UseIsIns(f, gcm, dead, t, b, pin, elim, to);
      }
      Parts();
      ScanOne(f, E, gcm0, visit0, gcm, visit, dead, t, k, late, u);
    }
  }

  // More than any place in a block.
  ghost function PastEnd(f: Fn): (n: nat)
    ensures forall t: nat :: t < |f.def| ==> Pos(f.def[t]) < n
  {
    AboveTo(f.def, |f.def|)
  }

  ghost function AboveTo(def: seq<Def>, k: nat): (n: nat)
    requires k <= |def|
    ensures forall t: nat :: t < k ==> Pos(def[t]) < n
  {
    if k == 0 then 0
    else
      var m := AboveTo(def, k - 1);
      if Pos(def[k - 1]) < m then m else Pos(def[k - 1]) + 1
  }

  lemma NearerEnd(f: Fn, t: nat, u: nat)
    requires WfFn(f) && t < |f.def| && u < |f.def| && Lt(f.def[t], f.def[u])
    ensures 0 <= |f.d| - f.def[u].bid < |f.d| - f.def[t].bid
            || (f.def[u].bid == f.def[t].bid && 0 <= PastEnd(f) - Pos(f.def[u]) < PastEnd(f) - Pos(f.def[t]))
  {
    assert f.def[u].bid < |f.d|;
  }

  // Marking t when the early phase never met it.
  lemma LateUnused(f: Fn, E: seq<Option<nat>>, gcm0: seq<Option<nat>>, visit0: seq<bool>, dead: seq<bool>, t: nat)
    requires WfFn(f) && InTree(f, gcm0, dead) && InTree(f, E, dead) && |visit0| == |f.def| && t < |f.def| && !visit0[t]
    requires LateFrom(f, E, gcm0, visit0, dead, t)
    ensures gcm0[t] == E[t]
    ensures gcm0[t].None? ==> LateFrom(f, E, gcm0, visit0[t := true], dead, t)
    ensures gcm0[t].None? ==> LateStep(f, gcm0, visit0, gcm0, visit0[t := true], t)
  {
    hide WfFn;
    assert LateAt(f, E, gcm0, visit0, dead, t);
    if gcm0[t].None? {
      var visit := visit0[t := true];
      forall w: nat | w < |f.def| && FromOn(f, t, w) ensures LateAt(f, E, gcm0, visit, dead, w) {
        assert LateAt(f, E, gcm0, visit0, dead, w);
        if visit0[w] {
          DoneKeptIf(f, E, gcm0, visit0, visit, dead, w);
        }
      }
    }
  }

  lemma DoneKeptIf(f: Fn, E: seq<Option<nat>>, gcm: seq<Option<nat>>, visit0: seq<bool>, visit: seq<bool>, dead: seq<bool>, w: nat)
    requires WfFn(f) && InTree(f, gcm, dead) && InTree(f, E, dead) && |visit0| == |visit| == |f.def| && w < |f.def|
    requires forall x: nat :: x < |f.def| && visit0[x] ==> visit[x]
    requires Done(f, E, gcm, visit0, dead, w) && visit0[w]
    ensures Done(f, E, gcm, visit, dead, w)
  {
    hide WfFn;
    DoneKept(f, E, gcm, visit0, gcm, visit, dead, w);
  }

  // The uses of t before the k-th have been looked at; late is where they meet.
  ghost predicate Scanning(f: Fn, E: seq<Option<nat>>, gcm0: seq<Option<nat>>, visit0: seq<bool>,
                           gcm: seq<Option<nat>>, visit: seq<bool>, dead: seq<bool>, t: nat, k: nat, late: Option<nat>) {
    && EarlyAll(f, E) && InTree(f, gcm, dead) && InTree(f, E, dead) && |visit| == |f.def| && t < |f.def| && k <= |f.use[t]|
    && |gcm0| == |visit0| == |f.def| && !visit0[t] && E[t].Some? && visit[t] && gcm[t] == Some(f.def[t].bid)
    && LateAfter(f, E, gcm, visit, dead, t) && LateStep(f, gcm0, visit0, gcm, visit, t)
    && UsesSeen(f, visit, t, k) && late == LateOf(f, gcm, dead, t, k)
  }

  // And now the k-th use, at u.
  ghost predicate Scanned(f: Fn, E: seq<Option<nat>>, gcm0: seq<Option<nat>>, visit0: seq<bool>,
                          gcm: seq<Option<nat>>, visit: seq<bool>, dead: seq<bool>, t: nat, k: nat, late: Option<nat>, u: Option<nat>) {
    && Scanning(f, E, gcm0, visit0, gcm, visit, dead, t, k, late) && k < |f.use[t]|
    && UsesSeen(f, visit, t, k + 1) && UseOk(f, t, f.use[t][k]) && u == UseLate(f, gcm, dead, t, f.use[t][k])
  }

  lemma LateStarted(f: Fn, E: seq<Option<nat>>, gcm0: seq<Option<nat>>, visit0: seq<bool>, dead: seq<bool>, t: nat)
    requires EarlyAll(f, E) && InTree(f, gcm0, dead) && InTree(f, E, dead) && |visit0| == |f.def| && t < |f.def| && !visit0[t]
    requires LateFrom(f, E, gcm0, visit0, dead, t) && E[t].Some?
    ensures Scanning(f, E, gcm0, visit0, gcm0[t := Some(f.def[t].bid)], visit0[t := true], dead, t, 0, None)
  {
    var gcm, visit := gcm0[t := Some(f.def[t].bid)], visit0[t := true];
    assert f.def[t].bid < |f.d|;
    hide WfFn;
    forall w: nat | w < |f.def| && FromOn(f, t, w) && w != t ensures LateAt(f, E, gcm, visit, dead, w) {
      assert LateAt(f, E, gcm0, visit0, dead, w);
      if visit0[w] {
        DoneKept(f, E, gcm0, visit0, gcm, visit, dead, w);
      }
    }
  }

  lemma UseShape(f: Fn, t: nat, k: nat)
    requires WfFn(f) && t < |f.def| && k < |f.use[t]|
    ensures UseOk(f, t, f.use[t][k])
    ensures f.use[t][k].UPhi? ==> f.use[t][k].phi < |f.phi| && forall n: nat :: n < |f.phi[f.use[t][k].phi].args| ==> f.phi[f.use[t][k].phi].args[n].1 < |f.d|
  {
    UseFits(f, t, k);
  }

  lemma ScanNested(f: Fn, E: seq<Option<nat>>, gcm0: seq<Option<nat>>, visit0: seq<bool>,
                   gcm: seq<Option<nat>>, visit: seq<bool>, dead: seq<bool>, t: nat, k: nat, late: Option<nat>, u: nat)
    requires Scanning(f, E, gcm0, visit0, gcm, visit, dead, t, k, late) && u < |f.def| && Lt(f.def[t], f.def[u])
    ensures LateFrom(f, E, gcm, visit, dead, u)
  {
    hide WfFn;
    LateLess(f, E, gcm, visit, dead, t, u);
  }

  lemma ScanResumed(f: Fn, E: seq<Option<nat>>, gcm0: seq<Option<nat>>, visit0: seq<bool>, gcm1: seq<Option<nat>>, visit1: seq<bool>,
                    gcm: seq<Option<nat>>, visit: seq<bool>, dead: seq<bool>, t: nat, k: nat, late: Option<nat>, u: nat)
    requires Scanning(f, E, gcm0, visit0, gcm1, visit1, dead, t, k, late) && u < |f.def| && Lt(f.def[t], f.def[u])
    requires InTree(f, gcm, dead) && |visit| == |f.def| && LateFrom(f, E, gcm, visit, dead, u)
    requires LateStep(f, gcm1, visit1, gcm, visit, u) && visit[u]
    ensures Scanning(f, E, gcm0, visit0, gcm, visit, dead, t, k, late)
  {
    hide LateOf;
    hide LateAt;
    hide EarlyAt;
    hide DefOk;
    hide UseOk;
    hide BlkOk;
    LateNested(f, E, gcm1, visit1, gcm, visit, dead, t, u);
    LateSame(f, gcm1, gcm, visit1, dead, t, k);
  }

  // What the three cases of the switch compute.
  ghost predicate UseIs(f: Fn, gcm: seq<Option<nat>>, dead: seq<bool>, t: nat, x: Use, u: Option<nat>)
    requires Complete(f.d)
  {
    if x.UJmp? then u == Some(x.b)
    else if x.UPhi? then
      var p := x.phi;
      && p < |dead| && p < |f.phi| && (forall n: nat :: n < |f.phi[p].args| ==> f.phi[p].args[n].1 < |f.d|)
      && u == if dead[p] then None else PhiLate(f.d, f.phi[p].args, t, |f.phi[p].args|)
    else
      && (x.to.Some? ==> x.to.value < |gcm|)
      && u == if !x.pin then (if x.to.Some? then gcm[x.to.value] else None)
              else if (x.to.None? || gcm[x.to.value].None?) && x.canelim then None else Some(x.b)
  }

  lemma ScanOne(f: Fn, E: seq<Option<nat>>, gcm0: seq<Option<nat>>, visit0: seq<bool>,
                gcm: seq<Option<nat>>, visit: seq<bool>, dead: seq<bool>, t: nat, k: nat, late: Option<nat>, u: Option<nat>)
    requires Complete(f.d) && t < |f.use|
    requires Scanning(f, E, gcm0, visit0, gcm, visit, dead, t, k, late) && k < |f.use[t]| && UseOk(f, t, f.use[t][k])
    requires f.use[t][k].UIns? && f.use[t][k].to.Some? ==> f.use[t][k].to.value < |visit| && visit[f.use[t][k].to.value]
    requires UseIs(f, gcm, dead, t, f.use[t][k], u)
    ensures Scanned(f, E, gcm0, visit0, gcm, visit, dead, t, k, late, u)
  {
    hide LateOf;
    hide LateAt;
    hide EarlyAt;
    hide DefOk;
    hide BlkOk;
  }

  lemma ScanParts(f: Fn, E: seq<Option<nat>>, gcm0: seq<Option<nat>>, visit0: seq<bool>,
                  gcm: seq<Option<nat>>, visit: seq<bool>, dead: seq<bool>, t: nat, k: nat, late: Option<nat>, u: Option<nat>)
    requires Scanned(f, E, gcm0, visit0, gcm, visit, dead, t, k, late, u)
    ensures Complete(f.d) && (late.Some? ==> late.value < |f.d|) && (u.Some? ==> u.value < |f.d|)
    ensures Scanning(f, E, gcm0, visit0, gcm, visit, dead, t, k + 1, LcaOpt(f.d, late, u))
  {
    hide LateAt;
    hide EarlyAt;
    hide DefOk;
    hide BlkOk;
    hide LcaOpt;
  }

  lemma ScanDone(f: Fn, E: seq<Option<nat>>, gcm0: seq<Option<nat>>, visit0: seq<bool>,
                 gcm: seq<Option<nat>>, visit: seq<bool>, dead: seq<bool>, t: nat, late: Option<nat>)
    requires t < |f.use| && Scanning(f, E, gcm0, visit0, gcm, visit, dead, t, |f.use[t]|, late)
    ensures E[t].Some? && Complete(f.d) && E[t].value < |f.d|
    ensures late.Some? ==> late.value < |f.d| && OnChain(f.d, E[t].value, late.value)
    ensures t < |visit| && visit[t] && t < |gcm| && (Fixed(f.def[t]) <==> f.def[t].PhiDef? || f.def[t].pinned)
  {
    hide EarlyOf;
    hide LateOf;
    hide LateAt;
    hide DefOk;
    hide UseOk;
    hide BlkOk;
    assert EarlyAt(f, E, t);
    LateAboveEarly(f, E, gcm, visit, dead, t, |f.use[t]|);
  }

  lemma FinishBest(f: Fn, E: seq<Option<nat>>, gcm0: seq<Option<nat>>, visit0: seq<bool>,
                   gcm: seq<Option<nat>>, visit: seq<bool>, dead: seq<bool>, t: nat, late: Option<nat>, m: Option<nat>)
    requires t < |f.use| && Scanning(f, E, gcm0, visit0, gcm, visit, dead, t, |f.use[t]|, late) && !Fixed(f.def[t])
    requires Complete(f.d) && |f.loop| == |f.d| && (late.Some? ==> late.value < |f.d|) && E[t].Some?
    requires late.None? <==> m.None?
    requires m.Some? ==> IsBest(f.d, f.loop, E[t].value, late.value, m.value)
    ensures t < |gcm| && InTree(f, gcm[t := m], dead) && LateFrom(f, E, gcm[t := m], visit, dead, t)
    ensures LateStep(f, gcm0, visit0, gcm[t := m], visit, t)
  {
    hide LateOf;
    hide EarlyAt;
    hide DefOk;
    hide UseOk;
    hide BlkOk;
    hide Done;
    var gcm' := gcm[t := m];
    NotItself(f, gcm, gcm', visit, dead, t, |f.use[t]|);
    FewerRefl(dead);
    assert Chosen(f, E, gcm', dead, t);
    FinishRest(f, E, gcm, gcm', visit, dead, t);
    DoneNow(f, E, gcm', visit, dead, t);
  }

  lemma DoneNow(f: Fn, E: seq<Option<nat>>, gcm: seq<Option<nat>>, visit: seq<bool>, dead: seq<bool>, t: nat)
    requires WfFn(f) && InTree(f, gcm, dead) && InTree(f, E, dead) && |visit| == |f.def| && t < |f.def|
    requires E[t].Some? && UsesSeen(f, visit, t, |f.use[t]|)
    requires if Fixed(f.def[t]) then gcm[t] == Some(f.def[t].bid) else Fewer(dead, dead) && Chosen(f, E, gcm, dead, t)
    ensures Done(f, E, gcm, visit, dead, t)
  {
    hide Chosen;
  }

  // No use of t is t itself.
  lemma {:induction false} NotItself(f: Fn, gcm: seq<Option<nat>>, gcm': seq<Option<nat>>, visit: seq<bool>, dead: seq<bool>, t: nat, n: nat)
    requires WfFn(f) && InTree(f, gcm, dead) && InTree(f, gcm', dead) && t < |f.def| && n <= |f.use[t]|
    requires forall w: nat :: w < |f.def| && w != t ==> gcm'[w] == gcm[w]
    ensures LateOf(f, gcm', dead, t, n) == LateOf(f, gcm, dead, t, n)
  {
    hide LcaOpt;
    hide PhiLate;
    hide DefOk;
    hide BlkOk;
    hide UseOk;
    hide UseLate;
    if n > 0 {
      NotItself(f, gcm, gcm', visit, dead, t, n - 1);
      UseLater(f, t, n - 1);
      UseFits(f, t, n - 1);
      UseSame(f, gcm, gcm', dead, t, f.use[t][n - 1]);
    }
  }

  // Settling t changes nothing that comes later: nothing later has t as a use.
  lemma FinishRest(f: Fn, E: seq<Option<nat>>, gcm: seq<Option<nat>>, gcm': seq<Option<nat>>, visit: seq<bool>, dead: seq<bool>, t: nat)
    requires WfFn(f) && InTree(f, gcm, dead) && InTree(f, gcm', dead) && InTree(f, E, dead) && |visit| == |f.def| && t < |f.def|
    requires LateAfter(f, E, gcm, visit, dead, t) && forall w: nat :: w < |f.def| && w != t ==> gcm'[w] == gcm[w]
    ensures LateAfter(f, E, gcm', visit, dead, t)
  {
    hide DefOk;
    hide UseOk;
    hide BlkOk;
    hide LateOf;
    forall w: nat | w < |f.def| && FromOn(f, t, w) && w != t ensures LateAt(f, E, gcm', visit, dead, w) {
      assert LateAt(f, E, gcm, visit, dead, w);
      if visit[w] && E[w].Some? && !Fixed(f.def[w]) {
        var dead0 :| Fewer(dead0, dead) && Chosen(f, E, gcm, dead0, w);
        LateApart(f, gcm, gcm', dead0, w, |f.use[w]|, t);
        assert Chosen(f, E, gcm', dead0, w);
      }
    }
  }

  lemma {:induction false} LateApart(f: Fn, gcm: seq<Option<nat>>, gcm': seq<Option<nat>>, dead: seq<bool>, w: nat, n: nat, t: nat)
    requires WfFn(f) && InTree(f, gcm, dead) && InTree(f, gcm', dead) && w < |f.def| && n <= |f.use[w]| && t < |f.def|
    requires Lt(f.def[t], f.def[w]) && forall x: nat :: x < |f.def| && x != t ==> gcm'[x] == gcm[x]
    ensures LateOf(f, gcm', dead, w, n) == LateOf(f, gcm, dead, w, n)
  {
    hide LcaOpt;
    hide PhiLate;
    hide DefOk;
    hide BlkOk;
    hide UseOk;
    hide UseLate;
    if n > 0 {
      LateApart(f, gcm, gcm', dead, w, n - 1, t);
      UseLater(f, w, n - 1);
      UseFits(f, w, n - 1);
      UseSame(f, gcm, gcm', dead, w, f.use[w][n - 1]);
    }
  }

  lemma UseSame(f: Fn, gcm: seq<Option<nat>>, gcm': seq<Option<nat>>, dead: seq<bool>, t: nat, u: Use)
    requires WfFn(f) && InTree(f, gcm, dead) && InTree(f, gcm', dead) && t < |f.def| && UseOk(f, t, u)
    requires u.UIns? && u.to.Some? ==> u.to.value < |f.def| && gcm'[u.to.value] == gcm[u.to.value]
    ensures UseLate(f, gcm', dead, t, u) == UseLate(f, gcm, dead, t, u)
  {
    hide PhiLate;
    hide DefOk;
    hide BlkOk;
  }

  lemma FinishFixed(f: Fn, E: seq<Option<nat>>, gcm0: seq<Option<nat>>, visit0: seq<bool>,
                    gcm: seq<Option<nat>>, visit: seq<bool>, dead: seq<bool>, t: nat, late: Option<nat>)
    requires t < |f.use| && Scanning(f, E, gcm0, visit0, gcm, visit, dead, t, |f.use[t]|, late)
    requires f.def[t].PhiDef? || f.def[t].pinned
    ensures LateFrom(f, E, gcm, visit, dead, t) && LateStep(f, gcm0, visit0, gcm, visit, t)
  {
    hide LateOf;
    hide EarlyAt;
    hide DefOk;
    hide UseOk;
    hide BlkOk;
    hide Done;
    DoneNow(f, E, gcm, visit, dead, t);
  }

  // ---- gcm: both phases over all blocks -----------------------------------------------------------

  // The block contents and the use lists list everything that reads a temporary.
  ghost predicate Listed(f: Fn)
    requires WfFn(f)
  {
    && (forall u: nat :: u < |f.def| && f.def[u].InsDef? && f.def[u].pinned ==> PinListed(f, u))
    && (forall k: nat, n: nat :: k < |f.phi| && n < |f.phi[k].args| && f.phi[k].args[n].0.Some? ==> PhiListed(f, k, f.phi[k].args[n].0.value))
    && (forall b: nat :: b < |f.blk| && f.blk[b].jmp.Some? ==> UJmp(b) in f.use[f.blk[b].jmp.value])
    && (forall t: nat :: t < |f.def| && f.def[t].PhiDef? ==> PhiHome(f, t))
  }

  ghost predicate PhiHome(f: Fn, t: nat)
    requires WfFn(f)
  {
    exists b: nat, k: nat :: b < |f.blk| && k < |f.blk[b].phis| && f.blk[b].phis[k] < |f.phi| && f.phi[f.blk[b].phis[k]].to == t
  }

  ghost predicate PinListed(f: Fn, u: nat)
    requires u < |f.def| && f.def[u].InsDef?
  {
    exists b: nat, k: nat :: b < |f.blk| && k < |f.blk[b].pins| && f.blk[b].pins[k] == Pin(f.def[u].a0, f.def[u].a1, Some(u))
  }

  ghost predicate PhiListed(f: Fn, k: nat, t: nat) {
    t < |f.use| && UPhi(k) in f.use[t] && exists b: nat :: b < |f.blk| && k in f.blk[b].phis
  }

  ghost predicate Has(E: seq<Option<nat>>, r: Option<nat>) {
    r.Some? ==> r.value < |E| && E[r.value].Some?
  }

  // Everything the phis, pinned instructions and jump of a block read has an early block.
  ghost predicate Rooted(f: Fn, E: seq<Option<nat>>, x: Blk) {
    && (forall k: nat :: k < |x.phis| ==> PhiRooted(f, E, x.phis[k]))
    && (forall k: nat :: k < |x.pins| ==> Has(E, x.pins[k].a0) && Has(E, x.pins[k].a1))
    && Has(E, x.jmp)
  }

  ghost predicate PhiRooted(f: Fn, E: seq<Option<nat>>, k: nat) {
    k < |f.phi| && forall n: nat :: n < |f.phi[k].args| ==> Has(E, f.phi[k].args[n].0)
  }

  ghost predicate Grows(E0: seq<Option<nat>>, E: seq<Option<nat>>) {
    |E0| == |E| && forall t: nat :: t < |E| && E0[t].Some? ==> E[t].Some?
  }

  lemma RootedGrows(f: Fn, E0: seq<Option<nat>>, E: seq<Option<nat>>, x: Blk)
    requires Rooted(f, E0, x) && Grows(E0, E)
    ensures Rooted(f, E, x)
  {
    forall k: nat | k < |x.phis| ensures PhiRooted(f, E, x.phis[k]) {
      assert PhiRooted(f, E0, x.phis[k]);
    }
  }

  lemma AllAfter(f: Fn, E0: seq<Option<nat>>, E: seq<Option<nat>>, t: nat)
    requires EarlyAll(f, E0) && t < |f.def| && EarlyStep(f, E0, E, t) && EarlyBelow(f, E, t)
    ensures EarlyAll(f, E) && Grows(E0, E)
  {
    hide WfFn;
    hide EarlyOf;
    forall w: nat | w < |f.def| ensures EarlyAt(f, E, w) {
      if !UpTo(f, t, w) {
        assert EarlyAt(f, E0, w);
      }
    }
  }

  // The early phase on one reference.
  method EarlyOn(e: Early, r: Option<nat>)
    requires EarlyAll(e.f, e.gcm) && RefOk(e.f, r)
    modifies e`gcm
    ensures EarlyAll(e.f, e.gcm) && Grows(old(e.gcm), e.gcm) && Has(e.gcm, r)
  {
    if r.Some? {
      hide WfFn;
      hide EarlyAt;
      AllBelow(e.f, e.gcm, r.value);
      ghost var E0 := e.gcm;
      var _ := e.SchedEarly(r.value);
      AllAfter(e.f, E0, e.gcm, r.value);
    }
  }

  // earlyblk
  method EarlyBlk(e: Early, b: nat)
    requires EarlyAll(e.f, e.gcm) && b < |e.f.blk|
    modifies e`gcm
    ensures EarlyAll(e.f, e.gcm) && Grows(old(e.gcm), e.gcm) && Rooted(e.f, e.gcm, e.f.blk[b])
  {
    hide WfFn;
    hide EarlyAt;
    var f := e.f;
    var x := f.blk[b];
    BlkParts(f, b);
    var k: nat := 0;
    while k < |x.phis|
      invariant k <= |x.phis| && EarlyAll(f, e.gcm) && Grows(old(e.gcm), e.gcm)
      invariant forall j: nat :: j < k ==> PhiRooted(f, e.gcm, x.phis[j])
    {
      var n: nat := 0;
      while n < |f.phi[x.phis[k]].args|
        invariant n <= |f.phi[x.phis[k]].args| && EarlyAll(f, e.gcm) && Grows(old(e.gcm), e.gcm)
        invariant forall j: nat :: j < k ==> PhiRooted(f, e.gcm, x.phis[j])
        invariant forall m: nat :: m < n ==> Has(e.gcm, f.phi[x.phis[k]].args[m].0)
      {
        ghost var E0 := e.gcm;
        EarlyOn(e, f.phi[x.phis[k]].args[n].0);
        forall j: nat | j < k ensures PhiRooted(f, e.gcm, x.phis[j]) {
          assert PhiRooted(f, E0, x.phis[j]);
        }
        n := n + 1;
      }
      k := k + 1;
    }
    k := 0;
    while k < |x.pins|
      invariant k <= |x.pins| && EarlyAll(f, e.gcm) && Grows(old(e.gcm), e.gcm)
      invariant forall j: nat :: j < |x.phis| ==> PhiRooted(f, e.gcm, x.phis[j])
      invariant forall j: nat :: j < k ==> Has(e.gcm, x.pins[j].a0) && Has(e.gcm, x.pins[j].a1)
    {
      ghost var E0 := e.gcm;
      EarlyOn(e, x.pins[k].a0);
      EarlyOn(e, x.pins[k].a1);
      forall j: nat | j < |x.phis| ensures PhiRooted(f, e.gcm, x.phis[j]) {
        assert PhiRooted(f, E0, x.phis[j]);
      }
      k := k + 1;
    }
    ghost var E1 := e.gcm;
    EarlyOn(e, x.jmp);
    forall j: nat | j < |x.phis| ensures PhiRooted(f, e.gcm, x.phis[j]) {
      assert PhiRooted(f, E1, x.phis[j]);
    }
  }

  lemma BlkParts(f: Fn, b: nat)
    requires WfFn(f) && b < |f.blk|
    ensures var x := f.blk[b];
            && (forall k: nat :: k < |x.phis| ==> x.phis[k] < |f.phi| && f.phi[x.phis[k]].to < |f.def|)
            && (forall k: nat, n: nat :: k < |x.phis| && n < |f.phi[x.phis[k]].args| ==> RefOk(f, f.phi[x.phis[k]].args[n].0))
            && (forall k: nat :: k < |x.pins| ==> RefOk(f, x.pins[k].a0) && RefOk(f, x.pins[k].a1) && RefOk(f, x.pins[k].to))
            && (forall k: nat :: k < |x.pins| && x.pins[k].to.Some? ==> Fixed(f.def[x.pins[k].to.value]))
            && RefOk(f, x.jmp)
  {
    assert BlkOk(f, f.blk[b]);
    var x := f.blk[b];
    forall k: nat, n: nat | k < |x.phis| && n < |f.phi[x.phis[k]].args| ensures RefOk(f, f.phi[x.phis[k]].args[n].0) {
      assert PhiOk(f, f.phi[x.phis[k]]);
    }
  }

  // Between two searches of the late phase.
  ghost predicate LateAll(f: Fn, E: seq<Option<nat>>, gcm: seq<Option<nat>>, visit: seq<bool>, dead: seq<bool>) {
    && EarlyAll(f, E) && InTree(f, gcm, dead) && InTree(f, E, dead) && |visit| == |f.def|
    && (forall t: nat :: t < |f.def| ==> LateAt(f, E, gcm, visit, dead, t))
    && (forall k: nat :: k < |f.phi| && dead[k] ==> f.phi[k].to < |f.def| && E[f.phi[k].to].None?)
  }

  lemma LateAllStep(f: Fn, E: seq<Option<nat>>, gcm0: seq<Option<nat>>, visit0: seq<bool>, gcm: seq<Option<nat>>, visit: seq<bool>, dead: seq<bool>, t: nat)
    requires LateAll(f, E, gcm0, visit0, dead) && InTree(f, gcm, dead) && |visit| == |f.def| && t < |f.def|
    requires LateStep(f, gcm0, visit0, gcm, visit, t) && LateFrom(f, E, gcm, visit, dead, t)
    ensures LateAll(f, E, gcm, visit, dead)
    ensures visit[t] && gcm[t].None? && Fixed(f.def[t]) ==> E[t].None?
  {
    hide WfFn;
    hide EarlyAt;
    hide InTree;
    forall w: nat | w < |f.def| ensures LateAt(f, E, gcm, visit, dead, w) {
      assert LateAt(f, E, gcm0, visit0, dead, w);
      if !FromOn(f, t, w) && visit0[w] {
        DoneKept(f, E, gcm0, visit0, gcm, visit, dead, w);
      }
    }
    assert LateAt(f, E, gcm, visit, dead, t);
  }

  // A phi nobody needs loses its arguments.
  lemma LateDead(f: Fn, E: seq<Option<nat>>, gcm: seq<Option<nat>>, visit: seq<bool>, dead: seq<bool>, k: nat)
    requires LateAll(f, E, gcm, visit, dead) && k < |f.phi| && k < |dead| && f.phi[k].to < |f.def| && E[f.phi[k].to].None?
    ensures LateAll(f, E, gcm, visit, dead[k := true])
  {
    hide WfFn;
    hide EarlyAt;
    hide Chosen;
    var dead' := dead[k := true];
    forall w: nat | w < |f.def| ensures LateAt(f, E, gcm, visit, dead', w) {
      assert LateAt(f, E, gcm, visit, dead, w);
      if visit[w] && E[w].Some? && !Fixed(f.def[w]) {
        var dead0 :| Fewer(dead0, dead) && Chosen(f, E, gcm, dead0, w);
        assert Fewer(dead0, dead');
      }
    }
  }

  predicate Marked(visit: seq<bool>, t: nat) {
    t < |visit| && visit[t]
  }

  ghost predicate MarksGrow(visit0: seq<bool>, visit: seq<bool>) {
    |visit0| == |visit| && forall t: nat :: Marked(visit0, t) ==> Marked(visit, t)
  }

  // The phis and the pinned results of a block have been visited.
  ghost predicate BlkSeen(f: Fn, visit: seq<bool>, x: Blk) {
    && (forall k: nat :: k < |x.phis| ==> PhiSeen(f, visit, x.phis[k]))
    && (forall k: nat :: k < |x.pins| ==> PinSeen(visit, x.pins[k].to))
  }

  predicate PhiSeen(f: Fn, visit: seq<bool>, p: nat) {
    p < |f.phi| && Marked(visit, f.phi[p].to)
  }

  predicate PinSeen(visit: seq<bool>, r: Option<nat>) {
    r.Some? ==> Marked(visit, r.value)
  }

  lemma SeenGrows(f: Fn, visit0: seq<bool>, visit: seq<bool>, x: Blk)
    requires MarksGrow(visit0, visit)
    ensures forall p: nat :: PhiSeen(f, visit0, p) ==> PhiSeen(f, visit, p)
    ensures forall r: Option<nat> :: PinSeen(visit0, r) ==> PinSeen(visit, r)
    ensures BlkSeen(f, visit0, x) ==> BlkSeen(f, visit, x)
  {
    hide Marked;
  }

  // lateblk
  method LateBlk(l: Late, b: nat)
    requires LateAll(l.f, l.E, l.gcm, l.visit, l.dead) && b < |l.f.blk| && WfFn(l.f) && NoConsts(l.f, l.visit)
    modifies l
    ensures LateAll(l.f, l.E, l.gcm, l.visit, l.dead) && NoConsts(l.f, l.visit)
    ensures MarksGrow(old(l.visit), l.visit) && BlkSeen(l.f, l.visit, l.f.blk[b])
  {
    hide *;
    var f := l.f;
    var x := f.blk[b];
    LateWf(f, l.E, l.gcm, l.visit, l.dead);
    BlkParts(f, b);
    MarksSame(l.visit);
    var k: nat := 0;
    while k < |x.phis|
      invariant k <= |x.phis| && LateAll(f, l.E, l.gcm, l.visit, l.dead) && NoConsts(f, l.visit)
      invariant MarksGrow(old(l.visit), l.visit)
      invariant forall j: nat :: j < k ==> PhiSeen(f, l.visit, x.phis[j])
    {
      LateWf(f, l.E, l.gcm, l.visit, l.dead);
      PhiIsFixed(f, b, k);
      ghost var visit0 := l.visit;
      var r := LateOn(l, f.phi[x.phis[k]].to);
      SeenGrows(f, visit0, l.visit, x);
      GrowTrans(old(l.visit), visit0, l.visit);
      SeenIs(f, l.visit, x.phis[k]);
      if r.None? {
        LateWf(f, l.E, l.gcm, l.visit, l.dead);
        LateDead(f, l.E, l.gcm, l.visit, l.dead, x.phis[k]);
        l.dead := l.dead[x.phis[k] := true];
      }
      k := k + 1;
    }
    k := 0;
    while k < |x.pins|
      invariant k <= |x.pins| && LateAll(f, l.E, l.gcm, l.visit, l.dead) && NoConsts(f, l.visit)
      invariant MarksGrow(old(l.visit), l.visit)
      invariant forall j: nat :: j < |x.phis| ==> PhiSeen(f, l.visit, x.phis[j])
      invariant forall j: nat :: j < k ==> PinSeen(l.visit, x.pins[j].to)
    {
      RefIn(f, x.pins[k].to);
      ghost var visit0 := l.visit;
      if x.pins[k].to.Some? {
        var _ := LateOn(l, x.pins[k].to.value);
      } else {
        MarksSame(l.visit);
      }
      SeenGrows(f, visit0, l.visit, x);
      GrowTrans(old(l.visit), visit0, l.visit);
      PinSeenIs(l.visit, x.pins[k].to);
      k := k + 1;
    }
    BlkSeenIs(f, l.visit, x);
  }

  method LateOn(l: Late, t: nat) returns (r: Option<nat>)
    requires LateAll(l.f, l.E, l.gcm, l.visit, l.dead) && t < |l.f.def| && Fixed(l.f.def[t])
    requires WfFn(l.f) && NoConsts(l.f, l.visit)
    modifies l`gcm, l`visit
    ensures LateAll(l.f, l.E, l.gcm, l.visit, l.dead) && NoConsts(l.f, l.visit)
    ensures MarksGrow(old(l.visit), l.visit) && Marked(l.visit, t)
    ensures r.None? ==> t < |l.E| && l.E[t].None?
  {
    hide *;
    LateWf(l.f, l.E, l.gcm, l.visit, l.dead);
    LateAllFrom(l.f, l.E, l.gcm, l.visit, l.dead, t);
    l.Make();
    FixedNotConsts(l.f, t);
    ghost var gcm0, visit0 := l.gcm, l.visit;
    r := l.SchedLate(t);
    l.Parts();
    LateAllStep(l.f, l.E, gcm0, visit0, l.gcm, l.visit, l.dead, t);
    MarksAfter(l.f, gcm0, visit0, l.gcm, l.visit, t);
  }

  lemma PhiIsFixed(f: Fn, b: nat, k: nat)
    requires WfFn(f) && b < |f.blk| && k < |f.blk[b].phis|
    ensures f.blk[b].phis[k] < |f.phi| && f.phi[f.blk[b].phis[k]].to < |f.def| && Fixed(f.def[f.phi[f.blk[b].phis[k]].to])
  {
    assert BlkOk(f, f.blk[b]);
    assert PhiOk(f, f.phi[f.blk[b].phis[k]]);
  }

  lemma LateStart(f: Fn, E: seq<Option<nat>>, visit: seq<bool>, dead: seq<bool>)
    requires EarlyAll(f, E) && |visit| == |f.def| && |dead| == |f.phi|
    requires (forall t: nat :: t < |visit| ==> !visit[t]) && (forall k: nat :: k < |dead| ==> !dead[k])
    ensures LateAll(f, E, E, visit, dead) && NoConsts(f, visit)
  {
    hide EarlyOf;
    forall t: nat | t < |E| && E[t].Some? ensures E[t].value < |f.d| {
      assert EarlyAt(f, E, t);
    }
  }

  // ---- where things end up --------------------------------------------------------------------------

  // The state both phases leave: E is the early phase's, visit the late phase's marks.
  ghost predicate Settled(f: Fn, E: seq<Option<nat>>, gcm: seq<Option<nat>>, visit: seq<bool>, dead: seq<bool>) {
    && LateAll(f, E, gcm, visit, dead)
    && (forall b: nat :: b < |f.blk| ==> Rooted(f, E, f.blk[b]) && BlkSeen(f, visit, f.blk[b]))
    && NoConsts(f, visit)
  }

  // An instruction that is not dropped, and the block it is in afterwards.
  predicate Kept(x: Def, at: Option<nat>) {
    x.InsDef? && (if x.pinned then !(x.elim && at.None?) else at.Some?)
  }

  function Where(x: Def, at: Option<nat>): nat
    requires Kept(x, at)
  {
    if x.pinned then x.bid else at.value
  }

  lemma {:induction false} LateBelow(f: Fn, gcm: seq<Option<nat>>, dead: seq<bool>, t: nat, n: nat, k: nat)
    requires WfFn(f) && InTree(f, gcm, dead) && t < |f.def| && k < n <= |f.use[t]| && UseOk(f, t, f.use[t][k])
    requires UseLate(f, gcm, dead, t, f.use[t][k]).Some?
    ensures LateOf(f, gcm, dead, t, n).Some?
    ensures OnChain(f.d, LateOf(f, gcm, dead, t, n).value, UseLate(f, gcm, dead, t, f.use[t][k]).value)
  {
    hide LcaOpt;
    hide UseLate;
    hide UseOk;
    UseFits(f, t, n - 1);
    var a, b := LateOf(f, gcm, dead, t, n - 1), UseLate(f, gcm, dead, t, f.use[t][n - 1]);
    LcaBelow(f.d, a, b);
    if k < n - 1 {
      LateBelow(f, gcm, dead, t, n - 1, k);
      ChainTrans(f.d, LcaOpt(f.d, a, b).value, a.value, UseLate(f, gcm, dead, t, f.use[t][k]).value);
    }
  }

  // t's block is above the place x of a use, if the use counted.
  lemma AboveUse(f: Fn, E: seq<Option<nat>>, gcm: seq<Option<nat>>, visit: seq<bool>, dead: seq<bool>, t: nat, k: nat, x: nat)
    requires EarlyAll(f, E) && InTree(f, gcm, dead) && InTree(f, E, dead) && |visit| == |f.def| && t < |f.def| && k < |f.use[t]|
    requires LateAt(f, E, gcm, visit, dead, t) && E[t].Some? && x < |f.d| && UseOk(f, t, f.use[t][k])
    requires OnChain(f.d, EarlyOf(f, t), x)
    requires forall dead0 :: Fewer(dead0, dead) && |dead0| == |f.phi| ==>
               UseLate(f, gcm, dead0, t, f.use[t][k]).Some? && OnChain(f.d, UseLate(f, gcm, dead0, t, f.use[t][k]).value, x)
    ensures gcm[t].Some? && OnChain(f.d, gcm[t].value, x)
  {
    hide LateOf;
    hide UseLate;
    hide UseOk;
    assert EarlyAt(f, E, t);
    if visit[t] {
      if Fixed(f.def[t]) {
        assert EarlyOf(f, t) == f.def[t].bid;
      } else {
        var dead0 :| Fewer(dead0, dead) && Chosen(f, E, gcm, dead0, t);
        var v := UseLate(f, gcm, dead0, t, f.use[t][k]).value;
        LateBelow(f, gcm, dead0, t, |f.use[t]|, k);
        var l := LateOf(f, gcm, dead0, t, |f.use[t]|).value;
        ChainTrans(f.d, gcm[t].value, l, v);
        ChainTrans(f.d, gcm[t].value, v, x);
      }
    }
  }

  // Operands are computed in a block that dominates the one the result is
  // computed in, wherever both were moved.
  lemma OperandAbove(f: Fn, E: seq<Option<nat>>, gcm: seq<Option<nat>>, visit: seq<bool>, dead: seq<bool>, u: nat, t: nat)
    requires Settled(f, E, gcm, visit, dead) && Listed(f)
    requires u < |f.def| && Operand(f.def[u], t) && Kept(f.def[u], gcm[u])
    ensures t < |gcm| && gcm[t].Some? && Where(f.def[u], gcm[u]) < |f.d| && OnChain(f.d, gcm[t].value, Where(f.def[u], gcm[u]))
  {
    hide EarlyOf;
    hide LateOf;
    hide DefOk;
    hide BlkOk;
    OperandBefore(f, u, t);
    EarlyIsHigh(f, t);
    EarlyBelowOperand(f, u, t);
    var w := Where(f.def[u], gcm[u]);
    var k: nat :| k < |f.use[t]| && f.use[t][k] == UseOf(f, u);
    UseFits(f, t, k);
    if f.def[u].pinned {
      PinnedRooted(f, E, u, t);
      ChainTrans(f.d, EarlyOf(f, t), f.def[t].bid, w);
    } else {
      DoneBelowEarly(f, E, gcm, visit, dead, u);
      assert EarlyAt(f, E, u);
      ChainTrans(f.d, EarlyOf(f, t), EarlyOf(f, u), w);
    }
    AboveUse(f, E, gcm, visit, dead, t, k, w);
  }

  lemma PinnedRooted(f: Fn, E: seq<Option<nat>>, u: nat, t: nat)
    requires WfFn(f) && Listed(f) && |E| == |f.def| && (forall b: nat :: b < |f.blk| ==> Rooted(f, E, f.blk[b]))
    requires u < |f.def| && Operand(f.def[u], t) && f.def[u].pinned && t < |f.def|
    ensures E[t].Some?
  {
    hide WfFn;
    assert PinListed(f, u);
    var b: nat, k: nat :| b < |f.blk| && k < |f.blk[b].pins| && f.blk[b].pins[k] == Pin(f.def[u].a0, f.def[u].a1, Some(u));
    assert Rooted(f, E, f.blk[b]);
  }

  // A phi that stays finds its arguments at the end of the block they come from.
  lemma PhiArgAbove(f: Fn, E: seq<Option<nat>>, gcm: seq<Option<nat>>, visit: seq<bool>, dead: seq<bool>, p: nat, n: nat, t: nat)
    requires Settled(f, E, gcm, visit, dead) && Listed(f)
    requires p < |f.phi| && !dead[p] && n < |f.phi[p].args| && f.phi[p].args[n].0 == Some(t)
    ensures t < |gcm| && gcm[t].Some? && f.phi[p].args[n].1 < |f.d| && OnChain(f.d, gcm[t].value, f.phi[p].args[n].1)
  {
    hide EarlyOf;
    hide LateOf;
    hide DefOk;
    hide BlkOk;
    assert PhiListed(f, p, f.phi[p].args[n].0.value);
    var b: nat :| b < |f.blk| && p in f.blk[b].phis;
    assert Rooted(f, E, f.blk[b]) && PhiRooted(f, E, p);
    var k: nat :| k < |f.use[t]| && f.use[t][k] == UPhi(p);
    UseFits(f, t, k);
    EarlyIsHigh(f, t);
    var x := f.phi[p].args[n].1;
    ChainTrans(f.d, EarlyOf(f, t), f.def[t].bid, x);
    PhiLateBelow(f.d, f.phi[p].args, t, |f.phi[p].args|, n);
    AboveUse(f, E, gcm, visit, dead, t, k, x);
  }

  // And so does the jump that ends a block.
  lemma JumpArgAbove(f: Fn, E: seq<Option<nat>>, gcm: seq<Option<nat>>, visit: seq<bool>, dead: seq<bool>, b: nat)
    requires Settled(f, E, gcm, visit, dead) && Listed(f)
    requires b < |f.blk| && f.blk[b].jmp.Some?
    ensures var t := f.blk[b].jmp.value; t < |gcm| && gcm[t].Some? && b < |f.d| && OnChain(f.d, gcm[t].value, b)
  {
    hide EarlyOf;
    hide LateOf;
    hide DefOk;
    BlkParts(f, b);
    var t := f.blk[b].jmp.value;
    assert Rooted(f, E, f.blk[b]);
    var k: nat :| k < |f.use[t]| && f.use[t][k] == UJmp(b);
    UseFits(f, t, k);
    EarlyIsHigh(f, t);
    ChainTrans(f.d, EarlyOf(f, t), f.def[t].bid, b);
    AboveUse(f, E, gcm, visit, dead, t, k, b);
  }

  // The k-th use of t holds it somewhere.
  ghost predicate Counts(f: Fn, gcm: seq<Option<nat>>, dead: seq<bool>, t: nat, k: nat)
    requires WfFn(f) && InTree(f, gcm, dead) && t < |f.def|
  {
    k < |f.use[t]| && UseOk(f, t, f.use[t][k]) && UseLate(f, gcm, dead, t, f.use[t][k]).Some?
  }

  ghost predicate AboveUses(f: Fn, gcm: seq<Option<nat>>, dead: seq<bool>, t: nat, z: nat)
    requires WfFn(f) && InTree(f, gcm, dead) && t < |f.def|
  {
    forall k: nat :: Counts(f, gcm, dead, t, k) ==> OnChain(f.d, z, UseLate(f, gcm, dead, t, f.use[t][k]).value)
  }

  // l is the deepest block above all uses of t that count.
  ghost predicate MeetOfUses(f: Fn, gcm: seq<Option<nat>>, dead: seq<bool>, t: nat, l: nat)
    requires WfFn(f) && InTree(f, gcm, dead) && t < |f.def|
  {
    && l < |f.d|
    && (exists k: nat :: Counts(f, gcm, dead, t, k))
    && AboveUses(f, gcm, dead, t, l)
    && (forall z: nat :: AboveUses(f, gcm, dead, t, z) ==> OnChain(f.d, z, l))
  }

  lemma {:induction false} LateGreatest(f: Fn, gcm: seq<Option<nat>>, dead: seq<bool>, t: nat, n: nat, z: nat)
    requires WfFn(f) && InTree(f, gcm, dead) && t < |f.def| && n <= |f.use[t]| && AboveUses(f, gcm, dead, t, z)
    ensures LateOf(f, gcm, dead, t, n).Some? ==> OnChain(f.d, z, LateOf(f, gcm, dead, t, n).value)
    ensures LateOf(f, gcm, dead, t, n).Some? ==> exists k: nat :: Counts(f, gcm, dead, t, k)
  {
    hide LcaOpt;
    hide UseLate;
    hide UseOk;
    if n > 0 {
      LateGreatest(f, gcm, dead, t, n - 1, z);
      UseFits(f, t, n - 1);
      assert UseLate(f, gcm, dead, t, f.use[t][n - 1]).Some? ==> Counts(f, gcm, dead, t, n - 1);
      LcaAbove(f.d, z, LateOf(f, gcm, dead, t, n - 1), UseLate(f, gcm, dead, t, f.use[t][n - 1]));
    }
  }

  // What the scan over the uses computes.
  lemma LateIsMeet(f: Fn, gcm: seq<Option<nat>>, dead: seq<bool>, t: nat, l: nat)
    requires WfFn(f) && InTree(f, gcm, dead) && t < |f.def|
    requires LateOf(f, gcm, dead, t, |f.use[t]|) == Some(l)
    ensures MeetOfUses(f, gcm, dead, t, l)
  {
    hide LateOf;
    hide UseLate;
    hide UseOk;
    forall k: nat | Counts(f, gcm, dead, t, k) ensures OnChain(f.d, l, UseLate(f, gcm, dead, t, f.use[t][k]).value) {
      LateBelow(f, gcm, dead, t, |f.use[t]|, k);
    }
    forall z: nat | AboveUses(f, gcm, dead, t, z) ensures OnChain(f.d, z, l) {
      LateGreatest(f, gcm, dead, t, |f.use[t]|, z);
    }
    LateGreatest(f, gcm, dead, t, |f.use[t]|, l);
  }

  // t is in the best block between its early block and where its uses meet.
  ghost predicate BestAt(f: Fn, gcm: seq<Option<nat>>, dead: seq<bool>, t: nat, l: nat)
    requires WfFn(f) && InTree(f, gcm, dead) && t < |f.def| && gcm[t].Some?
  {
    MeetOfUses(f, gcm, dead, t, l) && IsBest(f.d, f.loop, EarlyOf(f, t), l, gcm[t].value)
  }

  // dead0: the phis that were gone when t was placed.
  ghost predicate BestPlaced(f: Fn, gcm: seq<Option<nat>>, dead: seq<bool>, t: nat)
    requires WfFn(f) && InTree(f, gcm, dead) && t < |f.def| && gcm[t].Some?
  {
    exists dead0: seq<bool>, l: nat :: Fewer(dead0, dead) && BestAt(f, gcm, dead0, t, l)
  }

  // Between the early block and the block where the uses meet, the one chosen
  // has the smallest loop weight, and is the lowest of those.
  lemma ChosenIsBest(f: Fn, E: seq<Option<nat>>, gcm: seq<Option<nat>>, visit: seq<bool>, dead: seq<bool>, t: nat)
    requires Settled(f, E, gcm, visit, dead) && Listed(f)
    requires t < |f.def| && !Fixed(f.def[t]) && gcm[t].Some? && !FromConsts(f, t)
    ensures BestPlaced(f, gcm, dead, t)
  {
    hide EarlyOf;
    hide LateOf;
    hide UseLate;
    hide IsBest;
    hide FromConsts;
    hide MeetOfUses;
    assert LateAt(f, E, gcm, visit, dead, t) && EarlyAt(f, E, t);
    DoneBelowEarly(f, E, gcm, visit, dead, t);
    VisitedIff(f, E, gcm, visit, dead, t);
    var dead0 :| Fewer(dead0, dead) && Chosen(f, E, gcm, dead0, t);
    var l := LateOf(f, gcm, dead0, t, |f.use[t]|).value;
    LateIsMeet(f, gcm, dead0, t, l);
    assert BestAt(f, gcm, dead0, t, l);
  }

  // The late phase comes to everything needed but what is computed from constants only.
  lemma {:induction false} VisitedIff(f: Fn, E: seq<Option<nat>>, gcm: seq<Option<nat>>, visit: seq<bool>, dead: seq<bool>, t: nat)
    requires Settled(f, E, gcm, visit, dead) && Listed(f) && t < |f.def| && E[t].Some?
    ensures visit[t] <==> !FromConsts(f, t)
    decreases f.def[t].bid, Pos(f.def[t]) + 1
  {
    var x := f.def[t];
    if x.PhiDef? {
      PhiVisited(f, visit, t);
    } else if x.pinned {
      PinVisited(f, visit, t);
    } else {
      EarlyOperands(f, t);
      assert EarlyAt(f, E, t);
      if x.a0.Some? {
        VisitedIff(f, E, gcm, visit, dead, x.a0.value);
        UserVisited(f, E, gcm, visit, dead, x.a0.value, t);
      }
      if x.a1.Some? {
        VisitedIff(f, E, gcm, visit, dead, x.a1.value);
        UserVisited(f, E, gcm, visit, dead, x.a1.value, t);
      }
    }
  }

  lemma PhiVisited(f: Fn, visit: seq<bool>, t: nat)
    requires WfFn(f) && Listed(f) && t < |f.def| && f.def[t].PhiDef?
    requires forall b: nat :: b < |f.blk| ==> BlkSeen(f, visit, f.blk[b])
    ensures Marked(visit, t)
  {
    hide WfFn;
    assert PhiHome(f, t);
    var b: nat, k: nat :| b < |f.blk| && k < |f.blk[b].phis| && f.blk[b].phis[k] < |f.phi| && f.phi[f.blk[b].phis[k]].to == t;
    assert BlkSeen(f, visit, f.blk[b]);
    assert PhiSeen(f, visit, f.blk[b].phis[k]);
  }

  lemma PinVisited(f: Fn, visit: seq<bool>, t: nat)
    requires WfFn(f) && Listed(f) && t < |f.def| && f.def[t].InsDef? && f.def[t].pinned
    requires forall b: nat :: b < |f.blk| ==> BlkSeen(f, visit, f.blk[b])
    ensures Marked(visit, t)
  {
    hide WfFn;
    assert PinListed(f, t);
    var b: nat, k: nat :| b < |f.blk| && k < |f.blk[b].pins| && f.blk[b].pins[k] == Pin(f.def[t].a0, f.def[t].a1, Some(t));
    assert BlkSeen(f, visit, f.blk[b]);
    assert PinSeen(visit, f.blk[b].pins[k].to);
  }

  // A visited temporary has had the results it is an operand of visited.
  lemma UserVisited(f: Fn, E: seq<Option<nat>>, gcm: seq<Option<nat>>, visit: seq<bool>, dead: seq<bool>, o: nat, u: nat)
    requires LateAll(f, E, gcm, visit, dead) && o < |f.def| && u < |f.def| && Operand(f.def[u], o) && E[o].Some?
    ensures visit[o] ==> visit[u]
  {
    hide EarlyOf;
    hide Chosen;
    assert LateAt(f, E, gcm, visit, dead, o);
    var k: nat :| k < |f.use[o]| && f.use[o][k] == UseOf(f, u);
  }

  // What is computed from constants only stays where the early phase put it: in the start block.
  lemma ConstsStay(f: Fn, E: seq<Option<nat>>, gcm: seq<Option<nat>>, visit: seq<bool>, dead: seq<bool>, t: nat)
    requires Settled(f, E, gcm, visit, dead) && t < |f.def| && gcm[t].Some? && FromConsts(f, t)
    ensures gcm[t] == Some(0) && EarlyOf(f, t) == 0
  {
    assert LateAt(f, E, gcm, visit, dead, t) && EarlyAt(f, E, t);
    ConstsAtStart(f, t);
  }

  // The start block is in no loop: none on the way to a use is lighter, but it is the best
  // choice only where every other one is heavier.
  lemma StartIsBest(f: Fn, l: nat)
    requires WfFn(f) && l < |f.d| && forall b: nat :: b < |f.loop| ==> f.loop[0] <= f.loop[b]
    ensures IsBest(f.d, f.loop, 0, l, 0) <==> forall x: nat :: OnChain(f.d, x, l) && x != 0 ==> x < |f.d| && f.loop[0] < f.loop[x]
  {
    RootOnChain(f.d, l);
    forall x: nat | OnChain(f.d, x, l) ensures x < |f.d| && OnChain(f.d, 0, x) {
      ChainLow(f.d, x, l);
      RootOnChain(f.d, x);
    }
  }

  // Two blocks of the same weight, one over the other; the lower one returns a value
  // computed from constants in it.
  function ConstBelow(): Fn {
    Fn.Fn([None, Some(0)], [0, 1], [1, 1], [InsDef(1, 0, false, false, None, None)], [[UJmp(1)]], [],
          [Blk([], [], None), Blk([], [], Some(0))])
  }

  // It is moved up to the start block although the block it was in is the best choice.
  lemma ConstMovesUp(gcm: seq<Option<nat>>, dead: seq<bool>)
    requires WfFn(ConstBelow()) && Scheduled(ConstBelow(), gcm, dead)
    ensures var f := ConstBelow();
            && |gcm| == 1 && gcm[0] == Some(0)
            && |dead| == 0 && InTree(f, gcm, dead) && MeetOfUses(f, gcm, dead, 0, 1)
            && IsBest(f.d, f.loop, EarlyOf(f, 0), 1, 1) && !IsBest(f.d, f.loop, EarlyOf(f, 0), 1, 0)
  {
    var f := ConstBelow();
    assert f.blk[1].jmp.Some? && Above(f, gcm, 0, 1);
    assert FromConsts(f, 0);
    ConstsAtStart(f, 0);
    assert PlacedWell(f, gcm, dead, 0);
    assert Counts(f, gcm, dead, 0, 0);
  }

  lemma ConstBelowFits()
    ensures WfFn(ConstBelow()) && Listed(ConstBelow())
  {
    hide WfFn;
    ConstBelowWf();
    assert ConstBelow().use[0][0] == UJmp(1);
  }

  lemma ConstBelowWf()
    ensures WfFn(ConstBelow())
  {
    var f := ConstBelow();
    assert IsTree(f.d) && Complete(f.d);
    assert Len(f.d, 0) == 0 && Len(f.d, 1) == 1;
    assert OnChain(f.d, 1, 1);
  }

  ghost predicate Above(f: Fn, gcm: seq<Option<nat>>, t: nat, x: nat)
    requires Complete(f.d)
  {
    t < |gcm| && gcm[t].Some? && x < |f.d| && OnChain(f.d, gcm[t].value, x)
  }

  // Blocks for everything that is kept: operands, phi arguments and jump arguments are
  // computed above where they are read, what is fixed has not moved, the rest is in the
  // best block there is for it, and a phi that was dropped has no block.
  ghost predicate Scheduled(f: Fn, gcm: seq<Option<nat>>, dead: seq<bool>)
    requires WfFn(f)
  {
    && InTree(f, gcm, dead)
    && (forall u: nat, t: nat :: u < |f.def| && Operand(f.def[u], t) && Kept(f.def[u], gcm[u]) ==>
          Above(f, gcm, t, Where(f.def[u], gcm[u])))
    && (forall p: nat, n: nat :: p < |f.phi| && !dead[p] && n < |f.phi[p].args| && f.phi[p].args[n].0.Some? ==>
          Above(f, gcm, f.phi[p].args[n].0.value, f.phi[p].args[n].1))
    && (forall b: nat :: b < |f.blk| && f.blk[b].jmp.Some? ==> Above(f, gcm, f.blk[b].jmp.value, b))
    && (forall t: nat :: t < |f.def| && gcm[t].Some? ==> PlacedWell(f, gcm, dead, t))
    && (forall p: nat :: p < |f.phi| && dead[p] ==> f.phi[p].to < |gcm| && gcm[f.phi[p].to].None?)
  }

  ghost predicate PlacedWell(f: Fn, gcm: seq<Option<nat>>, dead: seq<bool>, t: nat)
    requires WfFn(f) && InTree(f, gcm, dead) && t < |f.def| && gcm[t].Some?
  {
    if Fixed(f.def[t]) then gcm[t] == Some(f.def[t].bid)
    else if FromConsts(f, t) then gcm[t] == Some(0)
    else BestPlaced(f, gcm, dead, t)
  }

  // gcm, up to the choice of blocks.
  method Schedule(f: Fn) returns (gcm: seq<Option<nat>>, dead: seq<bool>)
    requires WfFn(f) && Listed(f)
    ensures Scheduled(f, gcm, dead)
  {
    hide *;
    var e := new Early(f);
    EarlyStart(f, e.gcm);
    var b: nat := 0;
    while b < |f.blk|
      invariant b <= |f.blk| && e.f == f && EarlyAll(f, e.gcm)
      invariant forall c: nat :: c < b ==> Rooted(f, e.gcm, f.blk[c])
    {
      ghost var E0 := e.gcm;
      EarlyBlk(e, b);
      forall c: nat | c < b ensures Rooted(f, e.gcm, f.blk[c]) {
        RootedGrows(f, E0, e.gcm, f.blk[c]);
      }
      b := b + 1;
    }
    ghost var E := e.gcm;
    var l := new Late(f, e.gcm);
    LateStart(f, E, l.visit, l.dead);
    b := 0;
    while b < |f.blk|
      invariant b <= |f.blk| && l.f == f && l.E == E && LateAll(f, E, l.gcm, l.visit, l.dead) && NoConsts(f, l.visit)
      invariant forall c: nat :: c < b ==> BlkSeen(f, l.visit, f.blk[c])
    {
      ghost var visit0 := l.visit;
      LateBlk(l, b);
      forall c: nat | c < b ensures BlkSeen(f, l.visit, f.blk[c]) {
        SeenGrows(f, visit0, l.visit, f.blk[c]);
      }
      b := b + 1;
    }
    gcm, dead := l.gcm, l.dead;
    AllSettled(f, E, gcm, l.visit, dead);
    AllScheduled(f, E, gcm, l.visit, dead);
  }

  lemma AllScheduled(f: Fn, E: seq<Option<nat>>, gcm: seq<Option<nat>>, visit: seq<bool>, dead: seq<bool>)
    requires Settled(f, E, gcm, visit, dead) && Listed(f)
    ensures Scheduled(f, gcm, dead)
  {
    hide *;
    SettledParts(f, E, gcm, visit, dead);
    forall u: nat, t: nat | u < |f.def| && Operand(f.def[u], t) && Kept(f.def[u], gcm[u])
      ensures Above(f, gcm, t, Where(f.def[u], gcm[u]))
    {
      OperandAbove(f, E, gcm, visit, dead, u, t);
      AboveIs(f, gcm, t, Where(f.def[u], gcm[u]));
    }
    forall p: nat, n: nat | p < |f.phi| && !dead[p] && n < |f.phi[p].args| && f.phi[p].args[n].0.Some?
      ensures Above(f, gcm, f.phi[p].args[n].0.value, f.phi[p].args[n].1)
    {
      PhiArgAbove(f, E, gcm, visit, dead, p, n, f.phi[p].args[n].0.value);
      AboveIs(f, gcm, f.phi[p].args[n].0.value, f.phi[p].args[n].1);
    }
    forall b: nat | b < |f.blk| && f.blk[b].jmp.Some? ensures Above(f, gcm, f.blk[b].jmp.value, b) {
      JumpArgAbove(f, E, gcm, visit, dead, b);
      AboveIs(f, gcm, f.blk[b].jmp.value, b);
    }
    forall t: nat | t < |f.def| && gcm[t].Some? ensures PlacedWell(f, gcm, dead, t) {
      AllPlacedWell(f, E, gcm, visit, dead, t);
    }
    forall p: nat | p < |f.phi| && dead[p] ensures f.phi[p].to < |gcm| && gcm[f.phi[p].to].None? {
      DeadHasNoBlock(f, E, gcm, visit, dead, p);
    }
    ScheduledIs(f, gcm, dead);
  }

  lemma ScheduledIs(f: Fn, gcm: seq<Option<nat>>, dead: seq<bool>)
    requires WfFn(f) && Complete(f.d) && InTree(f, gcm, dead) && |gcm| == |f.def| && |dead| == |f.phi|
    requires forall u: nat, t: nat :: u < |f.def| && Operand(f.def[u], t) && Kept(f.def[u], gcm[u]) ==>
               Above(f, gcm, t, Where(f.def[u], gcm[u]))
    requires forall p: nat, n: nat :: p < |f.phi| && !dead[p] && n < |f.phi[p].args| && f.phi[p].args[n].0.Some? ==>
               Above(f, gcm, f.phi[p].args[n].0.value, f.phi[p].args[n].1)
    requires forall b: nat :: b < |f.blk| && f.blk[b].jmp.Some? ==> Above(f, gcm, f.blk[b].jmp.value, b)
    requires forall t: nat :: t < |f.def| && gcm[t].Some? ==> PlacedWell(f, gcm, dead, t)
    requires forall p: nat :: p < |f.phi| && dead[p] ==> f.phi[p].to < |gcm| && gcm[f.phi[p].to].None?
    ensures Scheduled(f, gcm, dead)
  {
    hide WfFn;
    hide Above;
    hide PlacedWell;
  }

  lemma AllPlacedWell(f: Fn, E: seq<Option<nat>>, gcm: seq<Option<nat>>, visit: seq<bool>, dead: seq<bool>, t: nat)
    requires Settled(f, E, gcm, visit, dead) && Listed(f) && t < |f.def| && gcm[t].Some?
    ensures PlacedWell(f, gcm, dead, t)
  {
    hide BestPlaced;
    hide FromConsts;
    hide SomeChosen;
    assert LateAt(f, E, gcm, visit, dead, t) && EarlyAt(f, E, t);
    if !Fixed(f.def[t]) {
      if FromConsts(f, t) {
        ConstsStay(f, E, gcm, visit, dead, t);
      } else {
        ChosenIsBest(f, E, gcm, visit, dead, t);
      }
    }
  }

  lemma DeadHasNoBlock(f: Fn, E: seq<Option<nat>>, gcm: seq<Option<nat>>, visit: seq<bool>, dead: seq<bool>, p: nat)
    requires Settled(f, E, gcm, visit, dead) && p < |f.phi| && dead[p]
    ensures f.phi[p].to < |gcm| && gcm[f.phi[p].to].None?
  {
    hide EarlyOf;
    assert LateAt(f, E, gcm, visit, dead, f.phi[p].to);
  }

  // ---- facts that unfold at once ----------------------------------------------------------

  lemma ConstsUse(f: Fn, t: nat, u: nat)
    requires WfFn(f) && t < |f.def| && u < |f.def| && Operand(f.def[u], t) && !FromConsts(f, t)
    ensures !FromConsts(f, u)
  {
  }

  lemma UpToTrans(f: Fn, t: nat, u: nat)
    requires WfFn(f) && t < |f.def| && u < |f.def| && Lt(f.def[u], f.def[t])
    ensures forall w: nat :: w < |f.def| && UpTo(f, u, w) ==> UpTo(f, t, w) && w != t
  {
  }

  lemma RefStepRefl(f: Fn, gcm: seq<Option<nat>>, t: nat)
    requires WfFn(f) && t < |f.def| && |gcm| == |f.def|
    ensures RefStep(f, gcm, gcm, t)
  {
  }

  lemma NoRef(f: Fn)
    requires WfFn(f)
    ensures RefOk(f, None) && EarlyRef(f, None) == 0
  {
  }

  lemma RefIs(f: Fn, t: nat)
    requires WfFn(f) && t < |f.def|
    ensures RefOk(f, Some(t)) && EarlyRef(f, Some(t)) == EarlyOf(f, t)
  {
  }

  lemma SmallerMeasure(f: Fn, t: nat, u: nat)
    requires WfFn(f) && t < |f.def| && u < |f.def| && Lt(f.def[u], f.def[t])
    ensures f.def[u].bid < f.def[t].bid || (f.def[u].bid == f.def[t].bid && 0 <= Pos(f.def[u]) + 1 < Pos(f.def[t]) + 1)
  {
  }

  lemma DefsSized(f: Fn, b0: nat, b1: nat)
    requires WfFn(f)
    ensures b0 < |f.d| ==> b0 < |f.depth|
    ensures b1 < |f.d| ==> b1 < |f.depth|
  {
  }

  lemma UseFits(f: Fn, t: nat, k: nat)
    requires WfFn(f) && t < |f.def| && k < |f.use[t]|
    ensures UseOk(f, t, f.use[t][k])
  {
  }

  lemma StepRefl(f: Fn, gcm: seq<Option<nat>>, visit: seq<bool>, t: nat)
    requires t < |f.def| && |gcm| == |visit| == |f.def|
    ensures LateStep(f, gcm, visit, gcm, visit, t)
  {
  }

  lemma UseIsJmp(f: Fn, gcm: seq<Option<nat>>, dead: seq<bool>, t: nat, b: nat)
    requires Complete(f.d)
    ensures UseIs(f, gcm, dead, t, UJmp(b), Some(b))
  {
  }

  lemma UseIsPhi(f: Fn, gcm: seq<Option<nat>>, dead: seq<bool>, t: nat, p: nat)
    requires Complete(f.d) && p < |dead| && p < |f.phi| && (forall n: nat :: n < |f.phi[p].args| ==> f.phi[p].args[n].1 < |f.d|)
    ensures UseIs(f, gcm, dead, t, UPhi(p), if dead[p] then None else PhiLate(f.d, f.phi[p].args, t, |f.phi[p].args|))
  {
  }

  lemma UseIsIns(f: Fn, gcm: seq<Option<nat>>, dead: seq<bool>, t: nat, b: nat, pin: bool, elim: bool, to: Option<nat>)
    requires Complete(f.d) && (to.Some? ==> to.value < |gcm|)
    ensures var l := if to.Some? then gcm[to.value] else None;
            UseIs(f, gcm, dead, t, UIns(b, pin, elim, to), if !pin then l else if l.None? && elim then None else Some(b))
  {
  }

  lemma FewerRefl(dead: seq<bool>)
    ensures Fewer(dead, dead)
  {
  }

  lemma AllBelow(f: Fn, E: seq<Option<nat>>, t: nat)
    requires EarlyAll(f, E) && t < |f.def|
    ensures EarlyBelow(f, E, t)
  {
  }

  lemma LateAllFrom(f: Fn, E: seq<Option<nat>>, gcm: seq<Option<nat>>, visit: seq<bool>, dead: seq<bool>, t: nat)
    requires LateAll(f, E, gcm, visit, dead) && t < |f.def|
    ensures LateFrom(f, E, gcm, visit, dead, t)
  {
  }

  lemma GrowTrans(a: seq<bool>, b: seq<bool>, c: seq<bool>)
    requires MarksGrow(a, b) && MarksGrow(b, c)
    ensures MarksGrow(a, c)
  {
  }

  lemma MarksSame(visit: seq<bool>)
    ensures MarksGrow(visit, visit)
  {
  }

  lemma SeenIs(f: Fn, visit: seq<bool>, p: nat)
    requires p < |f.phi| && Marked(visit, f.phi[p].to)
    ensures PhiSeen(f, visit, p)
  {
  }

  lemma PinSeenIs(visit: seq<bool>, r: Option<nat>)
    requires r.Some? ==> Marked(visit, r.value)
    ensures PinSeen(visit, r)
  {
  }

  lemma BlkSeenIs(f: Fn, visit: seq<bool>, x: Blk)
    requires (forall k: nat :: k < |x.phis| ==> PhiSeen(f, visit, x.phis[k]))
    requires (forall k: nat :: k < |x.pins| ==> PinSeen(visit, x.pins[k].to))
    ensures BlkSeen(f, visit, x)
  {
  }

  lemma FixedNotConsts(f: Fn, t: nat)
    requires WfFn(f) && t < |f.def| && Fixed(f.def[t])
    ensures !FromConsts(f, t)
  {
  }

  lemma MarksAfter(f: Fn, gcm0: seq<Option<nat>>, visit0: seq<bool>, gcm: seq<Option<nat>>, visit: seq<bool>, t: nat)
    requires t < |f.def| && LateStep(f, gcm0, visit0, gcm, visit, t)
    ensures MarksGrow(visit0, visit)
    ensures t < |visit| && visit[t] ==> Marked(visit, t)
  {
  }

  lemma LateWf(f: Fn, E: seq<Option<nat>>, gcm: seq<Option<nat>>, visit: seq<bool>, dead: seq<bool>)
    requires LateAll(f, E, gcm, visit, dead)
    ensures WfFn(f) && EarlyAll(f, E) && InTree(f, gcm, dead) && InTree(f, E, dead)
    ensures |visit| == |f.def| && |dead| == |f.phi| && |E| == |f.def|
  {
  }

  lemma RefIn(f: Fn, r: Option<nat>)
    requires RefOk(f, r)
    ensures r.Some? ==> r.value < |f.def|
  {
  }

  lemma EarlyStart(f: Fn, gcm: seq<Option<nat>>)
    requires WfFn(f) && |gcm| == |f.def| && forall t: nat :: t < |gcm| ==> gcm[t].None?
    ensures EarlyAll(f, gcm)
  {
  }

  lemma AllSettled(f: Fn, E: seq<Option<nat>>, gcm: seq<Option<nat>>, visit: seq<bool>, dead: seq<bool>)
    requires LateAll(f, E, gcm, visit, dead) && NoConsts(f, visit)
    requires forall c: nat :: c < |f.blk| ==> Rooted(f, E, f.blk[c])
    requires forall c: nat :: c < |f.blk| ==> BlkSeen(f, visit, f.blk[c])
    ensures Settled(f, E, gcm, visit, dead)
  {
  }

  lemma SettledParts(f: Fn, E: seq<Option<nat>>, gcm: seq<Option<nat>>, visit: seq<bool>, dead: seq<bool>)
    requires Settled(f, E, gcm, visit, dead)
    ensures WfFn(f) && Complete(f.d) && InTree(f, gcm, dead) && |gcm| == |f.def| && |dead| == |f.phi|
  {
  }

  lemma AboveIs(f: Fn, gcm: seq<Option<nat>>, t: nat, x: nat)
    requires Complete(f.d) && t < |gcm| && gcm[t].Some? && x < |f.d| && OnChain(f.d, gcm[t].value, x)
    ensures Above(f, gcm, t, x)
  {
  }
}
