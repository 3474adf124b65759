// mir/mem2reg.c keeps explicit SSA form: in the rewritten function each value,
// old, phi or copied constant, is defined once and its definition dominates its
// uses.
module M2rSsa {
  import opened Graph
  import opened DomTree
  import opened Mir
  import opened Promotion

  // ---- positions before and after ---------------------------------------------------

  // Where position i of block b is once the allocas are gone.
  ghost function Moved(p: Plan, b: nat, i: int): int
    requires |p.d| == |p.f.blk| && Complete(p.d) && b < |p.f.blk| && -1 <= i <= |p.f.blk[b].ins|
  {
    if i == -1 then -1 else |RewrittenList(p, b, i)|
  }

  lemma {:induction false} ListAt(p: Plan, b: nat, n: nat, i: nat)
    requires |p.d| == |p.f.blk| && Complete(p.d) && b < |p.f.blk| && i < n <= |p.f.blk[b].ins|
    requires !Dropped(p.f.blk[b].ins[i], p.S)
    ensures |RewrittenList(p, b, i)| < |RewrittenList(p, b, n)|
    ensures RewrittenList(p, b, n)[|RewrittenList(p, b, i)|] == Rewritten(p, b, i)
  {
    hide Complete;
    hide Rewritten;
    hide Dropped;
    if i < n - 1 {
      ListAt(p, b, n - 1, i);
    }
  }

  lemma {:induction false} ListFrom(p: Plan, b: nat, n: nat, k: nat) returns (i: nat)
    requires |p.d| == |p.f.blk| && Complete(p.d) && b < |p.f.blk| && n <= |p.f.blk[b].ins|
    requires k < |RewrittenList(p, b, n)|
    ensures i < n && !Dropped(p.f.blk[b].ins[i], p.S) && |RewrittenList(p, b, i)| == k
    ensures RewrittenList(p, b, n)[k] == Rewritten(p, b, i)
  {
    hide Complete;
    hide Rewritten;
    hide Dropped;
    if k < |RewrittenList(p, b, n - 1)| {
      i := ListFrom(p, b, n - 1, k);
    } else {
      i := n - 1;
    }
  }

  // ---- what becomes of each instruction ------------------------------------------------

  predicate DefinesSlot(x: Ins, S: set<nat>) {
    DstOf(x).Some? && SlotOf(Use(DstOf(x).value), S).Some?
  }

  // How many of the first i instructions are not allocas of slots of S.
  function KeptBelow(xs: seq<Ins>, S: set<nat>, i: nat): nat
    requires i <= |xs|
  {
    if i == 0 then 0 else KeptBelow(xs, S, i - 1) + if DefinesSlot(xs[i - 1], S) then 0 else 1
  }

  // y is what promoting the slots of S makes of instruction x, the i-th of block b.  A load
  // becomes a copy to its result, a store of a constant a copy of the constant, both of the
  // type the slot is accessed with; a store of a value goes; nothing else changes.
  ghost predicate Becomes(f: Fn, S: set<nat>, b: nat, i: nat, x: Ins, y: Ins) {
    match x
    case Load(d, a, ty, _) =>
      if SlotOf(a, S).Some? then
        y.Copy? && y.dst == d && y.src.Use? && y.ty == ty == SlotTy(f, SlotOf(a, S).value)
      else y == x
    case Store(r, a, ty, _) =>
      if SlotOf(a, S).None? then y == x
      else if r.Use? then y == Nop
      else y.Copy? && y.dst == ConstTemp(b, i) && y.src == r && y.ty == ty == SlotTy(f, SlotOf(a, S).value)
    case _ => y == x
  }

  // Each block holds just what its instructions become, in their order; the allocas of S
  // are gone.
  ghost predicate InsAccounted(f: Fn, S: set<nat>, b: nat, ys: seq<Ins>)
    requires b < |f.blk|
  {
    && |ys| == KeptBelow(f.blk[b].ins, S, |f.blk[b].ins|)
    && (forall i: nat :: i < |f.blk[b].ins| && !DefinesSlot(f.blk[b].ins[i], S) ==>
          var k := KeptBelow(f.blk[b].ins, S, i);
          k < |ys| && Becomes(f, S, b, i, f.blk[b].ins[i], ys[k]))
  }

  ghost predicate Accounted(f: Fn, S: set<nat>, f': Fn) {
    |f'.blk| == |f.blk| && forall b: nat :: b < |f.blk| ==> InsAccounted(f, S, b, f'.blk[b].ins)
  }

  lemma {:induction false} KeptIs(p: Plan, b: nat, n: nat)
    requires GoodPlan(p) && b < |p.f.blk| && n <= |p.f.blk[b].ins|
    ensures |RewrittenList(p, b, n)| == KeptBelow(p.f.blk[b].ins, p.S, n)
  {
    hide StrictSsa;
    hide PhisClosed;
    hide Complete;
    hide Rewritten;
    if n > 0 {
      KeptIs(p, b, n - 1);
      assert CleanIns(p.f.blk[b].ins[n - 1], p.S);
    }
  }

  lemma RewrittenBecomes(p: Plan, b: nat, i: nat)
    requires GoodPlan(p) && NoUndefined(p) && b < |p.f.blk| && i < |p.f.blk[b].ins|
    ensures Becomes(p.f, p.S, b, i, p.f.blk[b].ins[i], Rewritten(p, b, i))
    ensures !DefinesSlot(p.f.blk[b].ins[i], p.S) ==> !Dropped(p.f.blk[b].ins[i], p.S)
  {
    hide StrictSsa;
    hide PhisClosed;
    hide Complete;
    hide StackAt;
    hide SlotTy;
    var x := p.f.blk[b].ins[i];
    if (x.Load? || x.Store?) && SlotOf(x.addr, p.S).Some? {
      var s := SlotOf(x.addr, p.S).value;
      assert AccessAt(p.f, s, b, i);
      assert x.Load? ==> Loads(p.f, p.S, s, b, i);
    }
  }

  lemma PromotedAccounted(p: Plan, f': Fn)
    requires GoodPlan(p) && NoUndefined(p) && Promoted(p, f')
    ensures Accounted(p.f, p.S, f')
  {
    hide StrictSsa;
    hide Private;
    hide PhisClosed;
    hide Complete;
    hide NoUndefined;
    hide PhisOf;
    hide Rewritten;
    hide RewrittenList;
    hide KeptBelow;
    hide Becomes;
    forall b: nat | b < |p.f.blk| ensures InsAccounted(p.f, p.S, b, f'.blk[b].ins) {
      var n := |p.f.blk[b].ins|;
      KeptIs(p, b, n);
      forall i: nat | i < n && !DefinesSlot(p.f.blk[b].ins[i], p.S)
        ensures var k := KeptBelow(p.f.blk[b].ins, p.S, i);
                k < |f'.blk[b].ins| && Becomes(p.f, p.S, b, i, p.f.blk[b].ins[i], f'.blk[b].ins[k])
      {
        KeptIs(p, b, i);
        RewrittenBecomes(p, b, i);
        ListAt(p, b, n, i);
      }
    }
  }

  // ---- what the rewritten function defines, and where ---------------------------------

  // Position i of block b of the old function becomes the definition of v.
  ghost predicate MadeAt(p: Plan, v: Val, b: nat, i: int)
    requires |p.d| == |p.f.blk| && Complete(p.d)
  {
    b < |p.f.blk| &&
    (if i == -1 then DefAt(p.f, v, b, -1) || (v.PhiTemp? && v.blk == b && (v.slot, b) in p.F)
     else && 0 <= i < |p.f.blk[b].ins| && !Dropped(p.f.blk[b].ins[i], p.S)
          && DstOf(Rewritten(p, b, i)) == Some(v))
  }

  lemma MadeOnce(p: Plan, v: Val, b: nat, i: int, b': nat, i': int)
    requires GoodPlan(p) && MadeAt(p, v, b, i) && MadeAt(p, v, b', i')
    ensures b == b' && i == i'
  {
    MadeKind(p, v, b, i);
    MadeKind(p, v, b', i');
  }

  // An old value is made where it was defined, a phi at its block's head, a copy in place
  // of its store.
  lemma MadeKind(p: Plan, v: Val, b: nat, i: int)
    requires GoodPlan(p) && MadeAt(p, v, b, i)
    ensures match v
            case Temp(_) => DefAt(p.f, v, b, i)
            case PhiTemp(s, c) => b == c && i == -1
            case ConstTemp(c, j) => b == c && i == j
            case _ => false
  {
    hide StrictSsa;
    hide PhisClosed;
    if i == -1 {
      if DefAt(p.f, v, b, -1) {
        var k :| 0 <= k < |p.f.blk[b].phis| && p.f.blk[b].phis[k].dst == v;
        assert CleanPhi(p.f.blk[b].phis[k], p.S);
      }
    } else {
      assert CleanIns(p.f.blk[b].ins[i], p.S);
    }
  }

  lemma DefIsMade(p: Plan, f': Fn, v: Val, b: nat, k: int) returns (i: int)
    requires GoodPlan(p) && Promoted(p, f') && DefAt(f', v, b, k)
    ensures MadeAt(p, v, b, i) && Moved(p, b, i) == k
  {
    hide Complete;
    hide CountFrom;
    hide OutStack;
    hide StackAt;
    hide StrictSsa;
    hide Private;
    hide PhisClosed;
    if k == -1 {
      i := -1;
      var phis := f'.blk[b].phis;
      var n := PhisSplit(p, b, phis);
      var l :| 0 <= l < |phis| && phis[l].dst == v;
      if l < n {
        assert phis[..n][l].dst == v;
      } else {
        assert phis[n..][l - n].dst == v;
      }
    } else {
      i := ListFrom(p, b, |p.f.blk[b].ins|, k);
    }
  }

  lemma MadeIsDef(p: Plan, f': Fn, v: Val, b: nat, i: int)
    requires GoodPlan(p) && Promoted(p, f') && MadeAt(p, v, b, i)
    ensures DefAt(f', v, b, Moved(p, b, i))
  {
    hide Complete;
    hide CountFrom;
    hide OutStack;
    hide StackAt;
    hide StrictSsa;
    hide Private;
    hide PhisClosed;
    if i == -1 {
      var phis := f'.blk[b].phis;
      var n := PhisSplit(p, b, phis);
      if DefAt(p.f, v, b, -1) {
        var l :| 0 <= l < |phis[n..]| && phis[n..][l].dst == v;
        assert phis[n + l].dst == v;
      } else {
        assert (v.slot, b) in p.F && v == PhiTemp(v.slot, b);
        var l :| 0 <= l < n && phis[..n][l].dst == v;
        assert phis[l].dst == v;
      }
    } else {
      ListAt(p, b, |p.f.blk[b].ins|, i);
    }
  }

  // ---- definitions dominate uses --------------------------------------------------------

  ghost predicate MadeBefore(p: Plan, v: Val, c: nat, j: int)
    requires |p.d| == |p.f.blk| && Complete(p.d)
  {
    exists b: nat, i: int :: MadeAt(p, v, b, i) && Before(p.f.g, b, i, c, j)
  }

  ghost predicate RefMade(p: Plan, r: Ref, c: nat, j: int)
    requires |p.d| == |p.f.blk| && Complete(p.d)
  {
    r.Use? && IsTemp(r.v) ==> MadeBefore(p, r.v, c, j)
  }

  // Leaving out the allocas keeps the order of what is defined and what uses it.
  lemma RefMoved(p: Plan, f': Fn, r: Ref, c: nat, j: int)
    requires GoodPlan(p) && Promoted(p, f') && c < |p.f.blk| && -1 <= j <= |p.f.blk[c].ins|
    requires RefMade(p, r, c, j)
    ensures RefBefore(f', r, c, Moved(p, c, j))
  {
    hide StrictSsa;
    hide Private;
    hide PhisClosed;
    hide Complete;
    hide PhisOf;
    if r.Use? && IsTemp(r.v) {
      var b: nat, i: int :| MadeAt(p, r.v, b, i) && Before(p.f.g, b, i, c, j);
      MadeIsDef(p, f', r.v, b, i);
      if b == c && i >= 0 {
        ListAt(p, b, j, i);
      }
      assert Before(f'.g, b, Moved(p, b, i), c, Moved(p, c, j));
    }
  }

  // A value that is no slot's address is still defined where it was.
  lemma CleanMade(p: Plan, r: Ref, c: nat, j: int)
    requires GoodPlan(p) && Clean(r, p.S) && RefBefore(p.f, r, c, j)
    ensures RefMade(p, r, c, j)
  {
    hide StrictSsa;
    hide PhisClosed;
    hide Private;
    if r.Use? && IsTemp(r.v) {
      var b: nat, i: int :| DefAt(p.f, r.v, b, i) && Before(p.f.g, b, i, c, j);
      assert MadeAt(p, r.v, b, i);
    }
  }

  // What a slot's stack holds is defined by then: an operand stored before, a copied
  // constant, or a phi.
  lemma StackMade(p: Plan, s: nat, v: Val, b: nat, i: int)
    requires GoodPlan(p) && b < |p.f.blk| && -1 <= i <= |p.f.blk[b].ins| && v in StackAt(p, s, b, i)
    ensures RefMade(p, Use(v), b, i)
  {
    hide PhisClosed;
    hide StackAt;
    StackSource(p, s, v, b, i);
    var c: nat, j: int :| SourceAt(p, s, v, c, j) && Before(p.f.g, c, j, b, i);
    if j == -1 {
      assert MadeAt(p, v, c, -1);
    } else {
      var x := p.f.blk[c].ins[j];
      assert CleanIns(x, p.S);
      if x.val.Use? {
        assert RefBefore(p.f, Ref0(x), c, j);
        CleanMade(p, x.val, c, j);
        MadeEarlier(p, v, c, j, b, i);
      } else {
        assert MadeAt(p, v, c, j);
      }
    }
  }

  lemma MadeEarlier(p: Plan, v: Val, c: nat, j: int, b: nat, i: int)
    requires GoodPlan(p) && c < |p.f.blk| && b < |p.f.blk| && RefMade(p, Use(v), c, j) && Before(p.f.g, c, j, b, i)
    ensures RefMade(p, Use(v), b, i)
  {
    hide StrictSsa;
    hide PhisClosed;
    hide Private;
    if IsTemp(v) {
      var b0: nat, i0: int :| MadeAt(p, v, b0, i0) && Before(p.f.g, b0, i0, c, j);
      BeforeTrans(p.f.g, b0, i0, c, j, b, i);
    }
  }

  lemma RewrittenMade(p: Plan, b: nat, i: nat)
    requires GoodPlan(p) && NoUndefined(p) && b < |p.f.blk| && i < |p.f.blk[b].ins|
    ensures RefMade(p, Ref0(Rewritten(p, b, i)), b, i) && RefMade(p, Ref1(Rewritten(p, b, i)), b, i)
  {
    hide RefMade;
    hide RefBefore;
    hide PhisClosed;
    hide StackAt;
    var x := p.f.blk[b].ins[i];
    assert CleanIns(x, p.S);
    assert RefBefore(p.f, Ref0(x), b, i) && RefBefore(p.f, Ref1(x), b, i);
    NotUsed(p, NoRef, b, i);
    if x.Load? && SlotOf(x.addr, p.S).Some? {
      var s := SlotOf(x.addr, p.S).value;
      assert Loads(p.f, p.S, s, b, i);
      var st := StackAt(p, s, b, i);
      StackMade(p, s, st[|st| - 1], b, i);
    } else if x.Store? && SlotOf(x.addr, p.S).Some? {
      if !x.val.Use? {
        NotUsed(p, x.val, b, i);
      }
    } else {
      CleanMade(p, Ref0(x), b, i);
      CleanMade(p, Ref1(x), b, i);
    }
  }

  lemma NotUsed(p: Plan, r: Ref, b: nat, i: int)
    requires |p.d| == |p.f.blk| && Complete(p.d) && !r.Use?
    ensures RefMade(p, r, b, i)
  {
  }

  // ---- phis ------------------------------------------------------------------------------

  lemma PhisMade(p: Plan, f': Fn, b: nat, k: nat, q: nat)
    requires GoodPlan(p) && NoUndefined(p) && Promoted(p, f') && b < |p.f.blk| && q < |p.f.blk|
    requires k < |f'.blk[b].phis| && Edge(p.f.g, q, b)
    ensures PhiArgBefore(f', f'.blk[b].phis[k], q)
  {
    hide StrictSsa;
    hide PhisClosed;
    hide Private;
    hide RefMade;
    hide RefBefore;
    hide OutStack;
    hide CountFrom;
    var phis := f'.blk[b].phis;
    var n := PhisSplit(p, b, phis);
    var m := |p.f.blk[q].ins|;
    if k < n {
      var phi := phis[..n][k];
      assert phi == phis[k];
      var st := OutStack(p, phi.dst.slot, q);
      EndsAre(p, phi.dst.slot, q, b);
      assert st != [] && ArgFrom(phi.args, q) == Top(st);
      StackMade(p, phi.dst.slot, st[|st| - 1], q, m);
      RefMoved(p, f', Use(st[|st| - 1]), q, m);
    } else {
      assert phis[k] == p.f.blk[b].phis[k - n];
      OldPhisFit(p, q, b);
      var args := phis[k].args;
      ArgAmong(args, q);
      CleanMade(p, Use(ArgFrom(args, q).value), q, m);
      RefMoved(p, f', Use(ArgFrom(args, q).value), q, m);
    }
  }

  // ---- the theorem -----------------------------------------------------------------------

  lemma InsStrict(p: Plan, f': Fn, b: nat, k: nat)
    requires GoodPlan(p) && NoUndefined(p) && Promoted(p, f') && b < |f'.blk| && k < |f'.blk[b].ins|
    ensures RefBefore(f', Ref0(f'.blk[b].ins[k]), b, k) && RefBefore(f', Ref1(f'.blk[b].ins[k]), b, k)
  {
    hide StrictSsa;
    hide Private;
    hide PhisClosed;
    hide Complete;
    hide NoUndefined;
    hide RefMade;
    hide RefBefore;
    hide PhisOf;
    var i := ListFrom(p, b, |p.f.blk[b].ins|, k);
    RewrittenMade(p, b, i);
    RefMoved(p, f', Ref0(Rewritten(p, b, i)), b, i);
    RefMoved(p, f', Ref1(Rewritten(p, b, i)), b, i);
  }

  lemma EndStrict(p: Plan, f': Fn, b: nat)
    requires GoodPlan(p) && Promoted(p, f') && b < |f'.blk|
    ensures RefBefore(f', f'.blk[b].targ, b, |f'.blk[b].ins|)
    ensures forall k: nat, l: nat :: k < l < |f'.blk[b].phis| ==> f'.blk[b].phis[k].dst != f'.blk[b].phis[l].dst
  {
    hide RefMade;
    hide RefBefore;
    hide PhisClosed;
    hide PhisOf;
    var n := |p.f.blk[b].ins|;
    CleanMade(p, p.f.blk[b].targ, b, n);
    RefMoved(p, f', p.f.blk[b].targ, b, n);
    var _ := PhisSplit(p, b, f'.blk[b].phis);
  }

  lemma OneDef(p: Plan, f': Fn, v: Val, b: nat, i: int, b': nat, i': int)
    requires GoodPlan(p) && Promoted(p, f') && DefAt(f', v, b, i) && DefAt(f', v, b', i')
    ensures b == b' && i == i'
  {
    hide *;
    var j := DefIsMade(p, f', v, b, i);
    var j' := DefIsMade(p, f', v, b', i');
    MadeOnce(p, v, b, j, b', j');
  }

  // The rewritten function has one definition for each value, above all its uses.
  lemma PromotedStrict(p: Plan, f': Fn)
    requires GoodPlan(p) && NoUndefined(p) && Promoted(p, f')
    ensures StrictSsa(f')
  {
    hide GoodPlan;
    hide NoUndefined;
    hide PhisOf;
    hide DefAt;
    hide RefBefore;
    hide PhiArgBefore;
    forall v: Val, b: nat, i: int, b': nat, i': int | DefAt(f', v, b, i) && DefAt(f', v, b', i')
      ensures b == b' && i == i'
    {
      OneDef(p, f', v, b, i, b', i');
    }
    forall b: nat, i: nat | b < |f'.blk| && i < |f'.blk[b].ins|
      ensures RefBefore(f', Ref0(f'.blk[b].ins[i]), b, i) && RefBefore(f', Ref1(f'.blk[b].ins[i]), b, i)
    {
      InsStrict(p, f', b, i);
    }
    forall b: nat | b < |f'.blk|
      ensures RefBefore(f', f'.blk[b].targ, b, |f'.blk[b].ins|)
      ensures forall k: nat, l: nat :: k < l < |f'.blk[b].phis| ==> f'.blk[b].phis[k].dst != f'.blk[b].phis[l].dst
    {
      EndStrict(p, f', b);
    }
    forall b: nat, k: nat, q: nat | b < |f'.blk| && k < |f'.blk[b].phis| && Edge(f'.g, q, b) && q < |f'.blk|
      ensures PhiArgBefore(f', f'.blk[b].phis[k], q)
    {
      PhisMade(p, f', b, k, q);
    }
  }
}
