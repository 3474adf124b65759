// Why slot promotion (mir/mem2reg.c) keeps a function's meaning.
//
// The renaming walk keeps a stack of values per slot.  Here the stacks are
// functions of the place in the program; the walk itself is in Mem2Reg.dfy.
module Promotion {
  import opened Graph
  import opened DomTree
  import opened Mir
  import CfgPass

  // A function, the slots to promote, its dominator tree and where the phis go.
  datatype Plan = Plan(f: Fn, S: set<nat>, d: Idom, F: set<(nat, nat)>)

  // ---- which slots may be promoted ---------------------------------------------

  // A reference that is no slot's address and no value made by this pass.
  ghost predicate Clean(r: Ref, S: set<nat>) {
    r.Use? ==> !r.v.PhiTemp? && !r.v.ConstTemp? && (r.v.Temp? ==> r.v.id !in S)
  }

  ghost predicate CleanIns(x: Ins, S: set<nat>) {
    && (DstOf(x).Some? ==> DstOf(x).value.Temp? && (DstOf(x).value.id in S ==> x.Alloca?))
    && (match x
        case Load(_, a, _, _) => Clean(a, S) || SlotOf(a, S).Some?
        case Store(r, a, _, _) => Clean(r, S) && (Clean(a, S) || SlotOf(a, S).Some?)
        case _ => Clean(Ref0(x), S) && Clean(Ref1(x), S))
  }

  ghost predicate CleanPhi(phi: Phi, S: set<nat>) {
    && phi.dst.Temp? && phi.dst.id !in S
    && (forall k :: 0 <= k < |phi.args| ==> Clean(Use(phi.args[k].v), S))
  }

  predicate Accesses(x: Ins, s: nat) {
    (x.Load? || x.Store?) && x.addr == Use(Temp(s))
  }

  ghost predicate AccessAt(f: Fn, s: nat, b: nat, i: nat) {
    b < |f.blk| && i < |f.blk[b].ins| && Accesses(f.blk[b].ins[i], s)
  }

  // The type a slot is accessed with.
  ghost function SlotTy(f: Fn, s: nat): (ty: nat)
    ensures (exists b: nat, i: nat :: AccessAt(f, s, b, i)) ==>
              exists b: nat, i: nat :: AccessAt(f, s, b, i) && f.blk[b].ins[i].ty == ty
  {
    if exists b: nat, i: nat :: AccessAt(f, s, b, i)
    then var b: nat, i: nat :| AccessAt(f, s, b, i); f.blk[b].ins[i].ty
    else 0
  }

  // Each slot of S is accessed whole, and with one type only.
  ghost predicate Uniform(f: Fn, S: set<nat>) {
    forall s: nat, b: nat, i: nat :: s in S && AccessAt(f, s, b, i) ==>
      f.blk[b].ins[i].ty == SlotTy(f, s) && !f.blk[b].ins[i].disp
  }

  // No address of a slot of S is used but to load and store it whole, with one type.
  ghost predicate Private(f: Fn, S: set<nat>) {
    && Uniform(f, S)
    && (forall b: nat, i: nat :: b < |f.blk| && i < |f.blk[b].ins| ==> CleanIns(f.blk[b].ins[i], S))
    && (forall b: nat, k: nat :: b < |f.blk| && k < |f.blk[b].phis| ==> CleanPhi(f.blk[b].phis[k], S))
    && (forall b: nat :: b < |f.blk| ==> Clean(f.blk[b].targ, S))
  }

  predicate Stores(f: Fn, S: set<nat>, s: nat, b: nat, i: nat)
    requires b < |f.blk| && i < |f.blk[b].ins|
  {
    f.blk[b].ins[i].Store? && SlotOf(f.blk[b].ins[i].addr, S) == Some(s)
  }

  predicate Loads(f: Fn, S: set<nat>, s: nat, b: nat, i: nat)
    requires b < |f.blk| && i < |f.blk[b].ins|
  {
    f.blk[b].ins[i].Load? && SlotOf(f.blk[b].ins[i].addr, S) == Some(s)
  }

  ghost predicate StoresIn(f: Fn, S: set<nat>, s: nat, b: nat)
    requires b < |f.blk|
  {
    exists i: nat :: i < |f.blk[b].ins| && Stores(f, S, s, b, i)
  }

  // Phis cover the iterated dominance frontier of the stores.
  ghost predicate PhisClosed(p: Plan) {
    && (forall s: nat, b: nat :: (s, b) in p.F ==> s in p.S && 0 < b < |p.f.blk|)
    && (forall s: nat, b: nat, x: nat ::
          (s in p.S && b < |p.f.blk| && x < |p.f.blk|
           && (StoresIn(p.f, p.S, s, b) || (s, b) in p.F)
           && CfgPass.InFrontier(p.f.g, b, x)) ==> (s, x) in p.F)
  }

  ghost predicate IsDomTree(g: Cfg, d: Idom) {
    && |d| == |g.s1| && Complete(d)
    && (forall a: nat, b: nat :: b < |d| ==> (OnChain(d, a, b) <==> Dom(g, a, b)))
  }

  ghost predicate GoodPlan(p: Plan) {
    && WfFn(p.f) && StrictSsa(p.f) && Private(p.f, p.S)
    && IsDomTree(p.f.g, p.d)
    && PhisClosed(p)
    && (forall q: nat :: !Edge(p.f.g, q, 0))
  }

  // ---- the value stacks -----------------------------------------------------------

  // The value a store puts in the slot: its operand, or a copy of the constant.
  function StoredVal(r: Ref, b: nat, i: nat): Val {
    if r.Use? then r.v else ConstTemp(b, i)
  }

  // What the first i instructions of block b push for slot s.
  function Pushed(p: Plan, s: nat, b: nat, i: nat): seq<Val>
    requires b < |p.f.blk| && i <= |p.f.blk[b].ins|
  {
    if i == 0 then []
    else
      Pushed(p, s, b, i - 1) +
      if Stores(p.f, p.S, s, b, i - 1) then [StoredVal(p.f.blk[b].ins[i - 1].val, b, i - 1)] else []
  }

  ghost function EntryStack(p: Plan, s: nat, b: nat): seq<Val>
    requires |p.d| == |p.f.blk| && Complete(p.d) && b < |p.f.blk|
    decreases b, 0
  {
    if b == 0 then [] else assert Placed(p.d, b); OutStack(p, s, p.d[b].value)
  }

  ghost function InStack(p: Plan, s: nat, b: nat): seq<Val>
    requires |p.d| == |p.f.blk| && Complete(p.d) && b < |p.f.blk|
    decreases b, 1
  {
    EntryStack(p, s, b) + if (s, b) in p.F then [PhiTemp(s, b)] else []
  }

  ghost function OutStack(p: Plan, s: nat, b: nat): seq<Val>
    requires |p.d| == |p.f.blk| && Complete(p.d) && b < |p.f.blk|
    decreases b, 2
  {
    InStack(p, s, b) + Pushed(p, s, b, |p.f.blk[b].ins|)
  }

  // Position -1 is before the phis.
  ghost function StackAt(p: Plan, s: nat, b: nat, i: int): seq<Val>
    requires |p.d| == |p.f.blk| && Complete(p.d) && b < |p.f.blk| && -1 <= i <= |p.f.blk[b].ins|
  {
    if i == -1 then EntryStack(p, s, b) else InStack(p, s, b) + Pushed(p, s, b, i)
  }

  function Top(st: seq<Val>): Option<Val> {
    if |st| == 0 then None else Some(st[|st| - 1])
  }

  // No load and no edge into a phi meets an empty stack.
  ghost predicate NoUndefined(p: Plan)
    requires |p.d| == |p.f.blk| && Complete(p.d) && WfFn(p.f)
  {
    && (forall s: nat, b: nat, i: nat :: s in p.S && b < |p.f.blk| && i < |p.f.blk[b].ins| && Loads(p.f, p.S, s, b, i)
          ==> StackAt(p, s, b, i) != [])
    && (forall s: nat, q: nat, x: nat :: (s, x) in p.F && Edge(p.f.g, q, x) ==> OutStack(p, s, q) != [])
  }

  // ---- the rewritten function --------------------------------------------------------

  ghost function Rewritten(p: Plan, b: nat, i: nat): Ins
    requires |p.d| == |p.f.blk| && Complete(p.d) && b < |p.f.blk| && i < |p.f.blk[b].ins|
  {
    var x := p.f.blk[b].ins[i];
    match x
    case Load(d, a, ty, _) =>
      if SlotOf(a, p.S).Some? then
        var cur := Top(StackAt(p, SlotOf(a, p.S).value, b, i));
        if cur.Some? then Copy(d, Use(cur.value), ty) else x
      else x
    case Store(r, a, ty, _) =>
      if SlotOf(a, p.S).Some? then (if r.Use? then Nop else Copy(ConstTemp(b, i), r, ty)) else x
    case _ => x
  }

  predicate Dropped(x: Ins, S: set<nat>) {
    x.Alloca? && x.dst.Temp? && x.dst.id in S
  }

  // The first i instructions of block b, rewritten, the allocas of S gone.
  ghost function RewrittenList(p: Plan, b: nat, i: nat): seq<Ins>
    requires |p.d| == |p.f.blk| && Complete(p.d) && b < |p.f.blk| && i <= |p.f.blk[b].ins|
  {
    if i == 0 then []
    else
      RewrittenList(p, b, i - 1) +
      if Dropped(p.f.blk[b].ins[i - 1], p.S) then [] else [Rewritten(p, b, i - 1)]
  }

  // The phis of block b: one new one for each slot that needs it, in front of the old.
  ghost predicate PhisOf(p: Plan, b: nat, phis: seq<Phi>)
    requires |p.d| == |p.f.blk| && Complete(p.d) && b < |p.f.blk| && WfFn(p.f)
  {
    exists n: nat :: n <= |phis| && phis[n..] == p.f.blk[b].phis && NewPhis(p, b, phis[..n])
  }

  // How many arguments come from q, and how many edges from q to x there are.
  function CountFrom(args: seq<PhiArg>, q: nat): nat {
    if |args| == 0 then 0 else CountFrom(args[..|args| - 1], q) + if args[|args| - 1].blk == q then 1 else 0
  }

  function EdgeCount(g: Cfg, q: nat, x: nat): nat
    requires q < |g.s1| == |g.s2|
  {
    (if g.s1[q] == Some(x) then 1 else 0) + (if g.s2[q] == Some(x) then 1 else 0)
  }

  // One phi for each slot that needs one in b, with one argument for each edge into b: the
  // slot's value at the end of the edge's source.
  ghost predicate NewPhis(p: Plan, b: nat, phis: seq<Phi>)
    requires |p.d| == |p.f.blk| && Complete(p.d) && b < |p.f.blk| && WfFn(p.f)
  {
    && (forall s: nat :: (s, b) in p.F ==> exists k :: 0 <= k < |phis| && phis[k].dst == PhiTemp(s, b))
    && (forall k :: 0 <= k < |phis| ==> phis[k].dst.PhiTemp? && phis[k].dst.blk == b && (phis[k].dst.slot, b) in p.F)
    && (forall j, k :: 0 <= j < k < |phis| ==> phis[j].dst != phis[k].dst)
    && (forall k: nat, q: nat :: k < |phis| && phis[k].dst.PhiTemp? && Edge(p.f.g, q, b) ==>
          ArgFrom(phis[k].args, q) == Top(OutStack(p, phis[k].dst.slot, q)))
    && (forall k: nat, q: nat :: k < |phis| && q < |p.f.blk| ==> CountFrom(phis[k].args, q) == EdgeCount(p.f.g, q, b))
  }

  ghost predicate Promoted(p: Plan, f': Fn)
    requires |p.d| == |p.f.blk| && Complete(p.d) && WfFn(p.f)
  {
    && f'.g == p.f.g && |f'.blk| == |p.f.blk|
    && (forall b: nat :: b < |f'.blk| ==>
          && f'.blk[b].ins == RewrittenList(p, b, |p.f.blk[b].ins|)
          && f'.blk[b].term == p.f.blk[b].term && f'.blk[b].targ == p.f.blk[b].targ
          && PhisOf(p, b, f'.blk[b].phis))
  }

  // ---- where a stacked value comes from ------------------------------------------------

  // Position (c, j) is a store to s or a phi for s, and gives the slot the value v.
  ghost predicate SourceAt(p: Plan, s: nat, v: Val, c: nat, j: int) {
    && c < |p.f.blk|
    && (if j == -1 then (s, c) in p.F && v == PhiTemp(s, c)
        else && 0 <= j < |p.f.blk[c].ins| && Stores(p.f, p.S, s, c, j)
             && v == StoredVal(p.f.blk[c].ins[j].val, c, j))
  }

  ghost predicate HasSource(p: Plan, s: nat, v: Val, b: nat, i: int) {
    exists c: nat, j: int :: SourceAt(p, s, v, c, j) && Before(p.f.g, c, j, b, i)
  }

  lemma {:induction false} PushedSource(p: Plan, s: nat, v: Val, b: nat, i: nat)
    requires b < |p.f.blk| && i <= |p.f.blk[b].ins| && v in Pushed(p, s, b, i)
    ensures HasSource(p, s, v, b, i)
  {
    if Stores(p.f, p.S, s, b, i - 1) && v == StoredVal(p.f.blk[b].ins[i - 1].val, b, i - 1) {
      assert SourceAt(p, s, v, b, i - 1) && Before(p.f.g, b, i - 1, b, i);
    } else {
      PushedSource(p, s, v, b, i - 1);
      var c: nat, j: int :| SourceAt(p, s, v, c, j) && Before(p.f.g, c, j, b, i - 1);
      assert Before(p.f.g, c, j, b, i);
    }
  }

  // Every value on a stack was put there by a store or phi that dominates the place.
  lemma {:induction false} StackSource(p: Plan, s: nat, v: Val, b: nat, i: int)
    requires GoodPlan(p) && b < |p.f.blk| && -1 <= i <= |p.f.blk[b].ins|
    requires v in StackAt(p, s, b, i)
    ensures HasSource(p, s, v, b, i)
    decreases b, i
  {
    if i == -1 {
      assert b != 0 && Placed(p.d, b);
      var u := p.d[b].value;
      assert StackAt(p, s, u, |p.f.blk[u].ins|) == OutStack(p, s, u);
      StackSource(p, s, v, u, |p.f.blk[u].ins|);
      var c: nat, j: int :| SourceAt(p, s, v, c, j) && Before(p.f.g, c, j, u, |p.f.blk[u].ins|);
      ParentBefore(p, b, |p.f.blk[u].ins|, i);
      BeforeTrans(p.f.g, c, j, u, |p.f.blk[u].ins|, b, i);
    } else if v in Pushed(p, s, b, i) {
      PushedSource(p, s, v, b, i);
    } else if (s, b) in p.F && v == PhiTemp(s, b) {
      assert SourceAt(p, s, v, b, -1) && Before(p.f.g, b, -1, b, i);
    } else {
      StackSource(p, s, v, b, -1);
      var c: nat, j: int :| SourceAt(p, s, v, c, j) && Before(p.f.g, c, j, b, -1);
      assert Before(p.f.g, c, j, b, i);
    }
  }

  lemma ParentBefore(p: Plan, b: nat, i: int, j: int)
    requires GoodPlan(p) && 0 < b < |p.f.blk|
    ensures p.d[b].Some? && p.d[b].value < b && Before(p.f.g, p.d[b].value, i, b, j)
  {
    assert Placed(p.d, b);
    assert OnChain(p.d, p.d[b].value, b);
  }

  // No position of the old function redefines a value while it is on a stack.
  lemma NotRedefined(p: Plan, s: nat, v: Val, b: nat, i: int)
    requires GoodPlan(p) && b < |p.f.blk| && -1 <= i <= |p.f.blk[b].ins|
    requires v in StackAt(p, s, b, i) && v.Temp?
    ensures !DefAt(p.f, v, b, i)
  {
    if DefAt(p.f, v, b, i) {
      StackSource(p, s, v, b, i);
      var c: nat, j: int :| SourceAt(p, s, v, c, j) && Before(p.f.g, c, j, b, i);
      assert RefBefore(p.f, Ref0(p.f.blk[c].ins[j]), c, j);
      var b0: nat, i0: int :| DefAt(p.f, v, b0, i0) && Before(p.f.g, b0, i0, c, j);
      BeforeAsym(p.f.g, c, j, b, i);
    }
  }

  // ---- stacks agree along edges that need no phi ----------------------------------------

  lemma {:induction false} NoPushes(p: Plan, s: nat, b: nat, i: nat)
    requires b < |p.f.blk| && i <= |p.f.blk[b].ins| && !StoresIn(p.f, p.S, s, b)
    ensures Pushed(p, s, b, i) == []
  {
    if i > 0 {
      NoPushes(p, s, b, i - 1);
    }
  }

  lemma {:induction false} ClimbToIdom(p: Plan, s: nat, r: nat, q: nat, x: nat)
    requires GoodPlan(p) && s in p.S && Edge(p.f.g, q, x) && (s, x) !in p.F
    requires x < |p.f.blk| && r < |p.f.blk| && 0 < x
    requires p.d[x].Some? && OnChain(p.d, r, q) && OnChain(p.d, p.d[x].value, r)
    ensures OutStack(p, s, r) == OutStack(p, s, p.d[x].value)
    decreases r
  {
    var u := p.d[x].value;
    if r != u {
      ChainLow(p.d, u, r);
      assert !SDom(p.f.g, r, x) by {
        if SDom(p.f.g, r, x) {
          assert OnChain(p.d, r, x);
          ChainLow(p.d, r, u);
        }
      }
      assert CfgPass.InFrontier(p.f.g, r, x);
      NoPushes(p, s, r, |p.f.blk[r].ins|);
      assert Placed(p.d, r);
      var t := p.d[r].value;
      ChainTrans(p.d, t, r, q);
      ClimbToIdom(p, s, t, q, x);
      assert InStack(p, s, r) == EntryStack(p, s, r) + [] == OutStack(p, s, t) + [];
      assert OutStack(p, s, r) == InStack(p, s, r) + [];
    }
  }

  // The value a slot has at the end of a predecessor is the one the dominator
  // tree says, unless the block has a phi for it.
  lemma EdgeAgrees(p: Plan, s: nat, q: nat, x: nat)
    requires GoodPlan(p) && s in p.S && Edge(p.f.g, q, x) && (s, x) !in p.F
    ensures OutStack(p, s, q) == InStack(p, s, x)
  {
    assert x != 0 && Placed(p.d, x);
    assert OnChain(p.d, p.d[x].value, x);
    SDomPred(p.f.g, p.d[x].value, q, x);
    ClimbToIdom(p, s, q, q, x);
  }

  // ---- the two functions run in step ---------------------------------------------------------

  ghost predicate Agree(S: set<nat>, env: Env, env': Env) {
    forall id: nat :: id !in S ==> Get(env, Temp(id)) == Get(env', Temp(id))
  }

  // The slot's memory, read with the slot's type, is what its current value says.
  ghost predicate SlotHolds(p: Plan, sem: Sem, stack: seq<Val>, s: nat, st: State, st': State) {
    stack != [] ==>
      Narrow(SlotTy(p.f, s), Value(sem, st'.env, stack[|stack| - 1])) == Narrow(SlotTy(p.f, s), MemAt(st.mem, s))
  }

  ghost predicate Rel(p: Plan, sem: Sem, b: nat, i: nat, st: State, st': State)
    requires |p.d| == |p.f.blk| && Complete(p.d) && b < |p.f.blk| && i <= |p.f.blk[b].ins|
  {
    && st.w == st'.w
    && Agree(p.S, st.env, st'.env)
    && (forall s: nat :: s in p.S ==> SlotHolds(p, sem, StackAt(p, s, b, i), s, st, st'))
  }

  // A load from a slot becomes a copy of the value on top of the slot's stack.
  lemma LoadAgrees(p: Plan, sem: Sem, b: nat, i: nat, st: State, st': State, s: nat)
    requires GoodPlan(p) && NoUndefined(p) && b < |p.f.blk| && i < |p.f.blk[b].ins| && Rel(p, sem, b, i, st, st')
    requires Loads(p.f, p.S, s, b, i)
    ensures var x := p.f.blk[b].ins[i];
            var s1 := StepIns(sem, p.S, x, st);
            var s1' := if Dropped(x, p.S) then st' else StepIns(sem, {}, Rewritten(p, b, i), st');
            s1.w == s1'.w && Agree(p.S, s1.env, s1'.env)
  {
    hide StrictSsa;
    hide PhisClosed;
    hide StackAt;
    hide Narrow;
    assert AccessAt(p.f, s, b, i);
    assert SlotHolds(p, sem, StackAt(p, s, b, i), s, st, st');
  }

  // One instruction keeps the values outside the slots and the world in step.
  lemma StepAgrees(p: Plan, sem: Sem, b: nat, i: nat, st: State, st': State)
    requires GoodPlan(p) && NoUndefined(p) && b < |p.f.blk| && i < |p.f.blk[b].ins| && Rel(p, sem, b, i, st, st')
    ensures var x := p.f.blk[b].ins[i];
            var s1 := StepIns(sem, p.S, x, st);
            var s1' := if Dropped(x, p.S) then st' else StepIns(sem, {}, Rewritten(p, b, i), st');
            s1.w == s1'.w && Agree(p.S, s1.env, s1'.env)
  {
    hide StrictSsa;
    hide PhisClosed;
    hide StackAt;
    hide NoUndefined;
    hide SlotHolds;
    var x := p.f.blk[b].ins[i];
    assert CleanIns(x, p.S);
    if x.Load? && SlotOf(x.addr, p.S).Some? {
      LoadAgrees(p, sem, b, i, st, st', SlotOf(x.addr, p.S).value);
    } else {
      EvalAgrees(sem, p.S, Ref0(x), st.env, st'.env);
      if !x.Store? || SlotOf(x.addr, p.S).None? {
        EvalAgrees(sem, p.S, Ref1(x), st.env, st'.env);
      }
    }
  }

  lemma CopyNotStacked(p: Plan, s: nat, b: nat, i: nat)
    requires GoodPlan(p) && b < |p.f.blk| && i < |p.f.blk[b].ins|
    ensures ConstTemp(b, i) !in StackAt(p, s, b, i)
  {
    if ConstTemp(b, i) in StackAt(p, s, b, i) {
      StackSource(p, s, ConstTemp(b, i), b, i);
    }
  }

  // A store to the slot pushes the value it puts in memory.
  lemma StoreHolds(p: Plan, sem: Sem, b: nat, i: nat, st: State, st': State, s: nat)
    requires GoodPlan(p) && NoUndefined(p) && b < |p.f.blk| && i < |p.f.blk[b].ins| && Rel(p, sem, b, i, st, st')
    requires s in p.S
    requires Stores(p.f, p.S, s, b, i)
    ensures var x := p.f.blk[b].ins[i];
            var s1 := StepIns(sem, p.S, x, st);
            var s1' := if Dropped(x, p.S) then st' else StepIns(sem, {}, Rewritten(p, b, i), st');
            SlotHolds(p, sem, StackAt(p, s, b, i + 1), s, s1, s1')
  {
    hide StrictSsa;
    hide PhisClosed;
    hide NoUndefined;
    hide SlotHolds;
    var x := p.f.blk[b].ins[i];
    assert CleanIns(x, p.S);
    EvalAgrees(sem, p.S, x.val, st.env, st'.env);
    var v := StoredVal(x.val, b, i);
    assert StackAt(p, s, b, i + 1) == StackAt(p, s, b, i) + [v];
    assert AccessAt(p.f, s, b, i);
    NarrowTwice(x.ty, Eval(sem, st.env, x.val));
    TopHolds(p, sem, StackAt(p, s, b, i), v, s, StepIns(sem, p.S, x, st),
             if Dropped(x, p.S) then st' else StepIns(sem, {}, Rewritten(p, b, i), st'));
  }

  // The value on top of a slot's stack is not redefined by an instruction that is kept.
  lemma TopKept(p: Plan, b: nat, i: nat, s: nat, v: Val)
    requires GoodPlan(p) && b < |p.f.blk| && i < |p.f.blk[b].ins| && s in p.S && v in StackAt(p, s, b, i)
    requires !Dropped(p.f.blk[b].ins[i], p.S)
    ensures DstOf(Rewritten(p, b, i)) != Some(v)
  {
    CopyNotStacked(p, s, b, i);
    if v.Temp? {
      NotRedefined(p, s, v, b, i);
    }
  }

  lemma StepHolds(p: Plan, sem: Sem, b: nat, i: nat, st: State, st': State, s: nat)
    requires GoodPlan(p) && NoUndefined(p) && b < |p.f.blk| && i < |p.f.blk[b].ins| && Rel(p, sem, b, i, st, st')
    requires s in p.S
    ensures var x := p.f.blk[b].ins[i];
            var s1 := StepIns(sem, p.S, x, st);
            var s1' := if Dropped(x, p.S) then st' else StepIns(sem, {}, Rewritten(p, b, i), st');
            SlotHolds(p, sem, StackAt(p, s, b, i + 1), s, s1, s1')
  {
    hide StrictSsa;
    hide PhisClosed;
    hide NoUndefined;
    hide StepIns;
    hide SlotHolds;
    hide Value;
    var x := p.f.blk[b].ins[i];
    var stack := StackAt(p, s, b, i);
    if Stores(p.f, p.S, s, b, i) {
      StoreHolds(p, sem, b, i, st, st', s);
    } else {
      assert SlotHolds(p, sem, stack, s, st, st');
      assert CleanIns(x, p.S);
      assert StackAt(p, s, b, i + 1) == stack;
      if stack != [] && !Dropped(x, p.S) {
        var v := stack[|stack| - 1];
        assert v in stack;
        TopKept(p, b, i, s, v);
        StepFrame(sem, {}, Rewritten(p, b, i), st', v);
      }
      MemKept(p, sem, b, i, st, s);
      SlotHoldsOn(p, sem, stack, s, st, st', StepIns(sem, p.S, x, st),
                  if Dropped(x, p.S) then st' else StepIns(sem, {}, Rewritten(p, b, i), st'));
    }
  }

  // One instruction of the function, and what is left of it, keep the relation.
  lemma RelStep(p: Plan, sem: Sem, b: nat, i: nat, st: State, st': State)
    requires GoodPlan(p) && NoUndefined(p) && b < |p.f.blk| && i < |p.f.blk[b].ins| && Rel(p, sem, b, i, st, st')
    ensures Rel(p, sem, b, i + 1, StepIns(sem, p.S, p.f.blk[b].ins[i], st),
                if Dropped(p.f.blk[b].ins[i], p.S) then st' else StepIns(sem, {}, Rewritten(p, b, i), st'))
  {
    hide StrictSsa;
    hide PhisClosed;
    hide Private;
    hide NoUndefined;
    hide StepIns;
    hide StackAt;
    hide SlotHolds;
    hide Agree;
    StepAgrees(p, sem, b, i, st, st');
    forall s: nat | s in p.S
      ensures SlotHolds(p, sem, StackAt(p, s, b, i + 1), s, StepIns(sem, p.S, p.f.blk[b].ins[i], st),
                        if Dropped(p.f.blk[b].ins[i], p.S) then st' else StepIns(sem, {}, Rewritten(p, b, i), st'))
    {
      StepHolds(p, sem, b, i, st, st', s);
    }
  }

  lemma {:induction false} BlockInStep(p: Plan, sem: Sem, b: nat, i: nat, st: State, st': State)
    requires GoodPlan(p) && NoUndefined(p) && b < |p.f.blk| && i <= |p.f.blk[b].ins| && Rel(p, sem, b, 0, st, st')
    ensures Rel(p, sem, b, i, Exec(sem, p.S, p.f.blk[b].ins[..i], st), Exec(sem, {}, RewrittenList(p, b, i), st'))
  {
    hide StrictSsa;
    hide PhisClosed;
    hide Private;
    hide NoUndefined;
    hide StepIns;
    hide Rel;
    if i == 0 {
      assert p.f.blk[b].ins[..0] == [];
    } else {
      BlockInStep(p, sem, b, i - 1, st, st');
      var x := p.f.blk[b].ins[i - 1];
      var s1 := Exec(sem, p.S, p.f.blk[b].ins[..i - 1], st);
      var s1' := Exec(sem, {}, RewrittenList(p, b, i - 1), st');
      assert p.f.blk[b].ins[..i] == p.f.blk[b].ins[..i - 1] + [x];
      ExecSnoc(sem, p.S, p.f.blk[b].ins[..i - 1], x, st);
      if !Dropped(x, p.S) {
        ExecSnoc(sem, {}, RewrittenList(p, b, i - 1), Rewritten(p, b, i - 1), st');
      } else {
        assert RewrittenList(p, b, i) == RewrittenList(p, b, i - 1);
      }
      RelStep(p, sem, b, i - 1, s1, s1');
    }
  }

  // The new phis come first, the old ones after them; no two define the same value.
  lemma PhisSplit(p: Plan, x: nat, phis: seq<Phi>) returns (n: nat)
    requires GoodPlan(p) && x < |p.f.blk| && PhisOf(p, x, phis)
    ensures n <= |phis| && phis[n..] == p.f.blk[x].phis && NewPhis(p, x, phis[..n])
    ensures forall i, j :: 0 <= i < j < |phis| ==> phis[i].dst != phis[j].dst
    ensures forall k :: 0 <= k < n ==> phis[k].dst.PhiTemp?
  {
    hide CountFrom;
    hide StrictSsa;
    hide Private;
    hide PhisClosed;
    hide OutStack;
    n :| n <= |phis| && phis[n..] == p.f.blk[x].phis && NewPhis(p, x, phis[..n]);
    AllDistinct(p, x, phis, n);
    forall k | 0 <= k < n ensures phis[k].dst.PhiTemp? {
      assert phis[k] == phis[..n][k];
    }
  }

  lemma OldPhisFit(p: Plan, q: nat, x: nat)
    requires GoodPlan(p) && Edge(p.f.g, q, x)
    ensures q < |p.f.blk| && x < |p.f.blk|
    ensures forall k :: 0 <= k < |p.f.blk[x].phis| ==> CleanPhi(p.f.blk[x].phis[k], p.S) && PhiArgBefore(p.f, p.f.blk[x].phis[k], q)
  {
    hide CleanPhi;
    hide PhiArgBefore;
    hide PhisClosed;
  }

  lemma EntryAgrees(p: Plan, sem: Sem, q: nat, x: nat, phis: seq<Phi>, env: Env, env': Env)
    requires GoodPlan(p) && Edge(p.f.g, q, x) && PhisOf(p, x, phis) && Agree(p.S, env, env')
    ensures Agree(p.S, EnterPhis(sem, p.f.blk[x].phis, q, env, env), EnterPhis(sem, phis, q, env', env'))
  {
    hide *;
    OldPhisFit(p, q, x);
    var n := PhisSplit(p, x, phis);
    PhisAgree(p, sem, q, phis, n, env, env');
  }

  lemma PhisAgree(p: Plan, sem: Sem, q: nat, phis: seq<Phi>, n: nat, env: Env, env': Env)
    requires n <= |phis| && q < |p.f.blk| && Agree(p.S, env, env')
    requires forall k :: 0 <= k < |phis[n..]| ==> CleanPhi(phis[n..][k], p.S) && PhiArgBefore(p.f, phis[n..][k], q)
    requires forall k :: 0 <= k < n ==> phis[k].dst.PhiTemp?
    requires forall i, j :: 0 <= i < j < |phis| ==> phis[i].dst != phis[j].dst
    ensures Agree(p.S, EnterPhis(sem, phis[n..], q, env, env), EnterPhis(sem, phis, q, env', env'))
  {
    forall id: nat | id !in p.S
      ensures Get(EnterPhis(sem, phis[n..], q, env, env), Temp(id)) == Get(EnterPhis(sem, phis, q, env', env'), Temp(id))
    {
      if k: nat :| k < |phis[n..]| && phis[n..][k].dst == Temp(id) {
        OldPhiAgrees(p, sem, q, phis, n, k, env, env');
      } else {
        OtherAgrees(p, sem, q, phis, n, id, env, env');
      }
    }
  }

  lemma OldPhiAgrees(p: Plan, sem: Sem, q: nat, phis: seq<Phi>, n: nat, k: nat, env: Env, env': Env)
    requires n + k < |phis| && q < |p.f.blk| && Agree(p.S, env, env')
    requires CleanPhi(phis[n..][k], p.S) && PhiArgBefore(p.f, phis[n..][k], q)
    requires forall i, j :: 0 <= i < j < |phis| ==> phis[i].dst != phis[j].dst
    ensures Get(EnterPhis(sem, phis[n..], q, env, env), phis[n + k].dst) == Get(EnterPhis(sem, phis, q, env', env'), phis[n + k].dst)
  {
    PhiValue(sem, phis[n..], q, env, env, k);
    PhiValue(sem, phis, q, env', env', n + k);
    ArgAmong(phis[n + k].args, q);
    EvalAgrees(sem, p.S, Use(ArgFrom(phis[n + k].args, q).value), env, env');
  }

  lemma OtherAgrees(p: Plan, sem: Sem, q: nat, phis: seq<Phi>, n: nat, id: nat, env: Env, env': Env)
    requires n <= |phis| && id !in p.S && Agree(p.S, env, env')
    requires forall k :: 0 <= k < n ==> phis[k].dst.PhiTemp?
    requires forall k :: 0 <= k < |phis[n..]| ==> phis[n..][k].dst != Temp(id)
    ensures Get(EnterPhis(sem, phis[n..], q, env, env), Temp(id)) == Get(EnterPhis(sem, phis, q, env', env'), Temp(id))
  {
    PhiUnchanged(sem, phis[n..], q, env, env, Temp(id));
    forall k | 0 <= k < |phis| ensures phis[k].dst != Temp(id) {
      assert k >= n ==> phis[k] == phis[n..][k - n];
    }
    PhiUnchanged(sem, phis, q, env', env', Temp(id));
  }

  lemma {:induction false} ArgAmong(args: seq<PhiArg>, q: nat)
    requires ArgFrom(args, q).Some?
    ensures exists k :: 0 <= k < |args| && args[k].v == ArgFrom(args, q).value
  {
    if args[0].blk != q {
      ArgAmong(args[1..], q);
      var k :| 0 <= k < |args[1..]| && args[1..][k].v == ArgFrom(args[1..], q).value;
      assert args[k + 1].v == ArgFrom(args, q).value;
    } else {
      assert args[0].v == ArgFrom(args, q).value;
    }
  }

  lemma AllDistinct(p: Plan, x: nat, phis: seq<Phi>, n: nat)
    requires GoodPlan(p) && x < |p.f.blk| && n <= |phis|
    requires phis[n..] == p.f.blk[x].phis && NewPhis(p, x, phis[..n])
    ensures forall i, j :: 0 <= i < j < |phis| ==> phis[i].dst != phis[j].dst
  {
    hide CountFrom;
    hide OutStack;
    hide PhisClosed;
    forall i, j | 0 <= i < j < |phis| ensures phis[i].dst != phis[j].dst {
      assert i < n ==> phis[i] == phis[..n][i];
      assert j < n ==> phis[j] == phis[..n][j];
      assert i >= n ==> phis[i] == p.f.blk[x].phis[i - n];
      if j >= n {
        assert phis[j] == p.f.blk[x].phis[j - n];
        assert CleanPhi(p.f.blk[x].phis[j - n], p.S);
      }
    }
  }

  lemma EntryHolds(p: Plan, sem: Sem, q: nat, x: nat, phis: seq<Phi>, s: nat, st: State, st': State)
    requires GoodPlan(p) && NoUndefined(p) && Edge(p.f.g, q, x) && PhisOf(p, x, phis) && s in p.S
    requires SlotHolds(p, sem, OutStack(p, s, q), s, st, st')
    ensures SlotHolds(p, sem, InStack(p, s, x), s, st, st'.(env := EnterPhis(sem, phis, q, st'.env, st'.env)))
  {
    hide CountFrom;
    var n := PhisSplit(p, x, phis);
    if (s, x) in p.F {
      var k :| 0 <= k < n && phis[..n][k].dst == PhiTemp(s, x);
      assert ArgFrom(phis[..n][k].args, q) == Top(OutStack(p, s, q));
      assert OutStack(p, s, q) != [];
      PhiHolds(p, sem, q, x, phis, k, s, st, st');
    } else {
      EdgeAgrees(p, s, q, x);
      assert StackAt(p, s, x, -1) + [] == InStack(p, s, x);
      if InStack(p, s, x) != [] {
        PhisSpare(p, s, x, phis, n, InStack(p, s, x)[|InStack(p, s, x)| - 1]);
      }
      CarryHolds(p, sem, InStack(p, s, x), q, phis, s, st, st');
    }
  }

  // Without a phi the slot's value is carried over the edge.
  lemma CarryHolds(p: Plan, sem: Sem, stack: seq<Val>, q: nat, phis: seq<Phi>, s: nat, st: State, st': State)
    requires SlotHolds(p, sem, stack, s, st, st')
    requires stack != [] ==> forall k :: 0 <= k < |phis| ==> phis[k].dst != stack[|stack| - 1]
    ensures SlotHolds(p, sem, stack, s, st, st'.(env := EnterPhis(sem, phis, q, st'.env, st'.env)))
  {
    if stack != [] {
      PhiUnchanged(sem, phis, q, st'.env, st'.env, stack[|stack| - 1]);
    }
  }

  // The slot's new phi receives what memory holds.
  lemma PhiHolds(p: Plan, sem: Sem, q: nat, x: nat, phis: seq<Phi>, k: nat, s: nat, st: State, st': State)
    requires |p.d| == |p.f.blk| && Complete(p.d) && q < |p.f.blk| && x < |p.f.blk| && (s, x) in p.F
    requires k < |phis| && phis[k].dst == PhiTemp(s, x)
    requires forall i, j :: 0 <= i < j < |phis| ==> phis[i].dst != phis[j].dst
    requires OutStack(p, s, q) != [] && ArgFrom(phis[k].args, q) == Top(OutStack(p, s, q))
    requires SlotHolds(p, sem, OutStack(p, s, q), s, st, st')
    ensures SlotHolds(p, sem, InStack(p, s, x), s, st, st'.(env := EnterPhis(sem, phis, q, st'.env, st'.env)))
  {
    PhiValue(sem, phis, q, st'.env, st'.env, k);
  }

  // A value on the stack is not redefined by the phis of a block without one for its slot.
  lemma PhisSpare(p: Plan, s: nat, x: nat, phis: seq<Phi>, n: nat, v: Val)
    requires GoodPlan(p) && x < |p.f.blk| && s in p.S && (s, x) !in p.F && v in StackAt(p, s, x, -1)
    requires n <= |phis| && phis[n..] == p.f.blk[x].phis && NewPhis(p, x, phis[..n])
    ensures forall k :: 0 <= k < |phis| ==> phis[k].dst != v
  {
    StackSource(p, s, v, x, -1);
    var c: nat, j: int :| SourceAt(p, s, v, c, j) && Before(p.f.g, c, j, x, -1);
    if v.Temp? {
      NotRedefined(p, s, v, x, -1);
    }
    forall k | 0 <= k < |phis| ensures phis[k].dst != v {
      if k < n {
        assert phis[k] == phis[..n][k];
        if j != -1 {
          assert CleanIns(p.f.blk[c].ins[j], p.S);
        }
      } else {
        assert phis[k] == p.f.blk[x].phis[k - n];
        assert CleanPhi(p.f.blk[x].phis[k - n], p.S);
        assert phis[k].dst == v ==> DefAt(p.f, v, x, -1);
      }
    }
  }

  ghost predicate ConfRel(p: Plan, sem: Sem, c: Conf, c': Conf)
    requires |p.d| == |p.f.blk| && Complete(p.d)
  {
    match c
    case At(b, st) => c'.At? && c'.blk == b && b < |p.f.blk| && Rel(p, sem, b, 0, st, c'.st)
    case Halt(r, w) => c' == c
  }

  // Along an edge, through the phis.
  lemma EdgeInStep(p: Plan, sem: Sem, b: nat, x: nat, phis: seq<Phi>, st: State, st': State)
    requires GoodPlan(p) && NoUndefined(p) && Edge(p.f.g, b, x) && PhisOf(p, x, phis)
    requires b < |p.f.blk| && Rel(p, sem, b, |p.f.blk[b].ins|, st, st')
    ensures x < |p.f.blk|
    ensures Rel(p, sem, x, 0, st.(env := EnterPhis(sem, p.f.blk[x].phis, b, st.env, st.env)),
                st'.(env := EnterPhis(sem, phis, b, st'.env, st'.env)))
  {
    hide StrictSsa;
    hide PhisClosed;
    hide Private;
    hide NoUndefined;
    hide EnterPhis;
    hide SlotHolds;
    hide Agree;
    hide PhisOf;
    EntryAgrees(p, sem, b, x, phis, st.env, st'.env);
    forall s: nat | s in p.S
      ensures SlotHolds(p, sem, StackAt(p, s, x, 0), s,
                        st.(env := EnterPhis(sem, p.f.blk[x].phis, b, st.env, st.env)),
                        st'.(env := EnterPhis(sem, phis, b, st'.env, st'.env)))
    {
      EndsAre(p, s, b, x);
      EntryHolds(p, sem, b, x, phis, s, st, st');
      EntryMemory(p, sem, InStack(p, s, x), s, st, st'.(env := EnterPhis(sem, phis, b, st'.env, st'.env)),
                  EnterPhis(sem, p.f.blk[x].phis, b, st.env, st.env));
    }
  }

  lemma StepInStep(p: Plan, sem: Sem, f': Fn, b: nat, st: State, st': State)
    requires GoodPlan(p) && NoUndefined(p) && Promoted(p, f') && b < |p.f.blk| && Rel(p, sem, b, 0, st, st')
    ensures ConfRel(p, sem, StepBlk(sem, p.S, p.f, b, st), StepBlk(sem, {}, f', b, st'))
  {
    hide StrictSsa;
    hide PhisClosed;
    hide NoUndefined;
    hide StackAt;
    hide PhisOf;
    hide EnterPhis;
    hide SlotHolds;
    var n := |p.f.blk[b].ins|;
    assert p.f.blk[b].ins[..n] == p.f.blk[b].ins;
    BlockInStep(p, sem, b, n, st, st');
    var s1 := Exec(sem, p.S, p.f.blk[b].ins, st);
    var s1' := Exec(sem, {}, f'.blk[b].ins, st');
    assert Rel(p, sem, b, n, s1, s1');
    EvalAgrees(sem, p.S, p.f.blk[b].targ, s1.env, s1'.env);
    var nx := NextBlock(sem, p.f, b, s1);
    if nx.Some? && nx.value < |p.f.blk| {
      var x := nx.value;
      assert Edge(p.f.g, b, x);
      EdgeInStep(p, sem, b, x, f'.blk[x].phis, s1, s1');
    }
  }

  // The theorem.  Run the function with its slots in memory and the rewritten
  // one side by side, for any number of blocks: they visit the same blocks, do
  // the same things to the world, compute the same values, and wherever a slot
  // has a current value, that value is what the memory holds.
  lemma {:induction false} PromotionPreserves(p: Plan, sem: Sem, f': Fn, st: State, n: nat)
    requires GoodPlan(p) && NoUndefined(p) && Promoted(p, f')
    ensures ConfRel(p, sem, Run(sem, p.S, p.f, st, n), Run(sem, {}, f', st, n))
  {
    if n == 0 {
      forall s: nat | s in p.S ensures StackAt(p, s, 0, 0) == [] {
        assert (s, 0) !in p.F;
      }
    } else {
      PromotionPreserves(p, sem, f', st, n - 1);
      var c := Run(sem, p.S, p.f, st, n - 1);
      if c.At? {
        StepInStep(p, sem, f', c.blk, c.st, Run(sem, {}, f', st, n - 1).st);
      }
    }
  }

  // In particular a load that has been replaced by a copy reads what memory holds.
  lemma LoadReadsLastStore(p: Plan, sem: Sem, f': Fn, st: State, n: nat, s: nat, i: nat)
    requires GoodPlan(p) && NoUndefined(p) && Promoted(p, f') && s in p.S
    requires Run(sem, p.S, p.f, st, n).At?
    requires var b := Run(sem, p.S, p.f, st, n).blk; i < |p.f.blk[b].ins| && Loads(p.f, p.S, s, b, i)
    ensures var c, c' := Run(sem, p.S, p.f, st, n), Run(sem, {}, f', st, n);
            && c'.At? && c'.blk == c.blk
            && Rewritten(p, c.blk, i).Copy?
            && var ty := p.f.blk[c.blk].ins[i].ty;
               Rewritten(p, c.blk, i).ty == ty
               && Narrow(ty, Eval(sem, Exec(sem, {}, RewrittenList(p, c.blk, i), c'.st).env, Rewritten(p, c.blk, i).src))
                  == Narrow(ty, MemAt(Exec(sem, p.S, p.f.blk[c.blk].ins[..i], c.st).mem, s))
  {
    PromotionPreserves(p, sem, f', st, n);
    var c, c' := Run(sem, p.S, p.f, st, n), Run(sem, {}, f', st, n);
    LoadInBlock(p, sem, c.blk, i, c.st, c'.st, s);
  }

  lemma LoadInBlock(p: Plan, sem: Sem, b: nat, i: nat, st: State, st': State, s: nat)
    requires GoodPlan(p) && NoUndefined(p) && b < |p.f.blk| && Rel(p, sem, b, 0, st, st')
    requires s in p.S && i < |p.f.blk[b].ins| && Loads(p.f, p.S, s, b, i)
    ensures Rewritten(p, b, i).Copy?
    ensures var ty := p.f.blk[b].ins[i].ty;
            Rewritten(p, b, i).ty == ty
            && Narrow(ty, Eval(sem, Exec(sem, {}, RewrittenList(p, b, i), st').env, Rewritten(p, b, i).src))
               == Narrow(ty, MemAt(Exec(sem, p.S, p.f.blk[b].ins[..i], st).mem, s))
  {
    BlockInStep(p, sem, b, i, st, st');
    assert AccessAt(p.f, s, b, i);
    assert StackAt(p, s, b, i) != [];
    assert SlotHolds(p, sem, StackAt(p, s, b, i), s,
                     Exec(sem, p.S, p.f.blk[b].ins[..i], st), Exec(sem, {}, RewrittenList(p, b, i), st'));
  }

  // ---- facts that unfold at once ----------------------------------------------------------

  // A cell gives back what it was given.
  lemma NarrowTwice(ty: nat, n: int)
    ensures Narrow(ty, Narrow(ty, n)) == Narrow(ty, n)
  {
  }

  lemma EvalAgrees(sem: Sem, S: set<nat>, r: Ref, env: Env, env': Env)
    requires Clean(r, S) && Agree(S, env, env')
    ensures Eval(sem, env, r) == Eval(sem, env', r)
  {
  }

  // What an instruction leaves of a value it does not define.
  lemma StepFrame(sem: Sem, S: set<nat>, x: Ins, st: State, v: Val)
    requires DstOf(x) != Some(v)
    ensures Value(sem, StepIns(sem, S, x, st).env, v) == Value(sem, st.env, v)
  {
  }

  lemma TopHolds(p: Plan, sem: Sem, stack: seq<Val>, v: Val, s: nat, st: State, st': State)
    requires Narrow(SlotTy(p.f, s), Value(sem, st'.env, v)) == Narrow(SlotTy(p.f, s), MemAt(st.mem, s))
    ensures SlotHolds(p, sem, stack + [v], s, st, st')
  {
  }

  // An instruction that does not store to the slot leaves its memory alone.
  lemma MemKept(p: Plan, sem: Sem, b: nat, i: nat, st: State, s: nat)
    requires b < |p.f.blk| && i < |p.f.blk[b].ins| && s in p.S && !Stores(p.f, p.S, s, b, i)
    requires CleanIns(p.f.blk[b].ins[i], p.S)
    ensures MemAt(StepIns(sem, p.S, p.f.blk[b].ins[i], st).mem, s) == MemAt(st.mem, s)
  {
  }

  lemma SlotHoldsOn(p: Plan, sem: Sem, stack: seq<Val>, s: nat, st: State, st': State, s1: State, s1': State)
    requires SlotHolds(p, sem, stack, s, st, st') && MemAt(s1.mem, s) == MemAt(st.mem, s)
    requires stack != [] ==> Value(sem, s1'.env, stack[|stack| - 1]) == Value(sem, st'.env, stack[|stack| - 1])
    ensures SlotHolds(p, sem, stack, s, s1, s1')
  {
  }

  lemma EndsAre(p: Plan, s: nat, b: nat, x: nat)
    requires |p.d| == |p.f.blk| && Complete(p.d) && b < |p.f.blk| && x < |p.f.blk|
    ensures StackAt(p, s, x, 0) == InStack(p, s, x)
    ensures StackAt(p, s, b, |p.f.blk[b].ins|) == OutStack(p, s, b)
  {
  }

  // What memory holds does not depend on the values of the function in memory.
  lemma EntryMemory(p: Plan, sem: Sem, stack: seq<Val>, s: nat, st: State, st': State, env: Env)
    requires SlotHolds(p, sem, stack, s, st, st')
    ensures SlotHolds(p, sem, stack, s, st.(env := env), st')
  {
  }
}
