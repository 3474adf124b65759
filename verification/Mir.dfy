// MIR functions in explicit SSA form and what running one does.
//
// Blocks are named by their reverse-postorder index; block 0 is the entry.
// Values are the source's MVal objects.  A value made by a pass is named by the
// place that made it: the phi of slot s in block b, or the copy that replaces
// instruction i of block b.
module Mir {
  import opened Graph

  datatype Val =
    | Temp(id: nat)
    | PhiTemp(slot: nat, blk: nat)
    | ConstTemp(blk: nat, pos: nat)
    | GlobalVal(id: nat)
    | ConstVal(con: nat)

  predicate IsTemp(v: Val) {
    v.Temp? || v.PhiTemp? || v.ConstTemp?
  }

  // MRef: a value, a pooled constant, or nothing.
  datatype Ref = NoRef | Use(v: Val) | Con(con: nat)

  datatype Ins =
    | Load(dst: Val, addr: Ref, ty: nat, disp: bool)
    | Store(val: Ref, addr: Ref, ty: nat, disp: bool)
    | Alloca(dst: Val, size: int, td: bool)
    | Copy(dst: Val, src: Ref, ty: nat)
    | Pure(op: nat, ty: nat, dst: Val, a: Ref, b: Ref)
    | Other(op: nat, res: Option<Val>, a: Ref, b: Ref)
    | Nop

  // A phi argument and the predecessor it comes from.
  datatype PhiArg = PhiArg(v: Val, blk: nat)

  datatype Phi = Phi(dst: Val, args: seq<PhiArg>)

  datatype Blk = Blk(phis: seq<Phi>, ins: seq<Ins>, term: nat, targ: Ref)

  datatype Fn = Fn(g: Cfg, blk: seq<Blk>)

  ghost predicate WfFn(f: Fn) {
    RpoNumbered(f.g) && |f.blk| == |f.g.s1|
  }

  // ---- running a function -----------------------------------------------------

  // Everything outside the values and the private slots: memory, devices, calls.
  type World = seq<int>

  // What the parts of the machine this model does not look into compute.
  datatype Sem = Sem(
    con: nat -> int,
    glob: nat -> int,
    frame: (Val, int, bool) -> int,
    pure: (nat, nat, int, int) -> int,
    ld: (nat, bool, int, World) -> int,
    st: (nat, bool, int, int, World) -> World,
    res: (nat, int, int, World) -> int,
    eff: (nat, int, int, World) -> World,
    jump: (nat, int, World) -> int)

  type Env = map<Val, int>

  datatype State = State(env: Env, mem: map<nat, int>, w: World)

  function Get(env: Env, v: Val): int {
    if v in env then env[v] else 0
  }

  function Value(sem: Sem, env: Env, v: Val): int {
    match v
    case GlobalVal(id) => sem.glob(id)
    case ConstVal(c) => sem.con(c)
    case _ => Get(env, v)
  }

  function Eval(sem: Sem, env: Env, r: Ref): int {
    match r
    case NoRef => 0
    case Use(v) => Value(sem, env, v)
    case Con(c) => sem.con(c)
  }

  // MType codes of the scalars, and their sizes.
  const MT_I8: nat := 2
  const MT_I16: nat := 3
  const MT_I32: nat := 4
  const MT_I64: nat := 5
  const MT_F32: nat := 6
  const MT_F64: nat := 7
  const MT_PTR: nat := 8

  function TySize(ty: nat): nat {
    if ty == MT_I8 then 1
    else if ty == MT_I16 then 2
    else if ty == MT_I32 || ty == MT_F32 then 4
    else if ty == MT_I64 || ty == MT_F64 || ty == MT_PTR then 8
    else 0
  }

  // What is left of a number that goes through a cell or a copy of the given type.
  function Narrow(ty: nat, n: int): int {
    match TySize(ty)
    case 1 => n % 0x100
    case 2 => n % 0x1_0000
    case 4 => n % 0x1_0000_0000
    case 8 => n % 0x1_0000_0000_0000_0000
    case _ => n
  }

  // The slot of S a reference is the address of.
  function SlotOf(r: Ref, S: set<nat>): Option<nat> {
    if r.Use? && r.v.Temp? && r.v.id in S then Some(r.v.id) else None
  }

  function MemAt(mem: map<nat, int>, s: nat): int {
    if s in mem then mem[s] else 0
  }

  // One instruction, the slots of S being private memory of their own.  A displaced access
  // is not one to the slot as a whole.
  function StepIns(sem: Sem, S: set<nat>, x: Ins, st: State): State {
    match x
    case Load(d, a, ty, disp) =>
      var v := if SlotOf(a, S).Some? && !disp then Narrow(ty, MemAt(st.mem, SlotOf(a, S).value))
               else sem.ld(ty, disp, Eval(sem, st.env, a), st.w);
      st.(env := st.env[d := v])
    case Store(r, a, ty, disp) =>
      if SlotOf(a, S).Some? && !disp then st.(mem := st.mem[SlotOf(a, S).value := Narrow(ty, Eval(sem, st.env, r))])
      else st.(w := sem.st(ty, disp, Eval(sem, st.env, a), Eval(sem, st.env, r), st.w))
    case Alloca(d, size, td) => st.(env := st.env[d := sem.frame(d, size, td)])
    case Copy(d, r, ty) => st.(env := st.env[d := Narrow(ty, Eval(sem, st.env, r))])
    case Pure(op, ty, d, a, b) =>
      st.(env := st.env[d := sem.pure(op, ty, Eval(sem, st.env, a), Eval(sem, st.env, b))])
    case Other(op, d, a, b) =>
      var u, v := Eval(sem, st.env, a), Eval(sem, st.env, b);
      var env' := if d.Some? then st.env[d.value := sem.res(op, u, v, st.w)] else st.env;
      State(env', st.mem, sem.eff(op, u, v, st.w))
    case Nop => st
  }

  function Exec(sem: Sem, S: set<nat>, xs: seq<Ins>, st: State): State {
    if |xs| == 0 then st else StepIns(sem, S, xs[|xs| - 1], Exec(sem, S, xs[..|xs| - 1], st))
  }

  lemma ExecSnoc(sem: Sem, S: set<nat>, xs: seq<Ins>, x: Ins, st: State)
    ensures Exec(sem, S, xs + [x], st) == StepIns(sem, S, x, Exec(sem, S, xs, st))
  {
    assert (xs + [x])[..|xs|] == xs;
  }

  // The argument a phi takes on the edge from p.
  function ArgFrom(args: seq<PhiArg>, p: nat): Option<Val> {
    if |args| == 0 then None
    else if args[0].blk == p then Some(args[0].v)
    else ArgFrom(args[1..], p)
  }

  // All phis at once, from the environment the edge is taken in.
  function EnterPhis(sem: Sem, phis: seq<Phi>, p: nat, env: Env, old_: Env): Env {
    if |phis| == 0 then env
    else
      var rest := EnterPhis(sem, phis[..|phis| - 1], p, env, old_);
      var phi := phis[|phis| - 1];
      var a := ArgFrom(phi.args, p);
      rest[phi.dst := if a.Some? then Value(sem, old_, a.value) else 0]
  }

  datatype Conf = At(blk: nat, st: State) | Halt(res: int, w: World)

  function NextBlock(sem: Sem, f: Fn, b: nat, st: State): Option<nat>
    requires |f.blk| == |f.g.s1| == |f.g.s2| && b < |f.blk|
  {
    var k := sem.jump(f.blk[b].term, Eval(sem, st.env, f.blk[b].targ), st.w);
    if k == 0 then f.g.s1[b] else if k == 1 then f.g.s2[b] else None
  }

  // From just after the phis of one block to just after those of the next.
  function StepBlk(sem: Sem, S: set<nat>, f: Fn, b: nat, st: State): Conf
    requires |f.blk| == |f.g.s1| == |f.g.s2| && b < |f.blk|
  {
    var st1 := Exec(sem, S, f.blk[b].ins, st);
    var n := NextBlock(sem, f, b, st1);
    if n.Some? && n.value < |f.blk| then
      At(n.value, st1.(env := EnterPhis(sem, f.blk[n.value].phis, b, st1.env, st1.env)))
    else
      Halt(Eval(sem, st1.env, f.blk[b].targ), st1.w)
  }

  // n blocks from the entry.
  function Run(sem: Sem, S: set<nat>, f: Fn, st: State, n: nat): Conf
    requires |f.blk| == |f.g.s1| == |f.g.s2| > 0
    ensures Run(sem, S, f, st, n).At? ==> Run(sem, S, f, st, n).blk < |f.blk|
  {
    if n == 0 then At(0, st)
    else
      var c := Run(sem, S, f, st, n - 1);
      if c.At? then StepBlk(sem, S, f, c.blk, c.st) else c
  }

  // ---- strict SSA -------------------------------------------------------------

  function DstOf(x: Ins): Option<Val> {
    match x
    case Load(d, _, _, _) => Some(d)
    case Alloca(d, _, _) => Some(d)
    case Copy(d, _, _) => Some(d)
    case Pure(_, _, d, _, _) => Some(d)
    case Other(_, r, _, _) => r
    case Store(_, _, _, _) => None
    case Nop => None
  }

  // The operands of an instruction, in the order of the source's src[].
  function Ref0(x: Ins): Ref {
    match x
    case Load(_, a, _, _) => a
    case Store(r, _, _, _) => r
    case Copy(_, r, _) => r
    case Pure(_, _, _, a, _) => a
    case Other(_, _, a, _) => a
    case Alloca(_, _, _) => NoRef
    case Nop => NoRef
  }

  function Ref1(x: Ins): Ref {
    match x
    case Store(_, a, _, _) => a
    case Pure(_, _, _, _, b) => b
    case Other(_, _, _, b) => b
    case _ => NoRef
  }

  // Position i of block b defines v; position -1 is the block's phis.
  ghost predicate DefAt(f: Fn, v: Val, b: nat, i: int) {
    b < |f.blk| &&
    (if i == -1 then exists k :: 0 <= k < |f.blk[b].phis| && f.blk[b].phis[k].dst == v
     else 0 <= i < |f.blk[b].ins| && DstOf(f.blk[b].ins[i]) == Some(v))
  }

  // Instruction (c, j) is in front of (b, i) in block order.
  predicate InFront(f: Fn, b: nat, i: nat, c: nat, j: nat) {
    c < |f.blk| && j < |f.blk[c].ins| && (c < b || (c == b && j < i))
  }

  // Position (b, i) comes before (c, j) on every path to the latter.
  ghost predicate Before(g: Cfg, b: nat, i: int, c: nat, j: int) {
    if b == c then i < j else Dom(g, b, c)
  }

  ghost predicate DefBefore(f: Fn, v: Val, c: nat, j: int) {
    exists b: nat, i: int :: DefAt(f, v, b, i) && Before(f.g, b, i, c, j)
  }

  ghost predicate RefBefore(f: Fn, r: Ref, c: nat, j: int) {
    r.Use? && IsTemp(r.v) ==> DefBefore(f, r.v, c, j)
  }

  // Every value has one definition, and it dominates every use.
  ghost predicate StrictSsa(f: Fn) {
    && (forall v: Val, b: nat, i: int, b': nat, i': int ::
          DefAt(f, v, b, i) && DefAt(f, v, b', i') ==> b == b' && i == i')
    && (forall b: nat, k: nat, l: nat :: b < |f.blk| && k < l < |f.blk[b].phis| ==>
          f.blk[b].phis[k].dst != f.blk[b].phis[l].dst)
    && (forall b: nat, i: nat :: b < |f.blk| && i < |f.blk[b].ins| ==>
          RefBefore(f, Ref0(f.blk[b].ins[i]), b, i) && RefBefore(f, Ref1(f.blk[b].ins[i]), b, i))
    && (forall b: nat :: b < |f.blk| ==> RefBefore(f, f.blk[b].targ, b, |f.blk[b].ins|))
    && (forall b: nat, k: nat, p: nat :: b < |f.blk| && k < |f.blk[b].phis| && Edge(f.g, p, b) && p < |f.blk| ==>
          PhiArgBefore(f, f.blk[b].phis[k], p))
  }

  // On the edge from p the phi has an argument, defined by the end of p.
  ghost predicate PhiArgBefore(f: Fn, phi: Phi, p: nat)
    requires p < |f.blk|
  {
    && ArgFrom(phi.args, p).Some?
    && RefBefore(f, Use(ArgFrom(phi.args, p).value), p, |f.blk[p].ins|)
  }

  lemma BeforeAsym(g: Cfg, b: nat, i: int, c: nat, j: int)
    requires RpoNumbered(g) && b < |g.s1| && c < |g.s1|
    requires Before(g, b, i, c, j)
    ensures !Before(g, c, j, b, i)
  {
    if b != c && Dom(g, c, b) {
      var p := LowPath(g, b);
      DomAntisym(g, c, b);
    }
  }

  lemma BeforeTrans(g: Cfg, b: nat, i: int, c: nat, j: int, e: nat, k: int)
    requires RpoNumbered(g) && b < |g.s1| && c < |g.s1| && e < |g.s1|
    requires Before(g, b, i, c, j) && Before(g, c, j, e, k)
    ensures Before(g, b, i, e, k)
  {
    if b != c && c != e {
      DomTrans(g, b, c, e);
      if b == e {
        BeforeAsym(g, b, i, c, j);
      }
    }
  }

  // What entering a block's phis does to one value.
  lemma {:induction false} PhiValue(sem: Sem, phis: seq<Phi>, p: nat, env: Env, old_: Env, k: nat)
    requires k < |phis|
    requires forall i, j :: 0 <= i < j < |phis| ==> phis[i].dst != phis[j].dst
    ensures var a := ArgFrom(phis[k].args, p);
            Get(EnterPhis(sem, phis, p, env, old_), phis[k].dst) == if a.Some? then Value(sem, old_, a.value) else 0
  {
    if k < |phis| - 1 {
      PhiValue(sem, phis[..|phis| - 1], p, env, old_, k);
    }
  }

  lemma {:induction false} PhiUnchanged(sem: Sem, phis: seq<Phi>, p: nat, env: Env, old_: Env, v: Val)
    requires forall k :: 0 <= k < |phis| ==> phis[k].dst != v
    ensures Get(EnterPhis(sem, phis, p, env, old_), v) == Get(env, v)
  {
    if |phis| > 0 {
      PhiUnchanged(sem, phis[..|phis| - 1], p, env, old_, v);
    }
  }
}
