// mir/gvn.c: why forwarding a redundant computation to a dominating one keeps
// the meaning of a strict SSA function.  The pass itself is in GvnPass.dfy.
module Gvn {
  import opened Graph
  import opened Mir

  // Eliminated temporary -> the canonical temporary its uses are forwarded to.
  type Rep = map<nat, nat>

  function SubVal(rep: Rep, v: Val): Val {
    if v.Temp? && v.id in rep then Temp(rep[v.id]) else v
  }

  function Sub(rep: Rep, r: Ref): Ref {
    if r.Use? then Use(SubVal(rep, r.v)) else r
  }

  function SubIns(rep: Rep, x: Ins): Ins {
    match x
    case Load(d, a, ty, disp) => Load(d, Sub(rep, a), ty, disp)
    case Store(r, a, ty, disp) => Store(Sub(rep, r), Sub(rep, a), ty, disp)
    case Copy(d, r, ty) => Copy(d, Sub(rep, r), ty)
    case Pure(op, ty, d, a, b) => Pure(op, ty, d, Sub(rep, a), Sub(rep, b))
    case Other(op, d, a, b) => Other(op, d, Sub(rep, a), Sub(rep, b))
    case Alloca(_, _, _) => x
    case Nop => x
  }

  function SubArgs(rep: Rep, args: seq<PhiArg>): seq<PhiArg> {
    seq(|args|, k requires 0 <= k < |args| => PhiArg(SubVal(rep, args[k].v), args[k].blk))
  }

  function SubPhis(rep: Rep, phis: seq<Phi>): seq<Phi> {
    seq(|phis|, k requires 0 <= k < |phis| => Phi.Phi(phis[k].dst, SubArgs(rep, phis[k].args)))
  }

  predicate Gone(rep: Rep, x: Ins) {
    x.Pure? && x.dst.Temp? && x.dst.id in rep
  }

  // An instruction after the pass: neutralised, or with its operands forwarded.
  function NewIns(rep: Rep, x: Ins): Ins {
    if Gone(rep, x) then Nop else SubIns(rep, x)
  }

  function NewList(rep: Rep, xs: seq<Ins>): seq<Ins> {
    seq(|xs|, k requires 0 <= k < |xs| => NewIns(rep, xs[k]))
  }

  function NewBlk(rep: Rep, b: Blk): Blk {
    Blk.Blk(SubPhis(rep, b.phis), NewList(rep, b.ins), b.term, Sub(rep, b.targ))
  }

  function NewFn(rep: Rep, f: Fn): Fn {
    Fn.Fn(f.g, seq(|f.blk|, b requires 0 <= b < |f.blk| => NewBlk(rep, f.blk[b])))
  }

  // The same value, or the same pooled constant in its two spellings.
  predicate RefSame(r: Ref, s: Ref) {
    r == s || (ConOf(r).Some? && ConOf(r) == ConOf(s))
  }

  function ConOf(r: Ref): Option<nat> {
    match r
    case Con(c) => Some(c)
    case Use(ConstVal(c)) => Some(c)
    case _ => None
  }

  ghost predicate PureAt(f: Fn, v: nat, b: nat, i: nat) {
    b < |f.blk| && i < |f.blk[b].ins| && f.blk[b].ins[i].Pure? && f.blk[b].ins[i].dst == Temp(v)
  }

  // y, computed at (b, i), is forwarded to a temporary that an equal instruction computes at (c, j).
  ghost predicate Merge(f: Fn, rep: Rep, y: nat, b: nat, i: nat, c: nat, j: nat)
    requires y in rep
  {
    && PureAt(f, y, b, i) && PureAt(f, rep[y], c, j) && rep[y] !in rep
    && Before(f.g, c, j, b, i)
    && SameComputation(rep, f.blk[b].ins[i], f.blk[c].ins[j])
  }

  predicate SameComputation(rep: Rep, x: Ins, y: Ins)
    requires x.Pure? && y.Pure?
  {
    x.op == y.op && x.ty == y.ty && RefSame(Sub(rep, x.a), Sub(rep, y.a)) && RefSame(Sub(rep, x.b), Sub(rep, y.b))
  }

  ghost predicate GoodRep(f: Fn, rep: Rep) {
    forall y: nat :: y in rep ==> HasMerge(f, rep, y)
  }

  ghost predicate HasMerge(f: Fn, rep: Rep, y: nat)
    requires y in rep
  {
    exists b: nat, i: nat, c: nat, j: nat :: Merge(f, rep, y, b, i, c, j)
  }

  // Results are temporaries.
  ghost predicate TempResults(f: Fn) {
    && (forall b: nat, i: nat :: b < |f.blk| && i < |f.blk[b].ins| && DstOf(f.blk[b].ins[i]).Some? ==>
          DstOf(f.blk[b].ins[i]).value.Temp?)
    && (forall b: nat, k: nat :: b < |f.blk| && k < |f.blk[b].phis| ==> f.blk[b].phis[k].dst.Temp?)
  }

  ghost predicate Input(f: Fn) {
    WfFn(f) && StrictSsa(f) && TempResults(f)
  }

  // ---- computed values stay what they were computed to be ---------------------------

  // The value of the pure instruction at (c, j) is what its operands now give.
  ghost predicate EqAt(sem: Sem, f: Fn, c: nat, j: nat, env: Env)
    requires c < |f.blk| && j < |f.blk[c].ins|
  {
    var x := f.blk[c].ins[j];
    x.Pure? ==> Get(env, x.dst) == sem.pure(x.op, x.ty, Eval(sem, env, x.a), Eval(sem, env, x.b))
  }

  ghost predicate Equations(sem: Sem, f: Fn, b: nat, i: int, env: Env) {
    forall c: nat, j: nat :: c < |f.blk| && j < |f.blk[c].ins| && Before(f.g, c, j, b, i) ==> EqAt(sem, f, c, j, env)
  }

  // Between its computation and any point it dominates, nothing redefines a
  // value or its operands.
  lemma NotDefinedHere(f: Fn, c: nat, j: nat, b: nat, i: int, v: Val)
    requires Input(f) && c < |f.blk| && j < |f.blk[c].ins| && b < |f.blk| && -1 <= i
    requires f.blk[c].ins[j].Pure? && DefAt(f, v, b, i)
    requires Before(f.g, c, j, b, i + 1) && (c != b || j != i)
    ensures f.blk[c].ins[j].dst != v
    ensures f.blk[c].ins[j].a != Use(v) && f.blk[c].ins[j].b != Use(v)
  {
    var x := f.blk[c].ins[j];
    assert DefAt(f, x.dst, c, j);
    if x.a == Use(v) || x.b == Use(v) {
      assert DefIsTemp(f, v, b, i) by { assert IsTemp(v); }
      assert RefBefore(f, Ref0(x), c, j) && RefBefore(f, Ref1(x), c, j);
      var b0: nat, i0: int :| DefAt(f, v, b0, i0) && Before(f.g, b0, i0, c, j);
      assert b0 == b && i0 == i;
      if c != b {
        BeforeAsym(f.g, b, i, c, j);
      }
    }
  }

  ghost predicate DefIsTemp(f: Fn, v: Val, b: nat, i: int) {
    DefAt(f, v, b, i) && IsTemp(v)
  }

  lemma EquationsStep(sem: Sem, f: Fn, b: nat, i: nat, st: State)
    requires Input(f) && b < |f.blk| && i < |f.blk[b].ins| && Equations(sem, f, b, i, st.env)
    ensures Equations(sem, f, b, i + 1, StepIns(sem, {}, f.blk[b].ins[i], st).env)
  {
    var x := f.blk[b].ins[i];
    var st' := StepIns(sem, {}, x, st);
    forall c: nat, j: nat | c < |f.blk| && j < |f.blk[c].ins| && Before(f.g, c, j, b, i + 1)
      ensures EqAt(sem, f, c, j, st'.env)
    {
      var y := f.blk[c].ins[j];
      if y.Pure? {
        if c == b && j == i {
          OwnOperands(f, b, i);
          OtherEval(sem, st.env, x.dst, Get(st'.env, x.dst), x.a);
          OtherEval(sem, st.env, x.dst, Get(st'.env, x.dst), x.b);
        } else {
          assert EqAt(sem, f, c, j, st.env);
          var d := DstOf(x);
          if d.Some? {
            assert DefAt(f, d.value, b, i);
            NotDefinedHere(f, c, j, b, i, d.value);
            OtherEval(sem, st.env, d.value, Get(st'.env, d.value), y.a);
            OtherEval(sem, st.env, d.value, Get(st'.env, d.value), y.b);
            assert st'.env == st.env[d.value := Get(st'.env, d.value)];
          } else {
            assert st'.env == st.env;
          }
        }
      }
    }
  }

  // An instruction is not its own operand.
  lemma OwnOperands(f: Fn, b: nat, i: nat)
    requires Input(f) && b < |f.blk| && i < |f.blk[b].ins| && f.blk[b].ins[i].Pure?
    ensures f.blk[b].ins[i].a != Use(f.blk[b].ins[i].dst) && f.blk[b].ins[i].b != Use(f.blk[b].ins[i].dst)
  {
    var x := f.blk[b].ins[i];
    assert DefAt(f, x.dst, b, i);
    assert DstOf(x) == Some(x.dst);
    assert !DefBefore(f, x.dst, b, i);
    assert RefBefore(f, Ref0(x), b, i) && RefBefore(f, Ref1(x), b, i);
  }

  lemma EquationsEdge(sem: Sem, f: Fn, p: nat, x: nat, env: Env)
    requires Input(f) && Edge(f.g, p, x) && p < |f.blk| && x < |f.blk| && Equations(sem, f, p, |f.blk[p].ins|, env)
    ensures Equations(sem, f, x, 0, EnterPhis(sem, f.blk[x].phis, p, env, env))
  {
    var env' := EnterPhis(sem, f.blk[x].phis, p, env, env);
    forall c: nat, j: nat | c < |f.blk| && j < |f.blk[c].ins| && Before(f.g, c, j, x, 0)
      ensures EqAt(sem, f, c, j, env')
    {
      SDomPred(f.g, c, p, x);
      assert Before(f.g, c, j, p, |f.blk[p].ins|);
      var y := f.blk[c].ins[j];
      if y.Pure? {
        PhisSpare(sem, f, p, x, c, j, y.dst, env);
        if y.a.Use? {
          PhisSpare(sem, f, p, x, c, j, y.a.v, env);
        }
        if y.b.Use? {
          PhisSpare(sem, f, p, x, c, j, y.b.v, env);
        }
        EqKept(sem, f, c, j, env, env');
      }
    }
  }

  lemma PhisSpare(sem: Sem, f: Fn, p: nat, x: nat, c: nat, j: nat, v: Val, env: Env)
    requires Input(f) && x < |f.blk| && c < |f.blk| && j < |f.blk[c].ins| && f.blk[c].ins[j].Pure?
    requires Before(f.g, c, j, x, 0)
    requires v == f.blk[c].ins[j].dst || f.blk[c].ins[j].a == Use(v) || f.blk[c].ins[j].b == Use(v)
    ensures Get(EnterPhis(sem, f.blk[x].phis, p, env, env), v) == Get(env, v)
  {
    forall k | 0 <= k < |f.blk[x].phis| ensures f.blk[x].phis[k].dst != v {
      if f.blk[x].phis[k].dst == v {
        assert DefAt(f, v, x, -1);
        NotDefinedHere(f, c, j, x, -1, v);
      }
    }
    PhiUnchanged(sem, f.blk[x].phis, p, env, env, v);
  }

  // ---- equal computations have equal values ------------------------------------------

  lemma Earlier(f: Fn, c: nat, j: int, b: nat, i: int)
    requires WfFn(f) && c < |f.blk| && b < |f.blk| && Before(f.g, c, j, b, i)
    ensures c < b || (c == b && j < i)
  {
    if c != b {
      DomIsLower(f.g, c, b);
    }
  }

  lemma NothingBefore(f: Fn, c: nat, j: nat)
    requires WfFn(f) && c < |f.blk|
    ensures !Before(f.g, c, j, 0, 0)
  {
    if c != 0 && Dom(f.g, c, 0) {
      DomIsLower(f.g, c, 0);
    }
  }

  // Wherever y has been computed, it and its canonical value are equal.
  lemma {:induction false} ClassEqual(sem: Sem, f: Fn, rep: Rep, y: nat, b: nat, i: nat, c: nat, j: nat, env: Env)
    requires Input(f) && GoodRep(f, rep) && c < |f.blk| && Equations(sem, f, c, j, env)
    requires y in rep && PureAt(f, y, b, i) && Before(f.g, b, i, c, j)
    ensures Get(env, Temp(y)) == Get(env, Temp(rep[y]))
    decreases b, i, 1
  {
    assert HasMerge(f, rep, y);
    var b0: nat, i0: nat, c0: nat, j0: nat :| Merge(f, rep, y, b0, i0, c0, j0);
    assert DefAt(f, Temp(y), b0, i0) && DefAt(f, Temp(y), b, i);
    assert DefAt(f, Temp(y), b0, i0 as int);
    assert b0 == b && i0 == i;
    Earlier(f, c0, j0, b, i);
    BeforeTrans(f.g, c0, j0, b, i, c, j);
    var x, z := f.blk[b].ins[i], f.blk[c0].ins[j0];
    assert EqAt(sem, f, b, i, env) && EqAt(sem, f, c0, j0, env);
    assert RefBefore(f, Ref0(x), b, i) && RefBefore(f, Ref1(x), b, i);
    assert RefBefore(f, Ref0(z), c0, j0) && RefBefore(f, Ref1(z), c0, j0);
    OperandEqual(sem, f, rep, x.a, b, i, c, j, env);
    OperandEqual(sem, f, rep, x.b, b, i, c, j, env);
    OperandEqual(sem, f, rep, z.a, c0, j0, c, j, env);
    OperandEqual(sem, f, rep, z.b, c0, j0, c, j, env);
    ConEval(sem, env, Sub(rep, x.a), Sub(rep, z.a));
    ConEval(sem, env, Sub(rep, x.b), Sub(rep, z.b));
  }

  // Operands of an instruction at (b, i), looked at from a place it dominates.
  lemma {:induction false} OperandEqual(sem: Sem, f: Fn, rep: Rep, r: Ref, b: nat, i: nat, c: nat, j: nat, env: Env)
    requires Input(f) && GoodRep(f, rep) && b < |f.blk| && c < |f.blk| && Equations(sem, f, c, j, env)
    requires RefBefore(f, r, b, i) && Before(f.g, b, i, c, j)
    ensures Eval(sem, env, Sub(rep, r)) == Eval(sem, env, r)
    decreases b, i, 0
  {
    if r.Use? && r.v.Temp? && r.v.id in rep {
      var b0, i0 := DefOf(f, rep, r.v.id, b, i);
      Earlier(f, b0, i0, b, i);
      BeforeTrans(f.g, b0, i0, b, i, c, j);
      ClassEqual(sem, f, rep, r.v.id, b0, i0, c, j, env);
    }
  }

  lemma DefOf(f: Fn, rep: Rep, y: nat, b: nat, i: int) returns (b0: nat, i0: nat)
    requires Input(f) && GoodRep(f, rep) && y in rep && DefBefore(f, Temp(y), b, i)
    ensures PureAt(f, y, b0, i0) && Before(f.g, b0, i0, b, i)
  {
    assert HasMerge(f, rep, y);
    var b1: nat, i1: nat, c1: nat, j1: nat :| Merge(f, rep, y, b1, i1, c1, j1);
    assert DefAt(f, Temp(y), b1, i1);
    var b2: nat, i2: int :| DefAt(f, Temp(y), b2, i2) && Before(f.g, b2, i2, b, i);
    b0, i0 := b1, i1;
  }

  // Every use of an eliminated value, on every path that gets there.
  lemma UseEqual(sem: Sem, f: Fn, rep: Rep, r: Ref, b: nat, i: nat, env: Env)
    requires Input(f) && GoodRep(f, rep) && b < |f.blk| && Equations(sem, f, b, i, env) && RefBefore(f, r, b, i)
    ensures Eval(sem, env, Sub(rep, r)) == Eval(sem, env, r)
  {
    if r.Use? && r.v.Temp? && r.v.id in rep {
      var b0, i0 := DefOf(f, rep, r.v.id, b, i);
      ClassEqual(sem, f, rep, r.v.id, b0, i0, b, i, env);
    }
  }

  // ---- the two functions run in step -----------------------------------------------------

  predicate Lost(rep: Rep, v: Val) {
    v.Temp? && v.id in rep
  }

  ghost predicate AgreeOff(rep: Rep, env: Env, env': Env) {
    forall v: Val :: !Lost(rep, v) ==> Get(env, v) == Get(env', v)
  }

  ghost predicate Related(sem: Sem, f: Fn, rep: Rep, b: nat, i: nat, st: State, st': State) {
    st.w == st'.w && st.mem == st'.mem && AgreeOff(rep, st.env, st'.env) && Equations(sem, f, b, i, st.env)
  }

  // A canonical value is not itself eliminated.
  lemma SubKept(f: Fn, rep: Rep, r: Ref)
    requires GoodRep(f, rep) && Sub(rep, r).Use?
    ensures !Lost(rep, Sub(rep, r).v)
  {
    if r.v.Temp? && r.v.id in rep {
      assert HasMerge(f, rep, r.v.id);
    }
  }

  lemma ForwardedUse(sem: Sem, f: Fn, rep: Rep, r: Ref, b: nat, i: nat, env: Env, env': Env)
    requires Input(f) && GoodRep(f, rep) && b < |f.blk| && Equations(sem, f, b, i, env) && RefBefore(f, r, b, i)
    requires AgreeOff(rep, env, env')
    ensures Eval(sem, env', Sub(rep, r)) == Eval(sem, env, r)
  {
    UseEqual(sem, f, rep, r, b, i, env);
    if Sub(rep, r).Use? {
      SubKept(f, rep, r);
    }
  }

  lemma StepRelated(sem: Sem, f: Fn, rep: Rep, b: nat, i: nat, st: State, st': State)
    requires Input(f) && GoodRep(f, rep) && b < |f.blk| && i < |f.blk[b].ins| && Related(sem, f, rep, b, i, st, st')
    ensures Related(sem, f, rep, b, i + 1, StepIns(sem, {}, f.blk[b].ins[i], st),
                    StepIns(sem, {}, NewIns(rep, f.blk[b].ins[i]), st'))
  {
    var x := f.blk[b].ins[i];
    EquationsStep(sem, f, b, i, st);
    assert RefBefore(f, Ref0(x), b, i) && RefBefore(f, Ref1(x), b, i);
    ForwardedUse(sem, f, rep, Ref0(x), b, i, st.env, st'.env);
    ForwardedUse(sem, f, rep, Ref1(x), b, i, st.env, st'.env);
    StepAgree(sem, rep, x, st, st');
  }

  lemma ExecTake(sem: Sem, xs: seq<Ins>, i: nat, st: State)
    requires i <= |xs|
    ensures Exec(sem, {}, xs[..i], st) == if i == 0 then st else StepIns(sem, {}, xs[i - 1], Exec(sem, {}, xs[..i - 1], st))
  {
    if i > 0 {
      assert xs[..i] == xs[..i - 1] + [xs[i - 1]];
      ExecSnoc(sem, {}, xs[..i - 1], xs[i - 1], st);
    }
  }

  lemma {:induction false} ListRelated(sem: Sem, f: Fn, rep: Rep, b: nat, i: nat, st: State, st': State)
    requires Input(f) && GoodRep(f, rep) && b < |f.blk| && i <= |f.blk[b].ins| && Related(sem, f, rep, b, 0, st, st')
    ensures i <= |NewList(rep, f.blk[b].ins)|
    ensures Related(sem, f, rep, b, i, Exec(sem, {}, f.blk[b].ins[..i], st), Exec(sem, {}, NewList(rep, f.blk[b].ins)[..i], st'))
  {
    hide *;
    var xs, ys := f.blk[b].ins, NewList(rep, f.blk[b].ins);
    NewListAt(rep, xs);
    ExecTake(sem, xs, i, st);
    ExecTake(sem, ys, i, st');
    if i > 0 {
      ListRelated(sem, f, rep, b, i - 1, st, st');
      StepRelated(sem, f, rep, b, i - 1, Exec(sem, {}, xs[..i - 1], st), Exec(sem, {}, ys[..i - 1], st'));
    }
  }

  lemma {:induction false} ArgSub(rep: Rep, args: seq<PhiArg>, p: nat)
    ensures ArgFrom(SubArgs(rep, args), p) ==
              if ArgFrom(args, p).Some? then Some(SubVal(rep, ArgFrom(args, p).value)) else None
  {
    if |args| > 0 && args[0].blk != p {
      ArgSub(rep, args[1..], p);
      assert SubArgs(rep, args)[1..] == SubArgs(rep, args[1..]);
    }
  }

  lemma {:induction false} PhisRelated(sem: Sem, f: Fn, rep: Rep, p: nat, phis: seq<Phi>, env: Env, env': Env, old_: Env, old_': Env)
    requires Input(f) && GoodRep(f, rep) && p < |f.blk| && Equations(sem, f, p, |f.blk[p].ins|, old_)
    requires forall k :: 0 <= k < |phis| ==> PhiArgBefore(f, phis[k], p)
    requires AgreeOff(rep, env, env') && AgreeOff(rep, old_, old_')
    ensures AgreeOff(rep, EnterPhis(sem, phis, p, env, old_), EnterPhis(sem, SubPhis(rep, phis), p, env', old_'))
  {
    hide Input;
    hide GoodRep;
    hide Equations;
    if |phis| > 0 {
      var n := |phis| - 1;
      PhisRelated(sem, f, rep, p, phis[..n], env, env', old_, old_');
      assert SubPhis(rep, phis)[..n] == SubPhis(rep, phis[..n]);
      var phi := phis[n];
      ArgSub(rep, phi.args, p);
      var a := ArgFrom(phi.args, p).value;
      ForwardedUse(sem, f, rep, Use(a), p, |f.blk[p].ins|, old_, old_');
      assert Value(sem, old_', SubVal(rep, a)) == Value(sem, old_, a);
    }
  }

  ghost predicate ConfRelated(sem: Sem, f: Fn, rep: Rep, c: Conf, c': Conf) {
    match c
    case At(b, st) => c'.At? && c'.blk == b && b < |f.blk| && Related(sem, f, rep, b, 0, st, c'.st)
    case Halt(_, _) => c' == c
  }

  lemma BlockRelated(sem: Sem, f: Fn, rep: Rep, b: nat, st: State, st': State)
    requires Input(f) && GoodRep(f, rep) && b < |f.blk| && Related(sem, f, rep, b, 0, st, st')
    ensures ConfRelated(sem, f, rep, StepBlk(sem, {}, f, b, st), StepBlk(sem, {}, NewFn(rep, f), b, st'))
  {
    hide GoodRep;
    hide Equations;
    hide AgreeOff;
    hide StrictSsa;
    var xs, ys := f.blk[b].ins, NewList(rep, f.blk[b].ins);
    var n := |xs|;
    assert xs[..n] == xs && ys[..n] == ys;
    ListRelated(sem, f, rep, b, n, st, st');
    EndUses(f, b);
    var s1, s1' := Exec(sem, {}, xs, st), Exec(sem, {}, ys, st');
    ForwardedUse(sem, f, rep, f.blk[b].targ, b, n, s1.env, s1'.env);
    var nx := NextBlock(sem, f, b, s1);
    if nx.Some? && nx.value < |f.blk| {
      var x := nx.value;
      assert Edge(f.g, b, x);
      PhisRelated(sem, f, rep, b, f.blk[x].phis, s1.env, s1'.env, s1.env, s1'.env);
      EquationsEdge(sem, f, b, x, s1.env);
    }
  }

  // The theorem: the function before and after run in step for ever, and agree
  // on every value that is still computed.
  lemma {:induction false} GvnPreserves(sem: Sem, f: Fn, rep: Rep, st: State, n: nat)
    requires Input(f) && GoodRep(f, rep)
    ensures ConfRelated(sem, f, rep, Run(sem, {}, f, st, n), Run(sem, {}, NewFn(rep, f), st, n))
  {
    if n == 0 {
      forall c: nat, j: nat | c < |f.blk| ensures !Before(f.g, c, j, 0, 0) {
        NothingBefore(f, c, j);
      }
    } else {
      GvnPreserves(sem, f, rep, st, n - 1);
      var c := Run(sem, {}, f, st, n - 1);
      if c.At? {
        BlockRelated(sem, f, rep, c.blk, c.st, Run(sem, {}, NewFn(rep, f), st, n - 1).st);
      }
    }
  }

  // On any run of the original function, loops and all, a forwarded operand and
  // its replacement have the same value when the instruction is reached.
  lemma ReplacedUseEqual(sem: Sem, f: Fn, rep: Rep, st: State, n: nat, i: nat, r: Ref)
    requires Input(f) && GoodRep(f, rep) && Run(sem, {}, f, st, n).At?
    requires var b := Run(sem, {}, f, st, n).blk; i <= |f.blk[b].ins| && RefBefore(f, r, b, i)
    ensures var c := Run(sem, {}, f, st, n);
            var env := Exec(sem, {}, f.blk[c.blk].ins[..i], c.st).env;
            Eval(sem, env, Sub(rep, r)) == Eval(sem, env, r)
  {
    GvnPreserves(sem, f, rep, st, n);
    var c, c' := Run(sem, {}, f, st, n), Run(sem, {}, NewFn(rep, f), st, n);
    ListRelated(sem, f, rep, c.blk, i, c.st, c'.st);
    UseEqual(sem, f, rep, r, c.blk, i, Exec(sem, {}, f.blk[c.blk].ins[..i], c.st).env);
  }

  // ---- nothing else changes ------------------------------------------------------------

  // An operand, and what it is after the pass: its canonical value if it was eliminated.
  predicate RefForwarded(rep: Rep, r: Ref, r': Ref) {
    if r.Use? && r.v.Temp? && r.v.id in rep then r' == Use(Temp(rep[r.v.id])) else r' == r
  }

  // All of an instruction but its operands.
  predicate SameIns(x: Ins, y: Ins) {
    match x
    case Load(d, _, ty, disp) => y.Load? && y.dst == d && y.ty == ty && y.disp == disp
    case Store(_, _, ty, disp) => y.Store? && y.ty == ty && y.disp == disp
    case Copy(d, _, ty) => y.Copy? && y.dst == d && y.ty == ty
    case Pure(op, ty, d, _, _) => y.Pure? && y.op == op && y.ty == ty && y.dst == d
    case Other(op, d, _, _) => y.Other? && y.op == op && y.res == d
    case Alloca(_, _, _) => y == x
    case Nop => y == x
  }

  // A removed computation leaves a Nop; any other instruction stays, its operands forwarded.
  predicate InsForwarded(rep: Rep, x: Ins, y: Ins) {
    if x.Pure? && x.dst.Temp? && x.dst.id in rep then y == Nop
    else SameIns(x, y) && RefForwarded(rep, Ref0(x), Ref0(y)) && RefForwarded(rep, Ref1(x), Ref1(y))
  }

  predicate PhiForwarded(rep: Rep, phi: Phi, phi': Phi) {
    && phi'.dst == phi.dst && |phi'.args| == |phi.args|
    && (forall k :: 0 <= k < |phi.args| ==>
          phi'.args[k].blk == phi.args[k].blk && RefForwarded(rep, Use(phi.args[k].v), Use(phi'.args[k].v)))
  }

  predicate BlkForwarded(rep: Rep, x: Blk, y: Blk) {
    && |y.ins| == |x.ins| && |y.phis| == |x.phis| && y.term == x.term && RefForwarded(rep, x.targ, y.targ)
    && (forall i :: 0 <= i < |x.ins| ==> InsForwarded(rep, x.ins[i], y.ins[i]))
    && (forall k :: 0 <= k < |x.phis| ==> PhiForwarded(rep, x.phis[k], y.phis[k]))
  }

  // The two functions differ by removed computations and forwarded operands only.
  ghost predicate OnlyForwarded(f: Fn, rep: Rep, f': Fn) {
    f'.g == f.g && |f'.blk| == |f.blk| && forall b: nat :: b < |f.blk| ==> BlkForwarded(rep, f.blk[b], f'.blk[b])
  }

  lemma NewIsForwarded(f: Fn, rep: Rep)
    ensures OnlyForwarded(f, rep, NewFn(rep, f))
  {
    forall b: nat | b < |f.blk| ensures BlkForwarded(rep, f.blk[b], NewFn(rep, f).blk[b]) {
      assert NewFn(rep, f).blk[b] == NewBlk(rep, f.blk[b]);
    }
  }

  // ---- the result is again in strict SSA form -----------------------------------------

  lemma DefStays(f: Fn, rep: Rep, v: Val, b: nat, i: int)
    ensures DefAt(NewFn(rep, f), v, b, i) ==> DefAt(f, v, b, i)
    ensures DefAt(f, v, b, i) && !Lost(rep, v) ==> DefAt(NewFn(rep, f), v, b, i)
  {
    if b < |f.blk| {
      var x, x' := f.blk[b], NewFn(rep, f).blk[b];
      assert x' == NewBlk(rep, x);
      assert forall k :: 0 <= k < |x.phis| ==> x'.phis[k].dst == x.phis[k].dst;
    }
  }

  // Where an operand was defined before, what it is forwarded to still is.
  lemma SubBefore(f: Fn, rep: Rep, r: Ref, c: nat, j: int)
    requires Input(f) && GoodRep(f, rep) && c < |f.blk| && RefBefore(f, r, c, j)
    ensures RefBefore(NewFn(rep, f), Sub(rep, r), c, j)
  {
    if r.Use? && IsTemp(r.v) {
      SubKept(f, rep, r);
      var v := SubVal(rep, r.v);
      var b: nat, i: int := DefOfSub(f, rep, r.v, c, j);
      DefStays(f, rep, v, b, i);
    }
  }

  lemma DefOfSub(f: Fn, rep: Rep, v: Val, c: nat, j: int) returns (b: nat, i: int)
    requires Input(f) && GoodRep(f, rep) && c < |f.blk| && DefBefore(f, v, c, j)
    ensures DefAt(f, SubVal(rep, v), b, i) && Before(f.g, b, i, c, j)
  {
    if v.Temp? && v.id in rep {
      var b0, i0 := DefOf(f, rep, v.id, c, j);
      assert HasMerge(f, rep, v.id);
      var b1: nat, i1: nat, c1: nat, j1: nat :| Merge(f, rep, v.id, b1, i1, c1, j1);
      assert DefAt(f, v, b0, i0 as int) && DefAt(f, v, b1, i1 as int);
      BeforeTrans(f.g, c1, j1, b0, i0, c, j);
      b, i := c1, j1;
    } else {
      b, i :| DefAt(f, v, b, i) && Before(f.g, b, i, c, j);
    }
  }

  lemma SubPhiBefore(f: Fn, rep: Rep, phi: Phi, p: nat)
    requires Input(f) && GoodRep(f, rep) && p < |f.blk| && PhiArgBefore(f, phi, p)
    ensures PhiArgBefore(NewFn(rep, f), Phi.Phi(phi.dst, SubArgs(rep, phi.args)), p)
  {
    ArgSub(rep, phi.args, p);
    SubBefore(f, rep, Use(ArgFrom(phi.args, p).value), p, |f.blk[p].ins|);
    assert NewFn(rep, f).blk[p] == NewBlk(rep, f.blk[p]);
  }

  // Each value left is defined once, and every operand forwarded is defined before its use.
  lemma NewInput(f: Fn, rep: Rep)
    requires Input(f) && GoodRep(f, rep)
    ensures Input(NewFn(rep, f))
  {
    hide RefBefore;
    hide PhiArgBefore;
    hide DefAt;
    hide GoodRep;
    var f' := NewFn(rep, f);
    assert forall b: nat :: b < |f.blk| ==> f'.blk[b] == NewBlk(rep, f.blk[b]);
    forall v: Val, b: nat, i: int, b': nat, i': int | DefAt(f', v, b, i) && DefAt(f', v, b', i')
      ensures b == b' && i == i'
    {
      DefStays(f, rep, v, b, i);
      DefStays(f, rep, v, b', i');
    }
    forall b: nat, i: nat | b < |f'.blk| && i < |f'.blk[b].ins|
      ensures RefBefore(f', Ref0(f'.blk[b].ins[i]), b, i) && RefBefore(f', Ref1(f'.blk[b].ins[i]), b, i)
      ensures DstOf(f'.blk[b].ins[i]).Some? ==> DstOf(f'.blk[b].ins[i]).value.Temp?
    {
      NewInsBefore(f, rep, b, i);
    }
    forall b: nat | b < |f'.blk| ensures RefBefore(f', f'.blk[b].targ, b, |f'.blk[b].ins|) {
      SubBefore(f, rep, f.blk[b].targ, b, |f.blk[b].ins|);
    }
    forall b: nat, k: nat, p: nat | b < |f'.blk| && k < |f'.blk[b].phis| && Edge(f'.g, p, b) && p < |f'.blk|
      ensures PhiArgBefore(f', f'.blk[b].phis[k], p)
    {
      SubPhiBefore(f, rep, f.blk[b].phis[k], p);
    }
  }

  lemma NewInsBefore(f: Fn, rep: Rep, b: nat, i: nat)
    requires Input(f) && GoodRep(f, rep) && b < |f.blk| && i < |f.blk[b].ins|
    ensures var x := NewIns(rep, f.blk[b].ins[i]);
            && RefBefore(NewFn(rep, f), Ref0(x), b, i) && RefBefore(NewFn(rep, f), Ref1(x), b, i)
            && (DstOf(x).Some? ==> DstOf(x).value.Temp?)
  {
    hide GoodRep;
    hide RefBefore;
    hide NewIns;
    hide NewFn;
    var x := f.blk[b].ins[i];
    assert RefBefore(f, Ref0(x), b, i) && RefBefore(f, Ref1(x), b, i);
    SubBefore(f, rep, Ref0(x), b, i);
    SubBefore(f, rep, Ref1(x), b, i);
    NewUses(rep, x);
    NoUse(NewFn(rep, f), b, i);
  }

  // ---- facts that unfold at once ----------------------------------------------------------

  lemma EqKept(sem: Sem, f: Fn, c: nat, j: nat, env: Env, env': Env)
    requires c < |f.blk| && j < |f.blk[c].ins| && EqAt(sem, f, c, j, env)
    requires f.blk[c].ins[j].Pure? ==>
               var x := f.blk[c].ins[j];
               && Get(env', x.dst) == Get(env, x.dst)
               && Eval(sem, env', x.a) == Eval(sem, env, x.a) && Eval(sem, env', x.b) == Eval(sem, env, x.b)
    ensures EqAt(sem, f, c, j, env')
  {
  }

  lemma OtherEval(sem: Sem, env: Env, v: Val, n: int, r: Ref)
    requires r != Use(v)
    ensures Eval(sem, env[v := n], r) == Eval(sem, env, r)
  {
  }

  lemma ConEval(sem: Sem, env: Env, r: Ref, s: Ref)
    requires RefSame(r, s)
    ensures Eval(sem, env, r) == Eval(sem, env, s)
  {
  }

  lemma StepAgree(sem: Sem, rep: Rep, x: Ins, st: State, st': State)
    requires st.w == st'.w && st.mem == st'.mem && AgreeOff(rep, st.env, st'.env)
    requires Eval(sem, st'.env, Sub(rep, Ref0(x))) == Eval(sem, st.env, Ref0(x))
    requires Eval(sem, st'.env, Sub(rep, Ref1(x))) == Eval(sem, st.env, Ref1(x))
    ensures var s, s' := StepIns(sem, {}, x, st), StepIns(sem, {}, NewIns(rep, x), st');
            s.w == s'.w && s.mem == s'.mem && AgreeOff(rep, s.env, s'.env)
  {
  }

  lemma NewUses(rep: Rep, x: Ins)
    ensures var y := NewIns(rep, x);
            && (y == Nop || (Ref0(y) == Sub(rep, Ref0(x)) && Ref1(y) == Sub(rep, Ref1(x)) && DstOf(y) == DstOf(x)))
  {
  }

  lemma NoUse(f: Fn, b: nat, i: int)
    ensures RefBefore(f, NoRef, b, i)
  {
  }

  lemma NewListAt(rep: Rep, xs: seq<Ins>)
    ensures |NewList(rep, xs)| == |xs|
    ensures forall i :: 0 <= i < |xs| ==> NewList(rep, xs)[i] == NewIns(rep, xs[i])
  {
  }

  // What a block's end and the edges out of it use is defined.
  lemma EndUses(f: Fn, b: nat)
    requires StrictSsa(f) && b < |f.blk|
    ensures RefBefore(f, f.blk[b].targ, b, |f.blk[b].ins|)
    ensures forall x: nat, k: nat :: Edge(f.g, b, x) && x < |f.blk| && k < |f.blk[x].phis| ==>
      PhiArgBefore(f, f.blk[x].phis[k], b)
  {
  }
}
