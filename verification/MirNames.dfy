// Slot promotion followed by value numbering (mir/passes.c).
//
// mval_new gives the values promotion makes the next free numbers of the value
// table.  Any such numbering keeps the function's runs and its strict SSA form,
// so value numbering can be run on promotion's result.
module MirNames {
  import opened Graph
  import opened Mir
  import DomTree
  import Promotion
  import Mem2Reg
  import M2rSsa
  import M2rDriver
  import Gvn
  import GvnPass

  // Value made by a pass -> its number.
  type Names = map<Val, nat>

  function NameOf(nm: Names, v: Val): Val {
    if v in nm then Temp(nm[v]) else v
  }

  function NameRef(nm: Names, r: Ref): Ref {
    if r.Use? then Use(NameOf(nm, r.v)) else r
  }

  function NameIns(nm: Names, x: Ins): Ins {
    match x
    case Load(d, a, ty, disp) => Load(NameOf(nm, d), NameRef(nm, a), ty, disp)
    case Store(r, a, ty, disp) => Store(NameRef(nm, r), NameRef(nm, a), ty, disp)
    case Alloca(d, n, td) => Alloca(NameOf(nm, d), n, td)
    case Copy(d, r, ty) => Copy(NameOf(nm, d), NameRef(nm, r), ty)
    case Pure(op, ty, d, a, b) => Pure(op, ty, NameOf(nm, d), NameRef(nm, a), NameRef(nm, b))
    case Other(op, d, a, b) =>
      Other(op, if d.Some? then Some(NameOf(nm, d.value)) else None, NameRef(nm, a), NameRef(nm, b))
    case Nop => Nop
  }

  function NameList(nm: Names, xs: seq<Ins>): seq<Ins> {
    seq(|xs|, k requires 0 <= k < |xs| => NameIns(nm, xs[k]))
  }

  function NameArgs(nm: Names, args: seq<PhiArg>): seq<PhiArg> {
    seq(|args|, k requires 0 <= k < |args| => PhiArg(NameOf(nm, args[k].v), args[k].blk))
  }

  function NamePhi(nm: Names, phi: Phi): Phi {
    Phi.Phi(NameOf(nm, phi.dst), NameArgs(nm, phi.args))
  }

  function NamePhis(nm: Names, phis: seq<Phi>): seq<Phi> {
    seq(|phis|, k requires 0 <= k < |phis| => NamePhi(nm, phis[k]))
  }

  function NameBlk(nm: Names, b: Blk): Blk {
    Blk.Blk(NamePhis(nm, b.phis), NameList(nm, b.ins), b.term, NameRef(nm, b.targ))
  }

  function NameFn(nm: Names, f: Fn): Fn {
    Fn.Fn(f.g, seq(|f.blk|, b requires 0 <= b < |f.blk| => NameBlk(nm, f.blk[b])))
  }

  // An old value, or one that has been given a number.
  predicate Known(nm: Names, nval: nat, v: Val) {
    v in nm || (v.Temp? && v.id < nval)
  }

  // Old values are numbered below nval; each value made by a pass gets a number of its own
  // from nval up.
  ghost predicate GoodNames(f: Fn, nm: Names, nval: nat) {
    && (forall v: Val :: v in nm ==> (v.PhiTemp? || v.ConstTemp?) && nval <= nm[v])
    && (forall u: Val, v: Val :: u in nm && v in nm && nm[u] == nm[v] ==> u == v)
    && (forall v: Val, b: nat, i: int :: DefAt(f, v, b, i) ==> Known(nm, nval, v))
    && (forall b: nat, i: nat :: b < |f.blk| && i < |f.blk[b].ins| && f.blk[b].ins[i].Alloca? ==> f.blk[b].ins[i].dst.Temp?)
  }

  lemma NameApart(f: Fn, nm: Names, nval: nat, u: Val, v: Val)
    requires GoodNames(f, nm, nval) && Known(nm, nval, u) && Known(nm, nval, v) && u != v
    ensures NameOf(nm, u) != NameOf(nm, v)
  {
  }

  // ---- the numbered function is in strict SSA form -------------------------------------

  lemma DefNamed(f: Fn, nm: Names, v: Val, b: nat, i: int)
    requires DefAt(f, v, b, i)
    ensures DefAt(NameFn(nm, f), NameOf(nm, v), b, i)
  {
    var x, x' := f.blk[b], NameFn(nm, f).blk[b];
    assert x' == NameBlk(nm, x);
    if i == -1 {
      var k :| 0 <= k < |x.phis| && x.phis[k].dst == v;
      assert x'.phis[k].dst == NameOf(nm, v);
    }
  }

  lemma DefBack(f: Fn, nm: Names, w: Val, b: nat, i: int) returns (v: Val)
    requires DefAt(NameFn(nm, f), w, b, i)
    ensures DefAt(f, v, b, i) && w == NameOf(nm, v)
  {
    var x, x' := f.blk[b], NameFn(nm, f).blk[b];
    assert x' == NameBlk(nm, x);
    if i == -1 {
      var k :| 0 <= k < |x'.phis| && x'.phis[k].dst == w;
      v := x.phis[k].dst;
    } else {
      v := DstOf(x.ins[i]).value;
    }
  }

  lemma RefNamed(f: Fn, nm: Names, nval: nat, r: Ref, c: nat, j: int)
    requires GoodNames(f, nm, nval) && RefBefore(f, r, c, j)
    ensures RefBefore(NameFn(nm, f), NameRef(nm, r), c, j)
  {
    if r.Use? && IsTemp(r.v) {
      var b: nat, i: int :| DefAt(f, r.v, b, i) && Before(f.g, b, i, c, j);
      DefNamed(f, nm, r.v, b, i);
    }
  }

  lemma {:induction false} ArgNamed(nm: Names, args: seq<PhiArg>, p: nat)
    ensures ArgFrom(NameArgs(nm, args), p) ==
              if ArgFrom(args, p).Some? then Some(NameOf(nm, ArgFrom(args, p).value)) else None
  {
    if |args| > 0 && args[0].blk != p {
      ArgNamed(nm, args[1..], p);
      assert NameArgs(nm, args)[1..] == NameArgs(nm, args[1..]);
    }
  }

  lemma PhiNamed(f: Fn, nm: Names, nval: nat, phi: Phi, p: nat)
    requires GoodNames(f, nm, nval) && p < |f.blk| && PhiArgBefore(f, phi, p)
    ensures PhiArgBefore(NameFn(nm, f), NamePhi(nm, phi), p)
  {
    ArgNamed(nm, phi.args, p);
    RefNamed(f, nm, nval, Use(ArgFrom(phi.args, p).value), p, |f.blk[p].ins|);
    assert NameFn(nm, f).blk[p] == NameBlk(nm, f.blk[p]);
  }

  lemma PhisApart(f: Fn, nm: Names, nval: nat, b: nat, k: nat, l: nat)
    requires GoodNames(f, nm, nval) && StrictSsa(f) && b < |f.blk| && k < l < |f.blk[b].phis|
    ensures NameOf(nm, f.blk[b].phis[k].dst) != NameOf(nm, f.blk[b].phis[l].dst)
  {
    assert DefAt(f, f.blk[b].phis[k].dst, b, -1) && DefAt(f, f.blk[b].phis[l].dst, b, -1);
    NameApart(f, nm, nval, f.blk[b].phis[k].dst, f.blk[b].phis[l].dst);
  }

  lemma InsNamed(f: Fn, nm: Names, nval: nat, b: nat, i: nat)
    requires GoodNames(f, nm, nval) && StrictSsa(f) && b < |f.blk| && i < |f.blk[b].ins|
    ensures var f', x := NameFn(nm, f), NameIns(nm, f.blk[b].ins[i]);
            && RefBefore(f', Ref0(x), b, i) && RefBefore(f', Ref1(x), b, i)
            && (DstOf(x).Some? ==> DstOf(x).value.Temp?)
  {
    var x := f.blk[b].ins[i];
    assert RefBefore(f, Ref0(x), b, i) && RefBefore(f, Ref1(x), b, i);
    RefNamed(f, nm, nval, Ref0(x), b, i);
    RefNamed(f, nm, nval, Ref1(x), b, i);
    if DstOf(x).Some? {
      assert DefAt(f, DstOf(x).value, b, i);
    }
  }

  lemma OneDef(f: Fn, nm: Names, nval: nat, w: Val, b: nat, i: int, b': nat, i': int)
    requires GoodNames(f, nm, nval) && StrictSsa(f)
    requires DefAt(NameFn(nm, f), w, b, i) && DefAt(NameFn(nm, f), w, b', i')
    ensures b == b' && i == i'
  {
    hide NameFn;
    hide DefAt;
    var u := DefBack(f, nm, w, b, i);
    var v := DefBack(f, nm, w, b', i');
    if u != v {
      NameApart(f, nm, nval, u, v);
    }
  }

  // Numbered, the function is what value numbering may be run on.
  lemma NamedInput(f: Fn, nm: Names, nval: nat)
    requires WfFn(f) && StrictSsa(f) && GoodNames(f, nm, nval)
    ensures Gvn.Input(NameFn(nm, f))
  {
    hide RefBefore;
    hide PhiArgBefore;
    hide DefAt;
    hide GoodNames;
    var f' := NameFn(nm, f);
    assert forall b: nat :: b < |f.blk| ==> f'.blk[b] == NameBlk(nm, f.blk[b]);
    forall v: Val, b: nat, i: int, b': nat, i': int | DefAt(f', v, b, i) && DefAt(f', v, b', i')
      ensures b == b' && i == i'
    {
      OneDef(f, nm, nval, v, b, i, b', i');
    }
    forall b: nat, i: nat | b < |f'.blk| && i < |f'.blk[b].ins|
      ensures RefBefore(f', Ref0(f'.blk[b].ins[i]), b, i) && RefBefore(f', Ref1(f'.blk[b].ins[i]), b, i)
      ensures DstOf(f'.blk[b].ins[i]).Some? ==> DstOf(f'.blk[b].ins[i]).value.Temp?
    {
      InsNamed(f, nm, nval, b, i);
    }
    forall b: nat | b < |f'.blk| ensures RefBefore(f', f'.blk[b].targ, b, |f'.blk[b].ins|) {
      RefNamed(f, nm, nval, f.blk[b].targ, b, |f.blk[b].ins|);
    }
    forall b: nat, k: nat, l: nat | b < |f'.blk| && k < l < |f'.blk[b].phis|
      ensures f'.blk[b].phis[k].dst != f'.blk[b].phis[l].dst
    {
      PhisApart(f, nm, nval, b, k, l);
    }
    forall b: nat, k: nat | b < |f'.blk| && k < |f'.blk[b].phis| ensures f'.blk[b].phis[k].dst.Temp? {
      PhiIsTemp(f, nm, nval, b, k);
    }
    forall b: nat, k: nat, p: nat | b < |f'.blk| && k < |f'.blk[b].phis| && Edge(f'.g, p, b) && p < |f'.blk|
      ensures PhiArgBefore(f', f'.blk[b].phis[k], p)
    {
      PhiNamed(f, nm, nval, f.blk[b].phis[k], p);
    }
  }

  lemma PhiIsTemp(f: Fn, nm: Names, nval: nat, b: nat, k: nat)
    requires GoodNames(f, nm, nval) && b < |f.blk| && k < |f.blk[b].phis|
    ensures NameOf(nm, f.blk[b].phis[k].dst).Temp?
  {
    assert DefAt(f, f.blk[b].phis[k].dst, b, -1);
  }

  // ---- the numbered function runs in step with the other --------------------------------

  ghost predicate NamedAgree(nm: Names, nval: nat, env: Env, env': Env) {
    forall v: Val :: Known(nm, nval, v) ==> Get(env', NameOf(nm, v)) == Get(env, v)
  }

  ghost predicate NamedState(nm: Names, nval: nat, st: State, st': State) {
    st.w == st'.w && st.mem == st'.mem && NamedAgree(nm, nval, st.env, st'.env)
  }

  lemma NamedEval(sem: Sem, f: Fn, nm: Names, nval: nat, r: Ref, b: nat, i: int, env: Env, env': Env)
    requires GoodNames(f, nm, nval) && RefBefore(f, r, b, i) && NamedAgree(nm, nval, env, env')
    ensures Eval(sem, env', NameRef(nm, r)) == Eval(sem, env, r)
  {
    if r.Use? && IsTemp(r.v) {
      assert DefBefore(f, r.v, b, i);
      assert Known(nm, nval, r.v);
    }
  }

  lemma NamedSet(f: Fn, nm: Names, nval: nat, d: Val, n: int, env: Env, env': Env)
    requires GoodNames(f, nm, nval) && Known(nm, nval, d) && NamedAgree(nm, nval, env, env')
    ensures NamedAgree(nm, nval, env[d := n], env'[NameOf(nm, d) := n])
  {
    forall v: Val | Known(nm, nval, v) ensures Get(env'[NameOf(nm, d) := n], NameOf(nm, v)) == Get(env[d := n], v) {
      if v != d {
        NameApart(f, nm, nval, v, d);
      }
    }
  }

  lemma StepNamed(sem: Sem, f: Fn, nm: Names, nval: nat, b: nat, i: nat, st: State, st': State)
    requires GoodNames(f, nm, nval) && StrictSsa(f) && b < |f.blk| && i < |f.blk[b].ins| && NamedState(nm, nval, st, st')
    ensures NamedState(nm, nval, StepIns(sem, {}, f.blk[b].ins[i], st), StepIns(sem, {}, NameIns(nm, f.blk[b].ins[i]), st'))
  {
    hide GoodNames;
    hide StrictSsa;
    hide NamedAgree;
    hide StepIns;
    hide NameIns;
    hide DstOf;
    hide Eval;
    hide RefBefore;
    var x := f.blk[b].ins[i];
    InsUses(f, nm, nval, b, i);
    NamedEval(sem, f, nm, nval, Ref0(x), b, i, st.env, st'.env);
    NamedEval(sem, f, nm, nval, Ref1(x), b, i, st.env, st'.env);
    SameEffect(sem, nm, x, st, st');
    var s, s' := StepIns(sem, {}, x, st), StepIns(sem, {}, NameIns(nm, x), st');
    if DstOf(x).Some? {
      var d := DstOf(x).value;
      NamedSet(f, nm, nval, d, s.env[d], st.env, st'.env);
    }
  }

  lemma InsUses(f: Fn, nm: Names, nval: nat, b: nat, i: nat)
    requires GoodNames(f, nm, nval) && StrictSsa(f) && b < |f.blk| && i < |f.blk[b].ins|
    ensures var x := f.blk[b].ins[i];
            && RefBefore(f, Ref0(x), b, i) && RefBefore(f, Ref1(x), b, i)
            && (DstOf(x).Some? ==> Known(nm, nval, DstOf(x).value))
            && (x.Alloca? ==> NameOf(nm, x.dst) == x.dst)
  {
    hide RefBefore;
    var x := f.blk[b].ins[i];
    if DstOf(x).Some? {
      assert DefAt(f, DstOf(x).value, b, i);
    }
  }

  lemma {:induction false} ListNamed(sem: Sem, f: Fn, nm: Names, nval: nat, b: nat, i: nat, st: State, st': State)
    requires GoodNames(f, nm, nval) && StrictSsa(f) && b < |f.blk| && i <= |f.blk[b].ins| && NamedState(nm, nval, st, st')
    ensures i <= |NameList(nm, f.blk[b].ins)|
    ensures NamedState(nm, nval, Exec(sem, {}, f.blk[b].ins[..i], st), Exec(sem, {}, NameList(nm, f.blk[b].ins)[..i], st'))
  {
    hide *;
    var xs, ys := f.blk[b].ins, NameList(nm, f.blk[b].ins);
    NameListAt(nm, xs);
    Gvn.ExecTake(sem, xs, i, st);
    Gvn.ExecTake(sem, ys, i, st');
    if i > 0 {
      ListNamed(sem, f, nm, nval, b, i - 1, st, st');
      StepNamed(sem, f, nm, nval, b, i - 1, Exec(sem, {}, xs[..i - 1], st), Exec(sem, {}, ys[..i - 1], st'));
    }
  }

  lemma {:induction false} PhisNamed(sem: Sem, f: Fn, nm: Names, nval: nat, p: nat, phis: seq<Phi>,
                                     env: Env, env': Env, old_: Env, old_': Env)
    requires GoodNames(f, nm, nval) && p < |f.blk|
    requires forall k :: 0 <= k < |phis| ==> PhiArgBefore(f, phis[k], p) && Known(nm, nval, phis[k].dst)
    requires NamedAgree(nm, nval, env, env') && NamedAgree(nm, nval, old_, old_')
    ensures NamedAgree(nm, nval, EnterPhis(sem, phis, p, env, old_), EnterPhis(sem, NamePhis(nm, phis), p, env', old_'))
  {
    hide GoodNames;
    hide NamedAgree;
    hide RefBefore;
    if |phis| > 0 {
      var n := |phis| - 1;
      PhisNamed(sem, f, nm, nval, p, phis[..n], env, env', old_, old_');
      assert NamePhis(nm, phis)[..n] == NamePhis(nm, phis[..n]);
      var phi := phis[n];
      ArgNamed(nm, phi.args, p);
      var a := ArgFrom(phi.args, p).value;
      NamedEval(sem, f, nm, nval, Use(a), p, |f.blk[p].ins|, old_, old_');
      assert Value(sem, old_', NameOf(nm, a)) == Value(sem, old_, a);
      NamedSet(f, nm, nval, phi.dst, Value(sem, old_, a), EnterPhis(sem, phis[..n], p, env, old_),
               EnterPhis(sem, NamePhis(nm, phis[..n]), p, env', old_'));
    }
  }

  ghost predicate NamedConf(nm: Names, nval: nat, f: Fn, c: Conf, c': Conf) {
    match c
    case At(b, st) => c'.At? && c'.blk == b && b < |f.blk| && NamedState(nm, nval, st, c'.st)
    case Halt(_, _) => c' == c
  }

  lemma BlockNamed(sem: Sem, f: Fn, nm: Names, nval: nat, b: nat, st: State, st': State)
    requires WfFn(f) && StrictSsa(f) && GoodNames(f, nm, nval) && b < |f.blk| && NamedState(nm, nval, st, st')
    ensures NamedConf(nm, nval, f, StepBlk(sem, {}, f, b, st), StepBlk(sem, {}, NameFn(nm, f), b, st'))
  {
    hide GoodNames;
    hide NamedAgree;
    hide StrictSsa;
    var xs, ys := f.blk[b].ins, NameList(nm, f.blk[b].ins);
    var n := |xs|;
    assert xs[..n] == xs && ys[..n] == ys;
    ListNamed(sem, f, nm, nval, b, n, st, st');
    Gvn.EndUses(f, b);
    var s1, s1' := Exec(sem, {}, xs, st), Exec(sem, {}, ys, st');
    NamedEval(sem, f, nm, nval, f.blk[b].targ, b, n, s1.env, s1'.env);
    var nx := NextBlock(sem, f, b, s1);
    if nx.Some? && nx.value < |f.blk| {
      var x := nx.value;
      assert Edge(f.g, b, x);
      PhisKnown(f, nm, nval, x);
      PhisNamed(sem, f, nm, nval, b, f.blk[x].phis, s1.env, s1'.env, s1.env, s1'.env);
    }
  }

  lemma PhisKnown(f: Fn, nm: Names, nval: nat, x: nat)
    requires GoodNames(f, nm, nval) && x < |f.blk|
    ensures forall k :: 0 <= k < |f.blk[x].phis| ==> Known(nm, nval, f.blk[x].phis[k].dst)
  {
    forall k | 0 <= k < |f.blk[x].phis| ensures Known(nm, nval, f.blk[x].phis[k].dst) {
      assert DefAt(f, f.blk[x].phis[k].dst, x, -1);
    }
  }

  // The function with its values numbered does just what it did.
  lemma {:induction false} NamesPreserve(sem: Sem, f: Fn, nm: Names, nval: nat, st: State, st': State, n: nat)
    requires WfFn(f) && StrictSsa(f) && GoodNames(f, nm, nval) && NamedState(nm, nval, st, st')
    ensures NamedConf(nm, nval, f, Run(sem, {}, f, st, n), Run(sem, {}, NameFn(nm, f), st', n))
  {
    hide NamedState;
    if n > 0 {
      NamesPreserve(sem, f, nm, nval, st, st', n - 1);
      var c := Run(sem, {}, f, st, n - 1);
      if c.At? {
        BlockNamed(sem, f, nm, nval, c.blk, c.st, Run(sem, {}, NameFn(nm, f), st', n - 1).st);
      }
    }
  }

  // ---- promotion, then value numbering ----------------------------------------------------

  // What mval_new does: the function's own values are numbered below nval, each new one
  // gets the number the counter has come to.
  ghost predicate Numbering(f: Fn, f': Fn, nm: Names, nval: nat) {
    && (forall v: Val :: v in nm ==> (v.PhiTemp? || v.ConstTemp?) && nval <= nm[v])
    && (forall u: Val, v: Val :: u in nm && v in nm && nm[u] == nm[v] ==> u == v)
    && (forall id: nat, b: nat, i: int :: DefAt(f, Temp(id), b, i) ==> id < nval)
    && (forall v: Val, b: nat, i: int :: DefAt(f', v, b, i) && !v.Temp? ==> v in nm)
  }

  lemma OldOrNew(p: Promotion.Plan, f': Fn, nm: Names, nval: nat, v: Val, b: nat, i: int)
    requires Promotion.GoodPlan(p) && Promotion.Promoted(p, f') && Numbering(p.f, f', nm, nval) && DefAt(f', v, b, i)
    ensures Known(nm, nval, v)
  {
    hide Promotion.GoodPlan;
    hide Promotion.Promoted;
    hide DefAt;
    if v.Temp? {
      GoodShape(p);
      var j := M2rSsa.DefIsMade(p, f', v, b, i);
      M2rSsa.MadeKind(p, v, b, j);
    }
  }

  // An instruction left alone by promotion.
  lemma KeptIns(p: Promotion.Plan, f': Fn, b: nat, k: nat)
    requires Promotion.GoodPlan(p) && Promotion.Promoted(p, f') && b < |f'.blk| && k < |f'.blk[b].ins|
    requires f'.blk[b].ins[k].Alloca? || f'.blk[b].ins[k].Pure?
    ensures b < |p.f.blk| && f'.blk[b].ins[k] in p.f.blk[b].ins
    ensures Promotion.CleanIns(f'.blk[b].ins[k], p.S)
  {
    hide StrictSsa;
    hide Promotion.PhisClosed;
    var i := M2rSsa.ListFrom(p, b, |p.f.blk[b].ins|, k);
    assert Promotion.CleanIns(p.f.blk[b].ins[i], p.S);
    assert Promotion.Rewritten(p, b, i) == p.f.blk[b].ins[i];
  }

  lemma NumberingIsGood(p: Promotion.Plan, f': Fn, nm: Names, nval: nat)
    requires Promotion.GoodPlan(p) && Promotion.Promoted(p, f') && Numbering(p.f, f', nm, nval)
    ensures GoodNames(f', nm, nval)
  {
    hide Promotion.GoodPlan;
    hide Promotion.Promoted;
    hide DefAt;
    forall v: Val, b: nat, i: int | DefAt(f', v, b, i) ensures Known(nm, nval, v) {
      OldOrNew(p, f', nm, nval, v, b, i);
    }
    forall b: nat, i: nat | b < |f'.blk| && i < |f'.blk[b].ins| && f'.blk[b].ins[i].Alloca?
      ensures f'.blk[b].ins[i].dst.Temp?
    {
      KeptIns(p, f', b, i);
    }
  }

  // The plan promotion carries out: its candidates less the slots it drops.
  lemma PlanOf(f: Fn, kept: seq<nat>, f': Fn) returns (p: Promotion.Plan)
    requires M2rDriver.PassRight(f, kept, f')
    ensures p.f == f && p.S == Mem2Reg.SetOf(kept) && Promotion.GoodPlan(p) && Promotion.Promoted(p, f')
    ensures WfFn(f) && WfFn(f') && StrictSsa(f') && M2rDriver.Equivalent(f, p.S, f')
  {
    var p0: Promotion.Plan :| M2rDriver.PassRightFor(f, p0, kept, f');
    M2rDriver.KeptPlan(p0, kept);
    p := M2rDriver.Restrict(p0, Mem2Reg.SetOf(kept));
  }

  // Promotion's result, its new values numbered, meets what value numbering asks for when
  // the function it came from did and the counters stay in range.
  lemma NumberingMayFollow(f: Fn, kept: seq<nat>, f': Fn, nm: Names, nval: nat, nval': nat, ncon: nat)
    requires M2rDriver.PassRight(f, kept, f') && Numbering(f, f', nm, nval)
    requires forall b: nat, i: nat :: b < |f.blk| && i < |f.blk[b].ins| ==> GvnPass.PureFits(f.blk[b].ins[i], nval, ncon)
    requires nval <= nval' && ncon <= 0x8000_0000
    requires nval' + GvnPass.Total(NameFn(nm, f'), |NameFn(nm, f').blk|) < 0x2000_0000
    ensures Gvn.Input(NameFn(nm, f')) && GvnPass.Fits(NameFn(nm, f'), nval', ncon)
  {
    hide M2rDriver.PassRight;
    hide M2rDriver.Equivalent;
    hide Promotion.GoodPlan;
    hide Promotion.Promoted;
    hide StrictSsa;
    hide GoodNames;
    hide Numbering;
    hide Gvn.Input;
    hide GvnPass.PureFits;
    var p := PlanOf(f, kept, f');
    NumberingIsGood(p, f', nm, nval);
    NamedInput(f', nm, nval);
    var g := NameFn(nm, f');
    forall b: nat, i: nat | b < |g.blk| && i < |g.blk[b].ins| ensures GvnPass.PureFits(g.blk[b].ins[i], nval', ncon) {
      assert g.blk[b] == NameBlk(nm, f'.blk[b]);
      PureNamed(p, f', nm, nval, nval', ncon, b, i);
    }
  }

  lemma PureNamed(p: Promotion.Plan, f': Fn, nm: Names, nval: nat, nval': nat, ncon: nat, b: nat, i: nat)
    requires Promotion.GoodPlan(p) && Promotion.Promoted(p, f') && GoodNames(f', nm, nval) && nval <= nval'
    requires forall b: nat, i: nat :: b < |p.f.blk| && i < |p.f.blk[b].ins| ==> GvnPass.PureFits(p.f.blk[b].ins[i], nval, ncon)
    requires b < |f'.blk| && i < |f'.blk[b].ins|
    ensures GvnPass.PureFits(NameIns(nm, f'.blk[b].ins[i]), nval', ncon)
  {
    hide Promotion.GoodPlan;
    hide Promotion.Promoted;
    hide DefAt;
    var x := f'.blk[b].ins[i];
    if x.Pure? {
      KeptIns(p, f', b, i);
      assert GvnPass.PureFits(x, nval, ncon);
      assert NameIns(nm, x) == x;
    }
  }

  // Neither pass nor the numbering is seen from outside: the function with its slots in
  // memory and the one both passes leave visit the same blocks and do the same to the
  // world, for every meaning of the opaque parts and however long they run, and agree on
  // every old value that is still there.
  ghost predicate SameBoth(nval: nat, S: set<nat>, rep: Gvn.Rep, c: Conf, c': Conf) {
    match c
    case At(b, st) =>
      && c'.At? && c'.blk == b && c'.st.w == st.w
      && (forall id: nat :: id < nval && id !in S && id !in rep ==> Get(c'.st.env, Temp(id)) == Get(st.env, Temp(id)))
    case Halt(_, _) => c' == c
  }

  lemma BothPasses(f: Fn, kept: seq<nat>, f': Fn, nm: Names, nval: nat, rep: Gvn.Rep, f'': Fn, removed: nat,
                   sem: Sem, st: State, n: nat)
    requires M2rDriver.PassRight(f, kept, f') && Numbering(f, f', nm, nval)
    requires GvnPass.PassRightFor(NameFn(nm, f'), rep, f'', removed)
    requires forall v: Val :: v in nm ==> v !in st.env && Temp(nm[v]) !in st.env
    ensures WfFn(f) && WfFn(f'')
    ensures SameBoth(nval, Mem2Reg.SetOf(kept), rep, Run(sem, Mem2Reg.SetOf(kept), f, st, n), Run(sem, {}, f'', st, n))
  {
    hide M2rDriver.PassRight;
    hide Promotion.GoodPlan;
    hide Promotion.Promoted;
    hide StrictSsa;
    hide GoodNames;
    hide Gvn.GoodRep;
    hide GvnPass.Irredundant;
    var p := PlanOf(f, kept, f');
    NumberingIsGood(p, f', nm, nval);
    NamesPreserve(sem, f', nm, nval, st, st, n);
    assert M2rDriver.SameRun(p.S, Run(sem, p.S, f, st, n), Run(sem, {}, f', st, n));
    var g := NameFn(nm, f');
    assert GvnPass.SameRun(rep, Run(sem, {}, g, st, n), Run(sem, {}, f'', st, n));
    ThreeSteps(nm, nval, p.S, rep, f', Run(sem, p.S, f, st, n), Run(sem, {}, f', st, n), Run(sem, {}, g, st, n),
               Run(sem, {}, f'', st, n));
  }

  lemma ThreeSteps(nm: Names, nval: nat, S: set<nat>, rep: Gvn.Rep, f': Fn, c0: Conf, c1: Conf, c2: Conf, c3: Conf)
    requires forall v: Val :: v in nm ==> v.PhiTemp? || v.ConstTemp?
    requires M2rDriver.SameRun(S, c0, c1) && NamedConf(nm, nval, f', c1, c2) && GvnPass.SameRun(rep, c2, c3)
    ensures SameBoth(nval, S, rep, c0, c3)
  {
    if c0.At? {
      forall id: nat | id < nval && id !in S && id !in rep
        ensures Get(c3.st.env, Temp(id)) == Get(c0.st.env, Temp(id))
      {
        assert Known(nm, nval, Temp(id)) && NameOf(nm, Temp(id)) == Temp(id);
        assert !Gvn.Lost(rep, Temp(id));
      }
    }
  }

  // ---- facts that unfold at once ----------------------------------------------------------

  // An instruction whose operands have the same values computes the same.
  lemma SameEffect(sem: Sem, nm: Names, x: Ins, st: State, st': State)
    requires st.w == st'.w && st.mem == st'.mem
    requires Eval(sem, st'.env, NameRef(nm, Ref0(x))) == Eval(sem, st.env, Ref0(x))
    requires Eval(sem, st'.env, NameRef(nm, Ref1(x))) == Eval(sem, st.env, Ref1(x))
    requires x.Alloca? ==> NameOf(nm, x.dst) == x.dst
    ensures var s, s' := StepIns(sem, {}, x, st), StepIns(sem, {}, NameIns(nm, x), st');
            && s.w == s'.w && s.mem == s'.mem
            && (match DstOf(x)
                case None => s.env == st.env && s'.env == st'.env
                case Some(d) =>
                  d in s.env && s.env == st.env[d := s.env[d]] && s'.env == st'.env[NameOf(nm, d) := s.env[d]])
  {
  }

  lemma GoodShape(p: Promotion.Plan)
    requires Promotion.GoodPlan(p)
    ensures |p.d| == |p.f.blk| && DomTree.Complete(p.d)
  {
  }

  lemma NameListAt(nm: Names, xs: seq<Ins>)
    ensures |NameList(nm, xs)| == |xs|
    ensures forall i :: 0 <= i < |xs| ==> NameList(nm, xs)[i] == NameIns(nm, xs[i])
  {
  }
}
