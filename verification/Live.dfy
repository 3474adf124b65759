// opt/live.c: liveness as the least solution of the flow equations, and what
// it says about paths.  Temporaries only: no calls, no physical registers.
module Live {
  import opened Graph

  // Operands are the temporaries an instruction reads (memory operands' bases
  // and indices included); to is what it defines.
  datatype Ins = Ins(to: Option<nat>, args: seq<nat>)

  datatype Phi = Phi(to: nat, args: seq<(Option<nat>, nat)>)

  datatype Blk = Blk(phis: seq<Phi>, ins: seq<Ins>, jmp: Option<nat>)

  datatype Fn = Fn(g: Cfg, blk: seq<Blk>, cls: seq<nat>)

  ghost predicate WfFn(f: Fn) {
    && Wf(f.g) && |f.blk| == |f.g.s1|
    && (forall b: nat :: b < |f.blk| ==> WfBlk(f.blk[b], |f.cls|))
    && (forall t: nat :: t < |f.cls| ==> f.cls[t] < 2)
  }

  ghost predicate WfBlk(x: Blk, n: nat) {
    && (forall i :: 0 <= i < |x.ins| ==> (x.ins[i].to.Some? ==> x.ins[i].to.value < n)
                                          && forall k :: 0 <= k < |x.ins[i].args| ==> x.ins[i].args[k] < n)
    && (x.jmp.Some? ==> x.jmp.value < n)
    && (forall k :: 0 <= k < |x.phis| ==> x.phis[k].to < n && PhiFits(x.phis[k], n))
  }

  ghost predicate PhiFits(p: Phi, n: nat) {
    forall a :: 0 <= a < |p.args| && p.args[a].0.Some? ==> p.args[a].0.value < n
  }

  // ---- one block, backwards -----------------------------------------------------------

  function Jmp(x: Blk): set<nat> {
    if x.jmp.Some? then {x.jmp.value} else {}
  }

  function Args(x: Ins): set<nat> {
    set t | t in x.args
  }

  function Killed(x: Ins): set<nat> {
    if x.to.Some? then {x.to.value} else {}
  }

  // Live just before instruction i when out is live at the end.
  function LiveBefore(x: Blk, out: set<nat>, i: nat): set<nat>
    requires i <= |x.ins|
    decreases |x.ins| - i
  {
    if i == |x.ins| then out + Jmp(x)
    else LiveBefore(x, out, i + 1) - Killed(x.ins[i]) + Args(x.ins[i])
  }

  predicate DefinedUpTo(x: Blk, t: nat, i: nat)
    requires i <= |x.ins|
  {
    exists j :: 0 <= j < i && x.ins[j].to == Some(t)
  }

  predicate Defines(x: Blk, t: nat) {
    DefinedUpTo(x, t, |x.ins|)
  }

  // Some read of t in the block comes before any definition of t there.
  ghost predicate Upward(x: Blk, t: nat) {
    || (exists i: nat :: i < |x.ins| && t in x.ins[i].args && !DefinedUpTo(x, t, i))
    || (x.jmp == Some(t) && !Defines(x, t))
  }

  ghost predicate UpwardFrom(x: Blk, t: nat, k: nat)
    requires k <= |x.ins|
  {
    || (exists i: nat :: k <= i < |x.ins| && t in x.ins[i].args && !DefinedBetween(x, t, k, i))
    || (x.jmp == Some(t) && !DefinedBetween(x, t, k, |x.ins|))
  }

  predicate DefinedBetween(x: Blk, t: nat, k: nat, i: nat)
    requires k <= i <= |x.ins|
  {
    exists j :: k <= j < i && x.ins[j].to == Some(t)
  }

  lemma {:induction false} LiveBeforeIs(x: Blk, out: set<nat>, k: nat, t: nat)
    requires k <= |x.ins|
    ensures t in LiveBefore(x, out, k) <==> UpwardFrom(x, t, k) || (t in out && !DefinedBetween(x, t, k, |x.ins|))
    decreases |x.ins| - k
  {
    if k < |x.ins| {
      LiveBeforeIs(x, out, k + 1, t);
      forall i: nat | k < i <= |x.ins|
        ensures DefinedBetween(x, t, k, i) <==> x.ins[k].to == Some(t) || DefinedBetween(x, t, k + 1, i)
      {
        if j :| k <= j < i && x.ins[j].to == Some(t) {
          assert j == k || DefinedBetween(x, t, k + 1, i);
        }
      }
      assert !DefinedBetween(x, t, k, k);
      if UpwardFrom(x, t, k) && !(x.jmp == Some(t) && !DefinedBetween(x, t, k, |x.ins|)) {
        var i: nat :| k <= i < |x.ins| && t in x.ins[i].args && !DefinedBetween(x, t, k, i);
        assert i == k || UpwardFrom(x, t, k + 1);
      }
      if t in x.ins[k].args {
        assert UpwardFrom(x, t, k);
      } else if x.ins[k].to != Some(t) && UpwardFrom(x, t, k + 1) && !(x.jmp == Some(t) && !DefinedBetween(x, t, k + 1, |x.ins|)) {
        var i: nat :| k + 1 <= i < |x.ins| && t in x.ins[i].args && !DefinedBetween(x, t, k + 1, i);
        assert UpwardFrom(x, t, k);
      }
    }
  }

  // Live into a block: read before defined, or live out and not defined.
  lemma LiveInIs(x: Blk, out: set<nat>, t: nat)
    ensures t in LiveBefore(x, out, 0) <==> Upward(x, t) || (t in out && !Defines(x, t))
  {
    LiveBeforeIs(x, out, 0, t);
    assert forall i: nat :: i <= |x.ins| ==> (DefinedBetween(x, t, 0, i) <==> DefinedUpTo(x, t, i));
    assert UpwardFrom(x, t, 0) <==> Upward(x, t);
  }

  // ---- edges ------------------------------------------------------------------------------

  function PhiDsts(x: Blk): set<nat> {
    set k | 0 <= k < |x.phis| :: x.phis[k].to
  }

  // s's phis read t on the edge from b.
  predicate PhiReads(x: Blk, b: nat, t: nat) {
    exists k, a :: 0 <= k < |x.phis| && 0 <= a < |x.phis[k].args| && x.phis[k].args[a] == (Some(t), b)
  }

  ghost function PhiArgs(x: Blk, b: nat): set<nat> {
    set k, a | 0 <= k < |x.phis| && 0 <= a < |x.phis[k].args| && x.phis[k].args[a].1 == b && x.phis[k].args[a].0.Some?
      :: x.phis[k].args[a].0.value
  }

  ghost function LiveOn(x: Blk, b: nat, inS: set<nat>): set<nat> {
    inS - PhiDsts(x) + PhiArgs(x, b)
  }

  // ---- paths --------------------------------------------------------------------------------

  // Along p nothing defines t, neither an instruction before the last block's
  // reads nor a phi; the last block reads t first, or the phis of a successor do.
  ghost predicate Witness(f: Fn, p: seq<nat>, t: nat)
    requires |f.blk| == |f.g.s1|
  {
    && IsPath(f.g, p)
    && (forall i: nat :: i < |p| - 1 ==> !Defines(f.blk[p[i]], t))
    && (forall i: nat :: 0 < i < |p| ==> t !in PhiDsts(f.blk[p[i]]))
    && EndsInUse(f, p[|p| - 1], t)
  }

  ghost predicate EndsInUse(f: Fn, b: nat, t: nat)
    requires |f.blk| == |f.g.s1| && b < |f.blk|
  {
    || Upward(f.blk[b], t)
    || (!Defines(f.blk[b], t) && exists s: nat :: s < |f.blk| && Edge(f.g, b, s) && PhiReads(f.blk[s], b, t))
  }

  ghost predicate LiveIn(f: Fn, b: nat, t: nat)
    requires |f.blk| == |f.g.s1|
  {
    exists p :: Witness(f, p, t) && p[0] == b
  }

  // Live at the end of b: into the phis of a successor or through them.
  ghost predicate LiveOut(f: Fn, b: nat, t: nat)
    requires |f.blk| == |f.g.s1|
  {
    exists s: nat :: s < |f.blk| && Edge(f.g, b, s) && LiveAcross(f, b, s, t)
  }

  ghost predicate LiveAcross(f: Fn, b: nat, s: nat, t: nat)
    requires |f.blk| == |f.g.s1| && s < |f.blk|
  {
    PhiReads(f.blk[s], b, t) || (LiveIn(f, s, t) && t !in PhiDsts(f.blk[s]))
  }

  lemma ConsWitness(f: Fn, b: nat, p: seq<nat>, t: nat)
    requires WfFn(f) && Witness(f, p, t) && b < |f.blk| && p[0] < |f.blk| && Edge(f.g, b, p[0])
    requires !Defines(f.blk[b], t) && t !in PhiDsts(f.blk[p[0]])
    ensures Witness(f, [b] + p, t)
  {
    hide WfBlk;
    hide Defines;
    hide PhiDsts;
    hide EndsInUse;
    var q := [b] + p;
    assert forall i: nat :: 0 < i < |q| ==> q[i] == p[i - 1];
    forall i: nat | i < |q| - 1 ensures !Defines(f.blk[q[i]], t) {
      assert i > 0 ==> q[i] == p[i - 1];
    }
    forall i: nat | 0 < i < |q| ensures t !in PhiDsts(f.blk[q[i]]) {
      assert q[i] == p[i - 1];
      assert i > 1 ==> t !in PhiDsts(f.blk[p[i - 1]]);
    }
    assert q[|q| - 1] == p[|p| - 1];
  }

  lemma TailWitness(f: Fn, p: seq<nat>, t: nat)
    requires WfFn(f) && Witness(f, p, t) && |p| > 1
    ensures p[0] < |f.blk| && p[1] < |f.blk|
    ensures Witness(f, p[1..], t) && Edge(f.g, p[0], p[1]) && t !in PhiDsts(f.blk[p[1]]) && !Defines(f.blk[p[0]], t)
  {
    hide WfBlk;
    hide Defines;
    hide PhiDsts;
    hide EndsInUse;
    PathSuffix(f.g, p, 1);
  }

  lemma OneWitness(f: Fn, b: nat, t: nat)
    requires WfFn(f) && b < |f.blk| && EndsInUse(f, b, t)
    ensures LiveIn(f, b, t)
  {
    hide EndsInUse;
    assert Witness(f, [b], t);
  }

  lemma LiveInFrom(f: Fn, b: nat, t: nat)
    requires WfFn(f) && b < |f.blk| && (Upward(f.blk[b], t) || (LiveOut(f, b, t) && !Defines(f.blk[b], t)))
    ensures LiveIn(f, b, t)
  {
    hide Upward;
    hide Defines;
    hide PhiDsts;
    if EndsInUse(f, b, t) {
      OneWitness(f, b, t);
    } else {
      var s: nat :| s < |f.blk| && Edge(f.g, b, s) && LiveAcross(f, b, s, t);
      var p :| Witness(f, p, t) && p[0] == s;
      ConsWitness(f, b, p, t);
      assert ([b] + p)[0] == b;
    }
  }

  lemma LiveInOnly(f: Fn, b: nat, t: nat)
    requires WfFn(f) && b < |f.blk| && LiveIn(f, b, t) && !Upward(f.blk[b], t)
    ensures LiveOut(f, b, t) && !Defines(f.blk[b], t)
  {
    hide Upward;
    hide Defines;
    hide PhiDsts;
    var p :| Witness(f, p, t) && p[0] == b;
    if |p| > 1 {
      TailWitness(f, p, t);
      assert LiveIn(f, p[1], t);
      assert LiveAcross(f, b, p[1], t);
    } else {
      assert EndsInUse(f, b, t);
      var s: nat :| s < |f.blk| && Edge(f.g, b, s) && PhiReads(f.blk[s], b, t);
      assert LiveAcross(f, b, s, t);
    }
  }

  // What the equations demand of an exact answer at one block.
  lemma LiveInStep(f: Fn, b: nat, t: nat)
    requires WfFn(f) && b < |f.blk|
    ensures LiveIn(f, b, t) <==> Upward(f.blk[b], t) || (LiveOut(f, b, t) && !Defines(f.blk[b], t))
  {
    hide Upward;
    hide Defines;
    hide LiveIn;
    hide LiveOut;
    if Upward(f.blk[b], t) || (LiveOut(f, b, t) && !Defines(f.blk[b], t)) {
      LiveInFrom(f, b, t);
    }
    if LiveIn(f, b, t) && !Upward(f.blk[b], t) {
      LiveInOnly(f, b, t);
    }
  }

  // ---- the solution ---------------------------------------------------------------------------

  type Sets = seq<set<nat>>

  // Nothing is marked live that is not.
  ghost predicate SoundOut(f: Fn, out: Sets)
    requires WfFn(f)
  {
    |out| == |f.blk| && forall b: nat, t: nat :: b < |out| && t in out[b] ==> LiveOut(f, b, t)
  }

  ghost predicate SoundIn(f: Fn, in_: Sets)
    requires WfFn(f)
  {
    |in_| == |f.blk| && forall b: nat, t: nat :: b < |in_| && t in in_[b] ==> LiveIn(f, b, t)
  }

  // The flow equations hold, the edges' as inclusions.
  ghost predicate Solves(f: Fn, in_: Sets, out: Sets)
    requires WfFn(f)
  {
    && |in_| == |out| == |f.blk|
    && (forall b: nat :: b < |f.blk| ==> in_[b] == LiveBefore(f.blk[b], out[b], 0))
    && (forall b: nat, s: nat :: s < |f.blk| && Edge(f.g, b, s) ==> LiveOn(f.blk[s], b, in_[s]) <= out[b])
  }

  // Any solution marks everything that is live.
  lemma {:induction false} SolutionHasPath(f: Fn, in_: Sets, out: Sets, p: seq<nat>, t: nat)
    requires WfFn(f) && Solves(f, in_, out) && Witness(f, p, t)
    ensures t in in_[p[0]]
    decreases |p|
  {
    var b := p[0];
    LiveInIs(f.blk[b], out[b], t);
    if |p| == 1 {
      if !Upward(f.blk[b], t) {
        var s: nat :| s < |f.blk| && Edge(f.g, b, s) && PhiReads(f.blk[s], b, t);
        PhiArgsIs(f.blk[s], b, t);
        assert t in LiveOn(f.blk[s], b, in_[s]);
      }
    } else {
      TailWitness(f, p, t);
      SolutionHasPath(f, in_, out, p[1..], t);
      assert t in LiveOn(f.blk[p[1]], b, in_[p[1]]);
    }
  }

  // A sound solution is exact.
  lemma SolutionExact(f: Fn, in_: Sets, out: Sets)
    requires WfFn(f) && Solves(f, in_, out) && SoundIn(f, in_) && SoundOut(f, out)
    ensures forall b: nat, t: nat :: b < |f.blk| ==> (t in in_[b] <==> LiveIn(f, b, t)) && (t in out[b] <==> LiveOut(f, b, t))
  {
    forall b: nat, t: nat | b < |f.blk| ensures (t in in_[b] <==> LiveIn(f, b, t)) && (t in out[b] <==> LiveOut(f, b, t)) {
      if LiveIn(f, b, t) {
        var p :| Witness(f, p, t) && p[0] == b;
        SolutionHasPath(f, in_, out, p, t);
      }
      if LiveOut(f, b, t) {
        var s: nat :| s < |f.blk| && Edge(f.g, b, s) && LiveAcross(f, b, s, t);
        PhiArgsIs(f.blk[s], b, t);
        if !PhiReads(f.blk[s], b, t) {
          var p :| Witness(f, p, t) && p[0] == s;
          SolutionHasPath(f, in_, out, p, t);
        }
        assert t in LiveOn(f.blk[s], b, in_[s]);
      }
    }
  }

  // ---- counting -------------------------------------------------------------------------------

  // The live temporaries of one class.
  function OfCls(cls: seq<nat>, s: set<nat>, k: nat): set<nat> {
    set t | t in s && t < |cls| && cls[t] == k
  }

  // The most temporaries of class k live at once from instruction i on.
  function Pressure(cls: seq<nat>, x: Blk, out: set<nat>, i: nat, k: nat): nat
    requires i <= |x.ins|
    decreases |x.ins| - i
  {
    var here := |OfCls(cls, LiveBefore(x, out, i), k)|;
    if i == |x.ins| then here
    else
      var rest := Pressure(cls, x, out, i + 1, k);
      if here > rest then here else rest
  }

  // t is live just before instruction i of block b, said of paths: read from there on before
  // it is defined, or live at the end of the block and not defined from there on.
  ghost predicate LiveAt(f: Fn, b: nat, i: nat, t: nat)
    requires b < |f.blk| == |f.g.s1| && i <= |f.blk[b].ins|
  {
    UpwardFrom(f.blk[b], t, i) || (LiveOut(f, b, t) && !DefinedBetween(f.blk[b], t, i, |f.blk[b].ins|))
  }

  // How many temporaries of class k are live just before instruction i of block b.
  ghost function LiveCount(f: Fn, b: nat, i: nat, k: nat): nat
    requires b < |f.blk| == |f.g.s1| && i <= |f.blk[b].ins|
  {
    |set t: nat | t < |f.cls| && f.cls[t] == k && LiveAt(f, b, i, t)|
  }

  // n is the most temporaries of class k live at once in block b.
  ghost predicate IsPeak(f: Fn, b: nat, k: nat, n: nat)
    requires b < |f.blk| == |f.g.s1|
  {
    && (forall i: nat :: i <= |f.blk[b].ins| ==> LiveCount(f, b, i, k) <= n)
    && (exists i: nat :: i <= |f.blk[b].ins| && LiveCount(f, b, i, k) == n)
  }

  // t occurs in block b: as a result, an operand, the jump's argument, or a phi's argument on
  // an edge out of b.
  ghost predicate OccursIn(f: Fn, b: nat, t: nat)
    requires b < |f.blk|
  {
    || (exists i: nat :: i < |f.blk[b].ins| && (f.blk[b].ins[i].to == Some(t) || t in f.blk[b].ins[i].args))
    || f.blk[b].jmp == Some(t)
    || (exists s: nat :: s < |f.blk| && Edge(f.g, b, s) && PhiReads(f.blk[s], b, t))
  }

  // What is reported of each block beside its live sets.
  ghost predicate Reported(f: Fn, gen: Sets, nlive: seq<seq<nat>>) {
    && |gen| == |nlive| == |f.blk| == |f.g.s1|
    && (forall b: nat :: b < |f.blk| ==> |nlive[b]| == 2)
    && (forall b: nat, k: nat :: b < |f.blk| && k < 2 ==> IsPeak(f, b, k, nlive[b][k]))
    && (forall b: nat, t: nat :: b < |f.blk| ==> (t in gen[b] <==> OccursIn(f, b, t)))
  }

  lemma {:induction false} PressurePeak(cls: seq<nat>, x: Blk, out: set<nat>, i: nat, k: nat)
    requires i <= |x.ins|
    ensures forall j: nat :: i <= j <= |x.ins| ==> |OfCls(cls, LiveBefore(x, out, j), k)| <= Pressure(cls, x, out, i, k)
    ensures exists j: nat :: i <= j <= |x.ins| && |OfCls(cls, LiveBefore(x, out, j), k)| == Pressure(cls, x, out, i, k)
    decreases |x.ins| - i
  {
    hide LiveBefore;
    hide OfCls;
    var n := Pressure(cls, x, out, i, k);
    if i == |x.ins| {
      assert |OfCls(cls, LiveBefore(x, out, i), k)| == n;
    } else {
      PressurePeak(cls, x, out, i + 1, k);
      if |OfCls(cls, LiveBefore(x, out, i), k)| > Pressure(cls, x, out, i + 1, k) {
        assert |OfCls(cls, LiveBefore(x, out, i), k)| == n;
      } else {
        var j: nat :| i + 1 <= j <= |x.ins| && |OfCls(cls, LiveBefore(x, out, j), k)| == Pressure(cls, x, out, i + 1, k);
        assert |OfCls(cls, LiveBefore(x, out, j), k)| == n;
      }
    }
  }

  lemma CountIs(f: Fn, in_: Sets, out: Sets, b: nat, i: nat, k: nat)
    requires Exact(f, in_, out) && b < |f.blk| && i <= |f.blk[b].ins|
    ensures LiveCount(f, b, i, k) == |OfCls(f.cls, LiveBefore(f.blk[b], out[b], i), k)|
  {
    hide LiveBefore;
    hide UpwardFrom;
    hide DefinedBetween;
    hide LiveOut;
    hide LiveIn;
    forall t: nat ensures LiveAt(f, b, i, t) <==> t in LiveBefore(f.blk[b], out[b], i) {
      LiveBeforeIs(f.blk[b], out[b], i, t);
    }
    assert (set t: nat | t < |f.cls| && f.cls[t] == k && LiveAt(f, b, i, t)) == OfCls(f.cls, LiveBefore(f.blk[b], out[b], i), k);
  }

  lemma PeakIs(f: Fn, in_: Sets, out: Sets, b: nat, k: nat)
    requires Exact(f, in_, out) && b < |f.blk|
    ensures IsPeak(f, b, k, Pressure(f.cls, f.blk[b], out[b], 0, k))
  {
    hide WfBlk;
    hide LiveIn;
    hide LiveOut;
    hide LiveBefore;
    hide LiveCount;
    hide OfCls;
    hide Pressure;
    PressurePeak(f.cls, f.blk[b], out[b], 0, k);
    forall i: nat | i <= |f.blk[b].ins| ensures LiveCount(f, b, i, k) == |OfCls(f.cls, LiveBefore(f.blk[b], out[b], i), k)| {
      CountIs(f, in_, out, b, i, k);
    }
    var j: nat :| 0 <= j <= |f.blk[b].ins| && |OfCls(f.cls, LiveBefore(f.blk[b], out[b], j), k)| == Pressure(f.cls, f.blk[b], out[b], 0, k);
    assert LiveCount(f, b, j, k) == Pressure(f.cls, f.blk[b], out[b], 0, k);
  }

  lemma {:induction false} MentionedIs(x: Blk, i: nat, t: nat)
    requires i <= |x.ins|
    ensures t in Mentioned(x, i) <==> exists j: nat :: i <= j < |x.ins| && (x.ins[j].to == Some(t) || t in x.ins[j].args)
    decreases |x.ins| - i
  {
    if i < |x.ins| {
      MentionedIs(x, i + 1, t);
      if t in Mentioned(x, i + 1) {
        var j: nat :| i + 1 <= j < |x.ins| && (x.ins[j].to == Some(t) || t in x.ins[j].args);
      }
      if j: nat :| i <= j < |x.ins| && (x.ins[j].to == Some(t) || t in x.ins[j].args) {
        assert j == i || t in Mentioned(x, i + 1);
      }
    }
  }

  lemma OccursIs(f: Fn, b: nat, t: nat)
    requires |f.blk| == |f.g.s1| == |f.g.s2| && b < |f.blk|
    ensures t in Occurs(f, b) <==> OccursIn(f, b, t)
  {
    hide Mentioned;
    hide PhiArgs;
    hide PhiReads;
    MentionedIs(f.blk[b], 0, t);
    forall s: nat | s < |f.blk| ensures t in PhiArgs(f.blk[s], b) <==> PhiReads(f.blk[s], b, t) {
      PhiArgsIs(f.blk[s], b, t);
    }
    if s: nat :| s < |f.blk| && Edge(f.g, b, s) && PhiReads(f.blk[s], b, t) {
      assert t in Occurs(f, b);
    }
  }

  lemma ReportIs(f: Fn, in_: Sets, out: Sets, gen: Sets, nlive: seq<seq<nat>>)
    requires Exact(f, in_, out) && Tallied(f, in_, out, gen, nlive, 0)
    ensures Reported(f, gen, nlive)
  {
    hide Exact;
    hide IsPeak;
    hide OccursIn;
    hide Occurs;
    hide Pressure;
    hide LiveBefore;
    forall b: nat, k: nat | b < |f.blk| && k < 2 ensures |nlive[b]| == 2 && IsPeak(f, b, k, nlive[b][k]) {
      assert TalliedAt(f, b, in_[b], out[b], gen[b], nlive[b]);
      PeakIs(f, in_, out, b, k);
    }
    forall b: nat, t: nat | b < |f.blk| ensures t in gen[b] <==> OccursIn(f, b, t) {
      OccursIs(f, b, t);
    }
  }

  ghost predicate Counted(cls: seq<nat>, s: set<nat>, nlv: seq<nat>) {
    |nlv| == 2 && forall k: nat :: k < 2 ==> nlv[k] == |OfCls(cls, s, k)|
  }

  lemma CountAdd(cls: seq<nat>, s: set<nat>, nlv: seq<nat>, t: nat)
    requires Counted(cls, s, nlv) && t !in s && t < |cls| && cls[t] < 2
    ensures Counted(cls, s + {t}, nlv[cls[t] := nlv[cls[t]] + 1])
  {
    forall k: nat | k < 2 ensures OfCls(cls, s + {t}, k) == OfCls(cls, s, k) + if cls[t] == k then {t} else {} {
    }
  }

  lemma CountDrop(cls: seq<nat>, s: set<nat>, nlv: seq<nat>, t: nat)
    requires Counted(cls, s, nlv) && t in s && t < |cls| && cls[t] < 2
    ensures |nlv| == 2 && nlv[cls[t]] > 0 && Counted(cls, s - {t}, nlv[cls[t] := nlv[cls[t]] - 1])
  {
    assert t in OfCls(cls, s, cls[t]);
    forall k: nat | k < 2 ensures OfCls(cls, s - {t}, k) == OfCls(cls, s, k) - if cls[t] == k then {t} else {} {
    }
  }

  lemma CountNone(cls: seq<nat>)
    ensures Counted(cls, {}, [0, 0])
  {
    forall k: nat | k < 2 ensures OfCls(cls, {}, k) == {} {
    }
  }

  // The temporaries read or defined in a block, and read by phis on its edges.
  ghost function Occurs(f: Fn, b: nat): set<nat>
    requires |f.blk| == |f.g.s1| == |f.g.s2| && b < |f.blk|
  {
    Mentioned(f.blk[b], 0) + Jmp(f.blk[b])
    + (if f.g.s1[b].Some? && f.g.s1[b].value < |f.blk| then PhiArgs(f.blk[f.g.s1[b].value], b) else {})
    + (if f.g.s2[b].Some? && f.g.s2[b].value < |f.blk| then PhiArgs(f.blk[f.g.s2[b].value], b) else {})
  }

  ghost function Mentioned(x: Blk, i: nat): set<nat>
    requires i <= |x.ins|
    decreases |x.ins| - i
  {
    if i == |x.ins| then {} else Mentioned(x, i + 1) + Killed(x.ins[i]) + Args(x.ins[i])
  }

  class Liveness {
    const f: Fn
    var in_: Sets
    var out: Sets
    var gen: Sets
    var nlive: seq<seq<nat>>

    ghost predicate Sized()
      reads this
    {
      |in_| == |out| == |gen| == |nlive| == |f.blk|
    }

    constructor (f: Fn)
      ensures this.f == f
    {
      this.f := f;
      in_, out, gen, nlive := [], [], [], [];
    }

    // liveon: what b must keep for the edge to s; the phi reads also enter gen.
    method LiveOnEdge(b: nat, s: nat) returns (v: set<nat>)
      requires Sized() && b < |f.blk| && s < |f.blk|
      modifies this`gen
      ensures Sized() && v == LiveOn(f.blk[s], b, in_[s])
      ensures gen == old(gen)[b := old(gen)[b] + PhiArgs(f.blk[s], b)]
    {
      hide *;
      Sizes();
      v := ClearDsts(f.blk[s], in_[s]);
      LiveOnIs(f.blk[s], b, in_[s]);
      v := AddArgs(f.blk[s], b, v);
    }

    static method ClearDsts(x: Blk, s: set<nat>) returns (v: set<nat>)
      ensures v == s - PhiDsts(x)
    {
      v := s;
      var k: nat := 0;
      while k < |x.phis|
        invariant k <= |x.phis| && v == s - set j | 0 <= j < k :: x.phis[j].to
      {
        v := v - {x.phis[k].to};
        k := k + 1;
      }
    }

    method AddArgs(x: Blk, b: nat, s: set<nat>) returns (v: set<nat>)
      requires Sized() && b < |f.blk|
      modifies this`gen
      ensures Sized() && v == s + PhiArgs(x, b) && gen == old(gen)[b := old(gen)[b] + PhiArgs(x, b)]
    {
      hide *;
      Sizes();
      v := s;
      ghost var g0 := gen;
      ArgsAll(x, b);
      var k: nat := 0;
      while k < |x.phis|
        invariant k <= |x.phis| && Sized() && |gen| == |f.blk|
        invariant v == s + ArgsSoFar(x, b, k, 0)
        invariant gen == g0[b := gen[b]] && gen[b] == g0[b] + ArgsSoFar(x, b, k, 0)
      {
        var a: nat := 0;
        while a < |x.phis[k].args|
          invariant a <= |x.phis[k].args| && Sized() && |gen| == |f.blk|
          invariant v == s + ArgsSoFar(x, b, k, a)
          invariant gen == g0[b := gen[b]] && gen[b] == g0[b] + ArgsSoFar(x, b, k, a)
        {
          Sizes();
          ArgsNext(x, b, k, a);
          if x.phis[k].args[a].1 == b && x.phis[k].args[a].0.Some? {
            v := v + {x.phis[k].args[a].0.value};
            gen := gen[b := gen[b] + {x.phis[k].args[a].0.value}];
            SizesIf();
          }
          a := a + 1;
        }
        ArgsRow(x, b, k);
        k := k + 1;
      }
    }

    // bset: a read.
    method Read(b: nat, t: nat, nlv: seq<nat>) returns (n: seq<nat>)
      requires Sized() && WfFn(f) && b < |f.blk| && t < |f.cls| && Counted(f.cls, in_[b], nlv)
      modifies this`in_, this`gen
      ensures Sized() && in_ == old(in_)[b := old(in_)[b] + {t}] && gen == old(gen)[b := old(gen)[b] + {t}]
      ensures Counted(f.cls, in_[b], n)
    {
      hide OfCls;
      n := nlv;
      gen := gen[b := gen[b] + {t}];
      if t !in in_[b] {
        CountAdd(f.cls, in_[b], nlv, t);
        n := n[f.cls[t] := n[f.cls[t]] + 1];
        in_ := in_[b := in_[b] + {t}];
      } else {
        assert in_[b] + {t} == in_[b];
      }
    }

    // The result of an instruction, going backwards: no longer live.
    method Define(b: nat, y: Ins, nlv: seq<nat>) returns (n: seq<nat>)
      requires Sized() && WfFn(f) && b < |f.blk| && Counted(f.cls, in_[b], nlv)
      requires y.to.Some? ==> y.to.value < |f.cls|
      modifies this`in_, this`gen
      ensures Sized() && in_ == old(in_)[b := old(in_)[b] - Killed(y)] && gen == old(gen)[b := old(gen)[b] + Killed(y)]
      ensures Counted(f.cls, in_[b], n)
    {
      hide OfCls;
      n := nlv;
      if y.to.Some? {
        var t := y.to.value;
        if t in in_[b] {
          CountDrop(f.cls, in_[b], nlv, t);
          n := n[f.cls[t] := n[f.cls[t]] - 1];
        } else {
          assert in_[b] - {t} == in_[b];
        }
        gen := gen[b := gen[b] + {t}];
        in_ := in_[b := in_[b] - {t}];
      } else {
        assert in_[b] - {} == in_[b] && gen[b] + {} == gen[b];
        assert in_ == in_[b := in_[b]] && gen == gen[b := gen[b]];
      }
    }

    method CountSet(s: set<nat>) returns (nlv: seq<nat>)
      requires WfFn(f) && forall t :: t in s ==> t < |f.cls|
      ensures Counted(f.cls, s, nlv)
    {
      hide OfCls;
      nlv := [0, 0];
      CountNone(f.cls);
      var t: nat := 0;
      ghost var done: set<nat> := {};
      while t < |f.cls|
        invariant t <= |f.cls| && done == (set u | u in s && u < t)
        invariant Counted(f.cls, done, nlv)
      {
        if t in s {
          CountAdd(f.cls, done, nlv, t);
          nlv := nlv[f.cls[t] := nlv[f.cls[t]] + 1];
          done := done + {t};
        }
        t := t + 1;
      }
      assert done == s;
    }

    // The reads of one instruction.
    method ReadAll(b: nat, args: seq<nat>, nlv: seq<nat>) returns (n: seq<nat>)
      requires Sized() && WfFn(f) && b < |f.blk| && (forall k :: 0 <= k < |args| ==> args[k] < |f.cls|)
      requires Counted(f.cls, in_[b], nlv)
      modifies this`in_, this`gen
      ensures Sized() && in_ == old(in_)[b := old(in_)[b] + SetOf(args)] && gen == old(gen)[b := old(gen)[b] + SetOf(args)]
      ensures Counted(f.cls, in_[b], n)
    {
      hide Counted;
      hide WfFn;
      n := nlv;
      ghost var i0, g0 := in_, gen;
      var k: nat := 0;
      assert SetOf(args[..0]) == {};
      assert i0[b] + {} == i0[b] && g0[b] + {} == g0[b];
      while k < |args|
        invariant k <= |args| && Sized() && Counted(f.cls, in_[b], n)
        invariant in_ == i0[b := i0[b] + SetOf(args[..k])] && gen == g0[b := g0[b] + SetOf(args[..k])]
      {
        SetOfSnoc(args, k);
        n := Read(b, args[k], n);
        assert i0[b] + SetOf(args[..k + 1]) == i0[b] + SetOf(args[..k]) + {args[k]};
        assert g0[b] + SetOf(args[..k + 1]) == g0[b] + SetOf(args[..k]) + {args[k]};
        k := k + 1;
      }
      assert args[..k] == args;
    }

    // The block's instructions backwards: its live-in set and its pressure.
    method Body(b: nat)
      requires Sized() && WfFn(f) && b < |f.blk| && forall t :: t in out[b] ==> t < |f.cls|
      modifies this`in_, this`gen, this`nlive
      ensures Sized() && in_ == old(in_)[b := LiveBefore(f.blk[b], out[b], 0)]
      ensures gen == old(gen)[b := old(gen)[b] + Mentioned(f.blk[b], 0) + Jmp(f.blk[b])]
      ensures nlive == old(nlive)[b := [Pressure(f.cls, f.blk[b], out[b], 0, 0), Pressure(f.cls, f.blk[b], out[b], 0, 1)]]
    {
      hide *;
      Sizes();
      var x := f.blk[b];
      ghost var i0, g0 := in_, gen;
      in_ := in_[b := out[b]];
      SizesIf();
      BlkFits(f, b);
      BlockEnd(x, out[b]);
      var nlv := CountSet(in_[b]);
      if x.jmp.Some? {
        nlv := Read(b, x.jmp.value, nlv);
        Sizes();
      }
      assert in_[b] == LiveBefore(x, out[b], |x.ins|);
      assert gen[b] == g0[b] + Jmp(x) + Mentioned(x, |x.ins|);
      PressureEnd(f.cls, x, out[b], nlv);
      var most := nlv;
      var i: nat := |x.ins|;
      while i > 0
        invariant i <= |x.ins| && Sized() && |in_| == |i0| == |gen| == |g0| == |out| == |nlive| == |f.blk| && Counted(f.cls, in_[b], nlv)
        invariant in_ == i0[b := in_[b]] && in_[b] == LiveBefore(x, out[b], i)
        invariant gen == g0[b := gen[b]] && gen[b] == g0[b] + Jmp(x) + Mentioned(x, i)
        invariant nlive == old(nlive)
        invariant most == [Pressure(f.cls, x, out[b], i, 0), Pressure(f.cls, x, out[b], i, 1)]
      {
        i := i - 1;
        ghost var was, gwas := in_[b], gen[b];
        var y := x.ins[i];
        BlockStep(x, out[b], i);
        Sizes();
        nlv := Define(b, y, nlv);
        Sizes();
        assert in_[b] == was - Killed(y) && gen[b] == gwas + Killed(y);
        nlv := ReadAll(b, y.args, nlv);
        Sizes();
        assert gen[b] == g0[b] + Jmp(x) + Mentioned(x, i);
        PressureStep(f.cls, x, out[b], i, nlv);
        most := [if nlv[0] > most[0] then nlv[0] else most[0], if nlv[1] > most[1] then nlv[1] else most[1]];
      }
      nlive := nlive[b := most];
      SizesIf();
      assert gen[b] == g0[b] + Mentioned(x, 0) + Jmp(x);
    }

    // One block of a pass.
    method Visit(b: nat) returns (changed: bool)
      requires Sized() && WfFn(f) && b < |f.blk| && InTmps(f, in_, out)
      modifies this`in_, this`out, this`gen, this`nlive
      ensures Sized() && Visited(f, b, old(in_), old(out), old(gen), old(nlive), in_, out, gen, nlive)
      ensures changed <==> out[b] != old(out)[b]
    {
      hide *;
      Sizes();
      ghost var in0, out0, gen0, nlive0 := in_, out, gen, nlive;
      var u := out[b];
      ghost var v1: set<nat>, v2: set<nat> := {}, {};
      ghost var g1: set<nat>, g2: set<nat> := {}, {};
      SuccFits(f, b);
      if f.g.s1[b].Some? {
        var v := LiveOnEdge(b, f.g.s1[b].value);
        Sizes();
        v1 := v;
        g1 := PhiArgs(f.blk[f.g.s1[b].value], b);
        out := out[b := out[b] + v];
      }
      assert gen == gen0[b := gen0[b] + g1] by { assert gen0[b] + {} == gen0[b]; }
      SizesIf();
      if f.g.s2[b].Some? {
        var v := LiveOnEdge(b, f.g.s2[b].value);
        Sizes();
        v2 := v;
        g2 := PhiArgs(f.blk[f.g.s2[b].value], b);
        out := out[b := out[b] + v];
      }
      SizesIf();
      assert out[b] == out0[b] + v1 + v2;
      assert gen[b] == gen0[b] + g1 + g2;
      changed := out[b] != u;
      EdgesFit(f, b, in0, out0, v1, v2);
      Body(b);
      VisitedIs(f, b, in0, out0, gen0, nlive0, in_, out, gen, nlive, v1, v2, g1, g2);
    }

    // filllive.
    method FillLive()
      requires WfFn(f)
      modifies this
      ensures Exact(f, in_, out) && Solves(f, in_, out)
      ensures Tallied(f, in_, out, gen, nlive, 0) && Reported(f, gen, nlive)
    {
      hide *;
      in_ := seq(|f.blk|, _ => {});
      out := seq(|f.blk|, _ => {});
      gen := seq(|f.blk|, _ => {});
      nlive := seq(|f.blk|, _ => [0, 0]);
      SizesIf();
      var chg, again := true, true;
      ghost var first := true;
      Start(f, in_, out, gen, nlive);
      while again
        invariant Sized() && Sane(f, in_, out, gen)
        invariant !first ==> Tallied(f, in_, out, gen, nlive, 0)
        invariant first ==> again
        invariant again ==> chg == first
        invariant !again ==> Solves(f, in_, out)
        decreases Room(f, out), first, again
      {
        ghost var in0, out0, gen0, nlive0 := in_, out, gen, nlive;
        var n: nat := |f.blk|;
        Sizes();
        PassStart(f, in_, out, gen, nlive);
        ghost var quiet := true;
        while n > 0
          invariant n <= |f.blk| && Sized() && Sane(f, in_, out, gen)
          invariant Tallied(f, in_, out, gen, nlive, if first then n else 0)
          invariant chg <==> first || !quiet
          invariant quiet && !first ==> in_ == in0 && out == out0 && EdgesFrom(f, in_, out, n)
          invariant !quiet ==> Room(f, out) < Room(f, out0)
          invariant quiet ==> out == out0
        {
          n := n - 1;
          ghost var in1, out1, gen1, nlive1 := in_, out, gen, nlive;
          SaneFits(f, in_, out, gen);
          var c := Visit(n);
          VisitSane(f, n, in1, out1, gen1, nlive1, in_, out, gen, nlive);
          VisitTallied(f, n, in1, out1, gen1, nlive1, in_, out, gen, nlive, if first then n + 1 else 0);
          if c {
            VisitRoom(f, n, in1, out1, gen1, nlive1, in_, out, gen, nlive);
            quiet := false;
          } else {
            VisitQuiet(f, n, in1, out1, gen1, nlive1, in_, out, gen, nlive, first);
          }
          chg := chg || c;
        }
        if !chg {
          AllEdges(f, in_, out, gen, nlive);
        }
        again := chg;
        chg := false;
        first := false;
      }
      ExactNow(f, in_, out, gen);
      ReportIs(f, in_, out, gen, nlive);
    }

    lemma Sizes()
      requires Sized()
      ensures |in_| == |out| == |gen| == |nlive| == |f.blk|
    {
    }

    lemma SizesIf()
      requires |in_| == |out| == |gen| == |nlive| == |f.blk|
      ensures Sized()
    {
    }
  }

  // The phi reads found in the first k phis and the first a arguments of the next.
  ghost function ArgsSoFar(x: Blk, b: nat, k: nat, a: nat): set<nat>
    requires k <= |x.phis| && (if k < |x.phis| then a <= |x.phis[k].args| else a == 0)
  {
    set j, c | 0 <= j < |x.phis| && 0 <= c < |x.phis[j].args| && (j < k || (j == k && c < a))
               && x.phis[j].args[c].1 == b && x.phis[j].args[c].0.Some? :: x.phis[j].args[c].0.value
  }

  lemma ArgsNext(x: Blk, b: nat, k: nat, a: nat)
    requires k < |x.phis| && a < |x.phis[k].args|
    ensures ArgsSoFar(x, b, k, a + 1) == ArgsSoFar(x, b, k, a) +
              if x.phis[k].args[a].1 == b && x.phis[k].args[a].0.Some? then {x.phis[k].args[a].0.value} else {}
  {
  }

  lemma ArgsAll(x: Blk, b: nat)
    ensures ArgsSoFar(x, b, 0, 0) == {}
    ensures ArgsSoFar(x, b, |x.phis|, 0) == PhiArgs(x, b)
  {
  }

  function SetOf(q: seq<nat>): set<nat> {
    set t | t in q
  }

  lemma SetOfSnoc(q: seq<nat>, k: nat)
    requires k < |q|
    ensures SetOf(q[..k + 1]) == SetOf(q[..k]) + {q[k]}
  {
    assert q[..k + 1] == q[..k] + [q[k]];
  }

  lemma BlkFits(f: Fn, b: nat)
    requires WfFn(f) && b < |f.blk|
    ensures f.blk[b].jmp.Some? ==> f.blk[b].jmp.value < |f.cls|
    ensures forall i :: 0 <= i < |f.blk[b].ins| ==> (f.blk[b].ins[i].to.Some? ==> f.blk[b].ins[i].to.value < |f.cls|)
                                                    && forall k :: 0 <= k < |f.blk[b].ins[i].args| ==> f.blk[b].ins[i].args[k] < |f.cls|
    ensures forall t: nat :: t < |f.cls| ==> f.cls[t] < 2
  {
    assert WfBlk(f.blk[b], |f.cls|);
  }

  lemma BlockEnd(x: Blk, out: set<nat>)
    ensures LiveBefore(x, out, |x.ins|) == out + Jmp(x)
    ensures Mentioned(x, |x.ins|) == {}
    ensures Jmp(x) == if x.jmp.Some? then {x.jmp.value} else {}
  {
  }

  lemma BlockStep(x: Blk, out: set<nat>, i: nat)
    requires i < |x.ins|
    ensures LiveBefore(x, out, i) == LiveBefore(x, out, i + 1) - Killed(x.ins[i]) + SetOf(x.ins[i].args)
    ensures Mentioned(x, i) == Mentioned(x, i + 1) + Killed(x.ins[i]) + SetOf(x.ins[i].args)
    ensures Killed(x.ins[i]) == if x.ins[i].to.Some? then {x.ins[i].to.value} else {}
  {
  }

  // ---- a pass -------------------------------------------------------------------------------------

  ghost predicate InTmps(f: Fn, in_: Sets, out: Sets) {
    && |in_| == |out| == |f.blk|
    && (forall b: nat, t: nat :: b < |f.blk| && t in in_[b] ==> t < |f.cls|)
    && (forall b: nat, t: nat :: b < |f.blk| && t in out[b] ==> t < |f.cls|)
  }

  ghost function EdgeLive(f: Fn, b: nat, x: Option<nat>, in_: Sets): set<nat>
    requires |in_| == |f.blk|
  {
    if x.Some? && x.value < |f.blk| then LiveOn(f.blk[x.value], b, in_[x.value]) else {}
  }

  ghost predicate Visited(f: Fn, b: nat, in0: Sets, out0: Sets, gen0: Sets, nlive0: seq<seq<nat>>,
                          in_: Sets, out: Sets, gen: Sets, nlive: seq<seq<nat>>)
  {
    && |f.g.s1| == |f.g.s2| == |f.blk| && b < |f.blk|
    && |in0| == |out0| == |gen0| == |nlive0| == |f.blk|
    && out == out0[b := out0[b] + EdgeLive(f, b, f.g.s1[b], in0) + EdgeLive(f, b, f.g.s2[b], in0)]
    && in_ == in0[b := LiveBefore(f.blk[b], out[b], 0)]
    && gen == gen0[b := gen0[b] + Occurs(f, b)]
    && nlive == nlive0[b := Pressures(f, b, out[b])]
  }

  function Pressures(f: Fn, b: nat, out: set<nat>): seq<nat>
    requires b < |f.blk|
  {
    [Pressure(f.cls, f.blk[b], out, 0, 0), Pressure(f.cls, f.blk[b], out, 0, 1)]
  }

  lemma LiveOnFits(f: Fn, b: nat, s: nat, inS: set<nat>)
    requires WfFn(f) && s < |f.blk| && forall t: nat :: t in inS ==> t < |f.cls|
    ensures forall t: nat :: t in LiveOn(f.blk[s], b, inS) ==> t < |f.cls|
  {
    assert WfBlk(f.blk[s], |f.cls|);
    forall t: nat | t in PhiArgs(f.blk[s], b) ensures t < |f.cls| {
      PhiArgsIs(f.blk[s], b, t);
      var k, a :| 0 <= k < |f.blk[s].phis| && 0 <= a < |f.blk[s].phis[k].args| && f.blk[s].phis[k].args[a] == (Some(t), b);
      assert PhiFits(f.blk[s].phis[k], |f.cls|);
    }
  }

  lemma EdgesFit(f: Fn, b: nat, in0: Sets, out0: Sets, v1: set<nat>, v2: set<nat>)
    requires WfFn(f) && InTmps(f, in0, out0) && b < |f.blk| && |in0| == |out0| == |f.blk| && |f.g.s1| == |f.g.s2| == |f.blk|
    requires f.g.s1[b].Some? ==> f.g.s1[b].value < |f.blk| && v1 == LiveOn(f.blk[f.g.s1[b].value], b, in0[f.g.s1[b].value])
    requires f.g.s2[b].Some? ==> f.g.s2[b].value < |f.blk| && v2 == LiveOn(f.blk[f.g.s2[b].value], b, in0[f.g.s2[b].value])
    requires f.g.s1[b].None? ==> v1 == {}
    requires f.g.s2[b].None? ==> v2 == {}
    ensures forall t :: t in out0[b] + v1 + v2 ==> t < |f.cls|
  {
    hide LiveOn;
    hide WfFn;
    if f.g.s1[b].Some? {
      LiveOnFits(f, b, f.g.s1[b].value, in0[f.g.s1[b].value]);
    }
    if f.g.s2[b].Some? {
      LiveOnFits(f, b, f.g.s2[b].value, in0[f.g.s2[b].value]);
    }
  }

  lemma VisitedIs(f: Fn, b: nat, in0: Sets, out0: Sets, gen0: Sets, nlive0: seq<seq<nat>>,
                  in_: Sets, out: Sets, gen: Sets, nlive: seq<seq<nat>>, v1: set<nat>, v2: set<nat>, g1: set<nat>, g2: set<nat>)
    requires WfFn(f) && b < |f.blk| && |in0| == |out0| == |gen0| == |nlive0| == |f.blk| == |f.g.s1| == |f.g.s2|
    requires f.g.s1[b].Some? ==> f.g.s1[b].value < |f.blk| && v1 == LiveOn(f.blk[f.g.s1[b].value], b, in0[f.g.s1[b].value])
                                 && g1 == PhiArgs(f.blk[f.g.s1[b].value], b)
    requires f.g.s2[b].Some? ==> f.g.s2[b].value < |f.blk| && v2 == LiveOn(f.blk[f.g.s2[b].value], b, in0[f.g.s2[b].value])
                                 && g2 == PhiArgs(f.blk[f.g.s2[b].value], b)
    requires f.g.s1[b].None? ==> v1 == {} && g1 == {}
    requires f.g.s2[b].None? ==> v2 == {} && g2 == {}
    requires out == out0[b := out0[b] + v1 + v2]
    requires in_ == in0[b := LiveBefore(f.blk[b], out[b], 0)]
    requires gen == gen0[b := gen0[b] + g1 + g2 + Mentioned(f.blk[b], 0) + Jmp(f.blk[b])]
    requires nlive == nlive0[b := [Pressure(f.cls, f.blk[b], out[b], 0, 0), Pressure(f.cls, f.blk[b], out[b], 0, 1)]]
    ensures Visited(f, b, in0, out0, gen0, nlive0, in_, out, gen, nlive)
  {
    hide WfFn;
    hide LiveBefore;
    hide Pressure;
    hide LiveOn;
    hide PhiArgs;
    assert gen0[b] + g1 + g2 + Mentioned(f.blk[b], 0) + Jmp(f.blk[b]) == gen0[b] + Occurs(f, b);
  }

  // Every mark stands for a path, and nothing but the function's temporaries is marked.
  ghost predicate Sane(f: Fn, in_: Sets, out: Sets, gen: Sets) {
    && WfFn(f) && SoundIn(f, in_) && SoundOut(f, out) && InTmps(f, in_, out)
    && |gen| == |f.blk| && (forall b: nat :: b < |gen| ==> gen[b] <= Occurs(f, b))
  }

  // Blocks from n on agree with their out sets.
  ghost predicate Tallied(f: Fn, in_: Sets, out: Sets, gen: Sets, nlive: seq<seq<nat>>, n: nat) {
    && |f.g.s1| == |f.g.s2| == |f.blk|
    && |in_| == |out| == |gen| == |nlive| == |f.blk|
    && (forall b: nat :: n <= b < |f.blk| ==> TalliedAt(f, b, in_[b], out[b], gen[b], nlive[b]))
  }

  ghost predicate TalliedAt(f: Fn, b: nat, in_: set<nat>, out: set<nat>, gen: set<nat>, nlive: seq<nat>)
    requires b < |f.blk| == |f.g.s1| == |f.g.s2|
  {
    in_ == LiveBefore(f.blk[b], out, 0) && gen == Occurs(f, b) && nlive == Pressures(f, b, out)
  }

  ghost predicate EdgesFrom(f: Fn, in_: Sets, out: Sets, n: nat) {
    && |f.g.s1| == |f.g.s2| == |in_| == |out| == |f.blk|
    && (forall b: nat :: n <= b < |f.blk| ==> EdgeLive(f, b, f.g.s1[b], in_) <= out[b] && EdgeLive(f, b, f.g.s2[b], in_) <= out[b])
  }

  ghost predicate Exact(f: Fn, in_: Sets, out: Sets) {
    && WfFn(f) && |in_| == |out| == |f.blk|
    && (forall b: nat, t: nat :: b < |f.blk| ==> (t in in_[b] <==> LiveIn(f, b, t)) && (t in out[b] <==> LiveOut(f, b, t)))
  }

  ghost function Room(f: Fn, out: Sets): set<(nat, nat)> {
    set b: nat, t: nat | b < |out| && t < |f.cls| && t !in out[b] :: (b, t)
  }

  lemma Start(f: Fn, in_: Sets, out: Sets, gen: Sets, nlive: seq<seq<nat>>)
    requires WfFn(f) && |in_| == |out| == |gen| == |nlive| == |f.blk|
    requires forall b: nat :: b < |f.blk| ==> in_[b] == {} && out[b] == {} && gen[b] == {}
    ensures Sane(f, in_, out, gen)
  {
  }

  lemma EdgeIsLive(f: Fn, b: nat, x: Option<nat>, in_: Sets, t: nat)
    requires WfFn(f) && SoundIn(f, in_) && b < |f.blk| && t in EdgeLive(f, b, x, in_)
    requires x.Some? ==> x.value < |f.blk| && Edge(f.g, b, x.value)
    ensures LiveOut(f, b, t)
  {
    hide LiveIn;
    hide WfBlk;
    PhiArgsIs(f.blk[x.value], b, t);
    assert LiveAcross(f, b, x.value, t);
  }

  lemma VisitSound(f: Fn, b: nat, in0: Sets, out0: Sets, gen0: Sets, nlive0: seq<seq<nat>>,
                   in_: Sets, out: Sets, gen: Sets, nlive: seq<seq<nat>>, t: nat)
    requires WfFn(f) && SoundIn(f, in0) && SoundOut(f, out0) && Visited(f, b, in0, out0, gen0, nlive0, in_, out, gen, nlive)
    ensures t in out[b] ==> LiveOut(f, b, t)
    ensures t in in_[b] ==> LiveIn(f, b, t)
  {
    hide LiveIn;
    hide LiveOut;
    hide EdgeLive;
    hide Upward;
    hide Defines;
    hide WfBlk;
    SuccFits(f, b);
    if t in EdgeLive(f, b, f.g.s1[b], in0) {
      EdgeIsLive(f, b, f.g.s1[b], in0, t);
    }
    if t in EdgeLive(f, b, f.g.s2[b], in0) {
      EdgeIsLive(f, b, f.g.s2[b], in0, t);
    }
    assert t in out[b] ==> LiveOut(f, b, t);
    LiveInIs(f.blk[b], out[b], t);
    LiveInStep(f, b, t);
  }

  lemma VisitSane(f: Fn, b: nat, in0: Sets, out0: Sets, gen0: Sets, nlive0: seq<seq<nat>>,
                  in_: Sets, out: Sets, gen: Sets, nlive: seq<seq<nat>>)
    requires Sane(f, in0, out0, gen0) && Visited(f, b, in0, out0, gen0, nlive0, in_, out, gen, nlive)
    ensures Sane(f, in_, out, gen)
  {
    hide LiveIn;
    hide LiveOut;
    hide Occurs;
    hide LiveBefore;
    hide EdgeLive;
    forall t: nat ensures (t in out[b] ==> LiveOut(f, b, t)) && (t in in_[b] ==> LiveIn(f, b, t)) {
      VisitSound(f, b, in0, out0, gen0, nlive0, in_, out, gen, nlive, t);
    }
    VisitFits(f, b, in0, out0, gen0, nlive0, in_, out, gen, nlive);
  }

  lemma VisitFits(f: Fn, b: nat, in0: Sets, out0: Sets, gen0: Sets, nlive0: seq<seq<nat>>,
                  in_: Sets, out: Sets, gen: Sets, nlive: seq<seq<nat>>)
    requires WfFn(f) && InTmps(f, in0, out0) && Visited(f, b, in0, out0, gen0, nlive0, in_, out, gen, nlive)
    ensures InTmps(f, in_, out)
  {
    hide LiveBefore;
    hide LiveOn;
    hide WfBlk;
    SuccFits(f, b);
    if f.g.s1[b].Some? {
      LiveOnFits(f, b, f.g.s1[b].value, in0[f.g.s1[b].value]);
    }
    if f.g.s2[b].Some? {
      LiveOnFits(f, b, f.g.s2[b].value, in0[f.g.s2[b].value]);
    }
    LiveBeforeFits(f, b, out[b], 0);
  }

  lemma {:induction false} LiveBeforeFits(f: Fn, b: nat, out: set<nat>, i: nat)
    requires WfFn(f) && b < |f.blk| && i <= |f.blk[b].ins| && forall t :: t in out ==> t < |f.cls|
    ensures forall t :: t in LiveBefore(f.blk[b], out, i) ==> t < |f.cls|
    decreases |f.blk[b].ins| - i
  {
    BlkFits(f, b);
    if i < |f.blk[b].ins| {
      LiveBeforeFits(f, b, out, i + 1);
    }
  }

  lemma VisitTallied(f: Fn, b: nat, in0: Sets, out0: Sets, gen0: Sets, nlive0: seq<seq<nat>>,
                     in_: Sets, out: Sets, gen: Sets, nlive: seq<seq<nat>>, n: nat)
    requires Sane(f, in0, out0, gen0) && Visited(f, b, in0, out0, gen0, nlive0, in_, out, gen, nlive)
    requires Tallied(f, in0, out0, gen0, nlive0, n) && n <= b + 1
    ensures Tallied(f, in_, out, gen, nlive, if n == b + 1 then b else n)
  {
    hide LiveBefore;
    hide Occurs;
    hide Pressures;
    hide EdgeLive;
    hide SoundIn;
    hide SoundOut;
    hide InTmps;
    hide WfFn;
    assert gen0[b] + Occurs(f, b) == Occurs(f, b);
    assert TalliedAt(f, b, in_[b], out[b], gen[b], nlive[b]);
  }

  lemma VisitRoom(f: Fn, b: nat, in0: Sets, out0: Sets, gen0: Sets, nlive0: seq<seq<nat>>,
                  in_: Sets, out: Sets, gen: Sets, nlive: seq<seq<nat>>)
    requires Visited(f, b, in0, out0, gen0, nlive0, in_, out, gen, nlive) && out[b] != out0[b]
    requires Sane(f, in_, out, gen)
    ensures Room(f, out) < Room(f, out0)
  {
    hide LiveBefore;
    hide Occurs;
    hide Pressures;
    hide EdgeLive;
    hide SoundIn;
    hide SoundOut;
    hide WfFn;
    assert out0[b] <= out[b];
    var t :| t in out[b] && t !in out0[b];
    assert (b, t) in Room(f, out0);
    assert (b, t) !in Room(f, out);
  }

  lemma VisitQuiet(f: Fn, b: nat, in0: Sets, out0: Sets, gen0: Sets, nlive0: seq<seq<nat>>,
                   in_: Sets, out: Sets, gen: Sets, nlive: seq<seq<nat>>, first: bool)
    requires Visited(f, b, in0, out0, gen0, nlive0, in_, out, gen, nlive) && out[b] == out0[b]
    requires !first ==> Tallied(f, in0, out0, gen0, nlive0, 0)
    ensures out == out0
    ensures !first ==> in_ == in0
    ensures EdgesFrom(f, in0, out0, b + 1) && in_ == in0 ==> EdgesFrom(f, in_, out, b)
  {
    hide LiveBefore;
    hide Occurs;
    hide Pressures;
    hide EdgeLive;
    if !first {
      assert TalliedAt(f, b, in0[b], out0[b], gen0[b], nlive0[b]);
    }
  }

  lemma AllEdges(f: Fn, in_: Sets, out: Sets, gen: Sets, nlive: seq<seq<nat>>)
    requires Sane(f, in_, out, gen)
    requires Tallied(f, in_, out, gen, nlive, 0) && EdgesFrom(f, in_, out, 0)
    ensures WfFn(f) && Solves(f, in_, out)
  {
    hide LiveBefore;
    hide Occurs;
    hide Pressures;
    hide LiveOn;
    hide SoundIn;
    hide SoundOut;
    hide InTmps;
    forall b: nat | b < |f.blk| ensures in_[b] == LiveBefore(f.blk[b], out[b], 0) {
      assert TalliedAt(f, b, in_[b], out[b], gen[b], nlive[b]);
    }
    forall b: nat, s: nat | s < |f.blk| && Edge(f.g, b, s) ensures LiveOn(f.blk[s], b, in_[s]) <= out[b] {
      assert EdgeLive(f, b, f.g.s1[b], in_) <= out[b] && EdgeLive(f, b, f.g.s2[b], in_) <= out[b];
    }
  }

  lemma ExactNow(f: Fn, in_: Sets, out: Sets, gen: Sets)
    requires Sane(f, in_, out, gen) && WfFn(f) && Solves(f, in_, out)
    ensures Exact(f, in_, out)
  {
    hide LiveIn;
    hide LiveOut;
    hide Solves;
    hide InTmps;
    SolutionExact(f, in_, out);
  }

  // ---- facts that unfold at once ----------------------------------------------------------

  lemma PhiArgsIs(x: Blk, b: nat, t: nat)
    ensures t in PhiArgs(x, b) <==> PhiReads(x, b, t)
  {
  }

  lemma LiveOnIs(x: Blk, b: nat, s: set<nat>)
    ensures LiveOn(x, b, s) == s - PhiDsts(x) + PhiArgs(x, b)
  {
  }

  lemma ArgsRow(x: Blk, b: nat, k: nat)
    requires k < |x.phis|
    ensures ArgsSoFar(x, b, k + 1, 0) == ArgsSoFar(x, b, k, |x.phis[k].args|)
  {
  }

  lemma PressureEnd(cls: seq<nat>, x: Blk, out: set<nat>, nlv: seq<nat>)
    requires Counted(cls, LiveBefore(x, out, |x.ins|), nlv)
    ensures |nlv| == 2 && nlv == [Pressure(cls, x, out, |x.ins|, 0), Pressure(cls, x, out, |x.ins|, 1)]
  {
  }

  lemma PressureStep(cls: seq<nat>, x: Blk, out: set<nat>, i: nat, nlv: seq<nat>)
    requires i < |x.ins| && Counted(cls, LiveBefore(x, out, i), nlv)
    ensures |nlv| == 2
    ensures forall k: nat :: k < 2 ==>
              Pressure(cls, x, out, i, k) == if nlv[k] > Pressure(cls, x, out, i + 1, k) then nlv[k] else Pressure(cls, x, out, i + 1, k)
  {
  }

  lemma SuccFits(f: Fn, b: nat)
    requires WfFn(f) && b < |f.blk|
    ensures |f.g.s1| == |f.g.s2| == |f.blk|
    ensures f.g.s1[b].Some? ==> f.g.s1[b].value < |f.blk|
    ensures f.g.s2[b].Some? ==> f.g.s2[b].value < |f.blk|
  {
  }

  lemma PassStart(f: Fn, in_: Sets, out: Sets, gen: Sets, nlive: seq<seq<nat>>)
    requires Sane(f, in_, out, gen) && |nlive| == |f.blk|
    ensures Tallied(f, in_, out, gen, nlive, |f.blk|) && EdgesFrom(f, in_, out, |f.blk|)
  {
  }

  lemma SaneFits(f: Fn, in_: Sets, out: Sets, gen: Sets)
    requires Sane(f, in_, out, gen)
    ensures WfFn(f) && InTmps(f, in_, out)
  {
  }
}
