// opt/cfg.c on a function whose blocks are named by their reverse-postorder id:
// predecessors, dominators, dominator queries and dominance frontiers.
module CfgPass {
  import opened Graph
  import opened DomTree

  class Fn {
    const s1: seq<Option<nat>>
    const s2: seq<Option<nat>>
    var pred: seq<seq<nat>>
    var idom: Idom
    var fron: seq<seq<nat>>

    function G(): Cfg {
      Cfg.Cfg(0, s1, s2)
    }

    ghost predicate HasPreds()
      reads this`pred
    {
      && |pred| == |s1|
      && (forall b: nat, p: nat :: b < |pred| ==> (p in pred[b] <==> Edge(G(), p, b)))
      && (forall b: nat, i: nat, j: nat :: b < |pred| && i < j < |pred[b]| ==> pred[b][i] != pred[b][j])
    }

    // The state filldom leaves: idom chains are dominance.
    ghost predicate HasDoms()
      reads this`idom
    {
      && RpoNumbered(G())
      && |idom| == |s1|
      && Complete(idom)
      && (forall a: nat, b: nat :: b < |idom| ==> (OnChain(idom, a, b) <==> Dom(G(), a, b)))
    }

    constructor (s1: seq<Option<nat>>, s2: seq<Option<nat>>)
      ensures this.s1 == s1 && this.s2 == s2
    {
      this.s1, this.s2 := s1, s2;
      pred, idom, fron := [], [], [];
    }

    method AddPred(p: nat, b: nat)
      requires b < |pred|
      modifies this`pred
      ensures pred == old(pred)[b := old(pred)[b] + [p]]
    {
      pred := pred[b := pred[b] + [p]];
    }

    method FillPreds()
      requires Wf(G())
      modifies this`pred
      ensures HasPreds()
    {
      pred := seq(|s1|, _ => []);
      var b := 0;
      while b < |s1|
        invariant 0 <= b <= |s1| && |pred| == |s1|
        invariant forall x: nat, p: nat :: x < |pred| ==> (p in pred[x] <==> p < b && Edge(G(), p, x))
        invariant forall x: nat, i: nat, j: nat :: x < |pred| && i < j < |pred[x]| ==> pred[x][i] != pred[x][j]
      {
        ghost var was := pred;
        if s1[b].Some? {
          AddPred(b, s1[b].value);
        }
        if s2[b].Some? && s2[b] != s1[b] {
          AddPred(b, s2[b].value);
        }
        forall x: nat, i: nat, j: nat | x < |pred| && i < j < |pred[x]|
          ensures pred[x][i] != pred[x][j]
        {
          assert b !in was[x];
          assert pred[x] == was[x] || pred[x] == was[x] + [b];
          assert i < |was[x]| && pred[x][i] in was[x];
        }
        b := b + 1;
      }
    }

    // The nearest common ancestor; b1 absent means nothing met yet.
    method Inter(b1: Option<nat>, b2: nat) returns (r: nat)
      requires IsTree(idom) && b2 < |idom| && Placed(idom, b2)
      requires b1.Some? ==> b1.value < |idom| && Placed(idom, b1.value)
      ensures r < |idom| && Placed(idom, r)
      ensures r == if b1.None? then b2 else Meet(idom, b1.value, b2)
    {
      if b1.None? {
        return b2;
      }
      var x: nat, y: nat := b1.value, b2;
      while x != y
        invariant x < |idom| && y < |idom| && Placed(idom, x) && Placed(idom, y)
        invariant Meet(idom, x, y) == Meet(idom, b1.value, b2)
        decreases x + y
      {
        if x < y {
          MeetCommutes(idom, x, y);
          x, y := y, x;
        }
        ghost var before := x;
        while x > y
          invariant x < |idom| && Placed(idom, x) && (x == before > y || x < before)
          invariant Meet(idom, x, y) == Meet(idom, b1.value, b2)
          decreases x
        {
          x := idom[x].value;
        }
      }
      r := x;
    }

    method FillDom()
      requires RpoNumbered(G()) && HasPreds()
      modifies this`idom
      ensures HasDoms()
    {
      idom := seq(|s1|, _ => None);
      ghost var t := Span(G());
      InitialProgress(G(), t, idom);
      var ch := true;
      while ch
        invariant Progress(G(), t, idom, 1)
        invariant !ch ==> Stable(G(), idom) && Complete(idom)
        decreases Weight(idom), ch
      {
        ch := Pass(t);
        if !ch {
          NothingChanged(G(), t, idom, pred);
        }
      }
      forall a: nat, b: nat | b < |idom| ensures OnChain(idom, a, b) <==> Dom(G(), a, b) {
        ChainIsDominance(G(), idom, a, b);
      }
    }

    // One turn of filldom's do-while: every block once, in id order.
    method Pass(ghost t: seq<nat>) returns (ch: bool)
      requires HasPreds() && Progress(G(), t, idom, 1)
      modifies this`idom
      ensures |idom| == |s1| == |pred| && IsTree(idom)
      ensures Progress(G(), t, idom, |s1|)
      ensures ch ==> Weight(idom) < Weight(old(idom))
      ensures !ch ==> idom == old(idom) && UnchangingBelow(idom, pred, |s1|)
    {
      assert IsTree(idom) && |idom| == |s1| == |pred|;
      ch := false;
      ghost var d, ps := idom, pred;
      hide *;
      var n: nat := 1;
      assert UnchangingBelow(d, ps, 1) by { NothingBelow(d, ps); }
      while n < |s1|
        invariant 1 <= n <= |s1| == |idom| && IsTree(idom)
        invariant Progress(G(), t, idom, n)
        invariant ch ==> Weight(idom) < Weight(d)
        invariant !ch ==> idom == d && UnchangingBelow(d, ps, n)
      {
        ch := Step(t, n, ch, d);
        n := n + 1;
      }
      assert n == |s1|;
    }

    method Step(ghost t: seq<nat>, n: nat, c: bool, ghost d0: Idom) returns (ch: bool)
      requires HasPreds() && 0 < n < |s1| && Progress(G(), t, idom, n)
      requires c ==> Weight(idom) < Weight(d0)
      requires !c ==> idom == d0 && UnchangingBelow(d0, pred, n)
      modifies this`idom
      ensures |idom| == |s1| && IsTree(idom) && Progress(G(), t, idom, n + 1)
      ensures ch ==> Weight(idom) < Weight(d0)
      ensures !ch ==> idom == d0 && UnchangingBelow(d0, pred, n + 1)
    {
      ch := c;
      ghost var was := idom;
      TreeStep(G(), t, idom, pred, n, c, d0, Weight(d0));
      var d := MeetPreds(n);
      if d != idom[n] {
        ch := true;
        idom := idom[n := d];
      }
      assert idom == was[n := d];
    }

    // The inner loop of filldom over the predecessors of block n.
    method MeetPreds(n: nat) returns (d: Option<nat>)
      requires IsTree(idom) && n < |pred|
      requires forall i :: 0 <= i < |pred[n]| ==> pred[n][i] < |idom|
      ensures d == MeetAll(idom, pred[n])
    {
      d := None;
      var p := 0;
      while p < |pred[n]|
        invariant 0 <= p <= |pred[n]|
        invariant d == MeetAll(idom, pred[n][..p])
      {
        assert pred[n][..p + 1][..p] == pred[n][..p];
        if idom[pred[n][p]].Some? || pred[n][p] == 0 {
          var m := Inter(d, pred[n][p]);
          d := Some(m);
        }
        p := p + 1;
      }
      assert pred[n][..p] == pred[n];
    }

    method StrictlyDominates(b1: nat, b2: nat) returns (r: bool)
      requires HasDoms() && b1 < |idom| && b2 < |idom|
      ensures r <==> SDom(G(), b1, b2)
    {
      if b1 == b2 {
        return false;
      }
      var b: nat := b2;
      while b > b1
        invariant b < |idom|
        invariant OnChain(idom, b1, b) <==> Dom(G(), b1, b2)
      {
        assert Placed(idom, b);
        b := idom[b].value;
      }
      if OnChain(idom, b1, b) {
        ChainLow(idom, b1, b);
      }
      r := b1 == b;
    }

    method Dominates(b1: nat, b2: nat) returns (r: bool)
      requires HasDoms() && b1 < |idom| && b2 < |idom|
      ensures r <==> Dom(G(), b1, b2)
    {
      if b1 == b2 {
        DomRefl(G(), b1);
        return true;
      }
      r := StrictlyDominates(b1, b2);
    }

    method AddFron(a: nat, b: nat)
      requires a < |fron|
      modifies this`fron
      ensures fron == AddedOnce(old(fron), a, b)
    {
      var n := 0;
      while n < |fron[a]|
        invariant 0 <= n <= |fron[a]|
        invariant b !in fron[a][..n]
      {
        if fron[a][n] == b {
          return;
        }
        assert fron[a][..n + 1] == fron[a][..n] + [fron[a][n]];
        n := n + 1;
      }
      assert fron[a][..n] == fron[a];
      fron := fron[a := fron[a] + [b]];
    }

    // The walk for the edge b -> s: up from b to the first strict dominator of s.
    method WalkFron(b: nat, s: nat)
      requires HasDoms() && |fron| == |idom| && Edge(G(), b, s) && s != 0
      modifies this`fron
      ensures |fron| == |idom|
      ensures forall a: nat, x: nat :: a < |fron| ==>
                (x in fron[a] <==> x in old(fron)[a] || (x == s && Dom(G(), a, b) && !SDom(G(), a, s)))
      ensures old(NoRepeats(fron)) ==> NoRepeats(fron)
    {
      hide *;
      DomParts();
      var a: nat := b;
      WalkStart(G(), idom, fron, b, s);
      var stop := StrictlyDominates(a, s);
      while !stop
        invariant a < |idom| && |fron| == |idom|
        invariant WalkedTo(G(), idom, old(fron), fron, a, b, s)
        invariant stop <==> SDom(G(), a, s)
        invariant old(NoRepeats(fron)) ==> NoRepeats(fron)
        decreases a, !stop
      {
        WalkUp(G(), idom, old(fron), fron, a, b, s);
        AddOnce(fron, a, s);
        AddFron(a, s);
        a := idom[a].value;
        stop := StrictlyDominates(a, s);
      }
      WalkEnd(G(), idom, old(fron), fron, a, b, s);
    }

    lemma DomParts()
      requires HasDoms()
      ensures RpoNumbered(G()) && |idom| == |G().s1| == |s1| == |s2| && Complete(idom)
      ensures forall a: nat, b: nat :: b < |idom| ==> (OnChain(idom, a, b) <==> Dom(G(), a, b))
      ensures forall b: nat, s: nat :: Edge(G(), b, s) ==> b < |s1| && s < |s1|
    {
    }

    // The dominance frontiers, for an entry block without predecessors.
    method FillFron()
      requires HasDoms()
      requires forall p: nat :: !Edge(G(), p, 0)
      modifies this`fron
      ensures |fron| == |s1|
      ensures forall a: nat, s: nat :: a < |fron| ==> (s in fron[a] <==> InFrontier(G(), a, s))
      ensures NoRepeats(fron)
    {
      hide *;
      DomParts();
      fron := seq(|s1|, _ => []);
      FronStart(G(), fron);
      var b: nat := 0;
      while b < |s1|
        invariant b <= |s1| && |fron| == |s1|
        invariant FronOfPreds(G(), fron, b) && NoRepeats(fron)
      {
        ghost var was := fron;
        EdgesOut(b);
        if s1[b].Some? {
          WalkFron(b, s1[b].value);
        }
        if s2[b].Some? {
          WalkFron(b, s2[b].value);
        }
        FronStep(G(), was, fron, b);
        b := b + 1;
      }
      FronEnd(G(), fron);
    }

    lemma EdgesOut(b: nat)
      requires RpoNumbered(G()) && b < |s1|
      ensures forall s: nat :: Edge(G(), b, s) <==> s1[b] == Some(s) || s2[b] == Some(s)
    {
    }
  }

  // After the walk for b -> s has come up to a.
  ghost predicate WalkedTo(g: Cfg, d: Idom, was: seq<seq<nat>>, now: seq<seq<nat>>, a: nat, b: nat, s: nat)
    requires IsTree(d)
  {
    && |was| == |now| && |now| == |d| && a < |d| && b < |d|
    && OnChain(d, a, b)
    && (forall c: nat, x: nat :: c < |now| ==>
          (x in now[c] <==> x in was[c] || (x == s && OnChain(d, c, b) && !OnChain(d, c, a) && !SDom(g, c, s))))
  }

  function AddedOnce(f: seq<seq<nat>>, a: nat, s: nat): seq<seq<nat>>
    requires a < |f|
  {
    f[a := if s in f[a] then f[a] else f[a] + [s]]
  }

  lemma WalkUp(g: Cfg, d: Idom, was: seq<seq<nat>>, now: seq<seq<nat>>, a: nat, b: nat, s: nat)
    requires RpoNumbered(g) && |d| == |g.s1| && Complete(d)
    requires forall a: nat, b: nat :: b < |d| ==> (OnChain(d, a, b) <==> Dom(g, a, b))
    requires WalkedTo(g, d, was, now, a, b, s) && 0 < s < |d| && !SDom(g, a, s)
    ensures a < |d| && d[a].Some? && d[a].value < a
    ensures WalkedTo(g, d, was, AddedOnce(now, a, s), d[a].value, b, s)
  {
    assert SDom(g, 0, s) by {
      assert Placed(d, s);
      RootOnChain(d, s);
    }
    assert a != 0 && Placed(d, a);
    forall c: nat | OnChain(d, c, d[a].value) ensures c != a {
      ChainLow(d, c, d[a].value);
    }
    ChainTrans(d, d[a].value, a, b);
  }

  lemma WalkEnd(g: Cfg, d: Idom, was: seq<seq<nat>>, now: seq<seq<nat>>, a: nat, b: nat, s: nat)
    requires RpoNumbered(g) && |d| == |g.s1| && Complete(d)
    requires forall a: nat, b: nat :: b < |d| ==> (OnChain(d, a, b) <==> Dom(g, a, b))
    requires WalkedTo(g, d, was, now, a, b, s) && s < |d| && SDom(g, a, s)
    ensures forall c: nat, x: nat :: c < |now| ==>
              (x in now[c] <==> x in was[c] || (x == s && Dom(g, c, b) && !SDom(g, c, s)))
  {
    forall c: nat | c < |now| && OnChain(d, c, a) ensures SDom(g, c, s) {
      WalkStopsRightly(g, d, a, c, s);
    }
  }

  // The frontiers, counting predecessors below n only.
  ghost predicate FronOfPreds(g: Cfg, f: seq<seq<nat>>, n: nat) {
    forall a: nat, s: nat :: a < |f| ==> (s in f[a] <==> FronBelow(g, a, s, n))
  }

  ghost predicate FronBelow(g: Cfg, a: nat, s: nat, n: nat) {
    exists p: nat :: p < n && Edge(g, p, s) && Dom(g, a, p) && !SDom(g, a, s)
  }

  lemma FronStep(g: Cfg, was: seq<seq<nat>>, now: seq<seq<nat>>, b: nat)
    requires FronOfPreds(g, was, b) && |now| == |was|
    requires forall a: nat, x: nat :: a < |now| ==>
               (x in now[a] <==> x in was[a] || (Edge(g, b, x) && Dom(g, a, b) && !SDom(g, a, x)))
    ensures FronOfPreds(g, now, b + 1)
  {
    forall a: nat, s: nat {:trigger FronBelow(g, a, s, b + 1)}
      ensures FronBelow(g, a, s, b + 1) <==> (FronBelow(g, a, s, b) || (Edge(g, b, s) && Dom(g, a, b) && !SDom(g, a, s)))
    {
      if FronBelow(g, a, s, b) {
        var p: nat :| p < b && Edge(g, p, s) && Dom(g, a, p) && !SDom(g, a, s);
        assert p < b + 1;
      }
    }
  }

  lemma FronEnd(g: Cfg, f: seq<seq<nat>>)
    requires FronOfPreds(g, f, |g.s1|)
    ensures forall a: nat, s: nat :: a < |f| ==> (s in f[a] <==> InFrontier(g, a, s))
  {
    forall a: nat, s: nat | a < |f| ensures s in f[a] <==> InFrontier(g, a, s) {
      if InFrontier(g, a, s) {
        var p: nat :| Edge(g, p, s) && Dom(g, a, p) && !SDom(g, a, s);
        assert p < |g.s1|;
      }
    }
  }

  ghost predicate NoRepeats(f: seq<seq<nat>>) {
    forall a: nat, i: nat, j: nat :: a < |f| && i < j < |f[a]| ==> f[a][i] != f[a][j]
  }

  // s is in the frontier of a: a dominates a predecessor of s but does not
  // strictly dominate s.
  ghost predicate InFrontier(g: Cfg, a: nat, s: nat) {
    exists p: nat :: Edge(g, p, s) && Dom(g, a, p) && !SDom(g, a, s)
  }

  // Once an ancestor of b strictly dominates s, so does everything above it.
  lemma WalkStopsRightly(g: Cfg, d: Idom, a: nat, x: nat, s: nat)
    requires RpoNumbered(g) && |d| == |g.s1| && Complete(d)
    requires forall a: nat, b: nat :: b < |d| ==> (OnChain(d, a, b) <==> Dom(g, a, b))
    requires a < |d| && s < |d| && SDom(g, a, s) && OnChain(d, x, a)
    ensures SDom(g, x, s)
  {
    DomIsLower(g, a, s);
    ChainLow(d, x, a);
    DomTrans(g, x, a, s);
  }

  ghost function Span(g: Cfg): (t: seq<nat>)
    requires RpoNumbered(g)
    ensures IsSpan(g, t)
  {
    seq(|g.s1|, b requires 0 <= b < |g.s1| => if b == 0 then 0 else assert HasLowPred(g, b); var p: nat :| p < b && Edge(g, p, b); p)
  }

  // ---- facts that unfold at once ----------------------------------------------------------

  lemma AddOnce(f: seq<seq<nat>>, a: nat, s: nat)
    requires a < |f|
    ensures |AddedOnce(f, a, s)| == |f|
    ensures NoRepeats(f) ==> NoRepeats(AddedOnce(f, a, s))
  {
  }

  lemma WalkStart(g: Cfg, d: Idom, f: seq<seq<nat>>, b: nat, s: nat)
    requires Complete(d) && |f| == |d| && b < |d|
    ensures WalkedTo(g, d, f, f, b, b, s)
  {
  }

  lemma FronStart(g: Cfg, f: seq<seq<nat>>)
    requires forall a: nat :: a < |f| ==> f[a] == []
    ensures FronOfPreds(g, f, 0) && NoRepeats(f)
  {
  }

  lemma InitialProgress(g: Cfg, t: seq<nat>, d: Idom)
    requires RpoNumbered(g) && IsSpan(g, t) && d == seq(|g.s1|, _ => None)
    ensures Progress(g, t, d, 1)
  {
  }
}
