// The dominator helpers that mir/mem2reg.c and mir/gvn.c both carry: m2r_fill_idom
// and fill_idom (the same algorithm), mdom, and m2r_fill_frontiers.  They differ
// from opt/cfg.c in that the entry is its own idom, an edge listed twice gives
// two predecessor entries, and frontiers are filled from the join points.
//
// Blocks are named by their reverse-postorder index (rpo[i] is block i).
module MirCfg {
  import opened Graph
  import opened DomTree
  import CfgPass

  // How many edges there are from p to b, and from the blocks below n to b.
  function EntriesFrom(g: Cfg, p: nat, b: nat): nat
    requires p < |g.s1| == |g.s2|
  {
    (if g.s1[p] == Some(b) then 1 else 0) + (if g.s2[p] == Some(b) then 1 else 0)
  }

  function Entries(g: Cfg, b: nat, n: nat): nat
    requires n <= |g.s1| == |g.s2|
  {
    if n == 0 then 0 else Entries(g, b, n - 1) + EntriesFrom(g, n - 1, b)
  }

  // The walk for the join b stops at a: at b's idom, which is the entry itself for the entry.
  ghost predicate Stops(g: Cfg, a: nat, b: nat) {
    if b == 0 then a == 0 else SDom(g, a, b)
  }

  // One of the blocks ps is dominated by a, and the walk for b does not stop at a.
  ghost predicate Crossed(g: Cfg, ps: seq<nat>, a: nat, b: nat) {
    exists p: nat :: p in ps && Dom(g, a, p) && !Stops(g, a, b)
  }

  // What the walk from the join points leaves: the frontiers, but the entry is put in
  // another block's frontier only if two edges or more lead to it, and in its own never.
  ghost predicate WalkLeaves(g: Cfg, a: nat, s: nat)
    requires |g.s1| == |g.s2|
  {
    CfgPass.InFrontier(g, a, s) && (s == 0 ==> a != 0 && Entries(g, 0, |g.s1|) >= 2)
  }

  ghost predicate AllWalkLeaves(g: Cfg)
    requires |g.s1| == |g.s2|
  {
    forall a: nat, s: nat :: a < |g.s1| ==> (WalkLeaves(g, a, s) <==> CfgPass.InFrontier(g, a, s))
  }

  // Those are the frontiers exactly when no edge leads to the entry.
  lemma WalkIsFrontier(g: Cfg)
    requires RpoNumbered(g)
    ensures AllWalkLeaves(g) <==> forall p: nat :: !Edge(g, p, 0)
  {
    if p: nat :| Edge(g, p, 0) {
      EntryInOwn(g, p);
      assert CfgPass.InFrontier(g, 0, 0) && !WalkLeaves(g, 0, 0);
    }
  }

  // An edge to the entry puts it in its own frontier.
  lemma EntryInOwn(g: Cfg, p: nat)
    requires RpoNumbered(g) && Edge(g, p, 0)
    ensures CfgPass.InFrontier(g, 0, 0)
  {
    forall q | IsPathTo(g, q, p) ensures 0 in q {
      assert q[0] == 0;
    }
    assert Dom(g, 0, p) && !SDom(g, 0, 0);
  }

  // Two blocks in a loop, one edge back to the entry: neither frontier gets it.
  lemma OneEdgeBack()
    ensures var g := Cfg.Cfg(0, [Some(1), Some(0)], [None, None]);
            && RpoNumbered(g) && Entries(g, 0, 2) == 1
            && CfgPass.InFrontier(g, 0, 0) && CfgPass.InFrontier(g, 1, 0)
            && !WalkLeaves(g, 0, 0) && !WalkLeaves(g, 1, 0)
  {
    var g := Cfg.Cfg(0, [Some(1), Some(0)], [None, None]);
    assert Edge(g, 0, 1) && Edge(g, 1, 0);
    assert HasLowPred(g, 1);
    EntryInOwn(g, 1);
    DomRefl(g, 1);
    NotSDomEntry(g, 1);
    assert Entries(g, 0, 2) == Entries(g, 0, 1) + 1 && Entries(g, 0, 1) == Entries(g, 0, 0) + 0;
  }

  // A second edge back: the other block's frontier gets it, the entry's own still not.
  lemma TwoEdgesBack()
    ensures var g := Cfg.Cfg(0, [Some(1), Some(0)], [Some(0), None]);
            && RpoNumbered(g) && Entries(g, 0, 2) == 2
            && CfgPass.InFrontier(g, 0, 0) && CfgPass.InFrontier(g, 1, 0)
            && !WalkLeaves(g, 0, 0) && WalkLeaves(g, 1, 0)
  {
    var g := Cfg.Cfg(0, [Some(1), Some(0)], [Some(0), None]);
    assert Edge(g, 0, 1) && Edge(g, 1, 0);
    assert HasLowPred(g, 1);
    EntryInOwn(g, 1);
    DomRefl(g, 1);
    NotSDomEntry(g, 1);
    assert Entries(g, 0, 2) == Entries(g, 0, 1) + 1 && Entries(g, 0, 1) == Entries(g, 0, 0) + 1;
  }

  lemma NotSDomEntry(g: Cfg, a: nat)
    requires Wf(g) && g.start == 0
    ensures !SDom(g, a, 0)
  {
    assert IsPathTo(g, [0], 0);
  }

  lemma CrossedMore(g: Cfg, ps: seq<nat>, j: nat, b: nat)
    requires j < |ps|
    ensures forall a: nat :: Crossed(g, ps[..j + 1], a, b) <==>
              (Crossed(g, ps[..j], a, b) || (Dom(g, a, ps[j]) && !Stops(g, a, b)))
  {
    hide Dom;
    hide Stops;
    assert ps[..j + 1] == ps[..j] + [ps[j]];
    forall a: nat
      ensures Crossed(g, ps[..j], a, b) ==> Crossed(g, ps[..j + 1], a, b)
    {
      if Crossed(g, ps[..j], a, b) {
        var p: nat :| p in ps[..j] && Dom(g, a, p) && !Stops(g, a, b);
        assert p in ps[..j + 1];
      }
    }
  }

  class MFn {
    const s1: seq<Option<nat>>
    const s2: seq<Option<nat>>
    var pred: seq<seq<nat>>
    var idom: seq<Option<nat>>
    var depth: seq<nat>
    var fron: seq<seq<nat>>

    function G(): Cfg {
      Cfg.Cfg(0, s1, s2)
    }

    // The tree without the entry's link to itself.
    function Tree(): Idom
      reads this`idom
    {
      if |idom| > 0 then idom[0 := None] else []
    }

    ghost predicate HasPreds()
      reads this`pred
    {
      && |pred| == |s1|
      && (forall b: nat, p: nat :: b < |pred| ==> (p in pred[b] <==> Edge(G(), p, b)))
      && |s1| == |s2| && (forall b: nat :: b < |pred| ==> |pred[b]| == Entries(G(), b, |s1|))
    }

    ghost predicate HasDoms()
      reads this`idom
    {
      && RpoNumbered(G())
      && |idom| == |s1| && idom[0] == Some(0)
      && Complete(Tree())
      && (forall a: nat, b: nat :: b < |idom| ==> (OnChain(Tree(), a, b) <==> Dom(G(), a, b)))
    }

    ghost predicate HasDepths()
      reads this`idom, this`depth
    {
      && HasDoms() && |depth| == |idom| && depth[0] == 0
      && (forall b: nat :: 0 < b < |idom| ==> idom[b].Some? && idom[b].value < |depth| && depth[b] == depth[idom[b].value] + 1)
    }

    constructor (s1: seq<Option<nat>>, s2: seq<Option<nat>>)
      ensures this.s1 == s1 && this.s2 == s2
    {
      this.s1, this.s2 := s1, s2;
      pred, idom, depth, fron := [], [], [], [];
    }

    lemma IsG(g: Cfg)
      requires g.start == 0 && s1 == g.s1 && s2 == g.s2
      ensures G() == g
    {
    }

    lemma Sized()
      requires HasDepths()
      ensures |idom| == |G().s1|
    {
    }

    method FillPreds()
      requires Wf(G())
      modifies this`pred
      ensures HasPreds()
    {
      pred := seq(|s1|, _ => []);
      var b := 0;
      while b < |s1|
        invariant 0 <= b <= |s1| && |pred| == |s1|
        invariant forall x: nat, p: nat :: x < |pred| ==> (p in pred[x] <==> p < b && Edge(G(), p, x))
        invariant forall x: nat :: x < |pred| ==> |pred[x]| == Entries(G(), x, b)
      {
        if s1[b].Some? {
          pred := pred[s1[b].value := pred[s1[b].value] + [b]];
        }
        if s2[b].Some? {
          pred := pred[s2[b].value := pred[s2[b].value] + [b]];
        }
        b := b + 1;
      }
    }

    method Intersect(p: nat, q: nat) returns (r: nat)
      requires |idom| > 0 && idom[0] == Some(0) && IsTree(Tree())
      requires p < |idom| && q < |idom| && Placed(Tree(), p) && Placed(Tree(), q)
      ensures r < |idom| && Placed(Tree(), r)
      ensures r == Meet(Tree(), p, q)
    {
      var a: nat, b: nat := p, q;
      while a != b
        invariant a < |idom| && b < |idom| && Placed(Tree(), a) && Placed(Tree(), b)
        invariant Meet(Tree(), a, b) == Meet(Tree(), p, q)
        decreases a + b
      {
        ghost var a0, b0 := a, b;
        while a > b
          invariant a < |idom| && Placed(Tree(), a) && (a == a0 || a < a0)
          invariant a0 > b ==> a == a0 || a < a0
          invariant Meet(Tree(), a, b) == Meet(Tree(), p, q)
          decreases a
        {
          a := idom[a].value;
        }
        while b > a
          invariant b < |idom| && Placed(Tree(), b) && (b == b0 || b < b0)
          invariant Meet(Tree(), a, b) == Meet(Tree(), p, q)
          decreases b
        {
          b := idom[b].value;
        }
      }
      r := a;
    }

    method MeetPreds(n: nat) returns (ni: Option<nat>)
      requires |idom| > 0 && idom[0] == Some(0) && IsTree(Tree()) && n < |pred|
      requires forall i :: 0 <= i < |pred[n]| ==> pred[n][i] < |idom|
      ensures ni == MeetAll(Tree(), pred[n])
    {
      ni := None;
      var j := 0;
      while j < |pred[n]|
        invariant 0 <= j <= |pred[n]|
        invariant ni == MeetAll(Tree(), pred[n][..j])
      {
        assert pred[n][..j + 1][..j] == pred[n][..j];
        var p := pred[n][j];
        if idom[p].Some? {
          if ni.Some? {
            var m := Intersect(p, ni.value);
            MeetCommutes(Tree(), p, ni.value);
            ni := Some(m);
          } else {
            ni := Some(p);
          }
        }
        j := j + 1;
      }
      assert pred[n][..j] == pred[n];
    }

    // One block of a pass that began with tree d0.
    method Step(ghost t: seq<nat>, i: nat, ch: bool, ghost d0: Idom, ghost w: nat) returns (changed: bool)
      requires |idom| > 0 && idom[0] == Some(0) && 0 < i < |s1|
      requires HasPreds() && Progress(G(), t, Tree(), i)
      requires ch ==> Weight(Tree()) < w
      requires !ch ==> Tree() == d0 && w == Weight(d0) && UnchangingBelow(d0, pred, i)
      modifies this`idom
      ensures |idom| == |s1| && idom[0] == Some(0) && IsTree(Tree())
      ensures Progress(G(), t, Tree(), i + 1)
      ensures changed ==> Weight(Tree()) < w
      ensures !changed ==> Tree() == d0 && w == Weight(d0) && UnchangingBelow(d0, pred, i + 1)
    {
      hide *;
      ghost var d := Tree();
      TreeParts();
      PredsOf(i);
      ProgressSize(G(), t, d, i);
      TreeStep(G(), t, d, pred, i, ch, d0, w);
      changed := ch;
      var ni := MeetPreds(i);
      if ni.Some? && ni != idom[i] {
        idom := idom[i := ni];
        changed := true;
      }
      TreeParts();
      assert Tree() == d[i := ni];
    }

    lemma TreeParts()
      requires |idom| > 0
      ensures Tree() == idom[0 := None]
    {
    }

    lemma PredsOf(b: nat)
      requires HasPreds() && b < |s1|
      ensures |pred| == |s1| == |G().s1| == |s2| && |pred[b]| == Entries(G(), b, |s1|)
      ensures forall p: nat :: p in pred[b] <==> Edge(G(), p, b)
    {
    }

    method Pass(ghost t: seq<nat>) returns (changed: bool)
      requires |idom| > 0 && idom[0] == Some(0)
      requires HasPreds() && Progress(G(), t, Tree(), 1)
      modifies this`idom
      ensures |idom| == |s1| && idom[0] == Some(0) && IsTree(Tree())
      ensures Progress(G(), t, Tree(), |s1|)
      ensures changed ==> Weight(Tree()) < old(Weight(Tree()))
      ensures !changed ==> Tree() == old(Tree()) && |pred| == |Tree()| && UnchangingBelow(Tree(), pred, |s1|)
    {
      assert IsTree(Tree()) && |idom| == |s1| == |Tree()| == |pred|;
      changed := false;
      ghost var d, w, ps := Tree(), Weight(Tree()), pred;
      hide *;
      assert UnchangingBelow(d, ps, 1) by { NothingBelow(d, ps); }
      var i: nat := 1;
      while i < |s1|
        invariant 1 <= i <= |s1| == |idom| && idom[0] == Some(0) && IsTree(Tree())
        invariant Progress(G(), t, Tree(), i)
        invariant changed ==> Weight(Tree()) < w
        invariant !changed ==> Tree() == d && w == Weight(d) && UnchangingBelow(d, ps, i)
      {
        changed := Step(t, i, changed, d, w);
        i := i + 1;
      }
      assert i == |s1|;
    }

    method Converge(ghost t: seq<nat>)
      requires |idom| > 0 && idom[0] == Some(0)
      requires HasPreds() && Progress(G(), t, Tree(), 1)
      modifies this`idom
      ensures |idom| > 0 && idom[0] == Some(0) && |idom| == |s1|
      ensures Sound(G(), Tree()) && Complete(Tree()) && Stable(G(), Tree())
    {
      var changed := true;
      while changed
        invariant |idom| > 0 && idom[0] == Some(0)
        invariant Progress(G(), t, Tree(), 1)
        invariant !changed ==> Stable(G(), Tree()) && Complete(Tree())
        decreases Weight(Tree()), changed
      {
        changed := Pass(t);
        if !changed {
          NothingChanged(G(), t, Tree(), pred);
        }
      }
    }

    method FillIdom()
      requires RpoNumbered(G()) && HasPreds()
      modifies this`idom, this`depth
      ensures HasDoms() && HasDepths()
    {
      idom := seq(|s1|, _ => None);
      depth := seq(|s1|, _ => 0);
      idom := idom[0 := Some(0)];
      ghost var t := CfgPass.Span(G());
      assert Tree() == seq(|s1|, _ => None);
      CfgPass.InitialProgress(G(), t, Tree());
      Converge(t);
      forall a: nat, b: nat | b < |idom| ensures OnChain(Tree(), a, b) <==> Dom(G(), a, b) {
        ChainIsDominance(G(), Tree(), a, b);
      }
      FillDepths();
    }

    method FillDepths()
      requires HasDoms() && |depth| == |idom| && depth[0] == 0
      modifies this`depth
      ensures HasDepths()
    {
      var i: nat := 1;
      while i < |s1|
        invariant 1 <= i <= |s1| && |depth| == |idom| && depth[0] == 0
        invariant forall b: nat :: 0 < b < i ==> idom[b].Some? && idom[b].value < b && depth[b] == depth[idom[b].value] + 1
      {
        assert Placed(Tree(), i) && Tree()[i].value < i;
        if idom[i].Some? {
          depth := depth[i := depth[idom[i].value] + 1];
        }
        i := i + 1;
      }
    }

    lemma {:induction false} DeeperThanAncestor(a: nat, b: nat)
      requires HasDepths() && b < |idom| && OnChain(Tree(), a, b)
      ensures a < |depth| && depth[a] <= depth[b]
      ensures a != b ==> depth[a] < depth[b]
      decreases b
    {
      ChainLow(Tree(), a, b);
      if a != b {
        DeeperThanAncestor(a, idom[b].value);
      }
    }

    // mdom: climb from b until no deeper than a.
    method Mdom(a: nat, b: nat) returns (r: bool)
      requires HasDepths() && a < |idom| && b < |idom|
      ensures r <==> Dom(G(), a, b)
    {
      var x: nat := b;
      while depth[x] > depth[a]
        invariant x < |idom|
        invariant OnChain(Tree(), a, x) <==> Dom(G(), a, b)
        decreases depth[x]
      {
        assert Placed(Tree(), x);
        x := idom[x].value;
      }
      if OnChain(Tree(), a, x) {
        DeeperThanAncestor(a, x);
      }
      r := x == a;
    }

    method AddFron(r: nat, b: nat)
      requires r < |fron|
      modifies this`fron
      ensures |fron| == |old(fron)|
      ensures fron[r] == if b in old(fron)[r] then old(fron)[r] else old(fron)[r] + [b]
      ensures forall x :: 0 <= x < |fron| && x != r ==> fron[x] == old(fron)[x]
    {
      var dup := false;
      var k := 0;
      while k < |fron[r]| && !dup
        decreases |fron[r]| - k, !dup
        invariant 0 <= k <= |fron[r]|
        invariant dup ==> b in fron[r]
        invariant !dup ==> b !in fron[r][..k]
      {
        dup := fron[r][k] == b;
        if !dup {
          assert fron[r][..k + 1] == fron[r][..k] + [fron[r][k]];
          k := k + 1;
        }
      }
      if !dup {
        assert fron[r][..k] == fron[r];
        fron := fron[r := fron[r] + [b]];
      }
    }

    // One predecessor p of the join b: up from p to b's idom, exclusive.
    method WalkFron(p: nat, b: nat)
      requires HasDoms() && |fron| == |idom| && Edge(G(), p, b)
      modifies this`fron
      ensures |fron| == |idom|
      ensures forall a: nat, x: nat :: a < |fron| ==>
                (x in fron[a] <==> x in old(fron)[a] || (x == b && Dom(G(), a, p) && !Stops(G(), a, b)))
    {
      IdomAbovePred(G(), Tree(), p, b);
      var r: nat := p;
      while r != idom[b].value
        invariant r < |idom| && |fron| == |idom|
        invariant OnChain(Tree(), r, p) && OnChain(Tree(), idom[b].value, r)
        invariant forall c: nat, x: nat :: c < |fron| ==>
                    (x in fron[c] <==> x in old(fron)[c] || (x == b && OnChain(Tree(), c, p) && !OnChain(Tree(), c, r)))
        decreases r
      {
        AddFron(r, b);
        assert r != 0 by {
          ChainLow(Tree(), idom[b].value, r);
        }
        forall c: nat | OnChain(Tree(), c, idom[r].value) ensures c != r {
          ChainLow(Tree(), c, idom[r].value);
        }
        ChainTrans(Tree(), idom[r].value, r, p);
        r := idom[r].value;
      }
      forall c: nat | c < |fron| ensures Stops(G(), c, b) <==> OnChain(Tree(), c, r) {
        if OnChain(Tree(), c, r) {
          ChainLow(Tree(), c, r);
        }
      }
    }

    // The frontiers, filled at the blocks with two entries or more.
    method FillFrontiers()
      requires HasDoms() && HasPreds()
      modifies this`fron
      ensures |fron| == |s1| == |s2|
      ensures forall a: nat, s: nat :: a < |fron| ==> (s in fron[a] <==> WalkLeaves(G(), a, s))
      ensures (forall a: nat, s: nat :: a < |fron| ==> (s in fron[a] <==> CfgPass.InFrontier(G(), a, s)))
              <==> (forall p: nat :: !Edge(G(), p, 0))
    {
      hide CfgPass.InFrontier;
      hide WalkLeaves;
      hide Stops;
      hide Dom;
      hide SDom;
      hide Complete;
      hide RpoNumbered;
      fron := seq(|s1|, _ => []);
      var b: nat := 0;
      while b < |s1|
        invariant b <= |s1| && |fron| == |s1|
        invariant forall a: nat, s: nat :: a < |fron| ==> (s in fron[a] <==> s < b && WalkLeaves(G(), a, s))
      {
        ghost var was := fron;
        if |pred[b]| >= 2 {
          var j := 0;
          while j < |pred[b]|
            invariant 0 <= j <= |pred[b]| && |fron| == |s1|
            invariant forall a: nat, s: nat :: a < |fron| ==>
                        (s in fron[a] <==> s in was[a] || (s == b && Crossed(G(), pred[b][..j], a, b)))
          {
            assert pred[b][j] in pred[b];
            CrossedMore(G(), pred[b], j, b);
            WalkFron(pred[b][j], b);
            j := j + 1;
          }
          assert pred[b][..j] == pred[b];
          PredsOf(b);
          CrossedAll(G(), pred[b], b);
        } else {
          forall a: nat ensures !WalkLeaves(G(), a, b) {
            NothingWithoutJoin(a, b);
          }
        }
        b := b + 1;
      }
      forall a: nat, s: nat ensures WalkLeaves(G(), a, s) ==> s < |s1| {
        LeftIn(G(), a, s);
      }
      WalkIsFrontier(G());
      AllLeft(G(), fron);
    }

    // A block with at most one entry is put in no frontier.
    lemma NothingWithoutJoin(a: nat, b: nat)
      requires RpoNumbered(G()) && HasPreds() && b < |s1| && |pred[b]| < 2
      ensures !WalkLeaves(G(), a, b)
    {
      if b != 0 && CfgPass.InFrontier(G(), a, b) {
        var p: nat :| Edge(G(), p, b) && Dom(G(), a, p) && !SDom(G(), a, b);
        assert p in pred[b];
        forall u: nat | Edge(G(), u, b) ensures u == p {
          assert u in pred[b];
        }
        OnlyEntry(G(), a, p, b);
      }
    }
  }

  // What dominates the only predecessor of b strictly dominates b.
  lemma OnlyEntry(g: Cfg, a: nat, p: nat, b: nat)
    requires RpoNumbered(g) && 0 < b && Edge(g, p, b) && Dom(g, a, p)
    requires forall u: nat :: Edge(g, u, b) ==> u == p
    ensures SDom(g, a, b)
  {
    assert HasLowPred(g, b);
    DomIsLower(g, a, p);
    forall q | IsPathTo(g, q, b) ensures a in q {
      PathPrefix(g, q, |q| - 1);
      assert Edge(g, q[|q| - 2], b);
      assert IsPathTo(g, q[..|q| - 1], p);
    }
  }

  lemma IdomAbovePred(g: Cfg, d: Idom, p: nat, b: nat)
    requires RpoNumbered(g) && |d| == |g.s1| && Complete(d)
    requires forall a: nat, b: nat :: b < |d| ==> (OnChain(d, a, b) <==> Dom(g, a, b))
    requires b < |d| && Edge(g, p, b)
    ensures if b == 0 then OnChain(d, 0, p) else d[b].Some? && OnChain(d, d[b].value, p)
  {
    assert Placed(d, b);
    if b == 0 {
      RootOnChain(d, p);
    } else {
      assert OnChain(d, d[b].value, b);
      SDomPred(g, d[b].value, p, b);
    }
  }

  // ---- facts that unfold at once ----------------------------------------------------------

  lemma LeftIn(g: Cfg, a: nat, s: nat)
    requires |g.s1| == |g.s2|
    ensures WalkLeaves(g, a, s) ==> s < |g.s1|
  {
  }

  lemma AllLeft(g: Cfg, f: seq<seq<nat>>)
    requires |f| == |g.s1| == |g.s2| && forall a: nat, s: nat :: a < |f| ==> (s in f[a] <==> WalkLeaves(g, a, s))
    ensures AllWalkLeaves(g) <==> forall a: nat, s: nat :: a < |f| ==> (s in f[a] <==> CfgPass.InFrontier(g, a, s))
  {
  }

  lemma CrossedAll(g: Cfg, ps: seq<nat>, b: nat)
    requires RpoNumbered(g) && b < |g.s1| && |ps| == Entries(g, b, |g.s1|) >= 2
    requires forall p: nat :: p in ps <==> Edge(g, p, b)
    ensures forall a: nat :: Crossed(g, ps, a, b) <==> WalkLeaves(g, a, b)
  {
    forall a: nat ensures Crossed(g, ps, a, b) <==> WalkLeaves(g, a, b) {
      NotSDomEntry(g, a);
    }
  }
}
