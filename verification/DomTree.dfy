// The theory behind filldom (opt/cfg.c): partial immediate-dominator trees,
// their meets, and why the iteration converges to exact dominance.
//
// Blocks are named by their reverse-postorder id.  A tree is a sequence of
// parent links, None for the start and for blocks not reached yet.
module DomTree {
  import opened Graph

  type Idom = seq<Option<nat>>

  predicate Placed(d: Idom, b: nat)
    requires b < |d|
  {
    b == 0 || d[b].Some?
  }

  // Links go to smaller ids and never to a block that has no place yet.
  ghost predicate IsTree(d: Idom) {
    && |d| > 0
    && d[0] == None
    && (forall b: nat :: b < |d| && d[b].Some? ==> d[b].value < b && Placed(d, d[b].value))
  }

  ghost predicate Complete(d: Idom) {
    IsTree(d) && (forall b: nat :: b < |d| ==> Placed(d, b))
  }

  // a is b or one of its ancestors.
  predicate OnChain(d: Idom, a: nat, b: nat)
    requires IsTree(d) && b < |d|
    decreases b
  {
    a == b || (d[b].Some? && OnChain(d, a, d[b].value))
  }

  lemma {:induction false} ChainLow(d: Idom, a: nat, b: nat)
    requires IsTree(d) && b < |d| && OnChain(d, a, b)
    ensures a <= b
    ensures Placed(d, b) ==> Placed(d, a)
    decreases b
  {
    if a != b {
      ChainLow(d, a, d[b].value);
    }
  }

  lemma {:induction false} ChainTrans(d: Idom, a: nat, b: nat, c: nat)
    requires IsTree(d) && c < |d| && b < |d| && OnChain(d, b, c) && OnChain(d, a, b)
    ensures OnChain(d, a, c)
    decreases c
  {
    if b != c {
      ChainTrans(d, a, b, d[c].value);
    }
  }

  // Of two ancestors of the same block the lower-numbered is an ancestor of the other.
  lemma {:induction false} ChainTotal(d: Idom, a: nat, b: nat, c: nat)
    requires IsTree(d) && c < |d| && b < |d| && OnChain(d, a, c) && OnChain(d, b, c) && a <= b
    ensures OnChain(d, a, b)
    decreases c
  {
    if b != c {
      if a == c {
        ChainLow(d, b, c);
      } else {
        ChainTotal(d, a, b, d[c].value);
      }
    }
  }

  lemma {:induction false} RootOnChain(d: Idom, b: nat)
    requires IsTree(d) && b < |d| && Placed(d, b)
    ensures OnChain(d, 0, b)
    decreases b
  {
    if b != 0 {
      RootOnChain(d, d[b].value);
    }
  }

  // What inter computes: the deepest common ancestor, found by moving the
  // higher-numbered block up.
  function Meet(d: Idom, x: nat, y: nat): (m: nat)
    requires IsTree(d) && x < |d| && y < |d| && Placed(d, x) && Placed(d, y)
    ensures m < |d| && Placed(d, m)
    decreases x + y
  {
    if x == y then x
    else if x > y then Meet(d, d[x].value, y)
    else Meet(d, x, d[y].value)
  }

  lemma {:induction false} MeetIsGreatestCommon(d: Idom, x: nat, y: nat)
    requires IsTree(d) && x < |d| && y < |d| && Placed(d, x) && Placed(d, y)
    ensures OnChain(d, Meet(d, x, y), x) && OnChain(d, Meet(d, x, y), y)
    ensures forall z: nat :: OnChain(d, z, x) && OnChain(d, z, y) ==> OnChain(d, z, Meet(d, x, y))
    decreases x + y
  {
    if x > y {
      MeetIsGreatestCommon(d, d[x].value, y);
      forall z: nat | OnChain(d, z, x) && OnChain(d, z, y)
        ensures OnChain(d, z, Meet(d, x, y))
      {
        ChainLow(d, z, y);
      }
    } else if x < y {
      MeetIsGreatestCommon(d, x, d[y].value);
      forall z: nat | OnChain(d, z, x) && OnChain(d, z, y)
        ensures OnChain(d, z, Meet(d, x, y))
      {
        ChainLow(d, z, x);
      }
    }
  }

  lemma {:induction false} MeetCommutes(d: Idom, x: nat, y: nat)
    requires IsTree(d) && x < |d| && y < |d| && Placed(d, x) && Placed(d, y)
    ensures Meet(d, x, y) == Meet(d, y, x)
    decreases x + y
  {
    if x > y {
      MeetCommutes(d, d[x].value, y);
    } else if x < y {
      MeetCommutes(d, x, d[y].value);
    }
  }

  // The value the loop over the predecessors leaves: the meet of those placed.
  function MeetAll(d: Idom, ps: seq<nat>): (m: Option<nat>)
    requires IsTree(d) && forall i :: 0 <= i < |ps| ==> ps[i] < |d|
    ensures m.Some? ==> m.value < |d| && Placed(d, m.value)
  {
    if |ps| == 0 then None
    else
      var rest := MeetAll(d, ps[..|ps| - 1]);
      var p := ps[|ps| - 1];
      if !Placed(d, p) then rest
      else if rest == None then Some(p)
      else Some(Meet(d, rest.value, p))
  }

  lemma {:induction false} MeetAllIsGreatestCommon(d: Idom, ps: seq<nat>)
    requires IsTree(d) && forall i :: 0 <= i < |ps| ==> ps[i] < |d|
    ensures MeetAll(d, ps).Some? <==> exists p: nat :: p in ps && Placed(d, p)
    ensures MeetAll(d, ps).Some? ==> forall p: nat :: p in ps && Placed(d, p) ==> OnChain(d, MeetAll(d, ps).value, p)
    ensures MeetAll(d, ps).Some? ==>
              forall z: nat :: (forall p: nat :: p in ps && Placed(d, p) ==> OnChain(d, z, p))
                               ==> OnChain(d, z, MeetAll(d, ps).value)
  {
    if |ps| > 0 {
      var rest := ps[..|ps| - 1];
      var p := ps[|ps| - 1];
      assert ps == rest + [p];
      MeetAllIsGreatestCommon(d, rest);
      if Placed(d, p) && MeetAll(d, rest).Some? {
        var m := MeetAll(d, rest).value;
        MeetIsGreatestCommon(d, m, p);
        forall q: nat | q in ps && Placed(d, q)
          ensures OnChain(d, Meet(d, m, p), q)
        {
          if q in rest {
            ChainTrans(d, Meet(d, m, p), m, q);
          }
        }
        forall z: nat | forall q: nat :: q in ps && Placed(d, q) ==> OnChain(d, z, q)
          ensures OnChain(d, z, MeetAll(d, ps).value)
        {
          assert OnChain(d, z, p);
          forall q: nat | q in rest && Placed(d, q) ensures OnChain(d, z, q) {
          }
        }
      }
    }
  }

  // ---- soundness: what dominates a block dominates its parent ----------

  ghost predicate Sound(g: Cfg, d: Idom)
    requires |d| == |g.s1|
  {
    forall a: nat, b: nat :: 0 < b < |d| && d[b].Some? && SDom(g, a, b) ==> Dom(g, a, d[b].value)
  }

  lemma {:induction false} MeetKeepsDominators(g: Cfg, d: Idom, a: nat, x: nat, y: nat)
    requires RpoNumbered(g) && IsTree(d) && |d| == |g.s1| && Sound(g, d)
    requires x < |d| && y < |d| && Placed(d, x) && Placed(d, y)
    requires Dom(g, a, x) && Dom(g, a, y)
    ensures Dom(g, a, Meet(d, x, y))
    decreases x + y
  {
    DomIsLower(g, a, x);
    DomIsLower(g, a, y);
    if x > y {
      MeetKeepsDominators(g, d, a, d[x].value, y);
    } else if x < y {
      MeetKeepsDominators(g, d, a, x, d[y].value);
    }
  }

  lemma {:induction false} MeetAllKeepsDominators(g: Cfg, d: Idom, a: nat, ps: seq<nat>)
    requires RpoNumbered(g) && IsTree(d) && |d| == |g.s1| && Sound(g, d)
    requires forall i :: 0 <= i < |ps| ==> ps[i] < |d|
    requires forall p: nat :: p in ps ==> Dom(g, a, p)
    requires MeetAll(d, ps).Some?
    ensures Dom(g, a, MeetAll(d, ps).value)
  {
    var rest := ps[..|ps| - 1];
    var p := ps[|ps| - 1];
    assert ps == rest + [p];
    if MeetAll(d, rest).Some? {
      MeetAllKeepsDominators(g, d, a, rest);
      if Placed(d, p) {
        MeetKeepsDominators(g, d, a, MeetAll(d, rest).value, p);
      }
    }
  }

  lemma {:induction false} DominatorsAreOnChain(g: Cfg, d: Idom, a: nat, b: nat)
    requires RpoNumbered(g) && |d| == |g.s1| && Complete(d) && Sound(g, d)
    requires b < |d| && Dom(g, a, b)
    ensures OnChain(d, a, b)
    decreases b
  {
    DomIsLower(g, a, b);
    assert Placed(d, b);
    if a != b {
      DominatorsAreOnChain(g, d, a, d[b].value);
    }
  }

  // ---- exactness: at a fixpoint ancestors dominate ----------------------

  ghost predicate Stable(g: Cfg, d: Idom)
    requires |d| == |g.s1| && IsTree(d)
  {
    forall p: nat, b: nat :: 0 < b < |d| && Edge(g, p, b) ==> d[b].Some? && OnChain(d, d[b].value, p)
  }

  lemma {:induction false} AncestorOnPath(g: Cfg, d: Idom, a: nat, b: nat, p: seq<nat>)
    requires RpoNumbered(g) && |d| == |g.s1| && Complete(d) && Stable(g, d)
    requires b < |d| && OnChain(d, a, b) && IsPathTo(g, p, b)
    ensures a in p
    decreases |p|
  {
    if a == b {
      assert p[|p| - 1] == a;
    } else if |p| > 1 {
      var q := p[..|p| - 1];
      PathPrefix(g, p, |p| - 1);
      var u := p[|p| - 2];
      assert Edge(g, u, b);
      ChainTrans(d, a, d[b].value, u);
      AncestorOnPath(g, d, a, u, q);
      assert p == q + [b];
    }
  }

  // The theorem: the idom chain is exactly the set of dominators.
  lemma ChainIsDominance(g: Cfg, d: Idom, a: nat, b: nat)
    requires RpoNumbered(g) && |d| == |g.s1| && Complete(d) && Sound(g, d) && Stable(g, d)
    requires b < |d|
    ensures OnChain(d, a, b) <==> Dom(g, a, b)
  {
    if OnChain(d, a, b) {
      forall p | IsPathTo(g, p, b) ensures a in p {
        AncestorOnPath(g, d, a, b, p);
      }
    }
    if Dom(g, a, b) {
      DominatorsAreOnChain(g, d, a, b);
    }
  }

  // ---- convergence -------------------------------------------------------

  // t[b] is a predecessor of b numbered below b.
  ghost predicate IsSpan(g: Cfg, t: seq<nat>) {
    |t| == |g.s1| && forall b: nat :: 0 < b < |t| ==> t[b] < b && Edge(g, t[b], b)
  }

  predicate Above(t: seq<nat>, c: nat, b: nat)
    requires b < |t| && forall i :: 0 < i < |t| ==> t[i] < i
    decreases b
  {
    c == b || (b > 0 && Above(t, c, t[b]))
  }

  // z is an ancestor of every placed predecessor of b.
  ghost predicate Common(g: Cfg, d: Idom, b: nat, z: nat)
    requires |d| == |g.s1| && IsTree(d)
  {
    forall p: nat :: Edge(g, p, b) && Placed(d, p) ==> OnChain(d, z, p)
  }

  // What the loop keeps when blocks below n have been done in this pass.
  ghost predicate Progress(g: Cfg, t: seq<nat>, d: Idom, n: nat) {
    && RpoNumbered(g) && IsSpan(g, t) && |d| == |g.s1| && IsTree(d) && n <= |d|
    && Sound(g, d)
    && (forall b: nat :: 0 < b < |d| && d[b].Some? ==> Above(t, d[b].value, b))
    && (forall b: nat, z: nat :: 0 < b < |d| && d[b].Some? && Common(g, d, b, z) ==> z <= d[b].value)
    && (forall b: nat :: 0 < b < n ==> d[b].Some? && OnChain(d, d[b].value, t[b]))
  }

  // Among blocks done in this pass, moving down the spanning tree only adds
  // ancestors numbered above the block one comes from.
  lemma {:induction false} DoneChains(g: Cfg, t: seq<nat>, d: Idom, n: nat, c: nat, p: nat, z: nat)
    requires Progress(g, t, d, n)
    requires p < n && c <= p && Above(t, c, p) && OnChain(d, z, p) && z <= c
    ensures OnChain(d, z, c)
    decreases p
  {
    if c != p {
      assert OnChain(d, z, d[p].value);
      ChainTrans(d, z, d[p].value, t[p]);
      AboveLow(t, c, t[p]);
      DoneChains(g, t, d, n, c, t[p], z);
    }
  }

  lemma {:induction false} AboveLow(t: seq<nat>, c: nat, b: nat)
    requires b < |t| && forall i :: 0 < i < |t| ==> t[i] < i
    requires Above(t, c, b)
    ensures c <= b
    decreases b
  {
    if c != b {
      AboveLow(t, c, t[b]);
    }
  }

  lemma {:induction false} ChainIsAbove(g: Cfg, t: seq<nat>, d: Idom, z: nat, b: nat)
    requires IsSpan(g, t) && |d| == |t| && IsTree(d) && b < |d|
    requires forall b: nat :: 0 < b < |d| && d[b].Some? ==> Above(t, d[b].value, b)
    requires OnChain(d, z, b)
    ensures Above(t, z, b)
    decreases b
  {
    if z != b {
      ChainIsAbove(g, t, d, z, d[b].value);
      AboveTrans(t, z, d[b].value, b);
    }
  }

  lemma {:induction false} AboveTrans(t: seq<nat>, a: nat, b: nat, c: nat)
    requires c < |t| && b < |t| && forall i :: 0 < i < |t| ==> t[i] < i
    requires Above(t, b, c) && Above(t, a, b)
    ensures Above(t, a, c)
    decreases c
  {
    if b != c {
      AboveTrans(t, a, b, t[c]);
    }
  }

  // Moving b's link up its own chain, or giving b a first link, never adds an
  // ancestor to a block already placed.
  lemma {:induction false} Shrinks(d: Idom, b: nat, m: nat, z: nat, x: nat)
    requires IsTree(d) && 0 < b < |d| && m < b && Placed(d, m)
    requires d[b].Some? ==> OnChain(d, m, d[b].value)
    requires IsTree(d[b := Some(m)])
    requires x < |d| && Placed(d, x)
    requires OnChain(d[b := Some(m)], z, x)
    ensures OnChain(d, z, x)
    decreases x
  {
    var d' := d[b := Some(m)];
    if z != x {
      if x == b {
        Shrinks(d, b, m, z, m);
        ChainTrans(d, z, m, d[b].value);
      } else {
        Shrinks(d, b, m, z, d[x].value);
      }
    }
  }

  lemma {:induction false} LowChainsKept(d: Idom, b: nat, m: nat, z: nat, x: nat)
    requires IsTree(d) && 0 < b < |d| && m < b && Placed(d, m)
    requires IsTree(d[b := Some(m)])
    requires x < b
    ensures OnChain(d[b := Some(m)], z, x) <==> OnChain(d, z, x)
    decreases x
  {
    if z != x && d[x].Some? {
      LowChainsKept(d, b, m, z, d[x].value);
    }
  }

  // The meet of b's placed predecessors, against b's present link.
  lemma MeetMovesUp(g: Cfg, t: seq<nat>, d: Idom, b: nat, ps: seq<nat>)
    requires Progress(g, t, d, b) && 0 < b < |d|
    requires forall p: nat :: p in ps <==> Edge(g, p, b)
    ensures forall i :: 0 <= i < |ps| ==> ps[i] < |d|
    ensures MeetAll(d, ps).Some?
    ensures var m := MeetAll(d, ps).value;
            && m < b
            && OnChain(d, m, t[b])
            && Above(t, m, b)
            && (d[b].Some? ==> m <= d[b].value && OnChain(d, m, d[b].value))
            && (forall p: nat :: Edge(g, p, b) && Placed(d, p) ==> OnChain(d, m, p))
            && (forall z: nat :: Common(g, d, b, z) ==> OnChain(d, z, m))
  {
    forall i | 0 <= i < |ps| ensures ps[i] < |d| {
      assert ps[i] in ps;
    }
    MeetAllIsGreatestCommon(d, ps);
    assert Edge(g, t[b], b) && Placed(d, t[b]) && t[b] in ps;
    var m := MeetAll(d, ps).value;
    assert OnChain(d, m, t[b]);
    ChainLow(d, m, t[b]);
    ChainIsAbove(g, t, d, m, t[b]);
    assert Above(t, m, b);
    if d[b].Some? {
      assert Common(g, d, b, m);
      var c := d[b].value;
      assert Above(t, c, t[b]);
      AboveLow(t, c, t[b]);
      DoneChains(g, t, d, b, c, t[b], m);
    }
    forall z: nat | Common(g, d, b, z) ensures OnChain(d, z, m) {
      forall p: nat | p in ps && Placed(d, p) ensures OnChain(d, z, p) {
        assert Edge(g, p, b);
      }
    }
  }

  lemma SoundAfter(g: Cfg, d: Idom, b: nat, ps: seq<nat>)
    requires RpoNumbered(g) && IsTree(d) && |d| == |g.s1| && Sound(g, d) && 0 < b < |d|
    requires forall p: nat :: p in ps <==> Edge(g, p, b)
    requires forall i :: 0 <= i < |ps| ==> ps[i] < |d|
    requires MeetAll(d, ps).Some?
    ensures Sound(g, d[b := MeetAll(d, ps)])
  {
    var d' := d[b := MeetAll(d, ps)];
    forall a: nat, x: nat | 0 < x < |d'| && d'[x].Some? && SDom(g, a, x)
      ensures Dom(g, a, d'[x].value)
    {
      if x == b {
        forall p: nat | p in ps ensures Dom(g, a, p) {
          SDomPred(g, a, p, b);
        }
        MeetAllKeepsDominators(g, d, a, ps);
      }
    }
  }

  // One step of the pass: b's link becomes the meet of its placed predecessors.
  lemma StepKeepsProgress(g: Cfg, t: seq<nat>, d: Idom, b: nat, ps: seq<nat>)
    requires Progress(g, t, d, b) && 0 < b < |d|
    requires forall p: nat :: p in ps <==> Edge(g, p, b)
    ensures forall i :: 0 <= i < |ps| ==> ps[i] < |d|
    ensures MeetAll(d, ps).Some?
    ensures Progress(g, t, d[b := MeetAll(d, ps)], b + 1)
  {
    MeetMovesUp(g, t, d, b, ps);
    var m := MeetAll(d, ps).value;
    TreeAfter(d, b, m);
    var d' := d[b := Some(m)];
    SoundAfter(g, d, b, ps);
    forall x: nat, z: nat | 0 < x < |d'| && d'[x].Some? && Common(g, d', x, z)
      ensures z <= d'[x].value
    {
      forall p: nat | Edge(g, p, x) && Placed(d, p) ensures OnChain(d, z, p) {
        assert Placed(d', p);
        Shrinks(d, b, m, z, p);
      }
      assert Common(g, d, x, z);
      if x == b {
        assert OnChain(d, z, m);
        ChainLow(d, z, m);
      }
    }
    forall x: nat | 0 < x < b + 1
      ensures d'[x].Some? && OnChain(d', d'[x].value, t[x])
    {
      LowChainsKept(d, b, m, d'[x].value, t[x]);
    }
  }

  // The measure: unplaced blocks weigh most, and links only move up.
  function Weight(d: Idom): nat {
    if |d| == 0 then 0
    else (var l := d[|d| - 1]; if l.None? then |d| else l.value) + Weight(d[..|d| - 1])
  }

  lemma {:induction false} WeightDrops(d: Idom, b: nat, m: nat)
    requires b < |d| && m < (if d[b].None? then b + 1 else d[b].value)
    ensures Weight(d[b := Some(m)]) < Weight(d)
    decreases |d|
  {
    var d' := d[b := Some(m)];
    if b == |d| - 1 {
      assert d'[..|d| - 1] == d[..|d| - 1];
    } else {
      WeightDrops(d[..|d| - 1], b, m);
      assert d'[..|d| - 1] == d[..|d| - 1][b := Some(m)];
    }
  }

  // A pass that changes nothing has reached the fixpoint.
  lemma PassWithoutChange(g: Cfg, t: seq<nat>, d: Idom, pred: seq<seq<nat>>)
    requires Progress(g, t, d, |d|) && |pred| == |d|
    requires forall b: nat, p: nat :: b < |d| ==> (p in pred[b] <==> Edge(g, p, b))
    requires forall b: nat :: 0 < b < |d| ==>
               (forall i :: 0 <= i < |pred[b]| ==> pred[b][i] < |d|) && d[b] == MeetAll(d, pred[b])
    ensures Complete(d) && Stable(g, d)
  {
    forall p: nat, b: nat | 0 < b < |d| && Edge(g, p, b)
      ensures d[b].Some? && OnChain(d, d[b].value, p)
    {
      assert Placed(d, p);
      assert p in pred[b];
      MeetAllIsGreatestCommon(d, pred[b]);
    }
  }

  // Block b already has the link a step would give it.
  ghost predicate Unchanging(d: Idom, pred: seq<seq<nat>>, b: nat)
    requires IsTree(d) && b < |d| && b < |pred|
  {
    (forall k :: 0 <= k < |pred[b]| ==> pred[b][k] < |d|) && d[b] == MeetAll(d, pred[b])
  }

  ghost predicate UnchangingBelow(d: Idom, pred: seq<seq<nat>>, n: nat)
    requires IsTree(d) && n <= |d| && n <= |pred|
    decreases n
  {
    n <= 1 || (UnchangingBelow(d, pred, n - 1) && Unchanging(d, pred, n - 1))
  }

  // One block of a pass that began with tree d0 and weight w: the pass goes on, and
  // either the tree has got lighter or it is still d0, unchanging so far.
  lemma TreeStep(g: Cfg, t: seq<nat>, d: Idom, pred: seq<seq<nat>>, i: nat, ch: bool, d0: Idom, w: nat)
    requires Progress(g, t, d, i) && 0 < i < |d| && |pred| == |d|
    requires forall p: nat :: p in pred[i] <==> Edge(g, p, i)
    requires ch ==> Weight(d) < w
    requires !ch ==> d == d0 && w == Weight(d0) && UnchangingBelow(d0, pred, i)
    ensures IsTree(d) && |d| == |g.s1| && (forall k :: 0 <= k < |pred[i]| ==> pred[i][k] < |d|)
    ensures MeetAll(d, pred[i]).Some?
    ensures var m := MeetAll(d, pred[i]);
            && IsTree(d[i := m]) && Progress(g, t, d[i := m], i + 1)
            && (ch || m != d[i] ==> Weight(d[i := m]) < w)
            && (!ch && m == d[i] ==> d[i := m] == d0 && UnchangingBelow(d0, pred, i + 1))
  {
    hide Sound;
    hide Common;
    hide Above;
    StepKeepsProgress(g, t, d, i, pred[i]);
    MeetMovesUp(g, t, d, i, pred[i]);
    var m := MeetAll(d, pred[i]);
    if m != d[i] {
      WeightDrops(d, i, m.value);
    } else {
      assert d[i := m] == d;
    }
  }

  lemma {:induction false} UnchangingAt(d: Idom, pred: seq<seq<nat>>, n: nat, b: nat)
    requires IsTree(d) && n <= |d| && n <= |pred| && UnchangingBelow(d, pred, n) && 0 < b < n
    ensures Unchanging(d, pred, b)
    decreases n
  {
    if b < n - 1 {
      UnchangingAt(d, pred, n - 1, b);
    }
  }

  lemma NothingChanged(g: Cfg, t: seq<nat>, d: Idom, pred: seq<seq<nat>>)
    requires Progress(g, t, d, |d|) && |pred| == |d|
    requires forall b: nat, p: nat :: b < |d| ==> (p in pred[b] <==> Edge(g, p, b))
    requires UnchangingBelow(d, pred, |d|)
    ensures Complete(d) && Stable(g, d)
  {
    forall b: nat | 0 < b < |d|
      ensures forall i :: 0 <= i < |pred[b]| ==> pred[b][i] < |d|
      ensures d[b] == MeetAll(d, pred[b])
    {
      UnchangingAt(d, pred, |d|, b);
    }
    PassWithoutChange(g, t, d, pred);
  }

  // ---- facts that unfold at once ----------------------------------------------------------

  lemma TreeAfter(d: Idom, b: nat, m: nat)
    requires IsTree(d) && 0 < b < |d| && m < b && Placed(d, m)
    ensures IsTree(d[b := Some(m)])
  {
  }

  lemma ProgressSize(g: Cfg, t: seq<nat>, d: Idom, n: nat)
    requires Progress(g, t, d, n)
    ensures |d| == |g.s1| && IsTree(d)
  {
  }

  lemma NothingBelow(d: Idom, pred: seq<seq<nat>>)
    requires IsTree(d) && |d| == |pred|
    ensures UnchangingBelow(d, pred, 1)
  {
  }
}
