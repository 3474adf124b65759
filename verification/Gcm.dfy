// opt/gcm.c with the dominator-tree walks of opt/cfg.c it needs: the earliest
// block an instruction can move to, the latest, and the block chosen in between.
//
// A tree is the one filldom leaves: chains are dominance (Cfg.dfy).
module Gcm {
  import opened Graph
  import opened DomTree

  // ---- depth and lca -------------------------------------------------------------------

  function Len(d: Idom, b: nat): nat
    requires IsTree(d) && b < |d|
    decreases b
  {
    if d[b].None? then 0 else Len(d, d[b].value) + 1
  }

  ghost predicate HasDepth(d: Idom, depth: seq<int>)
    requires IsTree(d)
  {
    |depth| == |d| && forall b: nat :: b < |d| ==> depth[b] == Len(d, b)
  }

  // One link up the tree.
  lemma Climb(d: Idom, c: nat)
    requires Complete(d) && 0 < c < |d|
    ensures IsTree(d) && d[c].Some? && d[c].value < c && Len(d, c) == Len(d, d[c].value) + 1
  {
    assert Placed(d, c);
  }

  // Depths found so far, the start's among them.
  ghost predicate DepthsOk(d: Idom, depth: seq<int>)
    requires IsTree(d)
  {
    && |depth| == |d| && depth[0] == 0
    && forall x: nat :: x < |d| ==> depth[x] == -1 || depth[x] == Len(d, x)
  }

  ghost predicate DepthKnown(link: seq<nat>, k: nat, depth: seq<int>) {
    k <= |link| && forall j: nat :: j < k ==> link[j] < |depth| && depth[link[j]] != -1
  }

  lemma DepthDone(d: Idom, link: seq<nat>, depth: seq<int>)
    requires IsTree(d) && DepthsOk(d, depth) && DepthKnown(link, |link|, depth)
    requires forall b: nat :: b in link <==> b < |d|
    ensures HasDepth(d, depth)
  {
    forall b: nat | b < |d| ensures depth[b] == Len(d, b) {
      assert b in link;
      var j: nat :| j < |link| && link[j] == b;
    }
  }

  // filldepth: -1 marks a block not reached yet; a climb stops at the first known
  // depth.  link is the block list, in whatever order it is.
  method FillDepth(d: Idom, link: seq<nat>) returns (depth: seq<int>)
    requires Complete(d) && forall b: nat :: b in link <==> b < |d|
    ensures HasDepth(d, depth)
  {
    hide *;
    DepthStart(d, link);
    depth := seq(|d|, _ => -1);
    depth := depth[0 := 0];
    var k: nat := 0;
    while k < |link|
      invariant k <= |link| && DepthsOk(d, depth) && DepthKnown(link, k, depth) && |depth| == |d| && depth[0] == 0
    {
      var b: nat := link[k];
      assert b in link;
      if depth[b] == -1 {
        Climb(d, b);
        var n := 1;
        var c: nat := d[b].value;
        while depth[c] == -1
          invariant c < |d| && n + Len(d, c) == Len(d, b)
          decreases c
        {
          Climb(d, c);
          n := n + 1;
          c := d[c].value;
        }
        DepthRead(d, depth, c);
        n := n + depth[c];
        DepthSet(d, link, k, depth, b, n);
        depth := depth[b := n];
        c := d[b].value;
        while depth[c] == -1
          invariant c < |d| == |depth| && depth[0] == 0 && n == Len(d, c) + 1
          invariant DepthsOk(d, depth) && DepthKnown(link, k, depth) && depth[b] != -1
          decreases c
        {
          Climb(d, c);
          n := n - 1;
          DepthSet(d, link, k, depth, c, n);
          depth := depth[c := n];
          c := d[c].value;
        }
      }
      DepthNow(d, link, k, depth);
      k := k + 1;
    }
    DepthDone(d, link, depth);
  }

  lemma {:induction false} ChainLen(d: Idom, a: nat, b: nat)
    requires Complete(d) && b < |d| && OnChain(d, a, b)
    ensures a < |d| && Len(d, a) <= Len(d, b)
    ensures a != b ==> Len(d, a) < Len(d, b)
    decreases b
  {
    ChainLow(d, a, b);
    if a != b {
      ChainLen(d, a, d[b].value);
    }
  }

  // Of two ancestors of a block the shallower is an ancestor of the deeper.
  lemma ChainByDepth(d: Idom, a: nat, b: nat, c: nat)
    requires Complete(d) && c < |d| && OnChain(d, a, c) && OnChain(d, b, c)
    ensures a < |d| && b < |d|
    ensures Len(d, a) <= Len(d, b) ==> OnChain(d, a, b)
  {
    ChainLow(d, a, c);
    ChainLow(d, b, c);
    if a <= b {
      ChainTotal(d, a, b, c);
    } else {
      ChainTotal(d, b, a, c);
      ChainLen(d, b, a);
    }
  }

  // r is the deepest common ancestor of x and y.
  ghost predicate IsLca(d: Idom, x: nat, y: nat, r: nat)
    requires IsTree(d) && x < |d| && y < |d|
  {
    && r < |d| && OnChain(d, r, x) && OnChain(d, r, y)
    && (forall z: nat :: OnChain(d, z, x) && OnChain(d, z, y) ==> OnChain(d, z, r))
  }

  method Lca(d: Idom, depth: seq<int>, x: nat, y: nat) returns (r: nat)
    requires Complete(d) && HasDepth(d, depth) && x < |d| && y < |d|
    ensures IsLca(d, x, y, r)
  {
    var a: nat, b: nat := x, y;
    LcaStart(d, x, y);
    while depth[a] > depth[b]
      invariant a < |d| && b < |d| && Climbing(d, x, y, a, b)
      decreases a
    {
      LcaUp(d, x, y, a, b);
      a := d[a].value;
    }
    while depth[b] > depth[a]
      invariant a < |d| && b < |d| && Climbing(d, x, y, a, b) && depth[a] <= depth[b]
      decreases b
    {
      LcaUp(d, y, x, b, a);
      b := d[b].value;
    }
    while a != b
      invariant a < |d| && b < |d| && Climbing(d, x, y, a, b) && depth[a] == depth[b]
      decreases a
    {
      LcaBoth(d, x, y, a, b);
      a, b := d[a].value, d[b].value;
    }
    r := a;
  }

  // The common ancestors of x and y are those of a and b, found above them.
  ghost predicate Climbing(d: Idom, x: nat, y: nat, a: nat, b: nat)
    requires IsTree(d) && x < |d| && y < |d| && a < |d| && b < |d|
  {
    && OnChain(d, a, x) && OnChain(d, b, y)
    && (forall z: nat :: OnChain(d, z, x) && OnChain(d, z, y) ==> OnChain(d, z, a) && OnChain(d, z, b))
  }

  lemma LcaUp(d: Idom, x: nat, y: nat, a: nat, b: nat)
    requires Complete(d) && x < |d| && y < |d| && a < |d| && b < |d| && Climbing(d, x, y, a, b) && Len(d, a) > Len(d, b)
    ensures d[a].Some? && d[a].value < a && Climbing(d, x, y, d[a].value, b) && Climbing(d, y, x, b, d[a].value)
    ensures Len(d, d[a].value) == Len(d, a) - 1
  {
    assert Placed(d, a);
    var u := d[a].value;
    ChainTrans(d, u, a, x);
    forall z: nat | OnChain(d, z, x) && OnChain(d, z, y) ensures OnChain(d, z, u) {
      ChainLen(d, z, b);
    }
  }

  lemma LcaBoth(d: Idom, x: nat, y: nat, a: nat, b: nat)
    requires Complete(d) && x < |d| && y < |d| && a < |d| && b < |d| && Climbing(d, x, y, a, b) && a != b && Len(d, a) == Len(d, b)
    ensures d[a].Some? && d[b].Some? && d[a].value < a && d[b].value < b && Climbing(d, x, y, d[a].value, d[b].value)
    ensures Len(d, d[a].value) == Len(d, a) - 1 && Len(d, d[b].value) == Len(d, b) - 1
  {
    RootOnly(d, a, b);
    assert Placed(d, a) && Placed(d, b);
    ChainTrans(d, d[a].value, a, x);
    ChainTrans(d, d[b].value, b, y);
    forall z: nat | OnChain(d, z, x) && OnChain(d, z, y) ensures OnChain(d, z, d[a].value) && OnChain(d, z, d[b].value) {
      if z == a {
        ChainLen(d, a, b);
      }
      if z == b {
        ChainLen(d, b, a);
      }
    }
  }

  lemma RootOnly(d: Idom, a: nat, b: nat)
    requires Complete(d) && a < |d| && b < |d| && a != b && Len(d, a) == Len(d, b)
    ensures a != 0 && b != 0
  {
    assert Placed(d, a) && Placed(d, b);
  }

  // ---- the block with the smallest loop weight ------------------------------------------------

  // r lies between early and late on the dominator chain, none there has a
  // smaller loop weight, and any as small is above r.
  ghost predicate IsBest(d: Idom, loop: seq<int>, early: nat, late: nat, r: nat)
    requires IsTree(d) && |loop| == |d| && late < |d|
  {
    && r < |d| && OnChain(d, early, r) && OnChain(d, r, late)
    && (forall x: nat :: x < |d| && OnChain(d, early, x) && OnChain(d, x, late) ==>
          loop[r] <= loop[x] && (OnChain(d, r, x) && x != r ==> loop[r] < loop[x]))
  }

  method BestBid(d: Idom, loop: seq<int>, early: nat, late: nat) returns (r: nat)
    requires Complete(d) && |loop| == |d| && late < |d| && OnChain(d, early, late)
    ensures IsBest(d, loop, early, late, r)
  {
    var cur: nat := late;
    r := late;
    forall x: nat | x < |d| && OnChain(d, late, x) && OnChain(d, x, late) ensures x == late {
      ChainLow(d, late, x);
      ChainLow(d, x, late);
    }
    while cur != early
      invariant cur < |d| && OnChain(d, early, cur) && OnChain(d, cur, late)
      invariant IsBest(d, loop, cur, late, r)
      decreases cur
    {
      assert Placed(d, cur);
      BestUp(d, loop, cur, late, r);
      var u := d[cur].value;
      ChainTrans(d, u, cur, late);
      if loop[u] < loop[r] {
        r := u;
      }
      cur := u;
    }
  }

  lemma BestUp(d: Idom, loop: seq<int>, cur: nat, late: nat, r: nat)
    requires Complete(d) && |loop| == |d| && late < |d| && cur < |d| && OnChain(d, cur, late) && d[cur].Some?
    requires IsBest(d, loop, cur, late, r)
    ensures d[cur].value < |d| && IsBest(d, loop, d[cur].value, late, if loop[d[cur].value] < loop[r] then d[cur].value else r)
  {
    var u := d[cur].value;
    assert OnChain(d, u, cur);
    ChainTrans(d, u, cur, r);
    ChainTrans(d, u, cur, late);
    forall x: nat | x < |d| && OnChain(d, u, x) && OnChain(d, x, late) && x != u ensures OnChain(d, cur, x) {
      ChainLow(d, u, x);
      if x < cur {
        ChainTotal(d, x, cur, late);
        ChainLow(d, x, u);
      } else {
        ChainTotal(d, cur, x, late);
      }
    }
    if OnChain(d, r, u) {
      ChainLow(d, r, u);
      ChainLow(d, cur, r);
    }
  }

  // ---- facts that unfold at once ----------------------------------------------------------

  lemma DepthSet(d: Idom, link: seq<nat>, k: nat, depth: seq<int>, b: nat, n: int)
    requires IsTree(d) && DepthsOk(d, depth) && DepthKnown(link, k, depth) && 0 < b < |d| && n == Len(d, b)
    ensures DepthsOk(d, depth[b := n]) && DepthKnown(link, k, depth[b := n])
  {
  }

  lemma DepthNow(d: Idom, link: seq<nat>, k: nat, depth: seq<int>)
    requires IsTree(d) && DepthsOk(d, depth) && DepthKnown(link, k, depth) && k < |link|
    requires link[k] < |d| && depth[link[k]] != -1
    ensures DepthKnown(link, k + 1, depth)
  {
  }

  lemma DepthStart(d: Idom, link: seq<nat>)
    requires Complete(d)
    ensures IsTree(d) && |d| > 0
    ensures DepthsOk(d, seq(|d|, _ => -1)[0 := 0]) && DepthKnown(link, 0, seq(|d|, _ => -1)[0 := 0])
  {
  }

  lemma DepthRead(d: Idom, depth: seq<int>, c: nat)
    requires IsTree(d) && DepthsOk(d, depth) && c < |d| && depth[c] != -1
    ensures depth[c] == Len(d, c) >= 0
  {
  }

  lemma LcaStart(d: Idom, x: nat, y: nat)
    requires IsTree(d) && x < |d| && y < |d|
    ensures Climbing(d, x, y, x, y)
  {
  }
}
