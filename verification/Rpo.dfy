// opt/cfg.c, porec and fillrpo: reverse postorder by depth-first search.
module Rpo {
  import opened Graph

  // Every block in post carries its position as id; -1 is an unvisited block.
  ghost predicate Numbering(g: Cfg, id: seq<int>, post: seq<nat>) {
    && Wf(g) && |id| == |g.s1|
    && (forall b: nat :: b < |id| ==> id[b] >= -1)
    && (forall k: nat :: k < |post| ==> post[k] < |id| && id[post[k]] == k)
  }

  ghost function Whites(id: seq<int>): set<nat> {
    set b: nat | b < |id| && id[b] == -1
  }

  ghost predicate SuccsVisited(g: Cfg, id: seq<int>, b: nat) {
    forall c: nat :: Edge(g, b, c) && c < |id| ==> id[c] != -1
  }

  ghost predicate ParentAfter(g: Cfg, post: seq<nat>, k: nat)
    requires k < |post|
  {
    exists j: nat :: k < j < |post| && Edge(g, post[j], post[k])
  }

  // What a call to porec on r adds: numbers only for blocks that were not
  // visited, all of whose successors are now visited, and each of which but r
  // has a predecessor numbered after it.
  ghost predicate Grown(g: Cfg, id: seq<int>, post: seq<nat>, id': seq<int>, post': seq<nat>, r: Option<nat>) {
    && |id'| == |id| && post <= post'
    && (forall b: nat :: b < |id| && id[b] != -1 ==> id'[b] == id[b])
    && (forall b: nat :: b < |id| && id[b] == -1 && id'[b] != -1 ==> b in post')
    && (forall k: nat :: |post| <= k < |post'| ==>
          && post'[k] < |id| && id[post'[k]] == -1
          && SuccsVisited(g, id', post'[k])
          && (Some(post'[k]) == r || ParentAfter(g, post', k)))
  }

  // A call composes with later growth: what it numbered keeps its
  // guarantees, and its root r gets the block x numbered last as parent.
  lemma GrownExtends(g: Cfg, id: seq<int>, post: seq<nat>, id': seq<int>, post': seq<nat>, r: Option<nat>,
                     id2: seq<int>, post2: seq<nat>, x: nat, k: nat)
    requires Grown(g, id, post, id', post', r)
    requires |id2| == |id'| && post' <= post2
    requires forall b: nat :: b < |id'| && id'[b] != -1 ==> id2[b] != -1
    requires |post| <= k < |post'|
    requires |post2| > |post'| && post2[|post2| - 1] == x
    requires r.Some? ==> Edge(g, x, r.value)
    ensures SuccsVisited(g, id2, post2[k])
    ensures ParentAfter(g, post2, k)
  {
    assert post2[k] == post'[k];
    assert SuccsVisited(g, id', post'[k]);
    if r == Some(post'[k]) {
      assert Edge(g, post2[|post2| - 1], post2[k]);
    } else {
      var j: nat :| k < j < |post'| && Edge(g, post'[j], post'[k]);
      assert Edge(g, post2[j], post2[k]);
    }
  }

  ghost predicate TwoCalls(g: Cfg, x: nat, t1: Option<nat>, t2: Option<nat>,
                           id: seq<int>, idA: seq<int>, idB: seq<int>, post: seq<nat>, postA: seq<nat>, postB: seq<nat>)
  {
    && Numbering(g, id, post)
    && x < |id| && id[x] == -1
    && (forall c: nat :: Edge(g, x, c) <==> t1 == Some(c) || t2 == Some(c))
    && Grown(g, id[x := 0], post, idA, postA, t1) && Grown(g, idA, postA, idB, postB, t2)
    && (t1.Some? ==> t1.value < |id| && idA[t1.value] != -1)
    && (t2.Some? ==> t2.value < |id| && idB[t2.value] != -1)
  }

  lemma ComposeAt(g: Cfg, x: nat, t1: Option<nat>, t2: Option<nat>,
                  id: seq<int>, idA: seq<int>, idB: seq<int>, post: seq<nat>, postA: seq<nat>, postB: seq<nat>, k: nat)
    requires TwoCalls(g, x, t1, t2, id, idA, idB, post, postA, postB)
    requires |post| <= k < |postB|
    ensures postB[k] < |id| && id[postB[k]] == -1
    ensures SuccsVisited(g, idB[x := |postB|], postB[k])
    ensures ParentAfter(g, postB + [x], k)
  {
    hide SuccsVisited;
    hide ParentAfter;
    if k < |postA| {
      assert postA[k] == postB[k];
      GrownExtends(g, id[x := 0], post, idA, postA, t1, idB[x := |postB|], postB + [x], x, k);
    } else {
      GrownExtends(g, idA, postA, idB, postB, t2, idB[x := |postB|], postB + [x], x, k);
    }
  }

  // The two recursive calls and the final numbering of x make up one call on x.
  lemma GrownCompose(g: Cfg, x: nat, t1: Option<nat>, t2: Option<nat>,
                     id: seq<int>, idA: seq<int>, idB: seq<int>, post: seq<nat>, postA: seq<nat>, postB: seq<nat>)
    requires TwoCalls(g, x, t1, t2, id, idA, idB, post, postA, postB)
    requires Numbering(g, idB, postB)
    ensures x < |idB| && x !in postB
    ensures Grown(g, id, post, idB[x := |postB|], postB + [x], Some(x))
    ensures Numbering(g, idB[x := |postB|], postB + [x])
  {
    NotNumberedTwice(g, x, t1, id[x := 0], post, idA, postA);
    NotNumberedTwice(g, x, t2, idA, postA, idB, postB);
    forall k: nat | |post| <= k < |postB + [x]|
      ensures var c := (postB + [x])[k];
              && c < |id| && id[c] == -1 && SuccsVisited(g, idB[x := |postB|], c)
              && (c == x || ParentAfter(g, postB + [x], k))
    {
      if k < |postB| {
        ComposeAt(g, x, t1, t2, id, idA, idB, post, postA, postB, k);
      }
    }
  }

  // The search from the start, finished: post ends with the start, everything
  // visited is numbered, and numbered blocks have numbered successors.
  ghost predicate Searched(g: Cfg, id: seq<int>, post: seq<nat>) {
    && Numbering(g, id, post)
    && |post| > 0 && post[|post| - 1] == g.start
    && (forall b: nat :: b < |id| && id[b] != -1 ==> b in post)
    && (forall k: nat :: k < |post| ==> SuccsVisited(g, id, post[k]))
    && (forall k: nat :: k < |post| - 1 ==> ParentAfter(g, post, k))
  }

  lemma {:induction false} NumberedIsReachable(g: Cfg, id: seq<int>, post: seq<nat>, k: nat)
    requires Searched(g, id, post) && k < |post|
    ensures Reachable(g, post[k])
    decreases |post| - k
  {
    if k == |post| - 1 {
      assert IsPathTo(g, [g.start], g.start);
    } else {
      assert ParentAfter(g, post, k);
      var j: nat :| k < j < |post| && Edge(g, post[j], post[k]);
      NumberedIsReachable(g, id, post, j);
      var p :| IsPathTo(g, p, post[j]);
      PathExtend(g, p, g.start, post[j], post[k]);
      assert IsPathTo(g, p + [post[k]], post[k]);
    }
  }

  lemma {:induction false} PathIsVisited(g: Cfg, id: seq<int>, post: seq<nat>, p: seq<nat>, b: nat)
    requires Searched(g, id, post) && IsPathTo(g, p, b)
    ensures id[b] != -1
    decreases |p|
  {
    if |p| == 1 {
      assert id[post[|post| - 1]] == |post| - 1;
    } else {
      PathPrefix(g, p, |p| - 1);
      var u := p[|p| - 2];
      PathIsVisited(g, id, post, p[..|p| - 1], u);
      var k: nat :| k < |post| && post[k] == u;
      assert SuccsVisited(g, id, post[k]);
      assert Edge(g, u, p[|p| - 1]);
    }
  }

  lemma VisitedIsReachable(g: Cfg, id: seq<int>, post: seq<nat>)
    requires Searched(g, id, post)
    ensures forall b: nat :: b < |id| ==> (id[b] != -1 <==> Reachable(g, b))
  {
    forall b: nat | b < |id| ensures id[b] != -1 <==> Reachable(g, b) {
      if id[b] != -1 {
        var k: nat :| k < |post| && post[k] == b;
        NumberedIsReachable(g, id, post, k);
      }
      if Reachable(g, b) {
        var p :| IsPathTo(g, p, b);
        PathIsVisited(g, id, post, p, b);
      }
    }
  }

  lemma SearchDone(g: Cfg, id0: seq<int>, id: seq<int>, post: seq<nat>)
    requires Numbering(g, id, post) && |id0| == |g.s1| && forall b :: 0 <= b < |id0| ==> id0[b] == -1
    requires Grown(g, id0, [], id, post, Some(g.start))
    requires |post| > 0 && post[|post| - 1] == g.start
    ensures Searched(g, id, post) && |id| == |g.s1|
  {
    forall k: nat | k < |post| - 1 ensures ParentAfter(g, post, k) {
      assert id[post[k]] == k && id[post[|post| - 1]] == |post| - 1;
    }
  }

  // rpo lists exactly the reachable blocks, the start first, each other block
  // after some predecessor; id is its inverse, -1 on unreachable blocks.
  ghost predicate IsRpo(g: Cfg, id: seq<int>, rpo: seq<nat>) {
    && Wf(g) && |id| == |g.s1|
    && |rpo| > 0 && rpo[0] == g.start
    && (forall k: nat :: k < |rpo| ==> rpo[k] < |id| && id[rpo[k]] == k)
    && (forall b: nat :: b < |id| ==> (id[b] != -1 <==> Reachable(g, b)))
    && (forall b: nat :: b < |id| && id[b] != -1 ==> 0 <= id[b] < |rpo| && rpo[id[b]] == b)
    && (forall k: nat :: 0 < k < |rpo| ==> ParentBefore(g, rpo, k))
  }

  ghost predicate ParentBefore(g: Cfg, rpo: seq<nat>, k: nat)
    requires k < |rpo|
  {
    exists j: nat :: j < k && Edge(g, rpo[j], rpo[k])
  }

  lemma ReversedIsRpo(g: Cfg, id: seq<int>, post: seq<nat>, id': seq<int>, rpo: seq<nat>)
    requires Searched(g, id, post)
    requires |id'| == |id| && |rpo| == |post|
    requires forall b: nat :: b < |id| ==> id'[b] == if id[b] == -1 then -1 else |post| - 1 - id[b]
    requires forall k: nat :: k < |rpo| ==> rpo[k] == post[|post| - 1 - k]
    ensures IsRpo(g, id', rpo)
  {
    VisitedIsReachable(g, id, post);
    forall b: nat | b < |id'| && id'[b] != -1 ensures 0 <= id'[b] < |rpo| && rpo[id'[b]] == b {
      var k: nat :| k < |post| && post[k] == b;
      assert id[b] == k;
    }
    forall k: nat | 0 < k < |rpo| ensures ParentBefore(g, rpo, k) {
      var k': nat := |post| - 1 - k;
      assert ParentAfter(g, post, k');
      var j: nat :| k' < j < |post| && Edge(g, post[j], post[k']);
      assert Edge(g, rpo[|post| - 1 - j], rpo[k]);
    }
  }

  // ---- edges against the order close loops --------------------------------------------------

  ghost predicate Leads(g: Cfg, a: nat, b: nat) {
    exists p :: IsPathFromTo(g, p, a, b)
  }

  // Each successor of a block is numbered before it, or leads back to it.
  ghost predicate ChildrenFirst(g: Cfg, post: seq<nat>) {
    forall k: nat, c: nat :: k < |post| && Edge(g, post[k], c) ==> c in post[..k] || Leads(g, c, post[k])
  }

  // An edge goes forward in the order, or closes a loop.
  ghost predicate ForwardOrLoop(g: Cfg, rpo: seq<nat>) {
    forall j: nat, k: nat :: j < |rpo| && k <= j && Edge(g, rpo[j], rpo[k]) ==> Leads(g, rpo[k], rpo[j])
  }

  lemma ChildrenSnoc(g: Cfg, post: seq<nat>, x: nat)
    requires ChildrenFirst(g, post)
    requires forall c: nat :: Edge(g, x, c) ==> c in post || Leads(g, c, x)
    ensures ChildrenFirst(g, post + [x])
  {
    hide Leads;
    var post' := post + [x];
    forall k: nat, c: nat | k < |post'| && Edge(g, post'[k], c) ensures c in post'[..k] || Leads(g, c, post'[k]) {
      if k < |post| {
        assert post'[..k] == post[..k];
        assert Edge(g, post[k], c);
      } else {
        assert post'[..k] == post;
      }
    }
  }

  lemma ForwardReversed(g: Cfg, post: seq<nat>, rpo: seq<nat>)
    requires ChildrenFirst(g, post) && |rpo| == |post|
    requires forall k: nat :: k < |rpo| ==> rpo[k] == post[|post| - 1 - k]
    requires forall i: nat, j: nat :: i < j < |post| ==> post[i] != post[j]
    ensures ForwardOrLoop(g, rpo)
  {
    hide Leads;
    forall j: nat, k: nat | j < |rpo| && k <= j && Edge(g, rpo[j], rpo[k]) ensures Leads(g, rpo[k], rpo[j]) {
      var a: nat, b: nat := |post| - 1 - j, |post| - 1 - k;
      assert Edge(g, post[a], post[b]);
      forall i: nat | i < a ensures post[..a][i] != post[b] {
        assert post[i] != post[b];
      }
    }
  }

  // The last block of a trail can be reached from any on it.
  lemma TrailLeads(g: Cfg, st: seq<nat>, i: nat)
    requires i < |st| && forall k: nat :: k < |st| ==> st[k] < |g.s1|
    requires forall k: nat :: 0 < k < |st| ==> Edge(g, st[k - 1], st[k])
    ensures Leads(g, st[i], st[|st| - 1])
  {
    assert IsPathFromTo(g, st[i..], st[i], st[|st| - 1]);
  }

  // The blocks under way lead from one to the next and then to b; what has been visited is
  // numbered or under way.
  ghost predicate UnderWay(g: Cfg, id: seq<int>, post: seq<nat>, way: seq<nat>, b: Option<nat>) {
    && |id| == |g.s1| == |g.s2|
    && (forall k: nat :: k < |way| ==> way[k] < |g.s1|)
    && (forall k: nat :: 0 < k < |way| ==> Edge(g, way[k - 1], way[k]))
    && (|way| > 0 && b.Some? ==> Edge(g, way[|way| - 1], b.value))
    && (forall v: nat :: v < |id| && id[v] != -1 ==> v in post || v in way)
    && ChildrenFirst(g, post)
  }

  lemma WayEntered(g: Cfg, id: seq<int>, post: seq<nat>, way: seq<nat>, x: nat, t: Option<nat>)
    requires UnderWay(g, id, post, way, Some(x)) && x < |id| && (t.Some? ==> Edge(g, x, t.value))
    ensures UnderWay(g, id[x := 0], post, way + [x], t)
  {
    hide ChildrenFirst;
    var way' := way + [x];
    assert forall k: nat :: k < |way| ==> way'[k] == way[k];
    forall v: nat | v < |id| && id[x := 0][v] != -1 ensures v in post || v in way' {
      assert v in way ==> v in way';
    }
  }

  lemma WayOn(g: Cfg, id: seq<int>, post: seq<nat>, way: seq<nat>, x: nat, t: Option<nat>)
    requires UnderWay(g, id, post, way + [x], None) && (t.Some? ==> Edge(g, x, t.value))
    ensures UnderWay(g, id, post, way + [x], t)
  {
  }

  // x, last on the way, has all its successors visited and is numbered.
  lemma WayLeft(g: Cfg, id: seq<int>, post: seq<nat>, way: seq<nat>, x: nat, n: int)
    requires UnderWay(g, id, post, way + [x], None) && x < |id|
    requires forall c: nat :: Edge(g, x, c) ==> c < |id| && id[c] != -1
    ensures UnderWay(g, id[x := n], post + [x], way, None)
  {
    hide ChildrenFirst;
    var way' := way + [x];
    assert forall k: nat :: k < |way| ==> way'[k] == way[k];
    forall c: nat | Edge(g, x, c) ensures c in post || Leads(g, c, x) {
      if c !in post {
        var i: nat :| i < |way'| && way'[i] == c;
        TrailLeads(g, way', i);
      }
    }
    ChildrenSnoc(g, post, x);
    forall v: nat | v < |id| && id[x := n][v] != -1 ensures v in post + [x] || v in way {
      if v != x {
        assert v in post || v in way';
      }
    }
  }

  // ---- the successor in the lighter loop is searched first -------------------------------------

  // Of x's two successors a is searched before b.
  predicate InTurn(g: Cfg, loop: seq<int>, x: nat, a: nat, b: nat)
    requires |loop| == |g.s1| == |g.s2|
  {
    && x < |g.s1| && a < |loop| && b < |loop| && a != b
    && ((g.s1[x] == Some(a) && g.s2[x] == Some(b) && loop[a] <= loop[b])
        || (g.s2[x] == Some(a) && g.s1[x] == Some(b) && loop[a] < loop[b]))
  }

  ghost predicate OnlyFrom(g: Cfg, x: nat, c: nat) {
    c != g.start && Edge(g, x, c) && forall u: nat :: Edge(g, u, c) ==> u == x
  }

  ghost predicate Precedes(post: seq<nat>, a: nat, b: nat) {
    exists i: nat, j: nat :: i < j < |post| && post[i] == a && post[j] == b
  }

  // Two blocks that can be reached through x only are numbered in the order of their search.
  ghost predicate Turns(g: Cfg, loop: seq<int>, post: seq<nat>)
    requires |loop| == |g.s1| == |g.s2|
  {
    forall x: nat, a: nat, b: nat :: x in post && InTurn(g, loop, x, a, b) && OnlyFrom(g, x, a) && OnlyFrom(g, x, b) ==>
      Precedes(post, a, b)
  }

  ghost predicate HeavierSooner(g: Cfg, loop: seq<int>, id: seq<int>)
    requires |loop| == |g.s1| == |g.s2| == |id|
  {
    forall x: nat, a: nat, b: nat :: x < |id| && id[x] != -1 && InTurn(g, loop, x, a, b) && OnlyFrom(g, x, a) && OnlyFrom(g, x, b) ==>
      id[b] < id[a]
  }

  ghost predicate FromVisited(g: Cfg, id: seq<int>, v: nat) {
    v == g.start || exists u: nat :: u < |id| && id[u] != -1 && Edge(g, u, v)
  }

  // Whatever has been visited was come to from the start or a visited block; so will b be.
  ghost predicate Turning(g: Cfg, loop: seq<int>, id: seq<int>, post: seq<nat>, b: Option<nat>) {
    && |loop| == |g.s1| == |g.s2| == |id|
    && (forall v: nat :: v < |id| && id[v] != -1 ==> FromVisited(g, id, v))
    && (b.Some? ==> FromVisited(g, id, b.value))
    && Turns(g, loop, post)
  }

  lemma TurnEntered(g: Cfg, loop: seq<int>, id: seq<int>, post: seq<nat>, x: nat, t: Option<nat>)
    requires Turning(g, loop, id, post, Some(x)) && x < |id| && id[x] == -1 && (t.Some? ==> Edge(g, x, t.value))
    ensures Turning(g, loop, id[x := 0], post, t)
  {
    hide Turns;
    var id' := id[x := 0];
    forall v: nat | FromVisited(g, id, v) ensures FromVisited(g, id', v) {
      if v != g.start {
        var u: nat :| u < |id| && id[u] != -1 && Edge(g, u, v);
        assert id'[u] != -1;
      }
    }
    if t.Some? {
      assert id'[x] != -1;
    }
  }

  lemma TurnOn(g: Cfg, loop: seq<int>, id: seq<int>, post: seq<nat>, x: nat, t: Option<nat>)
    requires Turning(g, loop, id, post, None) && x < |id| && id[x] != -1 && (t.Some? ==> Edge(g, x, t.value))
    ensures Turning(g, loop, id, post, t)
  {
  }

  lemma TurnsMore(g: Cfg, loop: seq<int>, post: seq<nat>, x: nat)
    requires |loop| == |g.s1| == |g.s2| && Turns(g, loop, post)
    requires forall a: nat, b: nat :: InTurn(g, loop, x, a, b) && OnlyFrom(g, x, a) && OnlyFrom(g, x, b) ==> Precedes(post, a, b)
    ensures Turns(g, loop, post + [x])
  {
    hide InTurn;
    hide OnlyFrom;
    var post' := post + [x];
    forall y: nat, a: nat, b: nat | y in post' && InTurn(g, loop, y, a, b) && OnlyFrom(g, y, a) && OnlyFrom(g, y, b)
      ensures Precedes(post', a, b)
    {
      assert y in post || y == x;
      assert Precedes(post, a, b);
      var i: nat, j: nat :| i < j < |post| && post[i] == a && post[j] == b;
      assert post'[i] == a && post'[j] == b;
    }
  }

  // The first call does not come to a block that only x leads to.
  lemma NotInFirst(g: Cfg, id: seq<int>, post: seq<nat>, idA: seq<int>, postA: seq<nat>, x: nat, a: nat, b: nat)
    requires |id| == |g.s1| && Grown(g, id, post, idA, postA, Some(a)) && OnlyFrom(g, x, b) && a != b && x !in postA
    requires b < |id| && id[b] == -1 && Numbering(g, id, post)
    ensures |idA| == |id| && idA[b] == -1
  {
    hide SuccsVisited;
    forall k: nat | k < |postA| ensures postA[k] != b {
      if k < |post| {
        assert id[postA[k]] == k;
      } else if postA[k] != a {
        assert ParentAfter(g, postA, k);
        var j: nat :| k < j < |postA| && Edge(g, postA[j], postA[k]);
        assert postA[j] != x;
      }
    }
  }

  // The two calls on x's successors, when only x leads to either.
  lemma BothInTurn(g: Cfg, loop: seq<int>, x: nat, a: nat, b: nat, id: seq<int>, post: seq<nat>, idA: seq<int>, postA: seq<nat>,
                   post': seq<nat>)
    requires Turning(g, loop, id, post, Some(x)) && x < |id| && id[x] == -1 && a != b && a < |id| && b < |id|
    requires OnlyFrom(g, x, a) && OnlyFrom(g, x, b)
    requires Numbering(g, id[x := 0], post) && Grown(g, id[x := 0], post, idA, postA, Some(a)) && x !in postA && postA <= post'
    requires id[x := 0][a] == -1 ==> |postA| > 0 && postA[|postA| - 1] == a
    requires b < |idA| && idA[b] == -1 ==> |post'| > |postA| && post'[|post'| - 1] == b
    ensures Precedes(post', a, b)
  {
    hide Turns;
    hide Grown;
    hide Numbering;
    forall c: nat | c < |id| && OnlyFrom(g, x, c) ensures c != x && id[c] == -1 {
      assert !FromVisited(g, id, c);
    }
    NotInFirst(g, id[x := 0], post, idA, postA, x, a, b);
    assert post'[|postA| - 1] == a;
  }

  lemma TurnLeft(g: Cfg, loop: seq<int>, x: nat, t1: Option<nat>, t2: Option<nat>, id0: seq<int>, post0: seq<nat>,
                 idA: seq<int>, postA: seq<nat>, id: seq<int>, post: seq<nat>, n: int)
    requires Turning(g, loop, id0, post0, Some(x)) && x < |id0| && id0[x] == -1
    requires Turning(g, loop, id, post, None) && id[x] != -1 && n != -1
    requires Numbering(g, id0[x := 0], post0) && Grown(g, id0[x := 0], post0, idA, postA, t1) && x !in postA && postA <= post
    requires t1.Some? ==> t1.value < |id0|
    requires t2.Some? ==> t2.value < |id0| == |idA|
    requires t1.Some? && id0[x := 0][t1.value] == -1 ==> |postA| > 0 && postA[|postA| - 1] == t1.value
    requires t2.Some? && idA[t2.value] == -1 ==> |post| > |postA| && post[|post| - 1] == t2.value
    requires forall a: nat, b: nat :: InTurn(g, loop, x, a, b) ==> t1 == Some(a) && t2 == Some(b)
    ensures Turning(g, loop, id[x := n], post + [x], None)
  {
    hide Turns;
    hide Numbering;
    hide Grown;
    hide InTurn;
    hide OnlyFrom;
    hide Precedes;
    forall a: nat, b: nat | InTurn(g, loop, x, a, b) && OnlyFrom(g, x, a) && OnlyFrom(g, x, b) ensures Precedes(post, a, b) {
      TurnApart(g, loop, x, a, b);
      BothInTurn(g, loop, x, a, b, id0, post0, idA, postA, post);
    }
    TurnsMore(g, loop, post, x);
    var id' := id[x := n];
    forall v: nat | FromVisited(g, id, v) ensures FromVisited(g, id', v) {
      if v != g.start {
        var u: nat :| u < |id| && id[u] != -1 && Edge(g, u, v);
        assert id'[u] != -1;
      }
    }
  }

  lemma TurnApart(g: Cfg, loop: seq<int>, x: nat, a: nat, b: nat)
    requires |loop| == |g.s1| == |g.s2| && InTurn(g, loop, x, a, b)
    ensures a != b && a < |loop| && b < |loop|
  {
  }

  // ---- the search under way ----------------------------------------------------------------------

  ghost predicate Going(g: Cfg, loop: seq<int>, id: seq<int>, post: seq<nat>, way: seq<nat>, b: Option<nat>) {
    Numbering(g, id, post) && UnderWay(g, id, post, way, b) && Turning(g, loop, id, post, b)
  }

  // The order porec takes x's successors in.
  predicate Successors(g: Cfg, loop: seq<int>, x: nat, t1: Option<nat>, t2: Option<nat>)
    requires |loop| == |g.s1| == |g.s2| && x < |loop|
  {
    && (g.s1[x].Some? ==> g.s1[x].value < |loop|) && (g.s2[x].Some? ==> g.s2[x].value < |loop|)
    && (if g.s1[x].Some? && g.s2[x].Some? && loop[g.s1[x].value] > loop[g.s2[x].value]
        then t1 == g.s2[x] && t2 == g.s1[x] else t1 == g.s1[x] && t2 == g.s2[x])
  }

  lemma GoingParts(g: Cfg, loop: seq<int>, id: seq<int>, post: seq<nat>, way: seq<nat>, b: Option<nat>)
    requires Going(g, loop, id, post, way, b) && InRange(b, |g.s1|)
    ensures |loop| == |g.s1| == |g.s2| == |id| && Going(g, loop, id, post, way, None)
    ensures forall x: nat :: x < |id| ==> InRange(g.s1[x], |id|) && InRange(g.s2[x], |id|)
  {
    hide Turning;
    hide UnderWay;
    WayStays(g, id, post, way, b);
    TurnStays(g, loop, id, post, b);
  }

  lemma Enter(g: Cfg, loop: seq<int>, id: seq<int>, post: seq<nat>, way: seq<nat>, x: nat, t1: Option<nat>, t2: Option<nat>)
    requires |loop| == |g.s1| == |g.s2| == |id| && x < |id| && id[x] == -1 && Going(g, loop, id, post, way, Some(x))
    requires Successors(g, loop, x, t1, t2)
    ensures Going(g, loop, id[x := 0], post, way + [x], t1) && InRange(t1, |id|) && InRange(t2, |id|)
    ensures Whites(id[x := 0]) < Whites(id)
  {
    hide Numbering;
    hide UnderWay;
    hide Turning;
    MarkStep(g, id, post, x);
    WayEntered(g, id, post, way, x, t1);
    TurnEntered(g, loop, id, post, x, t1);
  }

  lemma Between(g: Cfg, loop: seq<int>, id: seq<int>, post: seq<nat>, way: seq<nat>, x: nat, t1: Option<nat>, t2: Option<nat>)
    requires |loop| == |g.s1| == |g.s2| == |id| && x < |id| && id[x] != -1 && Going(g, loop, id, post, way + [x], None)
    requires Successors(g, loop, x, t1, t2)
    ensures Going(g, loop, id, post, way + [x], t2)
  {
    hide Numbering;
    hide UnderWay;
    hide Turning;
    WayOn(g, id, post, way, x, t2);
    TurnOn(g, loop, id, post, x, t2);
  }

  // Both calls done, x is numbered.
  lemma Leave(g: Cfg, loop: seq<int>, way: seq<nat>, x: nat, t1: Option<nat>, t2: Option<nat>,
              id0: seq<int>, post0: seq<nat>, idA: seq<int>, postA: seq<nat>, id: seq<int>, post: seq<nat>)
    requires |loop| == |g.s1| == |g.s2| == |id0| == |idA| == |id| && x < |id| && Successors(g, loop, x, t1, t2)
    requires id0[x] == -1 && Going(g, loop, id0, post0, way, Some(x))
    requires Going(g, loop, idA, postA, way + [x], None) && Grown(g, id0[x := 0], post0, idA, postA, t1)
    requires Going(g, loop, id, post, way + [x], None) && Grown(g, idA, postA, id, post, t2)
    requires t1.Some? ==> idA[t1.value] != -1 && (id0[x := 0][t1.value] == -1 ==> |postA| > 0 && postA[|postA| - 1] == t1.value)
    requires t2.Some? ==> id[t2.value] != -1 && (idA[t2.value] == -1 ==> |post| > 0 && post[|post| - 1] == t2.value)
    ensures Going(g, loop, id[x := |post|], post + [x], way, None)
    ensures Grown(g, id0, post0, id[x := |post|], post + [x], Some(x))
  {
    hide Numbering;
    hide UnderWay;
    hide Turning;
    hide Grown;
    MarkStep(g, id0, post0, x);
    EdgesOf(g, x, t1, t2);
    OneTurn(g, loop, x, t1, t2);
    GrownParts(g, id0[x := 0], post0, idA, postA, t1);
    GrownParts(g, idA, postA, id, post, t2);
    NotNumberedTwice(g, x, t1, id0[x := 0], post0, idA, postA);
    LongerIfWhite(g, idA, postA, id, post, t2);
    WayLeft(g, id, post, way, x, |post|);
    TurnLeft(g, loop, x, t1, t2, id0, post0, idA, postA, id, post, |post|);
    TwoCallsAre(g, x, t1, t2, id0, idA, id, post0, postA, post);
    GrownCompose(g, x, t1, t2, id0, idA, id, post0, postA, post);
  }

  // The function seen through its reverse postorder: block k stands for rpo[k].
  ghost function Renumbered(g: Cfg, id: seq<int>, rpo: seq<nat>): Cfg
    requires IsRpo(g, id, rpo)
  {
    Cfg.Cfg(0,
            seq(|rpo|, k requires 0 <= k < |rpo| => Renamed(g.s1[rpo[k]], id)),
            seq(|rpo|, k requires 0 <= k < |rpo| => Renamed(g.s2[rpo[k]], id)))
  }

  ghost function Renamed(s: Option<nat>, id: seq<int>): Option<nat> {
    if s.Some? && s.value < |id| && id[s.value] >= 0 then Some(id[s.value]) else None
  }

  lemma ReachableSucc(g: Cfg, a: nat, b: nat)
    requires Reachable(g, a) && Edge(g, a, b)
    ensures Reachable(g, b)
  {
    var p :| IsPathTo(g, p, a);
    PathExtend(g, p, g.start, a, b);
    assert IsPathTo(g, p + [b], b);
  }

  lemma EdgeRenumbered(g: Cfg, id: seq<int>, rpo: seq<nat>, a: nat, b: nat)
    requires IsRpo(g, id, rpo) && a < |rpo| && b < |rpo|
    ensures Edge(Renumbered(g, id, rpo), a, b) <==> Edge(g, rpo[a], rpo[b])
  {
    assert id[rpo[a]] == a && id[rpo[b]] == b;
    if Edge(Renumbered(g, id, rpo), a, b) {
      assert Renamed(g.s1[rpo[a]], id) == Some(b) || Renamed(g.s2[rpo[a]], id) == Some(b);
    }
  }

  // The numbering is what the dominator computation asks for.
  lemma RenumberedIsRpoNumbered(g: Cfg, id: seq<int>, rpo: seq<nat>)
    requires IsRpo(g, id, rpo)
    ensures RpoNumbered(Renumbered(g, id, rpo))
  {
    var h := Renumbered(g, id, rpo);
    forall b: nat | 0 < b < |h.s1| ensures HasLowPred(h, b) {
      assert ParentBefore(g, rpo, b);
      var j: nat :| j < b && Edge(g, rpo[j], rpo[b]);
      EdgeRenumbered(g, id, rpo, j, b);
    }
  }

  // Paths from the start are the same under either naming...
  lemma PathRenumbered(g: Cfg, id: seq<int>, rpo: seq<nat>, q: seq<nat>, b: nat)
    requires IsRpo(g, id, rpo) && b < |rpo|
    requires IsPathTo(Renumbered(g, id, rpo), q, b)
    ensures IsPathTo(g, seq(|q|, i requires 0 <= i < |q| => if q[i] < |rpo| then rpo[q[i]] else 0), rpo[b])
  {
    var h := Renumbered(g, id, rpo);
    var p := seq(|q|, i requires 0 <= i < |q| => if q[i] < |rpo| then rpo[q[i]] else 0);
    forall i | 0 < i < |p| ensures Edge(g, p[i - 1], p[i]) {
      assert Edge(h, q[i - 1], q[i]);
      EdgeRenumbered(g, id, rpo, q[i - 1], q[i]);
    }
  }

  lemma PathNumbered(g: Cfg, id: seq<int>, rpo: seq<nat>, p: seq<nat>, b: nat) returns (q: seq<nat>)
    requires IsRpo(g, id, rpo) && IsPathTo(g, p, b)
    ensures |q| == |p| && forall i :: 0 <= i < |p| ==> q[i] < |rpo| && rpo[q[i]] == p[i]
    ensures b < |id| && id[b] >= 0 && IsPathTo(Renumbered(g, id, rpo), q, id[b])
    decreases |p|
  {
    var h := Renumbered(g, id, rpo);
    assert Reachable(g, b);
    assert IsPathTo(g, [g.start], g.start);
    if |p| == 1 {
      assert id[rpo[0]] == 0;
      q := [0];
    } else {
      PathPrefix(g, p, |p| - 1);
      var u := p[|p| - 2];
      var q' := PathNumbered(g, id, rpo, p[..|p| - 1], u);
      assert Edge(g, u, b);
      assert id[b] != -1;
      EdgeRenumbered(g, id, rpo, id[u], id[b]);
      PathExtend(h, q', 0, id[u], id[b]);
      q := q' + [id[b]];
    }
  }

  // ... and so is dominance.
  lemma DomRenumbered(g: Cfg, id: seq<int>, rpo: seq<nat>, a: nat, b: nat)
    requires IsRpo(g, id, rpo) && a < |rpo| && b < |rpo|
    ensures Dom(Renumbered(g, id, rpo), a, b) <==> Dom(g, rpo[a], rpo[b])
  {
    var h := Renumbered(g, id, rpo);
    if Dom(h, a, b) {
      forall p | IsPathTo(g, p, rpo[b]) ensures rpo[a] in p {
        var q := PathNumbered(g, id, rpo, p, rpo[b]);
        assert a in q;
        var i :| 0 <= i < |q| && q[i] == a;
        assert p[i] == rpo[a];
      }
    }
    if Dom(g, rpo[a], rpo[b]) {
      forall q | IsPathTo(h, q, b) ensures a in q {
        PathRenumbered(g, id, rpo, q, b);
        var p := seq(|q|, i requires 0 <= i < |q| => if q[i] < |rpo| then rpo[q[i]] else 0);
        assert rpo[a] in p;
        var i :| 0 <= i < |p| && p[i] == rpo[a];
        assert id[rpo[a]] == a && id[rpo[q[i]]] == q[i];
      }
    }
  }

  // The first n blocks of the list without those that were not visited.
  function Kept(link: seq<nat>, id: seq<int>, n: nat): (r: seq<nat>)
    requires n <= |link| && forall i :: 0 <= i < |link| ==> link[i] < |id|
  {
    if n == 0 then []
    else Kept(link, id, n - 1) + if id[link[n - 1]] == -1 then [] else [link[n - 1]]
  }

  class Orderer {
    const start: nat
    const s1: seq<Option<nat>>
    const s2: seq<Option<nat>>
    const loop: seq<int>
    var id: seq<int>           // -1: not visited; 0 also marks a visit under way
    var rpo: seq<nat>
    var link: seq<nat>         // the block list
    ghost var post: seq<nat>   // the blocks numbered so far, in order

    function G(): Cfg {
      Cfg.Cfg(start, s1, s2)
    }

    constructor (start: nat, s1: seq<Option<nat>>, s2: seq<Option<nat>>, loop: seq<int>, link: seq<nat>)
      ensures G() == Cfg.Cfg(start, s1, s2) && this.loop == loop && this.link == link
    {
      this.start, this.s1, this.s2, this.loop, this.link := start, s1, s2, loop, link;
      id, rpo, post := [], [], [];
    }

    method PoRec(b: Option<nat>, npo: nat, ghost way: seq<nat>) returns (npo': nat)
      requires Going(G(), loop, id, post, way, b) && npo == |post| && |loop| == |s1| == |s2| == |id|
      requires InRange(b, |s1|)
      modifies this`id, this`post
      ensures Going(G(), loop, id, post, way, None) && npo' == |post| && |id| == |s1|
      ensures Grown(G(), old(id), old(post), id, post, b)
      ensures b.Some? ==> id[b.value] != -1
      ensures b.Some? && old(id[b.value]) == -1 ==> |post| > 0 && post[|post| - 1] == b.value
      decreases Whites(id)
    {
      hide Going;
      hide Grown;
      hide Whites;
      hide InTurn;
      hide Edge;
      npo' := npo;
      GoingParts(G(), loop, id, post, way, b);
      if b.None? || id[b.value] != -1 {
        NothingGrown(G(), id, post, b);
        return;
      }
      var x := b.value;
      ghost var id0, post0 := id, post;
      var t1, t2 := s1[x], s2[x];
      if t1.Some? && t2.Some? && loop[t1.value] > loop[t2.value] {
        t1, t2 := s2[x], s1[x];
      }
      Enter(G(), loop, id, post, way, x, t1, t2);
      id := id[x := 0];
      npo' := PoRec(t1, npo', way + [x]);
      ghost var idA, postA := id, post;
      GrownParts(G(), id0[x := 0], post0, idA, postA, t1);
      Between(G(), loop, id, post, way, x, t1, t2);
      npo' := PoRec(t2, npo', way + [x]);
      GrownParts(G(), idA, postA, id, post, t2);
      Leave(G(), loop, way, x, t1, t2, id0, post0, idA, postA, id, post);
      id := id[x := npo'];
      post := post + [x];
      npo' := npo' + 1;
    }

    // The block list holds every block once.
    ghost predicate Listed() 
      reads this`link
    {
      && (forall i :: 0 <= i < |link| ==> link[i] < |s1|)
      && (forall b: nat :: b < |s1| ==> b in link)
      && (forall i, j :: 0 <= i < j < |link| ==> link[i] != link[j])
    }

    method FillRpo()
      requires Wf(G()) && Listed() && |loop| == |s1|
      modifies this
      ensures IsRpo(G(), id, rpo) && ForwardOrLoop(G(), rpo) && |s1| == |s2| == |id| && HeavierSooner(G(), loop, id)
      ensures link == Kept(old(link), id, |old(link)|)
    {
      hide Grown;
      hide Searched;
      hide Numbering;
      hide IsRpo;
      hide DistinctBelow;
      hide FlippedUpTo;
      hide Going;
      hide UnderWay;
      hide ChildrenFirst;
      hide ForwardOrLoop;
      hide Turning;
      hide HeavierSooner;
      hide Kept;
      id := seq(|s1|, _ => -1);
      post := [];
      ghost var id0 := id;
      GoingStart(G(), loop, id);
      var nblk := PoRec(Some(start), 0, []);
      GoingEnd(G(), loop, id, post);
      SearchDone(G(), id0, id, post);
      rpo := seq(nblk, _ => 0);
      ghost var was := id;
      NumbersAreDistinct(G(), id, post);
      Flip(nblk);
      AllFlipped(old(link), was, id, rpo);
      FlipDone(G(), was, post, id, rpo);
      WayParts(G(), was, post);
      HeavierIs(G(), loop, was, post, id);
      FlipForward(G(), was, post, id, rpo);
      KeptSame(old(link), was, id, |old(link)|);
    }

    lemma ListedParts()
      requires Listed()
      ensures forall i :: 0 <= i < |link| ==> link[i] < |s1|
      ensures forall i, j :: 0 <= i < j < |link| ==> link[i] != link[j]
    {
    }

    // The walk over the block list: drop unvisited blocks, turn postorder
    // numbers around and fill the rpo table.
    method Flip(nblk: nat)
      requires Listed() && |id| == |s1| && |rpo| == nblk && DistinctBelow(id, nblk)
      modifies this`id, this`rpo, this`link
      ensures |rpo| == nblk && FlippedUpTo(old(link), |old(link)|, old(id), id, rpo)
      ensures link == Kept(old(link), old(id), |old(link)|)
    {
      hide *;
      ListedParts();
      var todo := link;
      ghost var was := id;
      link := [];
      var n := 0;
      FlipStart(todo, id, rpo);
      while n < |todo|
        invariant 0 <= n <= |todo|
        invariant |rpo| == nblk && |id| == |was|
        invariant FlippedUpTo(todo, n, was, id, rpo)
        invariant link == Kept(todo, was, n)
      {
        var b := todo[n];
        KeptStep(todo, n, was);
        FlipStep(todo, n, was, id, rpo);
        if id[b] != -1 {
          id := id[b := nblk - id[b] - 1];
          rpo := rpo[id[b] := b];
          link := link + [b];
        }
        n := n + 1;
      }
    }
  }

  // The first n blocks of the list have been renumbered, the others not.
  ghost predicate FlippedUpTo(todo: seq<nat>, n: nat, was: seq<int>, id: seq<int>, rpo: seq<nat>) {
    && n <= |todo| && |id| == |was| && DistinctBelow(was, |rpo|)
    && (forall i :: 0 <= i < |todo| ==> todo[i] < |id|)
    && (forall i, j :: 0 <= i < j < |todo| ==> todo[i] != todo[j])
    && (forall j :: n <= j < |todo| ==> id[todo[j]] == was[todo[j]])
    && (forall j :: 0 <= j < n ==> FlippedAt(todo[j], was, id, rpo))
  }

  ghost predicate FlippedAt(b: nat, was: seq<int>, id: seq<int>, rpo: seq<nat>)
    requires b < |was| && |id| == |was| && DistinctBelow(was, |rpo|)
  {
    if was[b] == -1 then id[b] == -1
    else id[b] == |rpo| - 1 - was[b] && rpo[|rpo| - 1 - was[b]] == b
  }

  lemma FlipStep(todo: seq<nat>, n: nat, was: seq<int>, id: seq<int>, rpo: seq<nat>)
    requires n < |todo| && FlippedUpTo(todo, n, was, id, rpo)
    ensures todo[n] < |id| && id[todo[n]] == was[todo[n]]
    ensures id[todo[n]] == -1 ==> FlippedUpTo(todo, n + 1, was, id, rpo)
    ensures id[todo[n]] != -1 ==>
              var k := |rpo| - id[todo[n]] - 1;
              0 <= k < |rpo| && FlippedUpTo(todo, n + 1, was, id[todo[n] := k], rpo[k := todo[n]])
  {
    var b := todo[n];
    if id[b] != -1 {
      var k := |rpo| - id[b] - 1;
      forall j | 0 <= j < n ensures FlippedAt(todo[j], was, id[b := k], rpo[k := b]) {
        assert FlippedAt(todo[j], was, id, rpo);
      }
    }
  }

  lemma AllFlipped(todo: seq<nat>, was: seq<int>, id: seq<int>, rpo: seq<nat>)
    requires FlippedUpTo(todo, |todo|, was, id, rpo)
    requires forall b: nat :: b < |was| ==> b in todo
    ensures |id| == |was|
    ensures forall b: nat :: b < |id| ==> id[b] == if was[b] == -1 then -1 else |rpo| - 1 - was[b]
    ensures forall b: nat :: b < |id| && was[b] != -1 ==> rpo[|rpo| - 1 - was[b]] == b
  {
    forall b: nat | b < |id|
      ensures id[b] == if was[b] == -1 then -1 else |rpo| - 1 - was[b]
      ensures was[b] != -1 ==> rpo[|rpo| - 1 - was[b]] == b
    {
      assert b in todo;
      var j :| 0 <= j < |todo| && todo[j] == b;
      assert FlippedAt(todo[j], was, id, rpo);
    }
  }

  lemma FlipDone(g: Cfg, was: seq<int>, post: seq<nat>, id: seq<int>, rpo: seq<nat>)
    requires Searched(g, was, post) && DistinctBelow(was, |post|)
    requires |id| == |was| && |rpo| == |post|
    requires forall b: nat :: b < |id| ==> id[b] == if was[b] == -1 then -1 else |post| - 1 - was[b]
    requires forall b: nat :: b < |id| && was[b] != -1 ==> rpo[|post| - 1 - was[b]] == b
    ensures IsRpo(g, id, rpo)
  {
    forall k: nat | k < |rpo| ensures rpo[k] == post[|post| - 1 - k] {
      assert was[post[|post| - 1 - k]] == |post| - 1 - k;
    }
    ReversedIsRpo(g, was, post, id, rpo);
  }

  lemma FlipForward(g: Cfg, was: seq<int>, post: seq<nat>, id: seq<int>, rpo: seq<nat>)
    requires Searched(g, was, post) && ChildrenFirst(g, post) && |id| == |was| && |rpo| == |post|
    requires forall b: nat :: b < |id| && was[b] != -1 ==> 0 <= was[b] < |post| && rpo[|post| - 1 - was[b]] == b
    ensures ForwardOrLoop(g, rpo)
  {
    hide ChildrenFirst;
    hide ForwardOrLoop;
    forall k: nat | k < |rpo| ensures rpo[k] == post[|post| - 1 - k] {
      assert was[post[|post| - 1 - k]] == |post| - 1 - k;
    }
    forall i: nat, j: nat | i < j < |post| ensures post[i] != post[j] {
      assert was[post[i]] == i && was[post[j]] == j;
    }
    ForwardReversed(g, post, rpo);
  }

  lemma HeavierIs(g: Cfg, loop: seq<int>, was: seq<int>, post: seq<nat>, id: seq<int>)
    requires Searched(g, was, post) && Turning(g, loop, was, post, None) && |id| == |was|
    requires forall b: nat :: b < |id| ==> id[b] == if was[b] == -1 then -1 else |post| - 1 - was[b]
    ensures HeavierSooner(g, loop, id)
  {
    hide InTurn;
    hide OnlyFrom;
    forall x: nat, a: nat, b: nat | x < |id| && id[x] != -1 && InTurn(g, loop, x, a, b) && OnlyFrom(g, x, a) && OnlyFrom(g, x, b)
      ensures a < |id| && b < |id| && id[b] < id[a]
    {
      assert was[x] != -1 && x in post;
      assert Precedes(post, a, b);
      var i: nat, j: nat :| i < j < |post| && post[i] == a && post[j] == b;
      assert was[post[i]] == i && was[post[j]] == j;
    }
  }

  ghost predicate DistinctBelow(id: seq<int>, n: nat) {
    && (forall b: nat :: b < |id| && id[b] != -1 ==> 0 <= id[b] < n)
    && (forall b: nat, c: nat :: b < |id| && c < |id| && b != c && id[b] != -1 ==> id[b] != id[c])
  }

  lemma NumbersAreDistinct(g: Cfg, id: seq<int>, post: seq<nat>)
    requires Searched(g, id, post)
    ensures DistinctBelow(id, |post|)
  {
    forall b: nat | b < |id| && id[b] != -1 ensures 0 <= id[b] < |post| && post[id[b]] == b {
      var k: nat :| k < |post| && post[k] == b;
    }
  }

  lemma {:induction false} KeptSame(link: seq<nat>, a: seq<int>, b: seq<int>, n: nat)
    requires n <= |link| && |a| == |b| && forall i :: 0 <= i < |link| ==> link[i] < |a|
    requires forall i :: 0 <= i < |a| ==> (a[i] == -1 <==> b[i] == -1)
    ensures Kept(link, a, n) == Kept(link, b, n)
  {
    if n > 0 {
      KeptSame(link, a, b, n - 1);
    }
  }

  // ---- facts that unfold at once ----------------------------------------------------------

  lemma GrownParts(g: Cfg, id: seq<int>, post: seq<nat>, id': seq<int>, post': seq<nat>, r: Option<nat>)
    requires Grown(g, id, post, id', post', r)
    ensures Whites(id') <= Whites(id) && |id'| == |id| && post <= post'
    ensures forall b: nat :: b < |id| && id[b] != -1 ==> id'[b] != -1
  {
  }

  lemma NothingGrown(g: Cfg, id: seq<int>, post: seq<nat>, b: Option<nat>)
    ensures Grown(g, id, post, id, post, b)
  {
  }

  lemma MarkStep(g: Cfg, id: seq<int>, post: seq<nat>, x: nat)
    requires Numbering(g, id, post) && x < |id| && id[x] == -1
    ensures Numbering(g, id[x := 0], post) && Whites(id[x := 0]) < Whites(id) && x !in post
  {
    assert x in Whites(id) && x !in Whites(id[x := 0]);
  }

  lemma EdgesOf(g: Cfg, x: nat, t1: Option<nat>, t2: Option<nat>)
    requires x < |g.s1| == |g.s2| && InRange(g.s1[x], |g.s1|) && InRange(g.s2[x], |g.s1|)
    requires (t1 == g.s1[x] && t2 == g.s2[x]) || (t1 == g.s2[x] && t2 == g.s1[x])
    ensures forall c: nat :: Edge(g, x, c) <==> t1 == Some(c) || t2 == Some(c)
    ensures InRange(t1, |g.s1|) && InRange(t2, |g.s1|)
  {
  }

  lemma TwoCallsAre(g: Cfg, x: nat, t1: Option<nat>, t2: Option<nat>,
                    id: seq<int>, idA: seq<int>, idB: seq<int>, post: seq<nat>, postA: seq<nat>, postB: seq<nat>)
    requires Numbering(g, id, post) && x < |id| && id[x] == -1
    requires forall c: nat :: Edge(g, x, c) <==> t1 == Some(c) || t2 == Some(c)
    requires Grown(g, id[x := 0], post, idA, postA, t1) && Grown(g, idA, postA, idB, postB, t2)
    requires t1.Some? ==> t1.value < |id| == |idA| && idA[t1.value] != -1
    requires t2.Some? ==> t2.value < |id| == |idB| && idB[t2.value] != -1
    ensures TwoCalls(g, x, t1, t2, id, idA, idB, post, postA, postB)
  {
  }

  lemma NotNumberedTwice(g: Cfg, x: nat, r: Option<nat>, id: seq<int>, post: seq<nat>, id': seq<int>, post': seq<nat>)
    requires Grown(g, id, post, id', post', r)
    requires x < |id| && id[x] != -1 && x !in post
    ensures x !in post'
  {
  }

  lemma SearchStart(g: Cfg, id: seq<int>)
    requires Wf(g) && |id| == |g.s1| && forall b :: 0 <= b < |id| ==> id[b] == -1
    ensures Numbering(g, id, [])
  {
  }

  lemma GoingStart(g: Cfg, loop: seq<int>, id: seq<int>)
    requires Wf(g) && |loop| == |id| == |g.s1| && forall v :: 0 <= v < |id| ==> id[v] == -1
    ensures Going(g, loop, id, [], [], Some(g.start))
  {
    NothingUnderWay(g, id);
    NoTurnYet(g, loop, id);
    SearchStart(g, id);
  }

  lemma GoingEnd(g: Cfg, loop: seq<int>, id: seq<int>, post: seq<nat>)
    requires Going(g, loop, id, post, [], None)
    ensures Numbering(g, id, post) && UnderWay(g, id, post, [], None) && Turning(g, loop, id, post, None)
  {
  }

  lemma TurnStays(g: Cfg, loop: seq<int>, id: seq<int>, post: seq<nat>, b: Option<nat>)
    requires Turning(g, loop, id, post, b)
    ensures Turning(g, loop, id, post, None)
  {
  }

  lemma NoTurnYet(g: Cfg, loop: seq<int>, id: seq<int>)
    requires Wf(g) && |loop| == |id| == |g.s1| && forall v :: 0 <= v < |id| ==> id[v] == -1
    ensures Turning(g, loop, id, [], Some(g.start))
  {
  }

  lemma OneTurn(g: Cfg, loop: seq<int>, x: nat, t1: Option<nat>, t2: Option<nat>)
    requires |loop| == |g.s1| == |g.s2| && x < |g.s1| && InRange(g.s1[x], |g.s1|) && InRange(g.s2[x], |g.s1|)
    requires if g.s1[x].Some? && g.s2[x].Some? && loop[g.s1[x].value] > loop[g.s2[x].value]
             then t1 == g.s2[x] && t2 == g.s1[x] else t1 == g.s1[x] && t2 == g.s2[x]
    ensures forall a: nat, b: nat :: InTurn(g, loop, x, a, b) ==> t1 == Some(a) && t2 == Some(b)
  {
  }

  lemma LongerIfWhite(g: Cfg, id: seq<int>, post: seq<nat>, id': seq<int>, post': seq<nat>, r: Option<nat>)
    requires Numbering(g, id, post) && Grown(g, id, post, id', post', r)
    requires r.Some? && r.value < |id| && id[r.value] == -1 ==> |post'| > 0 && post'[|post'| - 1] == r.value
    ensures r.Some? && r.value < |id| && id[r.value] == -1 ==> |post'| > |post|
  {
  }

  lemma WayParts(g: Cfg, id: seq<int>, post: seq<nat>)
    requires UnderWay(g, id, post, [], None)
    ensures ChildrenFirst(g, post)
  {
  }

  lemma WayStays(g: Cfg, id: seq<int>, post: seq<nat>, way: seq<nat>, b: Option<nat>)
    requires UnderWay(g, id, post, way, b)
    ensures UnderWay(g, id, post, way, None)
  {
  }

  lemma NothingUnderWay(g: Cfg, id: seq<int>)
    requires Wf(g) && |id| == |g.s1| && forall v :: 0 <= v < |id| ==> id[v] == -1
    ensures UnderWay(g, id, [], [], Some(g.start))
  {
  }

  lemma FlipStart(todo: seq<nat>, id: seq<int>, rpo: seq<nat>)
    requires DistinctBelow(id, |rpo|)
    requires forall i :: 0 <= i < |todo| ==> todo[i] < |id|
    requires forall i, j :: 0 <= i < j < |todo| ==> todo[i] != todo[j]
    ensures FlippedUpTo(todo, 0, id, id, rpo) && Kept(todo, id, 0) == []
  {
  }

  lemma KeptStep(todo: seq<nat>, n: nat, id: seq<int>)
    requires n < |todo| && forall i :: 0 <= i < |todo| ==> todo[i] < |id|
    ensures Kept(todo, id, n + 1) == Kept(todo, id, n) + if id[todo[n]] == -1 then [] else [todo[n]]
  {
  }
}
