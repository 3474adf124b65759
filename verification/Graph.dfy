// Control-flow graphs, paths and dominance, stated on values.
//
// A block is a number below |g.s1|; a block has at most two successors (the
// fields s1 and s2 of the source's Blk and MBlk).
module Graph {

  datatype Option<+T> = None | Some(value: T)

  datatype Cfg = Cfg(start: nat, s1: seq<Option<nat>>, s2: seq<Option<nat>>)

  ghost predicate InRange(s: Option<nat>, n: nat) {
    s.Some? ==> s.value < n
  }

  ghost predicate Wf(g: Cfg) {
    && |g.s1| == |g.s2|
    && g.start < |g.s1|
    && (forall b :: 0 <= b < |g.s1| ==> InRange(g.s1[b], |g.s1|) && InRange(g.s2[b], |g.s1|))
  }

  predicate Edge(g: Cfg, a: nat, b: nat) {
    && a < |g.s1| && a < |g.s2| && b < |g.s1|
    && (g.s1[a] == Some(b) || g.s2[a] == Some(b))
  }

  // A path is a nonempty sequence of blocks, each a successor of the one before.
  ghost predicate IsPath(g: Cfg, p: seq<nat>) {
    && |p| > 0
    && (forall i :: 0 <= i < |p| ==> p[i] < |g.s1|)
    && (forall i :: 0 < i < |p| ==> Edge(g, p[i - 1], p[i]))
  }

  ghost predicate IsPathFromTo(g: Cfg, p: seq<nat>, a: nat, b: nat) {
    IsPath(g, p) && p[0] == a && p[|p| - 1] == b
  }

  ghost predicate IsPathTo(g: Cfg, p: seq<nat>, b: nat) {
    IsPathFromTo(g, p, g.start, b)
  }

  ghost predicate Reachable(g: Cfg, b: nat) {
    exists p :: IsPathTo(g, p, b)
  }

  // a dominates b: every path from the start to b passes through a.
  ghost predicate Dom(g: Cfg, a: nat, b: nat) {
    forall p :: IsPathTo(g, p, b) ==> a in p
  }

  ghost predicate SDom(g: Cfg, a: nat, b: nat) {
    a != b && Dom(g, a, b)
  }

  // Every block but the start has a predecessor with a smaller number: what a
  // depth-first reverse postorder guarantees (module Rpo).
  ghost predicate RpoNumbered(g: Cfg) {
    && Wf(g)
    && g.start == 0
    && (forall b: nat :: 0 < b < |g.s1| ==> HasLowPred(g, b))
  }

  ghost predicate HasLowPred(g: Cfg, b: nat) {
    exists p: nat :: p < b && Edge(g, p, b)
  }

  // Two paths meeting at a block, joined.
  lemma PathJoin(g: Cfg, p: seq<nat>, q: seq<nat>, a: nat, b: nat, c: nat)
    requires IsPathFromTo(g, p, a, b)
    requires IsPathFromTo(g, q, b, c)
    ensures IsPathFromTo(g, p + q[1..], a, c)
  {
    var r := p + q[1..];
    forall i | 0 < i < |r| ensures Edge(g, r[i - 1], r[i]) {
      if i > |p| {
        assert r[i] == q[i - |p| + 1] && r[i - 1] == q[i - |p|];
      } else if i == |p| {
        assert r[i] == q[1] && r[i - 1] == p[|p| - 1] == q[0];
      }
    }
    if |q| == 1 {
      assert r == p;
    } else {
      assert r[|r| - 1] == q[|q| - 1];
    }
  }

  lemma DomRefl(g: Cfg, a: nat)
    ensures Dom(g, a, a)
  {
    forall p | IsPathTo(g, p, a) ensures a in p {
      assert p[|p| - 1] == a;
    }
  }

  // The first occurrence of x on a path.
  lemma FirstOccurrence(p: seq<nat>, x: nat) returns (k: nat)
    requires x in p
    ensures k < |p| && p[k] == x && x !in p[..k]
  {
    k := 0;
    while p[k] != x
      invariant k < |p|
      invariant x !in p[..k]
      invariant x in p[k..]
      decreases |p| - k
    {
      assert p[..k + 1] == p[..k] + [p[k]];
      assert p[k..] == [p[k]] + p[k + 1..];
      k := k + 1;
    }
  }

  // The last occurrence of x on a path.
  lemma LastOccurrence(p: seq<nat>, x: nat) returns (k: nat)
    requires x in p
    ensures k < |p| && p[k] == x && x !in p[k + 1..]
  {
    k := |p| - 1;
    while p[k] != x
      invariant 0 <= k < |p|
      invariant x !in p[k + 1..]
      invariant x in p[..k + 1]
      decreases k
    {
      assert p[k..] == [p[k]] + p[k + 1..];
      assert p[..k + 1] == p[..k] + [p[k]];
      k := k - 1;
    }
  }

  lemma DomTrans(g: Cfg, a: nat, b: nat, c: nat)
    requires Dom(g, a, b) && Dom(g, b, c)
    ensures Dom(g, a, c)
  {
    forall p | IsPathTo(g, p, c) ensures a in p {
      var k := FirstOccurrence(p, b);
      PathPrefix(g, p, k + 1);
      assert IsPathTo(g, p[..k + 1], b);
      assert a in p[..k + 1];
    }
  }

  // A path to b comes to a dominator of b before it first comes to b.
  lemma EarlierVisit(g: Cfg, p: seq<nat>, a: nat, b: nat) returns (q: seq<nat>)
    requires IsPathTo(g, p, b) && Dom(g, a, b)
    ensures IsPathTo(g, q, a) && (a != b ==> b !in q)
  {
    hide IsPath;
    var k := FirstOccurrence(p, b);
    PathPrefix(g, p, k + 1);
    var j := FirstOccurrence(p[..k + 1], a);
    assert p[..k + 1][j] == a;
    PathPrefix(g, p, j + 1);
    q := p[..j + 1];
    assert j < k ==> q <= p[..k];
  }

  lemma DomAntisym(g: Cfg, a: nat, b: nat)
    requires Reachable(g, b)
    requires Dom(g, a, b) && Dom(g, b, a)
    ensures a == b
  {
    var p :| IsPathTo(g, p, b);
    var q := EarlierVisit(g, p, a, b);
  }

  // A strict dominator of b dominates every reachable predecessor of b.
  lemma SDomPred(g: Cfg, a: nat, p: nat, b: nat)
    requires SDom(g, a, b) && Edge(g, p, b)
    ensures Dom(g, a, p)
  {
    forall q | IsPathTo(g, q, p) ensures a in q {
      PathExtend(g, q, g.start, p, b);
      assert IsPathTo(g, q + [b], b);
      assert a in q + [b];
    }
  }

  // Under a reverse-postorder numbering each block is reached by a path that
  // only goes through blocks numbered no higher.
  lemma LowPath(g: Cfg, b: nat) returns (p: seq<nat>)
    requires RpoNumbered(g)
    requires b < |g.s1|
    ensures IsPathTo(g, p, b)
    ensures forall i :: 0 <= i < |p| ==> p[i] <= b
  {
    if b == 0 {
      p := [0];
    } else {
      assert HasLowPred(g, b);
      var t: nat :| t < b && Edge(g, t, b);
      var q := LowPath(g, t);
      PathExtend(g, q, 0, t, b);
      p := q + [b];
    }
  }

  lemma DomIsLower(g: Cfg, a: nat, b: nat)
    requires RpoNumbered(g)
    requires b < |g.s1| && Dom(g, a, b)
    ensures a <= b
  {
    var p := LowPath(g, b);
    assert a in p;
  }

  // ---- facts that unfold at once ----------------------------------------------------------

  lemma PathPrefix(g: Cfg, p: seq<nat>, k: nat)
    requires IsPath(g, p)
    requires 0 < k <= |p|
    ensures IsPathFromTo(g, p[..k], p[0], p[k - 1])
  {
  }

  lemma PathSuffix(g: Cfg, p: seq<nat>, k: nat)
    requires IsPath(g, p)
    requires k < |p|
    ensures IsPathFromTo(g, p[k..], p[k], p[|p| - 1])
  {
  }

  lemma PathExtend(g: Cfg, p: seq<nat>, a: nat, b: nat, c: nat)
    requires IsPathFromTo(g, p, a, b)
    requires Edge(g, b, c)
    ensures IsPathFromTo(g, p + [c], a, c)
  {
  }
}
