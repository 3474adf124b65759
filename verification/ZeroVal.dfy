// opt/cfg.c (reachrec, reaches, reachesnotvia) and opt/gvn.c (branchdom, domzero,
// zeroval): what a dominating conditional jump says about a value.
module ZeroVal {
  import opened Graph
  import opened DomTree
  import CfgPass

  // ---- path queries ---------------------------------------------------------------------

  // A path from a to b none of whose blocks but the last is in X.
  ghost predicate IsPathAround(g: Cfg, p: seq<nat>, a: nat, b: nat, X: set<nat>) {
    IsPathFromTo(g, p, a, b) && forall i: nat :: i < |p| - 1 ==> p[i] !in X
  }

  ghost predicate ReachesAround(g: Cfg, a: nat, b: nat, X: set<nat>) {
    exists p :: IsPathAround(g, p, a, b, X)
  }

  // What a failed search has marked is closed: it leads nowhere but to marks, and not to b.
  ghost predicate ClosedMarks(g: Cfg, X: set<nat>, V: set<nat>, to: nat) {
    && X <= V
    && (forall x: nat :: x in V - X ==> x != to && SuccsIn(g, x, V, to))
  }

  ghost predicate SuccsIn(g: Cfg, x: nat, V: set<nat>, to: nat) {
    forall s: nat :: Edge(g, x, s) ==> s != to && s in V
  }

  lemma {:induction false} ClosedCannotReach(g: Cfg, X: set<nat>, V: set<nat>, to: nat, p: seq<nat>, a: nat)
    requires ClosedMarks(g, X, V, to) && IsPathAround(g, p, a, to, X) && a in V
    ensures a == to || a in X
    decreases |p|
  {
    if |p| > 1 && a !in X {
      assert Edge(g, p[0], p[1]);
      assert SuccsIn(g, a, V, to);
      assert p[1] in V && p[1] != to;
      PathSuffix(g, p, 1);
      assert |p| > 2 ==> p[1] !in X;
      ClosedCannotReach(g, X, V, to, p[1..], p[1]);
    }
  }

  class Search {
    const s1: seq<Option<nat>>
    const s2: seq<Option<nat>>
    var visit: set<nat>            // blocks whose visit field is set

    function G(): Cfg {
      Cfg.Cfg(0, s1, s2)
    }

    constructor (s1: seq<Option<nat>>, s2: seq<Option<nat>>)
      ensures this.s1 == s1 && this.s2 == s2 && visit == {}
    {
      this.s1, this.s2 := s1, s2;
      visit := {};
    }

    method ReachRec(b: Option<nat>, to: nat) returns (r: bool)
      requires Wf(G()) && to < |s1| && InRange(b, |s1|)
      modifies this`visit
      ensures r ==> b.Some? && ReachesAround(G(), b.value, to, old(visit))
      ensures !r ==> old(visit) <= visit && ClosedMarks(G(), old(visit), visit, to)
      ensures !r && b.Some? ==> b.value != to && b.value in visit
      decreases Unmarked(|s1|, visit)
    {
      if b == Some(to) {
        assert IsPathAround(G(), [to], to, to, visit);
        return true;
      }
      if b.None? || b.value in visit {
        return false;
      }
      ghost var X := visit;
      visit := visit + {b.value};
      assert b.value in Unmarked(|s1|, X);
      ghost var V1 := visit;
      r := ReachRec(s1[b.value], to);
      if r {
        ReachStep(G(), b.value, s1[b.value].value, to, X);
        return;
      }
      ghost var V2 := visit;
      r := ReachRec(s2[b.value], to);
      if r {
        ReachMore(G(), s2[b.value].value, to, V1, V2);
        ReachStep(G(), b.value, s2[b.value].value, to, X);
        return;
      }
      MarksClosed(G(), b.value, X, V2, visit, to);
    }

    // reaches: and the marks are cleared again.
    method Reaches(b: Option<nat>, to: nat) returns (r: bool)
      requires Wf(G()) && to < |s1| && InRange(b, |s1|)
      modifies this`visit
      ensures r <==> b.Some? && ReachesAround(G(), b.value, to, old(visit))
      ensures visit == {}
    {
      ghost var X := visit;
      r := ReachRec(b, to);
      if !r && b.Some? && b.value !in X {
        NotReached(G(), b.value, to, X, visit);
      } else if !r && b.Some? {
        AroundFromMarked(G(), b.value, to, X);
      }
      visit := {};
    }

    // Can b reach to without going through excl?
    method ReachesNotVia(b: Option<nat>, to: nat, excl: nat) returns (r: bool)
      requires Wf(G()) && to < |s1| && InRange(b, |s1|) && visit == {}
      modifies this`visit
      ensures r <==> b.Some? && ReachesAround(G(), b.value, to, {excl})
      ensures visit == {}
    {
      visit := visit + {excl};
      assert visit == {excl};
      r := Reaches(b, to);
    }
  }

  ghost function Unmarked(n: nat, V: set<nat>): set<nat> {
    set b: nat | b < n && b !in V
  }

  lemma ReachStep(g: Cfg, b: nat, s: nat, to: nat, X: set<nat>)
    requires Edge(g, b, s) && b !in X && ReachesAround(g, s, to, X + {b})
    ensures ReachesAround(g, b, to, X)
  {
    var p :| IsPathAround(g, p, s, to, X + {b});
    var q := [b] + p;
    assert forall i: nat :: 0 < i < |q| ==> q[i] == p[i - 1];
    assert IsPathAround(g, q, b, to, X);
  }

  lemma ReachMore(g: Cfg, s: nat, to: nat, V1: set<nat>, V2: set<nat>)
    requires V1 <= V2 && ReachesAround(g, s, to, V2)
    ensures ReachesAround(g, s, to, V1)
  {
    var p :| IsPathAround(g, p, s, to, V2);
    assert IsPathAround(g, p, s, to, V1);
  }

  lemma MarksClosed(g: Cfg, b: nat, X: set<nat>, V2: set<nat>, V3: set<nat>, to: nat)
    requires b < |g.s1| && |g.s1| == |g.s2| && b !in X && b != to
    requires ClosedMarks(g, X + {b}, V2, to) && ClosedMarks(g, V2, V3, to)
    requires g.s1[b].Some? ==> g.s1[b].value != to && g.s1[b].value in V2
    requires g.s2[b].Some? ==> g.s2[b].value != to && g.s2[b].value in V3
    ensures ClosedMarks(g, X, V3, to)
  {
    forall x: nat | x in V3 - X ensures x != to && SuccsIn(g, x, V3, to) {
      if x != b {
        assert x in V3 - V2 || x in V2 - (X + {b});
      }
    }
  }

  lemma NotReached(g: Cfg, b: nat, to: nat, X: set<nat>, V: set<nat>)
    requires ClosedMarks(g, X, V, to) && b in V && b !in X && b != to
    ensures !ReachesAround(g, b, to, X)
  {
    forall p ensures !IsPathAround(g, p, b, to, X) {
      if IsPathAround(g, p, b, to, X) {
        ClosedCannotReach(g, X, V, to, p, b);
      }
    }
  }

  lemma AroundFromMarked(g: Cfg, b: nat, to: nat, X: set<nat>)
    requires b in X && b != to
    ensures !ReachesAround(g, b, to, X)
  {
    forall p ensures !IsPathAround(g, p, b, to, X) {
      if IsPathFromTo(g, p, b, to) {
        assert p[0] in X && |p| > 1;
      }
    }
  }

  // ---- the last visit to a dominator --------------------------------------------------------

  // Every path from the start to b goes on to t, never to e, after its last visit to d.
  ghost predicate LeavesBy(g: Cfg, d: nat, t: nat, e: nat, b: nat) {
    forall p: seq<nat>, k: nat :: LastVisit(g, p, k, d, b) ==> k + 1 < |p| && p[k + 1] == t && p[k + 1] != e
  }

  ghost predicate LastVisit(g: Cfg, p: seq<nat>, k: nat, d: nat, b: nat) {
    IsPathTo(g, p, b) && k < |p| && p[k] == d && d !in p[k + 1..]
  }

  // branchdom, stated by the code's own tests.
  ghost predicate BranchDom(g: Cfg, d: nat, t: nat, e: nat, b: nat) {
    b != d && Dom(g, t, b) && !ReachesAround(g, e, b, {d})
  }

  lemma BranchDomLeaves(g: Cfg, d: nat, t: nat, e: nat, b: nat)
    requires Wf(g) && d < |g.s1| && g.s1[d].Some? && g.s2[d].Some? && b < |g.s1|
    requires (t == g.s1[d].value && e == g.s2[d].value) || (t == g.s2[d].value && e == g.s1[d].value)
    requires BranchDom(g, d, t, e, b)
    ensures LeavesBy(g, d, t, e, b)
  {
    forall p: seq<nat>, k: nat | LastVisit(g, p, k, d, b) ensures k + 1 < |p| && p[k + 1] == t && p[k + 1] != e {
      assert k + 1 < |p|;
      assert Edge(g, p[k], p[k + 1]);
      if p[k + 1] == e {
        PathSuffix(g, p, k + 1);
        var q := p[k + 1..];
        assert forall i: nat :: i < |q| ==> q[i] != d;
        assert IsPathAround(g, q, e, b, {d});
      }
    }
  }

  // And conversely: for a block d that strictly dominates b, branchdom misses nothing.
  lemma LeavesIsBranchDom(g: Cfg, d: nat, t: nat, e: nat, b: nat)
    requires RpoNumbered(g) && d < |g.s1| && g.s1[d].Some? && g.s2[d].Some? && b < |g.s1|
    requires (t == g.s1[d].value && e == g.s2[d].value) || (t == g.s2[d].value && e == g.s1[d].value)
    requires SDom(g, d, b) && LeavesBy(g, d, t, e, b)
    ensures BranchDom(g, d, t, e, b)
  {
    forall p | IsPathTo(g, p, b) ensures t in p {
      var k := LastOccurrence(p, d);
      assert LastVisit(g, p, k, d, b);
      assert p[k + 1] == t;
    }
    forall q ensures !IsPathAround(g, q, e, b, {d}) {
      if IsPathAround(g, q, e, b, {d}) {
        LeaveByOther(g, d, e, b, q);
      }
    }
  }

  lemma LeaveByOther(g: Cfg, d: nat, e: nat, b: nat, q: seq<nat>)
    requires RpoNumbered(g) && d < |g.s1| && Edge(g, d, e) && d != b && IsPathAround(g, q, e, b, {d})
    ensures exists p, k: nat :: LastVisit(g, p, k, d, b) && k + 1 < |p| && p[k + 1] == e
  {
    var h := LowPath(g, d);
    var p := h + q;
    var k: nat := |h| - 1;
    forall i | 0 < i < |p| ensures Edge(g, p[i - 1], p[i]) {
      if i > |h| {
        assert p[i] == q[i - |h|] && p[i - 1] == q[i - |h| - 1];
      } else if i == |h| {
        assert p[i] == q[0] && p[i - 1] == h[|h| - 1];
      }
    }
    forall i | 0 <= i < |p| ensures p[i] < |g.s1| {
      assert i >= |h| ==> p[i] == q[i - |h|];
    }
    assert p[|p| - 1] == q[|q| - 1];
    assert p[k + 1..] == q;
    forall i: nat | i < |q| ensures q[i] != d {
      if i == |q| - 1 {
        assert q[i] == b;
      }
    }
    assert LastVisit(g, p, k, d, b);
  }

  // After the last visit to y on the way to x, nothing above y is visited again.
  lemma NotRevisited(g: Cfg, c: nat, y: nat, x: nat, p: seq<nat>, k: nat)
    requires RpoNumbered(g) && c < |g.s1| && y < |g.s1| && x < |g.s1|
    requires Dom(g, c, y) && Dom(g, y, x) && LastVisit(g, p, k, y, x)
    ensures c !in p[k + 1..]
  {
    if c != y {
      var q := p[k + 1..];
      forall m: nat | m < |q| ensures q[m] != c {
        if q[m] == c {
          Bypass(g, c, y, x, p, k, m);
        }
      }
    }
  }

  // From c the path would go round y.
  lemma Bypass(g: Cfg, c: nat, y: nat, x: nat, p: seq<nat>, k: nat, m: nat)
    requires RpoNumbered(g) && c < |g.s1| && y < |g.s1| && x < |g.s1| && c != y && Dom(g, c, y)
    requires LastVisit(g, p, k, y, x) && k + 1 + m < |p| && p[k + 1 + m] == c
    ensures !Dom(g, y, x)
  {
    var h := LowPath(g, c);
    var t := p[k + 1 + m..];
    PathSuffix(g, p, k + 1 + m);
    PathJoin(g, h, t, 0, c, x);
    DomIsLower(g, c, y);
    assert y !in h;
    assert t == p[k + 1..][m..];
    assert y !in t[1..];
    assert IsPathTo(g, h + t[1..], x) && y !in h + t[1..];
  }

  // ---- zeroval ---------------------------------------------------------------------------------

  datatype Cls = Kw | Kl

  // A compare of a temporary with zero: eq is the result when it is zero.
  datatype CmpZ = CmpZ(arg: nat, cls: Cls, eq: bool)

  // What zeroval reads of the function: the temporary each Jjnz tests, the
  // block that defines each temporary, and which are compares with zero.
  datatype Info = Info(g: Cfg, jnz: seq<Option<nat>>, def: seq<nat>, cmp: seq<Option<CmpZ>>)

  ghost predicate WfInfo(v: Info) {
    && RpoNumbered(v.g) && |v.jnz| == |v.g.s1| && |v.cmp| == |v.def|
    && (forall d: nat :: d < |v.jnz| && v.jnz[d].Some? ==>
          v.g.s1[d].Some? && v.g.s2[d].Some? && v.jnz[d].value < |v.def| && Dom(v.g, v.def[v.jnz[d].value], d))
    && (forall t: nat :: t < |v.def| ==> v.def[t] < |v.g.s1|)
    && (forall t: nat :: t < |v.def| && v.cmp[t].Some? ==>
          v.cmp[t].value.arg < |v.def| && Dom(v.g, v.def[v.cmp[t].value.arg], v.def[t]))
  }

  function InCls(v: nat, k: Cls): nat {
    if k.Kw? then v % 0x1_0000_0000 else v
  }

  // One run along a path: the values of the temporaries at the end of each block.
  // A block only changes what it defines, a compare holds what it compared, and
  // a Jjnz goes to s1 exactly when the low word of its argument is not zero.
  ghost predicate Runs(v: Info, p: seq<nat>, env: seq<nat -> nat>)
    requires WfInfo(v)
  {
    && IsPath(v.g, p) && p[0] == 0 && |env| == |p|
    && (forall i: nat, t: nat :: 0 < i < |p| && t < |v.def| && v.def[t] != p[i] ==> env[i](t) == env[i - 1](t))
    && (forall i: nat, t: nat :: i < |p| && t < |v.def| && v.def[t] == p[i] ==> CmpHolds(v, env[i], t))
    && (forall i: nat :: i < |p| - 1 && v.jnz[p[i]].Some? ==>
          Some(p[i + 1]) == if InCls(env[i](v.jnz[p[i]].value), Kw) != 0 then v.g.s1[p[i]] else v.g.s2[p[i]])
  }

  ghost predicate CmpHolds(v: Info, e: nat -> nat, t: nat)
    requires t < |v.def| && WfInfo(v)
  {
    v.cmp[t].Some? ==>
      (InCls(e(t), Kw) != 0 <==> ((InCls(e(v.cmp[t].value.arg), v.cmp[t].value.cls) == 0) == v.cmp[t].value.eq))
  }

  // A value defined above y does not change after the last visit to y.
  lemma {:induction false} ValueKept(v: Info, p: seq<nat>, env: seq<nat -> nat>, k: nat, m: nat, t: nat)
    requires WfInfo(v) && Runs(v, p, env) && k <= m < |p| && t < |v.def|
    requires v.def[t] !in p[k + 1..]
    ensures env[m](t) == env[k](t)
  {
    if k < m {
      ValueKept(v, p, env, k, m - 1, t);
      assert p[k + 1..][m - k - 1] == p[m];
    }
  }

  // The edge a run takes out of d the last time tells the tested value at b.
  lemma TestedValue(v: Info, p: seq<nat>, env: seq<nat -> nat>, d: nat, b: nat, s1First: bool)
    requires WfInfo(v) && Runs(v, p, env) && p[|p| - 1] == b && b < |v.jnz| && d < |v.jnz| && v.jnz[d].Some? && SDom(v.g, d, b)
    requires var t, e := v.g.s1[d].value, v.g.s2[d].value;
             if s1First then LeavesBy(v.g, d, t, e, b) else LeavesBy(v.g, d, e, t, b)
    ensures InCls(env[|p| - 1](v.jnz[d].value), Kw) != 0 <==> s1First
    ensures v.def[v.jnz[d].value] !in p[LastOf(p, d) + 1..]
  {
    assert IsPathTo(v.g, p, b);
    assert d in p;
    var k := LastOf(p, d);
    assert LastVisit(v.g, p, k, d, b);
    var x := v.jnz[d].value;
    NotRevisited(v.g, v.def[x], d, b, p, k);
    ValueKept(v, p, env, k, |p| - 1, x);
  }

  ghost function LastOf(p: seq<nat>, x: nat): (k: nat)
    requires x in p
    ensures k < |p| && p[k] == x && x !in p[k + 1..]
  {
    if p[|p| - 1] == x then |p| - 1
    else
      assert x in p[..|p| - 1] by { var i :| 0 <= i < |p| && p[i] == x; assert p[..|p| - 1][i] == x; }
      var k := LastOf(p[..|p| - 1], x);
      assert p[k + 1..] == p[..|p| - 1][k + 1..] + [p[|p| - 1]];
      k
  }

  // A compare above d still holds when d is left for the last time.
  lemma CmpStillHolds(v: Info, p: seq<nat>, env: seq<nat -> nat>, k: nat, d: nat, t: nat)
    requires WfInfo(v) && Runs(v, p, env) && k < |p| && p[k] == d && d < |v.g.s1|
    requires t < |v.def| && v.cmp[t].Some? && Dom(v.g, v.def[t], d)
    ensures CmpHolds(v, env[k], t)
  {
    var q := p[..k + 1];
    PathPrefix(v.g, p, k + 1);
    assert IsPathTo(v.g, q, d) && v.def[t] in q;
    var j := LastOf(q, v.def[t]);
    assert LastVisit(v.g, q, j, v.def[t], d);
    DomRefl(v.g, v.def[t]);
    NotRevisited(v.g, v.def[t], v.def[t], d, q, j);
    NotRevisited(v.g, v.def[v.cmp[t].value.arg], v.def[t], d, q, j);
    RunsPrefix(v, p, env, k + 1);
    ValueKept(v, q, env[..k + 1], j, k, t);
    ValueKept(v, q, env[..k + 1], j, k, v.cmp[t].value.arg);
    assert CmpHolds(v, env[j], t);
  }

  // The same for the value a tested compare compared.
  lemma ComparedValue(v: Info, p: seq<nat>, env: seq<nat -> nat>, d: nat, b: nat, s1First: bool)
    requires WfInfo(v) && Runs(v, p, env) && p[|p| - 1] == b && b < |v.jnz| && d < |v.jnz| && v.jnz[d].Some? && SDom(v.g, d, b)
    requires v.cmp[v.jnz[d].value].Some?
    requires var t, e := v.g.s1[d].value, v.g.s2[d].value;
             if s1First then LeavesBy(v.g, d, t, e, b) else LeavesBy(v.g, d, e, t, b)
    ensures var c := v.cmp[v.jnz[d].value].value;
            (InCls(env[|p| - 1](c.arg), c.cls) == 0) <==> (s1First == c.eq)
  {
    hide LeavesBy;
    var x := v.jnz[d].value;
    var c := v.cmp[x].value;
    TestedValue(v, p, env, d, b, s1First);
    assert IsPathTo(v.g, p, b);
    var k := LastOf(p, d);
    assert LastVisit(v.g, p, k, d, b);
    CmpStillHolds(v, p, env, k, d, x);
    DomTrans(v.g, v.def[c.arg], v.def[x], d);
    NotRevisited(v.g, v.def[c.arg], d, b, p, k);
    ValueKept(v, p, env, k, |p| - 1, c.arg);
    ValueKept(v, p, env, k, |p| - 1, x);
    assert CmpHolds(v, env[k], x);
  }

  // How the jump of d answers for r at b: z is 1 for zero, 0 for non-zero.
  ghost predicate Answers(v: Info, d: nat, b: nat, r: nat, cls: Cls, z: bool)
    requires WfInfo(v)
  {
    && d < |v.jnz| && v.jnz[d].Some? && SDom(v.g, d, b)
    && (|| (r == v.jnz[d].value && cls == Kw && LeavesRight(v, d, b, !z))
        || (var c := v.cmp[v.jnz[d].value];
            c.Some? && r == c.value.arg && cls == c.value.cls && LeavesRight(v, d, b, z == c.value.eq)))
  }

  ghost predicate LeavesRight(v: Info, d: nat, b: nat, s1First: bool)
    requires WfInfo(v) && d < |v.jnz| && v.jnz[d].Some?
  {
    var t, e := v.g.s1[d].value, v.g.s2[d].value;
    if s1First then LeavesBy(v.g, d, t, e, b) else LeavesBy(v.g, d, e, t, b)
  }

  // What an answer means: however b is reached, r is zero there just when z says so.
  lemma AnswerIsTrue(v: Info, d: nat, b: nat, r: nat, cls: Cls, z: bool, p: seq<nat>, env: seq<nat -> nat>)
    requires WfInfo(v) && Answers(v, d, b, r, cls, z) && b < |v.jnz|
    requires Runs(v, p, env) && p[|p| - 1] == b
    ensures InCls(env[|p| - 1](r), cls) == 0 <==> z
  {
    hide LeavesBy;
    hide Runs;
    hide InCls;
    var c := v.cmp[v.jnz[d].value];
    if r == v.jnz[d].value && cls == Kw && LeavesRight(v, d, b, !z) {
      TestedValue(v, p, env, d, b, !z);
    } else {
      ComparedValue(v, p, env, d, b, z == c.value.eq);
    }
  }

  method BranchDominates(v: Info, dom: CfgPass.Fn, s: Search, d: nat, t: nat, e: nat, b: nat) returns (r: bool)
    requires RpoNumbered(v.g) && Wf(v.g) && dom.HasDoms() && dom.G() == v.g && s.G() == v.g && s.visit == {}
    requires d < |v.g.s1| && t < |v.g.s1| && e < |v.g.s1| && b < |v.g.s1| && b < |dom.idom| && t < |dom.idom|
    modifies s`visit
    ensures s.visit == {} && (r <==> BranchDom(v.g, d, t, e, b))
  {
    r := false;
    if b != d {
      var q := dom.Dominates(t, b);
      if q {
        var around := s.ReachesNotVia(Some(e), b, d);
        r := !around;
      }
    }
  }

  // domzero
  method DomZero(v: Info, dom: CfgPass.Fn, s: Search, d: nat, b: nat) returns (ok: bool, z: bool)
    requires WfInfo(v) && dom.HasDoms() && dom.G() == v.g && s.G() == v.g && s.visit == {}
    requires d < |v.jnz| && v.jnz[d].Some? && b < |v.jnz| && |dom.idom| == |v.jnz| && SDom(v.g, d, b)
    modifies s`visit
    ensures s.visit == {}
    ensures ok ==> LeavesRight(v, d, b, !z)
    ensures !ok ==> !LeavesRight(v, d, b, true) && !LeavesRight(v, d, b, false)
  {
    hide *;
    InfoParts(v, d, b);
    var t, e := v.g.s1[d].value, v.g.s2[d].value;
    BranchExact(v, d, b);
    ok := BranchDominates(v, dom, s, d, t, e, b);
    z := false;
    if !ok {
      ok := BranchDominates(v, dom, s, d, e, t, b);
      z := true;
    }
  }

  lemma BranchExact(v: Info, d: nat, b: nat)
    requires WfInfo(v) && d < |v.jnz| && v.jnz[d].Some? && b < |v.jnz| && SDom(v.g, d, b)
    ensures LeavesRight(v, d, b, true) <==> BranchDom(v.g, d, v.g.s1[d].value, v.g.s2[d].value, b)
    ensures LeavesRight(v, d, b, false) <==> BranchDom(v.g, d, v.g.s2[d].value, v.g.s1[d].value, b)
  {
    hide LeavesBy;
    hide BranchDom;
    var t, e := v.g.s1[d].value, v.g.s2[d].value;
    if LeavesBy(v.g, d, t, e, b) { LeavesIsBranchDom(v.g, d, t, e, b); }
    if LeavesBy(v.g, d, e, t, b) { LeavesIsBranchDom(v.g, d, e, t, b); }
    if BranchDom(v.g, d, t, e, b) { BranchDomLeaves(v.g, d, t, e, b); }
    if BranchDom(v.g, d, e, t, b) { BranchDomLeaves(v.g, d, e, t, b); }
  }

  // Of the blocks that strictly dominate b, those not at or above d do not answer.
  ghost predicate Looked(v: Info, idom: Idom, b: nat, r: nat, cls: Cls, d: Option<nat>)
    requires WfInfo(v)
  {
    && (d.Some? ==> d.value < |v.jnz| && SDom(v.g, d.value, b))
    && (forall x: nat, y: bool :: x < |v.jnz| && SDom(v.g, x, b) && !(d.Some? && Dom(v.g, x, d.value)) ==> !Answers(v, x, b, r, cls, y))
  }

  lemma DomParts(v: Info, dom: CfgPass.Fn)
    requires WfInfo(v) && dom.HasDoms() && dom.G() == v.g
    ensures |dom.idom| == |v.jnz|
    ensures forall x: nat :: x < |dom.idom| && dom.idom[x].Some? ==> dom.idom[x].value < x
  {
    forall x: nat | x < |dom.idom| && dom.idom[x].Some? ensures dom.idom[x].value < x {
    }
  }

  // The immediate dominator is the nearest.
  lemma ParentNearest(v: Info, dom: CfgPass.Fn, b: nat, x: nat)
    requires WfInfo(v) && dom.HasDoms() && dom.G() == v.g && b < |v.jnz| && x < |v.jnz|
    ensures SDom(v.g, x, b) <==> (|dom.idom| == |v.jnz| && dom.idom[b].Some? && dom.idom[b].value < |v.jnz| && Dom(v.g, x, dom.idom[b].value))
  {
    if dom.idom[b].Some? {
      var u := dom.idom[b].value;
      assert OnChain(dom.idom, x, b) <==> (x == b || OnChain(dom.idom, x, u));
      if OnChain(dom.idom, x, u) {
        ChainLow(dom.idom, x, u);
      }
    } else {
      assert OnChain(dom.idom, x, b) <==> x == b;
    }
  }

  lemma AboveStart(v: Info, dom: CfgPass.Fn, b: nat, r: nat, cls: Cls)
    requires WfInfo(v) && dom.HasDoms() && dom.G() == v.g && b < |v.jnz| && |dom.idom| == |v.jnz|
    ensures Looked(v, dom.idom, b, r, cls, dom.idom[b])
  {
    hide LeavesRight;
    forall x: nat | x < |v.jnz| ensures SDom(v.g, x, b) <==> (dom.idom[b].Some? && dom.idom[b].value < |v.jnz| && Dom(v.g, x, dom.idom[b].value)) {
      ParentNearest(v, dom, b, x);
    }
    DomParts(v, dom);
    if dom.idom[b].Some? {
      DomRefl(v.g, dom.idom[b].value);
    }
  }

  lemma NoAnswers(v: Info, x: nat, b: nat, r: nat, cls: Cls)
    requires WfInfo(v) && x < |v.jnz|
    requires v.jnz[x].Some? ==> v.jnz[x].value < |v.cmp|
    requires v.jnz[x].Some? && ((v.jnz[x].value == r && cls == Kw)
               || (v.cmp[v.jnz[x].value].Some? && v.cmp[v.jnz[x].value].value.arg == r && v.cmp[v.jnz[x].value].value.cls == cls))
             ==> !LeavesRight(v, x, b, true) && !LeavesRight(v, x, b, false)
    ensures forall y: bool :: !Answers(v, x, b, r, cls, y)
  {
    hide LeavesRight;
    forall y: bool ensures !Answers(v, x, b, r, cls, y) {
    }
  }

  lemma LookOn(v: Info, dom: CfgPass.Fn, b: nat, r: nat, cls: Cls, d: Option<nat>)
    requires WfInfo(v) && dom.HasDoms() && dom.G() == v.g && |dom.idom| == |v.jnz| && b < |v.jnz|
    requires d.Some? && d.value < |v.jnz| && Looked(v, dom.idom, b, r, cls, d)
    requires forall y: bool :: !Answers(v, d.value, b, r, cls, y)
    ensures Looked(v, dom.idom, b, r, cls, dom.idom[d.value])
  {
    hide Answers;
    var x := d.value;
    DomParts(v, dom);
    if dom.idom[x].Some? {
      DomRefl(v.g, dom.idom[x].value);
      ParentNearest(v, dom, x, dom.idom[x].value);
      DomTrans(v.g, dom.idom[x].value, x, b);
      DomIsLower(v.g, x, b);
    }
    forall c: nat, y: bool
      | c < |v.jnz| && SDom(v.g, c, b) && !(dom.idom[x].Some? && Dom(v.g, c, dom.idom[x].value))
      ensures !Answers(v, c, b, r, cls, y)
    {
      ParentNearest(v, dom, x, c);
    }
  }

  // zeroval: the nearest dominating jump that tells whether r is zero at b.
  method ZeroValue(v: Info, dom: CfgPass.Fn, s: Search, b: nat, r: nat, cls: Cls) returns (ok: bool, z: bool)
    requires WfInfo(v) && dom.HasDoms() && dom.G() == v.g && s.G() == v.g && s.visit == {} && b < |v.jnz|
    modifies s`visit
    ensures s.visit == {}
    ensures ok ==> exists d: nat :: Answers(v, d, b, r, cls, z)
    ensures !ok ==> forall d: nat, y: bool :: !Answers(v, d, b, r, cls, y)
  {
    hide *;
    DomParts(v, dom);
    InfoParts(v, b, b);
    AboveStart(v, dom, b, r, cls);
    var d := dom.idom[b];
    while d.Some?
      invariant s.visit == {} && dom.HasDoms() && s.G() == v.g
      invariant Looked(v, dom.idom, b, r, cls, d)
      decreases if d.Some? then d.value + 1 else 0
    {
      LookHere(v, dom.idom, b, r, cls, d);
      DomParts(v, dom);
      var x := d.value;
      InfoParts(v, x, b);
      if v.jnz[x].Some? {
        if v.jnz[x].value == r && cls == Kw {
          ok, z := DomZero(v, dom, s, x, b);
          AnswerDirect(v, x, b, r, cls, z);
          if ok {
            return;
          }
        }
        var c := v.cmp[v.jnz[x].value];
        if c.Some? && c.value.arg == r && c.value.cls == cls {
          ok, z := DomZero(v, dom, s, x, b);
          if ok {
            z := z != c.value.eq;
            AnswerCompared(v, x, b, r, cls, z);
            return;
          }
        }
      }
      NoAnswers(v, x, b, r, cls);
      LookOn(v, dom, b, r, cls, d);
      d := dom.idom[x];
    }
    AllLooked(v, dom.idom, b, r, cls, d);
    ok, z := false, false;
  }

  // ---- facts that unfold at once ----------------------------------------------------------

  lemma RunsPrefix(v: Info, p: seq<nat>, env: seq<nat -> nat>, n: nat)
    requires WfInfo(v) && Runs(v, p, env) && 0 < n <= |p|
    ensures Runs(v, p[..n], env[..n])
  {
  }

  lemma InfoParts(v: Info, d: nat, b: nat)
    requires WfInfo(v) && d < |v.jnz| && b < |v.jnz|
    ensures RpoNumbered(v.g) && Wf(v.g) && |v.jnz| == |v.g.s1| == |v.g.s2| && |v.cmp| == |v.def|
    ensures v.jnz[d].Some? ==> v.g.s1[d].Some? && v.g.s2[d].Some? && v.g.s1[d].value < |v.jnz| && v.g.s2[d].value < |v.jnz|
                               && v.jnz[d].value < |v.def|
  {
  }

  lemma LookHere(v: Info, idom: Idom, b: nat, r: nat, cls: Cls, d: Option<nat>)
    requires WfInfo(v) && Looked(v, idom, b, r, cls, d) && d.Some?
    ensures d.value < |v.jnz| && SDom(v.g, d.value, b)
  {
  }

  lemma AllLooked(v: Info, idom: Idom, b: nat, r: nat, cls: Cls, d: Option<nat>)
    requires WfInfo(v) && Looked(v, idom, b, r, cls, d) && d.None?
    ensures forall x: nat, y: bool :: !Answers(v, x, b, r, cls, y)
  {
  }

  lemma AnswerDirect(v: Info, d: nat, b: nat, r: nat, cls: Cls, z: bool)
    requires WfInfo(v) && d < |v.jnz| && v.jnz[d].Some? && SDom(v.g, d, b) && v.jnz[d].value == r && cls == Kw
    ensures LeavesRight(v, d, b, !z) ==> Answers(v, d, b, r, cls, z)
  {
  }

  lemma AnswerCompared(v: Info, d: nat, b: nat, r: nat, cls: Cls, z: bool)
    requires WfInfo(v) && d < |v.jnz| && v.jnz[d].Some? && SDom(v.g, d, b) && v.jnz[d].value < |v.cmp|
    requires v.cmp[v.jnz[d].value].Some? && v.cmp[v.jnz[d].value].value.arg == r && v.cmp[v.jnz[d].value].value.cls == cls
    requires LeavesRight(v, d, b, z == v.cmp[v.jnz[d].value].value.eq)
    ensures Answers(v, d, b, r, cls, z)
  {
  }
}
