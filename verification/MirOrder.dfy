// mir/gvn.c, blk_post, and mir/mem2reg.c, m2r_postorder (the same walk twice): the
// iterative search with its explicit stack, and the reverse postorder taken from it.
module MirOrder {
  import opened Graph
  import opened Rpo

  // A postorder of the reachable blocks: the start last, all successors in it, each before
  // its predecessor or leading back to it, and each block but the start with a predecessor
  // after it.
  ghost predicate IsPostorder(g: Cfg, post: seq<nat>) {
    && Wf(g)
    && |post| > 0 && post[|post| - 1] == g.start
    && (forall k: nat :: k < |post| ==> post[k] < |g.s1|)
    && OnceEach(post)
    && SuccsIn(g, post) && ChildrenFirst(g, post)
    && (forall k: nat :: k < |post| - 1 ==> ParentAfter(g, post, k))
  }

  ghost predicate SuccsIn(g: Cfg, post: seq<nat>) {
    forall k: nat, c: nat :: k < |post| && Edge(g, post[k], c) ==> c in post
  }

  // ---- the state of the search ------------------------------------------------------------

  ghost predicate Parented(g: Cfg, st: seq<nat>, post: seq<nat>, k: nat)
    requires k < |post|
  {
    ParentAfter(g, post, k) || ParentOn(g, st, post[k])
  }

  ghost predicate ParentOn(g: Cfg, st: seq<nat>, b: nat) {
    exists i: nat :: i < |st| && Edge(g, st[i], b)
  }

  ghost predicate OnceEach(q: seq<nat>) {
    forall i: nat, j: nat :: i < j < |q| ==> q[i] != q[j]
  }

  // What is marked is on the stack or done, and not both.
  ghost predicate Marks(visit: seq<bool>, st: seq<nat>, post: seq<nat>) {
    && (forall b: nat :: (b in st || b in post) <==> (b < |visit| && visit[b]))
    && (forall b: nat :: b in st ==> b !in post)
    && OnceEach(st) && OnceEach(post)
  }

  // The stack is a path from the start.
  ghost predicate IsTrail(g: Cfg, st: seq<nat>) {
    && (forall i: nat :: 0 < i < |st| ==> Edge(g, st[i - 1], st[i]))
    && (|st| > 0 ==> st[0] == g.start)
  }

  predicate Marked(visit: seq<bool>, b: nat) {
    b < |visit| && visit[b]
  }

  ghost predicate SuccsMarked(g: Cfg, visit: seq<bool>, post: seq<nat>) {
    forall k: nat, c: nat :: k < |post| && Edge(g, post[k], c) ==> Marked(visit, c)
  }

  ghost predicate AllParented(g: Cfg, st: seq<nat>, post: seq<nat>) {
    forall k: nat :: k < |post| && post[k] != g.start ==> Parented(g, st, post, k)
  }

  ghost predicate Searching(g: Cfg, visit: seq<bool>, st: seq<nat>, post: seq<nat>) {
    && Wf(g) && |visit| == |g.s1|
    && Marks(visit, st, post) && IsTrail(g, st) && SuccsMarked(g, visit, post) && AllParented(g, st, post)
    && ChildrenFirst(g, post)
    && (|st| == 0 ==> |post| > 0 && post[|post| - 1] == g.start)
  }

  ghost function Unseen(visit: seq<bool>): set<nat> {
    set b: nat | b < |visit| && !visit[b]
  }

  lemma SearchStarts(g: Cfg)
    requires Wf(g)
    ensures Searching(g, seq(|g.s1|, _ => false)[g.start := true], [g.start], [])
  {
  }

  lemma MarksPush(visit: seq<bool>, st: seq<nat>, post: seq<nat>, c: nat)
    requires Marks(visit, st, post) && c < |visit| && !visit[c]
    ensures Marks(visit[c := true], st + [c], post)
  {
    var st' := st + [c];
    assert forall b: nat :: b in st' <==> b in st || b == c;
    assert c !in st && c !in post;
  }

  lemma MarksPop(visit: seq<bool>, st: seq<nat>, post: seq<nat>)
    requires Marks(visit, st, post) && |st| > 0
    ensures Marks(visit, st[..|st| - 1], post + [st[|st| - 1]])
  {
    var b := st[|st| - 1];
    var st', post' := st[..|st| - 1], post + [b];
    assert st == st' + [b];
    assert b in st;
    assert forall x: nat :: x in st <==> x in st' || x == b;
    assert forall x: nat :: x in post' <==> x in post || x == b;
    assert b !in st' by {
      assert forall i: nat :: i < |st'| ==> st'[i] == st[i] != b;
    }
  }

  lemma TrailPush(g: Cfg, st: seq<nat>, c: nat)
    requires IsTrail(g, st) && |st| > 0 && Edge(g, st[|st| - 1], c)
    ensures IsTrail(g, st + [c])
  {
    var st' := st + [c];
    forall i: nat | 0 < i < |st'| ensures Edge(g, st'[i - 1], st'[i]) {
      assert st'[i - 1] == st[i - 1];
      assert i < |st| ==> st'[i] == st[i];
    }
  }

  lemma ParentsPush(g: Cfg, st: seq<nat>, post: seq<nat>, c: nat)
    requires AllParented(g, st, post)
    ensures AllParented(g, st + [c], post)
  {
    var st' := st + [c];
    forall k: nat | k < |post| && post[k] != g.start ensures Parented(g, st', post, k) {
      assert Parented(g, st, post, k);
      if ParentOn(g, st, post[k]) {
        var i: nat :| i < |st| && Edge(g, st[i], post[k]);
        assert st'[i] == st[i];
      }
    }
  }

  lemma SuccsPush(g: Cfg, visit: seq<bool>, post: seq<nat>, b: nat)
    requires SuccsMarked(g, visit, post) && b < |visit|
    ensures SuccsMarked(g, visit[b := true], post)
  {
    forall k: nat, c: nat | k < |post| && Edge(g, post[k], c) ensures Marked(visit[b := true], c) {
      assert Marked(visit, c);
    }
  }

  lemma Push(g: Cfg, visit: seq<bool>, st: seq<nat>, post: seq<nat>, c: nat)
    requires Searching(g, visit, st, post) && |st| > 0 && Edge(g, st[|st| - 1], c) && c < |visit| && !visit[c]
    ensures Searching(g, visit[c := true], st + [c], post)
    ensures Unseen(visit[c := true]) < Unseen(visit)
  {
    hide Marks;
    hide IsTrail;
    hide AllParented;
    assert c in Unseen(visit);
    hide ChildrenFirst;
    SuccsPush(g, visit, post, c);
    MarksPush(visit, st, post, c);
    TrailPush(g, st, c);
    ParentsPush(g, st, post, c);
  }

  lemma SuccsPop(g: Cfg, visit: seq<bool>, post: seq<nat>, b: nat)
    requires SuccsMarked(g, visit, post) && forall c: nat :: Edge(g, b, c) ==> Marked(visit, c)
    ensures SuccsMarked(g, visit, post + [b])
  {
    var post' := post + [b];
    forall k: nat, c: nat | k < |post'| && Edge(g, post'[k], c) ensures Marked(visit, c) {
      if k < |post| {
        assert Edge(g, post[k], c);
      } else {
        assert Edge(g, b, c);
      }
    }
  }

  lemma ParentsPop(g: Cfg, st: seq<nat>, post: seq<nat>)
    requires AllParented(g, st, post) && IsTrail(g, st) && |st| > 0
    ensures AllParented(g, st[..|st| - 1], post + [st[|st| - 1]])
  {
    hide Parented;
    var b := st[|st| - 1];
    var st', post' := st[..|st| - 1], post + [b];
    forall k: nat | k < |post'| && post'[k] != g.start ensures Parented(g, st', post', k) {
      if k == |post| {
        assert Edge(g, st[|st| - 2], st[|st| - 1]);
        OnStack(g, st', post', k, |st'| - 1);
      } else {
        assert post'[k] == post[k];
        assert Parented(g, st, post, k);
        ParentKept(g, st, post, k);
      }
    }
  }

  lemma OnStack(g: Cfg, st: seq<nat>, post: seq<nat>, k: nat, i: nat)
    requires k < |post| && i < |st| && Edge(g, st[i], post[k])
    ensures Parented(g, st, post, k)
  {
  }

  lemma Pop(g: Cfg, visit: seq<bool>, st: seq<nat>, post: seq<nat>)
    requires Searching(g, visit, st, post) && |st| > 0
    requires forall c: nat :: Edge(g, st[|st| - 1], c) ==> Marked(visit, c)
    ensures Searching(g, visit, st[..|st| - 1], post + [st[|st| - 1]])
  {
    hide Marks;
    hide AllParented;
    hide SuccsMarked;
    hide ChildrenFirst;
    ChildrenPop(g, visit, st, post);
    MarksPop(visit, st, post);
    SuccsPop(g, visit, post, st[|st| - 1]);
    ParentsPop(g, st, post);
    var st' := st[..|st| - 1];
    forall i: nat | 0 < i < |st'| ensures Edge(g, st'[i - 1], st'[i]) {
      assert st'[i - 1] == st[i - 1] && st'[i] == st[i];
    }
  }

  lemma ChildrenPop(g: Cfg, visit: seq<bool>, st: seq<nat>, post: seq<nat>)
    requires Marks(visit, st, post) && IsTrail(g, st) && ChildrenFirst(g, post) && |st| > 0 && |visit| == |g.s1|
    requires forall c: nat :: Edge(g, st[|st| - 1], c) ==> Marked(visit, c)
    ensures ChildrenFirst(g, post + [st[|st| - 1]])
  {
    hide ChildrenFirst;
    hide Leads;
    var b := st[|st| - 1];
    forall k: nat | k < |st| ensures st[k] < |g.s1| {
      assert st[k] in st;
    }
    forall c: nat | Edge(g, b, c) ensures c in post || Leads(g, c, b) {
      if c !in post {
        assert Marked(visit, c) && c in st;
        var i: nat :| i < |st| && st[i] == c;
        TrailLeads(g, st, i);
      }
    }
    ChildrenSnoc(g, post, b);
  }

  lemma ParentKept(g: Cfg, st: seq<nat>, post: seq<nat>, k: nat)
    requires |st| > 0 && k < |post| && Parented(g, st, post, k)
    ensures Parented(g, st[..|st| - 1], post + [st[|st| - 1]], k)
  {
    var st', post' := st[..|st| - 1], post + [st[|st| - 1]];
    if ParentAfter(g, post, k) {
      var j: nat :| k < j < |post| && Edge(g, post[j], post[k]);
      assert Edge(g, post'[j], post'[k]);
    } else {
      var i: nat :| i < |st| && Edge(g, st[i], post[k]);
      if i == |st| - 1 {
        assert Edge(g, post'[|post|], post'[k]);
      } else {
        assert Edge(g, st'[i], post'[k]);
      }
    }
  }

  lemma MarkedIsDone(visit: seq<bool>, post: seq<nat>, b: nat)
    requires Marks(visit, [], post)
    ensures b in post <==> Marked(visit, b)
  {
  }

  lemma SearchEnds(g: Cfg, visit: seq<bool>, post: seq<nat>)
    requires Searching(g, visit, [], post)
    ensures IsPostorder(g, post)
  {
    hide Marks;
    hide SuccsIn;
    hide ParentAfter;
    hide ChildrenFirst;
    SuccsDone(g, visit, post);
    MarksOnce(visit, post);
    forall k: nat | k < |post| ensures post[k] < |g.s1| {
      assert post[k] in post;
      MarkedIsDone(visit, post, post[k]);
    }
    forall k: nat | k < |post| - 1 ensures ParentAfter(g, post, k) {
      assert post[k] != post[|post| - 1];
      assert Parented(g, [], post, k);
    }
  }

  lemma MarksOnce(visit: seq<bool>, post: seq<nat>)
    requires Marks(visit, [], post)
    ensures OnceEach(post)
  {
  }

  lemma SuccsDone(g: Cfg, visit: seq<bool>, post: seq<nat>)
    requires Marks(visit, [], post) && SuccsMarked(g, visit, post)
    ensures SuccsIn(g, post)
  {
    hide Marks;
    forall k: nat, c: nat | k < |post| && Edge(g, post[k], c) ensures c in post {
      MarkedIsDone(visit, post, c);
    }
  }

  lemma TopLow(g: Cfg, visit: seq<bool>, st: seq<nat>, post: seq<nat>)
    requires Searching(g, visit, st, post) && |st| > 0
    ensures st[|st| - 1] < |g.s1| == |g.s2| == |visit|
    ensures var b := st[|st| - 1];
            && (g.s1[b].Some? ==> g.s1[b].value < |visit| && Edge(g, b, g.s1[b].value))
            && (g.s2[b].Some? ==> g.s2[b].value < |visit| && Edge(g, b, g.s2[b].value))
    ensures var b := st[|st| - 1]; forall c: nat :: Edge(g, b, c) ==> g.s1[b] == Some(c) || g.s2[b] == Some(c)
  {
    assert st[|st| - 1] in st;
  }

  // blk_post
  method BlkPost(g: Cfg) returns (post: seq<nat>)
    requires Wf(g)
    ensures IsPostorder(g, post)
  {
    SearchStarts(g);
    hide Searching;
    hide IsPostorder;
    var visit := seq(|g.s1|, _ => false)[g.start := true];
    var st: seq<nat> := [g.start];
    post := [];
    while |st| > 0
      invariant Searching(g, visit, st, post)
      decreases Unseen(visit), |st|
    {
      TopLow(g, visit, st, post);
      var b := st[|st| - 1];
      var c: Option<nat> := None;
      if g.s1[b].Some? && !visit[g.s1[b].value] {
        c := g.s1[b];
      } else if g.s2[b].Some? && !visit[g.s2[b].value] {
        c := g.s2[b];
      }
      if c.Some? {
        Push(g, visit, st, post, c.value);
        visit := visit[c.value := true];
        st := st + [c.value];
      } else {
        Pop(g, visit, st, post);
        post := post + [b];
        st := st[..|st| - 1];
      }
    }
    assert st == [];
    SearchEnds(g, visit, post);
  }

  // ---- reverse postorder -------------------------------------------------------------------

  // The order reversed, and each block's place in it, -1 for the unreachable ones.
  method RpoOf(g: Cfg) returns (ridx: seq<int>, rpo: seq<nat>)
    requires Wf(g)
    ensures IsRpo(g, ridx, rpo) && ForwardOrLoop(g, rpo)
  {
    var post := BlkPost(g);
    PostorderIsSearched(g, post);
    ghost var id := Places(g, post);
    hide IsPostorder;
    hide Searched;
    rpo := [];
    ridx := seq(|g.s1|, _ => -1);
    var i: nat := 0;
    while i < |post|
      invariant i <= |post| && |rpo| == i && |ridx| == |g.s1| == |id|
      invariant forall k: nat :: k < i ==> rpo[k] == post[|post| - 1 - k]
      invariant forall b: nat :: b < |ridx| ==>
                  ridx[b] == if id[b] != -1 && |post| - 1 - id[b] < i then |post| - 1 - id[b] else -1
    {
      PlacesAre(g, post, |post| - 1 - i);
      var b := post[|post| - 1 - i];
      rpo := rpo + [b];
      ridx := ridx[b := i];
      i := i + 1;
    }
    ReversedIsRpo(g, id, post, ridx, rpo);
    OrderParts(g, post);
    ForwardReversed(g, post, rpo);
  }

  lemma OrderParts(g: Cfg, post: seq<nat>)
    requires IsPostorder(g, post)
    ensures ChildrenFirst(g, post) && forall i: nat, j: nat :: i < j < |post| ==> post[i] != post[j]
  {
  }

  // The place of each block in post, -1 for those not in it.
  ghost function Places(g: Cfg, post: seq<nat>): seq<int> {
    seq(|g.s1|, b requires 0 <= b < |g.s1| => if b in post then PlaceOf(post, b) else -1)
  }

  lemma PlacesAre(g: Cfg, post: seq<nat>, k: nat)
    requires IsPostorder(g, post) && k < |post|
    ensures post[k] < |g.s1| && Places(g, post)[post[k]] == k
    ensures forall b: nat :: b < |g.s1| && Places(g, post)[b] == k ==> b == post[k]
    ensures forall b: nat :: b < |g.s1| ==> -1 <= Places(g, post)[b] < |post|
  {
    PlaceIs(post, k);
  }

  ghost function PlaceOf(post: seq<nat>, b: nat): (k: nat)
    requires b in post
    ensures k < |post| && post[k] == b
  {
    var k: nat :| k < |post| && post[k] == b;
    k
  }

  lemma PlaceIs(post: seq<nat>, k: nat)
    requires k < |post| && OnceEach(post)
    ensures PlaceOf(post, post[k]) == k
  {
    Apart(post, PlaceOf(post, post[k]), k);
  }

  lemma Apart(post: seq<nat>, i: nat, j: nat)
    requires i < |post| && j < |post| && OnceEach(post)
    ensures post[i] == post[j] ==> i == j
  {
  }

  lemma PostorderIsSearched(g: Cfg, post: seq<nat>)
    requires IsPostorder(g, post)
    ensures Searched(g, Places(g, post), post)
    ensures forall b: nat :: b < |g.s1| ==> -1 <= Places(g, post)[b] < |post|
  {
    var id := Places(g, post);
    forall k: nat | k < |post| ensures post[k] < |id| && id[post[k]] == k {
      PlaceIs(post, k);
    }
    forall k: nat | k < |post| ensures SuccsVisited(g, id, post[k]) {
    }
  }
}
