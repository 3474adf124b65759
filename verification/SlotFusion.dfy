// opt/mem.c: live ranges of stack slots and the fusion of slots by decreasing size.
module SlotFusion {

  // [a, b); b == 0 stands for the empty range.
  datatype Range = Range(a: nat, b: nat)

  predicate Proper(r: Range) {
    r.b == 0 || r.a < r.b
  }

  predicate Rin(r: Range, n: int) {
    r.a <= n < r.b
  }

  predicate Rovlap(r0: Range, r1: Range) {
    r0.b != 0 && r1.b != 0 && r0.a < r1.b && r1.a < r0.b
  }

  // radd: the smallest range that takes in n as well.
  function Radd(r: Range, n: nat): Range {
    if r.b == 0 then Range(n, n + 1)
    else if n < r.a then Range(n, r.b)
    else if n >= r.b then Range(r.a, n + 1)
    else r
  }

  // Ranges overlap exactly when some point is in both.
  lemma RovlapIsCommonPoint(r0: Range, r1: Range)
    requires Proper(r0) && Proper(r1)
    ensures Rovlap(r0, r1) <==> exists n: nat :: Rin(r0, n) && Rin(r1, n)
  {
    if Rovlap(r0, r1) {
      var n := if r0.a < r1.a then r1.a else r0.a;
      assert Rin(r0, n) && Rin(r1, n);
    }
  }

  predicate Within(r: Range, h: Range) {
    r.b == 0 || (h.b != 0 && h.a <= r.a && r.b <= h.b)
  }

  datatype Slot = Slot(sz: nat, r: Range)

  // scmp: larger slots first, then those that are live earlier.
  function Scmp(x: Slot, y: Slot): int {
    if x.sz != y.sz then y.sz - x.sz else x.r.a - y.r.a
  }

  ghost predicate Sorted(sl: seq<Slot>) {
    forall i, j :: 0 <= i < j < |sl| ==> Scmp(sl[i], sl[j]) <= 0
  }

  // What the fusion promises: slots with the same representative are never live
  // together, and fit into it.
  ghost predicate Fused(sl: seq<Slot>, rep: seq<nat>) {
    && |rep| == |sl|
    && (forall i: nat :: i < |rep| ==> rep[i] <= i && rep[rep[i]] == rep[i] && sl[i].sz <= sl[rep[i]].sz)
    && (forall i: nat, j: nat :: i < j < |rep| && rep[i] == rep[j] ==> !Rovlap(sl[i].r, sl[j].r))
  }

  // And no slot stays on its own without need: each earlier group had a member in its way.
  ghost predicate Greedy(sl: seq<Slot>, rep: seq<nat>)
    requires |rep| == |sl|
  {
    forall i: nat, j: nat :: i < j < |rep| && rep[i] == i && rep[j] == j && sl[j].r.b != 0 ==> InTheWay(sl, rep, i, j)
  }

  ghost predicate InTheWay(sl: seq<Slot>, rep: seq<nat>, i: nat, j: nat)
    requires |rep| == |sl| && j < |sl|
  {
    exists m: nat :: i <= m < j && rep[m] == i && Rovlap(sl[m].r, sl[j].r)
  }

  // Slots below n have been through the outer loop; NONE marks those without a place.
  const NONE: int := -1

  ghost predicate OuterOk(sl: seq<Slot>, s: seq<int>, n: nat) {
    && n <= |s| == |sl|
    && (forall i: nat :: i < |s| ==> s[i] == NONE || Placed(sl, s, i, n))
    && (forall i: nat :: i < n ==> s[i] != NONE)
    && (forall i: nat, j: nat :: i < j < |s| && s[i] != NONE && s[i] == s[j] ==> !Rovlap(sl[i].r, sl[j].r))
    && (forall i: nat, j: nat :: i < n && i < j < |s| && s[i] == i && (s[j] == NONE || s[j] == j) && sl[j].r.b != 0 ==> Blocked(sl, s, i, j))
  }

  ghost predicate Placed(sl: seq<Slot>, s: seq<int>, i: nat, n: nat)
    requires i < |s| == |sl|
  {
    0 <= s[i] <= i && s[i] < n && s[s[i]] == s[i] && sl[i].sz <= sl[s[i]].sz
  }

  ghost predicate Blocked(sl: seq<Slot>, s: seq<int>, i: nat, j: nat)
    requires j < |s| == |sl|
  {
    exists m: nat :: i <= m < j && s[m] == i && Rovlap(sl[m].r, sl[j].r)
  }

  // The inner loop for representative n has reached slot k; r is the group's hull.
  ghost predicate InnerOk(sl: seq<Slot>, s0: seq<int>, s: seq<int>, n: nat, k: nat, r: Range) {
    && OuterOk(sl, s0, n) && n < k <= |s| == |s0| && s0[n] == NONE && s[n] == n
    && (forall i: nat :: i < |s| && i != n && (i >= k || s0[i] != NONE) ==> s[i] == s0[i])
    && (forall i: nat :: i < |s| && s0[i] == NONE ==> s[i] == NONE || (s[i] == n && n <= i < k))
    && (forall i: nat :: i < |s| && s[i] == n ==> Within(sl[i].r, r) && Proper(sl[i].r))
    && Proper(r)
    && (forall i: nat, j: nat :: i < j < |s| && s[i] == n && s[j] == n ==> !Rovlap(sl[i].r, sl[j].r))
    && (forall j: nat :: n < j < k && s[j] == NONE && sl[j].r.b != 0 ==> Blocked(sl, s, n, j))
  }

  method Fuse(sl: seq<Slot>) returns (rep: seq<nat>)
    requires Sorted(sl) && forall i :: 0 <= i < |sl| ==> Proper(sl[i].r)
    ensures Fused(sl, rep) && Greedy(sl, rep)
  {
    hide *;
    var s: seq<int> := seq(|sl|, _ => NONE);
    FuseStart(sl, s);
    var n: nat := 0;
    while n < |sl|
      invariant n <= |sl| == |s| && OuterOk(sl, s, n)
    {
      if s[n] == NONE {
        ghost var s0 := s;
        s := s[n := n];
        var r := sl[n].r;
        InnerStart(sl, s0, n);
        var k: nat := n + 1;
        while k < |sl|
          invariant n < k <= |sl| == |s| && InnerOk(sl, s0, s, n, k, r)
        {
          var skip := s[k] != NONE || sl[k].r.b == 0;
          if !skip && Rovlap(r, sl[k].r) {
            var m: nat := n;
            while m < k && !skip
              invariant n <= m <= k && |s| == |sl|
              invariant skip ==> Blocked(sl, s, n, k)
              invariant !skip ==> forall i: nat :: n <= i < m && s[i] == n ==> !Rovlap(sl[i].r, sl[k].r)
              decreases k - m, !skip
            {
              if s[m] == n && Rovlap(sl[m].r, sl[k].r) {
                skip := true;
                BlockedBy(sl, s, n, k, m);
              } else {
                m := m + 1;
              }
            }
          }
          if skip {
            InnerSkip(sl, s0, s, n, k, r);
          } else {
            InnerJoin(sl, s0, s, n, k, r);
            r := Radd(r, sl[k].r.a);
            r := Radd(r, sl[k].r.b - 1);
            s := s[k := n];
          }
          k := k + 1;
        }
        InnerEnd(sl, s0, s, n, r);
      } else {
        OuterSkip(sl, s, n);
      }
      n := n + 1;
    }
    rep := AllPlaced(sl, s);
  }

  method AllPlaced(sl: seq<Slot>, s: seq<int>) returns (rep: seq<nat>)
    requires OuterOk(sl, s, |sl|)
    ensures Fused(sl, rep) && Greedy(sl, rep)
  {
    rep := seq(|s|, i requires 0 <= i < |s| => if s[i] >= 0 then s[i] else 0);
    forall i: nat | i < |s| ensures rep[i] == s[i] && rep[i] <= i && rep[rep[i]] == rep[i] && sl[i].sz <= sl[rep[i]].sz {
      assert Placed(sl, s, i, |sl|);
    }
    forall i: nat, j: nat | i < j < |rep| && rep[i] == i && rep[j] == j && sl[j].r.b != 0 ensures InTheWay(sl, rep, i, j) {
      assert Blocked(sl, s, i, j);
      var m: nat :| i <= m < j && s[m] == i && Rovlap(sl[m].r, sl[j].r);
      assert rep[m] == i;
    }
  }

  lemma InnerStart(sl: seq<Slot>, s0: seq<int>, n: nat)
    requires OuterOk(sl, s0, n) && n < |sl| == |s0| && s0[n] == NONE && Proper(sl[n].r)
    ensures InnerOk(sl, s0, s0[n := n], n, n + 1, sl[n].r)
  {
    forall i: nat | i < |s0| && s0[i] != NONE ensures s0[i] != n {
      assert Placed(sl, s0, i, n);
    }
  }

  lemma InnerSkip(sl: seq<Slot>, s0: seq<int>, s: seq<int>, n: nat, k: nat, r: Range)
    requires InnerOk(sl, s0, s, n, k, r) && k < |sl| == |s|
    requires s[k] != NONE || sl[k].r.b == 0 || Blocked(sl, s, n, k)
    ensures InnerOk(sl, s0, s, n, k + 1, r)
  {
    hide OuterOk;
  }

  // What lies outside the hull overlaps no member.
  lemma InnerJoin(sl: seq<Slot>, s0: seq<int>, s: seq<int>, n: nat, k: nat, r: Range)
    requires InnerOk(sl, s0, s, n, k, r) && k < |sl| == |s| && s[k] == NONE && sl[k].r.b != 0 && Proper(sl[k].r)
    requires !Rovlap(r, sl[k].r) || forall i: nat :: n <= i < k && s[i] == n ==> !Rovlap(sl[i].r, sl[k].r)
    ensures InnerOk(sl, s0, s[k := n], n, k + 1, Radd(Radd(r, sl[k].r.a), sl[k].r.b - 1))
  {
    hide OuterOk;
    RaddIsHull(r, sl[k].r);
    var s1 := s[k := n];
    forall i: nat | i < |s| && s[i] == n ensures !Rovlap(sl[i].r, sl[k].r) && i < k {
      assert s0[i] == NONE || i == n || s[i] == s0[i];
      FromOuter(sl, s0, n, i);
    }
    forall j: nat | n < j < k + 1 && s1[j] == NONE && sl[j].r.b != 0 ensures Blocked(sl, s1, n, j) {
      assert Blocked(sl, s, n, j);
      var m: nat :| n <= m < j && s[m] == n && Rovlap(sl[m].r, sl[j].r);
      assert s1[m] == n;
    }
  }

  lemma FromOuter(sl: seq<Slot>, s0: seq<int>, n: nat, i: nat)
    requires OuterOk(sl, s0, n) && i < |s0|
    ensures s0[i] != n
  {
    if s0[i] != NONE {
      assert Placed(sl, s0, i, n);
    }
  }

  lemma InnerPlaced(sl: seq<Slot>, s0: seq<int>, s: seq<int>, n: nat, r: Range, i: nat)
    requires Sorted(sl) && InnerOk(sl, s0, s, n, |sl|, r) && n < |sl| == |s|
    requires i < |s| && s[i] != NONE
    ensures Placed(sl, s, i, n + 1)
  {
    if s[i] == n {
      FromOuter(sl, s0, n, i);
      assert i == n || s0[i] == NONE;
      assert i > n ==> Scmp(sl[n], sl[i]) <= 0;
    } else {
      assert Placed(sl, s0, i, n);
      assert s0[s0[i]] != NONE;
    }
  }

  lemma InnerBlocked(sl: seq<Slot>, s0: seq<int>, s: seq<int>, n: nat, r: Range, i: nat, j: nat)
    requires Sorted(sl) && InnerOk(sl, s0, s, n, |sl|, r) && n < |sl| == |s|
    requires i < n + 1 && i < j < |s| && s[i] == i && (s[j] == NONE || s[j] == j) && sl[j].r.b != 0
    ensures Blocked(sl, s, i, j)
  {
    if i < n {
      assert s0[i] == i;
      if s0[j] != NONE {
        assert s[j] == s0[j];
      }
      assert Blocked(sl, s0, i, j);
      var m: nat :| i <= m < j && s0[m] == i && Rovlap(sl[m].r, sl[j].r);
      assert s[m] == i;
    } else {
      FromOuter(sl, s0, n, j);
      LaterHasNone(sl, s0, s, n, j, r);
      assert Blocked(sl, s, n, j);
    }
  }

  lemma InnerApart(sl: seq<Slot>, s0: seq<int>, s: seq<int>, n: nat, r: Range, i: nat, j: nat)
    requires Sorted(sl) && InnerOk(sl, s0, s, n, |sl|, r) && n < |sl| == |s|
    requires i < j < |s| && s[i] != NONE && s[i] == s[j]
    ensures !Rovlap(sl[i].r, sl[j].r)
  {
    hide Rovlap;
    FromOuter(sl, s0, n, i);
    FromOuter(sl, s0, n, j);
  }

  lemma InnerEnd(sl: seq<Slot>, s0: seq<int>, s: seq<int>, n: nat, r: Range)
    requires Sorted(sl) && InnerOk(sl, s0, s, n, |sl|, r) && n < |sl| == |s|
    ensures OuterOk(sl, s, n + 1)
  {
    hide Placed;
    hide Blocked;
    hide Rovlap;
    forall i: nat | i < |s| && s[i] != NONE ensures Placed(sl, s, i, n + 1) {
      InnerPlaced(sl, s0, s, n, r, i);
    }
    forall i: nat, j: nat | i < j < |s| && s[i] != NONE && s[i] == s[j] ensures !Rovlap(sl[i].r, sl[j].r) {
      InnerApart(sl, s0, s, n, r, i, j);
    }
    forall i: nat, j: nat | i < n + 1 && i < j < |s| && s[i] == i && (s[j] == NONE || s[j] == j) && sl[j].r.b != 0
      ensures Blocked(sl, s, i, j)
    {
      InnerBlocked(sl, s0, s, n, r, i, j);
    }
  }

  // After n, nothing has itself for a place yet.
  lemma LaterHasNone(sl: seq<Slot>, s0: seq<int>, s: seq<int>, n: nat, j: nat, r: Range)
    requires InnerOk(sl, s0, s, n, |sl|, r) && n < j < |sl| && (s[j] == NONE || s[j] == j)
    ensures s[j] == NONE
  {
    if s0[j] != NONE {
      assert Placed(sl, s0, j, n);
    }
  }

  lemma OuterSkip(sl: seq<Slot>, s: seq<int>, n: nat)
    requires OuterOk(sl, s, n) && n < |sl| == |s| && s[n] != NONE
    ensures OuterOk(sl, s, n + 1)
  {
    assert Placed(sl, s, n, n);
    forall i: nat | i < |s| && s[i] != NONE ensures Placed(sl, s, i, n + 1) {
      assert Placed(sl, s, i, n);
    }
  }

  // ---- facts that unfold at once ----------------------------------------------------------

  // The hull of two ranges, as two calls of radd make it.
  lemma RaddIsHull(h: Range, r: Range)
    requires Proper(h) && Proper(r) && r.b != 0
    ensures var h2 := Radd(Radd(h, r.a), r.b - 1);
            && Proper(h2) && Within(h, h2) && Within(r, h2)
            && (forall w: Range :: Proper(w) && Within(h, w) && Within(r, w) ==> Within(h2, w))
  {
  }

  lemma FuseStart(sl: seq<Slot>, s: seq<int>)
    requires |s| == |sl| && forall i :: 0 <= i < |s| ==> s[i] == NONE
    ensures OuterOk(sl, s, 0)
  {
  }

  lemma BlockedBy(sl: seq<Slot>, s: seq<int>, i: nat, j: nat, m: nat)
    requires j < |s| == |sl| && i <= m < j && s[m] == i && Rovlap(sl[m].r, sl[j].r)
    ensures Blocked(sl, s, i, j)
  {
  }
}
