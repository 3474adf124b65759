// mir/mem2reg.c, mmem2reg: candidates, placement, probe, retraction, renaming,
// removal of the allocas, and what the whole pass guarantees.
module M2rDriver {
  import opened Graph
  import opened DomTree
  import opened Mir
  import opened Promotion
  import opened Mem2Reg
  import opened M2rPlace
  import opened M2rSsa
  import CfgPass
  import MirCfg

  // ---- dropping slots ------------------------------------------------------------

  function Restrict(p: Plan, S': set<nat>): Plan {
    Plan.Plan(p.f, S', p.d, set e | e in p.F && e.0 in S')
  }

  lemma {:induction false} PushedRestricted(p: Plan, S': set<nat>, s: nat, b: nat, i: nat)
    requires S' <= p.S && s in S' && b < |p.f.blk| && i <= |p.f.blk[b].ins|
    ensures Pushed(Restrict(p, S'), s, b, i) == Pushed(p, s, b, i)
  {
    if i > 0 {
      PushedRestricted(p, S', s, b, i - 1);
    }
  }

  // The slots that stay keep their stacks when others are dropped.
  lemma {:induction false} StacksRestricted(p: Plan, S': set<nat>, s: nat, b: nat)
    requires Shape(p) && S' <= p.S && s in S' && b < |p.f.blk|
    ensures EntryStack(Restrict(p, S'), s, b) == EntryStack(p, s, b)
    ensures InStack(Restrict(p, S'), s, b) == InStack(p, s, b)
    ensures OutStack(Restrict(p, S'), s, b) == OutStack(p, s, b)
    decreases b
  {
    if b != 0 {
      assert Placed(p.d, b);
      StacksRestricted(p, S', s, p.d[b].value);
    }
    PushedRestricted(p, S', s, b, |p.f.blk[b].ins|);
  }

  lemma UndefRestricted(p: Plan, S': set<nat>, s: nat, b: nat)
    requires Shape(p) && S' <= p.S && s in S'
    ensures UndefIn(Restrict(p, S'), s, b) <==> UndefIn(p, s, b)
  {
    var q := Restrict(p, S');
    if b < |p.f.blk| {
      StacksRestricted(p, S', s, b);
      forall i: nat | i < |p.f.blk[b].ins| ensures UndefAt(q, s, b, i) <==> UndefAt(p, s, b, i) {
        PushedRestricted(p, S', s, b, i);
      }
      assert UndefLoad(q, s, b, |p.f.blk[b].ins|) <==> UndefLoad(p, s, b, |p.f.blk[b].ins|);
    }
  }

  lemma PrivateRestricted(f: Fn, S: set<nat>, S': set<nat>)
    requires Private(f, S) && S' <= S
    ensures Private(f, S')
  {
    forall b: nat, i: nat | b < |f.blk| && i < |f.blk[b].ins| ensures CleanIns(f.blk[b].ins[i], S') {
      assert CleanIns(f.blk[b].ins[i], S);
    }
    forall b: nat, k: nat | b < |f.blk| && k < |f.blk[b].phis| ensures CleanPhi(f.blk[b].phis[k], S') {
      assert CleanPhi(f.blk[b].phis[k], S);
    }
  }

  lemma StoresInRestricted(p: Plan, S': set<nat>, s: nat, b: nat)
    requires S' <= p.S && s in S' && b < |p.f.blk|
    ensures StoresIn(p.f, S', s, b) <==> StoresIn(p.f, p.S, s, b)
  {
    assert forall i: nat :: i < |p.f.blk[b].ins| ==> (Stores(p.f, S', s, b, i) <==> Stores(p.f, p.S, s, b, i));
  }

  lemma GoodRestricted(p: Plan, S': set<nat>)
    requires GoodPlan(p) && S' <= p.S
    ensures GoodPlan(Restrict(p, S'))
  {
    PrivateRestricted(p.f, p.S, S');
    var q := Restrict(p, S');
    forall s: nat, b: nat, x: nat
      | s in S' && b < |p.f.blk| && x < |p.f.blk| && (StoresIn(p.f, S', s, b) || (s, b) in q.F) && CfgPass.InFrontier(p.f.g, b, x)
      ensures (s, x) in q.F
    {
      StoresInRestricted(p, S', s, b);
      assert (s, x) in p.F;
    }
  }

  lemma UndefAtIsIn(p: Plan, s: nat, b: nat, i: nat)
    requires Shape(p) && b < |p.f.blk| && i < |p.f.blk[b].ins|
    ensures UndefAt(p, s, b, i) ==> UndefIn(p, s, b)
  {
    assert UndefAt(p, s, b, i) ==> UndefLoad(p, s, b, |p.f.blk[b].ins|);
  }

  lemma NothingUndefined(p: Plan)
    requires Shape(p)
    requires forall s: nat, b: nat :: s in p.S ==> !UndefIn(p, s, b)
    requires forall s: nat, b: nat :: (s, b) in p.F ==> s in p.S
    ensures NoUndefined(p)
  {
    forall s: nat, b: nat, i: nat | s in p.S && b < |p.f.blk| && i < |p.f.blk[b].ins| && Loads(p.f, p.S, s, b, i)
      ensures StackAt(p, s, b, i) != []
    {
      UndefAtIsIn(p, s, b, i);
    }
    forall s: nat, q: nat, x: nat | (s, x) in p.F && Edge(p.f.g, q, x) ensures OutStack(p, s, q) != [] {
      assert !UndefIn(p, s, q);
    }
  }

  // ---- putting the rewritten function together -------------------------------------

  // The allocas of promoted slots leave the instruction array.
  method DropAllocas(ghost p: Plan, b: nat, row: seq<Ins>, S: set<nat>) returns (out: seq<Ins>)
    requires Shape(p) && |p.d| == |p.f.blk| && Complete(p.d) && b < |p.f.blk|
    requires S == p.S && |row| == |p.f.blk[b].ins| && row == Row(p, b, |row|)
    ensures out == RewrittenList(p, b, |row|)
  {
    hide *;
    out := [];
    var i: nat := 0;
    DropStart(p, b);
    while i < |row|
      invariant i <= |row| == |p.f.blk[b].ins|
      invariant out == RewrittenList(p, b, i)
    {
      DropStep(p, b, row, i);
      if !Dropped(row[i], S) {
        out := out + [row[i]];
      }
      i := i + 1;
    }
  }

  lemma DropStep(p: Plan, b: nat, row: seq<Ins>, i: nat)
    requires Shape(p) && b < |p.f.blk| && |row| == |p.f.blk[b].ins| && row == Row(p, b, |row|) && i < |row|
    ensures RewrittenList(p, b, i + 1) == RewrittenList(p, b, i) + if Dropped(row[i], p.S) then [] else [row[i]]
  {
    assert row[i] == Rewritten(p, b, i);
  }

  function NewPhi(s: nat, b: nat, args: map<(nat, nat), seq<PhiArg>>): Phi {
    Phi.Phi(PhiTemp(s, b), if (s, b) in args then args[(s, b)] else [])
  }

  function NewPhiList(order: seq<nat>, b: nat, args: map<(nat, nat), seq<PhiArg>>): seq<Phi> {
    seq(|order|, k requires 0 <= k < |order| => NewPhi(order[k], b, args))
  }

  // order lists the slots with a phi in b, each once.
  ghost predicate OrderOk(F: set<(nat, nat)>, b: nat, order: seq<nat>) {
    && (forall s: nat :: s in order <==> (s, b) in F)
    && (forall i, j :: 0 <= i < j < |order| ==> order[i] != order[j])
  }

  lemma PhisAssembled(p: Plan, b: nat, order: seq<nat>, args: map<(nat, nat), seq<PhiArg>>, ins: seq<seq<Ins>>)
    requires Shape(p) && b < |p.f.blk| && Renamed(p, args, ins) && OrderOk(p.F, b, order)
    ensures PhisOf(p, b, NewPhiList(order, b, args) + p.f.blk[b].phis)
  {
    var new_ := NewPhiList(order, b, args);
    var phis := new_ + p.f.blk[b].phis;
    var n := |order|;
    assert phis[n..] == p.f.blk[b].phis && phis[..n] == new_;
    forall s: nat | (s, b) in p.F ensures exists k :: 0 <= k < n && new_[k].dst == PhiTemp(s, b) {
      var k :| 0 <= k < n && order[k] == s;
      assert new_[k].dst == PhiTemp(s, b);
    }
    forall k: nat | k < n ensures (order[k], b) in p.F {
      assert order[k] in order;
    }
    forall k: nat, q: nat | k < n && Edge(p.f.g, q, b)
      ensures ArgFrom(new_[k].args, q) == Top(OutStack(p, order[k], q))
    {
      assert (order[k], b) in p.F;
      assert ArgsComplete(p, order[k], b, args[(order[k], b)]);
      ArgFound(p, order[k], args[(order[k], b)], q);
    }
    forall k: nat, q: nat | k < n && q < |p.f.blk|
      ensures CountFrom(new_[k].args, q) == EdgeCount(p.f.g, q, b)
    {
      assert (order[k], b) in p.F;
      assert ArgsComplete(p, order[k], b, args[(order[k], b)]);
    }
    assert NewPhis(p, b, new_);
  }

  // What the pass promises, without reference to how it works: whatever runs,
  // for however long, visits the same blocks in the same order, leaves the same
  // values everywhere but in the slots' addresses, and does the same to the world.
  ghost predicate SameRun(S: set<nat>, c: Conf, c': Conf) {
    match c
    case At(b, st) => c'.At? && c'.blk == b && c'.st.w == st.w && Agree(S, st.env, c'.st.env)
    case Halt(_, _) => c' == c
  }

  ghost predicate Equivalent(f: Fn, S: set<nat>, f': Fn)
    requires WfFn(f) && WfFn(f')
  {
    forall sem: Sem, st: State, n: nat :: SameRun(S, Run(sem, S, f, st, n), Run(sem, {}, f', st, n))
  }

  lemma PromotedIsEquivalent(p: Plan, f': Fn)
    requires GoodPlan(p) && NoUndefined(p) && Promoted(p, f')
    ensures WfFn(f') && Equivalent(p.f, p.S, f')
  {
    forall sem: Sem, st: State, n: nat ensures SameRun(p.S, Run(sem, p.S, p.f, st, n), Run(sem, {}, f', st, n)) {
      PromotionPreserves(p, sem, f', st, n);
    }
  }

  // ---- the driver --------------------------------------------------------------------

  ghost predicate IsCandidate(f: Fn, a: nat) {
    exists b: nat, i: nat :: Candidate(f, b, i) && f.blk[b].ins[i].dst == Temp(a)
  }

  ghost predicate CandidateBefore(f: Fn, a: nat, b: nat, i: nat) {
    exists c: nat, j: nat :: Candidate(f, c, j) && f.blk[c].ins[j].dst == Temp(a) && (c < b || (c == b && j < i))
  }

  method Candidates(f: Fn) returns (slot: seq<nat>)
    requires StrictSsa(f)
    ensures forall i, j :: 0 <= i < j < |slot| ==> slot[i] != slot[j]
    ensures forall a: nat :: a in slot <==> IsCandidate(f, a)
  {
    slot := [];
    var b: nat := 0;
    while b < |f.blk|
      invariant b <= |f.blk|
      invariant forall i, j :: 0 <= i < j < |slot| ==> slot[i] != slot[j]
      invariant forall a: nat :: a in slot <==> CandidateBefore(f, a, b, 0)
    {
      var i: nat := 0;
      while i < |f.blk[b].ins|
        invariant i <= |f.blk[b].ins|
        invariant forall i, j :: 0 <= i < j < |slot| ==> slot[i] != slot[j]
        invariant forall a: nat :: a in slot <==> CandidateBefore(f, a, b, i)
      {
        var x := f.blk[b].ins[i];
        var ok := false;
        if x.Alloca? && x.dst.Temp? {
          var ty := Promotable(f, x.dst.id, x.td);
          ok := ty.Some? && TySize(ty.value) == x.size;
          OneType(f, b, i, ty, ok);
        }
        CandidateStep(f, b, i, ok);
        if ok {
          slot := slot + [x.dst.id];
        }
        i := i + 1;
      }
      assert forall a: nat :: CandidateBefore(f, a, b, i) <==> CandidateBefore(f, a, b + 1, 0);
      b := b + 1;
    }
  }

  // The access type of a slot is unique, so the size test can be made on it.
  lemma OneType(f: Fn, b: nat, i: nat, ty: Option<nat>, ok: bool)
    requires b < |f.blk| && i < |f.blk[b].ins| && f.blk[b].ins[i].Alloca? && f.blk[b].ins[i].dst.Temp?
    requires ty.Some? ==> !f.blk[b].ins[i].td && OnlyAccessed(f, f.blk[b].ins[i].dst.id, ty.value)
    requires ty.None? ==> f.blk[b].ins[i].td || forall t: nat :: !OnlyAccessed(f, f.blk[b].ins[i].dst.id, t)
    requires ok <==> ty.Some? && TySize(ty.value) == f.blk[b].ins[i].size
    ensures ok <==> Candidate(f, b, i)
  {
    var a := f.blk[b].ins[i].dst.id;
    if ty.Some? {
      forall t: nat | OnlyAccessed(f, a, t) ensures t == ty.value {
        var c: nat, j: nat :| c < |f.blk| && j < |f.blk[c].ins| && Accesses(f.blk[c].ins[j], a);
        assert AccessOk(f.blk[c].ins[j], a, t) && AccessOk(f.blk[c].ins[j], a, ty.value);
      }
    }
  }

  lemma CandidateStep(f: Fn, b: nat, i: nat, ok: bool)
    requires StrictSsa(f) && b < |f.blk| && i < |f.blk[b].ins|
    requires ok <==> Candidate(f, b, i)
    ensures forall a: nat :: CandidateBefore(f, a, b, i + 1) <==>
              CandidateBefore(f, a, b, i) || (ok && f.blk[b].ins[i].dst == Temp(a))
    ensures ok ==> !CandidateBefore(f, f.blk[b].ins[i].dst.id, b, i)
  {
    forall a: nat ensures CandidateBefore(f, a, b, i + 1) <==>
                            CandidateBefore(f, a, b, i) || (ok && f.blk[b].ins[i].dst == Temp(a))
    {
      if CandidateBefore(f, a, b, i + 1) {
        var c: nat, j: nat :| Candidate(f, c, j) && f.blk[c].ins[j].dst == Temp(a) && (c < b || (c == b && j < i + 1));
        assert (c == b && j == i) || CandidateBefore(f, a, b, i);
      }
    }
    if ok && CandidateBefore(f, f.blk[b].ins[i].dst.id, b, i) {
      var a := f.blk[b].ins[i].dst.id;
      var c: nat, j: nat :| Candidate(f, c, j) && f.blk[c].ins[j].dst == Temp(a) && (c < b || (c == b && j < i));
      assert DefAt(f, Temp(a), c, j) && DefAt(f, Temp(a), b, i);
    }
  }

  // ---- placement for all slots ---------------------------------------------------------

  ghost function SeedSet(f: Fn, s: nat): set<nat> {
    set b: nat | b < |f.blk| && StoreBlock(f, s, b, |f.blk[b].ins|)
  }

  // The phi blocks of slot s.
  function Column(phi: set<(nat, nat)>, s: nat): set<nat> {
    set e | e in phi && e.0 == s :: e.1
  }

  // Slot s has phis in exactly the iterated frontier of its stores.
  ghost predicate ColumnOk(f: Fn, fron: seq<seq<nat>>, phi: set<(nat, nat)>, s: nat) {
    && Iterated(fron, SeedSet(f, s), Column(phi, s))
    && (forall T: set<nat> :: Iterated(fron, SeedSet(f, s), T) ==> Column(phi, s) <= T)
    && (forall b: nat :: b in Column(phi, s) ==> b < |fron| && exists c: nat :: c < |fron| && b in fron[c])
  }

  method PlaceAll(f: Fn, fron: seq<seq<nat>>, slot: seq<nat>)
    returns (phi: set<(nat, nat)>, order: seq<seq<nat>>, args: map<(nat, nat), seq<PhiArg>>)
    requires |fron| == |f.blk|
    requires forall b: nat, k: nat :: b < |fron| && k < |fron[b]| ==> fron[b][k] < |fron|
    requires forall i, j :: 0 <= i < j < |slot| ==> slot[i] != slot[j]
    ensures |order| == |f.blk| && forall b: nat :: b < |order| ==> OrderOk(phi, b, order[b])
    ensures forall s: nat, b: nat :: (s, b) in phi ==> s in slot && (s, b) in args && args[(s, b)] == []
    ensures forall k :: 0 <= k < |slot| ==> ColumnOk(f, fron, phi, slot[k])
  {
    phi, order, args := {}, seq(|f.blk|, _ => []), map[];
    var k: nat := 0;
    while k < |slot|
      invariant k <= |slot| && |order| == |f.blk|
      invariant forall b: nat :: b < |order| ==> OrderOk(phi, b, order[b])
      invariant forall s: nat, b: nat :: (s, b) in phi ==> s in slot[..k] && (s, b) in args && args[(s, b)] == []
      invariant forall j :: 0 <= j < k ==> ColumnOk(f, fron, phi, slot[j])
    {
      var s := slot[k];
      var seeds := SeedBlocks(f, s);
      assert ToSet(seeds) == SeedSet(f, s);
      var at := PlacePhis(fron, seeds);
      ghost var phi0 := phi;
      assert s !in slot[..k];
      phi, order, args := AddPhis(s, at, phi, order, args);
      assert Column(phi, s) == ToSet(at) by { ColumnNew(phi0, phi, s, at); }
      forall j | 0 <= j < k ensures ColumnOk(f, fron, phi, slot[j]) {
        ColumnKept(phi0, phi, slot[j], s, at);
      }
      assert slot[..k + 1] == slot[..k] + [s];
      k := k + 1;
    }
    assert slot[..k] == slot;
  }

  lemma ColumnNew(phi: set<(nat, nat)>, phi': set<(nat, nat)>, s: nat, at: seq<nat>)
    requires forall e :: e in phi' <==> e in phi || (e.0 == s && e.1 in at)
    requires forall e :: e in phi ==> e.0 != s
    ensures Column(phi', s) == ToSet(at)
  {
    forall b: nat | b in at ensures b in Column(phi', s) {
      assert (s, b) in phi';
    }
  }

  lemma ColumnKept(phi: set<(nat, nat)>, phi': set<(nat, nat)>, t: nat, s: nat, at: seq<nat>)
    requires t != s && forall e :: e in phi' <==> e in phi || (e.0 == s && e.1 in at)
    ensures Column(phi', t) == Column(phi, t)
  {
    forall b: nat | b in Column(phi, t) ensures b in Column(phi', t) {
      assert (t, b) in phi';
    }
  }

  // mphi_add: a new phi goes to the front of its block's list.
  method AddPhis(s: nat, at: seq<nat>, phi: set<(nat, nat)>, order: seq<seq<nat>>, args: map<(nat, nat), seq<PhiArg>>)
    returns (phi': set<(nat, nat)>, order': seq<seq<nat>>, args': map<(nat, nat), seq<PhiArg>>)
    requires forall b: nat :: b < |order| ==> OrderOk(phi, b, order[b])
    requires forall e :: e in phi ==> e.0 != s
    requires forall b: nat :: b in at ==> b < |order|
    requires forall i, j :: 0 <= i < j < |at| ==> at[i] != at[j]
    ensures forall e :: e in phi' <==> e in phi || (e.0 == s && e.1 in at)
    ensures |order'| == |order| && forall b: nat :: b < |order'| ==> OrderOk(phi', b, order'[b])
    ensures forall e :: e in args' <==> e in args || (e.0 == s && e.1 in at)
    ensures forall e :: e in args' ==> args'[e] == if e.0 == s && e.1 in at then [] else args[e]
  {
    phi', order', args' := phi, order, args;
    var k: nat := 0;
    while k < |at|
      invariant k <= |at| && |order'| == |order|
      invariant forall e :: e in phi' <==> e in phi || (e.0 == s && e.1 in at[..k])
      invariant forall b: nat :: b < |order'| ==> OrderOk(phi', b, order'[b])
      invariant forall e :: e in args' <==> e in args || (e.0 == s && e.1 in at[..k])
      invariant forall e :: e in args' ==> args'[e] == if e.0 == s && e.1 in at[..k] then [] else args[e]
    {
      var d := at[k];
      assert d in at && at[..k + 1] == at[..k] + [d] && d !in at[..k];
      assert OrderOk(phi', d, order'[d]) && (s, d) !in phi';
      phi' := phi' + {(s, d)};
      order' := order'[d := [s] + order'[d]];
      args' := args'[(s, d) := []];
      k := k + 1;
    }
    assert at[..k] == at;
  }

  // ---- the whole pass --------------------------------------------------------------------

  // The placed phis are closed under frontiers, and nothing smaller is.
  lemma ColumnsClosed(p: Plan, fron: seq<seq<nat>>)
    requires Shape(p) && |fron| == |p.f.blk| && forall q: nat :: !Edge(p.f.g, q, 0)
    requires forall a: nat, x: nat :: a < |fron| ==> (x in fron[a] <==> CfgPass.InFrontier(p.f.g, a, x))
    requires forall s: nat, b: nat :: (s, b) in p.F ==> s in p.S
    requires forall s: nat :: s in p.S ==> ColumnOk(p.f, fron, p.F, s)
    ensures PhisClosed(p)
  {
    forall s: nat, b: nat | (s, b) in p.F ensures 0 < b < |p.f.blk| {
      assert b in Column(p.F, s);
      assert !CfgPass.InFrontier(p.f.g, 0, 0);
      var c: nat :| c < |fron| && b in fron[c];
      assert CfgPass.InFrontier(p.f.g, c, b);
    }
    forall s: nat, b: nat, x: nat
      | s in p.S && b < |p.f.blk| && x < |p.f.blk| && (StoresIn(p.f, p.S, s, b) || (s, b) in p.F) && CfgPass.InFrontier(p.f.g, b, x)
      ensures (s, x) in p.F
    {
      SeedsAreStores(p.f, p.S, s, b);
      assert (s, b) in p.F ==> b in Column(p.F, s);
      assert x in fron[b] && x in Column(p.F, s);
    }
  }

  lemma SeedsAreStores(f: Fn, S: set<nat>, s: nat, b: nat)
    requires s in S && b < |f.blk|
    ensures StoresIn(f, S, s, b) <==> b in SeedSet(f, s)
  {
    assert forall i: nat :: i < |f.blk[b].ins| ==> (Stores(f, S, s, b, i) <==> Stores(f, {s}, s, b, i));
    if StoreBlock(f, s, b, |f.blk[b].ins|) {
      var i: nat :| i < |f.blk[b].ins| && Stores(f, {s}, s, b, i);
      assert Stores(f, S, s, b, i);
    }
  }

  lemma ColumnsLeast(p: Plan, fron: seq<seq<nat>>, F: set<(nat, nat)>)
    requires Shape(p) && |fron| == |p.f.blk|
    requires forall a: nat, x: nat :: a < |fron| ==> (x in fron[a] <==> CfgPass.InFrontier(p.f.g, a, x))
    requires forall s: nat, b: nat :: (s, b) in p.F ==> s in p.S
    requires forall s: nat :: s in p.S ==> ColumnOk(p.f, fron, p.F, s)
    requires PhisClosed(p.(F := F))
    ensures p.F <= F
  {
    forall e | e in p.F ensures e in F {
      var s, b := e.0, e.1;
      assert (s, b) in p.F;
      var T := Column(F, s);
      forall c: nat, x: nat | c < |fron| && (c in SeedSet(p.f, s) || c in T) && x in fron[c] ensures x in T {
        SeedsAreStores(p.f, p.S, s, c);
        assert CfgPass.InFrontier(p.f.g, c, x);
        assert (s, x) in F;
      }
      assert Iterated(fron, SeedSet(p.f, s), T);
      assert b in Column(p.F, s);
      assert (s, b) in F by { assert b in T; }
    }
  }

  // The phis of a plan are the least set that covers the frontiers.
  ghost predicate LeastPhis(p: Plan) {
    PhisClosed(p) && forall F: set<(nat, nat)> :: PhisClosed(p.(F := F)) ==> p.F <= F
  }

  lemma PlanIsGood(p: Plan, fron: seq<seq<nat>>)
    requires WfFn(p.f) && StrictSsa(p.f) && Plain(p.f) && forall q: nat :: !Edge(p.f.g, q, 0)
    requires IsDomTree(p.f.g, p.d) && |fron| == |p.f.blk|
    requires forall a: nat, x: nat :: a < |fron| ==> (x in fron[a] <==> CfgPass.InFrontier(p.f.g, a, x))
    requires forall s: nat, b: nat :: (s, b) in p.F ==> s in p.S
    requires forall s: nat :: s in p.S ==> ColumnOk(p.f, fron, p.F, s)
    requires forall a: nat :: a in p.S <==> IsCandidate(p.f, a)
    ensures GoodPlan(p) && LeastPhis(p)
  {
    hide StrictSsa;
    hide IsCandidate;
    hide ColumnOk;
    ColumnsClosed(p, fron);
    forall F: set<(nat, nat)> | PhisClosed(p.(F := F)) ensures p.F <= F {
      ColumnsLeast(p, fron, F);
    }
    CandidatesPrivate(p.f, p.S);
  }

  lemma CandidatesPrivate(f: Fn, S: set<nat>)
    requires StrictSsa(f) && Plain(f) && forall a: nat :: a in S <==> IsCandidate(f, a)
    ensures Private(f, S)
  {
    hide StrictSsa;
    hide Candidate;
    hide Private;
    CandidatesArePrivate(f, S);
  }

  // With no slots the function is left as it is.
  lemma {:induction false} NothingRewritten(p: Plan, b: nat, i: nat)
    requires Shape(p) && p.S == {} && b < |p.f.blk| && i <= |p.f.blk[b].ins|
    ensures RewrittenList(p, b, i) == p.f.blk[b].ins[..i]
  {
    if i > 0 {
      NothingRewritten(p, b, i - 1);
      assert p.f.blk[b].ins[..i] == p.f.blk[b].ins[..i - 1] + [p.f.blk[b].ins[i - 1]];
    }
  }

  lemma NothingToDo(p: Plan)
    requires Shape(p) && p.S == {} && p.F == {}
    ensures Promoted(p, p.f)
  {
    forall b: nat | b < |p.f.blk|
      ensures p.f.blk[b].ins == RewrittenList(p, b, |p.f.blk[b].ins|) && PhisOf(p, b, p.f.blk[b].phis)
    {
      NothingRewritten(p, b, |p.f.blk[b].ins|);
      assert p.f.blk[b].ins[..|p.f.blk[b].ins|] == p.f.blk[b].ins;
      assert NewPhis(p, b, p.f.blk[b].phis[..0]);
    }
  }

  // What the probe keeps: candidates no load and no phi edge of which is undefined.
  ghost predicate KeptRight(p0: Plan, kept: seq<nat>)
    requires Shape(p0)
  {
    && (forall i, j :: 0 <= i < j < |kept| ==> kept[i] != kept[j])
    && (forall a: nat :: a in kept <==> a in p0.S && forall b: nat :: !UndefIn(p0, a, b))
  }

  lemma ProbeKeeps(p0: Plan, slot: seq<nat>, undef: seq<bool>, kept: seq<nat>)
    requires Shape(p0) && p0.S == SetOf(slot) && |slot| == |undef|
    requires forall i, j :: 0 <= i < j < |slot| ==> slot[i] != slot[j]
    requires forall k :: 0 <= k < |slot| ==> (undef[k] <==> exists b: nat :: UndefIn(p0, slot[k], b))
    requires kept == Unflagged(slot, undef)
    ensures KeptRight(p0, kept)
  {
    UnflaggedAre(slot, undef);
    forall a: nat ensures a in kept <==> a in p0.S && forall b: nat :: !UndefIn(p0, a, b) {
    }
  }

  lemma KeptPlan(p0: Plan, kept: seq<nat>)
    requires GoodPlan(p0) && Shape(p0) && KeptRight(p0, kept)
    ensures var p := Restrict(p0, SetOf(kept));
            && GoodPlan(p) && Shape(p) && NoUndefined(p)
            && (forall k: nat, b: nat :: k < |kept| ==> !UndefIn(p, kept[k], b))
  {
    var p := Restrict(p0, SetOf(kept));
    GoodRestricted(p0, SetOf(kept));
    forall s: nat, b: nat | s in p.S ensures !UndefIn(p, s, b) {
      UndefRestricted(p0, SetOf(kept), s, b);
    }
    NothingUndefined(p);
  }

  function Keep(order: seq<nat>, S: set<nat>): seq<nat> {
    if |order| == 0 then []
    else Keep(order[..|order| - 1], S) + if order[|order| - 1] in S then [order[|order| - 1]] else []
  }

  lemma {:induction false} KeepIs(order: seq<nat>, S: set<nat>)
    ensures forall s: nat :: s in Keep(order, S) <==> s in order && s in S
    ensures (forall i, j :: 0 <= i < j < |order| ==> order[i] != order[j]) ==>
              (forall i, j :: 0 <= i < j < |Keep(order, S)| ==> Keep(order, S)[i] != Keep(order, S)[j])
  {
    if |order| > 0 {
      var n := |order| - 1;
      KeepIs(order[..n], S);
      assert order == order[..n] + [order[n]];
    }
  }

  lemma KeepOrder(p0: Plan, S: set<nat>, b: nat, order: seq<nat>)
    requires OrderOk(p0.F, b, order)
    ensures OrderOk(Restrict(p0, S).F, b, Keep(order, S))
  {
    KeepIs(order, S);
  }

  // The blocks of the new function, one after the other.
  method Assemble(ghost p: Plan, f: Fn, S: set<nat>, order: seq<seq<nat>>, args: map<(nat, nat), seq<PhiArg>>, ins: seq<seq<Ins>>)
    returns (f': Fn)
    requires Shape(p) && p.f == f && p.S == S && Renamed(p, args, ins) && |ins| == |f.blk| == |order|
    requires forall b: nat :: b < |order| ==> OrderOk(p.F, b, order[b])
    ensures Promoted(p, f')
  {
    hide *;
    var blk: seq<Blk> := [];
    BlocksStart(p);
    while |blk| < |f.blk|
      invariant |blk| <= |f.blk| && BlocksDone(p, blk)
    {
      var b := |blk|;
      RowIs(p, args, ins, b);
      var out := DropAllocas(p, b, ins[b], S);
      PhisAssembled(p, b, order[b], args, ins);
      var x := Blk.Blk(NewPhiList(order[b], b, args) + f.blk[b].phis, out, f.blk[b].term, f.blk[b].targ);
      BlockDone(p, blk, x);
      blk := blk + [x];
    }
    f' := Fn.Fn(f.g, blk);
    AllDone(p, f');
  }

  ghost predicate BlocksDone(p: Plan, blk: seq<Blk>)
    requires Shape(p)
  {
    |blk| <= |p.f.blk| && forall b: nat :: b < |blk| ==> BlockIs(p, b, blk[b])
  }

  ghost predicate BlockIs(p: Plan, b: nat, x: Blk)
    requires Shape(p) && b < |p.f.blk|
  {
    && x.ins == RewrittenList(p, b, |p.f.blk[b].ins|)
    && x.term == p.f.blk[b].term && x.targ == p.f.blk[b].targ
    && PhisOf(p, b, x.phis)
  }

  lemma AllDone(p: Plan, f': Fn)
    requires Shape(p) && BlocksDone(p, f'.blk) && |f'.blk| == |p.f.blk| && f'.g == p.f.g
    ensures Promoted(p, f')
  {
    forall b: nat | b < |f'.blk| ensures BlockIs(p, b, f'.blk[b]) {
    }
  }

  // Nothing in the new function mentions a promoted slot's address.
  ghost predicate SlotsGone(f: Fn, S: set<nat>) {
    && (forall b: nat, i: nat :: b < |f.blk| && i < |f.blk[b].ins| ==> InsSpares(f.blk[b].ins[i], S))
    && (forall b: nat :: b < |f.blk| ==> SlotOf(f.blk[b].targ, S).None?)
  }

  ghost predicate InsSpares(x: Ins, S: set<nat>) {
    !DefinesSlot(x, S) && SlotOf(Ref0(x), S).None? && SlotOf(Ref1(x), S).None?
  }

  lemma {:induction false} RowSpares(p: Plan, b: nat, i: nat)
    requires GoodPlan(p) && NoUndefined(p) && b < |p.f.blk| && i <= |p.f.blk[b].ins|
    ensures forall k :: 0 <= k < |RewrittenList(p, b, i)| ==> InsSpares(RewrittenList(p, b, i)[k], p.S)
  {
    if i > 0 {
      RowSpares(p, b, i - 1);
      if !Dropped(p.f.blk[b].ins[i - 1], p.S) {
        RewrittenSpares(p, b, i - 1);
      }
    }
  }

  lemma RewrittenSpares(p: Plan, b: nat, i: nat)
    requires GoodPlan(p) && NoUndefined(p) && b < |p.f.blk| && i < |p.f.blk[b].ins|
    requires !Dropped(p.f.blk[b].ins[i], p.S)
    ensures InsSpares(Rewritten(p, b, i), p.S)
  {
    var x := p.f.blk[b].ins[i];
    assert CleanIns(x, p.S);
    if x.Load? && SlotOf(x.addr, p.S).Some? {
      var s := SlotOf(x.addr, p.S).value;
      assert Loads(p.f, p.S, s, b, i);
      var st := StackAt(p, s, b, i);
      assert st[|st| - 1] in st;
      StackedIsClean(p, s, st[|st| - 1], b, i);
    }
  }

  lemma StackedIsClean(p: Plan, s: nat, v: Val, b: nat, i: nat)
    requires GoodPlan(p) && b < |p.f.blk| && i <= |p.f.blk[b].ins| && v in StackAt(p, s, b, i)
    ensures SlotOf(Use(v), p.S).None?
  {
    StackSource(p, s, v, b, i);
    var c: nat, j: int :| SourceAt(p, s, v, c, j);
    if j >= 0 {
      assert CleanIns(p.f.blk[c].ins[j], p.S);
    }
  }

  lemma PromotedSpares(p: Plan, f': Fn)
    requires GoodPlan(p) && NoUndefined(p) && Promoted(p, f')
    ensures SlotsGone(f', p.S)
  {
    forall b: nat, i: nat | b < |f'.blk| && i < |f'.blk[b].ins| ensures InsSpares(f'.blk[b].ins[i], p.S) {
      RowSpares(p, b, |p.f.blk[b].ins|);
    }
    forall b: nat | b < |f'.blk| ensures SlotOf(f'.blk[b].targ, p.S).None? {
      assert Clean(p.f.blk[b].targ, p.S);
    }
  }

  // Everything the pass promises about its result: for some plan p0 for all candidates, and
  // the slots kept of them.
  ghost predicate PassRight(f: Fn, kept: seq<nat>, f': Fn) {
    exists p0: Plan :: PassRightFor(f, p0, kept, f')
  }

  ghost predicate PassRightFor(f: Fn, p0: Plan, kept: seq<nat>, f': Fn) {
    && WfFn(f) && WfFn(f') && p0.f == f && Shape(p0) && GoodPlan(p0) && LeastPhis(p0)
    && (forall a: nat :: a in p0.S <==> IsCandidate(f, a))
    && KeptRight(p0, kept)
    && Promoted(Restrict(p0, SetOf(kept)), f')
    && Equivalent(f, SetOf(kept), f')
    && Accounted(f, SetOf(kept), f')
    && StrictSsa(f')
    && SlotsGone(f', SetOf(kept))
  }

  lemma PassDone(p0: Plan, kept: seq<nat>, f': Fn)
    requires GoodPlan(p0) && LeastPhis(p0) && Shape(p0) && KeptRight(p0, kept)
    requires forall a: nat :: a in p0.S <==> IsCandidate(p0.f, a)
    requires Shape(Restrict(p0, SetOf(kept))) && Promoted(Restrict(p0, SetOf(kept)), f')
    ensures PassRightFor(p0.f, p0, kept, f') && PassRight(p0.f, kept, f')
  {
    hide GoodPlan;
    hide NoUndefined;
    hide Promoted;
    hide Shape;
    hide KeptRight;
    hide LeastPhis;
    hide Equivalent;
    hide StrictSsa;
    hide Accounted;
    hide SlotsGone;
    KeptPlan(p0, kept);
    PromotedIsEquivalent(Restrict(p0, SetOf(kept)), f');
    PromotedStrict(Restrict(p0, SetOf(kept)), f');
    PromotedAccounted(Restrict(p0, SetOf(kept)), f');
    PromotedSpares(Restrict(p0, SetOf(kept)), f');
  }

  ghost predicate Input(f: Fn) {
    WfFn(f) && StrictSsa(f) && Plain(f) && forall q: nat :: !Edge(f.g, q, 0)
  }

  ghost predicate Analysed(f: Fn, d: Idom, fron: seq<seq<nat>>) {
    && IsDomTree(f.g, d) && |fron| == |f.blk|
    && (forall a: nat, x: nat :: a < |fron| ==> (x in fron[a] <==> CfgPass.InFrontier(f.g, a, x)))
  }

  method Analyse(f: Fn) returns (d: Idom, fron: seq<seq<nat>>)
    requires Input(f)
    ensures Analysed(f, d, fron)
    ensures |fron| == |f.blk|
    ensures forall b: nat, k: nat :: b < |fron| && k < |fron[b]| ==> fron[b][k] < |fron|
  {
    hide StrictSsa;
    hide Plain;
    var c := new MirCfg.MFn(f.g.s1, f.g.s2);
    assert c.G() == f.g;
    c.FillPreds();
    c.FillIdom();
    c.FillFrontiers();
    d, fron := c.Tree(), c.fron;
    forall b: nat, k: nat | b < |fron| && k < |fron[b]| ensures fron[b][k] < |fron| {
      assert fron[b][k] in fron[b];
      assert CfgPass.InFrontier(f.g, b, fron[b][k]);
    }
  }

  // Slots, phis and arguments as the placement loop leaves them.
  ghost predicate PlacedAll(f: Fn, fron: seq<seq<nat>>, slot: seq<nat>, phi: set<(nat, nat)>, order: seq<seq<nat>>,
                            args: map<(nat, nat), seq<PhiArg>>)
  {
    && (forall i, j :: 0 <= i < j < |slot| ==> slot[i] != slot[j])
    && (forall a: nat :: a in slot <==> IsCandidate(f, a))
    && |order| == |f.blk| && (forall b: nat :: b < |order| ==> OrderOk(phi, b, order[b]))
    && (forall s: nat, b: nat :: (s, b) in phi ==> s in slot && (s, b) in args && args[(s, b)] == [])
    && (forall k :: 0 <= k < |slot| ==> ColumnOk(f, fron, phi, slot[k]))
  }

  method PlaceSlots(f: Fn, fron: seq<seq<nat>>)
    returns (slot: seq<nat>, phi: set<(nat, nat)>, order: seq<seq<nat>>, args: map<(nat, nat), seq<PhiArg>>)
    requires Input(f) && |fron| == |f.blk|
    requires forall b: nat, k: nat :: b < |fron| && k < |fron[b]| ==> fron[b][k] < |fron|
    ensures PlacedAll(f, fron, slot, phi, order, args)
  {
    hide StrictSsa;
    hide Plain;
    hide IsCandidate;
    hide ColumnOk;
    slot := Candidates(f);
    phi, order, args := PlaceAll(f, fron, slot);
  }

  ghost predicate FirstRight(f: Fn, p0: Plan) {
    && GoodPlan(p0) && LeastPhis(p0) && Shape(p0) && p0.f == f
    && (forall a: nat :: a in p0.S <==> IsCandidate(f, a))
  }

  lemma FirstIsRight(f: Fn, d: Idom, fron: seq<seq<nat>>, slot: seq<nat>, phi: set<(nat, nat)>, order: seq<seq<nat>>,
                     args: map<(nat, nat), seq<PhiArg>>)
    requires Input(f) && Analysed(f, d, fron) && PlacedAll(f, fron, slot, phi, order, args)
    ensures FirstRight(f, Plan.Plan(f, SetOf(slot), d, phi))
  {
    hide StrictSsa;
    hide Plain;
    hide IsCandidate;
    hide ColumnOk;
    hide OrderOk;
    var p0 := Plan.Plan(f, SetOf(slot), d, phi);
    forall s: nat | s in p0.S ensures ColumnOk(p0.f, fron, p0.F, s) {
    }
    hide IsDomTree;
    PlanIsGood(p0, fron);
    ShapeOf(p0);
  }

  lemma BeforeProbe(f: Fn, d: Idom, fron: seq<seq<nat>>, slot: seq<nat>, phi: set<(nat, nat)>, order: seq<seq<nat>>,
                    args: map<(nat, nat), seq<PhiArg>>, ins: seq<seq<Ins>>, stack: seq<seq<Val>>, undef: seq<bool>)
    requires FirstRight(f, Plan.Plan(f, SetOf(slot), d, phi)) && PlacedAll(f, fron, slot, phi, order, args)
    requires Unchanged(f, ins) && Blank(|slot|, stack, undef)
    ensures ReadyAs(f, d, slot, phi, args, ins, stack, undef)
    ensures Shape(Plan.Plan(f, SetOf(slot), d, phi)) && Started(Plan.Plan(f, SetOf(slot), d, phi), stack, args, ins)
    ensures |undef| == |slot| && forall k :: 0 <= k < |slot| ==> !undef[k]
    ensures forall i, j :: 0 <= i < j < |slot| ==> slot[i] != slot[j]
    ensures |order| == |f.blk|
  {
    hide GoodPlan;
    hide LeastPhis;
    hide IsCandidate;
    hide ColumnOk;
    hide OrderOk;
    hide Complete;
    var p0 := Plan.Plan(f, SetOf(slot), d, phi);
    forall s: nat, x: nat | (s, x) in phi ensures s in slot && x < |f.blk| && (s, x) in args {
      PhiInRange(p0, s, x);
    }
  }

  // After the probe and the retraction.
  ghost predicate Retracted(p0: Plan, kept: seq<nat>, phi: set<(nat, nat)>) {
    && Shape(p0) && KeptRight(p0, kept)
    && phi == Restrict(p0, SetOf(kept)).F
    && GoodPlan(Restrict(p0, SetOf(kept))) && Shape(Restrict(p0, SetOf(kept)))
    && (forall k: nat, b: nat :: k < |kept| ==> !UndefIn(Restrict(p0, SetOf(kept)), kept[k], b))
  }

  lemma AfterProbe(f: Fn, p0: Plan, slot: seq<nat>, undef0: seq<bool>, undef: seq<bool>, kept: seq<nat>, phi: set<(nat, nat)>)
    requires FirstRight(f, p0) && p0.S == SetOf(slot) && |slot| == |undef|
    requires forall i, j :: 0 <= i < j < |slot| ==> slot[i] != slot[j]
    requires Shape(p0) && Flagged(p0, slot, undef0, undef) && forall k :: 0 <= k < |slot| ==> !undef0[k]
    requires kept == Unflagged(slot, undef)
    requires phi == set e | e in p0.F && e.0 in SetOf(kept)
    ensures Retracted(p0, kept, phi)
  {
    hide GoodPlan;
    hide LeastPhis;
    hide IsCandidate;
    hide Shape;
    hide UndefIn;
    ProbeKeeps(p0, slot, undef, kept);
    KeptPlan(p0, kept);
  }

  lemma BeforeRename(p0: Plan, f: Fn, d: Idom, slot: seq<nat>, phi0: set<(nat, nat)>, args: map<(nat, nat), seq<PhiArg>>,
                     ins: seq<seq<Ins>>, stack0: seq<seq<Val>>, kept: seq<nat>, phi: set<(nat, nat)>,
                     stack: seq<seq<Val>>, undef: seq<bool>)
    requires p0 == Plan.Plan(f, SetOf(slot), d, phi0) && Retracted(p0, kept, phi)
    requires Shape(p0) && Started(p0, stack0, args, ins)
    requires Blank(|kept|, stack, undef)
    ensures ReadyAs(f, d, kept, phi, args, ins, stack, undef)
    ensures Plan.Plan(f, SetOf(kept), d, phi) == Restrict(p0, SetOf(kept))
    ensures Shape(Restrict(p0, SetOf(kept))) && Started(Restrict(p0, SetOf(kept)), stack, args, ins)
    ensures forall k: nat, b: nat :: k < |kept| ==> !UndefIn(Restrict(p0, SetOf(kept)), kept[k], b)
    ensures |kept| == 0 ==> Renamed(Restrict(p0, SetOf(kept)), args, ins)
    ensures Restrict(p0, SetOf(kept)).f == f && Restrict(p0, SetOf(kept)).S == SetOf(kept)
  {
    hide UndefIn;
    hide Complete;
    hide GoodPlan;
    var p := Restrict(p0, SetOf(kept));
    forall s: nat, x: nat | (s, x) in phi ensures x < |f.blk| {
      PhiInRange(p, s, x);
    }
    if |kept| == 0 {
      forall b: nat | b < |ins| ensures ins[b] == Row(p, b, |p.f.blk[b].ins|) {
        NoSlotRow(p, b);
      }
    }
  }

  lemma KeepOrders(p0: Plan, fron: seq<seq<nat>>, f: Fn, d: Idom, slot: seq<nat>, phi: set<(nat, nat)>,
                   order: seq<seq<nat>>, args: map<(nat, nat), seq<PhiArg>>, S: set<nat>)
    requires p0 == Plan.Plan(f, SetOf(slot), d, phi) && PlacedAll(f, fron, slot, phi, order, args)
    ensures forall b: nat :: b < |order| ==> OrderOk(Restrict(p0, S).F, b, Keep(order[b], S))
  {
    forall b: nat | b < |order| ensures OrderOk(Restrict(p0, S).F, b, Keep(order[b], S)) {
      KeepOrder(p0, S, b, order[b]);
    }
  }

  lemma NoPairs(S: set<nat>, F: set<(nat, nat)>)
    requires S == {} && forall s: nat, b: nat :: (s, b) in F ==> s in S
    ensures F == {}
  {
    forall e | e in F ensures e.0 in S {
      assert (e.0, e.1) in F;
    }
  }

  lemma NoSlots(f: Fn, p0: Plan)
    requires FirstRight(f, p0) && p0.S == {}
    ensures PassRight(f, [], f)
  {
    hide StrictSsa;
    hide Private;
    hide IsCandidate;
    assert PhisClosed(p0);
    NoPairs(p0.S, p0.F);
    NothingToDo(p0);
    assert Restrict(p0, SetOf([])) == p0;
    PassDone(p0, [], f);
  }

  lemma NoneSlotted(slot: seq<nat>)
    requires |slot| == 0
    ensures SetOf(slot) == {}
  {
  }

  lemma PassIs(f: Fn, p0: Plan, kept: seq<nat>, phi: set<(nat, nat)>, f': Fn)
    requires FirstRight(f, p0) && Retracted(p0, kept, phi)
    requires Shape(Restrict(p0, SetOf(kept))) && Promoted(Restrict(p0, SetOf(kept)), f')
    ensures PassRight(f, kept, f')
  {
    hide GoodPlan;
    hide LeastPhis;
    hide Shape;
    hide KeptRight;
    hide Promoted;
    PassDone(p0, kept, f');
  }

  // mmem2reg.
  method Mmem2Reg(f: Fn) returns (f': Fn, kept: seq<nat>)
    requires Input(f)
    ensures PassRight(f, kept, f')
  {
    hide *;
    var d, fron := Analyse(f);
    var slot, phi, order, args := PlaceSlots(f, fron);
    ghost var p0 := Plan.Plan(f, SetOf(slot), d, phi);
    FirstIsRight(f, d, fron, slot, phi, order, args);
    if |slot| == 0 {
      f', kept := f, [];
      assert p0.S == {} by { NoneSlotted(slot); }
      NoSlots(f, p0);
      return;
    }
    var r := new Renamer(f, d, slot, phi, args);
    BeforeProbe(f, d, fron, slot, phi, order, args, r.ins, r.stack, r.undef);
    r.IsReady();
    ghost var stack0, undef0 := r.stack, r.undef;
    r.Rename(true);
    ghost var undef := r.undef;
    r.Retract();
    kept := r.slot;
    AfterProbe(f, p0, slot, undef0, undef, kept, r.phi);
    BeforeRename(p0, f, d, slot, phi, args, r.ins, stack0, kept, r.phi, r.stack, r.undef);
    r.IsReady();
    ghost var p := Restrict(p0, SetOf(kept));
    if |kept| > 0 {
      r.Rename(false);
    }
    KeepOrders(p0, fron, f, d, slot, phi, order, args, SetOf(kept));
    var order' := seq(|order|, b requires 0 <= b < |order| => Keep(order[b], SetOf(kept)));
    f' := Assemble(p, f, SetOf(kept), order', r.args, r.ins);
    PassIs(f, p0, kept, r.phi, f');
  }

  // ---- facts that unfold at once ----------------------------------------------------------

  lemma DropStart(p: Plan, b: nat)
    requires Shape(p) && b < |p.f.blk|
    ensures RewrittenList(p, b, 0) == []
  {
  }

  lemma RowIs(p: Plan, args: map<(nat, nat), seq<PhiArg>>, ins: seq<seq<Ins>>, b: nat)
    requires Shape(p) && Renamed(p, args, ins) && b < |p.f.blk|
    ensures b < |ins| && |ins[b]| == |p.f.blk[b].ins| && ins[b] == Row(p, b, |p.f.blk[b].ins|)
    ensures |p.d| == |p.f.blk| && Complete(p.d)
  {
  }

  lemma BlocksStart(p: Plan)
    requires Shape(p)
    ensures BlocksDone(p, [])
  {
  }

  lemma BlockDone(p: Plan, blk: seq<Blk>, x: Blk)
    requires Shape(p) && BlocksDone(p, blk) && |blk| < |p.f.blk| && BlockIs(p, |blk|, x)
    ensures BlocksDone(p, blk + [x])
  {
  }

  lemma ShapeOf(p: Plan)
    requires GoodPlan(p)
    ensures Shape(p)
  {
  }

  lemma PhiInRange(p: Plan, s: nat, x: nat)
    requires GoodPlan(p) && (s, x) in p.F
    ensures x < |p.f.blk|
  {
  }

  lemma NoSlotRow(p: Plan, b: nat)
    requires Shape(p) && p.S == {} && b < |p.f.blk|
    ensures p.f.blk[b].ins == Row(p, b, |p.f.blk[b].ins|)
  {
  }
}
