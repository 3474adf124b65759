// mir/mem2reg.c: which slots qualify, and where their phis go.
module M2rPlace {
  import opened Graph
  import opened DomTree
  import opened Mir
  import opened Promotion
  import CfgPass

  // ---- candidates ------------------------------------------------------------------

  // An operand that is the address a: the whole slot, loaded from or stored to as type ty.
  predicate AccessOk(x: Ins, a: nat, ty: nat) {
    match x
    case Load(_, addr, t, disp) => addr == Use(Temp(a)) ==> t == ty && !disp
    case Store(r, addr, t, disp) => r != Use(Temp(a)) && (addr == Use(Temp(a)) ==> t == ty && !disp)
    case _ => Ref0(x) != Use(Temp(a)) && Ref1(x) != Use(Temp(a))
  }

  predicate PhiAvoids(phi: Phi, a: nat) {
    forall k :: 0 <= k < |phi.args| ==> phi.args[k].v != Temp(a)
  }

  // The address is used, and only to load and store whole scalars of one type.
  ghost predicate OnlyAccessed(f: Fn, a: nat, ty: nat) {
    && TySize(ty) > 0
    && (forall b: nat, i: nat :: b < |f.blk| && i < |f.blk[b].ins| ==> AccessOk(f.blk[b].ins[i], a, ty))
    && (forall b: nat, k: nat :: b < |f.blk| && k < |f.blk[b].phis| ==> PhiAvoids(f.blk[b].phis[k], a))
    && (forall b: nat :: b < |f.blk| ==> f.blk[b].targ != Use(Temp(a)))
    && (exists b: nat, i: nat :: b < |f.blk| && i < |f.blk[b].ins| && Accesses(f.blk[b].ins[i], a))
  }

  // A candidate: an alloca of no aggregate, of just the size of the type it is accessed with.
  ghost predicate Candidate(f: Fn, b: nat, i: nat) {
    && b < |f.blk| && i < |f.blk[b].ins| && f.blk[b].ins[i].Alloca? && f.blk[b].ins[i].dst.Temp?
    && !f.blk[b].ins[i].td
    && (exists ty: nat :: OnlyAccessed(f, f.blk[b].ins[i].dst.id, ty) && TySize(ty) == f.blk[b].ins[i].size)
  }

  // The values of a function this pass has not touched.
  ghost predicate Plain(f: Fn) {
    Private(f, {})
  }

  // The escape test is sound: candidates' addresses go nowhere but to accesses.
  lemma CandidatesArePrivate(f: Fn, S: set<nat>)
    requires Plain(f) && StrictSsa(f)
    requires forall a: nat :: a in S ==> exists b: nat, i: nat :: Candidate(f, b, i) && f.blk[b].ins[i].dst == Temp(a)
    ensures Private(f, S)
  {
    forall s: nat, b: nat, i: nat | s in S && AccessAt(f, s, b, i)
      ensures f.blk[b].ins[i].ty == SlotTy(f, s) && !f.blk[b].ins[i].disp
    {
      OneAccessType(f, s, b, i);
    }
    forall b: nat, i: nat | b < |f.blk| && i < |f.blk[b].ins| ensures CleanIns(f.blk[b].ins[i], S) {
      InsIsClean(f, S, b, i);
    }
    forall b: nat, k: nat | b < |f.blk| && k < |f.blk[b].phis| ensures CleanPhi(f.blk[b].phis[k], S) {
      PhiIsClean(f, S, b, k);
    }
    forall b: nat | b < |f.blk| ensures Clean(f.blk[b].targ, S) {
      assert Clean(f.blk[b].targ, {});
    }
  }

  // A candidate's accesses are all of the one type, and of the whole slot.
  lemma OneAccessType(f: Fn, s: nat, b: nat, i: nat)
    requires exists b: nat, i: nat :: Candidate(f, b, i) && f.blk[b].ins[i].dst == Temp(s)
    requires AccessAt(f, s, b, i)
    ensures f.blk[b].ins[i].ty == SlotTy(f, s) && !f.blk[b].ins[i].disp
  {
    var c: nat, j: nat :| Candidate(f, c, j) && f.blk[c].ins[j].dst == Temp(s);
    var ty: nat :| OnlyAccessed(f, s, ty);
    var c0: nat, j0: nat :| AccessAt(f, s, c0, j0) && f.blk[c0].ins[j0].ty == SlotTy(f, s);
    assert AccessOk(f.blk[b].ins[i], s, ty);
    assert AccessAt(f, s, c0, j0);
    assert AccessOk(f.blk[c0].ins[j0], s, ty);
  }

  lemma InsIsClean(f: Fn, S: set<nat>, b: nat, i: nat)
    requires Plain(f) && StrictSsa(f) && b < |f.blk| && i < |f.blk[b].ins|
    requires forall a: nat :: a in S ==> exists b: nat, i: nat :: Candidate(f, b, i) && f.blk[b].ins[i].dst == Temp(a)
    ensures CleanIns(f.blk[b].ins[i], S)
  {
    var x := f.blk[b].ins[i];
    assert CleanIns(x, {});
    forall a: nat | a in S ensures DstOf(x) == Some(Temp(a)) ==> x.Alloca?
      ensures Ref0(x) == Use(Temp(a)) ==> x.Load?
      ensures Ref1(x) == Use(Temp(a)) ==> x.Store?
    {
      var c: nat, j: nat :| Candidate(f, c, j) && f.blk[c].ins[j].dst == Temp(a);
      var ty: nat :| OnlyAccessed(f, a, ty);
      assert AccessOk(x, a, ty);
      assert DefAt(f, Temp(a), c, j);
      assert DstOf(x) == Some(Temp(a)) ==> DefAt(f, Temp(a), b, i);
    }
  }

  lemma PhiIsClean(f: Fn, S: set<nat>, b: nat, k: nat)
    requires Plain(f) && StrictSsa(f) && b < |f.blk| && k < |f.blk[b].phis|
    requires forall a: nat :: a in S ==> exists b: nat, i: nat :: Candidate(f, b, i) && f.blk[b].ins[i].dst == Temp(a)
    ensures CleanPhi(f.blk[b].phis[k], S)
  {
    var phi := f.blk[b].phis[k];
    assert CleanPhi(phi, {});
    forall a: nat | a in S ensures phi.dst != Temp(a) && PhiAvoids(phi, a) {
      var c: nat, j: nat :| Candidate(f, c, j) && f.blk[c].ins[j].dst == Temp(a);
      var ty: nat :| OnlyAccessed(f, a, ty);
      assert DefAt(f, Temp(a), c, j);
      assert phi.dst == Temp(a) ==> DefAt(f, Temp(a), b, -1);
    }
    forall m | 0 <= m < |phi.args| ensures Clean(Use(phi.args[m].v), S) {
      assert Clean(Use(phi.args[m].v), {});
      assert phi.args[m].v.Temp? && phi.args[m].v.id in S ==> PhiAvoids(phi, phi.args[m].v.id);
    }
  }

  // m2r_promotable: the common access type, or none.  td says that the slot's value carries
  // an aggregate type description.
  method Promotable(f: Fn, a: nat, td: bool) returns (r: Option<nat>)
    ensures r.Some? ==> !td && OnlyAccessed(f, a, r.value)
    ensures r.None? ==> td || forall ty: nat :: !OnlyAccessed(f, a, ty)
  {
    r := None;
    if td {
      return;
    }
    var b := 0;
    while b < |f.blk|
      invariant 0 <= b <= |f.blk|
      invariant Scanned(f, a, r, b, 0)
    {
      var i := 0;
      while i < |f.blk[b].ins|
        invariant 0 <= i <= |f.blk[b].ins|
        invariant Scanned(f, a, r, b, i)
      {
        var x := f.blk[b].ins[i];
        if Accesses(x, a) {
          if x.disp || TySize(x.ty) == 0 || (r.Some? && r.value != x.ty) || (x.Store? && x.val == Use(Temp(a))) {
            forall ty: nat ensures !OnlyAccessed(f, a, ty) {
              assert OnlyAccessed(f, a, ty) ==> AccessOk(x, a, ty);
            }
            return None;
          }
          r := Some(x.ty);
        } else if Ref0(x) == Use(Temp(a)) || Ref1(x) == Use(Temp(a)) {
          forall ty: nat ensures !OnlyAccessed(f, a, ty) {
            assert OnlyAccessed(f, a, ty) ==> AccessOk(x, a, ty);
          }
          return None;
        }
        i := i + 1;
      }
      var k := 0;
      while k < |f.blk[b].phis|
        invariant 0 <= k <= |f.blk[b].phis|
        invariant forall j: nat :: j < k ==> PhiAvoids(f.blk[b].phis[j], a)
      {
        if !PhiAvoids(f.blk[b].phis[k], a) {
          return None;
        }
        k := k + 1;
      }
      if f.blk[b].targ == Use(Temp(a)) {
        return None;
      }
      b := b + 1;
    }
  }

  // The blocks below b and the first i instructions of b show only proper
  // accesses, all of type r, none if r is None.
  ghost predicate Scanned(f: Fn, a: nat, r: Option<nat>, b: nat, i: nat)
    requires b <= |f.blk| && (b < |f.blk| ==> i <= |f.blk[b].ins|)
  {
    && (forall c: nat, j: nat :: InFront(f, b, i, c, j) ==>
          && AccessOk(f.blk[c].ins[j], a, if r.Some? then r.value else 0)
          && (r.None? ==> !Accesses(f.blk[c].ins[j], a)))
    && (forall c: nat, k: nat :: c < b && k < |f.blk[c].phis| ==> PhiAvoids(f.blk[c].phis[k], a))
    && (forall c: nat :: c < b ==> f.blk[c].targ != Use(Temp(a)))
    && (r.Some? ==> TySize(r.value) > 0 && SomeAccess(f, a, r.value))
  }

  ghost predicate SomeAccess(f: Fn, a: nat, ty: nat) {
    exists c: nat, j: nat :: c < |f.blk| && j < |f.blk[c].ins| && Accesses(f.blk[c].ins[j], a) && f.blk[c].ins[j].ty == ty
  }

  // ---- phi placement --------------------------------------------------------------------

  // T holds the frontiers of the seeds and of its own members.
  ghost predicate Iterated(fron: seq<seq<nat>>, seeds: set<nat>, T: set<nat>) {
    forall b: nat, x: nat :: b < |fron| && (b in seeds || b in T) && x in fron[b] ==> x in T
  }

  ghost predicate StoreBlock(f: Fn, s: nat, b: nat, n: nat)
    requires b < |f.blk| && n <= |f.blk[b].ins|
  {
    exists i: nat :: i < n && Stores(f, {s}, s, b, i)
  }

  // The blocks with a store to the slot.
  method SeedBlocks(f: Fn, s: nat) returns (wl: seq<nat>)
    ensures forall b: nat :: b in wl <==> b < |f.blk| && StoreBlock(f, s, b, |f.blk[b].ins|)
  {
    wl := [];
    var b: nat := 0;
    while b < |f.blk|
      invariant b <= |f.blk|
      invariant forall c: nat :: c in wl <==> c < b && StoreBlock(f, s, c, |f.blk[c].ins|)
    {
      var has := false;
      var i: nat := 0;
      while i < |f.blk[b].ins|
        invariant i <= |f.blk[b].ins|
        invariant has <==> StoreBlock(f, s, b, i)
      {
        has := has || Stores(f, {s}, s, b, i);
        i := i + 1;
      }
      if has {
        wl := wl + [b];
      }
      b := b + 1;
    }
  }

  // The work list loop: the blocks that get a phi, in the order they get it.
  method PlacePhis(fron: seq<seq<nat>>, seeds: seq<nat>) returns (phi: seq<nat>)
    requires forall b: nat, k: nat :: b < |fron| && k < |fron[b]| ==> fron[b][k] < |fron|
    requires forall b: nat :: b in seeds ==> b < |fron|
    ensures forall i, j :: 0 <= i < j < |phi| ==> phi[i] != phi[j]
    ensures forall b: nat :: b in phi ==> b < |fron| && exists c: nat :: c < |fron| && b in fron[c]
    ensures Iterated(fron, ToSet(seeds), ToSet(phi))
    ensures forall T: set<nat> :: Iterated(fron, ToSet(seeds), T) ==> ToSet(phi) <= T
  {
    hide *;
    phi := [];
    var wl := seeds;
    PlacedStart(fron, seeds);
    while |wl| > 0
      invariant PlacedSoFar(fron, seeds, wl, phi)
      decreases Missing(|fron|, phi), |wl|
    {
      var b := wl[|wl| - 1];
      ghost var wl0, phi0 := wl, phi;
      assert b in wl;
      wl := wl[..|wl| - 1];
      assert wl + [b] == wl0;
      PlacedIn(fron, seeds, wl0, phi, b);
      var k: nat := 0;
      while k < |fron[b]|
        invariant k <= |fron[b]|
        invariant PlacedSoFar(fron, seeds, wl + [b], phi)
        invariant forall j: nat :: j < k ==> fron[b][j] in phi
        invariant (phi == phi0 && |wl| == |wl0| - 1) || Missing(|fron|, phi) < Missing(|fron|, phi0)
      {
        var d := fron[b][k];
        if d !in phi {
          PlaceOne(fron, seeds, wl, phi, b, d);
          phi := phi + [d];
          wl := wl + [d];
        }
        k := k + 1;
      }
      FrontierDone(fron, seeds, wl, phi, b);
    }
    PlacementDone(fron, seeds, wl, phi);
  }

  function ToSet(q: seq<nat>): set<nat> {
    set b | b in q
  }

  ghost function Missing(n: nat, phi: seq<nat>): set<nat> {
    set b: nat | b < n && b !in phi
  }

  // Seeds and phi blocks not on the work list have their frontiers covered.
  ghost predicate PlacedSoFar(fron: seq<seq<nat>>, seeds: seq<nat>, wl: seq<nat>, phi: seq<nat>) {
    && (forall b: nat :: b in wl ==> b < |fron| && (b in seeds || b in phi))
    && (forall b: nat, x: nat :: b < |fron| && (b in seeds || b in phi) && b !in wl && x in fron[b] ==> x in phi)
    && (forall i, j :: 0 <= i < j < |phi| ==> phi[i] != phi[j])
    && (forall b: nat :: b in phi ==> b < |fron| && exists c: nat :: c < |fron| && b in fron[c])
    && (forall T: set<nat> :: Iterated(fron, ToSet(seeds), T) ==> ToSet(phi) <= T)
  }

  lemma PlaceOne(fron: seq<seq<nat>>, seeds: seq<nat>, wl: seq<nat>, phi: seq<nat>, b: nat, d: nat)
    requires PlacedSoFar(fron, seeds, wl + [b], phi)
    requires b in wl + [b] && b < |fron| && d in fron[b] && d < |fron| && d !in phi
    ensures PlacedSoFar(fron, seeds, wl + [d] + [b], phi + [d])
    ensures Missing(|fron|, phi + [d]) < Missing(|fron|, phi)
  {
    var wl1, wl2 := wl + [b], wl + [d] + [b];
    assert forall x: nat :: x in wl2 <==> x in wl1 || x == d;
    assert b in wl1;
    forall T: set<nat> | Iterated(fron, ToSet(seeds), T) ensures ToSet(phi + [d]) <= T {
      assert ToSet(phi) <= T;
      assert b in ToSet(seeds) || b in ToSet(phi);
      assert d in T;
    }
    assert d in Missing(|fron|, phi);
  }

  lemma FrontierDone(fron: seq<seq<nat>>, seeds: seq<nat>, wl: seq<nat>, phi: seq<nat>, b: nat)
    requires PlacedSoFar(fron, seeds, wl + [b], phi) && b < |fron|
    requires forall j: nat :: j < |fron[b]| ==> fron[b][j] in phi
    ensures PlacedSoFar(fron, seeds, wl, phi)
  {
    var wl1 := wl + [b];
    assert forall x: nat :: x in wl1 <==> x in wl || x == b;
  }

  // ---- facts that unfold at once ----------------------------------------------------------

  lemma PlacedStart(fron: seq<seq<nat>>, seeds: seq<nat>)
    requires forall b: nat :: b in seeds ==> b < |fron|
    ensures PlacedSoFar(fron, seeds, seeds, [])
  {
  }

  lemma PlacedIn(fron: seq<seq<nat>>, seeds: seq<nat>, wl: seq<nat>, phi: seq<nat>, b: nat)
    requires PlacedSoFar(fron, seeds, wl, phi) && b in wl
    ensures b < |fron|
  {
  }

  lemma PlacementDone(fron: seq<seq<nat>>, seeds: seq<nat>, wl: seq<nat>, phi: seq<nat>)
    requires PlacedSoFar(fron, seeds, wl, phi) && |wl| == 0
    ensures Iterated(fron, ToSet(seeds), ToSet(phi))
    ensures forall i, j :: 0 <= i < j < |phi| ==> phi[i] != phi[j]
    ensures forall b: nat :: b in phi ==> b < |fron| && exists c: nat :: c < |fron| && b in fron[c]
    ensures forall T: set<nat> :: Iterated(fron, ToSet(seeds), T) ==> ToSet(phi) <= T
  {
  }
}
