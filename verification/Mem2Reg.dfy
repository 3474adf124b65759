// mir/mem2reg.c: phi placement, the renaming walk (run once as a probe, once
// for real) and the driver.  What the walk must produce is in Promotion.dfy.
module Mem2Reg {
  import opened Graph
  import opened DomTree
  import opened Mir
  import opened Promotion

  ghost predicate Shape(p: Plan) {
    |p.d| == |p.f.blk| && Complete(p.d) && WfFn(p.f)
  }

  // A work item: enter a block, or cut the stacks back to recorded heights.
  datatype Item = Enter(b: nat) | Unwind(mark: seq<nat>)

  // Heights alone matter to the probe, contents to the real walk.
  predicate Like(probe: bool, a: seq<Val>, b: seq<Val>) {
    if probe then |a| == |b| else a == b
  }

  ghost predicate Fits(p: Plan, slot: seq<nat>, probe: bool, st: seq<seq<Val>>, b: nat, i: int)
    requires Shape(p) && b < |p.f.blk| && -1 <= i <= |p.f.blk[b].ins|
  {
    |st| == |slot| && forall k :: 0 <= k < |slot| ==> Like(probe, st[k], StackAt(p, slot[k], b, i))
  }

  ghost predicate Cuttable(st: seq<seq<Val>>, mark: seq<nat>) {
    |mark| == |st| && forall k :: 0 <= k < |st| ==> mark[k] <= |st[k]|
  }

  function Cut(st: seq<seq<Val>>, mark: seq<nat>): (r: seq<seq<Val>>)
    requires |mark| == |st| && forall k :: 0 <= k < |st| ==> mark[k] <= |st[k]|
  {
    seq(|st|, k requires 0 <= k < |st| => st[k][..mark[k]])
  }

  // Worked off from the top, every block will be entered with its own stacks.
  ghost predicate WorkOk(p: Plan, slot: seq<nat>, probe: bool, work: seq<Item>, st: seq<seq<Val>>)
    requires Shape(p)
    decreases |work|
  {
    |work| == 0 ||
    (var rest := work[..|work| - 1];
     match work[|work| - 1]
     case Enter(b) => b < |p.f.blk| && Fits(p, slot, probe, st, b, -1) && WorkOk(p, slot, probe, rest, st)
     case Unwind(mark) => Cuttable(st, mark) && WorkOk(p, slot, probe, rest, Cut(st, mark)))
  }

  // Every block is entered already, waiting, or below a block not entered yet.
  ghost predicate Covered(d: Idom, work: seq<Item>, visited: set<nat>)
    requires Complete(d)
  {
    && (forall b: nat :: b in visited ==> b < |d| && (b != 0 ==> ParentOf(d, b) in visited))
    && WaitingOk(d, work, visited)
    && (forall i, j :: 0 <= i < j < |work| && work[i].Enter? && work[j].Enter? ==> work[i].b != work[j].b)
    && (forall b: nat :: Due(d, visited, b) ==> b in visited || Enter(b) in work)
  }

  ghost predicate WaitingOk(d: Idom, work: seq<Item>, visited: set<nat>) {
    forall i :: 0 <= i < |work| && work[i].Enter? ==>
      && work[i].b < |d| && work[i].b !in visited
      && (work[i].b != 0 ==> ParentOf(d, work[i].b) in visited)
  }

  ghost predicate Due(d: Idom, visited: set<nat>, b: nat) {
    b == 0 || (b < |d| && ParentOf(d, b) in visited)
  }

  function ParentOf(d: Idom, b: nat): nat {
    if b < |d| && d[b].Some? then d[b].value else 0
  }

  lemma {:induction false} AllEntered(d: Idom, work: seq<Item>, visited: set<nat>, b: nat)
    requires Complete(d) && |work| == 0 && Covered(d, work, visited) && b < |d|
    ensures b in visited
    decreases b
  {
    if b != 0 {
      assert Placed(d, b);
      AllEntered(d, work, visited, d[b].value);
      assert ParentOf(d, b) in visited;
    }
    assert Due(d, visited, b);
  }

  // The children of b in the dominator tree.
  ghost predicate KidsOf(d: Idom, kids: seq<seq<nat>>)
    requires |d| > 0
  {
    && |kids| == |d|
    && (forall b: nat, i: nat :: b < |kids| && i < |kids[b]| ==> 0 < kids[b][i] < |d| && d[kids[b][i]] == Some(b))
    && (forall b: nat, i: nat, j: nat :: b < |kids| && i < j < |kids[b]| ==> kids[b][i] != kids[b][j])
    && (forall c: nat, b: nat :: 0 < c < |d| && d[c] == Some(b) && b < |kids| ==> c in kids[b])
  }

  // The children numbered below i have been recorded.
  ghost predicate KidsBelow(d: Idom, kids: seq<seq<nat>>, i: nat) {
    && i <= |d| == |kids|
    && (forall b: nat :: b < |kids| ==> KidsAt(d, kids[b], b, i))
  }

  ghost predicate KidsAt(d: Idom, ks: seq<nat>, b: nat, i: nat)
    requires i <= |d|
  {
    && (forall j :: 0 <= j < |ks| ==> 0 < ks[j] < i && d[ks[j]] == Some(b))
    && (forall j, k :: 0 <= j < k < |ks| ==> ks[j] != ks[k])
    && (forall c: nat :: 0 < c < i && d[c] == Some(b) ==> c in ks)
  }

  lemma KidsNext(d: Idom, kids: seq<seq<nat>>, i: nat)
    requires KidsBelow(d, kids, i) && 0 < i < |d| && d[i].Some? && d[i].value < i
    ensures KidsBelow(d, kids[d[i].value := kids[d[i].value] + [i]], i + 1)
  {
    hide KidsAt;
    var u := d[i].value;
    var kids' := kids[u := kids[u] + [i]];
    forall b: nat | b < |kids'| ensures KidsAt(d, kids'[b], b, i + 1) {
      assert KidsAt(d, kids[b], b, i);
      KidsAtNext(d, kids[b], b, i);
    }
  }

  lemma KidsAtNext(d: Idom, ks: seq<nat>, b: nat, i: nat)
    requires i < |d| && 0 < i && KidsAt(d, ks, b, i)
    ensures KidsAt(d, if d[i] == Some(b) then ks + [i] else ks, b, i + 1)
  {
    var ks' := if d[i] == Some(b) then ks + [i] else ks;
    forall j | 0 <= j < |ks'| ensures 0 < ks'[j] < i + 1 && d[ks'[j]] == Some(b) {
      if j < |ks| {
        assert ks'[j] == ks[j];
      }
    }
    forall c: nat | 0 < c < i + 1 && d[c] == Some(b) ensures c in ks' {
      if c == i {
        assert ks'[|ks|] == i;
      } else {
        assert c in ks;
      }
    }
  }

  lemma KidsDone(d: Idom, kids: seq<seq<nat>>)
    requires |d| > 0 && KidsBelow(d, kids, |d|)
    ensures KidsOf(d, kids)
  {
    forall b: nat | b < |kids| ensures KidsAt(d, kids[b], b, |d|) {
    }
  }

  function EnterAll(ks: seq<nat>): (r: seq<Item>)
    ensures |r| == |ks|
  {
    seq(|ks|, i requires 0 <= i < |ks| => Enter(ks[i]))
  }

  // The work list after entering its top block b: b's children over a marker.
  ghost predicate Expands(d: Idom, work: seq<Item>, visited: set<nat>, b: nat, ks: seq<nat>)
  {
    && Complete(d) && |work| > 0 && work[|work| - 1] == Enter(b) && Covered(d, work, visited)
    && (forall i :: 0 <= i < |ks| ==> 0 < ks[i] < |d| && d[ks[i]] == Some(b))
    && (forall i, j :: 0 <= i < j < |ks| ==> ks[i] != ks[j])
    && (forall c: nat :: 0 < c < |d| && d[c] == Some(b) ==> c in ks)
  }

  function Expanded(work: seq<Item>, mark: seq<nat>, ks: seq<nat>): seq<Item>
    requires |work| > 0
  {
    work[..|work| - 1] + [Unwind(mark)] + EnterAll(ks)
  }

  lemma WaitingStep(d: Idom, work: seq<Item>, visited: set<nat>, b: nat, mark: seq<nat>, ks: seq<nat>)
    requires Expands(d, work, visited, b, ks)
    ensures WaitingOk(d, Expanded(work, mark, ks), visited + {b})
  {
    var w := Expanded(work, mark, ks);
    forall i | 0 <= i < |w| && w[i].Enter?
      ensures w[i].b < |d| && w[i].b !in visited + {b} && (w[i].b != 0 ==> ParentOf(d, w[i].b) in visited + {b})
    {
      ExpandedAt(work, mark, ks, i);
      assert work[|work| - 1].b !in visited;
      if i < |work| - 1 {
        assert work[i].b != work[|work| - 1].b;
      } else {
        assert ParentOf(d, w[i].b) == b;
      }
    }
  }

  lemma DistinctStep(d: Idom, work: seq<Item>, visited: set<nat>, b: nat, mark: seq<nat>, ks: seq<nat>)
    requires Expands(d, work, visited, b, ks)
    ensures var w := Expanded(work, mark, ks);
            forall i, j :: 0 <= i < j < |w| && w[i].Enter? && w[j].Enter? ==> w[i].b != w[j].b
  {
    var w := Expanded(work, mark, ks);
    forall i, j | 0 <= i < j < |w| && w[i].Enter? && w[j].Enter? ensures w[i].b != w[j].b {
      ExpandedAt(work, mark, ks, i);
      ExpandedAt(work, mark, ks, j);
      if i < |work| - 1 && j >= |work| {
        assert ParentOf(d, w[j].b) == b && work[|work| - 1].b !in visited;
        assert work[i].b != 0 ==> ParentOf(d, work[i].b) in visited;
      }
    }
  }

  lemma DueStep(d: Idom, work: seq<Item>, visited: set<nat>, b: nat, mark: seq<nat>, ks: seq<nat>, c: nat)
    requires Expands(d, work, visited, b, ks)
    requires Due(d, visited + {b}, c) && c !in visited + {b}
    ensures Enter(c) in Expanded(work, mark, ks)
  {
    var w := Expanded(work, mark, ks);
    if Due(d, visited, c) {
      assert Enter(c) in work;
      var i :| 0 <= i < |work| && work[i] == Enter(c);
      assert w[i] == Enter(c);
    } else {
      assert Placed(d, c) && c in ks;
      var i :| 0 <= i < |ks| && ks[i] == c;
      assert w[|work| + i] == Enter(c);
    }
  }

  lemma CoveredStep(d: Idom, work: seq<Item>, visited: set<nat>, b: nat, mark: seq<nat>, ks: seq<nat>)
    requires Expands(d, work, visited, b, ks)
    ensures Covered(d, work[..|work| - 1] + [Unwind(mark)] + EnterAll(ks), visited + {b})
  {
    WaitingStep(d, work, visited, b, mark, ks);
    DistinctStep(d, work, visited, b, mark, ks);
    assert WaitingOk(d, work, visited) && work[|work| - 1].Enter?;
    forall c: nat | Due(d, visited + {b}, c) ensures c in visited + {b} || Enter(c) in Expanded(work, mark, ks) {
      if c !in visited + {b} {
        DueStep(d, work, visited, b, mark, ks, c);
      }
    }
  }

  lemma CoveredPop(d: Idom, work: seq<Item>, visited: set<nat>)
    requires Complete(d) && |work| > 0 && work[|work| - 1].Unwind? && Covered(d, work, visited)
    ensures Covered(d, work[..|work| - 1], visited)
  {
    var rest := work[..|work| - 1];
    forall b: nat | Due(d, visited, b) && b !in visited ensures Enter(b) in rest {
      var i :| 0 <= i < |work| && work[i] == Enter(b);
      assert rest[i] == Enter(b);
    }
  }

  // Pushing the children over an unwind marker keeps the work list in order.
  lemma {:induction false} WorkStep(p: Plan, slot: seq<nat>, probe: bool, rest: seq<Item>, before: seq<seq<Val>>,
                                    st: seq<seq<Val>>, mark: seq<nat>, b: nat, ks: seq<nat>, n: nat)
    requires Shape(p) && b < |p.f.blk| && n <= |ks|
    requires WorkOk(p, slot, probe, rest, before) && Cuttable(st, mark) && Cut(st, mark) == before
    requires Fits(p, slot, probe, st, b, |p.f.blk[b].ins|)
    requires forall i :: 0 <= i < |ks| ==> 0 < ks[i] < |p.d| && p.d[ks[i]] == Some(b)
    ensures WorkOk(p, slot, probe, rest + [Unwind(mark)] + EnterAll(ks)[..n], st)
  {
    hide Fits;
    var w := rest + [Unwind(mark)] + EnterAll(ks)[..n];
    if n == 0 {
      assert w[..|w| - 1] == rest;
    } else {
      WorkStep(p, slot, probe, rest, before, st, mark, b, ks, n - 1);
      assert w[..|w| - 1] == rest + [Unwind(mark)] + EnterAll(ks)[..n - 1];
      assert w[|w| - 1] == Enter(ks[n - 1]);
      FitsChild(p, slot, probe, st, b, ks[n - 1]);
    }
  }

  // A child starts from the stacks its parent ends with.
  lemma FitsChild(p: Plan, slot: seq<nat>, probe: bool, st: seq<seq<Val>>, b: nat, c: nat)
    requires Shape(p) && b < |p.f.blk| && 0 < c < |p.f.blk| && p.d[c] == Some(b)
    requires Fits(p, slot, probe, st, b, |p.f.blk[b].ins|)
    ensures Fits(p, slot, probe, st, c, -1)
  {
    forall k | 0 <= k < |slot| ensures Like(probe, st[k], StackAt(p, slot[k], c, -1)) {
      assert EntryStack(p, slot[k], c) == OutStack(p, slot[k], b);
      assert StackAt(p, slot[k], b, |p.f.blk[b].ins|) == OutStack(p, slot[k], b);
    }
  }

  // ---- arguments of the new phis ---------------------------------------------------

  // One argument for every edge from a visited block, and it is the slot's value there.
  ghost predicate ArgsOk(p: Plan, s: nat, x: nat, args: seq<PhiArg>, visited: set<nat>)
    requires Shape(p)
  {
    && (forall i :: 0 <= i < |args| ==> ArgRight(p, s, args[i]))
    && (forall q: nat :: q < |p.f.blk| ==> CountFrom(args, q) == if q in visited then EdgeCount(p.f.g, q, x) else 0)
  }

  ghost predicate ArgRight(p: Plan, s: nat, a: PhiArg)
    requires Shape(p)
  {
    a.blk < |p.f.blk| && Top(OutStack(p, s, a.blk)) == Some(a.v)
  }

  lemma {:induction false} ArgFound(p: Plan, s: nat, args: seq<PhiArg>, q: nat)
    requires Shape(p) && q < |p.f.blk| && forall i :: 0 <= i < |args| ==> ArgRight(p, s, args[i])
    requires CountFrom(args, q) > 0
    ensures ArgFrom(args, q) == Top(OutStack(p, s, q))
    decreases |args|
  {
    assert ArgRight(p, s, args[0]);
    if args[0].blk != q {
      CountTail(args, q);
      forall i | 0 <= i < |args[1..]| ensures ArgRight(p, s, args[1..][i]) {
        assert ArgRight(p, s, args[i + 1]);
      }
      ArgFound(p, s, args[1..], q);
    }
  }

  lemma {:induction false} CountTail(args: seq<PhiArg>, q: nat)
    requires |args| > 0
    ensures CountFrom(args, q) == CountFrom(args[1..], q) + if args[0].blk == q then 1 else 0
    decreases |args|
  {
    if |args| > 1 {
      CountTail(args[..|args| - 1], q);
      assert args[..|args| - 1][1..] == args[1..][..|args| - 2];
    }
  }

  lemma CountSnoc(args: seq<PhiArg>, a: PhiArg, q: nat)
    ensures CountFrom(args + [a], q) == CountFrom(args, q) + if a.blk == q then 1 else 0
  {
    assert (args + [a])[..|args|] == args;
  }

  // ---- undefined reads -----------------------------------------------------------------

  // Block b reads slot s, or hands it to a phi, where no store has reached.
  ghost predicate UndefIn(p: Plan, s: nat, b: nat)
    requires Shape(p)
  {
    b < |p.f.blk| && (UndefLoad(p, s, b, |p.f.blk[b].ins|) || UndefEdge(p, s, b, p.f.g.s1[b]) || UndefEdge(p, s, b, p.f.g.s2[b]))
  }

  ghost predicate UndefLoad(p: Plan, s: nat, b: nat, n: nat)
    requires Shape(p) && b < |p.f.blk| && n <= |p.f.blk[b].ins|
  {
    exists i: nat :: i < n && UndefAt(p, s, b, i)
  }

  ghost predicate UndefEdge(p: Plan, s: nat, b: nat, x: Option<nat>)
    requires Shape(p) && b < |p.f.blk|
  {
    x.Some? && (s, x.value) in p.F && OutStack(p, s, b) == []
  }

  // The stacks at the end of b tell what goes along the edge to x.
  lemma EdgeStack(p: Plan, slot: seq<nat>, probe: bool, st: seq<seq<Val>>, b: nat, x: Option<nat>, k: nat)
    requires Shape(p) && b < |p.f.blk| && Fits(p, slot, probe, st, b, |p.f.blk[b].ins|) && k < |slot|
    ensures |st| == |slot| && (!probe ==> st[k] == OutStack(p, slot[k], b))
    ensures UndefEdge(p, slot[k], b, x) <==> x.Some? && (slot[k], x.value) in p.F && st[k] == []
  {
    assert Like(probe, st[k], StackAt(p, slot[k], b, |p.f.blk[b].ins|));
    assert StackAt(p, slot[k], b, |p.f.blk[b].ins|) == OutStack(p, slot[k], b);
  }

  // ---- the renaming walk ------------------------------------------------------------------

  // Block b rewritten, the allocas still in place.
  ghost function Row(p: Plan, b: nat, n: nat): seq<Ins>
    requires Shape(p) && b < |p.f.blk| && n <= |p.f.blk[b].ins|
  {
    seq(n, i requires 0 <= i < n => Rewritten(p, b, i)) + p.f.blk[b].ins[n..]
  }

  function SetOf(slot: seq<nat>): set<nat> {
    set s | s in slot
  }

  // Empty stacks, no flags.
  ghost predicate Blank(n: nat, stack: seq<seq<Val>>, undef: seq<bool>) {
    && |stack| == |undef| == n
    && (forall k :: 0 <= k < n ==> stack[k] == [] && !undef[k])
  }

  ghost predicate Unchanged(f: Fn, ins: seq<seq<Ins>>) {
    |ins| == |f.blk| && forall b: nat :: b < |ins| ==> ins[b] == f.blk[b].ins
  }

  ghost predicate ReadyAs(f: Fn, d: Idom, slot: seq<nat>, phi: set<(nat, nat)>, args: map<(nat, nat), seq<PhiArg>>,
                          ins: seq<seq<Ins>>, stack: seq<seq<Val>>, undef: seq<bool>)
  {
    && Shape(Plan.Plan(f, SetOf(slot), d, phi))
    && (forall i, j :: 0 <= i < j < |slot| ==> slot[i] != slot[j])
    && |stack| == |slot| == |undef| && |ins| == |f.blk|
    && (forall s: nat, x: nat :: (s, x) in phi ==> s in slot && x < |f.blk| && (s, x) in args)
  }

  // The slots without a flag, in order.
  function Unflagged(slot: seq<nat>, flag: seq<bool>): seq<nat>
    requires |slot| == |flag|
  {
    if |slot| == 0 then []
    else
      var n := |slot| - 1;
      Unflagged(slot[..n], flag[..n]) + if flag[n] then [] else [slot[n]]
  }

  lemma {:induction false} UnflaggedAre(slot: seq<nat>, flag: seq<bool>)
    requires |slot| == |flag| && forall i, j :: 0 <= i < j < |slot| ==> slot[i] != slot[j]
    ensures forall a: nat :: a in Unflagged(slot, flag) <==> exists k :: 0 <= k < |slot| && slot[k] == a && !flag[k]
    ensures forall i, j :: 0 <= i < j < |Unflagged(slot, flag)| ==> Unflagged(slot, flag)[i] != Unflagged(slot, flag)[j]
  {
    if |slot| > 0 {
      var n := |slot| - 1;
      UnflaggedAre(slot[..n], flag[..n]);
      forall a: nat ensures a in Unflagged(slot, flag) <==> exists k :: 0 <= k < |slot| && slot[k] == a && !flag[k] {
        if a in Unflagged(slot[..n], flag[..n]) {
          var k :| 0 <= k < n && slot[..n][k] == a && !flag[..n][k];
          assert slot[k] == a && !flag[k];
        }
        if k :| 0 <= k < |slot| && slot[k] == a && !flag[k] {
          assert k < n ==> slot[..n][k] == a && !flag[..n][k];
        }
      }
      assert slot[n] !in Unflagged(slot[..n], flag[..n]);
    }
  }

  class Renamer {
    const f: Fn
    const d: Idom
    var slot: seq<nat>                       // the alloca result of each slot
    var phi: set<(nat, nat)>                 // (slot, block) pairs that have a new phi
    var args: map<(nat, nat), seq<PhiArg>>   // the new phis' arguments
    var ins: seq<seq<Ins>>                   // the instruction arrays, rewritten in place
    var stack: seq<seq<Val>>                 // per slot, the values current on the way down
    var undef: seq<bool>                     // per slot, set by the probe

    ghost function P(): Plan
      reads this`slot, this`phi
    {
      Plan.Plan(f, SetOf(slot), d, phi)
    }

    ghost predicate Ready()
      reads this`slot, this`phi, this`args, this`ins, this`stack, this`undef
    {
      ReadyAs(f, d, slot, phi, args, ins, stack, undef)
    }

    lemma IsReady()
      requires ReadyAs(f, d, slot, phi, args, ins, stack, undef)
      ensures Ready() && P() == Plan.Plan(f, SetOf(slot), d, phi)
    {
    }

    lemma ReadyParts()
      requires Ready()
      ensures Shape(P()) && P().f == f && P().d == d && P().F == phi && |d| == |f.blk| && |d| > 0 && Complete(d)
      ensures P() == Plan.Plan(f, SetOf(slot), d, phi)
      ensures |stack| == |slot| == |undef| && |ins| == |f.blk|
      ensures ReadyAs(f, d, slot, phi, args, ins, stack, undef)
      ensures forall s: nat, x: nat :: (s, x) in phi ==> (s, x) in args
      ensures forall i, j :: 0 <= i < j < |slot| ==> slot[i] != slot[j]
    {
    }

    constructor (f: Fn, d: Idom, slot: seq<nat>, phi: set<(nat, nat)>, args: map<(nat, nat), seq<PhiArg>>)
      ensures this.f == f && this.d == d && this.slot == slot && this.phi == phi && this.args == args
      ensures Unchanged(f, ins) && Blank(|slot|, stack, undef)
    {
      this.f, this.d, this.slot, this.phi, this.args := f, d, slot, phi, args;
      ins := seq(|f.blk|, b requires 0 <= b < |f.blk| => f.blk[b].ins);
      stack := seq(|slot|, _ => []);
      undef := seq(|slot|, _ => false);
    }

    // After the probe: retract the flagged slots and their phis, close the
    // slot table up, and start over with empty stacks.
    method Retract()
      requires |undef| == |slot|
      modifies this`slot, this`phi, this`stack, this`undef
      ensures slot == Unflagged(old(slot), old(undef))
      ensures phi == set e | e in old(phi) && e.0 in SetOf(slot)
      ensures Blank(|slot|, stack, undef)
    {
      var kept: seq<nat> := [];
      var k := 0;
      while k < |slot|
        invariant 0 <= k <= |slot| && kept == Unflagged(slot[..k], undef[..k])
      {
        assert slot[..k + 1][..k] == slot[..k] && undef[..k + 1][..k] == undef[..k];
        if !undef[k] {
          kept := kept + [slot[k]];
        }
        k := k + 1;
      }
      assert slot[..k] == slot && undef[..k] == undef;
      slot := kept;
      phi := set e | e in phi && e.0 in SetOf(kept);
      stack := seq(|kept|, _ => []);
      undef := seq(|kept|, _ => false);
    }

    // slotof[]: the index of the slot a reference addresses, -1 if none.
    method SlotIndex(r: Ref) returns (k: int)
      ensures -1 <= k < |slot|
      ensures k == -1 <==> SlotOf(r, P().S).None?
      ensures k >= 0 ==> SlotOf(r, P().S) == Some(slot[k])
    {
      k := -1;
      if r.Use? && r.v.Temp? {
        var i := 0;
        while i < |slot|
          invariant 0 <= i <= |slot|
          invariant r.v.id !in slot[..i]
        {
          if slot[i] == r.v.id {
            return i;
          }
          assert slot[..i + 1] == slot[..i] + [slot[i]];
          i := i + 1;
        }
        assert slot[..i] == slot;
      }
    }

    // 1. phis defined in b become the current value of their slot.
    method PushPhis(b: nat, probe: bool)
      requires Ready() && b < |f.blk| && Fits(P(), slot, probe, stack, b, -1)
      modifies this`stack
      ensures Ready() && Fits(P(), slot, probe, stack, b, 0)
      ensures Grown(old(stack), stack)
    {
      var k := 0;
      while k < |slot|
        invariant 0 <= k <= |slot| && |stack| == |slot|
        invariant forall j :: 0 <= j < k ==> Like(probe, stack[j], StackAt(P(), slot[j], b, 0)) && old(stack[j]) <= stack[j]
        invariant forall j :: k <= j < |slot| ==> stack[j] == old(stack[j])
      {
        if (slot[k], b) in phi {
          stack := stack[k := stack[k] + [PhiTemp(slot[k], b)]];
        }
        k := k + 1;
      }
    }

    // 2. one instruction of the body.
    method RenameIns(b: nat, i: nat, probe: bool)
      requires Ready() && b < |f.blk| && i < |f.blk[b].ins| && Fits(P(), slot, probe, stack, b, i)
      requires i < |ins[b]| && ins[b][i] == f.blk[b].ins[i]
      requires probe || NoUndefLoad(P(), slot, b)
      modifies this`stack, this`ins, this`undef
      ensures Ready() && |undef| == |slot| && Fits(P(), slot, probe, stack, b, i + 1)
      ensures Grown(old(stack), stack)
      ensures probe ==> ins == old(ins)
      ensures !probe ==> undef == old(undef) && ins == old(ins)[b := old(ins)[b][i := Rewritten(P(), b, i)]]
      ensures probe ==> forall k :: 0 <= k < |slot| ==> (undef[k] <==> old(undef[k]) || UndefAt(P(), slot[k], b, i))
    {
      var x := ins[b][i];
      if x.Load? {
        var k := SlotIndex(x.addr);
        if k >= 0 {
          RenameLoad(b, i, k, probe);
          return;
        }
      } else if x.Store? {
        var k := SlotIndex(x.addr);
        if k >= 0 {
          RenameStore(b, i, k, probe);
          return;
        }
      }
      NothingPushed(P(), slot, probe, stack, b, i);
      assert ins[b][i := x] == ins[b];
    }

    method RenameLoad(b: nat, i: nat, k: nat, probe: bool)
      requires Ready() && b < |f.blk| && i < |f.blk[b].ins| && Fits(P(), slot, probe, stack, b, i)
      requires i < |ins[b]| && ins[b][i] == f.blk[b].ins[i]
      requires probe || NoUndefLoad(P(), slot, b)
      requires k < |slot| && Loads(f, P().S, slot[k], b, i)
      modifies this`ins, this`undef
      ensures Ready() && Fits(P(), slot, probe, stack, b, i + 1)
      ensures probe ==> ins == old(ins)
      ensures !probe ==> undef == old(undef) && ins == old(ins)[b := old(ins)[b][i := Rewritten(P(), b, i)]]
      ensures probe ==> forall j :: 0 <= j < |slot| ==> (undef[j] <==> old(undef[j]) || UndefAt(P(), slot[j], b, i))
    {
      var x := ins[b][i];
      NothingPushed(P(), slot, probe, stack, b, i);
      assert Like(probe, stack[k], StackAt(P(), slot[k], b, i));
      var cur := Top(stack[k]);
      if cur.None? {
        assert UndefAt(P(), slot[k], b, i);
        assert probe;
        undef := undef[k := true];
      } else if !probe {
        // %dst = load %slot becomes %dst = copy %cur
        ins := ins[b := ins[b][i := Copy(x.dst, Use(cur.value), x.ty)]];
      }
    }

    method RenameStore(b: nat, i: nat, k: nat, probe: bool)
      requires Ready() && b < |f.blk| && i < |f.blk[b].ins| && Fits(P(), slot, probe, stack, b, i)
      requires i < |ins[b]| && ins[b][i] == f.blk[b].ins[i]
      requires k < |slot| && Stores(f, P().S, slot[k], b, i)
      modifies this`stack, this`ins
      ensures Ready() && Fits(P(), slot, probe, stack, b, i + 1)
      ensures Grown(old(stack), stack)
      ensures probe ==> ins == old(ins)
      ensures !probe ==> ins == old(ins)[b := old(ins)[b][i := Rewritten(P(), b, i)]]
    {
      var x := ins[b][i];
      var v: Val;
      if x.val.Use? {
        v := x.val.v;
        if !probe {
          ins := ins[b := ins[b][i := Nop]];
        }
      } else if probe {
        // only the height matters: the slot's own address is the placeholder
        v := Temp(slot[k]);
      } else {
        v := ConstTemp(b, i);
        ins := ins[b := ins[b][i := Copy(v, x.val, x.ty)]];
      }
      OnePushed(P(), slot, probe, stack, b, i, k, v);
      stack := stack[k := stack[k] + [v]];
    }

    method RenameBody(b: nat, probe: bool)
      requires Ready() && Shape(P()) && P().f == f && |undef| == |slot| && b < |f.blk| && b < |ins| && ins[b] == f.blk[b].ins
      requires Fits(P(), slot, probe, stack, b, 0)
      requires probe || NoUndefLoad(P(), slot, b)
      modifies this`stack, this`ins, this`undef
      ensures Ready()
      ensures BodySoFar(P(), slot, probe, b, |f.blk[b].ins|, old(stack), old(ins), old(undef), stack, ins, undef)
    {
      hide *;
      var i: nat := 0;
      ghost var p, st0, ins0, undef0 := P(), stack, ins, undef;
      BodyStart(p, slot, probe, b, stack, ins, undef);
      while i < |ins[b]|
        invariant Ready() && P() == p && b < |ins| && i <= |f.blk[b].ins| == |ins[b]| && |undef| == |slot|
        invariant BodySoFar(p, slot, probe, b, i, st0, ins0, undef0, stack, ins, undef)
      {
        BodyHere(p, slot, probe, b, i, st0, ins0, undef0, stack, ins, undef);
        ghost var st1, ins1, undef1 := stack, ins, undef;
        RenameIns(b, i, probe);
        BodyNext(p, slot, probe, b, i, st0, ins0, undef0, st1, ins1, undef1, stack, ins, undef);
        i := i + 1;
      }
    }

    // 3. the phi argument of slot k for the edge from b to x.
    method FillOne(b: nat, x: nat, k: nat, probe: bool)
      requires Ready() && b < |f.blk| && Fits(P(), slot, probe, stack, b, |f.blk[b].ins|) && k < |slot|
      requires probe || !UndefEdge(P(), slot[k], b, Some(x))
      modifies this`args, this`undef
      ensures Ready() && args.Keys == old(args).Keys
      ensures probe ==> args == old(args)
      ensures probe ==> undef == old(undef)[k := old(undef[k]) || UndefEdge(P(), slot[k], b, Some(x))]
      ensures !probe ==> undef == old(undef)
      ensures !probe ==> forall s: nat, y: nat :: (s, y) in phi && s != slot[k] ==> args[(s, y)] == old(args)[(s, y)]
      ensures !probe ==> forall y: nat :: (slot[k], y) in phi ==>
                ArgAdded(P(), slot[k], y, b, Some(x), old(args)[(slot[k], y)], args[(slot[k], y)])
    {
      hide Fits;
      hide UndefEdge;
      hide StackAt;
      hide OutStack;
      hide Shape;
      var key := (slot[k], x);
      EdgeStack(P(), slot, probe, stack, b, Some(x), k);
      if key in phi {
        var cur := Top(stack[k]);
        if cur.None? {
          undef := undef[k := true];
        } else if !probe {
          args := args[key := args[key] + [PhiArg(cur.value, b)]];
        }
      }
    }

    // 3. the phi arguments for the edge from b to x.
    method FillEdge(b: nat, x: Option<nat>, probe: bool)
      requires Ready() && b < |f.blk| && Fits(P(), slot, probe, stack, b, |f.blk[b].ins|)
      requires probe || forall k :: 0 <= k < |slot| ==> !UndefEdge(P(), slot[k], b, x)
      modifies this`args, this`undef
      ensures Ready() && args.Keys == old(args).Keys
      ensures probe ==> args == old(args)
      ensures !probe ==> undef == old(undef)
      ensures !probe ==> forall s: nat, y: nat :: (s, y) in phi ==> ArgAdded(P(), s, y, b, x, old(args)[(s, y)], args[(s, y)])
      ensures probe ==> forall k :: 0 <= k < |slot| ==> (undef[k] <==> old(undef[k]) || UndefEdge(P(), slot[k], b, x))
    {
      hide Fits;
      hide UndefEdge;
      hide Shape;
      hide ArgAdded;
      if x.None? {
        NoEdge(P(), b);
        return;
      }
      var k := 0;
      while k < |slot|
        invariant 0 <= k <= |slot| && Ready() && args.Keys == old(args).Keys
        invariant probe ==> args == old(args)
        invariant !probe ==> undef == old(undef)
        invariant !probe ==> forall j, y: nat :: 0 <= j < k && (slot[j], y) in phi ==>
                    ArgAdded(P(), slot[j], y, b, x, old(args)[(slot[j], y)], args[(slot[j], y)])
        invariant !probe ==> forall j, y: nat :: k <= j < |slot| && (slot[j], y) in phi ==>
                    args[(slot[j], y)] == old(args)[(slot[j], y)]
        invariant probe ==> forall j :: 0 <= j < k ==> (undef[j] <==> old(undef[j]) || UndefEdge(P(), slot[j], b, x))
        invariant probe ==> forall j :: k <= j < |slot| ==> undef[j] == old(undef[j])
      {
        assert forall j :: 0 <= j < |slot| && j != k ==> slot[j] != slot[k];
        FillOne(b, x.value, k, probe);
        k := k + 1;
      }
      assert forall s: nat, y: nat :: (s, y) in phi ==> exists j :: 0 <= j < |slot| && slot[j] == s;
    }

    // Steps 1 to 3 for one block; mark records the stack heights on entry.
    method EnterBlock(b: nat, probe: bool) returns (mark: seq<nat>)
      requires Ready() && b < |f.blk| && ins[b] == f.blk[b].ins && Fits(P(), slot, probe, stack, b, -1)
      requires probe || forall k :: 0 <= k < |slot| ==> !UndefIn(P(), slot[k], b)
      modifies this`stack, this`ins, this`args, this`undef
      ensures Ready() && Fits(P(), slot, probe, stack, b, |f.blk[b].ins|)
      ensures Cuttable(stack, mark) && Cut(stack, mark) == old(stack)
      ensures probe ==> ins == old(ins) && args == old(args)
      ensures probe ==> forall k :: 0 <= k < |slot| ==> (undef[k] <==> old(undef[k]) || UndefIn(P(), slot[k], b))
      ensures !probe ==> undef == old(undef) && ins == old(ins)[b := Row(P(), b, |f.blk[b].ins|)]
      ensures !probe ==> forall s: nat, y: nat :: (s, y) in phi ==> BothAdded(P(), s, y, b, old(args)[(s, y)], args[(s, y)])
    {
      mark := seq(|slot|, k requires 0 <= k < |slot| && |stack| == |slot| reads this => |stack[k]|);
      ghost var st0 := stack;
      PushPhis(b, probe);
      ghost var st1 := stack;
      assert !probe ==> NoUndefLoad(P(), slot, b) by {
        if !probe { NoUndefInBlock(P(), slot, b); }
      }
      ghost var ins1, undef1 := ins, undef;
      RenameBody(b, probe);
      BodyEnd(P(), slot, probe, b, st1, ins1, undef1, stack, ins, undef);
      hide BodySoFar;
      GrownTrans(st0, st1, stack);
      ghost var a0 := args;
      FillEdge(b, f.g.s1[b], probe);
      ghost var a1 := args;
      FillEdge(b, f.g.s2[b], probe);
      CutBack(st0, stack, mark);
      if !probe {
        forall s: nat, y: nat | (s, y) in phi ensures BothAdded(P(), s, y, b, a0[(s, y)], args[(s, y)]) {
          assert ArgAdded(P(), s, y, b, f.g.s1[b], a0[(s, y)], a1[(s, y)]);
          assert ArgAdded(P(), s, y, b, f.g.s2[b], a1[(s, y)], args[(s, y)]);
        }
      }
    }

    // Dominator-tree children, from idom.
    method BuildKids() returns (kids: seq<seq<nat>>)
      requires Complete(d)
      ensures KidsOf(d, kids)
    {
      kids := seq(|d|, _ => []);
      var i: nat := 1;
      assert KidsBelow(d, kids, 1);
      hide KidsBelow;
      while i < |d|
        invariant 1 <= i <= |d| && |kids| == |d| && KidsBelow(d, kids, i)
      {
        assert Placed(d, i);
        KidsNext(d, kids, i);
        var u := d[i].value;
        kids := kids[u := kids[u] + [i]];
        i := i + 1;
      }
      KidsDone(d, kids);
    }

    // m2r_rename: the walk over the dominator tree with an explicit work list.
    method Rename(probe: bool)
      requires Ready() && Started(P(), stack, args, ins)
      requires probe || forall k: nat, b: nat :: k < |slot| ==> !UndefIn(P(), slot[k], b)
      modifies this`stack, this`ins, this`args, this`undef
      ensures Ready() && |undef| == |slot| && |ins| == |f.blk|
      ensures probe ==> ins == old(ins) && args == old(args) && Flagged(P(), slot, old(undef), undef)
      ensures !probe ==> undef == old(undef) && Renamed(P(), args, ins)
    {
      hide *;
      ghost var p, ins0, args0, undef0 := P(), ins, args, undef;
      ReadyParts();
      var kids := BuildKids();
      var work := [Enter(0)];
      ghost var visited: set<nat> := {};
      WalkStart(p, slot, probe, stack, args, ins, undef);
      while |work| > 0
        invariant Ready() && P() == p
        invariant WorkOk(p, slot, probe, work, stack) && Covered(d, work, visited)
        invariant WalkSoFar(p, slot, probe, visited, ins0, args0, undef0, ins, args, undef)
        decreases Left(d, visited), |work|
      {
        var it := work[|work| - 1];
        ghost var before, v0 := work, visited;
        ReadyParts();
        work := work[..|work| - 1];
        if it.Unwind? {
          CoveredPop(d, before, visited);
          WorkPop(p, slot, probe, before, stack);
          ReadyCut(f, d, slot, phi, args, ins, stack, undef, it.mark);
          stack := Cut(stack, it.mark);
          IsReady();
        } else {
          ghost var rest, st0, ins1, args1, undef1 := work, stack, ins, args, undef;
          WalkEnter(p, slot, probe, before, visited, stack, ins0, args0, undef0, ins, args, undef);
          KidsExpand(d, kids, before, visited, it.b);
          var mark := EnterBlock(it.b, probe);
          ReadyParts();
          WorkStep(p, slot, probe, rest, st0, stack, mark, it.b, kids[it.b], |kids[it.b]|);
          CoveredStep(d, before, visited, it.b, mark, kids[it.b]);
          WalkNext(p, slot, probe, visited, it.b, ins0, args0, undef0, ins1, args1, undef1, ins, args, undef);
          work := work + [Unwind(mark)] + EnterAll(kids[it.b]);
          assert EnterAll(kids[it.b])[..|kids[it.b]|] == EnterAll(kids[it.b]);
          LeftShrinks(d, visited, it.b);
          visited := visited + {it.b};
        }
      }
      ReadyParts();
      WalkEnd(p, slot, probe, work, visited, ins0, args0, undef0, ins, args, undef);
    }
  }

  // What the probe finds: the slots that some block reads undefined.
  ghost predicate Flagged(p: Plan, slot: seq<nat>, undef0: seq<bool>, undef: seq<bool>)
    requires Shape(p)
  {
    && |undef| == |slot| == |undef0|
    && (forall k :: 0 <= k < |slot| ==> (undef[k] <==> undef0[k] || exists b: nat :: UndefIn(p, slot[k], b)))
  }

  // Before the walk: empty stacks, phis without arguments, nothing rewritten.
  ghost predicate Started(p: Plan, stack: seq<seq<Val>>, args: map<(nat, nat), seq<PhiArg>>, ins: seq<seq<Ins>>)
    requires Shape(p)
  {
    && (forall k :: 0 <= k < |stack| ==> stack[k] == [])
    && (forall s: nat, y: nat :: (s, y) in p.F ==> (s, y) in args && args[(s, y)] == [])
    && |ins| == |p.f.blk|
    && (forall b: nat :: b < |ins| ==> ins[b] == p.f.blk[b].ins)
  }

  // After the real walk: every block rewritten, every phi with its arguments.
  ghost predicate Renamed(p: Plan, args: map<(nat, nat), seq<PhiArg>>, ins: seq<seq<Ins>>)
    requires Shape(p)
  {
    && |ins| == |p.f.blk|
    && (forall b: nat :: b < |ins| ==> ins[b] == Row(p, b, |p.f.blk[b].ins|))
    && (forall s: nat, y: nat :: (s, y) in p.F ==> (s, y) in args && ArgsComplete(p, s, y, args[(s, y)]))
  }

  // Exactly one argument for each incoming edge, the slot's value at its source.
  ghost predicate ArgsComplete(p: Plan, s: nat, y: nat, args: seq<PhiArg>)
    requires Shape(p)
  {
    && (forall i :: 0 <= i < |args| ==> ArgRight(p, s, args[i]))
    && (forall q: nat :: q < |p.f.blk| ==> CountFrom(args, q) == EdgeCount(p.f.g, q, y))
  }

  ghost predicate WalkSoFar(p: Plan, slot: seq<nat>, probe: bool, visited: set<nat>,
                            ins0: seq<seq<Ins>>, args0: map<(nat, nat), seq<PhiArg>>, undef0: seq<bool>,
                            ins: seq<seq<Ins>>, args: map<(nat, nat), seq<PhiArg>>, undef: seq<bool>)
    requires Shape(p)
  {
    && |slot| == |undef| == |undef0| && |ins| == |p.f.blk|
    && (forall b: nat :: b < |ins| && (probe || b !in visited) ==> ins[b] == p.f.blk[b].ins)
    && (probe ==> ins == ins0 && args == args0)
    && (probe ==> forall k :: 0 <= k < |slot| ==> (undef[k] <==> undef0[k] || UndefAmong(p, slot[k], visited)))
    && (!probe ==> undef == undef0)
    && (!probe ==> forall b: nat :: b < |ins| && b in visited ==> ins[b] == Row(p, b, |p.f.blk[b].ins|))
    && (!probe ==> forall s: nat, y: nat :: (s, y) in p.F ==> (s, y) in args && ArgsOk(p, s, y, args[(s, y)], visited))
  }

  ghost predicate UndefAmong(p: Plan, s: nat, visited: set<nat>)
    requires Shape(p)
  {
    exists b: nat :: b in visited && UndefIn(p, s, b)
  }

  ghost function Left(d: Idom, visited: set<nat>): set<nat> {
    set b: nat | b < |d| && b !in visited
  }

  lemma LeftShrinks(d: Idom, visited: set<nat>, b: nat)
    requires b < |d| && b !in visited
    ensures Left(d, visited + {b}) < Left(d, visited)
  {
    assert b in Left(d, visited);
  }

  lemma WalkStart(p: Plan, slot: seq<nat>, probe: bool, stack: seq<seq<Val>>, args: map<(nat, nat), seq<PhiArg>>,
                  ins: seq<seq<Ins>>, undef: seq<bool>)
    requires Shape(p) && Started(p, stack, args, ins) && |slot| == |undef| == |stack|
    ensures WorkOk(p, slot, probe, [Enter(0)], stack) && Covered(p.d, [Enter(0)], {})
    ensures WalkSoFar(p, slot, probe, {}, ins, args, undef, ins, args, undef)
  {
    assert [Enter(0)][..0] == [];
    assert Enter(0) in [Enter(0)];
  }

  lemma ArgsStep(p: Plan, s: nat, y: nat, b: nat, was: seq<PhiArg>, now: seq<PhiArg>, visited: set<nat>)
    requires Shape(p) && b < |p.f.blk| && b !in visited
    requires ArgsOk(p, s, y, was, visited) && BothAdded(p, s, y, b, was, now)
    ensures ArgsOk(p, s, y, now, visited + {b})
  {
    var mid :| ArgAdded(p, s, y, b, p.f.g.s1[b], was, mid) && ArgAdded(p, s, y, b, p.f.g.s2[b], mid, now);
    var a := PhiArg(if Top(OutStack(p, s, b)).Some? then Top(OutStack(p, s, b)).value else Temp(0), b);
    forall q: nat | q < |p.f.blk|
      ensures CountFrom(now, q) == if q in visited + {b} then EdgeCount(p.f.g, q, y) else 0
    {
      CountSnoc(was, a, q);
      CountSnoc(mid, a, q);
    }
  }

  lemma WalkNext(p: Plan, slot: seq<nat>, probe: bool, visited: set<nat>, b: nat,
                 ins0: seq<seq<Ins>>, args0: map<(nat, nat), seq<PhiArg>>, undef0: seq<bool>,
                 ins1: seq<seq<Ins>>, args1: map<(nat, nat), seq<PhiArg>>, undef1: seq<bool>,
                 ins: seq<seq<Ins>>, args: map<(nat, nat), seq<PhiArg>>, undef: seq<bool>)
    requires Shape(p) && WalkSoFar(p, slot, probe, visited, ins0, args0, undef0, ins1, args1, undef1)
    requires b < |p.f.blk| && b !in visited && |undef| == |slot|
    requires probe ==> ins == ins1 && args == args1
    requires probe ==> forall k :: 0 <= k < |slot| ==> (undef[k] <==> undef1[k] || UndefIn(p, slot[k], b))
    requires !probe ==> undef == undef1 && ins == ins1[b := Row(p, b, |p.f.blk[b].ins|)]
    requires !probe ==> forall s: nat, y: nat :: (s, y) in p.F ==>
               (s, y) in args && BothAdded(p, s, y, b, args1[(s, y)], args[(s, y)])
    ensures WalkSoFar(p, slot, probe, visited + {b}, ins0, args0, undef0, ins, args, undef)
  {
    if probe {
      forall k | 0 <= k < |slot|
        ensures UndefAmong(p, slot[k], visited + {b}) <==> UndefAmong(p, slot[k], visited) || UndefIn(p, slot[k], b)
      {
        UndefGrows(p, slot[k], visited, b);
      }
    } else {
      forall s: nat, y: nat | (s, y) in p.F ensures ArgsOk(p, s, y, args[(s, y)], visited + {b}) {
        ArgsStep(p, s, y, b, args1[(s, y)], args[(s, y)], visited);
      }
    }
  }

  lemma UndefGrows(p: Plan, s: nat, visited: set<nat>, b: nat)
    requires Shape(p)
    ensures UndefAmong(p, s, visited + {b}) <==> UndefAmong(p, s, visited) || UndefIn(p, s, b)
  {
    hide UndefIn;
    if UndefIn(p, s, b) {
      assert b in visited + {b};
    }
    if UndefAmong(p, s, visited) {
      var c: nat :| c in visited && UndefIn(p, s, c);
      assert c in visited + {b};
    }
  }

  lemma WalkEnd(p: Plan, slot: seq<nat>, probe: bool, work: seq<Item>, visited: set<nat>,
                ins0: seq<seq<Ins>>, args0: map<(nat, nat), seq<PhiArg>>, undef0: seq<bool>,
                ins: seq<seq<Ins>>, args: map<(nat, nat), seq<PhiArg>>, undef: seq<bool>)
    requires Shape(p) && |work| == 0 && Covered(p.d, work, visited)
    requires WalkSoFar(p, slot, probe, visited, ins0, args0, undef0, ins, args, undef)
    ensures probe ==> ins == ins0 && args == args0
    ensures probe ==> Flagged(p, slot, undef0, undef)
    ensures !probe ==> undef == undef0 && Renamed(p, args, ins)
  {
    forall b: nat | b < |p.f.blk| ensures b in visited {
      AllEntered(p.d, work, visited, b);
    }
    forall k | 0 <= k < |slot| ensures (exists b: nat :: UndefIn(p, slot[k], b)) <==> UndefAmong(p, slot[k], visited) {
      if b: nat :| UndefIn(p, slot[k], b) {
        assert b in visited;
      }
    }
  }

  lemma CutBack(st0: seq<seq<Val>>, st: seq<seq<Val>>, mark: seq<nat>)
    requires Grown(st0, st) && |mark| == |st0| && forall k :: 0 <= k < |st0| ==> mark[k] == |st0[k]|
    ensures Cuttable(st, mark) && Cut(st, mark) == st0
  {
    forall k | 0 <= k < |st0| ensures st[k][..mark[k]] == st0[k] {
    }
    assert |Cut(st, mark)| == |st0|;
  }

  lemma NoUndefInBlock(p: Plan, slot: seq<nat>, b: nat)
    requires Shape(p) && b < |p.f.blk|
    requires forall k :: 0 <= k < |slot| ==> !UndefIn(p, slot[k], b)
    ensures NoUndefLoad(p, slot, b)
  {
    forall k: nat, i: nat | k < |slot| && i < |p.f.blk[b].ins| ensures !UndefAt(p, slot[k], b, i) {
      assert !UndefLoad(p, slot[k], b, |p.f.blk[b].ins|);
    }
  }

  // What the two edges out of b add to the arguments of the phi for s in y.
  ghost predicate BothAdded(p: Plan, s: nat, y: nat, b: nat, was: seq<PhiArg>, now: seq<PhiArg>)
    requires Shape(p) && b < |p.f.blk|
  {
    exists mid :: ArgAdded(p, s, y, b, p.f.g.s1[b], was, mid) && ArgAdded(p, s, y, b, p.f.g.s2[b], mid, now)
  }

  ghost predicate ArgAdded(p: Plan, s: nat, y: nat, b: nat, x: Option<nat>, was: seq<PhiArg>, now: seq<PhiArg>)
    requires Shape(p) && b < |p.f.blk|
  {
    if x == Some(y) then Top(OutStack(p, s, b)).Some? && now == was + [PhiArg(Top(OutStack(p, s, b)).value, b)]
    else now == was
  }

  // The first i instructions of block b have been walked.
  ghost predicate BodySoFar(p: Plan, slot: seq<nat>, probe: bool, b: nat, i: nat,
                            st0: seq<seq<Val>>, ins0: seq<seq<Ins>>, undef0: seq<bool>,
                            st: seq<seq<Val>>, ins: seq<seq<Ins>>, undef: seq<bool>)
    requires Shape(p) && b < |p.f.blk|
  {
    && i <= |p.f.blk[b].ins| && b < |ins0| && |slot| == |undef| == |undef0|
    && Fits(p, slot, probe, st, b, i) && Grown(st0, st)
    && (probe ==> ins == ins0)
    && (!probe ==> undef == undef0 && ins == ins0[b := Row(p, b, i)])
    && (probe ==> forall k :: 0 <= k < |slot| ==> (undef[k] <==> undef0[k] || UndefLoad(p, slot[k], b, i)))
    && ins0[b] == p.f.blk[b].ins
  }

  lemma BodyStart(p: Plan, slot: seq<nat>, probe: bool, b: nat, st: seq<seq<Val>>, ins: seq<seq<Ins>>, undef: seq<bool>)
    requires Shape(p) && b < |p.f.blk| && b < |ins| && ins[b] == p.f.blk[b].ins && |slot| == |undef|
    requires Fits(p, slot, probe, st, b, 0)
    ensures BodySoFar(p, slot, probe, b, 0, st, ins, undef, st, ins, undef)
  {
    assert Row(p, b, 0) == p.f.blk[b].ins;
  }

  lemma BodyNext(p: Plan, slot: seq<nat>, probe: bool, b: nat, i: nat,
                 st0: seq<seq<Val>>, ins0: seq<seq<Ins>>, undef0: seq<bool>,
                 st1: seq<seq<Val>>, ins1: seq<seq<Ins>>, undef1: seq<bool>,
                 st: seq<seq<Val>>, ins: seq<seq<Ins>>, undef: seq<bool>)
    requires Shape(p) && b < |p.f.blk| && i < |p.f.blk[b].ins| && |undef| == |slot|
    requires BodySoFar(p, slot, probe, b, i, st0, ins0, undef0, st1, ins1, undef1)
    requires Fits(p, slot, probe, st, b, i + 1) && Grown(st1, st)
    requires probe ==> ins == ins1
    requires !probe ==> undef == undef1 && b < |ins1| && i < |ins1[b]| && ins == ins1[b := ins1[b][i := Rewritten(p, b, i)]]
    requires probe ==> forall k :: 0 <= k < |slot| ==> (undef[k] <==> undef1[k] || UndefAt(p, slot[k], b, i))
    ensures BodySoFar(p, slot, probe, b, i + 1, st0, ins0, undef0, st, ins, undef)
    ensures b < |ins| && |ins[b]| == |p.f.blk[b].ins|
  {
    GrownTrans(st0, st1, st);
    hide Fits;
    hide Grown;
    hide UndefAt;
    if probe {
      forall k | 0 <= k < |slot| ensures undef[k] <==> undef0[k] || UndefLoad(p, slot[k], b, i + 1) {
        UndefStep(p, slot[k], b, i);
      }
    } else {
      RowStep(p, b, i);
    }
  }

  lemma UndefStep(p: Plan, s: nat, b: nat, i: nat)
    requires Shape(p) && b < |p.f.blk| && i < |p.f.blk[b].ins|
    ensures UndefLoad(p, s, b, i + 1) <==> UndefLoad(p, s, b, i) || UndefAt(p, s, b, i)
  {
    if UndefLoad(p, s, b, i + 1) {
      var j: nat :| j < i + 1 && UndefAt(p, s, b, j);
    }
  }

  ghost predicate Grown(st: seq<seq<Val>>, st': seq<seq<Val>>) {
    |st| == |st'| && forall k :: 0 <= k < |st| ==> st[k] <= st'[k]
  }

  ghost predicate UndefAt(p: Plan, s: nat, b: nat, i: nat)
    requires Shape(p) && b < |p.f.blk| && i < |p.f.blk[b].ins|
  {
    Loads(p.f, p.S, s, b, i) && StackAt(p, s, b, i) == []
  }

  ghost predicate NoUndefLoad(p: Plan, slot: seq<nat>, b: nat)
    requires Shape(p) && b < |p.f.blk|
  {
    forall k: nat, i: nat :: k < |slot| && i < |p.f.blk[b].ins| ==> !UndefAt(p, slot[k], b, i)
  }

  lemma NothingPushed(p: Plan, slot: seq<nat>, probe: bool, st: seq<seq<Val>>, b: nat, i: nat)
    requires Shape(p) && b < |p.f.blk| && i < |p.f.blk[b].ins| && Fits(p, slot, probe, st, b, i)
    requires forall k :: 0 <= k < |slot| ==> !Stores(p.f, p.S, slot[k], b, i)
    ensures Fits(p, slot, probe, st, b, i + 1)
  {
    forall k | 0 <= k < |slot| ensures Like(probe, st[k], StackAt(p, slot[k], b, i + 1)) {
      StackNext(p, slot[k], b, i);
    }
  }

  lemma OnePushed(p: Plan, slot: seq<nat>, probe: bool, st: seq<seq<Val>>, b: nat, i: nat, k: nat, v: Val)
    requires Shape(p) && b < |p.f.blk| && i < |p.f.blk[b].ins| && Fits(p, slot, probe, st, b, i)
    requires k < |slot| && Stores(p.f, p.S, slot[k], b, i)
    requires forall i, j :: 0 <= i < j < |slot| ==> slot[i] != slot[j]
    requires !probe ==> v == StoredVal(p.f.blk[b].ins[i].val, b, i)
    ensures Fits(p, slot, probe, st[k := st[k] + [v]], b, i + 1)
  {
    forall j | 0 <= j < |slot| ensures Like(probe, st[k := st[k] + [v]][j], StackAt(p, slot[j], b, i + 1)) {
      StackNext(p, slot[j], b, i);
      assert Like(probe, st[j], StackAt(p, slot[j], b, i));
      assert j != k ==> slot[j] != slot[k];
    }
  }

  // ---- facts that unfold at once ----------------------------------------------------------

  // The row of children of b is what the expansion of b needs.
  lemma KidsExpand(d: Idom, kids: seq<seq<nat>>, work: seq<Item>, visited: set<nat>, b: nat)
    requires Complete(d) && KidsOf(d, kids) && b < |d|
    requires |work| > 0 && work[|work| - 1] == Enter(b) && Covered(d, work, visited)
    ensures b < |kids| && Expands(d, work, visited, b, kids[b])
    ensures forall i :: 0 <= i < |kids[b]| ==> 0 < kids[b][i] < |d| && d[kids[b][i]] == Some(b)
  {
  }

  lemma ExpandedAt(work: seq<Item>, mark: seq<nat>, ks: seq<nat>, i: nat)
    requires |work| > 0 && i < |Expanded(work, mark, ks)| && Expanded(work, mark, ks)[i].Enter?
    ensures i < |work| - 1 ==> Expanded(work, mark, ks)[i] == work[i]
    ensures i >= |work| - 1 ==> i - |work| < |ks| && i >= |work| && Expanded(work, mark, ks)[i] == Enter(ks[i - |work|])
  {
  }

  lemma NoEdge(p: Plan, b: nat)
    requires Shape(p) && b < |p.f.blk|
    ensures forall s: nat :: !UndefEdge(p, s, b, None)
    ensures forall s: nat, y: nat, was: seq<PhiArg> :: ArgAdded(p, s, y, b, None, was, was)
  {
  }

  lemma ReadyCut(f: Fn, d: Idom, slot: seq<nat>, phi: set<(nat, nat)>, args: map<(nat, nat), seq<PhiArg>>,
                 ins: seq<seq<Ins>>, stack: seq<seq<Val>>, undef: seq<bool>, mark: seq<nat>)
    requires ReadyAs(f, d, slot, phi, args, ins, stack, undef)
    requires |mark| == |stack| && forall k :: 0 <= k < |stack| ==> mark[k] <= |stack[k]|
    ensures ReadyAs(f, d, slot, phi, args, ins, Cut(stack, mark), undef)
  {
  }

  lemma WalkEnter(p: Plan, slot: seq<nat>, probe: bool, work: seq<Item>, visited: set<nat>, stack: seq<seq<Val>>,
                  ins0: seq<seq<Ins>>, args0: map<(nat, nat), seq<PhiArg>>, undef0: seq<bool>,
                  ins: seq<seq<Ins>>, args: map<(nat, nat), seq<PhiArg>>, undef: seq<bool>)
    requires Shape(p) && WalkSoFar(p, slot, probe, visited, ins0, args0, undef0, ins, args, undef)
    requires WorkOk(p, slot, probe, work, stack) && Covered(p.d, work, visited)
    requires |work| > 0 && work[|work| - 1].Enter?
    ensures var b := work[|work| - 1].b;
            && b < |p.f.blk| && b < |ins| && b !in visited && ins[b] == p.f.blk[b].ins
            && Fits(p, slot, probe, stack, b, -1)
            && WorkOk(p, slot, probe, work[..|work| - 1], stack)
  {
  }

  lemma WorkPop(p: Plan, slot: seq<nat>, probe: bool, work: seq<Item>, stack: seq<seq<Val>>)
    requires Shape(p) && |work| > 0 && work[|work| - 1].Unwind? && WorkOk(p, slot, probe, work, stack)
    ensures Cuttable(stack, work[|work| - 1].mark)
    ensures var mark := work[|work| - 1].mark; |mark| == |stack| && forall k :: 0 <= k < |stack| ==> mark[k] <= |stack[k]|
    ensures WorkOk(p, slot, probe, work[..|work| - 1], Cut(stack, work[|work| - 1].mark))
  {
  }

  lemma BodyHere(p: Plan, slot: seq<nat>, probe: bool, b: nat, i: nat,
                 st0: seq<seq<Val>>, ins0: seq<seq<Ins>>, undef0: seq<bool>,
                 st: seq<seq<Val>>, ins: seq<seq<Ins>>, undef: seq<bool>)
    requires Shape(p) && b < |p.f.blk| && i < |p.f.blk[b].ins|
    requires BodySoFar(p, slot, probe, b, i, st0, ins0, undef0, st, ins, undef)
    ensures Fits(p, slot, probe, st, b, i) && b < |ins| && i < |ins[b]| && ins[b][i] == p.f.blk[b].ins[i]
  {
  }

  lemma BodyEnd(p: Plan, slot: seq<nat>, probe: bool, b: nat,
                st0: seq<seq<Val>>, ins0: seq<seq<Ins>>, undef0: seq<bool>,
                st: seq<seq<Val>>, ins: seq<seq<Ins>>, undef: seq<bool>)
    requires Shape(p) && b < |p.f.blk|
    requires BodySoFar(p, slot, probe, b, |p.f.blk[b].ins|, st0, ins0, undef0, st, ins, undef)
    ensures Fits(p, slot, probe, st, b, |p.f.blk[b].ins|) && Grown(st0, st)
    ensures probe ==> ins == ins0
    ensures !probe ==> undef == undef0 && b < |ins0| && ins == ins0[b := Row(p, b, |p.f.blk[b].ins|)]
    ensures probe ==> |undef| == |slot| == |undef0| && forall k :: 0 <= k < |slot| ==>
              (undef[k] <==> undef0[k] || UndefLoad(p, slot[k], b, |p.f.blk[b].ins|))
  {
  }

  lemma RowStep(p: Plan, b: nat, i: nat)
    requires Shape(p) && b < |p.f.blk| && i < |p.f.blk[b].ins|
    ensures Row(p, b, i)[i := Rewritten(p, b, i)] == Row(p, b, i + 1)
  {
  }

  lemma GrownTrans(a: seq<seq<Val>>, b: seq<seq<Val>>, c: seq<seq<Val>>)
    requires Grown(a, b) && Grown(b, c)
    ensures Grown(a, c)
  {
  }

  lemma StackNext(p: Plan, s: nat, b: nat, i: nat)
    requires Shape(p) && b < |p.f.blk| && i < |p.f.blk[b].ins|
    ensures StackAt(p, s, b, i + 1) == StackAt(p, s, b, i) +
              if Stores(p.f, p.S, s, b, i) then [StoredVal(p.f.blk[b].ins[i].val, b, i)] else []
  {
  }
}
