// opt/cfg.c: simpljmp, jump threading by union-find, and why it keeps the
// sequence of non-empty blocks every run executes, endless empty loops included.
//
// Blocks are named by their place in the block list; the new return block comes last.
module SimplJmp {
  import opened Graph

  datatype Jump = Ret0 | Jmp | Jnz | Stop

  datatype Fn = Fn(nins: seq<nat>, jmp: seq<Jump>, s1: seq<Option<nat>>, s2: seq<Option<nat>>)

  ghost predicate WfFn(f: Fn) {
    && |f.jmp| == |f.nins| == |f.s1| == |f.s2|
    && (forall b: nat :: b < |f.jmp| ==> WfBlk(f, b))
  }

  ghost predicate WfBlk(f: Fn, b: nat)
    requires |f.jmp| == |f.nins| == |f.s1| == |f.s2| && b < |f.jmp|
  {
    && (f.jmp[b].Jmp? ==> f.s1[b].Some?)
    && (f.jmp[b].Jnz? <==> f.s2[b].Some?) && (f.jmp[b].Jnz? ==> f.s1[b].Some?)
    && InRange(f.s1[b], |f.jmp|) && InRange(f.s2[b], |f.jmp|)
  }

  // ---- running a function ------------------------------------------------------------

  // What a non-empty block does to the state, and which way a conditional jump goes.
  datatype Sem = Sem(eff: (nat, int) -> int, dec: (nat, int) -> bool)

  datatype Conf = Body(b: nat, st: int) | Leave(b: nat, st: int) | Done

  datatype Event = Exec(b: nat, st: int) | Return(st: int) | Halt(b: nat, st: int)

  function Step(f: Fn, sem: Sem, c: Conf): (Conf, seq<Event>)
    requires |f.jmp| == |f.nins| == |f.s1| == |f.s2|
  {
    match c
    case Done => (Done, [])
    case Body(b, st) =>
      if b >= |f.jmp| then (Done, [])
      else if f.nins[b] == 0 then (Leave(b, st), [])
      else (Leave(b, sem.eff(b, st)), [Exec(b, st)])
    case Leave(b, st) =>
      if b >= |f.jmp| then (Done, [])
      else match f.jmp[b]
        case Ret0 => (Done, [Return(st)])
        case Stop => (Done, [Halt(b, st)])
        case Jmp => (if f.s1[b].Some? then Body(f.s1[b].value, st) else Done, [])
        case Jnz =>
          var s := if sem.dec(b, st) then f.s1[b] else f.s2[b];
          (if s.Some? then Body(s.value, st) else Done, [])
  }

  function Run(f: Fn, sem: Sem, c: Conf, n: nat): (Conf, seq<Event>)
    requires |f.jmp| == |f.nins| == |f.s1| == |f.s2|
  {
    if n == 0 then (c, [])
    else
      var (c1, e1) := Run(f, sem, c, n - 1);
      var (c2, e2) := Step(f, sem, c1);
      (c2, e1 + e2)
  }

  lemma {:induction false} RunMore(f: Fn, sem: Sem, c: Conf, n: nat, k: nat)
    requires |f.jmp| == |f.nins| == |f.s1| == |f.s2|
    ensures Run(f, sem, c, n + k).0 == Run(f, sem, Run(f, sem, c, n).0, k).0
    ensures Run(f, sem, c, n + k).1 == Run(f, sem, c, n).1 + Run(f, sem, Run(f, sem, c, n).0, k).1
  {
    hide Step;
    var a := Run(f, sem, c, n);
    if k > 0 {
      RunMore(f, sem, c, n, k - 1);
      var b := Run(f, sem, a.0, k - 1);
      assert n + k - 1 == n + (k - 1);
      assert a.1 + b.1 + Step(f, sem, b.0).1 == a.1 + (b.1 + Step(f, sem, b.0).1);
    } else {
      assert a.1 + [] == a.1;
    }
  }

  lemma RunOne(f: Fn, sem: Sem, c: Conf)
    requires |f.jmp| == |f.nins| == |f.s1| == |f.s2|
    ensures Run(f, sem, c, 1) == Step(f, sem, c)
  {
    assert Run(f, sem, c, 0) == (c, []);
    assert [] + Step(f, sem, c).1 == Step(f, sem, c).1;
  }

  // The events f shows are events g shows, at some later or earlier step.
  ghost predicate Shows(f: Fn, g: Fn, b: nat)
    requires WfFn(f) && WfFn(g)
  {
    forall sem: Sem, st: int, n: nat :: Shown(f, g, b, sem, st, n)
  }

  ghost predicate Shown(f: Fn, g: Fn, b: nat, sem: Sem, st: int, n: nat)
    requires WfFn(f) && WfFn(g)
  {
    exists m: nat :: SameEvents(f, g, b, sem, st, n, m)
  }

  ghost predicate SameEvents(f: Fn, g: Fn, b: nat, sem: Sem, st: int, n: nat, m: nat)
    requires WfFn(f) && WfFn(g)
  {
    Run(g, sem, Body(b, st), m).1 == Run(f, sem, Body(b, st), n).1
  }

  // Both show the same finite prefixes: one sequence of events, finite or not.
  ghost predicate SameTrace(f: Fn, g: Fn, b: nat)
    requires WfFn(f) && WfFn(g)
  {
    Shows(f, g, b) && Shows(g, f, b)
  }

  lemma ShowsTrans(f: Fn, g: Fn, h: Fn, b: nat)
    requires WfFn(f) && WfFn(g) && WfFn(h) && Shows(f, g, b) && Shows(g, h, b)
    ensures Shows(f, h, b)
  {
    forall sem: Sem, st: int, n: nat ensures Shown(f, h, b, sem, st, n) {
      assert Shown(f, g, b, sem, st, n);
      var m: nat :| SameEvents(f, g, b, sem, st, n, m);
      assert Shown(g, h, b, sem, st, m);
      var k: nat :| SameEvents(g, h, b, sem, st, m, k);
      assert SameEvents(f, h, b, sem, st, n, k);
    }
  }

  // ---- every plain return goes through one block -----------------------------------------

  // The list with the return block at its end and Jret0 turned into a jump to it.
  function WithRet(f: Fn): Fn
    requires |f.jmp| == |f.nins| == |f.s1| == |f.s2|
  {
    Fn.Fn(f.nins + [0],
          seq(|f.jmp|, b requires 0 <= b < |f.jmp| => if f.jmp[b].Ret0? then Jmp else f.jmp[b]) + [Ret0],
          seq(|f.s1|, b requires 0 <= b < |f.s1| => if f.jmp[b].Ret0? then Some(|f.jmp|) else f.s1[b]) + [None],
          f.s2 + [None])
  }

  lemma WithRetWf(f: Fn)
    requires WfFn(f)
    ensures WfFn(WithRet(f)) && |WithRet(f).jmp| == |f.jmp| + 1
  {
    var g := WithRet(f);
    forall b: nat | b < |g.jmp| ensures WfBlk(g, b) {
      if b < |f.jmp| {
        assert WfBlk(f, b);
      }
    }
  }

  // f at c and its version with a return block at d have shown the same.
  ghost predicate RetRel(f: Fn, c: Conf, d: Conf) {
    || (c == d && (c.Done? || c.b < |f.jmp|))
    || (c.Leave? && c.b < |f.jmp| && f.jmp[c.b].Ret0? && !d.Done? && d.b == |f.jmp| && d.st == c.st)
  }

  // The two versions take the same steps, but at a plain return.
  lemma StepBoth(f: Fn, sem: Sem, c: Conf)
    requires WfFn(f) && WfFn(WithRet(f)) && (c.Done? || c.b < |f.jmp|)
    ensures if c.Leave? && f.jmp[c.b].Ret0? then
              Step(f, sem, c) == (Done, [Return(c.st)]) && Step(WithRet(f), sem, c) == (Body(|f.jmp|, c.st), [])
            else
              Step(WithRet(f), sem, c) == Step(f, sem, c) && (Step(f, sem, c).0.Done? || Step(f, sem, c).0.b < |f.jmp|)
  {
    if !c.Done? {
      assert WfBlk(f, c.b);
    }
  }

  lemma {:induction false} RetShows(f: Fn, sem: Sem, c: Conf, n: nat) returns (m: nat)
    requires WfFn(f) && WfFn(WithRet(f)) && (c.Done? || c.b < |f.jmp|)
    ensures Run(WithRet(f), sem, c, m) == Run(f, sem, c, n)
    ensures Run(f, sem, c, n).0.Done? || Run(f, sem, c, n).0.b < |f.jmp|
  {
    hide Step;
    hide WithRet;
    if n == 0 {
      m := 0;
    } else {
      var k := RetShows(f, sem, c, n - 1);
      var c1 := Run(f, sem, c, n - 1).0;
      var g := WithRet(f);
      StepBoth(f, sem, c1);
      if c1.Leave? && f.jmp[c1.b].Ret0? {
        m := k + 3;
        StepRet(f, sem, c1.st);
        var e := Run(g, sem, c, k).1;
        assert Run(g, sem, c, k + 1) == (Body(|f.jmp|, c1.st), e + []);
        assert Run(g, sem, c, k + 2) == (Leave(|f.jmp|, c1.st), e + [] + []);
        assert Run(g, sem, c, k + 3) == (Done, e + [] + [] + [Return(c1.st)]);
        assert e + [] + [] + [Return(c1.st)] == e + [Return(c1.st)];
      } else {
        m := k + 1;
      }
    }
  }

  lemma {:induction false} RetShownBack(f: Fn, sem: Sem, c: Conf, m: nat) returns (n: nat)
    requires WfFn(f) && WfFn(WithRet(f)) && (c.Done? || c.b < |f.jmp|)
    ensures RetRel(f, Run(f, sem, c, n).0, Run(WithRet(f), sem, c, m).0)
    ensures Run(WithRet(f), sem, c, m).1 == Run(f, sem, c, n).1
  {
    hide Step;
    hide WithRet;
    if m == 0 {
      n := 0;
    } else {
      var g := WithRet(f);
      var k := RetShownBack(f, sem, c, m - 1);
      var c1, d1 := Run(f, sem, c, k).0, Run(g, sem, c, m - 1).0;
      var e := Run(f, sem, c, k).1;
      StepBoth(f, sem, c1);
      if !c1.Done? {
        StepRet(f, sem, c1.st);
      }
      assert e + [] == e;
      if (c1 != d1 && d1.Body?) || (c1 == d1 && c1.Leave? && f.jmp[c1.b].Ret0?) {
        n := k;
      } else {
        n := k + 1;
      }
    }
  }

  lemma RetSame(f: Fn, b: nat)
    requires WfFn(f) && b < |f.jmp|
    ensures WfFn(WithRet(f)) && SameTrace(f, WithRet(f), b)
  {
    WithRetWf(f);
    forall sem: Sem, st: int, n: nat ensures Shown(f, WithRet(f), b, sem, st, n) {
      var m := RetShows(f, sem, Body(b, st), n);
      assert SameEvents(f, WithRet(f), b, sem, st, n, m);
    }
    forall sem: Sem, st: int, m: nat ensures Shown(WithRet(f), f, b, sem, st, m) {
      var n := RetShownBack(f, sem, Body(b, st), m);
      assert SameEvents(WithRet(f), f, b, sem, st, m, n);
    }
  }

  // ---- threading jumps ---------------------------------------------------------------------

  predicate Hop(f: Fn, b: nat)
    requires |f.jmp| == |f.nins| == |f.s1| == |f.s2|
  {
    b < |f.jmp| && f.nins[b] == 0 && f.jmp[b].Jmp? && f.s1[b].Some?
  }

  // From x, k jumps out of empty blocks lead to y.
  ghost predicate Hops(f: Fn, x: nat, k: nat, y: nat)
    requires |f.jmp| == |f.nins| == |f.s1| == |f.s2|
    decreases k
  {
    if k == 0 then x == y else Hop(f, x) && Hops(f, f.s1[x].value, k - 1, y)
  }

  ghost predicate Leads(f: Fn, x: nat, y: nat)
    requires |f.jmp| == |f.nins| == |f.s1| == |f.s2|
  {
    exists k: nat :: Hops(f, x, k, y)
  }

  lemma {:induction false} HopsJoin(f: Fn, x: nat, k: nat, y: nat, m: nat, z: nat)
    requires |f.jmp| == |f.nins| == |f.s1| == |f.s2| && Hops(f, x, k, y) && Hops(f, y, m, z)
    ensures Hops(f, x, k + m, z)
    decreases k
  {
    if k > 0 {
      HopsJoin(f, f.s1[x].value, k - 1, y, m, z);
    }
  }

  lemma LeadsTrans(f: Fn, x: nat, y: nat, z: nat)
    requires |f.jmp| == |f.nins| == |f.s1| == |f.s2| && Leads(f, x, y) && Leads(f, y, z)
    ensures Leads(f, x, z)
  {
    var k: nat :| Hops(f, x, k, y);
    var m: nat :| Hops(f, y, m, z);
    HopsJoin(f, x, k, y, m, z);
  }

  lemma LeadsRefl(f: Fn, x: nat)
    requires |f.jmp| == |f.nins| == |f.s1| == |f.s2|
    ensures Leads(f, x, x)
  {
    assert Hops(f, x, 0, x);
  }

  // g is f with successors moved along empty jumps; a conditional jump whose
  // two ways have become one is a plain jump.
  ghost predicate Threaded(f: Fn, g: Fn) {
    && WfFn(f) && WfFn(g) && |g.jmp| == |f.jmp| && g.nins == f.nins
    && (forall b: nat :: b < |f.jmp| ==> ThreadedAt(f, g, b))
  }

  ghost predicate ThreadedAt(f: Fn, g: Fn, b: nat)
    requires WfFn(f) && WfFn(g) && |g.jmp| == |f.jmp| && b < |f.jmp|
  {
    && WfBlk(f, b) && WfBlk(g, b)
    && (f.s1[b].Some? <==> g.s1[b].Some?)
    && (f.s1[b].Some? ==> Leads(f, f.s1[b].value, g.s1[b].value))
    && (g.jmp[b] == f.jmp[b] || (f.jmp[b].Jnz? && g.jmp[b].Jmp?))
    && (f.jmp[b].Jnz? && g.jmp[b].Jnz? ==> Leads(f, f.s2[b].value, g.s2[b].value))
    && (f.jmp[b].Jnz? && g.jmp[b].Jmp? ==> Leads(f, f.s2[b].value, g.s1[b].value))
  }

  // Walking the empty jumps shows nothing.
  lemma {:induction false} HopRun(f: Fn, sem: Sem, x: nat, k: nat, y: nat, st: int)
    requires WfFn(f) && Hops(f, x, k, y)
    ensures Run(f, sem, Body(x, st), 2 * k) == (Body(y, st), [])
    decreases k
  {
    if k > 0 {
      var z := f.s1[x].value;
      HopRun(f, sem, z, k - 1, y, st);
      RunOne(f, sem, Body(x, st));
      RunOne(f, sem, Leave(x, st));
      RunMore(f, sem, Body(x, st), 1, 1);
      assert Run(f, sem, Body(x, st), 2) == (Body(z, st), []);
      RunMore(f, sem, Body(x, st), 2, 2 * (k - 1));
    }
  }

  // f at c can walk to where g is.
  ghost predicate Behind(f: Fn, c: Conf, d: Conf)
    requires WfFn(f)
  {
    c == d || (c.Body? && d.Body? && c.st == d.st && Leads(f, c.b, d.b))
           || (c.Leave? && d.Body? && c.st == d.st && Hop(f, c.b) && Leads(f, f.s1[c.b].value, d.b))
  }

  // The threaded function does one step when the other does its own.
  lemma StepTogether(f: Fn, g: Fn, sem: Sem, c: Conf)
    requires Threaded(f, g)
    ensures Behind(f, Step(f, sem, c).0, Step(g, sem, c).0)
    ensures Step(f, sem, c).1 == Step(g, sem, c).1
  {
    if !c.Done? && c.b < |f.jmp| {
      assert ThreadedAt(f, g, c.b) && WfBlk(f, c.b) && WfBlk(g, c.b);
    }
  }

  // Or the other catches up without showing anything.
  lemma StepBehind(f: Fn, g: Fn, sem: Sem, c: Conf, d: Conf)
    requires Threaded(f, g) && Behind(f, c, d) && c != d
    ensures Behind(f, Step(f, sem, c).0, d) && Step(f, sem, c).1 == []
  {
    if c.Body? {
      var k: nat :| Hops(f, c.b, k, d.b);
      assert k > 0 && Hop(f, c.b);
      assert Hops(f, f.s1[c.b].value, k - 1, d.b);
    }
  }

  lemma {:induction false} ThreadShows(f: Fn, g: Fn, sem: Sem, c: Conf, n: nat) returns (m: nat)
    requires Threaded(f, g)
    ensures Behind(f, Run(f, sem, c, n).0, Run(g, sem, c, m).0)
    ensures Run(g, sem, c, m).1 == Run(f, sem, c, n).1
  {
    if n == 0 {
      m := 0;
    } else {
      var k := ThreadShows(f, g, sem, c, n - 1);
      var c1, d1 := Run(f, sem, c, n - 1).0, Run(g, sem, c, k).0;
      if c1 == d1 {
        StepTogether(f, g, sem, c1);
        m := k + 1;
      } else {
        StepBehind(f, g, sem, c1, d1);
        m := k;
        assert Run(f, sem, c, n - 1).1 + [] == Run(f, sem, c, n - 1).1;
      }
    }
  }

  lemma CatchUp(f: Fn, sem: Sem, c: Conf, d: Conf) returns (k: nat)
    requires WfFn(f) && Behind(f, c, d)
    ensures Run(f, sem, c, k) == (d, [])
  {
    if c == d {
      k := 0;
    } else if c.Body? {
      var j: nat :| Hops(f, c.b, j, d.b);
      HopRun(f, sem, c.b, j, d.b, c.st);
      k := 2 * j;
    } else {
      var j: nat :| Hops(f, f.s1[c.b].value, j, d.b);
      HopRun(f, sem, f.s1[c.b].value, j, d.b, c.st);
      RunOne(f, sem, c);
      RunMore(f, sem, c, 1, 2 * j);
      k := 1 + 2 * j;
    }
  }

  lemma {:induction false} ThreadShownBack(f: Fn, g: Fn, sem: Sem, c: Conf, m: nat) returns (n: nat)
    requires Threaded(f, g)
    ensures Run(f, sem, c, n) == Run(g, sem, c, m)
  {
    if m == 0 {
      n := 0;
    } else {
      var k := ThreadShownBack(f, g, sem, c, m - 1);
      var d1 := Run(g, sem, c, m - 1).0;
      StepTogether(f, g, sem, d1);
      var j := CatchUp(f, sem, Step(f, sem, d1).0, Step(g, sem, d1).0);
      RunMore(f, sem, c, k + 1, j);
      n := k + 1 + j;
      assert Run(f, sem, c, k + 1).1 + [] == Run(f, sem, c, k + 1).1;
    }
  }

  lemma ThreadedSame(f: Fn, g: Fn, b: nat)
    requires Threaded(f, g) && WfFn(f) && WfFn(g)
    ensures SameTrace(f, g, b)
  {
    forall sem: Sem, st: int, n: nat ensures Shown(f, g, b, sem, st, n) {
      var m := ThreadShows(f, g, sem, Body(b, st), n);
      assert SameEvents(f, g, b, sem, st, n, m);
    }
    forall sem: Sem, st: int, m: nat ensures Shown(g, f, b, sem, st, m) {
      var n := ThreadShownBack(f, g, sem, Body(b, st), m);
      assert SameEvents(g, f, b, sem, st, m, n);
    }
  }

  // ---- the union-find --------------------------------------------------------------------------

  // Links of the blocks looked at so far: along empty jumps, and towards blocks
  // that come later in the list or have no link, so that no cycle can close.
  ghost predicate UfOk(f: Fn, uf: seq<Option<nat>>, i: nat) {
    && WfFn(f) && |uf| == |f.jmp|
    && (forall b: nat :: b < |uf| && uf[b].Some? ==> LinkOk(f, uf, b, uf[b].value, i))
  }

  ghost predicate LinkOk(f: Fn, uf: seq<Option<nat>>, b: nat, r: nat, i: nat)
    requires WfFn(f)
  {
    b < i && r < |uf| && r != b && Leads(f, b, r) && (uf[r].Some? ==> r > b)
  }

  lemma Compress(f: Fn, uf: seq<Option<nat>>, i: nat, x: nat, r: nat)
    requires UfOk(f, uf, i) && x < |uf| && uf[x].Some? && r < |uf| && uf[r].None? && Leads(f, x, r)
    ensures UfOk(f, uf[x := Some(r)], i)
  {
    hide WfFn;
    hide Leads;
    var uf' := uf[x := Some(r)];
    forall b: nat | b < |uf'| && uf'[b].Some? ensures LinkOk(f, uf', b, uf'[b].value, i) {
      assert uf[b].Some? && LinkOk(f, uf, b, uf[b].value, i);
    }
  }

  lemma Link(f: Fn, uf: seq<Option<nat>>, i: nat, r: nat)
    requires UfOk(f, uf, i) && i < |uf| && uf[i].None? && r < |uf| && uf[r].None? && r != i && Leads(f, i, r)
    ensures UfOk(f, uf[i := Some(r)], i + 1)
  {
    hide WfFn;
    hide Leads;
    var uf' := uf[i := Some(r)];
    forall b: nat | b < |uf'| && uf'[b].Some? ensures LinkOk(f, uf', b, uf'[b].value, i + 1) {
      assert b != i ==> LinkOk(f, uf, b, uf[b].value, i);
    }
  }

  lemma HopLeads(f: Fn, b: nat, r: nat)
    requires WfFn(f) && Hop(f, b) && Leads(f, f.s1[b].value, r)
    ensures Leads(f, b, r)
  {
    var k: nat :| Hops(f, f.s1[b].value, k, r);
    assert Hops(f, b, k + 1, r);
  }

  class Pass {
    const nins: seq<nat>
    ghost const f: Fn                  // the function with its return block, before threading
    var jmp: seq<Jump>
    var s1: seq<Option<nat>>
    var s2: seq<Option<nat>>
    var uf: seq<Option<nat>>

    // uffind, on a copy of the block pointer.
    method UfFind(x: nat, ghost i: nat) returns (r: nat)
      requires UfOk(f, uf, i) && x < |uf|
      modifies this`uf
      ensures UfOk(f, uf, i) && |uf| == |old(uf)| && r < |uf| && uf[r].None? && Leads(f, x, r)
      ensures forall b: nat :: b < |uf| ==> (uf[b].None? <==> old(uf)[b].None?)
      ensures uf[x].None? ==> r == x
      decreases if uf[x].Some? then |uf| - x else 0
    {
      hide Leads;
      r := x;
      LeadsRefl(f, x);
      if uf[x].Some? {
        assert LinkOk(f, uf, x, uf[x].value, i);
        var y := uf[x].value;
        r := UfFind(y, i);
        LeadsTrans(f, x, y, r);
        Compress(f, uf, i, x, r);
        uf := uf[x := Some(r)];
      }
    }

    // First loop, block i.
    method First(ghost f0: Fn, i: nat)
      requires FirstSoFar(f0, f, jmp, s1, s2, uf, i) && i < |f0.jmp| && nins == f.nins
      modifies this`jmp, this`s1, this`uf
      ensures FirstSoFar(f0, f, jmp, s1, s2, uf, i + 1)
    {
      hide *;
      FirstParts(f0, f, jmp, s1, s2, uf, i);
      ghost var s10, uf0 := s1, uf;
      ghost var jmp0 := jmp;
      if jmp[i].Ret0? {
        jmp := jmp[i := Jmp];
        s1 := s1[i := Some(|jmp| - 1)];
      }
      FirstHere(f0, f, jmp0, s10, s2, uf, i, jmp, s1);
      if nins[i] == 0 && jmp[i].Jmp? {
        var r := UfFind(s1[i].value, i);
        ghost var uf1 := uf;
        FoundRoot(f, uf, i, s1[i].value, r);
        s1 := s1[i := Some(r)];
        if r != i {
          Link(f, uf, i, r);
          uf := uf[i := Some(r)];
        } else {
          UfMore(f, uf, i);
        }
        FirstHopped(f0, f, jmp0, s10, s2, uf0, i, jmp, s1, uf1, uf, r);
      } else {
        UfMore(f, uf, i);
        FirstPlain(f0, f, jmp0, s10, s2, uf, i, jmp, s1);
      }
    }

    // Second loop, block i.
    method Second(i: nat)
      requires SecondSoFar(f, jmp, s1, s2, uf, i) && i < |f.jmp| - 1
      modifies this`jmp, this`s1, this`s2, this`uf
      ensures SecondSoFar(f, jmp, s1, s2, uf, i + 1)
    {
      hide *;
      SecondParts(f, jmp, s1, s2, uf, i);
      ghost var jmp0, s10, s20, uf0 := jmp, s1, s2, uf;
      if s1[i].Some? {
        var r := UfFind(s1[i].value, |f.jmp|);
        s1 := s1[i := Some(r)];
      }
      ghost var uf1 := uf;
      SameRoots(f, uf0, uf1);
      if s2[i].Some? {
        var r := UfFind(s2[i].value, |f.jmp|);
        s2 := s2[i := Some(r)];
      }
      SameRoots(f, uf1, uf);
      ghost var s11, s21 := s1, s2;
      if s1[i].Some? && s1[i] == s2[i] {
        jmp := jmp[i := Jmp];
        s2 := s2[i := None];
      }
      SecondStep(f, jmp0, s10, s20, uf0, uf1, uf, i, s11, s21, jmp, s1, s2);
    }

    constructor (f0: Fn)
      requires WfFn(f0)
      ensures f == WithRet(f0) && nins == f.nins && FirstSoFar(f0, f, jmp, s1, s2, uf, 0)
    {
      f := WithRet(f0);
      nins := f0.nins + [0];
      jmp, s1, s2 := f0.jmp + [Ret0], f0.s1 + [None], f0.s2 + [None];
      uf := seq(|f0.jmp| + 1, _ => None);
      new;
      WithRetWf(f0);
    }
  }

  // simpljmp.
  method SimplJmp(f0: Fn) returns (g: Fn)
    requires WfFn(f0)
    ensures WfFn(g) && |g.jmp| == |f0.jmp| + 1
    ensures WfFn(WithRet(f0)) && PassRight(WithRet(f0), g)
    ensures OneReturn(f0, g)
    ensures forall b: nat :: b < |f0.jmp| ==> SameTrace(f0, g, b)
  {
    var p := new Pass(f0);
    WithRetWf(f0);
    ghost var f := WithRet(f0);
    assert p.f == f;
    hide *;
    var i: nat := 0;
    while i < |f0.jmp|
      invariant i <= |f0.jmp| && p.f == f && p.nins == f.nins && |f.jmp| == |f0.jmp| + 1
      invariant FirstSoFar(f0, f, p.jmp, p.s1, p.s2, p.uf, i)
    {
      p.First(f0, i);
      i := i + 1;
    }
    FirstDone(f0, f, p.jmp, p.s1, p.s2, p.uf);
    i := 0;
    while i < |f0.jmp|
      invariant i <= |f0.jmp| && p.f == f && p.nins == f.nins && |f.jmp| == |f0.jmp| + 1
      invariant SecondSoFar(f, p.jmp, p.s1, p.s2, p.uf, i)
    {
      p.Second(i);
      i := i + 1;
    }
    SecondDone(f, p.nins, p.jmp, p.s1, p.s2, p.uf);
    g := Fn.Fn(p.nins, p.jmp, p.s1, p.s2);
    ReturnsOnce(f0, g);
    PassKeeps(f0, f, g);
  }

  // ---- the two loops -----------------------------------------------------------------------------

  // The first loop has done the blocks below i of f0; f is f0 with its return block.
  ghost predicate FirstSoFar(f0: Fn, f: Fn, jmp: seq<Jump>, s1: seq<Option<nat>>, s2: seq<Option<nat>>, uf: seq<Option<nat>>, i: nat) {
    && WfFn(f0) && WfFn(f) && f == WithRet(f0) && i <= |f0.jmp|
    && |jmp| == |s1| == |s2| == |uf| == |f.jmp| && s2 == f.s2
    && UfOk(f, uf, i)
    && (forall b: nat :: b < |f.jmp| && (b < i || b == |f0.jmp|) ==> FirstAt(f, jmp, s1, uf, b))
    && (forall b: nat :: i <= b < |f0.jmp| ==> jmp[b] == f0.jmp[b] && s1[b] == f0.s1[b])
  }

  ghost predicate FirstAt(f: Fn, jmp: seq<Jump>, s1: seq<Option<nat>>, uf: seq<Option<nat>>, b: nat)
    requires WfFn(f) && |jmp| == |s1| == |uf| == |f.jmp| && b < |f.jmp|
  {
    && jmp[b] == f.jmp[b] && (s1[b].Some? <==> f.s1[b].Some?)
    && (s1[b].Some? ==> s1[b].value < |f.jmp| && Leads(f, f.s1[b].value, s1[b].value))
    && (Hop(f, b) && uf[b].None? ==> s1[b] == Some(b))
  }

  // The second loop has done the blocks below i.
  ghost predicate SecondSoFar(f: Fn, jmp: seq<Jump>, s1: seq<Option<nat>>, s2: seq<Option<nat>>, uf: seq<Option<nat>>, i: nat) {
    && WfFn(f) && i < |jmp| == |s1| == |s2| == |uf| == |f.jmp| && UfOk(f, uf, |f.jmp|)
    && (forall b: nat :: b < |f.jmp| && (b < i || b == |f.jmp| - 1) ==> SecondAt(f, jmp, s1, s2, uf, b))
    && (forall b: nat :: i <= b < |f.jmp| - 1 ==> FirstAt(f, jmp, s1, uf, b) && s2[b] == f.s2[b])
  }

  ghost predicate SecondAt(f: Fn, jmp: seq<Jump>, s1: seq<Option<nat>>, s2: seq<Option<nat>>, uf: seq<Option<nat>>, b: nat)
    requires WfFn(f) && |jmp| == |s1| == |s2| == |uf| == |f.jmp| && b < |f.jmp|
  {
    && WfBlk(f, b)
    && (s1[b].Some? <==> f.s1[b].Some?)
    && RootFrom(f, uf, f.s1[b], s1[b])
    && (if jmp[b] == f.jmp[b] then (s2[b].Some? <==> f.s2[b].Some?) && RootFrom(f, uf, f.s2[b], s2[b])
        else f.jmp[b].Jnz? && jmp[b].Jmp? && s2[b].None? && RootFrom(f, uf, f.s2[b], s1[b]))
    && (jmp[b].Jnz? ==> s1[b] != s2[b])
    && (Hop(f, b) && uf[b].None? ==> s1[b] == Some(b))
  }

  // y is the end of the links that lead on from x.
  ghost predicate RootFrom(f: Fn, uf: seq<Option<nat>>, x: Option<nat>, y: Option<nat>)
    requires WfFn(f) && |uf| == |f.jmp|
  {
    x.Some? && y.Some? ==> y.value < |uf| && uf[y.value].None? && Leads(f, x.value, y.value)
  }

  // After the pass: threaded, no way leads into an empty block that jumps elsewhere, and no
  // conditional jump has one target only.
  ghost predicate PassRight(f: Fn, g: Fn) {
    && Threaded(f, g)
    && (forall b: nat :: b < |f.jmp| ==> Straight(f, g, g.s1[b]) && Straight(f, g, g.s2[b]))
    && (forall b: nat :: b < |f.jmp| && g.jmp[b].Jnz? ==> g.s1[b] != g.s2[b])
  }

  // The added block, empty, is the only one to return; the blocks that returned jump to it.
  ghost predicate OneReturn(f0: Fn, g: Fn) {
    && |g.jmp| == |g.nins| == |g.s1| == |f0.jmp| + 1
    && g.jmp[|f0.jmp|] == Ret0 && g.nins[|f0.jmp|] == 0
    && (forall b: nat :: b < |f0.jmp| ==> g.jmp[b] != Ret0)
    && (forall b: nat :: b < |f0.jmp| && f0.jmp[b].Ret0? ==> g.jmp[b] == Jmp && g.s1[b] == Some(|f0.jmp|))
  }

  lemma ReturnsOnce(f0: Fn, g: Fn)
    requires WfFn(f0) && WfFn(WithRet(f0)) && PassRight(WithRet(f0), g)
    ensures OneReturn(f0, g)
  {
    hide Leads;
    var f := WithRet(f0);
    assert ThreadedAt(f, g, |f0.jmp|);
    forall b: nat | b < |f0.jmp| ensures g.jmp[b] != Ret0 {
      assert ThreadedAt(f, g, b);
    }
    forall b: nat | b < |f0.jmp| && f0.jmp[b].Ret0? ensures g.jmp[b] == Jmp && g.s1[b] == Some(|f0.jmp|) {
      assert ThreadedAt(f, g, b);
      LeadsNowhere(f, |f0.jmp|, g.s1[b].value);
    }
  }

  lemma LeadsNowhere(f: Fn, x: nat, y: nat)
    requires WfFn(f) && Leads(f, x, y) && !Hop(f, x)
    ensures y == x
  {
    var k: nat :| Hops(f, x, k, y);
  }

  ghost predicate Straight(f: Fn, g: Fn, s: Option<nat>)
    requires WfFn(f) && WfFn(g) && |g.jmp| == |f.jmp|
  {
    s.Some? && Hop(f, s.value) ==> g.s1[s.value] == s
  }

  lemma SecondDone(f: Fn, nins: seq<nat>, jmp: seq<Jump>, s1: seq<Option<nat>>, s2: seq<Option<nat>>, uf: seq<Option<nat>>)
    requires |f.jmp| > 0 && SecondSoFar(f, jmp, s1, s2, uf, |f.jmp| - 1) && nins == f.nins
    ensures PassRight(f, Fn.Fn(nins, jmp, s1, s2))
  {
    hide Leads;
    hide Hop;
    hide UfOk;
    var g := Fn.Fn(nins, jmp, s1, s2);
    forall b: nat | b < |f.jmp| ensures WfBlk(g, b) {
      assert SecondAt(f, jmp, s1, s2, uf, b);
    }
    assert WfFn(g);
    forall b: nat | b < |f.jmp| ensures ThreadedAt(f, g, b) {
      assert SecondAt(f, jmp, s1, s2, uf, b);
    }
    forall b: nat | b < |f.jmp|
      ensures Straight(f, g, g.s1[b]) && Straight(f, g, g.s2[b]) && (g.jmp[b].Jnz? ==> g.s1[b] != g.s2[b])
    {
      assert SecondAt(f, jmp, s1, s2, uf, b);
      if g.s1[b].Some? {
        assert SecondAt(f, jmp, s1, s2, uf, g.s1[b].value);
      }
      if g.s2[b].Some? {
        assert SecondAt(f, jmp, s1, s2, uf, g.s2[b].value);
      }
    }
  }

  lemma FirstParts(f0: Fn, f: Fn, jmp: seq<Jump>, s1: seq<Option<nat>>, s2: seq<Option<nat>>, uf: seq<Option<nat>>, i: nat)
    requires FirstSoFar(f0, f, jmp, s1, s2, uf, i) && i < |f0.jmp|
    ensures |jmp| == |s1| == |s2| == |uf| == |f.jmp| == |f.nins| == |f0.jmp| + 1 && UfOk(f, uf, i) && WfFn(f)
    ensures uf[i].None?
  {
    WithRetWf(f0);
    assert uf[i].Some? ==> LinkOk(f, uf, i, uf[i].value, i);
  }

  // The block as the first loop finds it, its plain return redirected.
  lemma FirstHere(f0: Fn, f: Fn, jmp0: seq<Jump>, s10: seq<Option<nat>>, s2: seq<Option<nat>>, uf: seq<Option<nat>>, i: nat,
                  jmp: seq<Jump>, s1: seq<Option<nat>>)
    requires FirstSoFar(f0, f, jmp0, s10, s2, uf, i) && i < |f0.jmp| && |jmp0| == |s10| == |f0.jmp| + 1
    requires jmp == if jmp0[i].Ret0? then jmp0[i := Jmp] else jmp0
    requires s1 == if jmp0[i].Ret0? then s10[i := Some(|jmp0| - 1)] else s10
    ensures i < |jmp| == |s1| && i < |f.jmp| && |f.jmp| == |f.nins| == |f.s1| == |f.s2| && jmp[i] == f.jmp[i] && s1[i] == f.s1[i]
    ensures jmp[i].Jmp? ==> s1[i].Some? && s1[i].value < |f.jmp|
    ensures Hop(f, i) <==> f.nins[i] == 0 && jmp[i].Jmp?
  {
    hide UfOk;
    hide FirstAt;
    assert WfBlk(f0, i);
  }

  lemma FoundRoot(f: Fn, uf: seq<Option<nat>>, i: nat, x: nat, r: nat)
    requires UfOk(f, uf, i) && i < |f.jmp| && |f.jmp| == |f.nins| == |f.s1| == |f.s2| && Hop(f, i) && f.s1[i] == Some(x) && Leads(f, x, r)
    ensures WfFn(f) && Leads(f, i, r)
  {
    HopLeads(f, i, r);
  }

  lemma UfMore(f: Fn, uf: seq<Option<nat>>, i: nat)
    requires UfOk(f, uf, i)
    ensures UfOk(f, uf, i + 1)
  {
    hide Leads;
    forall b: nat | b < |uf| && uf[b].Some? ensures LinkOk(f, uf, b, uf[b].value, i + 1) {
      assert LinkOk(f, uf, b, uf[b].value, i);
    }
  }

  lemma FirstHopped(f0: Fn, f: Fn, jmp0: seq<Jump>, s10: seq<Option<nat>>, s2: seq<Option<nat>>, uf0: seq<Option<nat>>, i: nat,
                    jmp: seq<Jump>, s1: seq<Option<nat>>, uf1: seq<Option<nat>>, uf: seq<Option<nat>>, r: nat)
    requires FirstSoFar(f0, f, jmp0, s10, s2, uf0, i) && i < |f0.jmp| && |jmp0| == |s10| == |f0.jmp| + 1 == |uf0| == |uf1|
    requires jmp == if jmp0[i].Ret0? then jmp0[i := Jmp] else jmp0
    requires s1 == (if jmp0[i].Ret0? then s10[i := Some(|jmp0| - 1)] else s10)[i := Some(r)]
    requires |f.jmp| == |f.nins| == |f.s1| == |f.s2| && Hop(f, i) && Leads(f, f.s1[i].value, r) && r < |f.jmp| && i < |jmp| && jmp[i] == f.jmp[i]
    requires forall b: nat :: b < |uf1| ==> (uf1[b].None? <==> uf0[b].None?)
    requires uf == if r != i then uf1[i := Some(r)] else uf1
    requires UfOk(f, uf, i + 1)
    ensures FirstSoFar(f0, f, jmp, s1, s2, uf, i + 1)
  {
    hide Leads;
    hide Hop;
    hide UfOk;
    hide WithRet;
    forall b: nat | b < |f.jmp| && (b < i + 1 || b == |f0.jmp|) ensures FirstAt(f, jmp, s1, uf, b) {
      if b != i {
        assert FirstAt(f, jmp0, s10, uf0, b);
      } else {
        HopSome(f, i);
      }
    }
  }

  lemma FirstPlain(f0: Fn, f: Fn, jmp0: seq<Jump>, s10: seq<Option<nat>>, s2: seq<Option<nat>>, uf: seq<Option<nat>>, i: nat,
                   jmp: seq<Jump>, s1: seq<Option<nat>>)
    requires FirstSoFar(f0, f, jmp0, s10, s2, uf, i) && i < |f0.jmp| && |jmp0| == |s10| == |f0.jmp| + 1
    requires jmp == if jmp0[i].Ret0? then jmp0[i := Jmp] else jmp0
    requires s1 == if jmp0[i].Ret0? then s10[i := Some(|jmp0| - 1)] else s10
    requires i < |jmp| == |s1| && i < |f.jmp| && |f.jmp| == |f.nins| == |f.s1| == |f.s2| && jmp[i] == f.jmp[i] && s1[i] == f.s1[i]
    requires !Hop(f, i) && UfOk(f, uf, i + 1)
    ensures FirstSoFar(f0, f, jmp, s1, s2, uf, i + 1)
  {
    hide Leads;
    hide Hop;
    hide UfOk;
    hide WithRet;
    forall b: nat | b < |f.jmp| && (b < i + 1 || b == |f0.jmp|) ensures FirstAt(f, jmp, s1, uf, b) {
      if b != i {
        assert FirstAt(f, jmp0, s10, uf, b);
      } else {
        assert WfBlk(f, i);
        if f.s1[i].Some? {
          LeadsRefl(f, f.s1[i].value);
        }
      }
    }
  }

  lemma FirstDone(f0: Fn, f: Fn, jmp: seq<Jump>, s1: seq<Option<nat>>, s2: seq<Option<nat>>, uf: seq<Option<nat>>)
    requires FirstSoFar(f0, f, jmp, s1, s2, uf, |f0.jmp|)
    ensures SecondSoFar(f, jmp, s1, s2, uf, 0)
  {
    hide Leads;
    WithRetWf(f0);
    UfMore(f, uf, |f0.jmp|);
    var n: nat := |f0.jmp|;
    assert FirstAt(f, jmp, s1, uf, n) && WfBlk(f, n);
    assert SecondAt(f, jmp, s1, s2, uf, n);
  }

  lemma SecondParts(f: Fn, jmp: seq<Jump>, s1: seq<Option<nat>>, s2: seq<Option<nat>>, uf: seq<Option<nat>>, i: nat)
    requires SecondSoFar(f, jmp, s1, s2, uf, i) && i < |f.jmp| - 1
    ensures WfFn(f) && |jmp| == |s1| == |s2| == |uf| == |f.jmp| == |f.s1| == |f.s2| == |f.nins| && UfOk(f, uf, |f.jmp|)
    ensures s1[i].Some? ==> s1[i].value < |uf|
    ensures s2[i].Some? ==> s2[i].value < |uf|
  {
    hide Leads;
    hide UfOk;
    assert FirstAt(f, jmp, s1, uf, i) && WfBlk(f, i);
  }

  lemma SameRoots(f: Fn, uf0: seq<Option<nat>>, uf: seq<Option<nat>>)
    requires WfFn(f) && |uf0| == |uf| == |f.jmp| && forall b: nat :: b < |uf| ==> (uf[b].None? <==> uf0[b].None?)
    ensures forall x: Option<nat>, y: Option<nat> :: RootFrom(f, uf0, x, y) ==> RootFrom(f, uf, x, y)
  {
    hide Leads;
  }

  lemma RootTrans(f: Fn, uf: seq<Option<nat>>, x: Option<nat>, y: nat, r: nat)
    requires WfFn(f) && |uf| == |f.jmp| && x.Some? && Leads(f, x.value, y) && Leads(f, y, r) && r < |uf| && uf[r].None?
    ensures RootFrom(f, uf, x, Some(r))
  {
    LeadsTrans(f, x.value, y, r);
  }

  lemma SecondStep(f: Fn, jmp0: seq<Jump>, s10: seq<Option<nat>>, s20: seq<Option<nat>>, uf0: seq<Option<nat>>, uf1: seq<Option<nat>>,
                   uf: seq<Option<nat>>, i: nat, s11: seq<Option<nat>>, s21: seq<Option<nat>>,
                   jmp: seq<Jump>, s1: seq<Option<nat>>, s2: seq<Option<nat>>)
    requires SecondSoFar(f, jmp0, s10, s20, uf0, i) && i < |f.jmp| - 1 && UfOk(f, uf, |f.jmp|)
    requires |jmp0| == |s10| == |s20| == |uf0| == |uf1| == |uf| == |f.jmp| == |s11| == |s21|
    requires forall b: nat :: b < |uf| ==> (uf[b].None? <==> uf0[b].None?) && (uf1[b].None? <==> uf0[b].None?)
    requires s11 == if s10[i].Some? then s10[i := s11[i]] else s10
    requires s21 == if s20[i].Some? then s20[i := s21[i]] else s20
    requires s10[i].Some? ==> s11[i].Some? && s11[i].value < |uf| && uf[s11[i].value].None? && Leads(f, s10[i].value, s11[i].value)
                              && (uf0[s10[i].value].None? ==> s11[i] == s10[i])
    requires s20[i].Some? ==> s21[i].Some? && s21[i].value < |uf| && uf[s21[i].value].None? && Leads(f, s20[i].value, s21[i].value)
    requires if s11[i].Some? && s11[i] == s21[i] then jmp == jmp0[i := Jmp] && s1 == s11 && s2 == s21[i := None]
             else jmp == jmp0 && s1 == s11 && s2 == s21
    ensures SecondSoFar(f, jmp, s1, s2, uf, i + 1)
  {
    hide Leads;
    hide Hop;
    hide UfOk;
    SecondHere(f, jmp0, s10, s20, uf0, uf, i, s11, s21, jmp, s1, s2);
    SameRoots(f, uf0, uf);
    forall b: nat | b < |f.jmp| && (b < i + 1 || b == |f.jmp| - 1) ensures SecondAt(f, jmp, s1, s2, uf, b) {
      if b != i {
        assert SecondAt(f, jmp0, s10, s20, uf0, b);
      }
    }
    forall b: nat | i + 1 <= b < |f.jmp| - 1 ensures FirstAt(f, jmp, s1, uf, b) && s2[b] == f.s2[b] {
      assert FirstAt(f, jmp0, s10, uf0, b);
    }
  }

  lemma SecondHere(f: Fn, jmp0: seq<Jump>, s10: seq<Option<nat>>, s20: seq<Option<nat>>, uf0: seq<Option<nat>>,
                   uf: seq<Option<nat>>, i: nat, s11: seq<Option<nat>>, s21: seq<Option<nat>>,
                   jmp: seq<Jump>, s1: seq<Option<nat>>, s2: seq<Option<nat>>)
    requires SecondSoFar(f, jmp0, s10, s20, uf0, i) && i < |f.jmp| - 1
    requires |jmp0| == |s10| == |s20| == |uf0| == |uf| == |f.jmp| == |s11| == |s21|
    requires forall b: nat :: b < |uf| ==> (uf[b].None? <==> uf0[b].None?)
    requires s11 == if s10[i].Some? then s10[i := s11[i]] else s10
    requires s21 == if s20[i].Some? then s20[i := s21[i]] else s20
    requires s10[i].Some? ==> s11[i].Some? && s11[i].value < |uf| && uf[s11[i].value].None? && Leads(f, s10[i].value, s11[i].value)
                              && (uf0[s10[i].value].None? ==> s11[i] == s10[i])
    requires s20[i].Some? ==> s21[i].Some? && s21[i].value < |uf| && uf[s21[i].value].None? && Leads(f, s20[i].value, s21[i].value)
    requires if s11[i].Some? && s11[i] == s21[i] then jmp == jmp0[i := Jmp] && s1 == s11 && s2 == s21[i := None]
             else jmp == jmp0 && s1 == s11 && s2 == s21
    ensures SecondAt(f, jmp, s1, s2, uf, i)
  {
    hide Leads;
    hide Hop;
    hide UfOk;
    assert FirstAt(f, jmp0, s10, uf0, i) && WfBlk(f, i);
    if s10[i].Some? {
      RootTrans(f, uf, f.s1[i], s10[i].value, s11[i].value);
    }
    if s20[i].Some? {
      LeadsRefl(f, s20[i].value);
      RootTrans(f, uf, f.s2[i], s20[i].value, s21[i].value);
    }
  }

  lemma PassKeeps(f0: Fn, f: Fn, g: Fn)
    requires WfFn(f0) && f == WithRet(f0) && PassRight(f, g)
    ensures WfFn(f) && WfFn(g) && |g.jmp| == |f0.jmp| + 1
    ensures forall b: nat :: b < |f0.jmp| ==> SameTrace(f0, g, b)
  {
    hide Shows;
    hide Straight;
    hide ThreadedAt;
    WithRetWf(f0);
    forall b: nat | b < |f0.jmp| ensures SameTrace(f0, g, b) {
      RetSame(f0, b);
      ThreadedSame(f, g, b);
      ShowsTrans(f0, f, g, b);
      ShowsTrans(g, f, f0, b);
    }
  }

  // ---- facts that unfold at once ----------------------------------------------------------

  lemma StepRet(f: Fn, sem: Sem, st: int)
    requires WfFn(f) && WfFn(WithRet(f))
    ensures Step(WithRet(f), sem, Body(|f.jmp|, st)) == (Leave(|f.jmp|, st), [])
    ensures Step(WithRet(f), sem, Leave(|f.jmp|, st)) == (Done, [Return(st)])
  {
  }

  lemma HopSome(f: Fn, b: nat)
    requires |f.jmp| == |f.nins| == |f.s1| == |f.s2| && Hop(f, b)
    ensures b < |f.jmp| && f.s1[b].Some? && f.jmp[b].Jmp?
  {
  }
}
