// opt/rega.c: sequencing a parallel move (pmadd, pmrec, pmgen).
//
// The allocator asks for a set of moves to happen at once; pmgen emits copies
// and swaps that do the same one after the other.  Instructions are emitted
// backwards (ir_util.c, emit): the last one emitted runs first.
module ParMove {

  type Loc = int    // a register or a stack slot

  // A register class: KBASE and KWIDE of Kw, Kl, Ks, Kd.
  datatype Cls = Cls(flt: bool, wide: bool)

  // Location contents: a low half every class moves, a high half only wide ones do.
  datatype Cell = Cell(lo: int, hi: int)

  type State = Loc -> Cell

  datatype Move = Move(src: Loc, dst: Loc, cls: Cls)

  datatype Op =
    | Copy(cls: Cls, to: Loc, arg: Loc)
    | Swap(cls: Cls, arg0: Loc, arg1: Loc)

  datatype Status = ToMove | Moving | Moved

  // What class c makes of a value: a narrow move leaves some unspecified high half.
  function Through(c: Cls, v: Cell, junk: Cell -> int): Cell {
    if c.wide then v else Cell(v.lo, junk(v))
  }

  function Step(op: Op, s: State, junk: Cell -> int): State {
    match op
    case Copy(c, to, arg) =>
      (l: Loc) => if l == to then Through(c, s(arg), junk) else s(l)
    case Swap(c, a, b) =>
      (l: Loc) => if l == a then Through(c, s(b), junk) else if l == b then Through(c, s(a), junk) else s(l)
  }

  // Run a sequence of instructions, first one first.
  function Exec(code: seq<Op>, s: State, junk: Cell -> int): State {
    if |code| == 0 then s else Exec(code[1..], Step(code[0], s, junk), junk)
  }

  predicate Agree(v: Cell, w: Cell, wide: bool) {
    v.lo == w.lo && (wide ==> v.hi == w.hi)
  }

  // The whole parallel move: every destination gets its source's old content,
  // on as many bits as the move is wide, and nothing else changes.
  ghost predicate IsParallelMove(code: seq<Op>, pm: seq<Move>) {
    forall s: State, junk: Cell -> int :: MovesAll(code, pm, s, junk)
  }

  ghost predicate MovesAll(code: seq<Op>, pm: seq<Move>, s: State, junk: Cell -> int) {
    && (forall i :: 0 <= i < |pm| ==> Agree(Exec(code, s, junk)(pm[i].dst), s(pm[i].src), pm[i].cls.wide))
    && (forall l: Loc :: (forall i :: 0 <= i < |pm| ==> pm[i].dst != l) ==> Exec(code, s, junk)(l) == s(l))
  }

  ghost predicate Distinct(pm: seq<Move>) {
    forall i, j :: 0 <= i < j < |pm| ==> pm[i].dst != pm[j].dst
  }

  // Moves that touch the same location are of the same base class.
  ghost predicate SameBase(pm: seq<Move>) {
    forall i, j :: 0 <= i < |pm| && 0 <= j < |pm| && pm[j].dst == pm[i].src ==> pm[j].cls.flt == pm[i].cls.flt
  }

  // ---- what a partly generated sequence does ---------------------------------

  // A cycle under way: the destination of move c still waits for its value;
  // the code so far puts the initial content of `from` there.
  datatype Pending = NoCycle | Cycle(c: nat, from: Loc, wide: bool)

  ghost predicate EffectAt(code: seq<Op>, pm: seq<Move>, done: set<nat>, p: Pending, s: State, junk: Cell -> int) {
    && (forall i: nat :: i < |pm| && i in done ==> Agree(Exec(code, s, junk)(pm[i].dst), s(pm[i].src), pm[i].cls.wide))
    && (p.Cycle? && p.c < |pm| ==> Agree(Exec(code, s, junk)(pm[p.c].dst), s(p.from), p.wide))
    && (forall l: Loc :: Untouched(pm, done, p, l) ==> Exec(code, s, junk)(l) == s(l))
  }

  ghost predicate Untouched(pm: seq<Move>, done: set<nat>, p: Pending, l: Loc) {
    && (forall i: nat :: i < |pm| && i in done ==> pm[i].dst != l)
    && (p.Cycle? && p.c < |pm| ==> pm[p.c].dst != l)
  }

  ghost predicate Effect(code: seq<Op>, pm: seq<Move>, done: set<nat>, p: Pending) {
    forall s: State, junk: Cell -> int :: EffectAt(code, pm, done, p, s, junk)
  }

  // Whatever overwrites the source of a done move is done too, or is the move
  // the pending cycle closes on.
  ghost predicate Closed(pm: seq<Move>, done: set<nat>, p: Pending) {
    forall i: nat, j: nat :: i < |pm| && j < |pm| && i in done && pm[j].dst == pm[i].src
                             ==> j in done || (p.Cycle? && p.c == j)
  }

  ghost predicate Consistent(code: seq<Op>, pm: seq<Move>, done: set<nat>, p: Pending) {
    && Effect(code, pm, done, p)
    && Closed(pm, done, p)
    && (forall i: nat :: i in done ==> i < |pm|)
    && (p.Cycle? ==> p.c < |pm| && p.c !in done)
  }

  lemma ExecFirst(op: Op, code: seq<Op>, s: State, junk: Cell -> int)
    ensures Exec([op] + code, s, junk) == Exec(code, Step(op, s, junk), junk)
  {
    assert ([op] + code)[1..] == code;
  }

  // A plain copy in front: right when no done move reads its destination.
  lemma CopyInFront(code: seq<Op>, pm: seq<Move>, done: set<nat>, i: nat)
    requires Distinct(pm) && Consistent(code, pm, done, NoCycle)
    requires i < |pm| && i !in done
    requires forall j: nat :: j < |pm| && pm[j].dst == pm[i].src ==> j in done
    ensures Consistent([Copy(pm[i].cls, pm[i].dst, pm[i].src)] + code, pm, done + {i}, NoCycle)
  {
    var op := Copy(pm[i].cls, pm[i].dst, pm[i].src);
    NoReader(code, pm, done, NoCycle, i);
    forall s: State, junk: Cell -> int ensures EffectAt([op] + code, pm, done + {i}, NoCycle, s, junk) {
      assert EffectAt(code, pm, done, NoCycle, Step(op, s, junk), junk);
      CopyEffect(code, pm, done, i, s, junk);
    }
  }

  lemma CopyEffect(code: seq<Op>, pm: seq<Move>, done: set<nat>, i: nat, s: State, junk: Cell -> int)
    requires Distinct(pm) && i < |pm| && i !in done
    requires forall x: nat :: x < |pm| && x in done ==> pm[x].src != pm[i].dst
    requires EffectAt(code, pm, done, NoCycle, Step(Copy(pm[i].cls, pm[i].dst, pm[i].src), s, junk), junk)
    ensures EffectAt([Copy(pm[i].cls, pm[i].dst, pm[i].src)] + code, pm, done + {i}, NoCycle, s, junk)
  {
    var op := Copy(pm[i].cls, pm[i].dst, pm[i].src);
    ExecFirst(op, code, s, junk);
    hide Exec;
    assert Untouched(pm, done, NoCycle, pm[i].dst);
    forall l: Loc | Untouched(pm, done + {i}, NoCycle, l) ensures Exec([op] + code, s, junk)(l) == s(l) {
      assert i in done + {i};
      assert Untouched(pm, done, NoCycle, l);
    }
  }

  // The swap that opens a cycle: move i reads what move c, still under way, overwrites.
  lemma SwapOpens(code: seq<Op>, pm: seq<Move>, done: set<nat>, i: nat, c: nat, k: Cls)
    requires Distinct(pm) && Consistent(code, pm, done, NoCycle)
    requires i < |pm| && i !in done && c < |pm| && c !in done && i != c
    requires pm[c].dst == pm[i].src && (pm[i].cls.wide ==> k.wide)
    ensures Consistent([Swap(k, pm[i].src, pm[i].dst)] + code, pm, done + {i}, Cycle(c, pm[i].dst, k.wide))
  {
    var op := Swap(k, pm[i].src, pm[i].dst);
    NoReader(code, pm, done, NoCycle, i);
    NoReader(code, pm, done, NoCycle, c);
    forall s: State, junk: Cell -> int
      ensures EffectAt([op] + code, pm, done + {i}, Cycle(c, pm[i].dst, k.wide), s, junk)
    {
      assert EffectAt(code, pm, done, NoCycle, Step(op, s, junk), junk);
      OpenEffect(code, pm, done, i, c, k, s, junk);
    }
  }

  lemma OpenEffect(code: seq<Op>, pm: seq<Move>, done: set<nat>, i: nat, c: nat, k: Cls, s: State, junk: Cell -> int)
    requires Distinct(pm) && i < |pm| && i !in done && c < |pm| && c !in done && i != c
    requires pm[c].dst == pm[i].src && (pm[i].cls.wide ==> k.wide)
    requires forall x: nat :: x < |pm| && x in done ==> pm[x].src != pm[i].dst && pm[x].src != pm[c].dst
    requires EffectAt(code, pm, done, NoCycle, Step(Swap(k, pm[i].src, pm[i].dst), s, junk), junk)
    ensures EffectAt([Swap(k, pm[i].src, pm[i].dst)] + code, pm, done + {i}, Cycle(c, pm[i].dst, k.wide), s, junk)
  {
    var op := Swap(k, pm[i].src, pm[i].dst);
    var p := Cycle(c, pm[i].dst, k.wide);
    ExecFirst(op, code, s, junk);
    hide Exec;
    assert Untouched(pm, done, NoCycle, pm[i].dst);
    assert Untouched(pm, done, NoCycle, pm[c].dst);
    forall l: Loc | Untouched(pm, done + {i}, p, l) ensures Exec([op] + code, s, junk)(l) == s(l) {
      assert i in done + {i};
      assert Untouched(pm, done, NoCycle, l);
    }
  }

  // A swap further up the cycle passes the pending value along.
  lemma SwapPasses(code: seq<Op>, pm: seq<Move>, done: set<nat>, i: nat, j: nat, c: nat, k: Cls)
    requires i < |pm| && i !in done && i != c
    requires Distinct(pm) && Consistent(code, pm, done, Cycle(c, pm[i].src, k.wide))
    requires j < |pm| && j in done && pm[j].dst == pm[i].src && (pm[i].cls.wide ==> k.wide)
    requires forall x: nat :: x < |pm| && x in done ==> pm[x].src != pm[j].dst
    ensures Consistent([Swap(k, pm[i].src, pm[i].dst)] + code, pm, done + {i}, Cycle(c, pm[i].dst, k.wide))
  {
    var op := Swap(k, pm[i].src, pm[i].dst);
    NoReader(code, pm, done, Cycle(c, pm[i].src, k.wide), i);
    forall s: State, junk: Cell -> int
      ensures EffectAt([op] + code, pm, done + {i}, Cycle(c, pm[i].dst, k.wide), s, junk)
    {
      assert EffectAt(code, pm, done, Cycle(c, pm[i].src, k.wide), Step(op, s, junk), junk);
      PassEffect(code, pm, done, i, j, c, k, s, junk);
    }
  }

  lemma PassEffect(code: seq<Op>, pm: seq<Move>, done: set<nat>, i: nat, j: nat, c: nat, k: Cls, s: State, junk: Cell -> int)
    requires Distinct(pm) && i < |pm| && i !in done && i != c && c < |pm| && c !in done
    requires j < |pm| && j in done && pm[j].dst == pm[i].src && (pm[i].cls.wide ==> k.wide)
    requires forall x: nat :: x < |pm| && x in done ==> pm[x].src != pm[i].dst && pm[x].src != pm[j].dst
    requires EffectAt(code, pm, done, Cycle(c, pm[i].src, k.wide), Step(Swap(k, pm[i].src, pm[i].dst), s, junk), junk)
    ensures EffectAt([Swap(k, pm[i].src, pm[i].dst)] + code, pm, done + {i}, Cycle(c, pm[i].dst, k.wide), s, junk)
  {
    var op := Swap(k, pm[i].src, pm[i].dst);
    var p, p' := Cycle(c, pm[i].src, k.wide), Cycle(c, pm[i].dst, k.wide);
    ExecFirst(op, code, s, junk);
    hide Exec;
    assert Untouched(pm, done, p, pm[i].dst);
    forall l: Loc | Untouched(pm, done + {i}, p', l) ensures Exec([op] + code, s, junk)(l) == s(l) {
      assert i in done + {i} && j in done + {i};
      assert Untouched(pm, done, p, l);
    }
  }

  // The move the cycle closes on has received its value: nothing to emit.
  lemma CycleCloses(code: seq<Op>, pm: seq<Move>, done: set<nat>, i: nat, wide: bool)
    requires i < |pm| && Distinct(pm) && Consistent(code, pm, done, Cycle(i, pm[i].src, wide))
    requires (pm[i].cls.wide ==> wide)
    requires forall j: nat :: j < |pm| && pm[j].dst == pm[i].src ==> j in done
    ensures Consistent(code, pm, done + {i}, NoCycle)
  {
    forall s: State, junk: Cell -> int ensures EffectAt(code, pm, done + {i}, NoCycle, s, junk) {
      assert EffectAt(code, pm, done, Cycle(i, pm[i].src, wide), s, junk);
      forall l: Loc | Untouched(pm, done + {i}, NoCycle, l) ensures Exec(code, s, junk)(l) == s(l) {
        assert i in done + {i};
        assert Untouched(pm, done, Cycle(i, pm[i].src, wide), l);
      }
    }
  }

  // A move onto itself needs no code.
  lemma NothingToMove(code: seq<Op>, pm: seq<Move>, done: set<nat>, i: nat)
    requires Distinct(pm) && Consistent(code, pm, done, NoCycle)
    requires i < |pm| && i !in done && pm[i].src == pm[i].dst
    ensures Consistent(code, pm, done + {i}, NoCycle)
  {
    forall s: State, junk: Cell -> int ensures EffectAt(code, pm, done + {i}, NoCycle, s, junk) {
      assert EffectAt(code, pm, done, NoCycle, s, junk);
      assert Untouched(pm, done, NoCycle, pm[i].dst);
      forall l: Loc | Untouched(pm, done + {i}, NoCycle, l) ensures Exec(code, s, junk)(l) == s(l) {
        assert Untouched(pm, done, NoCycle, l);
      }
    }
  }

  lemma AllDone(code: seq<Op>, pm: seq<Move>, done: set<nat>)
    requires Consistent(code, pm, done, NoCycle)
    requires forall i: nat :: i < |pm| ==> i in done
    ensures IsParallelMove(code, pm)
  {
    forall s: State, junk: Cell -> int ensures MovesAll(code, pm, s, junk) {
      assert EffectAt(code, pm, done, NoCycle, s, junk);
      forall l: Loc | forall i :: 0 <= i < |pm| ==> pm[i].dst != l ensures Exec(code, s, junk)(l) == s(l) {
        assert Untouched(pm, done, NoCycle, l);
      }
    }
  }

  // ---- the classes of the code ---------------------------------------------------

  // Each move of q overwrites the source of the one before it.
  ghost predicate IsChain(pm: seq<Move>, q: seq<nat>) {
    && |q| > 0 && (forall n :: 0 <= n < |q| ==> q[n] < |pm|)
    && (forall n :: 0 < n < |q| ==> pm[q[n]].dst == pm[q[n - 1]].src)
  }

  // Move x has to wait for move i, through any number of others.
  ghost predicate Leads(pm: seq<Move>, i: nat, x: nat) {
    exists q: seq<nat> :: IsChain(pm, q) && q[0] == i && q[|q| - 1] == x
  }

  // The first of the moves that lead to i.
  ghost predicate IsRoot(pm: seq<Move>, root: nat, i: nat) {
    Leads(pm, root, i) && forall y: nat :: Leads(pm, y, i) ==> root <= y
  }

  // A move on the way from the first move on is wide.
  ghost predicate WideFrom(pm: seq<Move>, root: nat) {
    exists x: nat :: x < |pm| && Leads(pm, root, x) && pm[x].cls.wide
  }

  // An instruction made for move i.  A copy has the move's class.  A swap has its base
  // class, and is wide just when a move handled with the cycle is: one on the cycle, or
  // on the way into it from the first move that leads to it.
  ghost predicate OpFor(pm: seq<Move>, op: Op, i: nat) {
    && i < |pm| && pm[i].src != pm[i].dst
    && (match op
        case Copy(k, to, arg) => k == pm[i].cls && to == pm[i].dst && arg == pm[i].src
        case Swap(k, a, b) =>
          && a == pm[i].src && b == pm[i].dst && k.flt == pm[i].cls.flt
          && exists root: nat :: IsRoot(pm, root, i) && (k.wide <==> WideFrom(pm, root)))
  }

  // made says which move each instruction is for; no move has two.
  ghost predicate MadeFor(code: seq<Op>, pm: seq<Move>, made: seq<nat>) {
    && |made| == |code|
    && (forall n :: 0 <= n < |code| ==> OpFor(pm, code[n], made[n]))
    && (forall m, n :: 0 <= m < n < |made| ==> made[m] != made[n])
  }

  ghost predicate OnePerMove(code: seq<Op>, pm: seq<Move>) {
    exists made: seq<nat> :: MadeFor(code, pm, made)
  }

  ghost predicate AnyWide(pm: seq<Move>, q: seq<nat>) {
    exists n :: 0 <= n < |q| && q[n] < |pm| && pm[q[n]].cls.wide
  }

  // q starts at the root, and holds every move the root leads to: the next one is in it.
  ghost predicate ClosedChain(pm: seq<Move>, q: seq<nat>, root: nat) {
    IsChain(pm, q) && q[0] == root && exists j: nat :: j in q && j < |pm| && pm[j].dst == pm[q[|q| - 1]].src
  }

  lemma PrefixLeads(pm: seq<Move>, q: seq<nat>, n: nat)
    requires IsChain(pm, q) && n < |q|
    ensures Leads(pm, q[0], q[n])
  {
    assert IsChain(pm, q[..n + 1]) && q[..n + 1][n] == q[n];
  }

  // Nothing leads out of a closed chain.
  lemma {:induction false} LeadsInside(pm: seq<Move>, q: seq<nat>, root: nat, w: seq<nat>)
    requires Distinct(pm) && ClosedChain(pm, q, root) && IsChain(pm, w) && w[0] in q
    ensures w[|w| - 1] in q
  {
    if |w| > 1 {
      var w' := w[..|w| - 1];
      LeadsInside(pm, q, root, w');
      var n :| 0 <= n < |q| && q[n] == w'[|w'| - 1];
      var j: nat := w[|w| - 1];
      assert pm[j].dst == pm[q[n]].src;
      if n + 1 < |q| {
        assert pm[q[n + 1]].dst == pm[q[n]].src;
        assert j == q[n + 1];
      }
    }
  }

  // The width gathered along a closed chain is the width of all the root leads to.
  lemma ClosedWide(pm: seq<Move>, q: seq<nat>, root: nat)
    requires Distinct(pm) && ClosedChain(pm, q, root)
    ensures AnyWide(pm, q) <==> WideFrom(pm, root)
  {
    if AnyWide(pm, q) {
      var n :| 0 <= n < |q| && q[n] < |pm| && pm[q[n]].cls.wide;
      PrefixLeads(pm, q, n);
    }
    if WideFrom(pm, root) {
      var x: nat :| x < |pm| && Leads(pm, root, x) && pm[x].cls.wide;
      var w: seq<nat> :| IsChain(pm, w) && w[0] == root && w[|w| - 1] == x;
      LeadsInside(pm, q, root, w);
      var n :| 0 <= n < |q| && q[n] == x;
    }
  }

  // Whatever a done move waits for is done.
  lemma {:induction false} DoneLeads(pm: seq<Move>, done: set<nat>, w: seq<nat>)
    requires Closed(pm, done, NoCycle) && IsChain(pm, w) && w[0] in done
    ensures w[|w| - 1] in done
  {
    if |w| > 1 {
      DoneLeads(pm, done, w[..|w| - 1]);
    }
  }

  // With all moves before it done, the root is the first that leads to a move not done.
  lemma RootIs(pm: seq<Move>, done: set<nat>, root: nat, i: nat)
    requires Closed(pm, done, NoCycle) && Leads(pm, root, i) && i !in done && forall y: nat :: y < root ==> y in done
    ensures IsRoot(pm, root, i)
  {
    forall y: nat | Leads(pm, y, i) ensures root <= y {
      var w: seq<nat> :| IsChain(pm, w) && w[0] == y && w[|w| - 1] == i;
      if y in done {
        DoneLeads(pm, done, w);
      }
    }
  }

  lemma MadeOne(code: seq<Op>, pm: seq<Move>, made: seq<nat>, op: Op, i: nat)
    requires MadeFor(code, pm, made) && OpFor(pm, op, i) && i !in made
    ensures MadeFor([op] + code, pm, [i] + made)
  {
  }

  // ---- the generator -----------------------------------------------------------

  const NPM := 64

  class Generator {
    var pm: seq<Move>
    var status: seq<Status>
    var curi: seq<Op>
    ghost var made: seq<nat>    // the move each instruction is for

    ghost function Done(): (d: set<nat>)
      reads this`status
    {
      set i: nat | i < |status| && status[i] == Moved
    }

    ghost function Waiting(): set<nat>
      reads this`status
    {
      set i: nat | i < |status| && status[i] == ToMove
    }

    ghost predicate Valid(p: Pending)
      reads this
    {
      && |status| == |pm| && Distinct(pm) && SameBase(pm)
      && Consistent(curi, pm, Done(), p)
      && MadeFor(curi, pm, made) && (forall x: nat :: x in made ==> x in Done())
      && (p.Cycle? ==> status[p.c] == Moving)
    }

    constructor ()
      ensures pm == [] && curi == []
    {
      pm, status, curi := [], [], [];
    }

    // False where the source gives up with "no more pm slots".
    method PmAdd(src: Loc, dst: Loc, k: Cls) returns (ok: bool)
      modifies this`pm
      ensures ok <==> |old(pm)| != NPM
      ensures pm == if ok then old(pm) + [Move(src, dst, k)] else old(pm)
    {
      ok := |pm| != NPM;
      if ok {
        pm := pm + [Move(src, dst, k)];
      }
    }

    method Emit(op: Op, ghost i: nat)
      requires MadeFor(curi, pm, made) && OpFor(pm, op, i) && i !in made
      modifies this`curi, this`made
      ensures curi == [op] + old(curi) && made == [i] + old(made) && MadeFor(curi, pm, made)
    {
      hide *;
      MadeOne(curi, pm, made, op, i);
      curi := [op] + curi;
      made := [i] + made;
    }

    // The moves under way lead, one after the other, to move i; those before the first of
    // them are done.
    ghost predicate OnTheWay(path: seq<nat>, i: nat)
      reads this`pm, this`status
    {
      && i < |pm| && IsChain(pm, path + [i])
      && (forall x: nat :: x < |status| && status[x] == Moving ==> x in path)
      && (forall x: nat :: x in path + [i] ==> x !in Done())
      && (forall y: nat :: y < (path + [i])[0] ==> y in Done())
    }

    // A swap's class: that of the whole way and the cycle it ends in.
    ghost predicate CycleClass(path: seq<nat>, wide: bool)
      reads this`pm
    {
      && |path| > 0 && (wide <==> WideFrom(pm, path[0]))
      && (forall x: nat :: x in path ==> IsRoot(pm, path[0], x))
    }

    lemma CycleFound(path: seq<nat>, i: nat, j: nat)
      requires Valid(NoCycle) && OnTheWay(path, i) && j in path && j < |pm| && pm[j].dst == pm[i].src
      ensures CycleClass(path + [i], AnyWide(pm, path + [i]))
    {
      hide Effect;
      hide SameBase;
      hide MadeFor;
      var q := path + [i];
      assert ClosedChain(pm, q, q[0]);
      ClosedWide(pm, q, q[0]);
      forall x: nat | x in q ensures IsRoot(pm, q[0], x) {
        var n :| 0 <= n < |q| && q[n] == x;
        PrefixLeads(pm, q, n);
        RootIs(pm, Done(), q[0], x);
      }
    }

    // The move that overwrites move i's source, if any.
    method Overwriter(i: nat) returns (j: nat)
      requires i < |pm| && Distinct(pm)
      ensures j <= |pm|
      ensures j < |pm| ==> pm[j].dst == pm[i].src
      ensures forall x: nat :: x < |pm| && pm[x].dst == pm[i].src ==> x == j
    {
      j := 0;
      while j < |pm| && pm[j].dst != pm[i].src
        invariant j <= |pm|
        invariant forall x: nat :: x < j ==> pm[x].dst != pm[i].src
      {
        j := j + 1;
      }
    }

    // What a call on move i makes of the statuses: i is handled, moves handled
    // or under way are left alone, and nothing stays half done.
    ghost predicate Handled(was: seq<Status>, i: nat)
      reads this`status
    {
      && |status| == |was| && i < |was| && status[i] == Moved
      && (forall x: nat :: x < |was| && was[x] != ToMove ==> status[x] == was[x])
      && (forall x: nat :: x < |was| && was[x] == ToMove ==> status[x] != Moving)
    }

    // The outcome of a call on move i: complete, or one move short of a cycle
    // that closes on move c.
    ghost predicate Outcome(i: nat, c: int, wide: bool, was: seq<Status>)
      reads this
    {
      && i < |pm|
      && (c == -1 || 0 <= c < |pm|)
      && (c == -1 ==> Valid(NoCycle))
      && (c >= 0 ==> Valid(Cycle(c, pm[i].dst, wide)) && c < |was| && was[c] == Moving)
      && (c >= 0 ==> forall x: nat :: x < |pm| && x in Done() ==> pm[x].src != pm[i].dst)
    }

    method EmitCopy(i: nat)
      requires Valid(NoCycle) && i < |pm| && status[i] != Moved && pm[i].src != pm[i].dst
      requires forall j: nat :: j < |pm| && pm[j].dst == pm[i].src ==> j in Done()
      modifies this`status, this`curi, this`made
      ensures Valid(NoCycle) && status == old(status)[i := Moved]
    {
      hide Consistent;
      hide MadeFor;
      CopyInFront(curi, pm, Done(), i);
      Emit(Copy(pm[i].cls, pm[i].dst, pm[i].src), i);
      SetStatus(i, Moved);
    }

    // A swap that passes the pending value on from move j's destination to move i's.
    method EmitSwap(i: nat, j: nat, c: nat, k: Cls)
      requires i < |pm| && j < |pm| && c < |pm| && i != c && Valid(Cycle(c, pm[i].src, k.wide)) && status[i] != Moved
      requires j in Done() && pm[j].dst == pm[i].src && (pm[i].cls.wide ==> k.wide)
      requires forall x: nat :: x < |pm| && x in Done() ==> pm[x].src != pm[j].dst
      requires OpFor(pm, Swap(k, pm[i].src, pm[i].dst), i)
      modifies this`status, this`curi, this`made
      ensures Valid(Cycle(c, pm[i].dst, k.wide)) && status == old(status)[i := Moved]
      ensures forall x: nat :: x < |pm| && x in Done() ==> pm[x].src != pm[i].dst
    {
      hide Consistent;
      hide MadeFor;
      hide OpFor;
      NoReader(curi, pm, Done(), Cycle(c, pm[i].src, k.wide), i);
      SwapPasses(curi, pm, Done(), i, j, c, k);
      Emit(Swap(k, pm[i].src, pm[i].dst), i);
      SetStatus(i, Moved);
    }

    // Returns the index of the move the open cycle closes on, or -1.
    method PmRec(i: nat, k: Cls, ghost path: seq<nat>) returns (c: int, k': Cls)
      requires Valid(NoCycle) && i < |pm| && status[i] == ToMove && OnTheWay(path, i)
      requires k.flt == pm[i].cls.flt && (k.wide || pm[i].cls.wide <==> AnyWide(pm, path + [i]))
      modifies this`status, this`curi, this`made
      ensures Handled(old(status), i)
      ensures Outcome(i, c, k'.wide, old(status))
      ensures k'.flt == k.flt && (k.wide ==> k'.wide)
      ensures c >= 0 ==> CycleClass(path + [i], k'.wide)
      decreases Waiting(), 1
    {
      hide Consistent;
      hide MadeFor;
      hide CycleClass;
      hide AnyWide;
      hide IsChain;
      hide OpFor;
      k' := k;
      if pm[i].src == pm[i].dst {
        NothingToMove(curi, pm, Done(), i);
        SetStatus(i, Moved);
        return -1, k';
      }
      k' := Cls(k.flt, k.wide || pm[i].cls.wide);
      var j := Overwriter(i);
      if j < |pm| && status[j] == Moving {
        CycleFound(path, i, j);
        NoReader(curi, pm, Done(), NoCycle, i);
        SwapOpens(curi, pm, Done(), i, j, k');
        SwapIsFor(path, i, k');
        Emit(Swap(k', pm[i].src, pm[i].dst), i);
        SetStatus(i, Moved);
        return j, k';
      }
      if j < |pm| && status[j] == ToMove {
        c, k' := PmChain(i, j, k', path);
        return;
      }
      EmitCopy(i);
      c := -1;
    }

    lemma SwapIsFor(path: seq<nat>, i: nat, k: Cls)
      requires i < |pm| && CycleClass(path + [i], k.wide) && k.flt == pm[i].cls.flt && pm[i].src != pm[i].dst
      ensures OpFor(pm, Swap(k, pm[i].src, pm[i].dst), i)
    {
      assert i in path + [i];
    }

    // The ToMove case of pmrec: first the move j that overwrites i's source.
    method PmChain(i: nat, j: nat, k: Cls, ghost path: seq<nat>) returns (c: int, k': Cls)
      requires Valid(NoCycle) && i < |pm| && status[i] == ToMove && pm[i].src != pm[i].dst && OnTheWay(path, i)
      requires j < |pm| && status[j] == ToMove && pm[j].dst == pm[i].src
      requires k.flt == pm[i].cls.flt && (pm[i].cls.wide ==> k.wide) && (k.wide <==> AnyWide(pm, path + [i]))
      modifies this`status, this`curi, this`made
      ensures Handled(old(status), i)
      ensures Outcome(i, c, k'.wide, old(status))
      ensures k'.flt == k.flt && (k.wide ==> k'.wide)
      ensures c >= 0 ==> CycleClass(path + [i], k'.wide)
      decreases Waiting(), 0
    {
      hide Consistent;
      hide MadeFor;
      hide CycleClass;
      hide AnyWide;
      hide IsChain;
      hide OpFor;
      SetStatus(i, Moving);
      OneFurther(path, i, j, k);
      c, k' := PmRec(j, k, path + [i]);
      if c == i {
        CycleCloses(curi, pm, Done(), i, k'.wide);
        SetStatus(i, Moved);
        c := -1;
      } else if c != -1 {
        ShorterWay(path, i, j, k'.wide);
        SwapIsFor(path, i, k');
        EmitSwap(i, j, c, k');
      } else {
        EmitCopy(i);
      }
    }

    lemma OneFurther(path: seq<nat>, i: nat, j: nat, k: Cls)
      requires |status| == |pm| && i < |pm| && j < |pm| && pm[j].dst == pm[i].src && status[j] == ToMove && status[i] == Moving
      requires IsChain(pm, path + [i]) && (k.wide <==> AnyWide(pm, path + [i]))
      requires forall x: nat :: x < |status| && status[x] == Moving ==> x in path + [i]
      requires forall x: nat :: x in path + [i] ==> x !in Done()
      requires forall y: nat :: y < (path + [i])[0] ==> y in Done()
      ensures OnTheWay(path + [i], j) && (k.wide || pm[j].cls.wide <==> AnyWide(pm, path + [i] + [j]))
    {
      var q, q' := path + [i], path + [i] + [j];
      assert forall n :: 0 <= n < |q| ==> q'[n] == q[n];
      assert q'[|q|] == j && q[|q| - 1] == i;
    }

    lemma ShorterWay(path: seq<nat>, i: nat, j: nat, wide: bool)
      requires CycleClass(path + [i] + [j], wide)
      ensures CycleClass(path + [i], wide)
    {
      var q, q' := path + [i], path + [i] + [j];
      assert q'[0] == q[0];
      forall x: nat | x in q ensures x in q' {
      }
    }

    method SetStatus(i: nat, t: Status)
      requires i < |status| && status[i] != Moved
      modifies this`status
      ensures status == old(status)[i := t]
      ensures t == Moved ==> Done() == old(Done()) + {i}
      ensures t != Moved ==> Done() == old(Done())
      ensures old(status[i]) == ToMove && t != ToMove ==> Waiting() == old(Waiting()) - {i} && i in old(Waiting())
    {
      status := status[i := t];
    }

    method PmGen()
      requires Distinct(pm) && SameBase(pm) && curi == []
      modifies this`status, this`curi, this`made
      ensures IsParallelMove(curi, pm) && OnePerMove(curi, pm)
    {
      hide IsChain;
      status := seq(|pm|, _ => ToMove);
      made := [];
      var i: nat := 0;
      while i < |pm|
        invariant i <= |pm| && Valid(NoCycle)
        invariant forall x: nat :: x < |pm| ==> status[x] != Moving
        invariant forall x: nat :: x < i ==> status[x] == Moved
      {
        if status[i] == ToMove {
          FirstOnWay(i);
          var c, k := PmRec(i, pm[i].cls, []);
        }
        i := i + 1;
      }
      AllDone(curi, pm, Done());
    }

    lemma FirstOnWay(i: nat)
      requires |status| == |pm| && i < |pm| && status[i] == ToMove
      requires forall x: nat :: x < |pm| ==> status[x] != Moving
      requires forall x: nat :: x < i ==> status[x] == Moved
      ensures OnTheWay([], i) && (pm[i].cls.wide <==> AnyWide(pm, [] + [i]))
    {
      assert [] + [i] == [i];
      assert IsChain(pm, [i]);
      if pm[i].cls.wide {
        assert pm[[i][0]].cls.wide;
      }
    }
  }

  // ---- facts that unfold at once ----------------------------------------------------------

  // No done move reads what a move not done yet will overwrite.
  lemma NoReader(code: seq<Op>, pm: seq<Move>, done: set<nat>, p: Pending, i: nat)
    requires Consistent(code, pm, done, p)
    requires i < |pm| && i !in done && (p.Cycle? ==> p.c != i)
    ensures forall x: nat :: x < |pm| && x in done ==> pm[x].src != pm[i].dst
  {
  }
}
