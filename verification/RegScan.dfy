// mir/regalloc.c: register pools, fixed occupations, the linear scan with its
// mid-scan eviction, and the packing of spill slots.
//
// Intervals arrive with the starts and ends that mreg_intervals gave them,
// sorted by start as the library's qsort leaves them.
module RegScan {
  import opened Graph

  const NREG: nat := 64
  const MAX_ACTIVE: nat := 256
  const EBX: nat := 3
  const SAVE_AREA: int := 176

  datatype Target = Target(
    gpr0: nat, ngpr: nat, fpr0: nat, nfpr: nat,
    callee: seq<bool>,
    rglob: set<nat>, reserved: set<nat>, scratch: set<nat>,
    i386: bool, x86_64: bool, rbx: int, sretReg: int)

  ghost predicate WfTarget(t: Target) {
    t.gpr0 + t.ngpr <= NREG && t.fpr0 + t.nfpr <= NREG && |t.callee| == NREG && t.sretReg < NREG
  }

  // First register and number of registers of a class (1 is floating point).
  function First(t: Target, cls: nat): nat { if cls == 1 then t.fpr0 else t.gpr0 }
  function Count(t: Target, cls: nat): nat { if cls == 1 then t.nfpr else t.ngpr }

  predicate OfClass(t: Target, r: nat, cls: nat) {
    First(t, cls) <= r < First(t, cls) + Count(t, cls)
  }

  // Registers that are never given out.
  function Excluded(t: Target, pic: bool, gdTls: bool): set<nat> {
    t.rglob + t.reserved + t.scratch
    + (if pic && t.i386 then {EBX} else {})
    + (if gdTls && t.x86_64 && t.rbx >= 0 then {t.rbx} else {})
  }

  // Global, reserved and scratch registers, the one position-independent code needs on i386,
  // and the one general-dynamic thread-local storage needs on x86_64.
  lemma ExcludedIs(t: Target, pic: bool, gdTls: bool, r: nat)
    ensures r in Excluded(t, pic, gdTls) <==>
              || r in t.rglob || r in t.reserved || r in t.scratch
              || (t.i386 && pic && r == EBX) || (t.x86_64 && gdTls && t.rbx == r)
  {
  }

  // ---- pools ---------------------------------------------------------------------

  // pool holds the class's registers that are not excluded and are callee-saved or not.
  ghost predicate IsPool(t: Target, no: set<nat>, cls: nat, saved: bool, pool: seq<nat>, hi: nat)
    requires WfTarget(t)
  {
    && (forall r: nat :: r in pool <==> OfClass(t, r, cls) && r < hi && r !in no && t.callee[r] == saved)
    && (forall i, j :: 0 <= i < j < |pool| ==> pool[i] < pool[j])
  }

  method PoolBuild(t: Target, pic: bool, gdTls: bool, cls: nat) returns (pc: seq<nat>, px: seq<nat>)
    requires WfTarget(t) && cls < 2
    ensures IsPool(t, Excluded(t, pic, gdTls), cls, true, pc, NREG)
    ensures IsPool(t, Excluded(t, pic, gdTls), cls, false, px, NREG)
  {
    var no := Excluded(t, pic, gdTls);
    pc, px := [], [];
    var r: nat := First(t, cls);
    while r < First(t, cls) + Count(t, cls)
      invariant First(t, cls) <= r <= First(t, cls) + Count(t, cls)
      invariant forall k :: 0 <= k < |pc| ==> pc[k] < r
      invariant forall k :: 0 <= k < |px| ==> px[k] < r
      invariant IsPool(t, no, cls, true, pc, r) && IsPool(t, no, cls, false, px, r)
    {
      if r !in no {
        if t.callee[r] {
          pc := pc + [r];
        } else {
          px := px + [r];
        }
      }
      r := r + 1;
    }
  }

  // ---- fixed occupations and calls --------------------------------------------------

  // What an instruction or terminator contributes: its position, the physical
  // registers among its operands, whether it is a call, whether its block is the entry.
  datatype MIns = MIns(pos: nat, regs: seq<nat>, call: bool, entry: bool, isTerm: bool)

  ghost predicate WfCode(code: seq<MIns>) {
    forall i, k :: 0 <= i < |code| && 0 <= k < |code[i].regs| ==> code[i].regs[k] < NREG
  }

  // Register r is taken at position p by the ABI: an operand sits there, or an
  // incoming argument waits there for the entry block to consume it.
  predicate Takes(x: MIns, r: nat, p: nat) {
    r in x.regs && (x.pos == p || (x.entry && !x.isTerm && p < x.pos))
  }

  ghost predicate Occupied(t: Target, sret: bool, npos: nat, code: seq<MIns>, r: nat, p: nat) {
    (sret && t.sretReg == r && p < npos) || exists i :: 0 <= i < |code| && Takes(code[i], r, p)
  }

  ghost predicate IsFixed(t: Target, sret: bool, npos: nat, code: seq<MIns>, fixed: seq<seq<nat>>) {
    |fixed| == NREG && forall r: nat, p: nat :: r < NREG ==> (p in fixed[r] <==> Occupied(t, sret, npos, code, r, p))
  }

  // The positions 0 to n - 1 added to one register's list.
  method AddPrefix(fixed: seq<seq<nat>>, r: nat, n: nat) returns (out: seq<seq<nat>>)
    requires |fixed| == NREG && r < NREG
    ensures |out| == NREG
    ensures forall q: nat, p: nat :: q < NREG ==> (p in out[q] <==> p in fixed[q] || (q == r && p < n))
  {
    out := fixed;
    var p: nat := 0;
    while p < n
      invariant p <= n && |out| == NREG
      invariant forall q: nat, x: nat :: q < NREG ==> (x in out[q] <==> x in fixed[q] || (q == r && x < p))
    {
      out := out[r := out[r] + [p]];
      p := p + 1;
    }
  }

  method FillFixed(t: Target, sret: bool, npos: nat, code: seq<MIns>) returns (fixed: seq<seq<nat>>, calls: seq<nat>)
    requires WfTarget(t) && WfCode(code)
    ensures IsFixed(t, sret, npos, code, fixed)
    ensures forall p: nat :: p in calls <==> exists i :: 0 <= i < |code| && code[i].call && code[i].pos == p
  {
    fixed, calls := seq(NREG, _ => []), [];
    if sret && t.sretReg >= 0 {
      fixed := AddPrefix(fixed, t.sretReg, npos);
    }
    var i: nat := 0;
    assert code[..0] == [];
    while i < |code|
      invariant i <= |code| && IsFixed(t, sret, npos, code[..i], fixed)
      invariant forall p: nat :: p in calls <==> exists j :: 0 <= j < i && code[j].call && code[j].pos == p
    {
      var x := code[i];
      assert code[..i + 1] == code[..i] + [x];
      ghost var before := fixed;
      var k: nat := 0;
      while k < |x.regs|
        invariant k <= |x.regs| && |fixed| == NREG
        invariant forall q: nat, p: nat :: q < NREG ==>
                    (p in fixed[q] <==> p in before[q] || (q in x.regs[..k] && Takes(x, q, p)))
      {
        var r := x.regs[k];
        assert x.regs[..k + 1] == x.regs[..k] + [r] && r in x.regs;
        fixed := fixed[r := fixed[r] + [x.pos]];
        if x.entry && !x.isTerm {
          fixed := AddPrefix(fixed, r, x.pos);
        }
        k := k + 1;
      }
      assert x.regs[..k] == x.regs;
      OneMore(t, sret, npos, code[..i], x, before, fixed);
      if x.call {
        calls := calls + [x.pos];
      }
      i := i + 1;
    }
    assert code[..i] == code;
  }

  lemma OneMore(t: Target, sret: bool, npos: nat, code: seq<MIns>, x: MIns, before: seq<seq<nat>>, fixed: seq<seq<nat>>)
    requires IsFixed(t, sret, npos, code, before) && |fixed| == NREG
    requires forall q: nat, p: nat :: q < NREG ==> (p in fixed[q] <==> p in before[q] || Takes(x, q, p))
    ensures IsFixed(t, sret, npos, code + [x], fixed)
  {
    forall r: nat, p: nat | r < NREG ensures p in fixed[r] <==> Occupied(t, sret, npos, code + [x], r, p) {
      assert (code + [x])[|code|] == x;
      if i :| 0 <= i < |code| && Takes(code[i], r, p) {
        assert (code + [x])[i] == code[i];
      }
    }
  }

  // fixed_conflict and interval_crosses_call: some listed position is in [s, e).
  predicate Hits(ps: seq<nat>, s: nat, e: nat) {
    exists i :: 0 <= i < |ps| && s <= ps[i] < e
  }

  method Conflict(ps: seq<nat>, s: nat, e: nat) returns (r: bool)
    ensures r <==> Hits(ps, s, e)
  {
    var i := 0;
    while i < |ps|
      invariant 0 <= i <= |ps|
      invariant forall j :: 0 <= j < i ==> !(s <= ps[j] < e)
    {
      if s <= ps[i] < e {
        return true;
      }
      i := i + 1;
    }
    r := false;
  }

  // ---- spill slots ---------------------------------------------------------------------

  datatype Slots = Slots(slot4: nat, slot8: nat)

  function Deepest(s: Slots): nat {
    if s.slot8 > s.slot4 then s.slot8 else s.slot4
  }

  // mreg_slot_alloc: negative frame offset of a new slot, in bytes.
  function SlotAlloc(s: Slots, small: bool): (r: (Slots, int)) {
    if small then
      var n := if s.slot4 + 1 <= s.slot8 then s.slot8 + 1 else s.slot4 + 1;
      (s.(slot4 := n), -4 * n)
    else
      var a := if s.slot8 < s.slot4 then s.slot4 else s.slot8;
      var b := if a % 2 == 1 then a + 1 else a;
      (s.(slot8 := b + 2), -4 * (b + 2))
  }

  function Width(small: bool): int { if small then 4 else 8 }

  predicate Aligned(off: int, small: bool) {
    if small then off % 4 == 0 else off % 8 == 0
  }

  lemma AlignedShift(off: int, small: bool, n: int)
    requires Aligned(off, small)
    ensures Aligned(off - 8 * n, small)
  {
    if small {
      Multiple4(off / 4 - 2 * n);
      assert off == 4 * (off / 4);
    } else {
      Multiple8(off / 8 - n);
      assert off == 8 * (off / 8);
    }
  }

  // A new slot lies wholly below everything allocated before, aligned and as high as that
  // allows.
  lemma SlotIsBelow(s: Slots, small: bool)
    ensures var off := SlotAlloc(s, small).1;
            forall o: int :: Aligned(o, small) && o + Width(small) <= -4 * Deepest(s) ==> o <= off
    ensures var (s', off) := SlotAlloc(s, small);
            && off + Width(small) <= -4 * Deepest(s)
            && off >= -4 * Deepest(s')
            && Deepest(s) < Deepest(s')
            && Aligned(off, small)
  {
    if small {
      var n: int := SlotAlloc(s, small).0.slot4;
      Multiple4(-n);
    } else {
      var n: int := SlotAlloc(s, small).0.slot8;
      assert n == 2 * (n / 2);
      Multiple8(-(n / 2));
    }
  }

  // ---- intervals --------------------------------------------------------------------------

  datatype Interval = Interval(start: nat, end: nat, cls: nat, small: bool, phislot: bool, hint: int)

  // An active interval: it holds reg until end.
  datatype Active = Active(end: nat, reg: nat, idx: nat)

  datatype Env = Env(t: Target, no: set<nat>, pc: seq<seq<nat>>, px: seq<seq<nat>>, fixed: seq<seq<nat>>, calls: seq<nat>,
                     vararg: bool, cand: seq<Interval>)

  ghost predicate WfEnv(v: Env) {
    && WfTarget(v.t) && |v.pc| == |v.px| == 2 && |v.fixed| == NREG
    && (forall c: nat :: c < 2 ==> IsPool(v.t, v.no, c, true, v.pc[c], NREG) && IsPool(v.t, v.no, c, false, v.px[c], NREG))
    && (forall i :: 0 <= i < |v.cand| ==> v.cand[i].cls < 2 && v.cand[i].start < v.cand[i].end && v.cand[i].hint < NREG)
    && (forall i, j :: 0 <= i < j < |v.cand| ==> v.cand[i].start <= v.cand[j].start)
  }

  predicate Crosses(v: Env, x: Interval) {
    Hits(v.calls, x.start, x.end)
  }

  // r may hold x: an allocatable register of x's class, not taken by the ABI
  // anywhere in x, and callee-saved if a call falls into x.
  ghost predicate Suits(v: Env, x: Interval, r: nat)
    requires WfEnv(v)
  {
    && r < NREG && OfClass(v.t, r, x.cls) && r !in v.no
    && !Hits(v.fixed[r], x.start, x.end)
    && (Crosses(v, x) ==> v.t.callee[r])
  }

  predicate Overlap(x: Interval, y: Interval) {
    x.start < y.end && y.start < x.end
  }

  // ---- the choice of a register -------------------------------------------------------------

  predicate Free(v: Env, busy: seq<bool>, x: Interval, r: nat)
    requires |v.fixed| == |busy| == NREG && r < NREG
  {
    !busy[r] && !Hits(v.fixed[r], x.start, x.end)
  }

  // The first free register of a pool.
  function FirstFree(v: Env, busy: seq<bool>, x: Interval, pool: seq<nat>): Option<nat>
    requires |v.fixed| == |busy| == NREG && forall k :: 0 <= k < |pool| ==> pool[k] < NREG
  {
    if |pool| == 0 then None
    else
      var p := FirstFree(v, busy, x, pool[..|pool| - 1]);
      if p.Some? then p
      else if Free(v, busy, x, pool[|pool| - 1]) then Some(pool[|pool| - 1]) else None
  }

  // The hint is taken if it is free and from a pool that may hold the interval.
  predicate HintTaken(v: Env, busy: seq<bool>, x: Interval)
    requires |v.fixed| == |busy| == NREG && x.hint < NREG && x.cls < |v.pc| && x.cls < |v.px|
  {
    x.hint >= 0 && Free(v, busy, x, x.hint)
    && (x.hint in v.pc[x.cls] || (!Crosses(v, x) && x.hint in v.px[x.cls]))
  }

  ghost predicate PoolsLow(v: Env) {
    && |v.pc| == |v.px| == 2 && |v.fixed| == NREG
    && (forall c: nat, k: nat :: c < 2 && k < |v.pc[c]| ==> v.pc[c][k] < NREG)
    && (forall c: nat, k: nat :: c < 2 && k < |v.px[c]| ==> v.px[c][k] < NREG)
  }

  ghost function Choice(v: Env, busy: seq<bool>, x: Interval): Option<nat>
    requires PoolsLow(v) && |busy| == NREG && x.hint < NREG && x.cls < 2
  {
    if x.phislot then None
    else if HintTaken(v, busy, x) then Some(x.hint)
    else
      var a := if Crosses(v, x) then None else FirstFree(v, busy, x, v.px[x.cls]);
      if a.Some? then a
      else if v.vararg then None
      else FirstFree(v, busy, x, v.pc[x.cls])
  }

  lemma {:induction false} FirstFreeIs(v: Env, busy: seq<bool>, x: Interval, pool: seq<nat>)
    requires |v.fixed| == |busy| == NREG && forall k :: 0 <= k < |pool| ==> pool[k] < NREG
    ensures FirstFree(v, busy, x, pool).Some? ==>
              FirstFree(v, busy, x, pool).value in pool && Free(v, busy, x, FirstFree(v, busy, x, pool).value)
    ensures FirstFree(v, busy, x, pool).None? ==> forall r: nat :: r in pool ==> !Free(v, busy, x, r)
  {
    if |pool| > 0 {
      FirstFreeIs(v, busy, x, pool[..|pool| - 1]);
      assert pool == pool[..|pool| - 1] + [pool[|pool| - 1]];
    }
  }

  lemma EnvPools(v: Env)
    requires WfEnv(v)
    ensures PoolsLow(v)
  {
    forall c: nat, k: nat | c < 2 && k < |v.pc[c]| ensures v.pc[c][k] < NREG {
      assert v.pc[c][k] in v.pc[c];
    }
    forall c: nat, k: nat | c < 2 && k < |v.px[c]| ensures v.px[c][k] < NREG {
      assert v.px[c][k] in v.px[c];
    }
  }

  // Whatever is chosen is free and suits the interval.
  lemma ChoiceSuits(v: Env, busy: seq<bool>, x: Interval)
    requires WfEnv(v) && PoolsLow(v) && |busy| == NREG && x.hint < NREG && x.cls < 2
    ensures Choice(v, busy, x).Some? ==>
              Suits(v, x, Choice(v, busy, x).value) && !busy[Choice(v, busy, x).value] && !x.phislot
  {
    FirstFreeIs(v, busy, x, v.px[x.cls]);
    FirstFreeIs(v, busy, x, v.pc[x.cls]);
    assert IsPool(v.t, v.no, x.cls, true, v.pc[x.cls], NREG);
    assert IsPool(v.t, v.no, x.cls, false, v.px[x.cls], NREG);
  }

  // In a variadic function the callee-saved pool is not searched: a callee-saved
  // register is chosen exactly when the interval is hinted at one of its class's and
  // that is free.  (No interval the compiler builds has a hint yet: only globals are
  // given one.)
  lemma VarargChoice(v: Env, busy: seq<bool>, x: Interval)
    requires WfEnv(v) && PoolsLow(v) && |busy| == NREG && x.hint < NREG && x.cls < 2 && v.vararg
    ensures Choice(v, busy, x).Some? ==> Choice(v, busy, x).value < NREG
    ensures Choice(v, busy, x).Some? && v.t.callee[Choice(v, busy, x).value] <==>
              !x.phislot && x.hint >= 0 && x.hint in v.pc[x.cls] && Free(v, busy, x, x.hint)
    ensures Choice(v, busy, x).Some? && v.t.callee[Choice(v, busy, x).value] ==> Choice(v, busy, x) == Some(x.hint)
  {
    FirstFreeIs(v, busy, x, v.px[x.cls]);
    ChoiceSuits(v, busy, x);
    assert IsPool(v.t, v.no, x.cls, true, v.pc[x.cls], NREG);
    assert IsPool(v.t, v.no, x.cls, false, v.px[x.cls], NREG);
  }

  // Two registers, the second callee-saved, and one interval hinted at it.
  function HintedEnv(): Env {
    Env.Env(Target(0, 2, 0, 0, seq(NREG, r => r == 1), {}, {}, {}, false, false, 0, 0), {}, [[1], []], [[0], []],
            seq(NREG, _ => []), [], true, [Interval(0, 4, 0, false, false, 1)])
  }

  // In a variadic function it gets the callee-saved register, though the other is free.
  lemma HintedTakesSaved(busy: seq<bool>)
    requires busy == seq(NREG, _ => false)
    ensures var v := HintedEnv();
            && WfEnv(v) && PoolsLow(v) && v.vararg && Free(v, busy, v.cand[0], 0)
            && Choice(v, busy, v.cand[0]) == Some(1) && v.t.callee[1]
  {
    var v := HintedEnv();
    assert WfEnv(v);
    EnvPools(v);
    VarargChoice(v, busy, v.cand[0]);
  }

  // Interval x is hinted at the callee-saved register r.
  predicate HintedAt(v: Env, x: Interval, r: nat) {
    x.cls < |v.pc| && x.hint == r && r in v.pc[x.cls]
  }

  // In a variadic function the callee-saved registers given out are hints.
  ghost predicate HintsOnly(v: Env, used: set<nat>)
    requires WfEnv(v)
  {
    v.vararg ==> forall r: nat :: r in used && r < NREG && v.t.callee[r] ==>
      exists j: nat :: j < |v.cand| && HintedAt(v, v.cand[j], r)
  }

  lemma VarargHinted(v: Env, busy: seq<bool>, i: nat)
    requires WfEnv(v) && PoolsLow(v) && |busy| == NREG && i < |v.cand| && v.cand[i].hint < NREG && v.cand[i].cls < 2
    ensures var c := Choice(v, busy, v.cand[i]);
            c.Some? && c.value < NREG && v.vararg && v.t.callee[c.value] ==> HintedAt(v, v.cand[i], c.value)
  {
    if v.vararg {
      VarargChoice(v, busy, v.cand[i]);
    }
  }

  // ---- why an interval gets the register it gets, or none ---------------------------------------

  // In the assignment h, register r belongs to one of the first i intervals beyond position s.
  ghost predicate Held(cand: seq<Interval>, h: seq<int>, i: nat, s: nat, r: nat)
    requires i <= |cand| == |h|
  {
    exists j: nat :: j < i && h[j] == r && cand[j].end > s
  }

  // Register r can be given to interval i: it may hold it, nobody holds it when i starts,
  // and if it is callee-saved and the function variadic, i is hinted at it.
  ghost predicate Givable(t: Target, vararg: bool, cand: seq<Interval>, may: seq<set<nat>>, h: seq<int>, i: nat, r: nat)
    requires i < |cand| == |h| == |may|
  {
    && r in may[i] && !Held(cand, h, i, cand[i].start, r)
    && (vararg && r < |t.callee| && t.callee[r] ==> cand[i].hint == r)
  }

  // The order registers are given out in: the hint, then caller-saved before callee-saved, then
  // by number.
  predicate Sooner(t: Target, x: Interval, q: nat, r: nat)
    requires q < |t.callee| && r < |t.callee|
  {
    x.hint != r && (x.hint == q || (!t.callee[q] && t.callee[r]) || (t.callee[q] == t.callee[r] && q < r))
  }

  ghost predicate Chosen(t: Target, vararg: bool, cand: seq<Interval>, may: seq<set<nat>>, h: seq<int>, i: nat, r: nat)
    requires i < |cand| == |h| == |may|
  {
    && Givable(t, vararg, cand, may, h, i, r)
    && (forall q: nat :: Givable(t, vararg, cand, may, h, i, q) && q != r && q < |t.callee| && r < |t.callee| ==>
          Sooner(t, cand[i], r, q))
  }

  // Interval j has a register of i's class that may hold i, and outlasts i.
  ghost predicate Yields(cand: seq<Interval>, may: seq<set<nat>>, h: seq<int>, i: nat, j: nat)
    requires i < |cand| == |h| == |may|
  {
    j < i && h[j] >= 0 && cand[j].cls == cand[i].cls && h[j] in may[i] && cand[j].end > cand[i].end
  }

  ghost predicate YieldsLast(cand: seq<Interval>, may: seq<set<nat>>, h: seq<int>, i: nat, j: nat)
    requires i < |cand| == |h| == |may|
  {
    Yields(cand, may, h, i, j) && forall l: nat :: Yields(cand, may, h, i, l) ==> cand[l].end <= cand[j].end
  }

  // What settling interval i makes of the assignment: the first register it can be given; if there is
  // none, that of an earlier interval, the one that lasts longest; if none yields, nothing.
  ghost predicate StepOf(t: Target, vararg: bool, cand: seq<Interval>, may: seq<set<nat>>, h: seq<int>, h': seq<int>, i: nat)
    requires i < |cand| == |h| == |may|
  {
    if !cand[i].phislot && exists r: nat :: Givable(t, vararg, cand, may, h, i, r) then
      exists r: nat :: Chosen(t, vararg, cand, may, h, i, r) && h' == h[i := r]
    else if !cand[i].phislot && exists j: nat :: Yields(cand, may, h, i, j) then
      exists j: nat :: YieldsLast(cand, may, h, i, j) && h' == h[j := -1][i := h[j]]
    else h' == h
  }

  ghost predicate Gave(hist: seq<seq<int>>, k: nat, r: int) {
    k + 1 < |hist| && k < |hist[k + 1]| && hist[k + 1][k] == r
  }

  // hist[k] is the assignment when k intervals have been settled; used, what was given out.
  ghost predicate History(t: Target, vararg: bool, cand: seq<Interval>, may: seq<set<nat>>, hist: seq<seq<int>>, used: set<nat>, n: nat) {
    && n <= |cand| == |may| && |hist| == n + 1
    && (forall k :: 0 <= k <= n ==> |hist[k]| == |cand|)
    && (forall j :: 0 <= j < |cand| ==> hist[0][j] == -1)
    && (forall k: nat :: k < n ==> StepOf(t, vararg, cand, may, hist[k], hist[k + 1], k))
    && (forall r: nat :: r in used <==> exists k: nat :: Gave(hist, k, r))
  }

  ghost predicate SomeHistory(t: Target, vararg: bool, cand: seq<Interval>, may: seq<set<nat>>, reg: seq<int>, used: set<nat>) {
    exists hist: seq<seq<int>> :: History(t, vararg, cand, may, hist, used, |cand|) && hist[|cand|] == reg
  }

  lemma HistoryMore(t: Target, vararg: bool, cand: seq<Interval>, may: seq<set<nat>>, hist: seq<seq<int>>, used: set<nat>,
                    i: nat, h: seq<int>, used': set<nat>)
    requires History(t, vararg, cand, may, hist, used, i) && i < |cand| == |h| && StepOf(t, vararg, cand, may, hist[i], h, i)
    requires forall r: nat :: r in used' <==> r in used || h[i] == r
    ensures History(t, vararg, cand, may, hist + [h], used', i + 1)
  {
    hide StepOf;
    var hist' := hist + [h];
    forall k: nat | k < i + 1 ensures StepOf(t, vararg, cand, may, hist'[k], hist'[k + 1], k) {
      assert k < i ==> hist'[k] == hist[k] && hist'[k + 1] == hist[k + 1];
    }
    forall r: nat ensures r in used' <==> exists k: nat :: Gave(hist', k, r) {
      if r in used {
        var k: nat :| Gave(hist, k, r);
        assert Gave(hist', k, r);
      }
      if h[i] == r {
        assert Gave(hist', i, r);
      }
      if k: nat :| Gave(hist', k, r) {
        assert k < i ==> Gave(hist, k, r);
      }
    }
  }

  // An interval that has no register once it is settled met none it could be given, and
  // nobody to take one from.
  ghost predicate NoneLeft(t: Target, vararg: bool, cand: seq<Interval>, may: seq<set<nat>>, h: seq<int>, i: nat)
    requires i < |cand| == |h| == |may|
  {
    && (forall r: nat :: r in may[i] ==> Held(cand, h, i, cand[i].start, r) || (vararg && r < |t.callee| && t.callee[r] && cand[i].hint != r))
    && (forall j: nat :: j < i && h[j] >= 0 && cand[j].cls == cand[i].cls && h[j] in may[i] ==> cand[j].end <= cand[i].end)
  }

  // Interval l, a shorter one of the same class, was given the register i had.
  ghost predicate TakenBy(cand: seq<Interval>, hist: seq<seq<int>>, i: nat, l: nat)
    requires |hist| == |cand| + 1 && i < |cand| && forall k :: 0 <= k < |hist| ==> |hist[k]| == |cand|
  {
    && i < l < |cand| && hist[l][i] >= 0 && hist[l + 1][i] == -1 && hist[l + 1][l] == hist[l][i]
    && cand[l].cls == cand[i].cls && cand[l].end < cand[i].end
  }

  // An interval that is no phi slot ends without a register only because every register it
  // may hold was held when it started and none could be had by eviction, or because a
  // shorter one took its register later.
  lemma WhySpilled(t: Target, vararg: bool, cand: seq<Interval>, may: seq<set<nat>>, hist: seq<seq<int>>, used: set<nat>, i: nat)
    requires History(t, vararg, cand, may, hist, used, |cand|) && i < |cand| && !cand[i].phislot && hist[|cand|][i] < 0
    ensures NoneLeft(t, vararg, cand, may, hist[i], i) || exists l: nat :: TakenBy(cand, hist, i, l)
  {
    hide Givable;
    NotYet(t, vararg, cand, may, hist, used, i, i);
    SettledAt(t, vararg, cand, may, hist, used, i);
    if hist[i + 1][i] >= 0 {
      LostLater(t, vararg, cand, may, hist, used, i, |cand|);
    } else {
      NoneGivable(t, vararg, cand, may, hist[i], hist[i + 1], i);
    }
  }

  lemma {:induction false} NotYet(t: Target, vararg: bool, cand: seq<Interval>, may: seq<set<nat>>, hist: seq<seq<int>>, used: set<nat>,
                                  i: nat, k: nat)
    requires History(t, vararg, cand, may, hist, used, |cand|) && k <= i < |cand|
    ensures hist[k][i] == -1
  {
    hide StepOf;
    if k > 0 {
      NotYet(t, vararg, cand, may, hist, used, i, k - 1);
      SettledAt(t, vararg, cand, may, hist, used, k - 1);
      StepSpares(t, vararg, cand, may, hist[k - 1], hist[k], k - 1, i);
    }
  }

  lemma StepSpares(t: Target, vararg: bool, cand: seq<Interval>, may: seq<set<nat>>, h: seq<int>, h': seq<int>, k: nat, i: nat)
    requires k < |cand| == |h| == |may| == |h'| && k < i < |cand| && StepOf(t, vararg, cand, may, h, h', k) && h[i] == -1
    ensures h'[i] == -1
  {
    hide Givable;
    hide Chosen;
  }

  lemma SettledAt(t: Target, vararg: bool, cand: seq<Interval>, may: seq<set<nat>>, hist: seq<seq<int>>, used: set<nat>, i: nat)
    requires History(t, vararg, cand, may, hist, used, |cand|) && i < |cand|
    ensures StepOf(t, vararg, cand, may, hist[i], hist[i + 1], i)
  {
  }

  lemma NoneGivable(t: Target, vararg: bool, cand: seq<Interval>, may: seq<set<nat>>, h: seq<int>, h': seq<int>, i: nat)
    requires i < |cand| == |h| == |may| == |h'| && !cand[i].phislot && StepOf(t, vararg, cand, may, h, h', i) && h'[i] < 0
    ensures NoneLeft(t, vararg, cand, may, h, i)
  {
    forall r: nat | r in may[i] ensures !Givable(t, vararg, cand, may, h, i, r) {
    }
    forall j: nat | j < i && h[j] >= 0 && cand[j].cls == cand[i].cls && h[j] in may[i] ensures cand[j].end <= cand[i].end {
      assert !Yields(cand, may, h, i, j);
    }
  }

  // A register had at one time and not at the end has been taken in between.
  lemma {:induction false} LostLater(t: Target, vararg: bool, cand: seq<Interval>, may: seq<set<nat>>, hist: seq<seq<int>>, used: set<nat>,
                                     i: nat, k: nat)
    requires History(t, vararg, cand, may, hist, used, |cand|) && i < k <= |cand| && hist[i + 1][i] >= 0 && hist[k][i] < 0
    ensures exists l: nat :: TakenBy(cand, hist, i, l)
  {
    hide Givable;
    hide Chosen;
    if hist[k - 1][i] < 0 {
      LostLater(t, vararg, cand, may, hist, used, i, k - 1);
    } else {
      SettledAt(t, vararg, cand, may, hist, used, k - 1);
      assert TakenBy(cand, hist, i, k - 1);
    }
  }

  // In particular an interval that overlaps no other gets a register if one may hold it.
  lemma AloneGetsOne(t: Target, vararg: bool, cand: seq<Interval>, may: seq<set<nat>>, reg: seq<int>, used: set<nat>, i: nat, r: nat)
    requires SomeHistory(t, vararg, cand, may, reg, used) && i < |cand| && !cand[i].phislot && r in may[i]
    requires vararg && r < |t.callee| ==> !t.callee[r]
    requires forall j :: 0 <= j < |cand| ==> cand[j].start < cand[j].end
    requires forall j, l :: 0 <= j < l < |cand| ==> cand[j].start <= cand[l].start
    requires forall j :: 0 <= j < |cand| && j != i ==> !Overlap(cand[j], cand[i])
    ensures |reg| == |cand| && reg[i] >= 0
  {
    var hist :| History(t, vararg, cand, may, hist, used, |cand|) && hist[|cand|] == reg;
    assert !Held(cand, hist[i], i, cand[i].start, r);
    forall l: nat ensures !TakenBy(cand, hist, i, l) {
    }
    if reg[i] < 0 {
      WhySpilled(t, vararg, cand, may, hist, used, i);
    }
  }

  // ---- the state of the scan ------------------------------------------------------------------

  // Before interval i is looked at, everything below position s being over.
  ghost predicate ActiveOk(v: Env, reg: seq<int>, act: seq<Active>, busy: seq<bool>, i: nat)
    requires i <= |v.cand| == |reg|
  {
    && |busy| == NREG
    && (forall k :: 0 <= k < |act| ==> Holds(v, reg, act[k], i))
    && (forall k, l :: 0 <= k < l < |act| ==> act[k].reg != act[l].reg)
    && (forall k :: 0 <= k < |act| ==> act[k].reg < NREG && busy[act[k].reg])
    && (forall r: nat :: r < NREG && busy[r] ==> exists k :: 0 <= k < |act| && act[k].reg == r)
  }

  ghost predicate Holds(v: Env, reg: seq<int>, a: Active, i: nat)
    requires i <= |v.cand| == |reg|
  {
    a.idx < i && reg[a.idx] == a.reg && a.end == v.cand[a.idx].end
  }

  ghost predicate IsActive(act: seq<Active>, j: nat) {
    exists k :: 0 <= k < |act| && act[k].idx == j
  }

  // An interval whose register has been given back is over by s.
  ghost predicate OthersOver(v: Env, reg: seq<int>, act: seq<Active>, i: nat, s: nat)
    requires i <= |v.cand| == |reg|
  {
    forall j: nat :: j < i && reg[j] >= 0 && !IsActive(act, j) ==> v.cand[j].end <= s
  }

  ghost predicate Assigned(v: Env, reg: seq<int>, i: nat)
    requires WfEnv(v) && i <= |v.cand| == |reg|
  {
    && (forall j: nat :: j < i && reg[j] >= 0 ==> Suits(v, v.cand[j], reg[j]) && !v.cand[j].phislot)
    && (forall j: nat, l: nat :: j < l < i && reg[j] >= 0 && reg[j] == reg[l] ==> !Overlap(v.cand[j], v.cand[l]))
  }

  // Homes: a register, or a slot of its own.
  ghost predicate Homes(v: Env, reg: seq<int>, slot: seq<int>, sl: Slots, i: nat)
    requires i <= |v.cand| == |reg| == |slot|
  {
    && (forall j: nat :: j < i ==> (reg[j] >= 0 <==> slot[j] == -1) && reg[j] >= -1)
    && (forall j: nat :: i <= j < |reg| ==> reg[j] == -1 && slot[j] == -1)
    && (forall j: nat :: j < i && slot[j] != -1 ==> SlotOk(v, slot[j], v.cand[j].small, sl))
    && (forall j: nat, l: nat :: j < i && l < i && j != l && slot[j] != -1 && slot[l] != -1 ==>
          slot[j] + Width(v.cand[j].small) <= slot[l] || slot[l] + Width(v.cand[l].small) <= slot[j])
  }

  function Base(v: Env): int { if v.vararg then SAVE_AREA else 0 }

  predicate SlotOk(v: Env, off: int, small: bool, sl: Slots) {
    && off >= -4 * Deepest(sl) - Base(v)
    && off + Width(small) <= -Base(v)
    && Aligned(off, small)
  }

  ghost predicate SoFar(v: Env, reg: seq<int>, slot: seq<int>, sl: Slots, act: seq<Active>, busy: seq<bool>, used: set<nat>, i: nat, s: nat) {
    && WfEnv(v) && i <= |v.cand| == |reg| == |slot|
    && ActiveOk(v, reg, act, busy, i) && OthersOver(v, reg, act, i, s)
    && Assigned(v, reg, i) && Homes(v, reg, slot, sl, i)
    && (forall j: nat :: j < i && reg[j] >= 0 ==> reg[j] in used)
    && HintsOnly(v, used)
  }

  function Drop(act: seq<Active>, k: nat): seq<Active>
    requires k < |act|
  {
    act[k := act[|act| - 1]][..|act| - 1]
  }

  // Giving back a register whose interval is over.
  lemma ExpiredActive(v: Env, reg: seq<int>, act: seq<Active>, busy: seq<bool>, i: nat, k: nat)
    requires i <= |v.cand| == |reg| && ActiveOk(v, reg, act, busy, i) && k < |act|
    ensures act[k].reg < |busy| && ActiveOk(v, reg, Drop(act, k), busy[act[k].reg := false], i)
  {
    hide Holds;
    var act' := Drop(act, k);
    assert forall m :: 0 <= m < |act'| ==> act'[m] == act[if m == k then |act| - 1 else m];
    forall r: nat | r < NREG && busy[r] && r != act[k].reg ensures exists m :: 0 <= m < |act'| && act'[m].reg == r {
      var m :| 0 <= m < |act| && act[m].reg == r;
      assert act'[if m == |act| - 1 then k else m].reg == r;
    }
  }

  lemma ExpiredOver(v: Env, reg: seq<int>, act: seq<Active>, i: nat, s: nat, k: nat)
    requires i <= |v.cand| == |reg| && OthersOver(v, reg, act, i, s)
    requires k < |act| && act[k].end <= s && Holds(v, reg, act[k], i)
    ensures OthersOver(v, reg, Drop(act, k), i, s)
  {
    var act' := Drop(act, k);
    forall j: nat | j < i && reg[j] >= 0 && !IsActive(act', j) ensures v.cand[j].end <= s {
      forall m | 0 <= m < |act| && m != k ensures act[m].idx != j {
        assert act'[if m == |act| - 1 then k else m] == act[m];
      }
    }
  }

  // Every register some earlier interval has and still needs is busy.
  lemma FreeIsOver(v: Env, reg: seq<int>, act: seq<Active>, busy: seq<bool>, i: nat, s: nat, j: nat)
    requires i <= |v.cand| == |reg| && ActiveOk(v, reg, act, busy, i) && OthersOver(v, reg, act, i, s)
    requires j < i && 0 <= reg[j] < NREG && !busy[reg[j]]
    ensures v.cand[j].end <= s
  {
    forall k | 0 <= k < |act| ensures act[k].idx != j {
      assert Holds(v, reg, act[k], i);
    }
  }

  // ---- the three ways an interval is settled -----------------------------------------------------

  lemma TakeActive(v: Env, reg: seq<int>, act: seq<Active>, busy: seq<bool>, i: nat, r: nat)
    requires i < |v.cand| == |reg| && ActiveOk(v, reg, act, busy, i) && r < NREG && !busy[r]
    ensures ActiveOk(v, reg[i := r], act + [Active(v.cand[i].end, r, i)], busy[r := true], i + 1)
  {
    var act', reg', busy' := act + [Active(v.cand[i].end, r, i)], reg[i := r], busy[r := true];
    forall k | 0 <= k < |act'| ensures Holds(v, reg', act'[k], i + 1) {
      assert k < |act| ==> Holds(v, reg, act[k], i);
    }
    forall q: nat | q < NREG && busy'[q] ensures exists k :: 0 <= k < |act'| && act'[k].reg == q {
      if q == r {
        assert act'[|act|].reg == q;
      } else {
        var k :| 0 <= k < |act| && act[k].reg == q;
        assert act'[k].reg == q;
      }
    }
  }

  lemma StillActive(act: seq<Active>, a: Active, j: nat)
    ensures IsActive(act, j) ==> IsActive(act + [a], j)
  {
    if IsActive(act, j) {
      var k :| 0 <= k < |act| && act[k].idx == j;
      assert (act + [a])[k].idx == j;
    }
  }

  lemma TakeOver(v: Env, reg: seq<int>, act: seq<Active>, i: nat, s: nat, r: nat)
    requires i < |v.cand| == |reg| && OthersOver(v, reg, act, i, s)
    ensures OthersOver(v, reg[i := r], act + [Active(v.cand[i].end, r, i)], i + 1, s)
  {
    var act' := act + [Active(v.cand[i].end, r, i)];
    assert act'[|act|].idx == i;
    forall j: nat ensures IsActive(act, j) ==> IsActive(act', j) {
      StillActive(act, act'[|act|], j);
    }
  }

  lemma TakeAssigned(v: Env, reg: seq<int>, act: seq<Active>, busy: seq<bool>, i: nat, r: nat)
    requires WfEnv(v) && i < |v.cand| == |reg| && ActiveOk(v, reg, act, busy, i) && OthersOver(v, reg, act, i, v.cand[i].start)
    requires Assigned(v, reg, i) && Suits(v, v.cand[i], r) && !v.cand[i].phislot && !busy[r]
    ensures Assigned(v, reg[i := r], i + 1)
  {
    forall j: nat | j < i && reg[j] == r ensures !Overlap(v.cand[j], v.cand[i]) {
      FreeIsOver(v, reg, act, busy, i, v.cand[i].start, j);
    }
  }

  // A free register.
  lemma TakeStep(v: Env, reg: seq<int>, slot: seq<int>, sl: Slots, act: seq<Active>, busy: seq<bool>, used: set<nat>, i: nat, r: nat)
    requires SoFar(v, reg, slot, sl, act, busy, used, i, if i < |v.cand| then v.cand[i].start else 0) && i < |v.cand|
    requires Suits(v, v.cand[i], r) && !v.cand[i].phislot && r < |busy| && !busy[r]
    requires r < NREG && v.vararg && r < |v.t.callee| && v.t.callee[r] ==> HintedAt(v, v.cand[i], r)
    ensures SoFar(v, reg[i := r], slot, sl, act + [Active(v.cand[i].end, r, i)], busy[r := true], used + {r}, i + 1, v.cand[i].start)
  {
    hide Suits;
    hide WfEnv;
    hide Overlap;
    hide Holds;
    hide IsActive;
    hide SlotOk;
    hide HintsOnly;
    RegLow(v, v.cand[i], r);
    HintsMore(v, used, i, r);
    TakeActive(v, reg, act, busy, i, r);
    TakeOver(v, reg, act, i, v.cand[i].start, r);
    TakeAssigned(v, reg, act, busy, i, r);
  }

  // A new slot clears all slots given out before.
  lemma NewSlotApart(v: Env, sl: Slots, small: bool, off0: int, small0: bool)
    requires SlotOk(v, off0, small0, sl)
    ensures var (sl', off) := SlotAlloc(sl, small);
            SlotOk(v, off0, small0, sl') && off - Base(v) + Width(small) <= off0
  {
    hide SlotAlloc;
    hide Base;
    hide Aligned;
    SlotIsBelow(sl, small);
  }

  lemma NewSlotOk(v: Env, sl: Slots, small: bool)
    ensures var (sl', off) := SlotAlloc(sl, small); SlotOk(v, off - Base(v), small, sl') && off - Base(v) != -1
  {
    hide SlotAlloc;
    hide Aligned;
    SlotIsBelow(sl, small);
    var (_, off) := SlotAlloc(sl, small);
    AlignedShift(off, small, 22);
    AlignedNotOdd(off - Base(v), small);
  }

  lemma HomesSpill(v: Env, reg: seq<int>, slot: seq<int>, sl: Slots, i: nat, j: nat)
    requires i < |v.cand| == |reg| == |slot| && Homes(v, reg, slot, sl, i) && (j == i || (j < i && reg[j] >= 0))
    ensures var (sl', off) := SlotAlloc(sl, v.cand[j].small);
            var reg' := if j == i then reg else reg[j := -1][i := reg[j]];
            Homes(v, reg', slot[j := off - Base(v)], sl', i + 1)
  {
    hide SlotOk;
    hide SlotAlloc;
    hide Width;
    hide Base;
    NewSlotOk(v, sl, v.cand[j].small);
    var (sl', off) := SlotAlloc(sl, v.cand[j].small);
    var slot' := slot[j := off - Base(v)];
    forall k: nat | k < i + 1 && k != j && slot'[k] != -1
      ensures SlotOk(v, slot'[k], v.cand[k].small, sl') && slot'[j] + Width(v.cand[j].small) <= slot'[k]
    {
      NewSlotApart(v, sl, v.cand[j].small, slot[k], v.cand[k].small);
    }
  }

  // No register: the new interval goes to memory.
  lemma SpillStep(v: Env, reg: seq<int>, slot: seq<int>, sl: Slots, act: seq<Active>, busy: seq<bool>, used: set<nat>, i: nat, s: nat)
    requires SoFar(v, reg, slot, sl, act, busy, used, i, s) && i < |v.cand|
    ensures var (sl', off) := SlotAlloc(sl, v.cand[i].small);
            SoFar(v, reg, slot[i := off - Base(v)], sl', act, busy, used, i + 1, s)
  {
    hide Suits;
    hide WfEnv;
    hide Overlap;
    hide IsActive;
    hide SlotOk;
    HomesSpill(v, reg, slot, sl, i, i);
  }

  // The active entry that may give its register to interval i.
  ghost predicate Victim(v: Env, act: seq<Active>, k: nat, i: nat)
    requires WfEnv(v) && k < |act| && i < |v.cand|
  {
    act[k].end > v.cand[i].end && Suits(v, v.cand[i], act[k].reg)
  }

  lemma EvictActive(v: Env, reg: seq<int>, act: seq<Active>, busy: seq<bool>, i: nat, k: nat)
    requires i < |v.cand| == |reg| && ActiveOk(v, reg, act, busy, i) && k < |act|
    ensures act[k].idx < i && reg[act[k].idx] == act[k].reg
    ensures ActiveOk(v, reg[act[k].idx := -1][i := act[k].reg], act[k := Active(v.cand[i].end, act[k].reg, i)], busy, i + 1)
  {
    assert Holds(v, reg, act[k], i);
    var reg', act' := reg[act[k].idx := -1][i := act[k].reg], act[k := Active(v.cand[i].end, act[k].reg, i)];
    forall m | 0 <= m < |act'| ensures Holds(v, reg', act'[m], i + 1) {
      assert Holds(v, reg, act[m], i);
    }
    forall r: nat | r < NREG && busy[r] ensures exists m :: 0 <= m < |act'| && act'[m].reg == r {
      var m :| 0 <= m < |act| && act[m].reg == r;
      assert act'[m].reg == r;
    }
  }

  lemma EvictOver(v: Env, reg: seq<int>, act: seq<Active>, busy: seq<bool>, i: nat, s: nat, k: nat)
    requires i < |v.cand| == |reg| && ActiveOk(v, reg, act, busy, i) && OthersOver(v, reg, act, i, s) && k < |act|
    requires act[k].idx < i
    ensures OthersOver(v, reg[act[k].idx := -1][i := act[k].reg], act[k := Active(v.cand[i].end, act[k].reg, i)], i + 1, s)
  {
    var act' := act[k := Active(v.cand[i].end, act[k].reg, i)];
    assert act'[k].idx == i;
    forall j: nat | j < i && j != act[k].idx && !IsActive(act', j) ensures !IsActive(act, j) {
      forall m | 0 <= m < |act| ensures act[m].idx != j {
        assert m != k ==> act'[m] == act[m];
      }
    }
  }

  lemma EvictAssigned(v: Env, reg: seq<int>, act: seq<Active>, busy: seq<bool>, i: nat, k: nat)
    requires WfEnv(v) && i < |v.cand| == |reg| && ActiveOk(v, reg, act, busy, i) && OthersOver(v, reg, act, i, v.cand[i].start)
    requires Assigned(v, reg, i) && k < |act| && Victim(v, act, k, i) && !v.cand[i].phislot && act[k].idx < i
    ensures Assigned(v, reg[act[k].idx := -1][i := act[k].reg], i + 1)
  {
    forall j: nat | j < i && j != act[k].idx && reg[j] == act[k].reg ensures !Overlap(v.cand[j], v.cand[i]) {
      forall m | 0 <= m < |act| ensures act[m].idx != j {
        assert Holds(v, reg, act[m], i) && Holds(v, reg, act[k], i);
      }
    }
  }

  // Eviction: the interval that lasts longest gives its register up and goes to memory.
  lemma EvictStep(v: Env, reg: seq<int>, slot: seq<int>, sl: Slots, act: seq<Active>, busy: seq<bool>, used: set<nat>, i: nat, k: nat)
    requires i < |v.cand| && SoFar(v, reg, slot, sl, act, busy, used, i, v.cand[i].start)
    requires k < |act| && Victim(v, act, k, i) && !v.cand[i].phislot
    ensures act[k].idx < i && reg[act[k].idx] == act[k].reg
    ensures var (sl', off) := SlotAlloc(sl, v.cand[act[k].idx].small);
            SoFar(v, reg[act[k].idx := -1][i := act[k].reg], slot[act[k].idx := off - Base(v)], sl',
                  act[k := Active(v.cand[i].end, act[k].reg, i)], busy, used + {act[k].reg}, i + 1, v.cand[i].start)
  {
    hide Suits;
    hide WfEnv;
    hide Overlap;
    hide IsActive;
    hide Holds;
    hide SlotOk;
    EvictActive(v, reg, act, busy, i, k);
    EvictOver(v, reg, act, busy, i, v.cand[i].start, k);
    EvictAssigned(v, reg, act, busy, i, k);
    HomesSpill(v, reg, slot, sl, i, act[k].idx);
    assert used + {act[k].reg} == used;
  }

  // ---- the result ---------------------------------------------------------------------------------

  // What the scan promises of the final assignment.
  ghost predicate ScanRight(v: Env, reg: seq<int>, slot: seq<int>, used: set<nat>, frame: int, save: int)
    requires WfEnv(v)
  {
    && |reg| == |slot| == |v.cand|
    // an interval lives in a register that suits it, or in a slot, never both
    && (forall j: nat :: j < |reg| ==> (reg[j] >= 0 <==> slot[j] == -1))
    && (forall j: nat :: j < |reg| && reg[j] >= 0 ==> Suits(v, v.cand[j], reg[j]) && !v.cand[j].phislot && reg[j] in used)
    // intervals that share a register do not overlap
    && (forall j: nat, l: nat :: j < l < |reg| && reg[j] >= 0 && reg[j] == reg[l] ==> !Overlap(v.cand[j], v.cand[l]))
    // slots are aligned, apart from each other, below the save areas and inside the frame
    && (forall j: nat :: j < |reg| && slot[j] != -1 ==>
          && -(frame + Base(v)) <= slot[j] && slot[j] + Width(v.cand[j].small) <= -(save + Base(v))
          && Aligned(slot[j], v.cand[j].small))
    && (forall j: nat, l: nat :: j < |reg| && l < |reg| && j != l && slot[j] != -1 && slot[l] != -1 ==>
          slot[j] + Width(v.cand[j].small) <= slot[l] || slot[l] + Width(v.cand[l].small) <= slot[j])
    && (save == 8 * SavedCount(v.t, used, v.t.gpr0 + v.t.ngpr))
    // a variadic function gives out callee-saved registers as hints only
    && HintsOnly(v, used)
    // registers are given, taken over and refused as the steps of the scan say
    && SomeHistory(v.t, v.vararg, v.cand, May(v), reg, used)
    // the frame ends with the lowest slot
    && FrameTight(slot, frame, save, Base(v))
  }

  ghost predicate FrameTight(slot: seq<int>, frame: int, save: int, base: int) {
    if forall j :: 0 <= j < |slot| ==> slot[j] == -1 then frame == save
    else exists j :: 0 <= j < |slot| && slot[j] == -(frame + base)
  }

  lemma TightShifted(v: Env, slot: seq<int>, sl: Slots, slot': seq<int>, save: int)
    requires Tight(v, slot, sl)
    requires |slot'| == |slot| && forall j :: 0 <= j < |slot| ==> slot'[j] == if slot[j] == -1 then -1 else slot[j] - save
    requires forall j :: 0 <= j < |slot| && slot[j] != -1 ==> slot'[j] != -1
    ensures FrameTight(slot', 4 * Deepest(sl) + save, save, Base(v))
  {
    hide Deepest;
    if j :| 0 <= j < |slot| && slot[j] == -4 * Deepest(sl) - Base(v) && slot[j] != -1 {
      assert slot'[j] == slot[j] - save;
    }
  }

  // No interval is hinted at a callee-saved register of its class.
  predicate NoSavedHints(v: Env) {
    forall j: nat, r: nat :: j < |v.cand| && r < NREG ==> !HintedAt(v, v.cand[j], r)
  }

  // A variadic function without such hints uses no callee-saved register, evictions
  // included, and so has no save area.
  lemma VarargClean(v: Env, reg: seq<int>, slot: seq<int>, used: set<nat>, frame: int, save: int)
    requires WfEnv(v) && ScanRight(v, reg, slot, used, frame, save) && v.vararg && NoSavedHints(v)
    ensures forall r: nat :: r in used && r < NREG ==> !v.t.callee[r]
    ensures forall j: nat :: j < |reg| && reg[j] >= 0 ==> reg[j] < NREG && !v.t.callee[reg[j]]
    ensures save == 0
  {
    hide Overlap;
    hide IsPool;
    forall j: nat | j < |reg| && reg[j] >= 0 ensures reg[j] < NREG && reg[j] in used {
      assert Suits(v, v.cand[j], reg[j]);
    }
    NoneSaved(v.t, used, v.t.gpr0 + v.t.ngpr);
  }

  lemma {:induction false} NoneSaved(t: Target, used: set<nat>, hi: nat)
    requires hi <= NREG && |t.callee| == NREG && forall r: nat :: r in used && r < NREG ==> !t.callee[r]
    ensures SavedCount(t, used, hi) == 0
  {
    if t.gpr0 < hi {
      NoneSaved(t, used, hi - 1);
    }
  }

  // How many callee-saved general registers below hi are in use.
  function SavedCount(t: Target, used: set<nat>, hi: nat): int {
    if hi <= t.gpr0 || hi > |t.callee| then 0
    else SavedCount(t, used, hi - 1) + if t.callee[hi - 1] && hi - 1 in used then 1 else 0
  }

  // It is the number of those registers.
  lemma {:induction false} SavedCountIs(t: Target, used: set<nat>, hi: nat)
    requires hi <= |t.callee|
    ensures SavedCount(t, used, hi) == |set r: nat | t.gpr0 <= r < hi && t.callee[r] && r in used|
  {
    var s := set r: nat | t.gpr0 <= r < hi && t.callee[r] && r in used;
    if hi <= t.gpr0 {
      assert s == {};
    } else {
      SavedCountIs(t, used, hi - 1);
      var s' := set r: nat | t.gpr0 <= r < hi - 1 && t.callee[r] && r in used;
      assert s == s' + if t.callee[hi - 1] && hi - 1 in used then {hi - 1} else {};
    }
  }

  lemma {:induction false} SavedNat(t: Target, used: set<nat>, hi: nat)
    ensures SavedCount(t, used, hi) >= 0
  {
    if t.gpr0 < hi <= |t.callee| {
      SavedNat(t, used, hi - 1);
    }
  }

  lemma Shifted(v: Env, reg: seq<int>, slot: seq<int>, sl: Slots, act: seq<Active>, busy: seq<bool>, used: set<nat>, s: nat,
                hist: seq<seq<int>>, slot': seq<int>, save: int)
    requires SoFar(v, reg, slot, sl, act, busy, used, |v.cand|, s) && Logged(v, reg, used, hist, |v.cand|) && Tight(v, slot, sl)
    requires save == 8 * SavedCount(v.t, used, v.t.gpr0 + v.t.ngpr)
    requires |slot'| == |slot| && forall j :: 0 <= j < |slot| ==> slot'[j] == if slot[j] == -1 then -1 else slot[j] - save
    ensures ScanRight(v, reg, slot', used, 4 * Deepest(sl) + save, save)
  {
    hide Suits;
    hide Overlap;
    hide ActiveOk;
    hide OthersOver;
    hide Aligned;
    hide WfEnv;
    hide History;
    hide May;
    hide Tight;
    hide FrameTight;
    SavedNat(v.t, used, v.t.gpr0 + v.t.ngpr);
    forall j: nat | j < |reg| && slot[j] != -1
      ensures slot'[j] != -1 && Aligned(slot'[j], v.cand[j].small) && slot'[j] + Width(v.cand[j].small) <= -(save + Base(v))
      ensures -(4 * Deepest(sl) + save + Base(v)) <= slot'[j]
    {
      assert SlotOk(v, slot[j], v.cand[j].small, sl);
      AlignedShift(slot[j], v.cand[j].small, SavedCount(v.t, used, v.t.gpr0 + v.t.ngpr));
      AlignedNotOdd(slot'[j], v.cand[j].small);
    }
    TightShifted(v, slot, sl, slot', save);
    assert SomeHistory(v.t, v.vararg, v.cand, May(v), reg, used);
  }

  // ---- steps of the scan, on values -----------------------------------------------------------------

  lemma ExpireStep(v: Env, reg: seq<int>, slot: seq<int>, sl: Slots, act: seq<Active>, busy: seq<bool>, used: set<nat>, i: nat, s: nat, k: nat)
    requires SoFar(v, reg, slot, sl, act, busy, used, i, s) && k < |act| && act[k].end <= s
    ensures act[k].reg < |busy|
    ensures SoFar(v, reg, slot, sl, act[k := act[|act| - 1]][..|act| - 1], busy[act[k].reg := false], used, i, s)
  {
    hide WfEnv;
    hide Assigned;
    hide Homes;
    ExpiredActive(v, reg, act, busy, i, k);
    assert Holds(v, reg, act[k], i);
    hide Holds;
    ExpiredOver(v, reg, act, i, s, k);
  }

  lemma NextStart(v: Env, reg: seq<int>, slot: seq<int>, sl: Slots, act: seq<Active>, busy: seq<bool>, used: set<nat>, i: nat)
    requires i < |v.cand| && SoFar(v, reg, slot, sl, act, busy, used, i, if i == 0 then 0 else v.cand[i - 1].start)
    ensures SoFar(v, reg, slot, sl, act, busy, used, i, v.cand[i].start)
  {
    LaterStart(v, reg, slot, sl, act, busy, used, i, if i == 0 then 0 else v.cand[i - 1].start, v.cand[i].start);
  }

  lemma Bounds(v: Env, reg: seq<int>, slot: seq<int>, sl: Slots, act: seq<Active>, busy: seq<bool>, used: set<nat>, i: nat, s: nat)
    requires SoFar(v, reg, slot, sl, act, busy, used, i, s)
    ensures WfEnv(v) && PoolsLow(v) && i <= |v.cand| == |reg| == |slot| && |busy| == NREG && |v.fixed| == NREG
    ensures forall k :: 0 <= k < |act| ==> act[k].reg < NREG && act[k].idx < i && reg[act[k].idx] == act[k].reg
    ensures forall j: nat :: j < |v.cand| ==> v.cand[j].cls < 2 && v.cand[j].hint < NREG
  {
    EnvPools(v);
    forall k | 0 <= k < |act| ensures act[k].idx < i && reg[act[k].idx] == act[k].reg {
      assert Holds(v, reg, act[k], i);
    }
  }

  // An active interval of the same class whose register is not fixed inside x,
  // and is callee-saved if need be, can hand the register over.
  predicate Suitable(v: Env, act: seq<Active>, k: nat, i: nat)
    requires k < |act| && i < |v.cand| && act[k].idx < |v.cand| && act[k].reg < |v.fixed|
  {
    && v.cand[act[k].idx].cls == v.cand[i].cls
    && !Hits(v.fixed[act[k].reg], v.cand[i].start, v.cand[i].end)
    && (Crosses(v, v.cand[i]) ==> InCallee(v.t, act[k].reg, v.cand[i].cls))
  }

  predicate CanYield(v: Env, act: seq<Active>, k: nat, i: nat)
    requires k < |act|
  {
    i < |v.cand| && act[k].idx < |v.cand| && act[k].reg < |v.fixed| && Suitable(v, act, k, i)
  }

  // mreg_in_callee
  predicate InCallee(t: Target, r: nat, cls: nat) {
    OfClass(t, r, cls) && r < |t.callee| && t.callee[r]
  }

  lemma SuitableIsVictim(v: Env, reg: seq<int>, slot: seq<int>, sl: Slots, act: seq<Active>, busy: seq<bool>, used: set<nat>,
                         i: nat, s: nat, k: nat)
    requires SoFar(v, reg, slot, sl, act, busy, used, i, s) && i < |v.cand| && k < |act|
    requires act[k].idx < |v.cand| && act[k].reg < |v.fixed| && Suitable(v, act, k, i) && act[k].end > v.cand[i].end
    ensures WfEnv(v) && Victim(v, act, k, i)
  {
    hide Homes;
    hide OthersOver;
    hide Hits;
    assert Holds(v, reg, act[k], i);
    assert Suits(v, v.cand[act[k].idx], act[k].reg);
  }

  // ---- the scan keeps the history ---------------------------------------------------------------

  function MaySet(v: Env, j: nat): set<nat>
    requires |v.fixed| == NREG && j < |v.cand|
  {
    set r: nat | r < NREG && !v.cand[j].phislot && MaySuit(v, v.cand[j], r)
  }

  predicate MaySuit(v: Env, x: Interval, r: nat)
    requires |v.fixed| == NREG
  {
    && r < NREG && OfClass(v.t, r, x.cls) && r !in v.no
    && !Hits(v.fixed[r], x.start, x.end)
    && (Crosses(v, x) ==> r < |v.t.callee| && v.t.callee[r])
  }

  function May(v: Env): (may: seq<set<nat>>)
    requires |v.fixed| == NREG
    ensures |may| == |v.cand|
  {
    seq(|v.cand|, j requires 0 <= j < |v.cand| => MaySet(v, j))
  }

  ghost predicate Logged(v: Env, reg: seq<int>, used: set<nat>, hist: seq<seq<int>>, i: nat) {
    && |v.fixed| == NREG && History(v.t, v.vararg, v.cand, May(v), hist, used, i) && hist[i] == reg
  }

  ghost predicate AllBeyond(act: seq<Active>, s: nat) {
    forall k :: 0 <= k < |act| ==> act[k].end > s
  }

  // With the intervals that are over taken out, busy says which registers are held.
  lemma BusyIsHeld(v: Env, reg: seq<int>, act: seq<Active>, busy: seq<bool>, i: nat, s: nat, r: nat)
    requires i <= |v.cand| == |reg| && ActiveOk(v, reg, act, busy, i) && OthersOver(v, reg, act, i, s) && AllBeyond(act, s)
    requires r < NREG
    ensures busy[r] <==> Held(v.cand, reg, i, s, r)
  {
    if busy[r] {
      var k :| 0 <= k < |act| && act[k].reg == r;
      assert Holds(v, reg, act[k], i);
    }
    if j: nat :| j < i && reg[j] == r && v.cand[j].end > s {
      assert !busy[reg[j]] ==> false by {
        if !busy[reg[j]] {
          FreeIsOver(v, reg, act, busy, i, s, j);
        }
      }
    }
  }

  lemma {:induction false} FirstFreeLow(v: Env, busy: seq<bool>, x: Interval, pool: seq<nat>, q: nat)
    requires |v.fixed| == |busy| == NREG && forall k :: 0 <= k < |pool| ==> pool[k] < NREG
    requires forall i, j :: 0 <= i < j < |pool| ==> pool[i] < pool[j]
    requires FirstFree(v, busy, x, pool).Some? && q in pool && Free(v, busy, x, q)
    ensures FirstFree(v, busy, x, pool).value <= q
  {
    var n := |pool| - 1;
    assert pool == pool[..n] + [pool[n]];
    FirstFreeIs(v, busy, x, pool[..n]);
    if q in pool[..n] {
      FirstFreeLow(v, busy, x, pool[..n], q);
    }
  }

  // The choice is the first register it can be given in the order hint, caller-saved, callee-saved.
  lemma ChoiceIsChosen(v: Env, reg: seq<int>, busy: seq<bool>, i: nat)
    requires WfEnv(v) && PoolsLow(v) && i < |v.cand| == |reg| && |busy| == NREG
    requires v.cand[i].hint < NREG && v.cand[i].cls < 2 && !v.cand[i].phislot
    requires forall r: nat :: r < NREG ==> (busy[r] <==> Held(v.cand, reg, i, v.cand[i].start, r))
    ensures Choice(v, busy, v.cand[i]).Some? ==> Chosen(v.t, v.vararg, v.cand, May(v), reg, i, Choice(v, busy, v.cand[i]).value)
    ensures Choice(v, busy, v.cand[i]).None? ==> forall r: nat :: !Givable(v.t, v.vararg, v.cand, May(v), reg, i, r)
  {
    hide Held;
    var x := v.cand[i];
    forall r: nat ensures Givable(v.t, v.vararg, v.cand, May(v), reg, i, r) <==> GivableNow(v, busy, x, r) {
      GivableIsNow(v, reg, busy, i, r);
    }
    hide Givable;
    hide May;
    if Choice(v, busy, x).Some? {
      ChoiceSuits(v, busy, x);
      forall q: nat | GivableNow(v, busy, x, q) && q != Choice(v, busy, x).value
        ensures Sooner(v.t, x, Choice(v, busy, x).value, q)
      {
        ChoiceSooner(v, busy, x, q);
      }
      ChoiceGivable(v, busy, x);
    } else {
      forall r: nat ensures !GivableNow(v, busy, x, r) {
        ChoiceNone(v, busy, x, r);
      }
    }
  }

  // Givable, in terms of the busy flags.
  predicate GivableNow(v: Env, busy: seq<bool>, x: Interval, r: nat)
    requires |v.fixed| == |busy| == NREG
  {
    && r < NREG && !x.phislot && MaySuit(v, x, r) && !busy[r]
    && (v.vararg && r < |v.t.callee| && v.t.callee[r] ==> x.hint == r)
  }

  lemma GivableIsNow(v: Env, reg: seq<int>, busy: seq<bool>, i: nat, r: nat)
    requires WfEnv(v) && i < |v.cand| == |reg| && |busy| == NREG
    requires forall r: nat :: r < NREG ==> (busy[r] <==> Held(v.cand, reg, i, v.cand[i].start, r))
    ensures Givable(v.t, v.vararg, v.cand, May(v), reg, i, r) <==> GivableNow(v, busy, v.cand[i], r)
  {
    hide Held;
    assert May(v)[i] == MaySet(v, i);
  }

  // A register that can be given is in one of the two pools.
  lemma GivableInPool(v: Env, busy: seq<bool>, x: Interval, r: nat)
    requires WfEnv(v) && PoolsLow(v) && |busy| == NREG && x.hint < NREG && x.cls < 2
    ensures GivableNow(v, busy, x, r) <==>
              r < NREG && !x.phislot && Free(v, busy, x, r) && (v.vararg && v.t.callee[r] ==> x.hint == r)
              && (if v.t.callee[r] then r in v.pc[x.cls] else r in v.px[x.cls] && !Crosses(v, x))
  {
    assert IsPool(v.t, v.no, x.cls, true, v.pc[x.cls], NREG);
    assert IsPool(v.t, v.no, x.cls, false, v.px[x.cls], NREG);
  }

  lemma PoolSide(v: Env, x: Interval, r: nat)
    requires WfEnv(v) && x.cls < 2
    ensures r in v.pc[x.cls] ==> r < NREG && v.t.callee[r]
    ensures r in v.px[x.cls] ==> r < NREG && !v.t.callee[r]
  {
    assert IsPool(v.t, v.no, x.cls, true, v.pc[x.cls], NREG);
    assert IsPool(v.t, v.no, x.cls, false, v.px[x.cls], NREG);
  }

  lemma ChoiceGivable(v: Env, busy: seq<bool>, x: Interval)
    requires WfEnv(v) && PoolsLow(v) && |busy| == NREG && x.hint < NREG && x.cls < 2
    ensures Choice(v, busy, x).Some? ==> GivableNow(v, busy, x, Choice(v, busy, x).value)
  {
    if Choice(v, busy, x).Some? {
      var r := Choice(v, busy, x).value;
      FirstFreeIs(v, busy, x, v.px[x.cls]);
      FirstFreeIs(v, busy, x, v.pc[x.cls]);
      GivableInPool(v, busy, x, r);
      PoolSide(v, x, r);
    }
  }

  lemma ChoiceNone(v: Env, busy: seq<bool>, x: Interval, r: nat)
    requires WfEnv(v) && PoolsLow(v) && |busy| == NREG && x.hint < NREG && x.cls < 2 && Choice(v, busy, x).None?
    ensures !GivableNow(v, busy, x, r)
  {
    FirstFreeIs(v, busy, x, v.px[x.cls]);
    FirstFreeIs(v, busy, x, v.pc[x.cls]);
    GivableInPool(v, busy, x, r);
    PoolSide(v, x, r);
  }

  lemma ChoiceSooner(v: Env, busy: seq<bool>, x: Interval, q: nat)
    requires WfEnv(v) && PoolsLow(v) && |busy| == NREG && x.hint < NREG && x.cls < 2
    requires Choice(v, busy, x).Some? && GivableNow(v, busy, x, q) && q != Choice(v, busy, x).value
    ensures Choice(v, busy, x).value < |v.t.callee| && q < |v.t.callee| && Sooner(v.t, x, Choice(v, busy, x).value, q)
  {
    var r := Choice(v, busy, x).value;
    ChoiceGivable(v, busy, x);
    FirstFreeIs(v, busy, x, v.px[x.cls]);
    FirstFreeIs(v, busy, x, v.pc[x.cls]);
    GivableInPool(v, busy, x, r);
    GivableInPool(v, busy, x, q);
    PoolSide(v, x, r);
    PoolSide(v, x, q);
    PoolOrder(v, x);
    if FirstFree(v, busy, x, v.px[x.cls]).Some? && q in v.px[x.cls] {
      FirstFreeLow(v, busy, x, v.px[x.cls], q);
    }
    if FirstFree(v, busy, x, v.pc[x.cls]).Some? && q in v.pc[x.cls] {
      FirstFreeLow(v, busy, x, v.pc[x.cls], q);
    }
  }

  lemma PoolOrder(v: Env, x: Interval)
    requires WfEnv(v) && x.cls < 2
    ensures forall i, j :: 0 <= i < j < |v.px[x.cls]| ==> v.px[x.cls][i] < v.px[x.cls][j]
    ensures forall i, j :: 0 <= i < j < |v.pc[x.cls]| ==> v.pc[x.cls][i] < v.pc[x.cls][j]
  {
    assert IsPool(v.t, v.no, x.cls, true, v.pc[x.cls], NREG);
    assert IsPool(v.t, v.no, x.cls, false, v.px[x.cls], NREG);
  }

  lemma {:induction false} DistinctFew(s: seq<nat>, n: nat)
    requires forall i, j :: 0 <= i < j < |s| ==> s[i] != s[j]
    requires forall i :: 0 <= i < |s| ==> s[i] < n
    ensures |s| <= n
  {
    if |s| == 0 || s[0] >= n {
    } else if k :| 0 <= k < |s| && s[k] == n - 1 {
      var s' := s[..k] + s[k + 1..];
      assert forall i :: 0 <= i < |s'| ==> s'[i] == s[if i < k then i else i + 1];
      DistinctFew(s', n - 1);
    } else {
      DistinctFew(s, n - 1);
    }
  }

  // There are never as many active intervals as there is room for.
  lemma ActFew(v: Env, reg: seq<int>, act: seq<Active>, busy: seq<bool>, i: nat)
    requires i <= |v.cand| == |reg| && ActiveOk(v, reg, act, busy, i)
    ensures |act| <= NREG < MAX_ACTIVE
  {
    hide Holds;
    var s := seq(|act|, k requires 0 <= k < |act| => act[k].reg);
    DistinctFew(s, NREG);
  }

  lemma YielderIsActive(v: Env, reg: seq<int>, act: seq<Active>, busy: seq<bool>, i: nat, j: nat) returns (k: nat)
    requires WfEnv(v) && i < |v.cand| == |reg| && ActiveOk(v, reg, act, busy, i) && OthersOver(v, reg, act, i, v.cand[i].start)
    requires Yields(v.cand, May(v), reg, i, j)
    ensures k < |act| && act[k].idx == j && act[k].end == v.cand[j].end && CanYield(v, act, k, i)
  {
    assert IsActive(act, j);
    k :| k < |act| && act[k].idx == j;
    assert Holds(v, reg, act[k], i);
    assert May(v)[i] == MaySet(v, i);
  }

  lemma ActiveYields(v: Env, reg: seq<int>, act: seq<Active>, busy: seq<bool>, i: nat, k: nat)
    requires WfEnv(v) && i < |v.cand| == |reg| && ActiveOk(v, reg, act, busy, i) && k < |act| && Victim(v, act, k, i)
    requires CanYield(v, act, k, i) && !v.cand[i].phislot
    ensures Yields(v.cand, May(v), reg, i, act[k].idx)
  {
    assert Holds(v, reg, act[k], i);
    assert May(v)[i] == MaySet(v, i);
  }

  lemma VictimIsLast(v: Env, reg: seq<int>, act: seq<Active>, busy: seq<bool>, i: nat, k: nat)
    requires WfEnv(v) && i < |v.cand| == |reg| && ActiveOk(v, reg, act, busy, i) && OthersOver(v, reg, act, i, v.cand[i].start)
    requires k < |act| && Victim(v, act, k, i) && CanYield(v, act, k, i) && !v.cand[i].phislot
    requires forall m: nat :: m < |act| && CanYield(v, act, m, i) ==> act[m].end <= act[k].end
    ensures YieldsLast(v.cand, May(v), reg, i, act[k].idx)
  {
    hide CanYield;
    hide May;
    ActiveYields(v, reg, act, busy, i, k);
    assert Holds(v, reg, act[k], i);
    forall l: nat | Yields(v.cand, May(v), reg, i, l) ensures v.cand[l].end <= v.cand[act[k].idx].end {
      var m := YielderIsActive(v, reg, act, busy, i, l);
    }
  }

  lemma NoVictim(v: Env, reg: seq<int>, act: seq<Active>, busy: seq<bool>, i: nat)
    requires WfEnv(v) && i < |v.cand| == |reg| && ActiveOk(v, reg, act, busy, i) && OthersOver(v, reg, act, i, v.cand[i].start)
    requires forall m: nat :: m < |act| && CanYield(v, act, m, i) ==> act[m].end <= v.cand[i].end
    ensures forall l: nat :: !Yields(v.cand, May(v), reg, i, l)
  {
    hide CanYield;
    hide May;
    forall l: nat | Yields(v.cand, May(v), reg, i, l)
      ensures exists m: nat :: m < |act| && CanYield(v, act, m, i) && act[m].end == v.cand[l].end
    {
      var m := YielderIsActive(v, reg, act, busy, i, l);
    }
  }

  lemma LogTake(v: Env, reg: seq<int>, used: set<nat>, hist: seq<seq<int>>, i: nat, r: nat)
    requires Logged(v, reg, used, hist, i) && i < |v.cand| == |reg| && !v.cand[i].phislot
    requires Chosen(v.t, v.vararg, v.cand, May(v), reg, i, r)
    ensures Logged(v, reg[i := r], used + {r}, hist + [reg[i := r]], i + 1)
  {
    hide May;
    hide Givable;
    assert Givable(v.t, v.vararg, v.cand, May(v), reg, i, r);
    assert StepOf(v.t, v.vararg, v.cand, May(v), reg, reg[i := r], i);
    HistoryMore(v.t, v.vararg, v.cand, May(v), hist, used, i, reg[i := r], used + {r});
  }

  lemma LogEvict(v: Env, reg: seq<int>, used: set<nat>, hist: seq<seq<int>>, i: nat, j: nat)
    requires Logged(v, reg, used, hist, i) && i < |v.cand| == |reg| && !v.cand[i].phislot
    requires forall r: nat :: !Givable(v.t, v.vararg, v.cand, May(v), reg, i, r)
    requires j < i && YieldsLast(v.cand, May(v), reg, i, j)
    ensures reg[j] >= 0 && Logged(v, reg[j := -1][i := reg[j]], used + {reg[j]}, hist + [reg[j := -1][i := reg[j]]], i + 1)
  {
    hide May;
    hide Givable;
    var reg' := reg[j := -1][i := reg[j]];
    assert Yields(v.cand, May(v), reg, i, j);
    assert StepOf(v.t, v.vararg, v.cand, May(v), reg, reg', i);
    HistoryMore(v.t, v.vararg, v.cand, May(v), hist, used, i, reg', used + {reg[j]});
  }

  lemma LogNone(v: Env, reg: seq<int>, used: set<nat>, hist: seq<seq<int>>, i: nat)
    requires Logged(v, reg, used, hist, i) && i < |v.cand| == |reg| && reg[i] == -1
    requires v.cand[i].phislot || (forall r: nat :: !Givable(v.t, v.vararg, v.cand, May(v), reg, i, r))
    requires v.cand[i].phislot || (forall j: nat :: !Yields(v.cand, May(v), reg, i, j))
    ensures Logged(v, reg, used, hist + [reg], i + 1)
  {
    hide May;
    hide Givable;
    hide Yields;
    assert StepOf(v.t, v.vararg, v.cand, May(v), reg, reg, i);
    HistoryMore(v.t, v.vararg, v.cand, May(v), hist, used, i, reg, used);
  }

  lemma LogStart(v: Env, reg: seq<int>)
    requires WfEnv(v) && |reg| == |v.cand| && forall j :: 0 <= j < |reg| ==> reg[j] == -1
    ensures Logged(v, reg, {}, [reg], 0)
  {
  }

  lemma FewActive(v: Env, reg: seq<int>, slot: seq<int>, sl: Slots, act: seq<Active>, busy: seq<bool>, used: set<nat>, i: nat, s: nat)
    requires SoFar(v, reg, slot, sl, act, busy, used, i, s)
    ensures |act| < MAX_ACTIVE
  {
    hide WfEnv;
    hide Assigned;
    hide Homes;
    ActFew(v, reg, act, busy, i);
  }

  lemma ChoiceExplained(v: Env, reg: seq<int>, slot: seq<int>, sl: Slots, act: seq<Active>, busy: seq<bool>, used: set<nat>, i: nat)
    requires i < |v.cand| && SoFar(v, reg, slot, sl, act, busy, used, i, v.cand[i].start) && AllBeyond(act, v.cand[i].start)
    requires PoolsLow(v) && |busy| == NREG && v.cand[i].hint < NREG && v.cand[i].cls < 2
    ensures |v.fixed| == NREG && |reg| == |v.cand|
    ensures v.cand[i].phislot ==> Choice(v, busy, v.cand[i]).None?
    ensures !v.cand[i].phislot && Choice(v, busy, v.cand[i]).Some? ==>
              Chosen(v.t, v.vararg, v.cand, May(v), reg, i, Choice(v, busy, v.cand[i]).value)
    ensures !v.cand[i].phislot && Choice(v, busy, v.cand[i]).None? ==>
              forall r: nat :: !Givable(v.t, v.vararg, v.cand, May(v), reg, i, r)
  {
    hide Assigned;
    hide Homes;
    hide ActiveOk;
    hide OthersOver;
    hide Held;
    hide May;
    hide Givable;
    hide Chosen;
    if !v.cand[i].phislot {
      forall r: nat | r < NREG ensures busy[r] <==> Held(v.cand, reg, i, v.cand[i].start, r) {
        BusyIsHeld(v, reg, act, busy, i, v.cand[i].start, r);
      }
      ChoiceIsChosen(v, reg, busy, i);
    }
  }

  lemma EvictExplained(v: Env, reg: seq<int>, slot: seq<int>, sl: Slots, act: seq<Active>, busy: seq<bool>, used: set<nat>, i: nat, k: nat)
    requires i < |v.cand| && SoFar(v, reg, slot, sl, act, busy, used, i, v.cand[i].start) && k < |act|
    requires Victim(v, act, k, i) && CanYield(v, act, k, i) && !v.cand[i].phislot
    requires forall m: nat :: m < |act| && CanYield(v, act, m, i) ==> act[m].end <= act[k].end
    ensures |v.fixed| == NREG && |reg| == |v.cand| && act[k].idx < i && YieldsLast(v.cand, May(v), reg, i, act[k].idx)
  {
    hide Assigned;
    hide Homes;
    hide CanYield;
    hide YieldsLast;
    hide May;
    assert Holds(v, reg, act[k], i);
    VictimIsLast(v, reg, act, busy, i, k);
  }

  lemma NoneExplained(v: Env, reg: seq<int>, slot: seq<int>, sl: Slots, act: seq<Active>, busy: seq<bool>, used: set<nat>, i: nat)
    requires i < |v.cand| && SoFar(v, reg, slot, sl, act, busy, used, i, v.cand[i].start)
    requires v.cand[i].phislot || forall m: nat :: m < |act| && CanYield(v, act, m, i) ==> act[m].end <= v.cand[i].end
    ensures |v.fixed| == NREG && |reg| == |v.cand| && reg[i] == -1
    ensures v.cand[i].phislot || forall l: nat :: !Yields(v.cand, May(v), reg, i, l)
  {
    hide Assigned;
    hide CanYield;
    hide Yields;
    hide May;
    if !v.cand[i].phislot {
      NoVictim(v, reg, act, busy, i);
    }
  }

  // No slot lies unused below the lowest given out.
  ghost predicate Tight(v: Env, slot: seq<int>, sl: Slots) {
    if forall j :: 0 <= j < |slot| ==> slot[j] == -1 then Deepest(sl) == 0
    else exists j :: 0 <= j < |slot| && slot[j] == -4 * Deepest(sl) - Base(v)
  }

  lemma TightMore(v: Env, slot: seq<int>, sl: Slots, j: nat, small: bool)
    requires j < |slot|
    ensures var (sl', off) := SlotAlloc(sl, small); Tight(v, slot[j := off - Base(v)], sl')
  {
    var (sl', off) := SlotAlloc(sl, small);
    var slot' := slot[j := off - Base(v)];
    assert slot'[j] == -4 * Deepest(sl') - Base(v);
  }

  class Scanner {
    ghost const v: Env
    const cand: seq<Interval>
    const pc: seq<seq<nat>>
    const px: seq<seq<nat>>
    const fixed: seq<seq<nat>>
    const calls: seq<nat>
    const t: Target
    const vararg: bool
    var act: seq<Active>
    var busy: seq<bool>
    var reg: seq<int>
    var slot: seq<int>
    var sl: Slots
    var used: set<nat>
    ghost var hist: seq<seq<int>>    // the assignment after each interval settled so far

    ghost predicate Consts() {
      v == Env.Env(t, v.no, pc, px, fixed, calls, vararg, cand)
    }

    ghost predicate Reached(i: nat, s: nat)
      reads this
    {
      Consts() && SoFar(v, reg, slot, sl, act, busy, used, i, s) && Logged(v, reg, used, hist, i) && Tight(v, slot, sl)
    }

    lemma Open(i: nat, s: nat)
      requires Reached(i, s)
      ensures Logged(v, reg, used, hist, i) && Tight(v, slot, sl)
      ensures v == Env.Env(t, v.no, pc, px, fixed, calls, vararg, cand)
      ensures SoFar(v, reg, slot, sl, act, busy, used, i, s)
      ensures WfEnv(v) && PoolsLow(v) && i <= |cand| == |reg| == |slot| && |busy| == NREG && |fixed| == NREG
      ensures forall k :: 0 <= k < |act| ==> act[k].reg < NREG && act[k].idx < i && reg[act[k].idx] == act[k].reg
      ensures forall j: nat :: j < |cand| ==> cand[j].cls < 2 && cand[j].hint < NREG
      ensures |pc| == |px| == 2
      ensures forall c: nat, k: nat :: c < 2 && k < |pc[c]| ==> pc[c][k] < NREG
      ensures forall c: nat, k: nat :: c < 2 && k < |px[c]| ==> px[c][k] < NREG
    {
      hide SoFar;
      Bounds(v, reg, slot, sl, act, busy, used, i, s);
    }

    lemma Close(i: nat, s: nat)
      requires v == Env.Env(t, v.no, pc, px, fixed, calls, vararg, cand) && SoFar(v, reg, slot, sl, act, busy, used, i, s)
      requires Logged(v, reg, used, hist, i) && Tight(v, slot, sl)
      ensures Reached(i, s)
    {
    }

    constructor (t: Target, ghost no: set<nat>, pc: seq<seq<nat>>, px: seq<seq<nat>>, fixed: seq<seq<nat>>, calls: seq<nat>,
                 vararg: bool, cand: seq<Interval>)
      requires WfEnv(Env.Env(t, no, pc, px, fixed, calls, vararg, cand))
      ensures v == Env.Env(t, no, pc, px, fixed, calls, vararg, cand) && this.cand == cand && Reached(0, 0)
    {
      this.v := Env.Env(t, no, pc, px, fixed, calls, vararg, cand);
      this.t, this.pc, this.px, this.fixed, this.calls, this.vararg, this.cand := t, pc, px, fixed, calls, vararg, cand;
      act, busy := [], seq(NREG, _ => false);
      reg, slot := seq(|cand|, _ => -1), seq(|cand|, _ => -1);
      sl, used, hist := Slots.Slots(0, 0), {}, [seq(|cand|, _ => -1)];
      new;
      hide SoFar;
      hide Logged;
      StartSoFar(v, reg, slot, busy);
      LogStart(v, reg);
    }

    // Give back the registers of intervals that are over.
    method Expire(i: nat)
      requires i < |cand| && Reached(i, if i == 0 then 0 else cand[i - 1].start)
      modifies this`act, this`busy
      ensures Reached(i, cand[i].start) && AllBeyond(act, cand[i].start)
    {
      hide *;
      Open(i, if i == 0 then 0 else cand[i - 1].start);
      NextStart(v, reg, slot, sl, act, busy, used, i);
      var k: nat := |act|;
      while k > 0
        invariant k <= |act| && SoFar(v, reg, slot, sl, act, busy, used, i, cand[i].start)
        invariant forall m :: k <= m < |act| ==> act[m].end > cand[i].start
        decreases k
      {
        k := k - 1;
        if act[k].end <= cand[i].start {
          ExpireStep(v, reg, slot, sl, act, busy, used, i, cand[i].start, k);
          busy := busy[act[k].reg := false];
          act := act[k := act[|act| - 1]][..|act| - 1];
        }
      }
      BeyondIs(act, cand[i].start);
      Close(i, cand[i].start);
    }

    method PoolPick(x: Interval, pool: seq<nat>) returns (r: Option<nat>)
      requires |fixed| == |busy| == NREG && v.fixed == fixed && forall k :: 0 <= k < |pool| ==> pool[k] < NREG
      ensures r == FirstFree(v, busy, x, pool)
    {
      r := None;
      var p: nat := 0;
      while p < |pool| && r.None?
        invariant p <= |pool|
        invariant r == FirstFree(v, busy, x, pool[..p])
        decreases |pool| - p
      {
        assert pool[..p + 1][..p] == pool[..p];
        var hit := Conflict(fixed[pool[p]], x.start, x.end);
        if !busy[pool[p]] && !hit {
          r := Some(pool[p]);
        }
        p := p + 1;
      }
      if p < |pool| {
        FirstFreeStays(v, busy, x, pool, p);
      }
      assert pool[..|pool|] == pool;
    }

    method Choose(i: nat, cross: bool) returns (r: Option<nat>)
      requires i < |cand| && Reached(i, cand[i].start) && PoolsLow(v) && |busy| == NREG && cand[i].hint < NREG && cand[i].cls < 2
      requires cross == Crosses(v, cand[i])
      ensures r == Choice(v, busy, cand[i])
    {
      Open(i, cand[i].start);
      hide SoFar;
      hide WfEnv;
      hide FirstFree;
      hide Crosses;
      var x := cand[i];
      r := None;
      if x.phislot {
        return;
      }
      if x.hint >= 0 && !busy[x.hint] {
        var hit := Conflict(fixed[x.hint], x.start, x.end);
        if !hit && (x.hint in pc[x.cls] || (!cross && x.hint in px[x.cls])) {
          return Some(x.hint);
        }
      }
      if !cross {
        r := PoolPick(x, px[x.cls]);
      }
      if r.None? && !vararg {
        r := PoolPick(x, pc[x.cls]);
      }
    }

    // The suitable active interval that lasts longest, beyond the end of i.
    method FindVictim(i: nat, cross: bool) returns (victim: int)
      requires i < |cand| && Reached(i, cand[i].start) && cross == Crosses(v, cand[i])
      ensures victim >= 0 ==> victim < |act| && WfEnv(v) && i < |v.cand| && Victim(v, act, victim, i) && CanYield(v, act, victim, i)
      ensures victim < 0 ==> forall k: nat :: k < |act| && CanYield(v, act, k, i) ==> act[k].end <= cand[i].end
      ensures victim >= 0 ==> forall k: nat :: k < |act| && CanYield(v, act, k, i) ==> act[k].end <= act[victim].end
    {
      hide *;
      Open(i, cand[i].start);
      victim := -1;
      var victimEnd := cand[i].end;
      var k: nat := 0;
      while k < |act|
        invariant k <= |act| && -1 <= victim < k
        invariant victimEnd == if victim >= 0 then act[victim].end else cand[i].end
        invariant victimEnd >= cand[i].end
        invariant victim >= 0 ==> Suitable(v, act, victim, i) && act[victim].end > cand[i].end
        invariant forall m: nat :: m < k && CanYield(v, act, m, i) ==> act[m].end <= victimEnd
      {
        SuitableIs(v, act, k, i);
        if act[k].end > victimEnd && cand[act[k].idx].cls == cand[i].cls {
          var hit := Conflict(fixed[act[k].reg], cand[i].start, cand[i].end);
          if !hit && (!cross || InCallee(t, act[k].reg, cand[i].cls)) {
            victimEnd := act[k].end;
            victim := k;
          }
        }
        k := k + 1;
      }
      if victim >= 0 {
        SuitableIs(v, act, victim, i);
        SuitableIsVictim(v, reg, slot, sl, act, busy, used, i, cand[i].start, victim);
      }
    }

    method Spill(i: nat, s: nat)
      requires i < |cand| && Reached(i, s)
      requires Logged(v, reg, used, hist + [reg], i + 1)
      modifies this`slot, this`sl, this`hist
      ensures Reached(i + 1, s)
    {
      hide *;
      Open(i, s);
      SpillStep(v, reg, slot, sl, act, busy, used, i, s);
      BaseIs(v);
      TightMore(v, slot, sl, i, cand[i].small);
      hist := hist + [reg];
      var (sl', off) := SlotAlloc(sl, cand[i].small);
      slot := slot[i := off - (if vararg then SAVE_AREA else 0)];
      sl := sl';
      Close(i + 1, s);
    }

    method Settle(i: nat)
      requires i < |cand| && Reached(i, cand[i].start) && AllBeyond(act, cand[i].start)
      modifies this`act, this`busy, this`reg, this`slot, this`sl, this`used, this`hist
      ensures Reached(i + 1, cand[i].start)
    {
      hide *;
      var s := cand[i].start;
      Open(i, s);
      FewActive(v, reg, slot, sl, act, busy, used, i, s);
      var cross := Conflict(calls, s, cand[i].end);
      CrossIs(v, cand[i]);
      var c := Choose(i, cross);
      ChoiceExplained(v, reg, slot, sl, act, busy, used, i);
      if c.Some? && |act| < MAX_ACTIVE {
        ChoiceSuits(v, busy, cand[i]);
        VarargHinted(v, busy, i);
        var r := c.value;
        RegLow(v, cand[i], r);
        TakeStep(v, reg, slot, sl, act, busy, used, i, r);
        LogTake(v, reg, used, hist, i, r);
        reg := reg[i := r];
        used := used + {r};
        busy := busy[r := true];
        act := act + [Active(cand[i].end, r, i)];
        hist := hist + [reg];
        Close(i + 1, s);
      } else if !cand[i].phislot && |act| < MAX_ACTIVE {
        var k := FindVictim(i, cross);
        if k >= 0 {
          EvictStep(v, reg, slot, sl, act, busy, used, i, k);
          EvictExplained(v, reg, slot, sl, act, busy, used, i, k);
          BaseIs(v);
          var j, r := act[k].idx, act[k].reg;
          LogEvict(v, reg, used, hist, i, j);
          TightMore(v, slot, sl, j, cand[j].small);
          var (sl', off) := SlotAlloc(sl, cand[j].small);
          slot := slot[j := off - (if vararg then SAVE_AREA else 0)];
          sl := sl';
          reg := reg[j := -1][i := r];
          used := used + {r};
          act := act[k := Active(cand[i].end, r, i)];
          hist := hist + [reg];
          Close(i + 1, s);
        } else {
          NoneExplained(v, reg, slot, sl, act, busy, used, i);
          LogNone(v, reg, used, hist, i);
          Spill(i, s);
        }
      } else {
        NoneExplained(v, reg, slot, sl, act, busy, used, i);
        LogNone(v, reg, used, hist, i);
        Spill(i, s);
      }
    }

    // mreg_scan, the scan proper and the final shift below the saved registers.
    method Scan() returns (frame: int, save: int)
      requires Reached(0, 0)
      modifies this
      ensures WfEnv(v) && ScanRight(v, reg, slot, used, frame, save)
    {
      hide *;
      var i: nat := 0;
      ghost var s: nat := 0;
      while i < |cand|
        invariant i <= |cand| && s == (if i == 0 then 0 else cand[i - 1].start) && Reached(i, s)
      {
        Expire(i);
        Settle(i);
        s := cand[i].start;
        i := i + 1;
      }
      Open(i, s);
      save := 8 * SavedCount(t, used, t.gpr0 + t.ngpr);
      var out: seq<int> := [];
      while |out| < |slot|
        invariant |out| <= |slot|
        invariant forall j :: 0 <= j < |out| ==> out[j] == if slot[j] == -1 then -1 else slot[j] - save
      {
        out := out + [if slot[|out|] == -1 then -1 else slot[|out|] - save];
      }
      Shifted(v, reg, slot, sl, act, busy, used, s, hist, out, save);
      frame := 4 * Deepest(sl) + save;
      slot := out;
    }
  }

  lemma {:induction false} FirstFreeStays(v: Env, busy: seq<bool>, x: Interval, pool: seq<nat>, p: nat)
    requires |v.fixed| == |busy| == NREG && forall k :: 0 <= k < |pool| ==> pool[k] < NREG
    requires p <= |pool| && FirstFree(v, busy, x, pool[..p]).Some?
    ensures FirstFree(v, busy, x, pool) == FirstFree(v, busy, x, pool[..p])
  {
    if p < |pool| {
      assert pool[..|pool| - 1][..p] == pool[..p];
      FirstFreeStays(v, busy, x, pool[..|pool| - 1], p);
    } else {
      assert pool[..p] == pool;
    }
  }

  // r may hold x, said of the target and the code: a register of x's class that is given
  // out at all, that nothing fixed occupies while x lives, and callee-saved if x lives
  // across a call.
  ghost predicate MayHold(t: Target, no: set<nat>, sret: bool, npos: nat, code: seq<MIns>, x: Interval, r: int)
    requires WfTarget(t)
  {
    && 0 <= r < NREG && OfClass(t, r, x.cls) && r !in no && !x.phislot
    && (forall p: nat :: x.start <= p < x.end ==> !Occupied(t, sret, npos, code, r, p))
    && (forall i: nat :: i < |code| && code[i].call && x.start <= code[i].pos < x.end ==> t.callee[r])
  }

  // For each interval the registers that may hold it.
  ghost function Holders(t: Target, no: set<nat>, sret: bool, npos: nat, code: seq<MIns>, cand: seq<Interval>): (may: seq<set<nat>>)
    requires WfTarget(t)
    ensures |may| == |cand|
  {
    seq(|cand|, j requires 0 <= j < |cand| => set r: nat | r < NREG && MayHold(t, no, sret, npos, code, cand[j], r))
  }

  // The homes of the intervals: used, the registers ever given out; save, the size of the
  // area they are saved in; frame, the size of the frame.
  ghost predicate Allocated(t: Target, no: set<nat>, vararg: bool, sret: bool, npos: nat, code: seq<MIns>, cand: seq<Interval>,
                            reg: seq<int>, slot: seq<int>, frame: int, used: set<nat>, save: int)
    requires WfTarget(t)
  {
    && |reg| == |slot| == |cand|
    && (forall j: nat :: j < |reg| ==> (reg[j] >= 0 <==> slot[j] == -1))
    && (forall j: nat :: j < |reg| && reg[j] >= 0 ==> MayHold(t, no, sret, npos, code, cand[j], reg[j]) && reg[j] in used)
    && (forall j: nat, l: nat :: j < l < |reg| && reg[j] >= 0 && reg[j] == reg[l] ==> !Overlap(cand[j], cand[l]))
    && (forall j: nat :: j < |reg| && slot[j] != -1 ==> SlotInFrame(slot[j], cand[j].small, vararg, frame, save))
    && (forall j: nat, l: nat :: j < |reg| && l < |reg| && j != l && slot[j] != -1 && slot[l] != -1 ==>
          slot[j] + Width(cand[j].small) <= slot[l] || slot[l] + Width(cand[l].small) <= slot[j])
    && save == 8 * SavedCount(t, used, t.gpr0 + t.ngpr)
    && (vararg && (forall j: nat :: j < |cand| ==> !SavedHint(t, no, cand[j])) ==>
          save == 0 && forall r: nat :: r in used && r < NREG ==> !t.callee[r])
    // who gets which register, and when none
    && SomeHistory(t, vararg, cand, Holders(t, no, sret, npos, code, cand), reg, used)
    && FrameTight(slot, frame, save, if vararg then SAVE_AREA else 0)
  }

  // An interval that overlaps no other lives in a register if one may hold it.
  lemma AloneInRegister(t: Target, no: set<nat>, vararg: bool, sret: bool, npos: nat, code: seq<MIns>, cand: seq<Interval>,
                        reg: seq<int>, slot: seq<int>, frame: int, used: set<nat>, save: int, i: nat, r: nat)
    requires WfTarget(t) && WfIntervals(cand) && Allocated(t, no, vararg, sret, npos, code, cand, reg, slot, frame, used, save)
    requires i < |cand| && r < NREG && MayHold(t, no, sret, npos, code, cand[i], r) && (vararg ==> !t.callee[r])
    requires forall j :: 0 <= j < |cand| && j != i ==> !Overlap(cand[j], cand[i])
    ensures reg[i] >= 0 && slot[i] == -1
  {
    hide MayHold;
    hide Overlap;
    hide SomeHistory;
    hide FrameTight;
    var may := Holders(t, no, sret, npos, code, cand);
    assert r in may[i];
    NotPhislot(t, no, sret, npos, code, cand[i], r);
    AloneGetsOne(t, vararg, cand, may, reg, used, i, r);
  }

  // The interval is hinted at a callee-saved register it might get.
  predicate SavedHint(t: Target, no: set<nat>, x: Interval) {
    x.hint >= 0 && OfClass(t, x.hint, x.cls) && x.hint !in no && x.hint < |t.callee| && t.callee[x.hint]
  }

  predicate SlotInFrame(off: int, small: bool, vararg: bool, frame: int, save: int) {
    var base := if vararg then SAVE_AREA else 0;
    -(frame + base) <= off && off + Width(small) <= -(save + base) && Aligned(off, small)
  }

  // Pools, occupations and scan together.
  method Allocate(t: Target, pic: bool, gdTls: bool, vararg: bool, sret: bool, npos: nat, code: seq<MIns>, cand: seq<Interval>)
    returns (reg: seq<int>, slot: seq<int>, frame: int, used: set<nat>, save: int)
    requires WfTarget(t) && WfCode(code) && WfIntervals(cand)
    ensures Allocated(t, Excluded(t, pic, gdTls), vararg, sret, npos, code, cand, reg, slot, frame, used, save)
  {
    var pc0, px0 := PoolBuild(t, pic, gdTls, 0);
    var pc1, px1 := PoolBuild(t, pic, gdTls, 1);
    var fixed, calls := FillFixed(t, sret, npos, code);
    ghost var no := Excluded(t, pic, gdTls);
    hide *;
    ghost var v := Env.Env(t, no, [pc0, pc1], [px0, px1], fixed, calls, vararg, cand);
    PoolsTogether(v, sret, npos, code);
    var m := new Scanner(t, no, [pc0, pc1], [px0, px1], fixed, calls, vararg, cand);
    frame, save := m.Scan();
    reg, slot, used := m.reg, m.slot, m.used;
    AllocatedIs(v, sret, npos, code, reg, slot, frame, used, save);
  }

  lemma SuitsIsMayHold(v: Env, sret: bool, npos: nat, code: seq<MIns>, x: Interval, r: nat)
    requires WfEnv(v) && Suits(v, x, r) && !x.phislot
    requires IsFixed(v.t, sret, npos, code, v.fixed)
    requires forall p: nat :: p in v.calls <==> exists i :: 0 <= i < |code| && code[i].call && code[i].pos == p
    ensures MayHold(v.t, v.no, sret, npos, code, x, r)
  {
    hide Occupied;
    hide IsPool;
    forall p: nat | x.start <= p < x.end ensures !Occupied(v.t, sret, npos, code, r, p) {
      assert p in v.fixed[r] <==> Occupied(v.t, sret, npos, code, r, p);
    }
    forall i: nat | i < |code| && code[i].call && x.start <= code[i].pos < x.end ensures v.t.callee[r] {
      assert code[i].pos in v.calls;
    }
  }

  // The scan's own test says which registers may hold an interval.
  lemma MayIsHolders(v: Env, sret: bool, npos: nat, code: seq<MIns>)
    requires WfEnv(v) && IsFixed(v.t, sret, npos, code, v.fixed)
    requires forall p: nat :: p in v.calls <==> exists i :: 0 <= i < |code| && code[i].call && code[i].pos == p
    ensures May(v) == Holders(v.t, v.no, sret, npos, code, v.cand)
  {
    hide MayHold;
    hide MaySuit;
    hide IsFixed;
    hide IsPool;
    var may, may' := May(v), Holders(v.t, v.no, sret, npos, code, v.cand);
    forall j: nat | j < |v.cand| ensures may[j] == may'[j] {
      forall r: nat | r < NREG ensures r in may[j] <==> r in may'[j] {
        SuitIsHold(v, sret, npos, code, v.cand[j], r);
      }
    }
  }

  lemma SuitIsHold(v: Env, sret: bool, npos: nat, code: seq<MIns>, x: Interval, r: nat)
    requires WfEnv(v) && r < NREG && IsFixed(v.t, sret, npos, code, v.fixed)
    requires forall p: nat :: p in v.calls <==> exists i :: 0 <= i < |code| && code[i].call && code[i].pos == p
    ensures !x.phislot && MaySuit(v, x, r) <==> MayHold(v.t, v.no, sret, npos, code, x, r)
  {
    hide Occupied;
    hide IsPool;
    hide OfClass;
    forall p: nat ensures p in v.fixed[r] <==> Occupied(v.t, sret, npos, code, r, p) {
    }
    HitsIs(v.fixed[r], x.start, x.end);
    HitsIs(v.calls, x.start, x.end);
    assert Crosses(v, x) <==> exists i: nat :: i < |code| && code[i].call && x.start <= code[i].pos < x.end by {
      if i: nat :| i < |code| && code[i].call && x.start <= code[i].pos < x.end {
        assert code[i].pos in v.calls;
      }
    }
  }

  lemma HitsIs(ps: seq<nat>, s: nat, e: nat)
    ensures Hits(ps, s, e) <==> exists p: nat :: p in ps && s <= p < e
  {
    if p: nat :| p in ps && s <= p < e {
      var i :| 0 <= i < |ps| && ps[i] == p;
    }
    if i :| 0 <= i < |ps| && s <= ps[i] < e {
      assert ps[i] in ps;
    }
  }

  lemma HintIsSaved(v: Env, x: Interval, r: nat)
    requires WfEnv(v) && HintedAt(v, x, r)
    ensures SavedHint(v.t, v.no, x)
  {
    assert IsPool(v.t, v.no, x.cls, true, v.pc[x.cls], NREG);
  }

  lemma AllocatedIs(v: Env, sret: bool, npos: nat, code: seq<MIns>, reg: seq<int>, slot: seq<int>, frame: int, used: set<nat>, save: int)
    requires WfEnv(v) && ScanRight(v, reg, slot, used, frame, save)
    requires IsFixed(v.t, sret, npos, code, v.fixed)
    requires forall p: nat :: p in v.calls <==> exists i :: 0 <= i < |code| && code[i].call && code[i].pos == p
    ensures WfTarget(v.t) && Allocated(v.t, v.no, v.vararg, sret, npos, code, v.cand, reg, slot, frame, used, save)
  {
    hide Suits;
    hide MayHold;
    hide IsPool;
    hide IsFixed;
    hide Overlap;
    hide HintedAt;
    hide HintsOnly;
    hide SavedHint;
    hide SavedCount;
    hide SomeHistory;
    hide FrameTight;
    hide May;
    hide Holders;
    MayIsHolders(v, sret, npos, code);
    BaseIs(v);
    forall j: nat | j < |reg| && reg[j] >= 0 ensures MayHold(v.t, v.no, sret, npos, code, v.cand[j], reg[j]) {
      SuitsIsMayHold(v, sret, npos, code, v.cand[j], reg[j]);
    }
    forall j: nat, r: nat | j < |v.cand| && HintedAt(v, v.cand[j], r) ensures SavedHint(v.t, v.no, v.cand[j]) {
      HintIsSaved(v, v.cand[j], r);
    }
    if v.vararg && NoSavedHints(v) {
      VarargClean(v, reg, slot, used, frame, save);
    }
  }

  ghost predicate WfIntervals(cand: seq<Interval>) {
    && (forall i :: 0 <= i < |cand| ==> cand[i].cls < 2 && cand[i].start < cand[i].end && cand[i].hint < NREG)
    && (forall i, j :: 0 <= i < j < |cand| ==> cand[i].start <= cand[j].start)
  }

  lemma PoolsTogether(v: Env, sret: bool, npos: nat, code: seq<MIns>)
    requires WfTarget(v.t) && WfIntervals(v.cand) && |v.pc| == |v.px| == 2 && IsFixed(v.t, sret, npos, code, v.fixed)
    requires IsPool(v.t, v.no, 0, true, v.pc[0], NREG) && IsPool(v.t, v.no, 0, false, v.px[0], NREG)
    requires IsPool(v.t, v.no, 1, true, v.pc[1], NREG) && IsPool(v.t, v.no, 1, false, v.px[1], NREG)
    ensures WfEnv(v)
  {
    hide IsPool;
  }

  // ---- facts that unfold at once ----------------------------------------------------------

  lemma NotPhislot(t: Target, no: set<nat>, sret: bool, npos: nat, code: seq<MIns>, x: Interval, r: int)
    requires WfTarget(t) && MayHold(t, no, sret, npos, code, x, r)
    ensures !x.phislot && |t.callee| == NREG
  {
  }

  lemma BeyondIs(act: seq<Active>, s: nat)
    requires forall k :: 0 <= k < |act| ==> act[k].end > s
    ensures AllBeyond(act, s)
  {
  }

  lemma AlignedNotOdd(off: int, small: bool)
    requires Aligned(off, small)
    ensures off != -1
  {
  }

  lemma Multiple4(m: int)
    ensures (4 * m) % 4 == 0
  {
  }

  lemma Multiple8(m: int)
    ensures (8 * m) % 8 == 0
  {
  }

  lemma HintsMore(v: Env, used: set<nat>, i: nat, r: nat)
    requires WfEnv(v) && HintsOnly(v, used) && i < |v.cand| && r < NREG
    requires v.vararg && v.t.callee[r] ==> HintedAt(v, v.cand[i], r)
    ensures HintsOnly(v, used + {r})
  {
  }

  lemma RegLow(v: Env, x: Interval, r: nat)
    requires WfEnv(v) && Suits(v, x, r)
    ensures r < NREG == |v.t.callee|
  {
  }

  lemma LaterStart(v: Env, reg: seq<int>, slot: seq<int>, sl: Slots, act: seq<Active>, busy: seq<bool>, used: set<nat>, i: nat, s: nat, s': nat)
    requires SoFar(v, reg, slot, sl, act, busy, used, i, s) && s <= s'
    ensures SoFar(v, reg, slot, sl, act, busy, used, i, s')
  {
  }

  lemma StartSoFar(v: Env, reg: seq<int>, slot: seq<int>, busy: seq<bool>)
    requires WfEnv(v) && |reg| == |slot| == |v.cand| && |busy| == NREG
    requires forall j :: 0 <= j < |reg| ==> reg[j] == -1 && slot[j] == -1
    requires forall r :: 0 <= r < NREG ==> !busy[r]
    ensures SoFar(v, reg, slot, Slots.Slots(0, 0), [], busy, {}, 0, 0)
  {
  }

  lemma SuitableIs(v: Env, act: seq<Active>, k: nat, i: nat)
    requires k < |act| && i < |v.cand| && act[k].idx < |v.cand| && act[k].reg < |v.fixed|
    ensures CanYield(v, act, k, i) <==> Suitable(v, act, k, i)
    ensures Suitable(v, act, k, i) <==>
              && v.cand[act[k].idx].cls == v.cand[i].cls
              && !Hits(v.fixed[act[k].reg], v.cand[i].start, v.cand[i].end)
              && (Crosses(v, v.cand[i]) ==> InCallee(v.t, act[k].reg, v.cand[i].cls))
  {
  }

  lemma BaseIs(v: Env)
    ensures Base(v) == if v.vararg then SAVE_AREA else 0
  {
  }

  lemma CrossIs(v: Env, x: Interval)
    ensures Crosses(v, x) <==> Hits(v.calls, x.start, x.end)
  {
  }
}
