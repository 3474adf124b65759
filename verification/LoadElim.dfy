// opt/load.c, def within a block: the contents of a memory slice rebuilt from
// the stores and loads above it.
//
// Integer classes only.  A word is eight bytes (Bytes.dfy); the upper half of a
// Kw temporary holds anything.
module LoadElim {
  import opened Graph
  import opened Bytes
  import opened Alias

  datatype Cls = Kw | Kl

  // R is the source's empty reference; Num is an integer constant.
  datatype Ref = R | Tmp(t: nat) | Con(c: Word) | Num(n: nat)

  // What def looks at: loads, stores, calls, and other definitions.
  datatype Ins =
    | Ld(to: nat, cls: Cls, sz: nat, signed: bool, addr: Rec)
    | St(sz: nat, val: Ref, addr: Rec)
    | Call(res: Option<nat>)
    | Def(to: nat)

  // A slice: sz bytes at off from the object ref, to be seen in class cls.
  datatype Slice = Slice(ref: Rec, off: int, sz: nat, cls: Cls)

  // ---- running the block ---------------------------------------------------------------

  type Env = map<nat, Word>

  datatype State = State(env: Env, mem: int -> bv8)

  function Get(env: Env, t: nat): Word {
    if t in env then env[t] else ZERO
  }

  // A reference read in a class.
  function Read(env: Env, r: Ref, cls: Cls): Word {
    var w := match r
      case Tmp(t) => Get(env, t)
      case Con(c) => c
      case _ => ZERO;
    if cls.Kw? then Low(w) else w
  }

  // The low sz bytes, extended to class cls.
  function Ext(cls: Cls, sz: nat, signed: bool, w: Word): Word {
    var fill: bv8 := if signed && 0 < sz <= 8 && w[sz - 1] & 0x80 == 0x80 then 0xFF else 0;
    var top := if cls.Kw? then 4 else 8;
    seq(8, k requires 0 <= k < 8 => if k < sz && k < top then w[k] else if k < top then fill else 0)
  }

  // Everything fixed while the block runs: where things are, which addresses
  // belong to slots no call can reach, what Kw results leave in the upper half.
  datatype Ctx = Ctx(pl: Place, local: int -> bool, junk: nat -> Word, cls: seq<Cls>, code: seq<Ins>, tr: seq<State>)

  function DefOf(x: Ins): Option<nat> {
    match x
    case Ld(t, _, _, _, _) => Some(t)
    case St(_, _, _) => None
    case Call(r) => r
    case Def(t) => Some(t)
  }

  ghost predicate EnvKept(s: State, s': State, d: Option<nat>) {
    forall t: nat :: d != Some(t) ==> Get(s'.env, t) == Get(s.env, t)
  }

  ghost predicate Holds(w: Word, sz: nat, mem: int -> bv8, a: int) {
    forall k :: 0 <= k < sz && k < 8 ==> w[k] == mem(a + k)
  }

  // v is what a load leaves: the bytes w found in memory, extended.
  ghost predicate Loaded(w: Word, cls: Cls, sz: nat, signed: bool, v: Word, mem: int -> bv8, a: int) {
    Holds(w, sz, mem, a) && (if cls.Kw? then Low(v) else v) == Ext(cls, sz, signed, w)
  }

  ghost predicate SomeLoaded(cls: Cls, sz: nat, signed: bool, v: Word, mem: int -> bv8, a: int) {
    exists w: Word :: Loaded(w, cls, sz, signed, v, mem, a)
  }

  // One instruction, as the machine runs it.
  ghost predicate StepOk(c: Ctx, x: Ins, s: State, s': State) {
    && EnvKept(s, s', DefOf(x))
    && (match x
        case Ld(t, cls, sz, signed, a) =>
          && s'.mem == s.mem
          && SomeLoaded(cls, sz, signed, Get(s'.env, t), s.mem, Address(c.pl, a))
        case St(sz, v, a) =>
          var w := Read(s.env, v, if sz == 8 then Kl else Kw);
          && Holds(w, sz, s'.mem, Address(c.pl, a))
          && (forall p: int :: !(Address(c.pl, a) <= p < Address(c.pl, a) + sz) ==> s'.mem(p) == s.mem(p))
        case Call(_) => forall p: int :: c.local(p) ==> s'.mem(p) == s.mem(p)
        case Def(_) => s'.mem == s.mem)
  }

  predicate Fits(cls: seq<Cls>, r: Ref, k: Cls) {
    match r
    case R => false
    case Tmp(t) => t < |cls| && (k.Kw? || cls[t].Kl?)
    case Con(_) => true
    case Num(_) => false
  }

  predicate AddrOk(pl: Place, a: Rec, sz: nat) {
    Size(sz) && Address(pl, a) % sz == 0
  }

  // Typed, naturally aligned, and each temporary defined once and before its uses.
  ghost predicate InsOk(c: Ctx, x: Ins, j: nat) {
    && (DefOf(x).Some? ==> DefOf(x).value < |c.cls|)
    && (match x
        case Ld(t, cls, sz, _, a) => AddrOk(c.pl, a, sz) && c.cls[t] == cls && (sz == 8 ==> cls.Kl?)
        case St(sz, v, a) => AddrOk(c.pl, a, sz) && Fits(c.cls, v, if sz == 8 then Kl else Kw) && !DefinedFrom(c, v, j)
        case _ => true)
    && (DefOf(x).Some? ==> !DefinedFrom(c, Tmp(DefOf(x).value), j + 1))
  }

  ghost predicate DefinedFrom(c: Ctx, r: Ref, j: nat) {
    exists m: nat :: j <= m < |c.code| && r.Tmp? && DefOf(c.code[m]) == Some(r.t)
  }

  ghost predicate BlockOk(c: Ctx) {
    && |c.tr| == |c.code| + 1
    && (forall j: nat :: j < |c.code| ==> InsOk(c, c.code[j], j) && StepOk(c, c.code[j], c.tr[j], c.tr[j + 1]))
  }

  function At(c: Ctx, sl: Slice): int {
    Address(c.pl, sl.ref) + sl.off
  }

  ghost predicate SliceOk(c: Ctx, sl: Slice) {
    && Size(sl.sz) && At(c, sl) % sl.sz == 0 && (sl.sz == 8 ==> sl.cls.Kl?)
    && (forall j: nat :: j < |c.code| && (c.code[j].Ld? || c.code[j].St?) ==>
          Provenance(c.pl, sl.ref, sl.off, sl.sz, c.code[j].addr, c.code[j].sz))
    && (sl.ref.kind.ALoc? ==> forall p: int :: At(c, sl) <= p < At(c, sl) + sl.sz ==> c.local(p))
  }

  // ---- the insertion log -----------------------------------------------------------------

  datatype Op = Extuw | Shift(left: bool) | AndOp | OrOp

  datatype Insert = Insert(to: nat, cls: Cls, op: Op, a0: Ref, a1: Ref)

  function ShiftBy(v: Word, left: bool, r: Ref): Word {
    if r.Num? && r.n % 8 == 0 && r.n < 64 then (if left then Shl(v, r.n / 8) else Shr(v, r.n / 8)) else ZERO
  }

  function Result(env: Env, x: Insert): Word {
    match x.op
    case Extuw => Read(env, x.a0, Kw)
    case Shift(left) => ShiftBy(Read(env, x.a0, x.cls), left, x.a1)
    case AndOp => And(Read(env, x.a0, x.cls), Read(env, x.a1, x.cls))
    case OrOp => Or(Read(env, x.a0, x.cls), Read(env, x.a1, x.cls))
  }

  // A Kw result is good for its low half only.
  function Landed(w: Word, cls: Cls, junk: Word): Word {
    seq(8, k requires 0 <= k < 8 => if k < 4 || cls.Kl? then w[k] else junk[k])
  }

  // The inserted instructions run in the order of the log.
  function RunLog(junk: nat -> Word, log: seq<Insert>, env: Env): Env {
    if |log| == 0 then env
    else
      var e := RunLog(junk, log[..|log| - 1], env);
      var x := log[|log| - 1];
      e[x.to := Landed(Result(e, x), x.cls, junk(x.to))]
  }

  lemma RunSnoc(junk: nat -> Word, log: seq<Insert>, x: Insert, env: Env)
    ensures RunLog(junk, log + [x], env) ==
              RunLog(junk, log, env)[x.to := Landed(Result(RunLog(junk, log, env), x), x.cls, junk(x.to))]
  {
    assert (log + [x])[..|log|] == log;
  }

  // The log has a mask among the instructions from n on.
  predicate Masks(log: seq<Insert>, n: nat) {
    exists i :: n <= i < |log| && log[i].op.AndOp?
  }

  lemma MasksNone(log: seq<Insert>)
    ensures !Masks(log, |log|)
  {
  }

  lemma MasksOne(log: seq<Insert>, x: Insert)
    ensures Masks(log + [x], |log|) <==> x.op.AndOp?
  {
    assert (log + [x])[|log|] == x;
  }

  lemma MasksThen(log0: seq<Insert>, log1: seq<Insert>, log2: seq<Insert>)
    requires log0 <= log1 <= log2
    ensures Masks(log2, |log0|) <==> Masks(log1, |log0|) || Masks(log2, |log1|)
  {
    if i :| |log0| <= i < |log2| && log2[i].op.AndOp? {
      assert i < |log1| ==> log1[i] == log2[i];
    }
    if i :| |log0| <= i < |log1| && log1[i].op.AndOp? {
      assert log1[i] == log2[i];
    }
  }

  // ---- what def promises -------------------------------------------------------------------

  function ClsOf(sl: Slice): Cls {
    if sl.sz > 4 then Kl else Kw
  }

  // Read in class cls, r has the wanted bytes of the slice as they are in memory
  // at the end of the block, and zeros in the slice's other bytes.
  ghost predicate Served(c: Ctx, env: Env, cls: seq<Cls>, r: Ref, k: Cls, sl: Slice, msk: Word)
    requires |c.tr| == |c.code| + 1
  {
    && Fits(cls, r, k)
    && (forall i :: 0 <= i < sl.sz && i < 8 ==>
          Read(env, r, k)[i] == if Has(msk, i) then c.tr[|c.code|].mem(At(c, sl) + i) else 0)
  }

  ghost predicate MaskOk(sl: Slice, msk: Word) {
    ByteWise(msk) && forall k :: Has(msk, k) ==> k < sl.sz
  }

  // Nothing from position j on changes a wanted byte.
  ghost predicate SameFrom(c: Ctx, sl: Slice, msk: Word, j: nat)
    requires j < |c.tr| && |c.tr| == |c.code| + 1
  {
    forall k :: Has(msk, k) ==> c.tr[|c.code|].mem(At(c, sl) + k) == c.tr[j].mem(At(c, sl) + k)
  }

  // ---- when the search succeeds --------------------------------------------------------------

  // Going up past x is no use: it defines the pointer the slice is based on, it is a call that
  // can reach the object, or a store that may or may not hit the slice.
  predicate Blocks(sl: Slice, x: Ins) {
    || (!sl.ref.kind.ACon? && !sl.ref.kind.ASym? && DefOf(x) == Some(sl.ref.base))
    || (x.Call? && !sl.ref.kind.ALoc?)
    || (x.St? && AliasOf(sl.ref, sl.off, sl.sz, x.addr, x.sz).0.MayAlias?)
  }

  // x is known to access byte k of the slice.
  predicate Supplies(sl: Slice, x: Ins, k: int) {
    && (x.Ld? || x.St?) && AliasOf(sl.ref, sl.off, sl.sz, x.addr, x.sz).0.MustAlias?
    && 0 <= k < sl.sz && 0 <= AliasOf(sl.ref, sl.off, sl.sz, x.addr, x.sz).1 + k < x.sz
  }

  ghost predicate SuppliedIn(code: seq<Ins>, sl: Slice, k: int, m: nat, j: nat) {
    exists p: nat :: m <= p < j && p < |code| && Supplies(sl, code[p], k)
  }

  ghost predicate ClearIn(code: seq<Ins>, sl: Slice, m: nat, j: nat) {
    forall p: nat :: m <= p < j && p < |code| ==> !Blocks(sl, code[p])
  }

  // Some bytes are wanted, and going up from j accesses to all of them are met before
  // anything that blocks the way.
  ghost predicate Findable(code: seq<Ins>, sl: Slice, msk: Word, j: nat) {
    && (exists k :: Has(msk, k))
    && (exists m: nat :: m <= j && ClearIn(code, sl, m, j) && forall k :: Has(msk, k) ==> SuppliedIn(code, sl, k, m, j))
  }

  // From i up to j nothing blocks, and nothing wanted is supplied.
  ghost predicate NothingYet(code: seq<Ins>, sl: Slice, msk: Word, i: nat, j: nat) {
    ClearIn(code, sl, i, j) && forall k :: Has(msk, k) ==> !SuppliedIn(code, sl, k, i, j)
  }

  lemma NothingMore(code: seq<Ins>, sl: Slice, msk: Word, i: nat, j: nat)
    requires i < j <= |code| && NothingYet(code, sl, msk, i + 1, j)
    requires !Blocks(sl, code[i]) && forall k :: Has(msk, k) ==> !Supplies(sl, code[i], k)
    ensures NothingYet(code, sl, msk, i, j)
  {
    forall p: nat | i <= p < j && p < |code| ensures !Blocks(sl, code[p]) {
      assert p != i ==> i + 1 <= p;
    }
    forall k | SuppliedIn(code, sl, k, i, j) ensures Supplies(sl, code[i], k) || SuppliedIn(code, sl, k, i + 1, j) {
      var p: nat :| i <= p < j && p < |code| && Supplies(sl, code[p], k);
      assert p == i || i + 1 <= p;
    }
  }

  // A search that found nothing so far and is blocked, or is at the top, fails.
  lemma NotFindable(code: seq<Ins>, sl: Slice, msk: Word, i: nat, j: nat)
    requires i <= j <= |code| && NothingYet(code, sl, msk, i, j) && (i > 0 ==> Blocks(sl, code[i - 1]))
    ensures !Findable(code, sl, msk, j)
  {
    forall k, m: nat | SuppliedIn(code, sl, k, m, j) && !SuppliedIn(code, sl, k, i, j) ensures m < i {
      var p: nat :| m <= p < j && p < |code| && Supplies(sl, code[p], k);
    }
  }

  // With i the first to supply any wanted byte, the search succeeds exactly when it does so
  // for the other bytes from i on.
  lemma FindRest(code: seq<Ins>, sl: Slice, msk: Word, rest: Word, i: nat, j: nat)
    requires i < j <= |code| && NothingYet(code, sl, msk, i + 1, j) && !Blocks(sl, code[i])
    requires exists k :: Has(msk, k)
    requires forall k :: Has(rest, k) <==> Has(msk, k) && !Supplies(sl, code[i], k)
    ensures Findable(code, sl, msk, j) <==> (forall k :: !Has(rest, k)) || Findable(code, sl, rest, i)
  {
    if Findable(code, sl, msk, j) {
      var k0 :| Has(msk, k0);
      var m: nat :| m <= j && ClearIn(code, sl, m, j) && forall k :: Has(msk, k) ==> SuppliedIn(code, sl, k, m, j);
      FoundBelow(code, sl, k0, m, i, j);
      if k1 :| Has(rest, k1) {
        forall k | Has(rest, k) ensures SuppliedIn(code, sl, k, m, i) {
          FoundBelow(code, sl, k, m, i, j);
          var p: nat :| m <= p <= i && p < |code| && Supplies(sl, code[p], k);
          assert p != i;
        }
        assert ClearIn(code, sl, m, i);
        assert Findable(code, sl, rest, i);
      }
    } else if Findable(code, sl, rest, i) {
      var m: nat :| m <= i && ClearIn(code, sl, m, i) && forall k :: Has(rest, k) ==> SuppliedIn(code, sl, k, m, i);
      FoundFrom(code, sl, msk, rest, m, i, j);
    } else if forall k :: !Has(rest, k) {
      FoundFrom(code, sl, msk, rest, i, i, j);
    }
  }

  lemma FoundBelow(code: seq<Ins>, sl: Slice, k: int, m: nat, i: nat, j: nat)
    requires i < j <= |code| && SuppliedIn(code, sl, k, m, j) && !SuppliedIn(code, sl, k, i + 1, j)
    ensures m <= i && exists p: nat :: m <= p <= i && p < |code| && Supplies(sl, code[p], k)
  {
    var p: nat :| m <= p < j && p < |code| && Supplies(sl, code[p], k);
    assert p <= i;
  }

  lemma FoundFrom(code: seq<Ins>, sl: Slice, msk: Word, rest: Word, m: nat, i: nat, j: nat)
    requires m <= i < j <= |code| && ClearIn(code, sl, m, i) && ClearIn(code, sl, i + 1, j) && !Blocks(sl, code[i])
    requires exists k :: Has(msk, k)
    requires forall k :: Has(rest, k) ==> SuppliedIn(code, sl, k, m, i)
    requires forall k :: Has(msk, k) ==> Has(rest, k) || Supplies(sl, code[i], k)
    ensures Findable(code, sl, msk, j)
  {
    forall p: nat | m <= p < j && p < |code| ensures !Blocks(sl, code[p]) {
      assert p < i || p == i || i + 1 <= p;
    }
    forall k | Has(msk, k) ensures SuppliedIn(code, sl, k, m, j) {
      if Has(rest, k) {
        var p: nat :| m <= p < i && p < |code| && Supplies(sl, code[p], k);
        assert Supplies(sl, code[p], k);
      }
    }
    assert ClearIn(code, sl, m, j);
  }

  // What the code computes for a must-alias access says which bytes it supplies.
  lemma CoveredIsSupplied(c: Ctx, sl: Slice, j: nat, off: int, m1: Word)
    requires Hit(c, sl, j, off) && CoverMask(c, sl, j, m1)
    requires AliasOf(sl.ref, sl.off, sl.sz, c.code[j].addr, c.code[j].sz) == (MustAlias, off)
    ensures forall k :: Has(m1, k) <==> Supplies(sl, c.code[j], k)
  {
  }

  lemma MustNotBlock(sl: Slice, x: Ins)
    requires (x.Ld? || x.St?) && AliasOf(sl.ref, sl.off, sl.sz, x.addr, x.sz).0.MustAlias? && !Kills(DefOf(x), sl.ref)
    ensures !Blocks(sl, x)
  {
  }

  lemma PassedOver(sl: Slice, x: Ins)
    requires !Kills(DefOf(x), sl.ref) && !(x.Call? && !sl.ref.kind.ALoc?)
    requires x.Ld? || x.St? ==> !AliasOf(sl.ref, sl.off, sl.sz, x.addr, x.sz).0.MustAlias?
    requires x.St? ==> !AliasOf(sl.ref, sl.off, sl.sz, x.addr, x.sz).0.MayAlias?
    ensures !Blocks(sl, x) && forall k :: !Supplies(sl, x, k)
  {
  }

  lemma StoppedAt(sl: Slice, x: Ins)
    requires Kills(DefOf(x), sl.ref) || (x.Call? && !sl.ref.kind.ALoc?)
             || (x.St? && AliasOf(sl.ref, sl.off, sl.sz, x.addr, x.sz).0.MayAlias?)
    ensures Blocks(sl, x)
  {
  }

  // ---- values keep until the end of the block -------------------------------------------------

  lemma {:induction false} Kept(c: Ctx, t: nat, j: nat)
    requires BlockOk(c) && j <= |c.code| && !DefinedFrom(c, Tmp(t), j)
    ensures Get(c.tr[|c.code|].env, t) == Get(c.tr[j].env, t)
    decreases |c.code| - j
  {
    if j < |c.code| {
      assert DefOf(c.code[j]) != Some(t) by {
        if DefOf(c.code[j]) == Some(t) {
          assert DefinedFrom(c, Tmp(t), j);
        }
      }
      assert StepOk(c, c.code[j], c.tr[j], c.tr[j + 1]);
      assert !DefinedFrom(c, Tmp(t), j + 1);
      Kept(c, t, j + 1);
    }
  }

  lemma ReadKept(c: Ctx, r: Ref, k: Cls, j: nat)
    requires BlockOk(c) && j <= |c.code| && !DefinedFrom(c, r, j)
    ensures Read(c.tr[|c.code|].env, r, k) == Read(c.tr[j].env, r, k)
  {
    if r.Tmp? {
      Kept(c, r.t, j);
    }
  }

  // The reference a load or store offers, and what it holds of memory just after.
  function Offered(x: Ins): Ref
    requires x.Ld? || x.St?
  {
    if x.Ld? then Tmp(x.to) else x.val
  }

  lemma OfferedHolds(c: Ctx, j: nat)
    requires BlockOk(c) && j < |c.code| && (c.code[j].Ld? || c.code[j].St?)
    ensures var x := c.code[j];
            && Fits(c.cls, Offered(x), if x.sz == 8 then Kl else Kw)
            && Holds(Read(c.tr[|c.code|].env, Offered(x), if x.sz == 8 then Kl else Kw), x.sz, c.tr[j + 1].mem, Address(c.pl, x.addr))
  {
    var x := c.code[j];
    assert InsOk(c, x, j) && StepOk(c, x, c.tr[j], c.tr[j + 1]);
    if x.Ld? {
      ReadKept(c, Tmp(x.to), if x.sz == 8 then Kl else Kw, j + 1);
      LoadedBytes(c, x, c.tr[j], c.tr[j + 1]);
    } else {
      ReadKept(c, x.val, if x.sz == 8 then Kl else Kw, j);
    }
  }

  lemma LoadedBytes(c: Ctx, x: Ins, s: State, s': State)
    requires x.Ld? && StepOk(c, x, s, s') && Size(x.sz) && (x.sz == 8 ==> x.cls.Kl?)
    ensures Holds(Read(s'.env, Tmp(x.to), if x.sz == 8 then Kl else Kw), x.sz, s'.mem, Address(c.pl, x.addr))
  {
    var w: Word :| Loaded(w, x.cls, x.sz, x.signed, Get(s'.env, x.to), s.mem, Address(c.pl, x.addr));
    forall k | 0 <= k < x.sz ensures Read(s'.env, Tmp(x.to), if x.sz == 8 then Kl else Kw)[k] == w[k] {
      assert Ext(x.cls, x.sz, x.signed, w)[k] == w[k];
    }
  }

  // ---- going back over one instruction -------------------------------------------------------

  lemma PassQuiet(c: Ctx, sl: Slice, msk: Word, j: nat)
    requires BlockOk(c) && SliceOk(c, sl) && MaskOk(sl, msk) && j < |c.code| && SameFrom(c, sl, msk, j + 1)
    requires c.code[j].Def? || c.code[j].Ld? || (c.code[j].Call? && sl.ref.kind.ALoc?)
    ensures SameFrom(c, sl, msk, j)
  {
    assert StepOk(c, c.code[j], c.tr[j], c.tr[j + 1]);
    PassOver(c, sl, msk, j);
  }

  lemma PassApart(c: Ctx, sl: Slice, msk: Word, j: nat)
    requires BlockOk(c) && SliceOk(c, sl) && MaskOk(sl, msk) && j < |c.code| && SameFrom(c, sl, msk, j + 1)
    requires c.code[j].St?
    requires forall k :: Has(msk, k) ==> Apart(At(c, sl) + k, 1, Address(c.pl, c.code[j].addr), c.code[j].sz)
    ensures SameFrom(c, sl, msk, j)
  {
    assert StepOk(c, c.code[j], c.tr[j], c.tr[j + 1]);
    PassOver(c, sl, msk, j);
  }

  // The bytes of the slice that an access covers.
  predicate Covers(c: Ctx, sl: Slice, x: Ins, k: int)
    requires x.Ld? || x.St?
  {
    0 <= k < sl.sz && Address(c.pl, x.addr) <= At(c, sl) + k < Address(c.pl, x.addr) + x.sz
  }

  // msk1: that set as the code computes it from delta.
  function Covering(off: int, sz: nat, slsz: nat): Word
    requires -8 < off < 8
  {
    if off < 0 then And(Shl(Mask(sz), -off), Mask(slsz)) else And(Shr(Mask(sz), off), Mask(slsz))
  }

  // The placed value is used without a mask: every covered byte is wanted and the access
  // seems to reach the end of the slice.
  predicate LeftUnmasked(off: int, sz: nat, slsz: nat, m1: Word, msk: Word) {
    And(m1, msk) == m1 && (if off < 0 then -off else off) + sz >= slsz
  }

  // m has exactly the bytes that instruction j covers.
  ghost predicate CoverMask(c: Ctx, sl: Slice, j: nat, m: Word)
    requires j < |c.code| && (c.code[j].Ld? || c.code[j].St?)
  {
    ByteWise(m) && forall k :: Has(m, k) <==> Covers(c, sl, c.code[j], k)
  }

  lemma CoveringIs(c: Ctx, sl: Slice, x: Ins, off: int)
    requires x.Ld? || x.St?
    requires Size(sl.sz) && Size(x.sz) && -8 < off < 8 && off == At(c, sl) - Address(c.pl, x.addr)
    ensures MaskOk(sl, Covering(off, x.sz, sl.sz))
    ensures forall k :: Has(Covering(off, x.sz, sl.sz), k) <==> Covers(c, sl, x, k)
  {
    var m := if off < 0 then Shl(Mask(x.sz), -off) else Shr(Mask(x.sz), off);
    HasAnd(m, Mask(sl.sz));
  }

  // ---- growing the log ------------------------------------------------------------------------

  // The environment the part of the log from base on builds at the end of the block.
  function EnvOf(c: Ctx, log: seq<Insert>, base: nat): Env
    requires base <= |log| && |c.tr| > |c.code|
  {
    RunLog(c.junk, log[base..], c.tr[|c.code|].env)
  }

  // Later temporaries leave earlier ones alone.
  ghost predicate Grown(cls0: seq<Cls>, env0: Env, cls: seq<Cls>, env: Env) {
    cls0 <= cls && forall t: nat :: t < |cls0| ==> Get(env, t) == Get(env0, t)
  }

  lemma ServedKept(c: Ctx, cls0: seq<Cls>, env0: Env, cls: seq<Cls>, env: Env, r: Ref, k: Cls, sl: Slice, msk: Word)
    requires |c.tr| == |c.code| + 1 && Grown(cls0, env0, cls, env) && Served(c, env0, cls0, r, k, sl, msk)
    ensures Served(c, env, cls, r, k, sl, msk)
  {
    RefKept(cls0, env0, cls, env, r, k);
  }

  ghost predicate LogOk(c: Ctx, log: seq<Insert>, base: nat, cls: seq<Cls>) {
    && BlockOk(c) && base <= |log|
    && Grown(c.cls, c.tr[|c.code|].env, cls, EnvOf(c, log, base))
  }

  lemma LogIns(c: Ctx, log: seq<Insert>, base: nat, cls: seq<Cls>, k: Cls, op: Op, a0: Ref, a1: Ref)
    requires LogOk(c, log, base, cls) && |c.tr| == |c.code| + 1 && base <= |log|
    ensures var x := Insert.Insert(|cls|, k, op, a0, a1);
            var env, env' := EnvOf(c, log, base), EnvOf(c, log + [x], base);
            && LogOk(c, log + [x], base, cls + [k])
            && Grown(cls, env, cls + [k], env')
            && Get(env', |cls|) == Landed(Result(env, x), k, c.junk(|cls|))
            && Fits(cls + [k], Tmp(|cls|), k)
  {
    hide BlockOk;
    hide Result;
    hide Landed;
    var x := Insert.Insert(|cls|, k, op, a0, a1);
    assert (log + [x])[base..] == log[base..] + [x];
    RunSnoc(c.junk, log[base..], x, c.tr[|c.code|].env);
  }

  // ---- what r holds on the way through def --------------------------------------------------------

  // The covered bytes are in place in r, read in class k; when the access does
  // not start the slice, the bytes in front of it are zero.
  ghost predicate InPlace(c: Ctx, env: Env, cls: seq<Cls>, r: Ref, k: Cls, sl: Slice, x: Ins, j: nat)
    requires (x.Ld? || x.St?) && j + 1 < |c.tr|
  {
    && Fits(cls, r, k)
    && (forall i :: 0 <= i < 8 && Covers(c, sl, x, i) ==>
          (k.Kw? ==> i < 4) && Read(env, r, k)[i] == c.tr[j + 1].mem(At(c, sl) + i))
    && (forall i :: 0 <= i < 8 && At(c, sl) + i < Address(c.pl, x.addr) && (k.Kw? ==> i < 4) ==> Read(env, r, k)[i] == 0)
  }

  lemma OfferedInPlace(c: Ctx, log: seq<Insert>, base: nat, cls: seq<Cls>, sl: Slice, j: nat)
    requires LogOk(c, log, base, cls) && SliceOk(c, sl) && j < |c.code| && (c.code[j].Ld? || c.code[j].St?)
    requires At(c, sl) == Address(c.pl, c.code[j].addr)
    ensures |c.tr| == |c.code| + 1
    ensures InPlace(c, EnvOf(c, log, base), cls, Offered(c.code[j]), if c.code[j].sz == 8 then Kl else Kw, sl, c.code[j], j)
  {
    hide StepOk;
    hide SliceOk;
    hide Read;
    hide EnvOf;
    var x := c.code[j];
    OfferedHolds(c, j);
    assert InsOk(c, x, j);
    hide InsOk;
    RefKept(c.cls, c.tr[|c.code|].env, cls, EnvOf(c, log, base), Offered(x), if x.sz == 8 then Kl else Kw);
    HeldInPlace(c, EnvOf(c, log, base), cls, Offered(x), if x.sz == 8 then Kl else Kw, sl, j);
  }

  // The class def shifts in.
  function ShiftCls(sl: Slice, off: int): Cls {
    if off > 0 && off + sl.sz > 4 then Kl else ClsOf(sl)
  }

  // r is the offered value, cast for the shift and shifted.
  lemma ShiftedInPlace(c: Ctx, sl: Slice, j: nat, off: int, env: Env, cls: seq<Cls>, v: Word, r: Ref, k: Cls)
    requires SliceOk(c, sl) && Hit(c, sl, j, off) && j + 1 < |c.tr| && off != 0
    requires k == ShiftCls(sl, off) && Fits(cls, r, k)
    requires forall i: nat :: i < c.code[j].sz && (k.Kw? ==> i < 4) ==> v[i] == c.tr[j + 1].mem(Address(c.pl, c.code[j].addr) + i)
    requires forall i :: 0 <= i < 8 && (k.Kl? || i < 4) ==>
               Read(env, r, k)[i] == (if off < 0 then Shl(v, -off) else Shr(v, off))[i]
    ensures InPlace(c, env, cls, r, k, sl, c.code[j], j)
  {
    hide *;
    HitParts(c, sl, j, off);
    SizeOf(c, sl);
    var w := if off < 0 then Shl(v, -off) else Shr(v, off);
    forall i: nat | i < 8 && Covers(c, sl, c.code[j], i)
      ensures (k.Kw? ==> i < 4) && w[i] == c.tr[j + 1].mem(At(c, sl) + i)
    {
      CoveredAt(c, sl, c.code[j], off, k, i);
      ShiftedByte(v, off, i);
      assert Address(c.pl, c.code[j].addr) + (i + off) == At(c, sl) + i;
    }
    forall i: nat | i < 8 && At(c, sl) + i < Address(c.pl, c.code[j].addr) ensures w[i] == 0 {
      ShiftedByte(v, off, i);
    }
    InPlaceIs(c, env, cls, r, k, sl, j, w);
  }

  lemma InPlaceIs(c: Ctx, env: Env, cls: seq<Cls>, r: Ref, k: Cls, sl: Slice, j: nat, w: Word)
    requires j < |c.code| && j + 1 < |c.tr| && (c.code[j].Ld? || c.code[j].St?) && Fits(cls, r, k)
    requires forall i: nat :: i < 8 && Covers(c, sl, c.code[j], i) ==> (k.Kw? ==> i < 4) && w[i] == c.tr[j + 1].mem(At(c, sl) + i)
    requires forall i: nat :: i < 8 && At(c, sl) + i < Address(c.pl, c.code[j].addr) ==> w[i] == 0
    requires forall i :: 0 <= i < 8 && (k.Kl? || i < 4) ==> Read(env, r, k)[i] == w[i]
    ensures InPlace(c, env, cls, r, k, sl, c.code[j], j)
  {
    hide Read;
    hide Covers;
    hide Fits;
  }

  // In a wider class, what is in place stays in place.
  lemma NarrowRead(c: Ctx, env: Env, cls: seq<Cls>, r: Ref, sl: Slice, x: Ins, j: nat)
    requires (x.Ld? || x.St?) && j + 1 < |c.tr| && sl.sz <= 4
    requires InPlace(c, env, cls, r, Kl, sl, x, j)
    ensures InPlace(c, env, cls, r, Kw, sl, x, j)
  {
    ReadLow(env, r);
    var w := Read(env, r, Kl);
    forall i | 0 <= i < 4 ensures Read(env, r, Kw)[i] == w[i] {
    }
  }

  // No masking needed: the covered bytes are all wanted and the rest is zero.
  lemma UnmaskedServes(c: Ctx, env: Env, cls: seq<Cls>, r: Ref, sl: Slice, msk: Word, j: nat, off: int, m1: Word)
    requires BlockOk(c) && SliceOk(c, sl) && MaskOk(sl, msk) && j < |c.code| && (c.code[j].Ld? || c.code[j].St?)
    requires Size(c.code[j].sz) && off == At(c, sl) - Address(c.pl, c.code[j].addr) && -8 < off < 8
    requires off > 0 ==> off + sl.sz <= c.code[j].sz
    requires SameFrom(c, sl, msk, j + 1) && InPlace(c, env, cls, r, ClsOf(sl), sl, c.code[j], j)
    requires CoverMask(c, sl, j, m1)
    requires And(m1, msk) == m1 && (if off < 0 then -off else off) + c.code[j].sz >= sl.sz
    ensures Served(c, env, cls, r, ClsOf(sl), sl, And(m1, msk))
  {
    HasAnd(m1, msk);
  }

  // Read in class k, r is w with the bytes outside m cleared.
  ghost predicate Anded(env: Env, r: Ref, k: Cls, w: Word, m: Word) {
    forall i :: 0 <= i < 8 && (k.Kl? || i < 4) ==> Read(env, r, k)[i] == w[i] & m[i]
  }

  // What a reference is worth after a cast to class k.
  function CastWord(env: Env, cls: seq<Cls>, r: Ref, k: Cls): Word {
    if Fits(cls, r, k) then Read(env, r, k) else Read(env, r, Kw)
  }

  lemma CastInPlace(c: Ctx, env: Env, cls: seq<Cls>, r: Ref, sl: Slice, x: Ins, j: nat, k: Cls, i: nat)
    requires (x.Ld? || x.St?) && j + 1 < |c.tr| && i < 8 && Covers(c, sl, x, i)
    requires InPlace(c, env, cls, r, k, sl, x, j)
    ensures CastWord(env, cls, r, ClsOf(sl))[i] == c.tr[j + 1].mem(At(c, sl) + i)
  {
    ReadLow(env, r);
  }

  // Masking leaves exactly the covered wanted bytes.
  lemma MaskedServes(c: Ctx, env: Env, cls: seq<Cls>, r: Ref, env': Env, cls': seq<Cls>, r': Ref, sl: Slice, msk: Word, j: nat, m1: Word, k: Cls)
    requires BlockOk(c) && SliceOk(c, sl) && MaskOk(sl, msk) && j < |c.code| && (c.code[j].Ld? || c.code[j].St?)
    requires SameFrom(c, sl, msk, j + 1) && InPlace(c, env, cls, r, k, sl, c.code[j], j)
    requires CoverMask(c, sl, j, m1)
    requires Fits(cls', r', ClsOf(sl))
    requires Anded(env', r', ClsOf(sl), CastWord(env, cls, r, ClsOf(sl)), And(m1, msk))
    ensures Served(c, env', cls', r', ClsOf(sl), sl, And(m1, msk))
  {
    hide *;
    CoverMaskAt(c, sl, j, m1);
    MasksOk(c, sl, msk, m1);
    forall i: nat | i < sl.sz
      ensures Read(env', r', ClsOf(sl))[i] == if Has(And(m1, msk), i) then c.tr[|c.code|].mem(At(c, sl) + i) else 0
    {
      ClsCovers(sl, i);
      AndedAt(env', r', ClsOf(sl), CastWord(env, cls, r, ClsOf(sl)), And(m1, msk), i);
      MaskedByte(c, env, cls, r, sl, msk, j, m1, k, i);
    }
    ServedIs(c, env', cls', r', ClsOf(sl), sl, And(m1, msk));
  }

  lemma MasksOk(c: Ctx, sl: Slice, msk: Word, m1: Word)
    requires MaskOk(sl, msk) && ByteWise(m1) && SliceOk(c, sl) && BlockOk(c)
    ensures ByteWise(msk) && ByteWise(And(m1, msk)) && sl.sz <= 8 && Size(sl.sz) && |c.tr| == |c.code| + 1
    ensures forall k :: Has(And(m1, msk), k) <==> Has(m1, k) && Has(msk, k)
  {
    HasAnd(m1, msk);
  }

  lemma MaskedByte(c: Ctx, env: Env, cls: seq<Cls>, r: Ref, sl: Slice, msk: Word, j: nat, m1: Word, k: Cls, i: nat)
    requires |c.tr| == |c.code| + 1 && j < |c.code| && (c.code[j].Ld? || c.code[j].St?) && i < sl.sz <= 8
    requires SameFrom(c, sl, msk, j + 1) && InPlace(c, env, cls, r, k, sl, c.code[j], j)
    requires ByteWise(m1) && ByteWise(msk) && ByteWise(And(m1, msk))
    requires Has(And(m1, msk), i) <==> Has(m1, i) && Has(msk, i)
    requires Has(m1, i) <==> Covers(c, sl, c.code[j], i)
    ensures CastWord(env, cls, r, ClsOf(sl))[i] & And(m1, msk)[i]
              == if Has(And(m1, msk), i) then c.tr[|c.code|].mem(At(c, sl) + i) else 0
  {
    hide CastWord;
    hide InPlace;
    hide ClsOf;
    ByteAnd(CastWord(env, cls, r, ClsOf(sl))[i], And(m1, msk)[i]);
    if Has(And(m1, msk), i) {
      CastInPlace(c, env, cls, r, sl, c.code[j], j, k, i);
    }
  }

  // The two halves of the mask put together.
  lemma OrServes(c: Ctx, env: Env, cls: seq<Cls>, r: Ref, r1: Ref, env': Env, cls': seq<Cls>, r': Ref, sl: Slice, msk: Word, m1: Word)
    requires |c.tr| == |c.code| + 1 && ByteWise(m1) && ByteWise(msk) && Size(sl.sz)
    requires Served(c, env, cls, r, ClsOf(sl), sl, And(m1, msk)) && Served(c, env, cls, r1, ClsOf(sl), sl, And(msk, Not(m1)))
    requires Fits(cls', r', ClsOf(sl))
    requires forall i :: 0 <= i < sl.sz ==>
               Read(env', r', ClsOf(sl))[i] == Read(env, r, ClsOf(sl))[i] | Read(env, r1, ClsOf(sl))[i]
    ensures Served(c, env', cls', r', ClsOf(sl), sl, msk)
  {
    HasAnd(m1, msk);
    HasMinus(msk, m1);
    forall i | 0 <= i < sl.sz
      ensures Read(env', r', ClsOf(sl))[i] == if Has(msk, i) then c.tr[|c.code|].mem(At(c, sl) + i) else 0
    {
      ByteOr(Read(env, r, ClsOf(sl))[i], Read(env, r1, ClsOf(sl))[i]);
    }
  }

  // Nothing of the mask is left over.
  lemma WholeServes(c: Ctx, env: Env, cls: seq<Cls>, r: Ref, sl: Slice, msk: Word, m1: Word)
    requires |c.tr| == |c.code| + 1 && ByteWise(m1) && ByteWise(msk)
    requires And(msk, Not(m1)) == ZERO && Served(c, env, cls, r, ClsOf(sl), sl, And(m1, msk))
    ensures Served(c, env, cls, r, ClsOf(sl), sl, msk)
  {
    HasAnd(m1, msk);
    HasMinus(msk, m1);
    MaskEmpty(And(msk, Not(m1)));
  }

  // What is left to find is not in the instruction just used.
  lemma RestBelow(c: Ctx, sl: Slice, msk: Word, j: nat, m1: Word)
    requires BlockOk(c) && SliceOk(c, sl) && MaskOk(sl, msk) && j < |c.code| && SameFrom(c, sl, msk, j + 1)
    requires c.code[j].Ld? || c.code[j].St?
    requires CoverMask(c, sl, j, m1)
    ensures MaskOk(sl, And(msk, Not(m1))) && SameFrom(c, sl, And(msk, Not(m1)), j)
  {
    var rest := And(msk, Not(m1));
    HasMinus(msk, m1);
    if c.code[j].St? {
      PassApart(c, sl, rest, j);
    } else {
      PassQuiet(c, sl, rest, j);
    }
  }

  // An access that covers no wanted byte.
  lemma NoneWanted(c: Ctx, sl: Slice, msk: Word, j: nat, m1: Word)
    requires BlockOk(c) && SliceOk(c, sl) && MaskOk(sl, msk) && j < |c.code| && SameFrom(c, sl, msk, j + 1)
    requires c.code[j].Ld? || c.code[j].St?
    requires CoverMask(c, sl, j, m1)
    requires And(m1, msk) == ZERO
    ensures SameFrom(c, sl, msk, j)
  {
    HasAnd(m1, msk);
    MaskEmpty(And(m1, msk));
    if c.code[j].St? {
      PassApart(c, sl, msk, j);
    } else {
      PassQuiet(c, sl, msk, j);
    }
  }

  lemma NoAliasPass(c: Ctx, sl: Slice, msk: Word, j: nat)
    requires BlockOk(c) && SliceOk(c, sl) && MaskOk(sl, msk) && j < |c.code| && SameFrom(c, sl, msk, j + 1)
    requires c.code[j].Ld? || c.code[j].St?
    requires AliasOf(sl.ref, sl.off, sl.sz, c.code[j].addr, c.code[j].sz).0.NoAlias?
    ensures SameFrom(c, sl, msk, j)
  {
    AliasSound(c.pl, sl.ref, sl.off, sl.sz, c.code[j].addr, c.code[j].sz);
    if c.code[j].St? {
      PassApart(c, sl, msk, j);
    } else {
      PassQuiet(c, sl, msk, j);
    }
  }

  // What MustAlias lets def assume.
  ghost predicate Hit(c: Ctx, sl: Slice, j: nat, off: int) {
    && j < |c.code| && (c.code[j].Ld? || c.code[j].St?)
    && Size(c.code[j].sz) && off == At(c, sl) - Address(c.pl, c.code[j].addr) && -8 < off < 8
    && (off > 0 ==> off + sl.sz <= c.code[j].sz)
    && (off < 0 ==> -off + c.code[j].sz <= sl.sz)
  }

  lemma MustHits(c: Ctx, sl: Slice, j: nat)
    requires BlockOk(c) && SliceOk(c, sl) && j < |c.code| && (c.code[j].Ld? || c.code[j].St?)
    requires AliasOf(sl.ref, sl.off, sl.sz, c.code[j].addr, c.code[j].sz).0.MustAlias?
    ensures var off := AliasOf(sl.ref, sl.off, sl.sz, c.code[j].addr, c.code[j].sz).1;
            && Hit(c, sl, j, off)
            && CoverMask(c, sl, j, Covering(off, c.code[j].sz, sl.sz))
  {
    hide StepOk;
    hide AliasOf;
    var x := c.code[j];
    AliasSound(c.pl, sl.ref, sl.off, sl.sz, x.addr, x.sz);
    assert InsOk(c, x, j);
    Nested(c, sl, Address(c.pl, x.addr), x.sz);
    CoveringIs(c, sl, x, AliasOf(sl.ref, sl.off, sl.sz, x.addr, x.sz).1);
  }

  // killsl: the slice's base is defined here, so nothing above can be compared.
  predicate Kills(d: Option<nat>, a: Rec) {
    (Stack(a.kind) || a.kind.AUnk?) && d == Some(a.base)
  }

  class Loader {
    ghost const c: Ctx
    ghost const base: nat
    const code: seq<Ins>
    var log: seq<Insert>
    var cls: seq<Cls>

    ghost predicate Valid()
      reads this`log, this`cls
    {
      code == c.code && |c.tr| > |c.code| && LogOk(c, log, base, cls)
    }

    ghost function Env(): Env
      requires base <= |log| && |c.tr| > |c.code|
      reads this`log
    {
      EnvOf(c, log, base)
    }

    constructor (ghost c: Ctx, code: seq<Ins>, log: seq<Insert>, cls: seq<Cls>)
      requires BlockOk(c) && code == c.code && cls == c.cls
      ensures this.c == c && this.log == log && this.cls == cls && base == |log| && Valid()
    {
      this.c, this.code, this.log, this.cls := c, code, log, cls;
      base := |log|;
      new;
      LogStart(c, log);
    }

    lemma Open()
      requires Valid()
      ensures code == c.code && |c.tr| == |c.code| + 1 && base <= |log| && LogOk(c, log, base, cls) && BlockOk(c)
      ensures Env() == EnvOf(c, log, base)
    {
    }

    lemma Close()
      requires code == c.code && |c.tr| > |c.code| && LogOk(c, log, base, cls)
      ensures Valid()
    {
    }

    // A new instruction and its result.
    method Iins(k: Cls, op: Op, a0: Ref, a1: Ref) returns (r: Ref)
      requires Valid()
      modifies this`log, this`cls
      ensures Valid() && old(log) <= log && old(cls) <= cls
      ensures base <= |old(log)| && base <= |log| && |c.tr| > |c.code|
      ensures log == old(log) + [Insert.Insert(|old(cls)|, k, op, a0, a1)]
      ensures Grown(old(cls), EnvOf(c, old(log), base), cls, EnvOf(c, log, base))
      ensures Fits(cls, r, k)
      ensures var w := Result(EnvOf(c, old(log), base), Insert.Insert(|old(cls)|, k, op, a0, a1));
              && (forall i :: 0 <= i < 8 && (k.Kl? || i < 4) ==> Read(EnvOf(c, log, base), r, k)[i] == w[i])
    {
      Open();
      LogIns(c, log, base, cls, k, op, a0, a1);
      r := Tmp(|cls|);
      ghost var env := EnvOf(c, log, base);
      log := log + [Insert.Insert(|cls|, k, op, a0, a1)];
      ReadFresh(EnvOf(c, log, base), |cls|, k, Result(env, Insert.Insert(|cls|, k, op, a0, a1)), c.junk(|cls|));
      cls := cls + [k];
    }

    method Cast(r: Ref, k: Cls) returns (r': Ref)
      requires Valid() && Fits(cls, r, Kw)
      modifies this`log, this`cls
      ensures Valid() && old(log) <= log && old(cls) <= cls
      ensures base <= |old(log)| && base <= |log| && |c.tr| > |c.code|
      ensures Grown(old(cls), EnvOf(c, old(log), base), cls, EnvOf(c, log, base))
      ensures !Masks(log, |old(log)|)
      ensures Fits(cls, r', k)
      ensures Read(EnvOf(c, log, base), r', k) == CastWord(EnvOf(c, old(log), base), old(cls), r, k)
    {
      hide LogOk;
      hide EnvOf;
      Open();
      r' := r;
      if r.Con? {
        return;
      }
      var cls0 := cls[r.t];
      if cls0 == k || (k == Kw && cls0 == Kl) {
        return;
      }
      ghost var env := EnvOf(c, log, base);
      ghost var log0 := log;
      r' := Iins(Kl, Extuw, r, R);
      MasksOne(log0, log[|log| - 1]);
      assert Read(EnvOf(c, log, base), r', Kl) == Read(env, r, Kw);
    }

    method MaskWith(k: Cls, r: Ref, m: Word) returns (r': Ref)
      requires Valid() && Fits(cls, r, Kw)
      modifies this`log, this`cls
      ensures Valid() && old(log) <= log && old(cls) <= cls
      ensures base <= |old(log)| && base <= |log| && |c.tr| > |c.code|
      ensures Grown(old(cls), EnvOf(c, old(log), base), cls, EnvOf(c, log, base))
      ensures Masks(log, |old(log)|)
      ensures Fits(cls, r', k)
      ensures Anded(EnvOf(c, log, base), r', k, CastWord(EnvOf(c, old(log), base), old(cls), r, k), m)
    {
      hide *;
      Open();
      ghost var cls0, env0 := cls, EnvOf(c, log, base);
      r' := Cast(r, k);
      ghost var cls1, env1, r1 := cls, EnvOf(c, log, base), r';
      ghost var log1 := log;
      r' := Iins(k, AndOp, r', Con(m));
      MasksOne(log1, log[|log| - 1]);
      MasksThen(old(log), log1, log);
      GrownTrans(cls0, env0, cls1, env1, cls, EnvOf(c, log, base));
      AndResult(env1, |cls1|, k, r1, m, EnvOf(c, log, base), r');
    }

    // The shift def asks for, by 8 * |off| bits.
    method ShiftIn(sl: Slice, j: nat, off: int, r: Ref, k: Cls) returns (r': Ref)
      requires Valid() && SliceOk(c, sl) && Hit(c, sl, j, off) && off != 0
      requires r == Offered(c.code[j]) && k == ShiftCls(sl, off)
      modifies this`log, this`cls
      ensures Valid() && old(log) <= log && old(cls) <= cls
      ensures base <= |old(log)| && base <= |log| && |c.tr| == |c.code| + 1
      ensures Grown(old(cls), EnvOf(c, old(log), base), cls, EnvOf(c, log, base))
      ensures !Masks(log, |old(log)|)
      ensures InPlace(c, EnvOf(c, log, base), cls, r', k, sl, c.code[j], j)
    {
      hide *;
      Open();
      ghost var cls0, env0 := cls, EnvOf(c, log, base);
      HitParts(c, sl, j, off);
      OfferedNow(c, log, base, cls, j);
      r' := Cast(r, k);
      ghost var cls1, env1, r1 := cls, EnvOf(c, log, base), r';
      var n: nat := if off < 0 then -off else off;
      ghost var log1 := log;
      r' := Iins(k, Shift(off < 0), r', Num(8 * n));
      MasksOne(log1, log[|log| - 1]);
      MasksThen(old(log), log1, log);
      GrownTrans(cls0, env0, cls1, env1, cls, EnvOf(c, log, base));
      Open();
      ShiftServes(c, sl, j, off, env0, cls0, env1, |cls1|, r, r1, k, EnvOf(c, log, base), cls, r');
    }

    // What instruction j offers, moved to where the slice wants it.
    method Place(sl: Slice, j: nat, off: int) returns (r: Ref)
      requires Valid() && SliceOk(c, sl) && Hit(c, sl, j, off)
      modifies this`log, this`cls
      ensures Valid() && old(log) <= log && old(cls) <= cls
      ensures base <= |old(log)| && base <= |log| && |c.tr| == |c.code| + 1
      ensures Grown(old(cls), EnvOf(c, old(log), base), cls, EnvOf(c, log, base))
      ensures !Masks(log, |old(log)|)
      ensures Fits(cls, r, Kw) && InPlace(c, EnvOf(c, log, base), cls, r, PlaceCls(c.code[j], sl, off), sl, c.code[j], j)
    {
      hide *;
      Open();
      ghost var cls0, env0 := cls, EnvOf(c, log, base);
      HitParts(c, sl, j, off);
      PlaceClsIs(c.code[j], sl, off);
      r := Offered(code[j]);
      if off != 0 {
        r := ShiftIn(sl, j, off, r, ShiftCls(sl, off));
      } else {
        OfferedInPlace(c, log, base, cls, sl, j);
        GrownRefl(cls, env0);
        MasksNone(log);
      }
      InPlaceFits(c, EnvOf(c, log, base), cls, r, PlaceCls(c.code[j], sl, off), sl, j);
    }

    // The bytes instruction j covers, as far as they are wanted.
    method Part(sl: Slice, msk: Word, j: nat, off: int, m1: Word) returns (r: Ref)
      requires Valid() && SliceOk(c, sl) && MaskOk(sl, msk) && Hit(c, sl, j, off) && SameFrom(c, sl, msk, j + 1)
      requires m1 == Covering(off, c.code[j].sz, sl.sz) && CoverMask(c, sl, j, m1)
      modifies this`log, this`cls
      ensures Valid() && old(log) <= log && old(cls) <= cls
      ensures base <= |old(log)| && base <= |log| && |c.tr| == |c.code| + 1
      ensures Grown(old(cls), EnvOf(c, old(log), base), cls, EnvOf(c, log, base))
      // a mask is inserted unless all covered bytes are wanted and the access seems to reach
      // the slice's end
      ensures Masks(log, |old(log)|) <==>
                And(m1, msk) != m1 || (if off < 0 then -off else off) + c.code[j].sz < sl.sz
      ensures Served(c, EnvOf(c, log, base), cls, r, ClsOf(sl), sl, And(m1, msk))
    {
      hide *;
      Open();
      HitParts(c, sl, j, off);
      ghost var cls0, env0, k := cls, EnvOf(c, log, base), PlaceCls(c.code[j], sl, off);
      r := Place(sl, j, off);
      ghost var cls1, env1, r1 := cls, EnvOf(c, log, base), r;
      LeftUnmaskedIs(off, code[j].sz, sl.sz, m1, msk);
      if !LeftUnmasked(off, code[j].sz, sl.sz, m1, msk) {
        ghost var log1 := log;
        r := MaskWith(ClsOf(sl), r, And(m1, msk));
        MasksThen(old(log), log1, log);
        GrownTrans(cls0, env0, cls1, env1, cls, EnvOf(c, log, base));
        MaskedServes(c, env1, cls1, r1, EnvOf(c, log, base), cls, r, sl, msk, j, m1, k);
      } else {
        InPlaceWide(c, env1, cls1, r, sl, j, off);
        UnmaskedServes(c, env1, cls1, r, sl, msk, j, off, m1);
      }
    }

    // r with the rest of the mask, found in r1, or-ed in.
    method Join(sl: Slice, msk: Word, m1: Word, r0: Ref, r1: Ref) returns (r: Ref)
      requires Valid() && |c.tr| == |c.code| + 1 && base <= |log| && ByteWise(m1) && ByteWise(msk) && Size(sl.sz)
      requires Served(c, EnvOf(c, log, base), cls, r0, ClsOf(sl), sl, And(m1, msk))
      requires Served(c, EnvOf(c, log, base), cls, r1, ClsOf(sl), sl, And(msk, Not(m1)))
      modifies this`log, this`cls
      ensures Valid() && old(log) <= log && old(cls) <= cls
      ensures base <= |old(log)| && base <= |log| && |c.tr| == |c.code| + 1
      ensures Grown(old(cls), EnvOf(c, old(log), base), cls, EnvOf(c, log, base))
      ensures Served(c, EnvOf(c, log, base), cls, r, ClsOf(sl), sl, msk)
    {
      hide *;
      ghost var cls0, env0 := cls, EnvOf(c, log, base);
      r := Iins(ClsOf(sl), OrOp, r0, r1);
      OrResult(env0, |cls0|, sl, r0, r1, EnvOf(c, log, base), r);
      OrServes(c, env0, cls0, r0, r1, EnvOf(c, log, base), cls, r, sl, msk, m1);
    }

    // The whole slice goes into the class it was loaded in.
    method Finish(sl: Slice, msk: Word, r0: Ref) returns (r: Ref)
      requires Valid() && SliceOk(c, sl) && |c.tr| == |c.code| + 1 && base <= |log|
      requires Served(c, EnvOf(c, log, base), cls, r0, ClsOf(sl), sl, msk)
      modifies this`log, this`cls
      ensures Valid() && old(log) <= log && old(cls) <= cls
      ensures base <= |old(log)| && base <= |log| && |c.tr| == |c.code| + 1
      ensures Grown(old(cls), EnvOf(c, old(log), base), cls, EnvOf(c, log, base))
      ensures Answered(c, EnvOf(c, log, base), cls, r, sl, msk)
    {
      hide *;
      ghost var cls0, env0 := cls, EnvOf(c, log, base);
      r := r0;
      ServedParts(c, env0, cls0, r0, ClsOf(sl), sl, msk);
      if msk == Mask(sl.sz) {
        r := Cast(r, sl.cls);
        CastAnswers(c, env0, cls0, r0, EnvOf(c, log, base), cls, r, sl, msk);
      } else {
        GrownRefl(cls, env0);
        PartAnswers(c, env0, cls0, r, sl, msk);
      }
    }

    // MustAlias: use instruction j for the bytes it covers, look further up for the rest.
    method Serve(sl: Slice, msk: Word, j: nat, off: int, m1: Word) returns (r: Ref)
      requires Valid() && SliceOk(c, sl) && MaskOk(sl, msk) && Hit(c, sl, j, off) && SameFrom(c, sl, msk, j + 1)
      requires m1 == Covering(off, c.code[j].sz, sl.sz) && CoverMask(c, sl, j, m1)
      modifies this`log, this`cls
      ensures Valid() && old(log) <= log && old(cls) <= cls
      ensures base <= |old(log)| && base <= |log| && |c.tr| == |c.code| + 1
      ensures Grown(old(cls), EnvOf(c, old(log), base), cls, EnvOf(c, log, base))
      ensures r != R ==> Answered(c, EnvOf(c, log, base), cls, r, sl, msk)
      ensures r != R <==> And(msk, Not(m1)) == ZERO || Findable(c.code, sl, And(msk, Not(m1)), j)
      decreases j, 1
    {
      hide *;
      Open();
      ghost var cls0, env0 := cls, EnvOf(c, log, base);
      HitParts(c, sl, j, off);
      CoverMaskAt(c, sl, j, m1);
      MasksOk(c, sl, msk, m1);
      r := Part(sl, msk, j, off, m1);
      ghost var cls1, env1 := cls, EnvOf(c, log, base);
      if And(msk, Not(m1)) != ZERO {
        RestBelow(c, sl, msk, j, m1);
        var r1 := Def(sl, And(msk, Not(m1)), j);
        ghost var cls2, env2 := cls, EnvOf(c, log, base);
        GrownTrans(cls0, env0, cls1, env1, cls2, env2);
        if r1 == R {
          return R;
        }
        AnsweredParts(c, env2, cls2, r1, sl, And(msk, Not(m1)));
        ServedKept(c, cls1, env1, cls2, env2, r, ClsOf(sl), sl, And(m1, msk));
        r := Join(sl, msk, m1, r, r1);
        GrownTrans(cls0, env0, cls2, env2, cls, EnvOf(c, log, base));
      } else {
        WholeServes(c, env1, cls1, r, sl, msk, m1);
      }
      ghost var cls3, env3 := cls, EnvOf(c, log, base);
      r := Finish(sl, msk, r);
      GrownTrans(cls0, env0, cls3, env3, cls, EnvOf(c, log, base));
      AnswerIsRef(c, EnvOf(c, log, base), cls, r, sl, msk);
    }

    // def, from position j up to the top of the block.
    method Def(sl: Slice, msk: Word, j: nat) returns (r: Ref)
      requires Valid() && SliceOk(c, sl) && MaskOk(sl, msk) && j <= |c.code| && |c.tr| == |c.code| + 1
      requires SameFrom(c, sl, msk, j)
      modifies this`log, this`cls
      ensures Valid() && old(log) <= log && old(cls) <= cls
      ensures base <= |old(log)| && base <= |log| && |c.tr| == |c.code| + 1
      ensures Grown(old(cls), EnvOf(c, old(log), base), cls, EnvOf(c, log, base))
      ensures r != R ==> Answered(c, EnvOf(c, log, base), cls, r, sl, msk)
      ensures r == R ==> log == old(log) && cls == old(cls)
      ensures r != R <==> Findable(c.code, sl, msk, j)
      decreases j, 0
    {
      hide *;
      Open();
      StartFinding(c, sl, msk, j);
      GrownRefl(cls, EnvOf(c, log, base));
      var oldl, oldt := |log|, |cls|;
      var i: nat := j;
      while i > 0
        invariant i <= j && Valid() && SameFrom(c, sl, msk, i) && log == old(log) && cls == old(cls)
        invariant NothingYet(c.code, sl, msk, i, j)
      {
        i := i - 1;
        var x := code[i];
        if Kills(DefOf(x), sl.ref) || (x.Call? && !sl.ref.kind.ALoc?) {
          StoppedAt(sl, x);
          NotFindable(c.code, sl, msk, i + 1, j);
          return R;
        }
        if x.Ld? || x.St? {
          var (ans, off) := AliasOf(sl.ref, sl.off, sl.sz, x.addr, x.sz);
          match ans {
            case MustAlias =>
              MustHits(c, sl, i);
              HitParts(c, sl, i, off);
              if And(Covering(off, x.sz, sl.sz), msk) == ZERO {
                NoneWanted(c, sl, msk, i, Covering(off, x.sz, sl.sz));
                NoneSupplied(c, sl, msk, i, j, off, Covering(off, x.sz, sl.sz));
              } else {
                SomeSupplied(c, sl, msk, i, j, off, Covering(off, x.sz, sl.sz));
                r := Serve(sl, msk, i, off, Covering(off, x.sz, sl.sz));
                if r == R {
                  log := log[..oldl];
                  cls := cls[..oldt];
                  assert log == old(log) && cls == old(cls);
                  Close();
                }
                return;
              }
            case MayAlias =>
              if x.St? {
                StoppedAt(sl, x);
                NotFindable(c.code, sl, msk, i + 1, j);
                return R;
              }
              PassQuiet(c, sl, msk, i);
              PassedOver(sl, x);
              NothingMore(c.code, sl, msk, i, j);
            case NoAlias =>
              NoAliasPass(c, sl, msk, i);
              PassedOver(sl, x);
              NothingMore(c.code, sl, msk, i, j);
          }
        } else {
          PassQuiet(c, sl, msk, i);
          PassedOver(sl, x);
          NothingMore(c.code, sl, msk, i, j);
        }
      }
      NotFindable(c.code, sl, msk, 0, j);
      r := R;
    }
  }

  // The result of def: the wanted bytes in the slice's class, and in its load
  // class too when all of them are wanted.
  ghost predicate Answered(c: Ctx, env: Env, cls: seq<Cls>, r: Ref, sl: Slice, msk: Word)
    requires |c.tr| == |c.code| + 1
  {
    && Served(c, env, cls, r, ClsOf(sl), sl, msk)
    && (msk == Mask(sl.sz) ==> Served(c, env, cls, r, sl.cls, sl, msk))
  }

  lemma AndResult(env: Env, t: nat, k: Cls, r: Ref, m: Word, env': Env, r': Ref)
    requires forall i :: 0 <= i < 8 && (k.Kl? || i < 4) ==>
               Read(env', r', k)[i] == Result(env, Insert.Insert(t, k, AndOp, r, Con(m)))[i]
    ensures Anded(env', r', k, Read(env, r, k), m)
  {
    hide Read;
    ConRead(env, m, k);
  }

  // The class the placed value is good for.
  function PlaceCls(x: Ins, sl: Slice, off: int): Cls
    requires x.Ld? || x.St?
  {
    if off != 0 then ShiftCls(sl, off) else if x.sz == 8 then Kl else Kw
  }

  // When nothing has to be masked, what is in place is in place in the slice's class.
  lemma InPlaceWide(c: Ctx, env: Env, cls: seq<Cls>, r: Ref, sl: Slice, j: nat, off: int)
    requires Hit(c, sl, j, off) && |c.tr| == |c.code| + 1 && SliceOk(c, sl)
    requires InPlace(c, env, cls, r, PlaceCls(c.code[j], sl, off), sl, c.code[j], j)
    requires (if off < 0 then -off else off) + c.code[j].sz >= sl.sz
    ensures InPlace(c, env, cls, r, ClsOf(sl), sl, c.code[j], j)
  {
    hide InPlace;
    if PlaceCls(c.code[j], sl, off) == Kl && ClsOf(sl) == Kw {
      NarrowRead(c, env, cls, r, sl, c.code[j], j);
    }
  }

  lemma OfferedNow(c: Ctx, log: seq<Insert>, base: nat, cls: seq<Cls>, j: nat)
    requires LogOk(c, log, base, cls) && j < |c.code| && (c.code[j].Ld? || c.code[j].St?)
    ensures |c.tr| == |c.code| + 1 && base <= |log|
    ensures var k := if c.code[j].sz == 8 then Kl else Kw;
            && Fits(cls, Offered(c.code[j]), k) && Fits(cls, Offered(c.code[j]), Kw)
            && Holds(Read(EnvOf(c, log, base), Offered(c.code[j]), k), c.code[j].sz, c.tr[j + 1].mem, Address(c.pl, c.code[j].addr))
  {
    hide StepOk;
    hide Read;
    hide EnvOf;
    OfferedHolds(c, j);
    RefKept(c.cls, c.tr[|c.code|].env, cls, EnvOf(c, log, base), Offered(c.code[j]), if c.code[j].sz == 8 then Kl else Kw);
  }

  lemma OrResult(env: Env, t: nat, sl: Slice, r0: Ref, r1: Ref, env': Env, r': Ref)
    requires Size(sl.sz)
    requires forall i :: 0 <= i < 8 && (ClsOf(sl).Kl? || i < 4) ==>
               Read(env', r', ClsOf(sl))[i] == Result(env, Insert.Insert(t, ClsOf(sl), OrOp, r0, r1))[i]
    ensures forall i :: 0 <= i < sl.sz ==>
              Read(env', r', ClsOf(sl))[i] == Read(env, r0, ClsOf(sl))[i] | Read(env, r1, ClsOf(sl))[i]
  {
    hide Read;
  }

  // A cast keeps the low bytes.
  lemma CastLow(env: Env, cls: seq<Cls>, r: Ref, k0: Cls, k: Cls, i: nat)
    requires Fits(cls, r, k0) && i < 8 && (k0.Kw? || k.Kw? ==> i < 4)
    ensures CastWord(env, cls, r, k)[i] == Read(env, r, k0)[i]
  {
    ReadLow(env, r);
  }

  lemma CastAnswers(c: Ctx, env0: Env, cls0: seq<Cls>, r0: Ref, env: Env, cls: seq<Cls>, r: Ref, sl: Slice, msk: Word)
    requires |c.tr| == |c.code| + 1 && SliceOk(c, sl) && Served(c, env0, cls0, r0, ClsOf(sl), sl, msk)
    requires Fits(cls, r, sl.cls) && Read(env, r, sl.cls) == CastWord(env0, cls0, r0, sl.cls)
    ensures Answered(c, env, cls, r, sl, msk)
  {
    hide Read;
    hide CastWord;
    hide Provenance;
    forall i: nat | i < sl.sz
      ensures Read(env, r, sl.cls)[i] == Read(env0, r0, ClsOf(sl))[i] && Read(env, r, ClsOf(sl))[i] == Read(env, r, sl.cls)[i]
    {
      CastLow(env0, cls0, r0, ClsOf(sl), sl.cls, i);
      ReadLow(env, r);
      if ClsOf(sl) != sl.cls {
        assert ClsOf(sl) == Kw && i < 4;
        assert Low(Read(env, r, Kl))[i] == Read(env, r, Kl)[i];
      }
    }
  }

  lemma ShiftResult(env: Env, t: nat, k: Cls, left: bool, r: Ref, n: nat)
    requires n < 8
    ensures Result(env, Insert.Insert(t, k, Shift(left), r, Num(8 * n))) == if left then Shl(Read(env, r, k), n) else Shr(Read(env, r, k), n)
  {
    hide Read;
    Eights(n);
  }

  lemma ShiftServes(c: Ctx, sl: Slice, j: nat, off: int, env0: Env, cls0: seq<Cls>, env1: Env, t: nat, r: Ref, r1: Ref, k: Cls,
                    env: Env, cls: seq<Cls>, r': Ref)
    requires BlockOk(c) && SliceOk(c, sl) && Hit(c, sl, j, off) && off != 0 && k == ShiftCls(sl, off) && j + 1 < |c.tr|
    requires var k0 := if c.code[j].sz == 8 then Kl else Kw;
             Fits(cls0, r, k0) && Holds(Read(env0, r, k0), c.code[j].sz, c.tr[j + 1].mem, Address(c.pl, c.code[j].addr))
    requires Read(env1, r1, k) == CastWord(env0, cls0, r, k) && Fits(cls, r', k)
    requires var n: nat := if off < 0 then -off else off;
             forall i :: 0 <= i < 8 && (k.Kl? || i < 4) ==>
               Read(env, r', k)[i] == Result(env1, Insert.Insert(t, k, Shift(off < 0), r1, Num(8 * n)))[i]
    ensures InPlace(c, env, cls, r', k, sl, c.code[j], j)
  {
    hide BlockOk;
    hide SliceOk;
    hide Read;
    hide CastWord;
    hide Result;
    var k0 := if c.code[j].sz == 8 then Kl else Kw;
    var v := Read(env1, r1, k);
    var n: nat := if off < 0 then -off else off;
    ShiftResult(env1, t, k, off < 0, r1, n);
    forall i: nat | i < c.code[j].sz && (k.Kw? ==> i < 4) ensures v[i] == c.tr[j + 1].mem(Address(c.pl, c.code[j].addr) + i) {
      CastLow(env0, cls0, r, k0, k, i);
    }
    ShiftedInPlace(c, sl, j, off, env, cls, v, r', k);
  }

  // loadopt puts an extension (or a copy) of def's result in the load's place:
  // the value is the one the load would have left.
  lemma ReplacedLoadEqual(c: Ctx, env: Env, cls: seq<Cls>, r: Ref, sl: Slice, signed: bool, w: Word)
    requires BlockOk(c) && SliceOk(c, sl) && Answered(c, env, cls, r, sl, Mask(sl.sz))
    requires Holds(w, sl.sz, c.tr[|c.code|].mem, At(c, sl))
    ensures Ext(sl.cls, sl.sz, signed, Read(env, r, sl.cls)) == Ext(sl.cls, sl.sz, signed, w)
  {
    hide Read;
    hide Provenance;
    hide StepOk;
    hide InsOk;
    var v := Read(env, r, sl.cls);
    forall k | 0 <= k < sl.sz ensures v[k] == w[k] {
      assert Has(Mask(sl.sz), k);
    }
  }

  // Where Part leaves the mask out, the slice's bytes that the access does not cover are
  // zero for every value exactly when the access is a whole word, starts no earlier than
  // the slice, or covers its end.
  lemma ShiftClearsExactly(off: int, sz: nat, slsz: nat, msk: Word)
    requires Size(sz) && Size(slsz) && -8 < off < 8 && 0 < off + slsz && off < sz
    requires LeftUnmasked(off, sz, slsz, Covering(off, sz, slsz), msk)
    ensures (forall v: Word, i: nat :: i < slsz ==> ClearAt(v, off, sz, i)) <==> ReachesEnd(off, sz, slsz)
  {
    hide Covering;
    if ReachesEnd(off, sz, slsz) {
      forall v: Word, i: nat | i < slsz ensures ClearAt(v, off, sz, i) {
        ShiftedByte(v, off, i);
      }
    } else {
      var v: Word := [1, 1, 1, 1, 1, 1, 1, 1];
      var i: nat := sz - off;
      ShiftedByte(v, off, i);
      assert !ClearAt(v, off, sz, i);
    }
  }

  predicate ReachesEnd(off: int, sz: nat, slsz: nat) {
    sz == 8 || off <= 0 || off + slsz <= sz
  }

  // Byte i of the shifted value is zero unless the access covers it.
  predicate ClearAt(v: Word, off: int, sz: nat, i: nat)
    requires -8 < off < 8
  {
    i < 8 && !(0 <= i + off < sz) ==> (if off < 0 then Shl(v, -off) else Shr(v, off))[i] == 0
  }

  lemma NoneSupplied(c: Ctx, sl: Slice, msk: Word, i: nat, j: nat, off: int, m1: Word)
    requires MaskOk(sl, msk) && Hit(c, sl, i, off) && CoverMask(c, sl, i, m1) && And(m1, msk) == ZERO
    requires AliasOf(sl.ref, sl.off, sl.sz, c.code[i].addr, c.code[i].sz) == (MustAlias, off)
    requires !Kills(DefOf(c.code[i]), sl.ref)
    requires i < j <= |c.code| && NothingYet(c.code, sl, msk, i + 1, j)
    ensures NothingYet(c.code, sl, msk, i, j)
  {
    hide AliasOf;
    hide NothingYet;
    hide Supplies;
    HasAnd(m1, msk);
    MaskEmpty(And(m1, msk));
    CoveredIsSupplied(c, sl, i, off, m1);
    MustNotBlock(sl, c.code[i]);
    NothingMore(c.code, sl, msk, i, j);
  }

  lemma SomeSupplied(c: Ctx, sl: Slice, msk: Word, i: nat, j: nat, off: int, m1: Word)
    requires MaskOk(sl, msk) && Hit(c, sl, i, off) && CoverMask(c, sl, i, m1) && And(m1, msk) != ZERO
    requires AliasOf(sl.ref, sl.off, sl.sz, c.code[i].addr, c.code[i].sz) == (MustAlias, off)
    requires !Kills(DefOf(c.code[i]), sl.ref)
    requires i < j <= |c.code| && NothingYet(c.code, sl, msk, i + 1, j)
    ensures Findable(c.code, sl, msk, j) <==> And(msk, Not(m1)) == ZERO || Findable(c.code, sl, And(msk, Not(m1)), i)
  {
    hide AliasOf;
    hide NothingYet;
    hide Findable;
    hide Supplies;
    var rest := And(msk, Not(m1));
    HasAnd(m1, msk);
    HasMinus(msk, m1);
    MaskEmpty(And(m1, msk));
    CoveredIsSupplied(c, sl, i, off, m1);
    MustNotBlock(sl, c.code[i]);
    assert (forall k :: !Has(rest, k)) <==> rest == ZERO by {
      MaskEmpty(rest);
    }
    FindRest(c.code, sl, msk, rest, i, j);
  }

  // ---- facts that unfold at once ----------------------------------------------------------

  lemma StartFinding(c: Ctx, sl: Slice, msk: Word, j: nat)
    ensures NothingYet(c.code, sl, msk, j, j)
  {
  }

  lemma AnswerIsRef(c: Ctx, env: Env, cls: seq<Cls>, r: Ref, sl: Slice, msk: Word)
    requires |c.tr| == |c.code| + 1 && Answered(c, env, cls, r, sl, msk)
    ensures r != R
  {
  }

  lemma Nested(c: Ctx, sl: Slice, a: int, sz: nat)
    requires Size(sl.sz) && Size(sz) && At(c, sl) % sl.sz == 0 && a % sz == 0
    requires !Apart(At(c, sl), sl.sz, a, sz)
    ensures var off := At(c, sl) - a;
            && (off > 0 ==> off + sl.sz <= sz)
            && (off < 0 ==> -off + sz <= sl.sz)
            && (off == 0 || off == 1 || off == 2 || off == 3 || off == 4 || off == 5 || off == 6 || off == 7
                || off == -1 || off == -2 || off == -3 || off == -4 || off == -5 || off == -6 || off == -7)
  {
  }

  // An instruction that leaves the wanted bytes alone.
  lemma PassOver(c: Ctx, sl: Slice, msk: Word, j: nat)
    requires BlockOk(c) && SliceOk(c, sl) && MaskOk(sl, msk) && j < |c.code| && SameFrom(c, sl, msk, j + 1)
    requires forall k :: Has(msk, k) ==> c.tr[j + 1].mem(At(c, sl) + k) == c.tr[j].mem(At(c, sl) + k)
    ensures SameFrom(c, sl, msk, j)
  {
  }

  lemma LeftUnmaskedIs(off: int, sz: nat, slsz: nat, m1: Word, msk: Word)
    ensures LeftUnmasked(off, sz, slsz, m1, msk) <==>
              And(m1, msk) == m1 && (if off < 0 then -off else off) + sz >= slsz
  {
  }

  lemma CoverMaskAt(c: Ctx, sl: Slice, j: nat, m: Word)
    requires j < |c.code| && (c.code[j].Ld? || c.code[j].St?) && CoverMask(c, sl, j, m)
    ensures ByteWise(m) && forall k :: Has(m, k) <==> Covers(c, sl, c.code[j], k)
  {
  }

  lemma GrownTrans(cls0: seq<Cls>, env0: Env, cls1: seq<Cls>, env1: Env, cls2: seq<Cls>, env2: Env)
    requires Grown(cls0, env0, cls1, env1) && Grown(cls1, env1, cls2, env2)
    ensures Grown(cls0, env0, cls2, env2)
  {
  }

  lemma RefKept(cls0: seq<Cls>, env0: Env, cls: seq<Cls>, env: Env, r: Ref, k: Cls)
    requires Grown(cls0, env0, cls, env) && Fits(cls0, r, k)
    ensures Fits(cls, r, k) && Read(env, r, k) == Read(env0, r, k)
  {
  }

  lemma LogStart(c: Ctx, log: seq<Insert>)
    requires BlockOk(c)
    ensures LogOk(c, log, |log|, c.cls)
  {
  }

  // Reading a fresh result in its own class gives the operation's word.
  lemma ReadFresh(env: Env, t: nat, k: Cls, w: Word, junk: Word)
    requires Get(env, t) == Landed(w, k, junk)
    ensures forall i :: 0 <= i < 8 && (k.Kl? || i < 4) ==> Read(env, Tmp(t), k)[i] == w[i]
    ensures forall i :: 0 <= i < 4 ==> Read(env, Tmp(t), Kw)[i] == w[i]
  {
  }

  lemma HeldInPlace(c: Ctx, env: Env, cls: seq<Cls>, r: Ref, k: Cls, sl: Slice, j: nat)
    requires j < |c.code| && j + 1 < |c.tr| && (c.code[j].Ld? || c.code[j].St?) && Size(c.code[j].sz)
    requires At(c, sl) == Address(c.pl, c.code[j].addr) && (k.Kw? ==> c.code[j].sz <= 4)
    requires Fits(cls, r, k) && Holds(Read(env, r, k), c.code[j].sz, c.tr[j + 1].mem, Address(c.pl, c.code[j].addr))
    ensures InPlace(c, env, cls, r, k, sl, c.code[j], j)
  {
  }

  lemma CoveredAt(c: Ctx, sl: Slice, x: Ins, off: int, k: Cls, i: nat)
    requires (x.Ld? || x.St?) && Covers(c, sl, x, i) && off == At(c, sl) - Address(c.pl, x.addr) && off != 0 && x.sz <= 8
    requires k == ShiftCls(sl, off) && Size(sl.sz)
    ensures 0 <= i + off < x.sz && (k.Kw? ==> i < 4 && i + off < 4)
  {
  }

  lemma ShiftedByte(v: Word, off: int, i: nat)
    requires -8 < off < 8 && i < 8
    ensures (if off < 0 then Shl(v, -off) else Shr(v, off))[i] == if 0 <= i + off < 8 then v[i + off] else 0
  {
  }

  lemma ReadLow(env: Env, r: Ref)
    ensures Read(env, r, Kw) == Low(Read(env, r, Kl))
  {
  }

  lemma AndedAt(env: Env, r: Ref, k: Cls, w: Word, m: Word, i: nat)
    requires Anded(env, r, k, w, m) && i < 8 && (k.Kw? ==> i < 4)
    ensures Read(env, r, k)[i] == w[i] & m[i]
  {
  }

  lemma ClsCovers(sl: Slice, i: nat)
    requires i < sl.sz && Size(sl.sz)
    ensures i < 8 && (ClsOf(sl).Kw? ==> i < 4)
  {
  }

  lemma ServedIs(c: Ctx, env: Env, cls: seq<Cls>, r: Ref, k: Cls, sl: Slice, msk: Word)
    requires |c.tr| == |c.code| + 1 && Fits(cls, r, k) && sl.sz <= 8
    requires forall i: nat :: i < sl.sz ==> Read(env, r, k)[i] == if Has(msk, i) then c.tr[|c.code|].mem(At(c, sl) + i) else 0
    ensures Served(c, env, cls, r, k, sl, msk)
  {
  }

  lemma ConRead(env: Env, m: Word, k: Cls)
    ensures forall i :: 0 <= i < 8 && (k.Kl? || i < 4) ==> Read(env, Con(m), k)[i] == m[i]
  {
  }

  lemma GrownRefl(cls: seq<Cls>, env: Env)
    ensures Grown(cls, env, cls, env)
  {
  }

  lemma SizeOf(c: Ctx, sl: Slice)
    requires SliceOk(c, sl)
    ensures Size(sl.sz) && 0 < sl.sz <= 8
  {
  }

  lemma HitParts(c: Ctx, sl: Slice, j: nat, off: int)
    requires Hit(c, sl, j, off)
    ensures j < |c.code| && (c.code[j].Ld? || c.code[j].St?) && Size(c.code[j].sz)
    ensures off == At(c, sl) - Address(c.pl, c.code[j].addr) && -8 < off < 8
    ensures off > 0 ==> off + sl.sz <= c.code[j].sz
    ensures off < 0 ==> -off + c.code[j].sz <= sl.sz
  {
  }

  lemma AnsweredParts(c: Ctx, env: Env, cls: seq<Cls>, r: Ref, sl: Slice, msk: Word)
    requires |c.tr| == |c.code| + 1 && Answered(c, env, cls, r, sl, msk)
    ensures Served(c, env, cls, r, ClsOf(sl), sl, msk)
  {
  }

  lemma ServedParts(c: Ctx, env: Env, cls: seq<Cls>, r: Ref, k: Cls, sl: Slice, msk: Word)
    requires |c.tr| == |c.code| + 1 && Served(c, env, cls, r, k, sl, msk)
    ensures Fits(cls, r, k) && Fits(cls, r, Kw)
  {
  }

  lemma PartAnswers(c: Ctx, env: Env, cls: seq<Cls>, r: Ref, sl: Slice, msk: Word)
    requires |c.tr| == |c.code| + 1 && Served(c, env, cls, r, ClsOf(sl), sl, msk) && msk != Mask(sl.sz)
    ensures Answered(c, env, cls, r, sl, msk)
  {
  }

  lemma InPlaceFits(c: Ctx, env: Env, cls: seq<Cls>, r: Ref, k: Cls, sl: Slice, j: nat)
    requires j < |c.code| && |c.tr| == |c.code| + 1 && (c.code[j].Ld? || c.code[j].St?)
    requires InPlace(c, env, cls, r, k, sl, c.code[j], j)
    ensures Fits(cls, r, k) && Fits(cls, r, Kw)
  {
  }

  lemma PlaceClsIs(x: Ins, sl: Slice, off: int)
    requires x.Ld? || x.St?
    ensures PlaceCls(x, sl, off) == if off != 0 then ShiftCls(sl, off) else if x.sz == 8 then Kl else Kw
  {
  }

  lemma Eights(n: nat)
    requires n < 8
    ensures (8 * n) % 8 == 0 && (8 * n) / 8 == n && 8 * n < 64
  {
  }

  // Natural alignment is enough: where it holds, must-alias accesses reach the end.
  lemma AlignedReachesEnd(c: Ctx, sl: Slice, j: nat)
    requires BlockOk(c) && SliceOk(c, sl) && j < |c.code| && (c.code[j].Ld? || c.code[j].St?)
    requires AliasOf(sl.ref, sl.off, sl.sz, c.code[j].addr, c.code[j].sz).0.MustAlias?
    ensures ReachesEnd(AliasOf(sl.ref, sl.off, sl.sz, c.code[j].addr, c.code[j].sz).1, c.code[j].sz, sl.sz)
  {
    hide BlockOk;
    hide SliceOk;
    hide AliasOf;
    MustHits(c, sl, j);
    HitParts(c, sl, j, AliasOf(sl.ref, sl.off, sl.sz, c.code[j].addr, c.code[j].sz).1);
  }

  // What def hands back: the shifted value with the rest, found further up, or-ed in.
  function JoinedWord(v: Word, off: int, rest: Word): Word
    requires -8 < off < 8
  {
    Or(if off < 0 then Shl(v, -off) else Shr(v, off), rest)
  }

  // The rest is zero where the access covers the slice.
  predicate IsRest(rest: Word, off: int, sz: nat, slsz: nat) {
    forall i: nat :: i < slsz && i < 8 && 0 <= i + off < sz ==> rest[i] == 0
  }

  // Byte i of the answer is the accessed byte where covered, and the rest's elsewhere.
  predicate JoinedRight(v: Word, off: int, sz: nat, rest: Word, i: nat)
    requires -8 < off < 8
  {
    i < 8 ==> JoinedWord(v, off, rest)[i] == if 0 <= i + off < sz && i + off < 8 then v[i + off] else rest[i]
  }

  // The joined answer is right for every stored value and every rest under the same condition.
  lemma JoinedExactly(off: int, sz: nat, slsz: nat, msk: Word)
    requires Size(sz) && Size(slsz) && -8 < off < 8 && 0 < off + slsz && off < sz
    requires LeftUnmasked(off, sz, slsz, Covering(off, sz, slsz), msk)
    ensures (forall v: Word, rest: Word, i: nat :: i < slsz && IsRest(rest, off, sz, slsz) ==> JoinedRight(v, off, sz, rest, i))
            <==> ReachesEnd(off, sz, slsz)
  {
    hide Covering;
    if ReachesEnd(off, sz, slsz) {
      forall v: Word, rest: Word, i: nat | i < slsz && IsRest(rest, off, sz, slsz) ensures JoinedRight(v, off, sz, rest, i) {
        ShiftedByte(v, off, i);
        JoinByte(v, off, sz, rest, i);
      }
    } else {
      var v: Word := [1, 1, 1, 1, 1, 1, 1, 1];
      ShiftedByte(v, off, sz - off);
      assert IsRest(ZERO, off, sz, slsz);
      JoinByte(v, off, sz, ZERO, sz - off);
      assert !JoinedRight(v, off, sz, ZERO, sz - off);
    }
  }

  lemma JoinByte(v: Word, off: int, sz: nat, rest: Word, i: nat)
    requires -8 < off < 8 && i < 8
    ensures JoinedWord(v, off, rest)[i] == (if off < 0 then Shl(v, -off) else Shr(v, off))[i] | rest[i]
    ensures (if off < 0 then Shl(v, -off) else Shr(v, off))[i] == 0 ==> JoinedWord(v, off, rest)[i] == rest[i]
    ensures rest[i] == 0 ==> JoinedWord(v, off, rest)[i] == (if off < 0 then Shl(v, -off) else Shr(v, off))[i]
  {
    ByteOr((if off < 0 then Shl(v, -off) else Shr(v, off))[i], rest[i]);
  }

  lemma ByteOr(x: bv8, y: bv8)
    ensures x == 0 ==> x | y == y
    ensures y == 0 ==> x | y == x
  {
  }

  // A halfword stored one byte below the halfword that is loaded: no mask, and the upper
  // byte of the answer has the third byte of whatever the stored register holds or-ed in.
  lemma UnalignedHalfword(rest: Word)
    requires rest[0] == rest[1] == 0
    ensures LeftUnmasked(1, 2, 2, Covering(1, 2, 2), Mask(2)) && !ReachesEnd(1, 2, 2) && IsRest(rest, 1, 2, 2)
    ensures JoinedWord([0, 0, 1, 0, 0, 0, 0, 0], 1, rest)[1] == 1 && !JoinedRight([0, 0, 1, 0, 0, 0, 0, 0], 1, 2, rest, 1)
  {
    var v: Word := [0, 0, 1, 0, 0, 0, 0, 0];
    ShiftedByte(v, 1, 1);
    JoinByte(v, 1, 2, rest, 1);
    MaskOne(1, 2, 2);
  }

  lemma MaskOne(off: nat, sz: nat, slsz: nat)
    requires off < 8 && sz <= 8 && slsz <= 8
    ensures And(Covering(off, sz, slsz), Mask(slsz)) == Covering(off, sz, slsz)
  {
  }
}
