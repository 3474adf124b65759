// opt/simpl.c, blit: a block copy as a run of chunk moves; and the choice of
// direction that opt/mem.c makes for slots that came to overlap.
//
// Instructions are emitted in front of those emitted before, as emit does.
module Blit {

  // An address is the source (sd[0]) or destination (sd[1]) plus an offset.
  datatype Ins =
    | Add(to: nat, dest: bool, off: int)
    | Ld(to: nat, n: nat, addr: nat)
    | St(n: nat, val: nat, addr: nat)

  datatype Val = Addr(a: int) | Chunk(b: seq<int>)

  // Byte memory; addresses never written hold 0.
  type Mem = map<int, int>

  function At(m: Mem, p: int): int {
    if p in m then m[p] else 0
  }

  datatype State = State(env: map<nat, Val>, mem: Mem)

  function AddrOf(env: map<nat, Val>, t: nat): int {
    if t in env && env[t].Addr? then env[t].a else 0
  }

  function ChunkOf(env: map<nat, Val>, t: nat): seq<int> {
    if t in env && env[t].Chunk? then env[t].b else []
  }

  function Load(m: Mem, a: int, n: nat): (b: seq<int>)
    ensures |b| == n
  {
    seq(n, k requires 0 <= k < n => At(m, a + k))
  }

  function Store(m: Mem, a: int, b: seq<int>): Mem {
    if |b| == 0 then m else Store(m, a, b[..|b| - 1])[a + |b| - 1 := b[|b| - 1]]
  }

  lemma {:induction false} StoreAt(m: Mem, a: int, b: seq<int>, p: int)
    ensures At(Store(m, a, b), p) == if a <= p < a + |b| then b[p - a] else At(m, p)
  {
    if |b| > 0 {
      StoreAt(m, a, b[..|b| - 1], p);
    }
  }

  function Step(src: int, dst: int, x: Ins, st: State): State {
    match x
    case Add(t, d, off) => st.(env := st.env[t := Addr((if d then dst else src) + off)])
    case Ld(t, n, r) => st.(env := st.env[t := Chunk(Load(st.mem, AddrOf(st.env, r), n))])
    case St(n, v, r) =>
      var b := ChunkOf(st.env, v);
      st.(mem := Store(st.mem, AddrOf(st.env, r), if |b| > n then b[..n] else b))
  }

  function Exec(src: int, dst: int, xs: seq<Ins>, st: State): State {
    if |xs| == 0 then st else Exec(src, dst, xs[1..], Step(src, dst, xs[0], st))
  }

  // ---- what the moves do ---------------------------------------------------------------

  // m2 is m with the bytes lo to hi - 1 of the source put at the destination.
  ghost predicate Moved(src: int, dst: int, lo: int, hi: int, m: Mem, m2: Mem) {
    forall p: int :: MovedAt(src, dst, lo, hi, m, m2, p)
  }

  predicate MovedAt(src: int, dst: int, lo: int, hi: int, m: Mem, m2: Mem, p: int) {
    At(m2, p) == if dst + lo <= p < dst + hi then At(m, src + (p - dst)) else At(m, p)
  }

  // The copy may run upwards, or downwards, without losing source bytes.
  predicate MayGoUp(src: int, dst: int, n: int) { dst <= src || src + n <= dst }
  predicate MayGoDown(src: int, dst: int, n: int) { src <= dst || dst + n <= src }

  ghost predicate Copies(src: int, dst: int, xs: seq<Ins>, lo: int, hi: int) {
    forall st: State :: Moved(src, dst, lo, hi, st.mem, Exec(src, dst, xs, st).mem)
  }

  function OneMove(t: nat, off: int, n: nat): seq<Ins> {
    [Add(t + 2, false, off), Ld(t, n, t + 2), Add(t + 1, true, off), St(n, t, t + 1)]
  }

  lemma ExecCons(src: int, dst: int, x: Ins, xs: seq<Ins>, st: State)
    ensures Exec(src, dst, [x] + xs, st) == Exec(src, dst, xs, Step(src, dst, x, st))
  {
    assert ([x] + xs)[1..] == xs;
  }

  lemma ExecFour(src: int, dst: int, a: Ins, b: Ins, c: Ins, d: Ins, xs: seq<Ins>, st: State)
    ensures Exec(src, dst, [a, b, c, d] + xs, st) ==
              Exec(src, dst, xs, Step(src, dst, d, Step(src, dst, c, Step(src, dst, b, Step(src, dst, a, st)))))
  {
    hide *;
    var s1 := Step(src, dst, a, st);
    var s2 := Step(src, dst, b, s1);
    var s3 := Step(src, dst, c, s2);
    ExecCons(src, dst, a, [b, c, d] + xs, st);
    ExecCons(src, dst, b, [c, d] + xs, s1);
    ExecCons(src, dst, c, [d] + xs, s2);
    ExecCons(src, dst, d, xs, s3);
    assert [a, b, c, d] + xs == [a] + ([b, c, d] + xs);
    assert [b, c, d] + xs == [b] + ([c, d] + xs);
    assert [c, d] + xs == [c] + ([d] + xs);
  }

  lemma StoredLoad(m: Mem, src: int, dst: int, off: int, n: nat)
    ensures Moved(src, dst, off, off + n, m, Store(m, dst + off, Load(m, src + off, n)))
  {
    var b := Load(m, src + off, n);
    var end, m2 := off + n, Store(m, dst + off, b);
    forall p: int ensures MovedAt(src, dst, off, end, m, m2, p) {
      StoreAt(m, dst + off, b, p);
    }
  }

  // One chunk: load it whole, then store it.
  lemma MoveEffect(src: int, dst: int, t: nat, off: int, n: nat, xs: seq<Ins>, st: State) returns (st1: State)
    ensures Moved(src, dst, off, off + n, st.mem, st1.mem)
    ensures Exec(src, dst, OneMove(t, off, n) + xs, st) == Exec(src, dst, xs, st1)
  {
    var m := OneMove(t, off, n);
    ExecFour(src, dst, m[0], m[1], m[2], m[3], xs, st);
    st1 := Step(src, dst, m[3], Step(src, dst, m[2], Step(src, dst, m[1], Step(src, dst, m[0], st))));
    var b := Load(st.mem, src + off, n);
    assert st1.mem == Store(st.mem, dst + off, b);
    StoredLoad(st.mem, src, dst, off, n);
  }

  // A chunk in front of moves for higher bytes.
  lemma GrowUp(src: int, dst: int, t: nat, off: int, n: nat, xs: seq<Ins>, size: int)
    requires off + n <= size && MayGoUp(src, dst, size) && 0 <= off && Copies(src, dst, xs, off + n, size)
    ensures Copies(src, dst, OneMove(t, off, n) + xs, off, size)
  {
    hide Moved;
    hide Exec;
    hide OneMove;
    forall st: State ensures Moved(src, dst, off, size, st.mem, Exec(src, dst, OneMove(t, off, n) + xs, st).mem) {
      var st1 := MoveEffect(src, dst, t, off, n, xs, st);
      Sequenced(src, dst, off, off + n, off + n, size, st.mem, st1.mem, Exec(src, dst, xs, st1).mem);
    }
  }

  // A chunk in front of moves for lower bytes.
  lemma GrowDown(src: int, dst: int, t: nat, off: int, n: nat, xs: seq<Ins>, size: int)
    requires off + n <= size && MayGoDown(src, dst, size) && 0 <= off && Copies(src, dst, xs, 0, off)
    ensures Copies(src, dst, OneMove(t, off, n) + xs, 0, off + n)
  {
    hide Moved;
    hide Exec;
    hide OneMove;
    forall st: State ensures Moved(src, dst, 0, off + n, st.mem, Exec(src, dst, OneMove(t, off, n) + xs, st).mem) {
      var st1 := MoveEffect(src, dst, t, off, n, xs, st);
      Sequenced(src, dst, off, off + n, 0, off, st.mem, st1.mem, Exec(src, dst, xs, st1).mem);
    }
  }

  // Two neighbouring moves, the first not touching what the second reads.
  lemma Sequenced(src: int, dst: int, lo: int, hi: int, lo2: int, hi2: int, m: Mem, m1: Mem, m2: Mem)
    requires Moved(src, dst, lo, hi, m, m1) && Moved(src, dst, lo2, hi2, m1, m2)
    requires lo <= hi && lo2 <= hi2 && (hi == lo2 || hi2 == lo)
    requires src + hi2 <= dst + lo || dst + hi <= src + lo2
    ensures Moved(src, dst, if lo < lo2 then lo else lo2, if hi < hi2 then hi2 else hi, m, m2)
  {
    var first, end := if lo < lo2 then lo else lo2, if hi < hi2 then hi2 else hi;
    forall p: int ensures MovedAt(src, dst, first, end, m, m2, p) {
      assert MovedAt(src, dst, lo2, hi2, m1, m2, p) && MovedAt(src, dst, lo, hi, m, m1, p);
      assert MovedAt(src, dst, lo, hi, m, m1, src + (p - dst));
    }
  }

  // ---- the emitter ------------------------------------------------------------------------

  // The fewest moves n bytes take with chunks of 8 (if there are such), 4, 2 and 1.
  function Chunks(n: nat, i386: bool): nat {
    (if i386 then n / 4 else n / 8 + n % 8 / 4) + n % 4 / 2 + n % 2
  }

  // The moves left from entry p of the table on.
  function ChunksFrom(n: nat, p: nat): nat {
    match p
    case 0 => n / 8 + n % 8 / 4 + n % 4 / 2 + n % 2
    case 1 => n / 4 + n % 4 / 2 + n % 2
    case 2 => n / 2 + n % 2
    case 3 => n
    case _ => 0
  }

  lemma OneChunk(n: nat, p: nat, size: nat)
    requires p < 4 && size == [8, 4, 2, 1][p]
    ensures n >= size ==> ChunksFrom(n, p) == ChunksFrom(n - size, p) + 1
    ensures n < size ==> ChunksFrom(n, p) == ChunksFrom(n, p + 1)
  {
    match p
    case 0 => Eight(n);
    case 1 => Four(n);
    case 2 =>
    case _ =>
  }

  lemma ChunkEnds(n: nat, i386: bool)
    ensures Chunks(n, i386) == ChunksFrom(n, if i386 then 1 else 0)
    ensures forall p: nat :: ChunksFrom(0, p) == 0
  {
  }

  lemma Eight(n: nat)
    ensures n >= 8 ==> (n - 8) / 8 == n / 8 - 1 && (n - 8) % 8 == n % 8 && (n - 8) % 4 == n % 4 && (n - 8) % 2 == n % 2
    ensures n < 8 ==> n / 8 == 0 && n % 8 == n
  {
    if n >= 8 {
      Less4(n - 4);
      Less4(n);
      Less2(n - 2);
      Less2(n);
      Less2(n - 4);
      Less2(n - 6);
    }
  }

  lemma Four(n: nat)
    ensures n >= 4 ==> (n - 4) / 4 == n / 4 - 1 && (n - 4) % 4 == n % 4 && (n - 4) % 2 == n % 2
    ensures n < 4 ==> n / 4 == 0 && n % 4 == n
  {
    if n >= 4 {
      Less4(n);
      Less2(n);
      Less2(n - 2);
    }
  }

  lemma Less4(n: nat)
    requires n >= 4
    ensures (n - 4) / 4 == n / 4 - 1 && (n - 4) % 4 == n % 4
  {
  }

  lemma Less2(n: nat)
    requires n >= 2
    ensures (n - 2) % 2 == n % 2
  {
  }

  class Emitter {
    var curi: seq<Ins>
    var ntmp: nat

    constructor ()
      ensures curi == []
    {
      curi, ntmp := [], 0;
    }

    method Emit(x: Ins)
      modifies this`curi
      ensures curi == [x] + old(curi)
    {
      curi := [x] + curi;
    }

    // One round of the inner loop, the chunk of n bytes at off.
    method Move(off: int, n: nat)
      modifies this
      ensures curi == OneMove(old(ntmp), off, n) + old(curi) && |OneMove(old(ntmp), off, n)| == 4
    {
      var r, r1, r2 := ntmp, ntmp + 1, ntmp + 2;
      ntmp := ntmp + 3;
      ghost var c := curi;
      Emit(St(n, r, r1));
      Emit(Add(r1, true, off));
      Emit(Ld(r, n, r2));
      Emit(Add(r2, false, off));
      assert curi == OneMove(r, off, n) + c;
    }

    // blit: sz bytes, run upwards in memory if sz is not negative, else |sz| downwards.
    method Blit(sz: int, i386: bool)
      modifies this
      requires curi == []
      ensures sz >= 0 ==> AllUp(curi, 0, sz)
      ensures sz < 0 ==> AllDown(curi, -sz, -sz)
      ensures |curi| == 4 * Chunks(if sz >= 0 then sz else -sz, i386)
    {
      hide OneMove;
      hide Chunks;
      hide ChunksFrom;
      hide AllUp;
      hide AllDown;
      var tbl := [8, 4, 2, 1];
      var fwd := sz >= 0;
      var size := if fwd then sz else -sz;
      var left := size;
      var off := if fwd then size else 0;
      var p: nat := if i386 then 1 else 0;
      ChunkEnds(size, i386);
      NothingToCopy(size);
      while left != 0
        invariant 0 <= left <= size && p <= 4 && (p == 4 ==> left == 0)
        invariant off == if fwd then left else size - left
        invariant fwd ==> AllUp(curi, off, size)
        invariant !fwd ==> AllDown(curi, off, size)
        invariant |curi| == 4 * (Chunks(size, i386) - ChunksFrom(left, p))
        decreases 4 - p
      {
        var n: nat := tbl[p];
        while left >= n
          invariant 0 <= left <= size && n == tbl[p] && n > 0
          invariant off == if fwd then left else size - left
          invariant fwd ==> AllUp(curi, off, size)
          invariant !fwd ==> AllDown(curi, off, size)
          invariant |curi| == 4 * (Chunks(size, i386) - ChunksFrom(left, p))
          decreases left
        {
          ghost var xs, t := curi, ntmp;
          if fwd {
            off := off - n;
          }
          OneChunk(left, p, n);
          Move(off, n);
          if fwd {
            UpStep(t, off, n, xs, size);
          } else {
            DownStep(t, off, n, xs, size);
            off := off + n;
          }
          left := left - n;
        }
        OneChunk(left, p, n);
        p := p + 1;
      }
    }
  }

  // For every source and destination for which upwards, or downwards, is safe.
  ghost predicate AllUp(xs: seq<Ins>, off: int, size: int) {
    forall src: int, dst: int :: MayGoUp(src, dst, size) ==> Copies(src, dst, xs, off, size)
  }

  ghost predicate AllDown(xs: seq<Ins>, off: int, size: int) {
    forall src: int, dst: int :: MayGoDown(src, dst, size) ==> Copies(src, dst, xs, 0, off)
  }

  lemma NothingToCopy(size: int)
    ensures AllUp([], size, size) && AllDown([], 0, size)
  {
  }

  lemma UpStep(t: nat, off: int, n: nat, xs: seq<Ins>, size: int)
    requires AllUp(xs, off + n, size) && 0 <= off && off + n <= size
    ensures AllUp(OneMove(t, off, n) + xs, off, size)
  {
    hide Copies;
    forall src: int, dst: int | MayGoUp(src, dst, size) ensures Copies(src, dst, OneMove(t, off, n) + xs, off, size) {
      GrowUp(src, dst, t, off, n, xs, size);
    }
  }

  lemma DownStep(t: nat, off: int, n: nat, xs: seq<Ins>, size: int)
    requires AllDown(xs, off, size) && 0 <= off && off + n <= size
    ensures AllDown(OneMove(t, off, n) + xs, off + n, size)
  {
    hide Copies;
    forall src: int, dst: int | MayGoDown(src, dst, size) ensures Copies(src, dst, OneMove(t, off, n) + xs, 0, off + n) {
      GrowDown(src, dst, t, off, n, xs, size);
    }
  }

  // ---- the direction --------------------------------------------------------------------------

  // What coalesce makes of a copy between two places of one slot: nothing if
  // they are the same, downwards if the source is below.
  datatype Fix = Drop | Keep(sz: int)

  function FixBlit(off0: int, off1: int, sz: int): Fix {
    if off0 < off1 then Keep(-sz) else if off0 == off1 then Drop else Keep(sz)
  }

  ghost predicate CopiesIn(base: int, off0: int, off1: int, xs: seq<Ins>, sz: int) {
    Copies(base + off0, base + off1, xs, 0, sz)
  }

  // The two together: copy of a slot's bytes off0.. to off1.. .
  method CopyInSlot(off0: int, off1: int, sz: int, i386: bool) returns (xs: seq<Ins>)
    requires sz >= 0
    ensures forall base: int :: CopiesIn(base, off0, off1, xs, sz)
  {
    var fix := FixBlit(off0, off1, sz);
    xs := [];
    match fix {
      case Drop =>
        forall base: int ensures CopiesIn(base, off0, off1, xs, sz) {
          forall st: State ensures Moved(base + off0, base + off1, 0, sz, st.mem, Exec(base + off0, base + off1, xs, st).mem) {
            DropIsCopy(base + off0, sz, st.mem);
          }
        }
      case Keep(s) =>
        var e := new Emitter();
        e.Blit(s, i386);
        xs := e.curi;
        forall base: int ensures CopiesIn(base, off0, off1, xs, sz) {
          FixedDirection(base, off0, off1, sz);
        }
    }
  }

  // ---- facts that unfold at once ----------------------------------------------------------

  // With that direction a copy inside one slot is a memmove, whatever the overlap.
  lemma FixedDirection(base: int, off0: int, off1: int, sz: int)
    requires sz >= 0
    ensures match FixBlit(off0, off1, sz)
            case Drop => off0 == off1
            case Keep(s) =>
              && (s == sz || s == -sz)
              && (s >= 0 ==> MayGoUp(base + off0, base + off1, sz))
              && (s < 0 ==> MayGoDown(base + off0, base + off1, sz))
  {
  }

  // A dropped copy would have changed nothing.
  lemma DropIsCopy(src: int, sz: int, m: Mem)
    ensures Moved(src, src, 0, sz, m, m)
  {
  }
}
