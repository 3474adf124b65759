// mir/gvn.c, mgvn: value numbers, the bucketed table, the dominance test and the
// in-place rewriting.  What the result means is proved in Gvn.dfy.
//
// A replacement scans the function where the source follows the use chains
// that build_uses recorded; both reach every operand, phi argument and terminator.
module GvnPass {
  import opened Graph
  import opened DomTree
  import opened Mir
  import opened Gvn
  import MirCfg

  const NBKT: nat := 4096
  const WORD: nat := 0x1_0000_0000

  datatype Entry = Entry(op: nat, ty: nat, vn0: nat, vn1: nat, vnc: nat, canon: nat, defblk: nat)

  // Value number of an operand, in the source's 32-bit arithmetic.
  function Mvn(vn: seq<nat>, nvn: nat, r: Ref): nat {
    match r
    case NoRef => 0
    case Con(c) => (0x8000_0000 + c) % WORD
    case Use(v) =>
      match v
      case ConstVal(c) => (0x8000_0000 + c) % WORD
      case GlobalVal(id) => (0x4000_0000 + id) % WORD
      case Temp(id) => if id < nvn && id < |vn| then vn[id] else 0
      case _ => 0
  }

  predicate Signed(e: Entry, op: nat, ty: nat, vn0: nat, vn1: nat) {
    e.op == op && e.ty == ty && e.vn0 == vn0 && e.vn1 == vn1
  }

  function Bucket(op: nat, ty: nat, vn0: nat, vn1: nat): (h: nat)
    ensures h < NBKT
  {
    var h0 := (op * 131 + ty * 17) % WORD;
    var h1 := (h0 * 33 + vn0) % WORD;
    var h2 := (h1 * 33 + vn1) % WORD;
    h2 % NBKT
  }

  // ---- what the pass may assume -------------------------------------------------------

  function Total(f: Fn, b: nat): nat
    requires b <= |f.blk|
  {
    if b == 0 then 0 else Total(f, b - 1) + |f.blk[b - 1].ins|
  }

  // Values are numbered below nval, pooled constants below ncon.
  ghost predicate RefFits(r: Ref, nval: nat, ncon: nat) {
    match r
    case NoRef => true
    case Con(c) => c < ncon
    case Use(v) =>
      match v
      case Temp(id) => id < nval
      case GlobalVal(id) => id < nval
      case ConstVal(c) => c < ncon
      case _ => false
  }

  // The tagged ranges of value numbers do not run into each other.
  ghost predicate Fits(f: Fn, nval: nat, ncon: nat) {
    && nval + Total(f, |f.blk|) < 0x2000_0000 && ncon <= 0x8000_0000
    && (forall b: nat, i: nat :: b < |f.blk| && i < |f.blk[b].ins| ==> PureFits(f.blk[b].ins[i], nval, ncon))
  }

  ghost predicate PureFits(x: Ins, nval: nat, ncon: nat) {
    x.Pure? ==> x.dst.Temp? && x.dst.id < nval && RefFits(x.a, nval, ncon) && RefFits(x.b, nval, ncon)
  }

  // ---- the state between two instructions ------------------------------------------------

  // v is computed by a pure instruction in front of (b, i).
  ghost predicate Seen(f: Fn, b: nat, i: nat, v: nat) {
    exists c: nat, j: nat :: InFront(f, b, i, c, j) && PureAt(f, v, c, j)
  }

  ghost predicate RepOk(f: Fn, nval: nat, rep: Rep, b: nat, i: nat) {
    && GoodRep(f, rep)
    && (forall y: nat :: y in rep ==> Seen(f, b, i, y) && Seen(f, b, i, rep[y]) && y < nval && rep[y] < nval)
  }

  // Values still in use have numbers of their own.
  ghost predicate VnOk(nval: nat, rep: Rep, vn: seq<nat>, nvn: nat) {
    && |vn| == nval && nvn > nval
    && (forall v: nat :: v < nval ==> 0 < vn[v] < nvn)
    && (forall u: nat, v: nat :: u < nval && v < nval && u != v && u !in rep && v !in rep ==> vn[u] != vn[v])
  }

  ghost predicate EntryFor(f: Fn, rep: Rep, vn: seq<nat>, nvn: nat, e: Entry, c: nat, j: nat) {
    && PureAt(f, e.canon, c, j) && e.canon !in rep && e.defblk == c
    && e.canon < |vn| && e.vnc == vn[e.canon]
    && (var x := f.blk[c].ins[j];
        && e.op == x.op && e.ty == x.ty
        && e.vn0 == Mvn(vn, nvn, Sub(rep, x.a)) && e.vn1 == Mvn(vn, nvn, Sub(rep, x.b)))
  }

  ghost predicate EntryOk(f: Fn, rep: Rep, vn: seq<nat>, nvn: nat, e: Entry, b: nat, i: nat) {
    exists c: nat, j: nat :: InFront(f, b, i, c, j) && EntryFor(f, rep, vn, nvn, e, c, j)
  }

  ghost predicate TableOk(f: Fn, rep: Rep, vn: seq<nat>, nvn: nat, bkt: seq<seq<Entry>>, b: nat, i: nat) {
    && |bkt| == NBKT
    && (forall h: nat, k: nat :: h < NBKT && k < |bkt[h]| ==> EntryOk(f, rep, vn, nvn, bkt[h][k], b, i))
  }

  // Every computation kept so far can be found in its bucket.
  ghost predicate Registered(f: Fn, rep: Rep, vn: seq<nat>, nvn: nat, bkt: seq<seq<Entry>>, b: nat, i: nat) {
    forall c: nat, j: nat :: InFront(f, b, i, c, j) && Stays(f, rep, c, j) ==> InTable(f, rep, vn, nvn, bkt, c, j)
  }

  ghost predicate Stays(f: Fn, rep: Rep, c: nat, j: nat)
    requires c < |f.blk| && j < |f.blk[c].ins|
  {
    f.blk[c].ins[j].Pure? && !Gone(rep, f.blk[c].ins[j])
  }

  ghost predicate InTable(f: Fn, rep: Rep, vn: seq<nat>, nvn: nat, bkt: seq<seq<Entry>>, c: nat, j: nat)
    requires c < |f.blk| && j < |f.blk[c].ins| && f.blk[c].ins[j].Pure?
  {
    var x := f.blk[c].ins[j];
    var h := Bucket(x.op, x.ty, Mvn(vn, nvn, Sub(rep, x.a)), Mvn(vn, nvn, Sub(rep, x.b)));
    h < |bkt| && exists k: nat :: k < |bkt[h]| && EntryFor(f, rep, vn, nvn, bkt[h][k], c, j)
  }

  // Nothing kept in front of (b, i) recomputes what a dominating computation gives.
  ghost predicate NoneRedundant(f: Fn, rep: Rep, b: nat, i: nat) {
    forall c: nat, j: nat, c': nat, j': nat ::
      InFront(f, b, i, c, j) && InFront(f, b, i, c', j') ==> !Redoes(f, rep, c, j, c', j')
  }

  // (c, j) is kept although (c', j'), kept too, dominates it and computes the same.
  ghost predicate Redoes(f: Fn, rep: Rep, c: nat, j: nat, c': nat, j': nat)
    requires c < |f.blk| && j < |f.blk[c].ins| && c' < |f.blk| && j' < |f.blk[c'].ins|
  {
    && Stays(f, rep, c, j) && Stays(f, rep, c', j') && Before(f.g, c', j', c, j)
    && SameComputation(rep, f.blk[c].ins[j], f.blk[c'].ins[j'])
  }

  ghost predicate SoFar(f: Fn, nval: nat, ncon: nat, rep: Rep, vn: seq<nat>, nvn: nat, bkt: seq<seq<Entry>>, b: nat, i: nat) {
    && Input(f) && Fits(f, nval, ncon)
    && b <= |f.blk| && (if b < |f.blk| then i <= |f.blk[b].ins| else i == 0)
    && nvn <= nval + 1 + Total(f, b) + i
    && RepOk(f, nval, rep, b, i) && VnOk(nval, rep, vn, nvn)
    && TableOk(f, rep, vn, nvn, bkt, b, i) && Registered(f, rep, vn, nvn, bkt, b, i)
    && NoneRedundant(f, rep, b, i)
  }

  // ---- equal numbers, equal operands ----------------------------------------------------

  lemma {:induction false} TotalGrows(f: Fn, b: nat, c: nat)
    requires b <= c <= |f.blk|
    ensures Total(f, b) <= Total(f, c)
    decreases c
  {
    if b < c {
      TotalGrows(f, b, c - 1);
    }
  }

  lemma NumbersTell(nval: nat, ncon: nat, rep: Rep, vn: seq<nat>, nvn: nat, r: Ref, s: Ref)
    requires VnOk(nval, rep, vn, nvn) && nvn <= 0x2000_0000 && ncon <= 0x8000_0000
    requires RefFits(r, nval, ncon) && RefFits(s, nval, ncon)
    requires r.Use? ==> !Lost(rep, r.v)
    requires s.Use? ==> !Lost(rep, s.v)
    ensures Mvn(vn, nvn, r) == Mvn(vn, nvn, s) <==> RefSame(r, s)
  {
    RangeOf(nval, ncon, rep, vn, nvn, r);
    RangeOf(nval, ncon, rep, vn, nvn, s);
  }

  // An operand of an instruction at or in front of (b, i), forwarded: it fits,
  // is not eliminated, and is not the result of (b, i).
  lemma OperandHere(f: Fn, nval: nat, ncon: nat, rep: Rep, b: nat, i: nat, c: nat, j: nat, r: Ref)
    requires Input(f) && Fits(f, nval, ncon) && RepOk(f, nval, rep, b, i)
    requires b < |f.blk| && i < |f.blk[b].ins|
    requires InFront(f, b, i + 1, c, j) && f.blk[c].ins[j].Pure? && (r == f.blk[c].ins[j].a || r == f.blk[c].ins[j].b)
    ensures RefFits(Sub(rep, r), nval, ncon)
    ensures Sub(rep, r).Use? ==> !Lost(rep, Sub(rep, r).v)
    ensures f.blk[b].ins[i].Pure? ==> r != Use(f.blk[b].ins[i].dst) && Sub(rep, r) != Use(f.blk[b].ins[i].dst)
  {
    var x := f.blk[b].ins[i];
    assert PureFits(f.blk[c].ins[j], nval, ncon);
    if Sub(rep, r).Use? {
      SubKept(f, rep, r);
    }
    if x.Pure? {
      assert PureFits(x, nval, ncon);
      NotYet(f, b, i, c, j, r);
      if r.Use? && r.v.Temp? && r.v.id in rep {
        SeenNotHere(f, b, i, rep[r.v.id]);
      }
    }
  }

  // The result of (b, i) is no operand of anything up to and including (b, i).
  lemma NotYet(f: Fn, b: nat, i: nat, c: nat, j: nat, r: Ref)
    requires Input(f) && b < |f.blk| && i < |f.blk[b].ins| && f.blk[b].ins[i].Pure?
    requires InFront(f, b, i + 1, c, j) && f.blk[c].ins[j].Pure? && (r == f.blk[c].ins[j].a || r == f.blk[c].ins[j].b)
    ensures r != Use(f.blk[b].ins[i].dst)
  {
    var v := f.blk[b].ins[i].dst;
    var x := f.blk[c].ins[j];
    assert DstOf(f.blk[b].ins[i]) == Some(v);
    assert DefAt(f, v, b, i);
    assert RefBefore(f, Ref0(x), c, j) && RefBefore(f, Ref1(x), c, j);
    if r == Use(v) {
      var b0: nat, i0: int :| DefAt(f, v, b0, i0) && Before(f.g, b0, i0, c, j);
      assert b0 == b && i0 == i;
      Earlier(f, b, i, c, j);
    }
  }

  lemma SeenNotHere(f: Fn, b: nat, i: nat, v: nat)
    requires Input(f) && b < |f.blk| && i < |f.blk[b].ins| && f.blk[b].ins[i].Pure? && Seen(f, b, i, v)
    ensures f.blk[b].ins[i].dst != Temp(v)
  {
    var c: nat, j: nat :| InFront(f, b, i, c, j) && PureAt(f, v, c, j);
    assert DefAt(f, Temp(v), c, j);
    assert f.blk[b].ins[i].dst == Temp(v) ==> DefAt(f, Temp(v), b, i);
  }

  lemma SeenMore(f: Fn, b: nat, i: nat, v: nat)
    requires Seen(f, b, i, v)
    ensures Seen(f, b, i + 1, v)
  {
    var c: nat, j: nat :| InFront(f, b, i, c, j) && PureAt(f, v, c, j);
    assert InFront(f, b, i + 1, c, j);
  }

  // ---- one instruction of the pass ---------------------------------------------------------

  lemma RepMore(f: Fn, nval: nat, rep: Rep, b: nat, i: nat)
    requires RepOk(f, nval, rep, b, i)
    ensures RepOk(f, nval, rep, b, i + 1)
  {
    hide GoodRep;
    forall y: nat | y in rep ensures Seen(f, b, i + 1, y) && Seen(f, b, i + 1, rep[y]) {
      SeenMore(f, b, i, y);
      SeenMore(f, b, i, rep[y]);
    }
  }

  lemma TableMore(f: Fn, rep: Rep, vn: seq<nat>, nvn: nat, bkt: seq<seq<Entry>>, b: nat, i: nat)
    requires TableOk(f, rep, vn, nvn, bkt, b, i)
    ensures TableOk(f, rep, vn, nvn, bkt, b, i + 1)
  {
    hide EntryOk;
    forall h: nat, k: nat | h < NBKT && k < |bkt[h]| ensures EntryOk(f, rep, vn, nvn, bkt[h][k], b, i + 1) {
      EntryMore(f, rep, vn, nvn, bkt[h][k], b, i);
    }
  }

  lemma RegisteredSkip(f: Fn, rep: Rep, vn: seq<nat>, nvn: nat, bkt: seq<seq<Entry>>, b: nat, i: nat)
    requires Registered(f, rep, vn, nvn, bkt, b, i) && b < |f.blk| && i < |f.blk[b].ins| && !f.blk[b].ins[i].Pure?
    ensures Registered(f, rep, vn, nvn, bkt, b, i + 1)
  {
    hide InTable;
  }

  lemma RedundantSkip(f: Fn, rep: Rep, b: nat, i: nat)
    requires NoneRedundant(f, rep, b, i) && b < |f.blk| && i < |f.blk[b].ins| && !f.blk[b].ins[i].Pure?
    ensures NoneRedundant(f, rep, b, i + 1)
  {
    forall c: nat, j: nat, c': nat, j': nat | InFront(f, b, i + 1, c, j) && InFront(f, b, i + 1, c', j')
      ensures !Redoes(f, rep, c, j, c', j')
    {
      if (c != b || j != i) && (c' != b || j' != i) {
        assert InFront(f, b, i, c, j) && InFront(f, b, i, c', j');
      }
    }
  }

  // An instruction that is not numbered.
  lemma SkipStep(f: Fn, nval: nat, ncon: nat, rep: Rep, vn: seq<nat>, nvn: nat, bkt: seq<seq<Entry>>, b: nat, i: nat)
    requires SoFar(f, nval, ncon, rep, vn, nvn, bkt, b, i) && b < |f.blk| && i < |f.blk[b].ins| && !f.blk[b].ins[i].Pure?
    ensures SoFar(f, nval, ncon, rep, vn, nvn, bkt, b, i + 1)
  {
    hide Input;
    hide Fits;
    hide RepOk;
    hide VnOk;
    hide TableOk;
    hide Registered;
    hide NoneRedundant;
    RepMore(f, nval, rep, b, i);
    TableMore(f, rep, vn, nvn, bkt, b, i);
    RegisteredSkip(f, rep, vn, nvn, bkt, b, i);
    RedundantSkip(f, rep, b, i);
  }

  lemma EntryMore(f: Fn, rep: Rep, vn: seq<nat>, nvn: nat, e: Entry, b: nat, i: nat)
    requires EntryOk(f, rep, vn, nvn, e, b, i)
    ensures EntryOk(f, rep, vn, nvn, e, b, i + 1)
  {
    var c: nat, j: nat :| InFront(f, b, i, c, j) && EntryFor(f, rep, vn, nvn, e, c, j);
    assert InFront(f, b, i + 1, c, j);
  }

  // The state after (b, i)'s result got a number, and maybe a canonical value.
  ghost predicate Moved(f: Fn, nval: nat, ncon: nat, rep: Rep, vn: seq<nat>, nvn: nat, rep': Rep, vn': seq<nat>, nvn': nat,
                        b: nat, i: nat) {
    && Input(f) && Fits(f, nval, ncon) && b < |f.blk| && i < |f.blk[b].ins| && RepOk(f, nval, rep, b, i)
    && VnOk(nval, rep, vn, nvn) && nvn <= nvn'
    && (var x := f.blk[b].ins[i];
        && x.Pure? && x.dst.Temp? && x.dst.id < |vn| == |vn'|
        && (forall v: nat :: v < |vn| && v != x.dst.id ==> vn'[v] == vn[v])
        && (forall v: nat :: v != x.dst.id ==> (v in rep' <==> v in rep) && (v in rep ==> rep'[v] == rep[v])))
  }

  // Operands in front keep their forwarding and their numbers.
  lemma OperandKept(f: Fn, nval: nat, ncon: nat, rep: Rep, vn: seq<nat>, nvn: nat, rep': Rep, vn': seq<nat>, nvn': nat,
                    b: nat, i: nat, c: nat, j: nat, r: Ref)
    requires Moved(f, nval, ncon, rep, vn, nvn, rep', vn', nvn', b, i)
    requires InFront(f, b, i + 1, c, j) && f.blk[c].ins[j].Pure? && (r == f.blk[c].ins[j].a || r == f.blk[c].ins[j].b)
    ensures Sub(rep', r) == Sub(rep, r)
    ensures Mvn(vn', nvn', Sub(rep, r)) == Mvn(vn, nvn, Sub(rep, r))
  {
    hide StrictSsa;
    hide GoodRep;
    OperandHere(f, nval, ncon, rep, b, i, c, j, r);
  }

  // Both operands at once.
  lemma OperandsKept(f: Fn, nval: nat, ncon: nat, rep: Rep, vn: seq<nat>, nvn: nat, rep': Rep, vn': seq<nat>, nvn': nat,
                     b: nat, i: nat, c: nat, j: nat)
    requires Moved(f, nval, ncon, rep, vn, nvn, rep', vn', nvn', b, i)
    requires c < |f.blk| && j < |f.blk[c].ins| && InFront(f, b, i + 1, c, j) && f.blk[c].ins[j].Pure?
    ensures var x := f.blk[c].ins[j];
            && Sub(rep', x.a) == Sub(rep, x.a) && Mvn(vn', nvn', Sub(rep, x.a)) == Mvn(vn, nvn, Sub(rep, x.a))
            && Sub(rep', x.b) == Sub(rep, x.b) && Mvn(vn', nvn', Sub(rep, x.b)) == Mvn(vn, nvn, Sub(rep, x.b))
  {
    hide *;
    OperandKept(f, nval, ncon, rep, vn, nvn, rep', vn', nvn', b, i, c, j, f.blk[c].ins[j].a);
    OperandKept(f, nval, ncon, rep, vn, nvn, rep', vn', nvn', b, i, c, j, f.blk[c].ins[j].b);
  }

  // What was in front is not (b, i)'s result.
  lemma DstApart(f: Fn, b: nat, i: nat, c: nat, j: nat)
    requires Input(f) && b < |f.blk| && i < |f.blk[b].ins| && f.blk[b].ins[i].Pure?
    requires InFront(f, b, i, c, j) && f.blk[c].ins[j].Pure?
    ensures f.blk[c].ins[j].dst != f.blk[b].ins[i].dst
  {
    var v := f.blk[c].ins[j].dst;
    assert DefAt(f, v, c, j);
    assert f.blk[b].ins[i].dst == v ==> DefAt(f, v, b, i);
  }

  lemma EntryKept(f: Fn, nval: nat, ncon: nat, rep: Rep, vn: seq<nat>, nvn: nat, rep': Rep, vn': seq<nat>, nvn': nat,
                  b: nat, i: nat, c: nat, j: nat, e: Entry)
    requires Moved(f, nval, ncon, rep, vn, nvn, rep', vn', nvn', b, i)
    requires InFront(f, b, i, c, j) && EntryFor(f, rep, vn, nvn, e, c, j)
    ensures EntryFor(f, rep', vn', nvn', e, c, j)
  {
    hide StrictSsa;
    hide GoodRep;
    hide Fits;
    OperandsKept(f, nval, ncon, rep, vn, nvn, rep', vn', nvn', b, i, c, j);
    DstApart(f, b, i, c, j);
  }

  lemma MergeKept(f: Fn, nval: nat, ncon: nat, rep: Rep, vn: seq<nat>, nvn: nat, rep': Rep, vn': seq<nat>, nvn': nat,
                  b: nat, i: nat, y: nat)
    requires Moved(f, nval, ncon, rep, vn, nvn, rep', vn', nvn', b, i) && y in rep
    requires f.blk[b].ins[i].dst.id !in rep
    ensures y in rep' && rep'[y] == rep[y] && HasMerge(f, rep', y)
  {
    assert Seen(f, b, i, y) && Seen(f, b, i, rep[y]);
    SeenNotHere(f, b, i, y);
    SeenNotHere(f, b, i, rep[y]);
    assert HasMerge(f, rep, y);
    var b0: nat, i0: nat, c0: nat, j0: nat :| Merge(f, rep, y, b0, i0, c0, j0);
    SeenAt(f, b, i, y, b0, i0);
    Earlier(f, c0, j0, b0, i0);
    OperandsKept(f, nval, ncon, rep, vn, nvn, rep', vn', nvn', b, i, b0, i0);
    OperandsKept(f, nval, ncon, rep, vn, nvn, rep', vn', nvn', b, i, c0, j0);
    assert Merge(f, rep', y, b0, i0, c0, j0);
  }

  lemma SeenAt(f: Fn, b: nat, i: nat, y: nat, b0: nat, i0: nat)
    requires Input(f) && Seen(f, b, i, y) && PureAt(f, y, b0, i0)
    ensures InFront(f, b, i, b0, i0)
  {
    var c: nat, j: nat :| InFront(f, b, i, c, j) && PureAt(f, y, c, j);
    assert DefAt(f, Temp(y), c, j) && DefAt(f, Temp(y), b0, i0);
  }

  lemma TableKept(f: Fn, nval: nat, ncon: nat, rep: Rep, vn: seq<nat>, nvn: nat, rep': Rep, vn': seq<nat>, nvn': nat,
                  bkt: seq<seq<Entry>>, b: nat, i: nat)
    requires Moved(f, nval, ncon, rep, vn, nvn, rep', vn', nvn', b, i) && TableOk(f, rep, vn, nvn, bkt, b, i)
    ensures TableOk(f, rep', vn', nvn', bkt, b, i + 1)
  {
    hide Moved;
    hide EntryFor;
    forall h: nat, k: nat | h < NBKT && k < |bkt[h]| ensures EntryOk(f, rep', vn', nvn', bkt[h][k], b, i + 1) {
      assert EntryOk(f, rep, vn, nvn, bkt[h][k], b, i);
      var c: nat, j: nat :| InFront(f, b, i, c, j) && EntryFor(f, rep, vn, nvn, bkt[h][k], c, j);
      EntryKept(f, nval, ncon, rep, vn, nvn, rep', vn', nvn', b, i, c, j, bkt[h][k]);
      assert InFront(f, b, i + 1, c, j);
    }
  }

  lemma InTableKept(f: Fn, nval: nat, ncon: nat, rep: Rep, vn: seq<nat>, nvn: nat, rep': Rep, vn': seq<nat>, nvn': nat,
                    bkt: seq<seq<Entry>>, b: nat, i: nat, c: nat, j: nat)
    requires Moved(f, nval, ncon, rep, vn, nvn, rep', vn', nvn', b, i)
    requires c < |f.blk| && j < |f.blk[c].ins| && InFront(f, b, i, c, j) && f.blk[c].ins[j].Pure?
    requires InTable(f, rep, vn, nvn, bkt, c, j)
    ensures InTable(f, rep', vn', nvn', bkt, c, j)
  {
    hide Moved;
    hide EntryFor;
    hide Bucket;
    hide Mvn;
    hide Sub;
    var x := f.blk[c].ins[j];
    assert InFront(f, b, i + 1, c, j);
    OperandsKept(f, nval, ncon, rep, vn, nvn, rep', vn', nvn', b, i, c, j);
    var h := Bucket(x.op, x.ty, Mvn(vn, nvn, Sub(rep, x.a)), Mvn(vn, nvn, Sub(rep, x.b)));
    var k: nat :| k < |bkt[h]| && EntryFor(f, rep, vn, nvn, bkt[h][k], c, j);
    EntryKept(f, nval, ncon, rep, vn, nvn, rep', vn', nvn', b, i, c, j, bkt[h][k]);
  }

  lemma RedoesKept(f: Fn, nval: nat, ncon: nat, rep: Rep, vn: seq<nat>, nvn: nat, rep': Rep, vn': seq<nat>, nvn': nat,
                   b: nat, i: nat, c: nat, j: nat, c': nat, j': nat)
    requires Moved(f, nval, ncon, rep, vn, nvn, rep', vn', nvn', b, i)
    requires InFront(f, b, i, c, j) && InFront(f, b, i, c', j') && Redoes(f, rep', c, j, c', j')
    ensures Redoes(f, rep, c, j, c', j')
  {
    hide StrictSsa;
    hide GoodRep;
    OperandsKept(f, nval, ncon, rep, vn, nvn, rep', vn', nvn', b, i, c, j);
    OperandsKept(f, nval, ncon, rep, vn, nvn, rep', vn', nvn', b, i, c', j');
    DstApart(f, b, i, c, j);
    DstApart(f, b, i, c', j');
  }

  lemma FreshDst(f: Fn, nval: nat, rep: Rep, b: nat, i: nat)
    requires Input(f) && RepOk(f, nval, rep, b, i) && b < |f.blk| && i < |f.blk[b].ins|
    requires f.blk[b].ins[i].Pure? && f.blk[b].ins[i].dst.Temp?
    ensures f.blk[b].ins[i].dst.id !in rep
    ensures forall y: nat :: y in rep ==> rep[y] != f.blk[b].ins[i].dst.id
  {
    hide StrictSsa;
    hide GoodRep;
    var y := f.blk[b].ins[i].dst.id;
    if y in rep {
      SeenNotHere(f, b, i, y);
    }
    forall z: nat | z in rep ensures rep[z] != y {
      SeenNotHere(f, b, i, rep[z]);
    }
  }

  // ---- a computation found in the table --------------------------------------------------------

  ghost predicate Matches(e: Entry, x: Ins, rep: Rep, vn: seq<nat>, nvn: nat)
    requires x.Pure?
  {
    e.op == x.op && e.ty == x.ty && e.vn0 == Mvn(vn, nvn, Sub(rep, x.a)) && e.vn1 == Mvn(vn, nvn, Sub(rep, x.b))
  }

  // Equal signatures are equal computations.
  lemma SignatureTells(f: Fn, nval: nat, ncon: nat, rep: Rep, vn: seq<nat>, nvn: nat, b: nat, i: nat, c: nat, j: nat)
    requires Input(f) && Fits(f, nval, ncon) && RepOk(f, nval, rep, b, i) && VnOk(nval, rep, vn, nvn) && nvn <= 0x2000_0000
    requires b < |f.blk| && i < |f.blk[b].ins| && f.blk[b].ins[i].Pure? && InFront(f, b, i, c, j) && f.blk[c].ins[j].Pure?
    ensures var x, z := f.blk[b].ins[i], f.blk[c].ins[j];
            SameComputation(rep, x, z) <==>
              x.op == z.op && x.ty == z.ty
              && Mvn(vn, nvn, Sub(rep, x.a)) == Mvn(vn, nvn, Sub(rep, z.a))
              && Mvn(vn, nvn, Sub(rep, x.b)) == Mvn(vn, nvn, Sub(rep, z.b))
  {
    hide StrictSsa;
    hide GoodRep;
    hide VnOk;
    hide Mvn;
    hide RefSame;
    var x, z := f.blk[b].ins[i], f.blk[c].ins[j];
    OperandHere(f, nval, ncon, rep, b, i, b, i, x.a);
    OperandHere(f, nval, ncon, rep, b, i, b, i, x.b);
    OperandHere(f, nval, ncon, rep, b, i, c, j, z.a);
    OperandHere(f, nval, ncon, rep, b, i, c, j, z.b);
    NumbersTell(nval, ncon, rep, vn, nvn, Sub(rep, x.a), Sub(rep, z.a));
    NumbersTell(nval, ncon, rep, vn, nvn, Sub(rep, x.b), Sub(rep, z.b));
  }

  // The new pair is a proper merge.
  lemma NewMerge(f: Fn, nval: nat, ncon: nat, rep: Rep, vn: seq<nat>, nvn: nat, e: Entry, vn': seq<nat>, b: nat, i: nat, c: nat, j: nat)
    requires b < |f.blk| && i < |f.blk[b].ins| && f.blk[b].ins[i].Pure? && f.blk[b].ins[i].dst.Temp?
    requires var rep' := rep[f.blk[b].ins[i].dst.id := e.canon]; Moved(f, nval, ncon, rep, vn, nvn, rep', vn', nvn, b, i)
    requires nvn <= 0x2000_0000 && InFront(f, b, i, c, j) && EntryFor(f, rep, vn, nvn, e, c, j)
    requires Matches(e, f.blk[b].ins[i], rep, vn, nvn) && Dom(f.g, e.defblk, b)
    ensures var y := f.blk[b].ins[i].dst.id; HasMerge(f, rep[y := e.canon], y)
  {
    hide StrictSsa;
    hide GoodRep;
    hide Mvn;
    var y := f.blk[b].ins[i].dst.id;
    var rep' := rep[y := e.canon];
    SignatureTells(f, nval, ncon, rep, vn, nvn, b, i, c, j);
    OperandsKept(f, nval, ncon, rep, vn, nvn, rep', vn', nvn, b, i, b, i);
    OperandsKept(f, nval, ncon, rep, vn, nvn, rep', vn', nvn, b, i, c, j);
    DstApart(f, b, i, c, j);
    assert Merge(f, rep', y, b, i, c, j);
  }

  // What a matching entry of the table stands for.
  lemma EntryTells(f: Fn, nval: nat, ncon: nat, rep: Rep, vn: seq<nat>, nvn: nat, rep': Rep, e: Entry, vn': seq<nat>, b: nat, i: nat)
    returns (c: nat, j: nat)
    requires Moved(f, nval, ncon, rep, vn, nvn, rep', vn', nvn, b, i) && EntryOk(f, rep, vn, nvn, e, b, i)
    ensures InFront(f, b, i, c, j) && EntryFor(f, rep, vn, nvn, e, c, j) && Seen(f, b, i, e.canon)
    ensures e.canon < nval && e.canon !in rep && e.canon != f.blk[b].ins[i].dst.id && 0 < e.vnc < nvn
    ensures f.blk[b].ins[i].dst.id < nval
  {
    hide StrictSsa;
    hide Mvn;
    hide GoodRep;
    hide Fits;
    c, j :| InFront(f, b, i, c, j) && EntryFor(f, rep, vn, nvn, e, c, j);
    DstApart(f, b, i, c, j);
  }

  lemma RepAfterMerge(f: Fn, nval: nat, ncon: nat, rep: Rep, vn: seq<nat>, nvn: nat, e: Entry, vn': seq<nat>, b: nat, i: nat)
    requires b < |f.blk| && i < |f.blk[b].ins| && f.blk[b].ins[i].Pure? && f.blk[b].ins[i].dst.Temp?
    requires var rep' := rep[f.blk[b].ins[i].dst.id := e.canon]; Moved(f, nval, ncon, rep, vn, nvn, rep', vn', nvn, b, i)
    requires nvn <= 0x2000_0000 && EntryOk(f, rep, vn, nvn, e, b, i)
    requires Matches(e, f.blk[b].ins[i], rep, vn, nvn) && Dom(f.g, e.defblk, b)
    ensures var y := f.blk[b].ins[i].dst.id; RepOk(f, nval, rep[y := e.canon], b, i + 1)
    ensures e.canon < nval && e.canon !in rep && e.canon != f.blk[b].ins[i].dst.id && 0 < e.vnc < nvn
  {
    hide StrictSsa;
    hide Mvn;
    hide Fits;
    hide Seen;
    hide HasMerge;
    hide Matches;
    hide EntryOk;
    hide EntryFor;
    hide VnOk;
    var y := f.blk[b].ins[i].dst.id;
    var rep' := rep[y := e.canon];
    FreshDst(f, nval, rep, b, i);
    var c, j := EntryTells(f, nval, ncon, rep, vn, nvn, rep', e, vn', b, i);
    NewMerge(f, nval, ncon, rep, vn, nvn, e, vn', b, i, c, j);
    SeenMore(f, b, i, e.canon);
    SeenNow(f, b, i);
    forall z: nat | z in rep' ensures HasMerge(f, rep', z) && Seen(f, b, i + 1, z) && Seen(f, b, i + 1, rep'[z]) {
      if z != y {
        MergeKept(f, nval, ncon, rep, vn, nvn, rep', vn', nvn, b, i, z);
        SeenMore(f, b, i, z);
        SeenMore(f, b, i, rep[z]);
      }
    }
  }

  lemma SeenNow(f: Fn, b: nat, i: nat)
    requires b < |f.blk| && i < |f.blk[b].ins| && f.blk[b].ins[i].Pure? && f.blk[b].ins[i].dst.Temp?
    ensures Seen(f, b, i + 1, f.blk[b].ins[i].dst.id)
  {
    assert InFront(f, b, i + 1, b, i) && PureAt(f, f.blk[b].ins[i].dst.id, b, i);
  }

  // Forwarding y to c after everything forwarded before.
  ghost predicate Extends(rep: Rep, y: nat, c: nat) {
    y !in rep && y != c && c !in rep && forall z: nat :: z in rep ==> rep[z] != y
  }

  lemma MergeStep(f: Fn, nval: nat, ncon: nat, rep: Rep, vn: seq<nat>, nvn: nat, bkt: seq<seq<Entry>>, b: nat, i: nat, e: Entry)
    requires SoFar(f, nval, ncon, rep, vn, nvn, bkt, b, i) && b < |f.blk| && i < |f.blk[b].ins|
    requires f.blk[b].ins[i].Pure? && f.blk[b].ins[i].dst.Temp? && f.blk[b].ins[i].dst.id < |vn|
    requires EntryOk(f, rep, vn, nvn, e, b, i) && Matches(e, f.blk[b].ins[i], rep, vn, nvn) && Dom(f.g, e.defblk, b)
    ensures var y := f.blk[b].ins[i].dst.id;
            && Extends(rep, y, e.canon) && y !in rep
            && SoFar(f, nval, ncon, rep[y := e.canon], vn[y := e.vnc], nvn, bkt, b, i + 1)
  {
    hide StrictSsa;
    hide GoodRep;
    hide EntryOk;
    hide EntryFor;
    hide Mvn;
    hide Matches;
    hide InTable;
    hide Redoes;
    var y := f.blk[b].ins[i].dst.id;
    var rep', vn' := rep[y := e.canon], vn[y := e.vnc];
    TotalGrows(f, b + 1, |f.blk|);
    assert Moved(f, nval, ncon, rep, vn, nvn, rep', vn', nvn, b, i);
    RepAfterMerge(f, nval, ncon, rep, vn, nvn, e, vn', b, i);
    FreshDst(f, nval, rep, b, i);
    TableKept(f, nval, ncon, rep, vn, nvn, rep', vn', nvn, bkt, b, i);
    forall c: nat, j: nat | InFront(f, b, i + 1, c, j) && Stays(f, rep', c, j) ensures InTable(f, rep', vn', nvn, bkt, c, j) {
      assert InFront(f, b, i, c, j);
      InTableKept(f, nval, ncon, rep, vn, nvn, rep', vn', nvn, bkt, b, i, c, j);
    }
    forall c: nat, j: nat, c': nat, j': nat | InFront(f, b, i + 1, c, j) && InFront(f, b, i + 1, c', j')
      ensures !Redoes(f, rep', c, j, c', j')
    {
      RedoesAfterMerge(f, nval, ncon, rep, vn, nvn, rep', vn', b, i, c, j, c', j');
    }
  }

  lemma RedoesAfterMerge(f: Fn, nval: nat, ncon: nat, rep: Rep, vn: seq<nat>, nvn: nat, rep': Rep, vn': seq<nat>,
                         b: nat, i: nat, c: nat, j: nat, c': nat, j': nat)
    requires Moved(f, nval, ncon, rep, vn, nvn, rep', vn', nvn, b, i) && NoneRedundant(f, rep, b, i)
    requires f.blk[b].ins[i].dst.id in rep'
    requires InFront(f, b, i + 1, c, j) && InFront(f, b, i + 1, c', j')
    ensures !Redoes(f, rep', c, j, c', j')
  {
    hide StrictSsa;
    hide GoodRep;
    hide RepOk;
    hide VnOk;
    hide Fits;
    if Redoes(f, rep', c, j, c', j') {
      assert InFront(f, b, i, c, j) && InFront(f, b, i, c', j');
      RedoesKept(f, nval, ncon, rep, vn, nvn, rep', vn', nvn, b, i, c, j, c', j');
    }
  }

  // ---- a computation not found ---------------------------------------------------------------

  function EntryOf(x: Ins, rep: Rep, vn: seq<nat>, nvn: nat, b: nat): Entry
    requires x.Pure? && x.dst.Temp?
  {
    Entry.Entry(x.op, x.ty, Mvn(vn, nvn, Sub(rep, x.a)), Mvn(vn, nvn, Sub(rep, x.b)), nvn, x.dst.id, b)
  }

  // No entry of the bucket is a dominating match.
  ghost predicate NoMatch(f: Fn, rep: Rep, vn: seq<nat>, nvn: nat, es: seq<Entry>, x: Ins, b: nat)
    requires x.Pure?
  {
    forall k: nat :: k < |es| && Matches(es[k], x, rep, vn, nvn) ==> !Dom(f.g, es[k].defblk, b)
  }

  function HashOf(x: Ins, rep: Rep, vn: seq<nat>, nvn: nat): nat
    requires x.Pure?
  {
    Bucket(x.op, x.ty, Mvn(vn, nvn, Sub(rep, x.a)), Mvn(vn, nvn, Sub(rep, x.b)))
  }

  function Put(bkt: seq<seq<Entry>>, h: nat, e: Entry): seq<seq<Entry>>
    requires h < |bkt|
  {
    bkt[h := [e] + bkt[h]]
  }

  lemma NewEntry(f: Fn, nval: nat, ncon: nat, rep: Rep, vn: seq<nat>, nvn: nat, vn': seq<nat>, b: nat, i: nat)
    requires Moved(f, nval, ncon, rep, vn, nvn, rep, vn', nvn + 1, b, i)
    requires f.blk[b].ins[i].dst.id !in rep && vn'[f.blk[b].ins[i].dst.id] == nvn
    ensures EntryFor(f, rep, vn', nvn + 1, EntryOf(f.blk[b].ins[i], rep, vn, nvn, b), b, i)
  {
    hide StrictSsa;
    hide GoodRep;
    hide Mvn;
    OperandsKept(f, nval, ncon, rep, vn, nvn, rep, vn', nvn + 1, b, i, b, i);
  }

  lemma TablePut(f: Fn, rep: Rep, vn: seq<nat>, nvn: nat, bkt: seq<seq<Entry>>, b: nat, i: nat, h: nat, e: Entry)
    requires TableOk(f, rep, vn, nvn, bkt, b, i + 1) && h < NBKT
    requires b < |f.blk| && i < |f.blk[b].ins| && EntryFor(f, rep, vn, nvn, e, b, i)
    ensures TableOk(f, rep, vn, nvn, Put(bkt, h, e), b, i + 1)
  {
    hide EntryFor;
    assert InFront(f, b, i + 1, b, i);
    assert EntryOk(f, rep, vn, nvn, e, b, i + 1);
    hide EntryOk;
    var bkt' := Put(bkt, h, e);
    forall g: nat, k: nat | g < NBKT && k < |bkt'[g]| ensures EntryOk(f, rep, vn, nvn, bkt'[g][k], b, i + 1) {
      assert bkt'[g][k] == e || (g == h && k > 0 && bkt'[g][k] == bkt[g][k - 1]) || bkt'[g][k] == bkt[g][k];
    }
  }

  lemma InTablePut(f: Fn, rep: Rep, vn: seq<nat>, nvn: nat, bkt: seq<seq<Entry>>, c: nat, j: nat, h: nat, e: Entry)
    requires c < |f.blk| && j < |f.blk[c].ins| && f.blk[c].ins[j].Pure? && h < |bkt|
    requires InTable(f, rep, vn, nvn, bkt, c, j)
    ensures InTable(f, rep, vn, nvn, Put(bkt, h, e), c, j)
  {
    hide EntryFor;
    hide Bucket;
    hide Mvn;
    hide Sub;
    var x := f.blk[c].ins[j];
    var g := Bucket(x.op, x.ty, Mvn(vn, nvn, Sub(rep, x.a)), Mvn(vn, nvn, Sub(rep, x.b)));
    var k: nat :| k < |bkt[g]| && EntryFor(f, rep, vn, nvn, bkt[g][k], c, j);
    assert Put(bkt, h, e)[g][if g == h then k + 1 else k] == bkt[g][k];
  }

  lemma InTableNew(f: Fn, nval: nat, ncon: nat, rep: Rep, vn: seq<nat>, nvn: nat, vn': seq<nat>, bkt: seq<seq<Entry>>, b: nat, i: nat)
    requires Moved(f, nval, ncon, rep, vn, nvn, rep, vn', nvn + 1, b, i) && |bkt| == NBKT
    requires f.blk[b].ins[i].dst.id !in rep && vn'[f.blk[b].ins[i].dst.id] == nvn
    ensures var x := f.blk[b].ins[i];
            InTable(f, rep, vn', nvn + 1, Put(bkt, HashOf(x, rep, vn, nvn), EntryOf(x, rep, vn, nvn, b)), b, i)
  {
    hide StrictSsa;
    hide GoodRep;
    hide Mvn;
    hide EntryFor;
    hide EntryOf;
    var x := f.blk[b].ins[i];
    var h, e := HashOf(x, rep, vn, nvn), EntryOf(x, rep, vn, nvn, b);
    NewEntry(f, nval, ncon, rep, vn, nvn, vn', b, i);
    OperandsKept(f, nval, ncon, rep, vn, nvn, rep, vn', nvn + 1, b, i, b, i);
    assert Put(bkt, h, e)[h][0] == e;
  }

  // What the search did not find is not there to be found.
  lemma NotRedone(f: Fn, nval: nat, ncon: nat, rep: Rep, vn: seq<nat>, nvn: nat, bkt: seq<seq<Entry>>, b: nat, i: nat, c: nat, j: nat)
    requires SoFar(f, nval, ncon, rep, vn, nvn, bkt, b, i) && nvn <= 0x2000_0000
    requires b < |f.blk| && i < |f.blk[b].ins| && f.blk[b].ins[i].Pure? && InFront(f, b, i, c, j)
    requires var x := f.blk[b].ins[i]; NoMatch(f, rep, vn, nvn, bkt[HashOf(x, rep, vn, nvn)], x, b)
    ensures !Redoes(f, rep, b, i, c, j)
  {
    hide StrictSsa;
    hide GoodRep;
    hide Mvn;
    hide SameComputation;
    hide Bucket;
    if c == b {
      DomRefl(f.g, b);
    }
    if f.blk[c].ins[j].Pure? {
      SignatureTells(f, nval, ncon, rep, vn, nvn, b, i, c, j);
    }
  }

  lemma RedoesAfterPut(f: Fn, nval: nat, ncon: nat, rep: Rep, vn: seq<nat>, nvn: nat, bkt: seq<seq<Entry>>,
                       b: nat, i: nat, c: nat, j: nat, c': nat, j': nat)
    requires SoFar(f, nval, ncon, rep, vn, nvn, bkt, b, i) && nvn <= 0x2000_0000
    requires b < |f.blk| && i < |f.blk[b].ins| && f.blk[b].ins[i].Pure?
    requires var x := f.blk[b].ins[i]; NoMatch(f, rep, vn, nvn, bkt[HashOf(x, rep, vn, nvn)], x, b)
    requires InFront(f, b, i + 1, c, j) && InFront(f, b, i + 1, c', j')
    ensures !Redoes(f, rep, c, j, c', j')
  {
    hide StrictSsa;
    hide GoodRep;
    hide Mvn;
    hide SameComputation;
    hide RepOk;
    hide VnOk;
    hide TableOk;
    hide Registered;
    hide NoMatch;
    if c == b && j == i {
      if c' != b || j' != i {
        NotRedone(f, nval, ncon, rep, vn, nvn, bkt, b, i, c', j');
      }
    } else if c' == b && j' == i {
      if Before(f.g, c', j', c, j) {
        Earlier(f, c', j', c, j);
      }
    } else {
      assert InFront(f, b, i, c, j) && InFront(f, b, i, c', j');
    }
  }

  lemma RegisteredPut(f: Fn, nval: nat, ncon: nat, rep: Rep, vn: seq<nat>, nvn: nat, bkt: seq<seq<Entry>>, b: nat, i: nat)
    requires SoFar(f, nval, ncon, rep, vn, nvn, bkt, b, i) && b < |f.blk| && i < |f.blk[b].ins|
    requires f.blk[b].ins[i].Pure? && f.blk[b].ins[i].dst.Temp? && f.blk[b].ins[i].dst.id < |vn|
    requires |bkt| == NBKT
    requires Moved(f, nval, ncon, rep, vn, nvn, rep, vn[f.blk[b].ins[i].dst.id := nvn], nvn + 1, b, i)
    ensures var x := f.blk[b].ins[i];
            Registered(f, rep, vn[x.dst.id := nvn], nvn + 1,
                       Put(bkt, HashOf(x, rep, vn, nvn), EntryOf(x, rep, vn, nvn, b)), b, i + 1)
  {
    hide Input;
    hide Moved;
    hide EntryFor;
    hide EntryOf;
    hide HashOf;
    hide Mvn;
    hide InTable;
    hide RepOk;
    hide VnOk;
    hide TableOk;
    hide Fits;
    hide NoneRedundant;
    hide Put;
    var x := f.blk[b].ins[i];
    var vn' := vn[x.dst.id := nvn];
    var h, e := HashOf(x, rep, vn, nvn), EntryOf(x, rep, vn, nvn, b);
    HashLow(x, rep, vn, nvn);
    forall c: nat, j: nat | InFront(f, b, i + 1, c, j) && Stays(f, rep, c, j)
      ensures InTable(f, rep, vn', nvn + 1, Put(bkt, h, e), c, j)
    {
      if c == b && j == i {
        InTableNew(f, nval, ncon, rep, vn, nvn, vn', bkt, b, i);
      } else {
        assert InFront(f, b, i, c, j);
        InTableKept(f, nval, ncon, rep, vn, nvn, rep, vn', nvn + 1, bkt, b, i, c, j);
        InTablePut(f, rep, vn', nvn + 1, bkt, c, j, h, e);
      }
    }
  }

  lemma RegisterStep(f: Fn, nval: nat, ncon: nat, rep: Rep, vn: seq<nat>, nvn: nat, bkt: seq<seq<Entry>>, b: nat, i: nat)
    requires SoFar(f, nval, ncon, rep, vn, nvn, bkt, b, i) && b < |f.blk| && i < |f.blk[b].ins|
    requires f.blk[b].ins[i].Pure? && f.blk[b].ins[i].dst.Temp? && f.blk[b].ins[i].dst.id < |vn|
    requires |bkt| == NBKT && var x := f.blk[b].ins[i]; NoMatch(f, rep, vn, nvn, bkt[HashOf(x, rep, vn, nvn)], x, b)
    ensures var x := f.blk[b].ins[i];
            SoFar(f, nval, ncon, rep, vn[x.dst.id := nvn], nvn + 1,
                  Put(bkt, HashOf(x, rep, vn, nvn), EntryOf(x, rep, vn, nvn, b)), b, i + 1)
  {
    hide StrictSsa;
    hide GoodRep;
    hide EntryFor;
    hide EntryOf;
    hide HashOf;
    hide NoMatch;
    hide Mvn;
    hide InTable;
    hide Redoes;
    hide EntryOk;
    hide Registered;
    var x := f.blk[b].ins[i];
    var vn' := vn[x.dst.id := nvn];
    var h, e := HashOf(x, rep, vn, nvn), EntryOf(x, rep, vn, nvn, b);
    TotalGrows(f, b + 1, |f.blk|);
    FreshDst(f, nval, rep, b, i);
    assert Moved(f, nval, ncon, rep, vn, nvn, rep, vn', nvn + 1, b, i);
    RepMore(f, nval, rep, b, i);
    TableKept(f, nval, ncon, rep, vn, nvn, rep, vn', nvn + 1, bkt, b, i);
    NewEntry(f, nval, ncon, rep, vn, nvn, vn', b, i);
    HashLow(x, rep, vn, nvn);
    TablePut(f, rep, vn', nvn + 1, bkt, b, i, h, e);
    RegisteredPut(f, nval, ncon, rep, vn, nvn, bkt, b, i);
    forall c: nat, j: nat, c': nat, j': nat | InFront(f, b, i + 1, c, j) && InFront(f, b, i + 1, c', j')
      ensures !Redoes(f, rep, c, j, c', j')
    {
      RedoesAfterPut(f, nval, ncon, rep, vn, nvn, bkt, b, i, c, j, c', j');
    }
  }

  // The end of one block is the start of the next.
  lemma BlockStep(f: Fn, nval: nat, ncon: nat, rep: Rep, vn: seq<nat>, nvn: nat, bkt: seq<seq<Entry>>, b: nat)
    requires b < |f.blk| && SoFar(f, nval, ncon, rep, vn, nvn, bkt, b, |f.blk[b].ins|)
    ensures SoFar(f, nval, ncon, rep, vn, nvn, bkt, b + 1, 0)
  {
    hide StrictSsa;
    hide GoodRep;
    hide EntryFor;
    hide InTable;
    hide Redoes;
    hide VnOk;
    assert forall c: nat, j: nat :: InFront(f, b, |f.blk[b].ins|, c, j) <==> InFront(f, b + 1, 0, c, j);
    forall y: nat | y in rep ensures Seen(f, b + 1, 0, y) && Seen(f, b + 1, 0, rep[y]) {
      SeenNext(f, b, y);
      SeenNext(f, b, rep[y]);
    }
    forall h: nat, k: nat | h < NBKT && k < |bkt[h]| ensures EntryOk(f, rep, vn, nvn, bkt[h][k], b + 1, 0) {
      EntryNext(f, rep, vn, nvn, bkt[h][k], b);
    }
  }

  lemma SeenNext(f: Fn, b: nat, v: nat)
    requires b < |f.blk| && Seen(f, b, |f.blk[b].ins|, v)
    ensures Seen(f, b + 1, 0, v)
  {
    var c: nat, j: nat :| InFront(f, b, |f.blk[b].ins|, c, j) && PureAt(f, v, c, j);
    assert InFront(f, b + 1, 0, c, j);
  }

  lemma EntryNext(f: Fn, rep: Rep, vn: seq<nat>, nvn: nat, e: Entry, b: nat)
    requires b < |f.blk| && EntryOk(f, rep, vn, nvn, e, b, |f.blk[b].ins|)
    ensures EntryOk(f, rep, vn, nvn, e, b + 1, 0)
  {
    var c: nat, j: nat :| InFront(f, b, |f.blk[b].ins|, c, j) && EntryFor(f, rep, vn, nvn, e, c, j);
    assert InFront(f, b + 1, 0, c, j);
  }

  // ---- the function as rewritten so far --------------------------------------------------------

  ghost predicate Current(f: Fn, rep: Rep, ins: seq<seq<Ins>>, phis: seq<seq<Phi>>, targ: seq<Ref>) {
    && |ins| == |phis| == |targ| == |f.blk|
    && (forall b: nat :: b < |f.blk| ==> BlkCurrent(f.blk[b], rep, ins[b], phis[b], targ[b]))
  }

  ghost predicate BlkCurrent(x: Blk, rep: Rep, ins: seq<Ins>, phis: seq<Phi>, targ: Ref) {
    ins == NewList(rep, x.ins) && phis == SubPhis(rep, x.phis) && targ == Sub(rep, x.targ)
  }

  function SubList(m: Rep, xs: seq<Ins>): seq<Ins> {
    seq(|xs|, k requires 0 <= k < |xs| => SubIns(m, xs[k]))
  }

  lemma SubTwice(rep: Rep, y: nat, c: nat, r: Ref)
    requires Extends(rep, y, c)
    ensures Sub(map[y := c], Sub(rep, r)) == Sub(rep[y := c], r)
  {
    if r.Use? {
      SubValTwice(rep, y, c, r.v);
    }
  }

  lemma InsTwice(rep: Rep, y: nat, c: nat, x: Ins)
    requires Extends(rep, y, c) && !Gone(map[y := c], x)
    ensures SubIns(map[y := c], NewIns(rep, x)) == NewIns(rep[y := c], x)
  {
    SubTwice(rep, y, c, Ref0(x));
    SubTwice(rep, y, c, Ref1(x));
  }

  lemma PhisTwice(rep: Rep, y: nat, c: nat, phis: seq<Phi>)
    requires Extends(rep, y, c)
    ensures SubPhis(map[y := c], SubPhis(rep, phis)) == SubPhis(rep[y := c], phis)
  {
    var m := map[y := c];
    forall k | 0 <= k < |phis| ensures SubArgs(m, SubArgs(rep, phis[k].args)) == SubArgs(rep[y := c], phis[k].args) {
      forall j | 0 <= j < |phis[k].args|
        ensures SubVal(m, SubVal(rep, phis[k].args[j].v)) == SubVal(rep[y := c], phis[k].args[j].v)
      {
        SubValTwice(rep, y, c, phis[k].args[j].v);
      }
    }
  }

  lemma ListTwice(rep: Rep, y: nat, c: nat, xs: seq<Ins>)
    requires Extends(rep, y, c) && forall k :: 0 <= k < |xs| ==> !Gone(map[y := c], xs[k])
    ensures SubList(map[y := c], NewList(rep, xs)) == NewList(rep[y := c], xs)
  {
    forall k | 0 <= k < |xs| ensures SubIns(map[y := c], NewIns(rep, xs[k])) == NewIns(rep[y := c], xs[k]) {
      InsTwice(rep, y, c, xs[k]);
    }
  }

  lemma ListTwiceBut(rep: Rep, y: nat, c: nat, xs: seq<Ins>, i: nat)
    requires Extends(rep, y, c) && i < |xs| && Gone(map[y := c], xs[i])
    requires forall k :: 0 <= k < |xs| && k != i ==> !Gone(map[y := c], xs[k])
    ensures SubList(map[y := c], NewList(rep, xs))[i := Nop] == NewList(rep[y := c], xs)
  {
    forall k | 0 <= k < |xs| && k != i ensures SubIns(map[y := c], NewIns(rep, xs[k])) == NewIns(rep[y := c], xs[k]) {
      InsTwice(rep, y, c, xs[k]);
    }
  }

  // Only (b, i) computes y.
  lemma OnlyThere(f: Fn, b: nat, i: nat, y: nat, c: nat, b': nat, k: nat)
    requires Input(f) && PureAt(f, y, b, i) && b' < |f.blk| && k < |f.blk[b'].ins|
    ensures Gone(map[y := c], f.blk[b'].ins[k]) <==> b' == b && k == i
  {
    assert DefAt(f, Temp(y), b, i);
    assert f.blk[b'].ins[k].Pure? && f.blk[b'].ins[k].dst == Temp(y) ==> DefAt(f, Temp(y), b', k);
  }

  lemma Forwarded(f: Fn, rep: Rep, y: nat, c: nat, b: nat, i: nat,
                  ins: seq<seq<Ins>>, phis: seq<seq<Phi>>, targ: seq<Ref>,
                  ins': seq<seq<Ins>>, phis': seq<seq<Phi>>, targ': seq<Ref>)
    requires Input(f) && Current(f, rep, ins, phis, targ) && Extends(rep, y, c) && PureAt(f, y, b, i)
    requires AllForwarded(map[y := c], ins, phis, targ, ins', phis', targ')
    ensures b < |ins'| && i < |ins'[b]| && Current(f, rep[y := c], ins'[b := ins'[b][i := Nop]], phis', targ')
  {
    hide StrictSsa;
    hide WfFn;
    hide TempResults;
    forall b': nat | b' < |f.blk|
      ensures phis'[b'] == SubPhis(rep[y := c], f.blk[b'].phis) && targ'[b'] == Sub(rep[y := c], f.blk[b'].targ)
      ensures ins'[b := ins'[b][i := Nop]][b'] == NewList(rep[y := c], f.blk[b'].ins)
    {
      assert BlkCurrent(f.blk[b'], rep, ins[b'], phis[b'], targ[b']);
      PhisTwice(rep, y, c, f.blk[b'].phis);
      SubTwice(rep, y, c, f.blk[b'].targ);
      forall k: nat | k < |f.blk[b'].ins| ensures Gone(map[y := c], f.blk[b'].ins[k]) <==> b' == b && k == i {
        OnlyThere(f, b, i, y, c, b', k);
      }
      if b' == b {
        ListTwiceBut(rep, y, c, f.blk[b].ins, i);
      } else {
        ListTwice(rep, y, c, f.blk[b'].ins);
      }
    }
  }

  ghost predicate AllForwarded(m: Rep, ins: seq<seq<Ins>>, phis: seq<seq<Phi>>, targ: seq<Ref>,
                               ins': seq<seq<Ins>>, phis': seq<seq<Phi>>, targ': seq<Ref>)
  {
    && |ins| == |ins'| == |phis| == |phis'| == |targ| == |targ'|
    && ForwardedBelow(m, ins, phis, targ, ins', phis', targ', |ins|)
  }

  ghost predicate ForwardedBelow(m: Rep, ins: seq<seq<Ins>>, phis: seq<seq<Phi>>, targ: seq<Ref>,
                                 ins': seq<seq<Ins>>, phis': seq<seq<Phi>>, targ': seq<Ref>, n: nat)
  {
    && n <= |ins| == |ins'| == |phis| == |phis'| == |targ| == |targ'|
    && (forall b: nat :: b < n ==> ins'[b] == SubList(m, ins[b]) && phis'[b] == SubPhis(m, phis[b]) && targ'[b] == Sub(m, targ[b]))
    && (forall b: nat :: n <= b < |ins| ==> ins'[b] == ins[b] && phis'[b] == phis[b] && targ'[b] == targ[b])
  }

  // What is left of the input when the pass is done: rep says which results were removed,
  // and what stands for them.  It is in strict SSA form again, fit to be numbered once more.
  ghost predicate PassRight(f: Fn, f': Fn, removed: nat) {
    exists rep: Rep :: PassRightFor(f, rep, f', removed)
  }

  ghost predicate PassRightFor(f: Fn, rep: Rep, f': Fn, removed: nat) {
    && Input(f) && GoodRep(f, rep) && f' == NewFn(rep, f) && removed == |rep|
    && Input(f') && OnlyForwarded(f, rep, f') && Equivalent(f, rep, f') && Irredundant(f')
  }

  // For every meaning of the opaque parts, every start and every length of run.
  ghost predicate Equivalent(f: Fn, rep: Rep, f': Fn)
    requires WfFn(f) && WfFn(f')
  {
    forall sem: Sem, st: State, n: nat :: SameRun(rep, Run(sem, {}, f, st, n), Run(sem, {}, f', st, n))
  }

  ghost predicate SameRun(rep: Rep, c: Conf, c': Conf) {
    match c
    case At(b, st) => c'.At? && c'.blk == b && c'.st.w == st.w && AgreeOff(rep, st.env, c'.st.env)
    case Halt(_, _) => c' == c
  }

  // No pure instruction is left below a dominating one with its operation and operands.
  ghost predicate Irredundant(f: Fn) {
    forall b: nat, i: nat, c: nat, j: nat ::
      b < |f.blk| && i < |f.blk[b].ins| && c < |f.blk| && j < |f.blk[c].ins| ==> !Recomputes(f, b, i, c, j)
  }

  ghost predicate Recomputes(f: Fn, b: nat, i: nat, c: nat, j: nat)
    requires b < |f.blk| && i < |f.blk[b].ins| && c < |f.blk| && j < |f.blk[c].ins|
  {
    var x, z := f.blk[b].ins[i], f.blk[c].ins[j];
    && Before(f.g, c, j, b, i) && x.Pure? && z.Pure?
    && x.op == z.op && x.ty == z.ty && RefSame(x.a, z.a) && RefSame(x.b, z.b)
  }

  lemma RecomputesIsRedoes(f: Fn, rep: Rep, b: nat, i: nat, c: nat, j: nat)
    requires b < |f.blk| && i < |f.blk[b].ins| && c < |f.blk| && j < |f.blk[c].ins|
    ensures Recomputes(NewFn(rep, f), b, i, c, j) ==> Redoes(f, rep, b, i, c, j)
  {
    var f' := NewFn(rep, f);
    assert f'.blk[b].ins[i] == NewIns(rep, f.blk[b].ins[i]) && f'.blk[c].ins[j] == NewIns(rep, f.blk[c].ins[j]);
  }

  lemma RunsSame(f: Fn, rep: Rep)
    requires Input(f) && GoodRep(f, rep)
    ensures WfFn(NewFn(rep, f)) && Equivalent(f, rep, NewFn(rep, f))
  {
    hide StrictSsa;
    hide GoodRep;
    var f' := NewFn(rep, f);
    forall sem: Sem, st: State, n: nat ensures SameRun(rep, Run(sem, {}, f, st, n), Run(sem, {}, f', st, n)) {
      GvnPreserves(sem, f, rep, st, n);
    }
  }

  lemma NoneLeft(f: Fn, rep: Rep)
    requires NoneRedundant(f, rep, |f.blk|, 0)
    ensures Irredundant(NewFn(rep, f))
  {
    hide Redoes;
    hide Recomputes;
    var f' := NewFn(rep, f);
    forall b: nat, i: nat, c: nat, j: nat
      | b < |f'.blk| && i < |f'.blk[b].ins| && c < |f'.blk| && j < |f'.blk[c].ins|
      ensures !Recomputes(f', b, i, c, j)
    {
      assert InFront(f, |f.blk|, 0, b, i) && InFront(f, |f.blk|, 0, c, j);
      RecomputesIsRedoes(f, rep, b, i, c, j);
    }
  }

  lemma AllCurrent(f: Fn, rep: Rep, ins: seq<seq<Ins>>, phis: seq<seq<Phi>>, targ: seq<Ref>, f': Fn)
    requires Current(f, rep, ins, phis, targ) && f'.g == f.g && |f'.blk| == |f.blk|
    requires forall b: nat :: b < |f.blk| ==> f'.blk[b] == Blk.Blk(phis[b], ins[b], f.blk[b].term, targ[b])
    ensures f' == NewFn(rep, f)
  {
    forall b: nat | b < |f.blk| ensures f'.blk[b] == NewBlk(rep, f.blk[b]) {
      assert BlkCurrent(f.blk[b], rep, ins[b], phis[b], targ[b]);
    }
    assert f'.blk == NewFn(rep, f).blk;
  }

  lemma AllDone(f: Fn, nval: nat, ncon: nat, rep: Rep, vn: seq<nat>, nvn: nat, bkt: seq<seq<Entry>>,
                ins: seq<seq<Ins>>, phis: seq<seq<Phi>>, targ: seq<Ref>, f': Fn, removed: nat)
    requires SoFar(f, nval, ncon, rep, vn, nvn, bkt, |f.blk|, 0) && Current(f, rep, ins, phis, targ) && removed == |rep|
    requires f'.g == f.g && |f'.blk| == |f.blk|
    requires forall b: nat :: b < |f.blk| ==> f'.blk[b] == Blk.Blk(phis[b], ins[b], f.blk[b].term, targ[b])
    ensures PassRightFor(f, rep, f', removed) && PassRight(f, f', removed)
  {
    hide Input;
    hide GoodRep;
    hide Fits;
    hide VnOk;
    hide TableOk;
    hide Registered;
    hide NoneRedundant;
    hide Equivalent;
    hide Irredundant;
    hide BlkForwarded;
    AllCurrent(f, rep, ins, phis, targ, f');
    NewInput(f, rep);
    NewIsForwarded(f, rep);
    RunsSame(f, rep);
    NoneLeft(f, rep);
  }

  class Numbering {
    const f: Fn                    // the function as it came
    const nval: nat
    const ncon: nat
    var ins: seq<seq<Ins>>         // its instructions, phis and terminators, rewritten in place
    var phis: seq<seq<Phi>>
    var targ: seq<Ref>
    var vn: seq<nat>               // value number of each temporary
    var nvn: nat                   // next fresh number
    var bkt: seq<seq<Entry>>
    var removed: nat
    ghost var rep: Rep

    ghost predicate Reached(b: nat, i: nat)
      reads this
    {
      && SoFar(f, nval, ncon, rep, vn, nvn, bkt, b, i)
      && Current(f, rep, ins, phis, targ)
      && removed == |rep|
    }

    constructor (f: Fn, nval: nat, ncon: nat)
      requires Input(f) && Fits(f, nval, ncon)
      ensures this.f == f && Reached(0, 0)
    {
      this.f, this.nval, this.ncon := f, nval, ncon;
      ins := seq(|f.blk|, b requires 0 <= b < |f.blk| => f.blk[b].ins);
      phis := seq(|f.blk|, b requires 0 <= b < |f.blk| => f.blk[b].phis);
      targ := seq(|f.blk|, b requires 0 <= b < |f.blk| => f.blk[b].targ);
      vn := seq(nval, v requires 0 <= v < nval => v + 1);
      nvn := nval + 1;
      bkt := seq(NBKT, _ => []);
      removed := 0;
      rep := map[];
      new;
      StartRight(f, nval, ncon, vn, bkt);
      NothingForwarded(f, ins, phis, targ);
    }

    // gvn_find: the newest entry of the bucket with the signature whose block dominates b.
    method Find(cfg: MirCfg.MFn, op: nat, ty: nat, vn0: nat, vn1: nat, b: nat) returns (r: Option<Entry>)
      requires cfg.HasDepths() && b < |cfg.idom| && |bkt| == NBKT
      requires forall h: nat, k: nat :: h < NBKT && k < |bkt[h]| ==> bkt[h][k].defblk < |cfg.idom|
      ensures r.Some? ==> var e := r.value;
                e in bkt[Bucket(op, ty, vn0, vn1)] && Signed(e, op, ty, vn0, vn1) && Dom(cfg.G(), e.defblk, b)
      ensures r.None? ==> forall e :: e in bkt[Bucket(op, ty, vn0, vn1)] && Signed(e, op, ty, vn0, vn1) ==> !Dom(cfg.G(), e.defblk, b)
    {
      hide *;
      var es := bkt[Bucket(op, ty, vn0, vn1)];
      var k: nat := 0;
      while k < |es|
        invariant k <= |es| && cfg.HasDepths()
        invariant forall e :: e in es[..k] && Signed(e, op, ty, vn0, vn1) ==> !Dom(cfg.G(), e.defblk, b)
      {
        var e := es[k];
        assert es[..k + 1] == es[..k] + [e];
        if Signed(e, op, ty, vn0, vn1) {
          var d := cfg.Mdom(e.defblk, b);
          if d {
            return Some(e);
          }
        }
        k := k + 1;
      }
      assert es[..k] == es;
      r := None;
    }

    // mref_replace: every use of y becomes a use of c.
    method Replace(y: nat, c: nat)
      requires |ins| == |phis| == |targ|
      modifies this`ins, this`phis, this`targ
      ensures AllForwarded(map[y := c], old(ins), old(phis), old(targ), ins, phis, targ)
    {
      var m := map[y := c];
      var b: nat := 0;
      while b < |ins|
        invariant ForwardedBelow(m, old(ins), old(phis), old(targ), ins, phis, targ, b)
      {
        var xs := ReplaceList(m, ins[b]);
        var ps := ReplacePhis(m, phis[b]);
        ins := ins[b := xs];
        phis := phis[b := ps];
        targ := targ[b := Sub(m, targ[b])];
        b := b + 1;
      }
    }

    static method ReplaceList(m: Rep, xs: seq<Ins>) returns (ys: seq<Ins>)
      ensures ys == SubList(m, xs)
    {
      ys := xs;
      var i := 0;
      while i < |ys|
        invariant 0 <= i <= |ys| == |xs|
        invariant forall k :: 0 <= k < i ==> ys[k] == SubIns(m, xs[k])
        invariant forall k :: i <= k < |xs| ==> ys[k] == xs[k]
      {
        ys := ys[i := SubIns(m, ys[i])];
        i := i + 1;
      }
    }

    static method ReplacePhis(m: Rep, xs: seq<Phi>) returns (ys: seq<Phi>)
      ensures ys == SubPhis(m, xs)
    {
      ys := xs;
      var i := 0;
      while i < |ys|
        invariant 0 <= i <= |ys| == |xs|
        invariant forall k :: 0 <= k < i ==> ys[k] == Phi.Phi(xs[k].dst, SubArgs(m, xs[k].args))
        invariant forall k :: i <= k < |xs| ==> ys[k] == xs[k]
      {
        var as_ := ys[i].args;
        var k := 0;
        while k < |as_|
          invariant 0 <= k <= |as_| == |xs[i].args|
          invariant forall j :: 0 <= j < k ==> as_[j] == PhiArg(SubVal(m, xs[i].args[j].v), xs[i].args[j].blk)
          invariant forall j :: k <= j < |as_| ==> as_[j] == xs[i].args[j]
        {
          as_ := as_[k := PhiArg(SubVal(m, as_[k].v), as_[k].blk)];
          k := k + 1;
        }
        assert as_ == SubArgs(m, xs[i].args);
        ys := ys[i := Phi.Phi(ys[i].dst, as_)];
        i := i + 1;
      }
    }

    // One instruction.
    method Number(cfg: MirCfg.MFn, b: nat, i: nat)
      requires Reached(b, i) && b < |f.blk| && i < |f.blk[b].ins|
      requires cfg.HasDepths() && cfg.G() == f.g
      modifies this
      ensures Reached(b, i + 1)
    {
      hide *;
      Parts(cfg, b, i);
      var x := ins[b][i];
      if !x.Pure? {
        SkipStep(f, nval, ncon, rep, vn, nvn, bkt, b, i);
        StateIs(b, i + 1);
        return;
      }
      var vn0, vn1 := Mvn(vn, nvn, x.a), Mvn(vn, nvn, x.b);
      var e := Find(cfg, x.op, x.ty, vn0, vn1, b);
      ghost var ins0, phis0, targ0 := ins, phis, targ;
      if e.Some? {
        Found(b, i, e.value);
        MergeStep(f, nval, ncon, rep, vn, nvn, bkt, b, i, e.value);
        Replace(x.dst.id, e.value.canon);
        vn := vn[x.dst.id := e.value.vnc];
        Forwarded(f, rep, x.dst.id, e.value.canon, b, i, ins0, phis0, targ0, ins, phis, targ);
        ins := ins[b := ins[b][i := Nop]];
        removed := removed + 1;
        rep := rep[x.dst.id := e.value.canon];
        StateIs(b, i + 1);
      } else {
        NotFound(b, i);
        RegisterStep(f, nval, ncon, rep, vn, nvn, bkt, b, i);
        var h := Bucket(x.op, x.ty, vn0, vn1);
        bkt := bkt[h := [Entry(x.op, x.ty, vn0, vn1, nvn, x.dst.id, b)] + bkt[h]];
        vn := vn[x.dst.id := nvn];
        nvn := nvn + 1;
        StateIs(b, i + 1);
      }
    }

    lemma Parts(cfg: MirCfg.MFn, b: nat, i: nat)
      requires Reached(b, i) && b < |f.blk| && i < |f.blk[b].ins| && cfg.HasDepths() && cfg.G() == f.g
      ensures SoFar(f, nval, ncon, rep, vn, nvn, bkt, b, i) && Current(f, rep, ins, phis, targ) && removed == |rep|
      ensures Input(f) && |ins| == |phis| == |targ| && |bkt| == NBKT && b < |cfg.idom| && b < |ins| && i < |ins[b]|
      ensures forall h: nat, k: nat :: h < NBKT && k < |bkt[h]| ==> bkt[h][k].defblk < |cfg.idom|
      ensures var x0, x := f.blk[b].ins[i], ins[b][i];
              && (x.Pure? <==> x0.Pure?)
              && (x.Pure? ==>
                    && x.op == x0.op && x.ty == x0.ty && x.dst == x0.dst && x.dst.Temp? && x.dst.id < |vn|
                    && x.a == Sub(rep, x0.a) && x.b == Sub(rep, x0.b) && PureAt(f, x.dst.id, b, i))
    {
      hide *;
      Opened(b, i);
      DefsPlaced(f, nval, ncon, rep, vn, nvn, bkt, b, i);
      InsHere(f, nval, ncon, rep, vn, nvn, bkt, ins, phis, targ, b, i);
      cfg.Sized();
    }

    lemma Opened(b: nat, i: nat)
      requires Reached(b, i)
      ensures SoFar(f, nval, ncon, rep, vn, nvn, bkt, b, i) && Current(f, rep, ins, phis, targ) && removed == |rep|
      ensures |ins| == |phis| == |targ| == |f.blk| && |f.blk| == |f.g.s1| && Input(f)
    {
    }

    lemma Found(b: nat, i: nat, e: Entry)
      requires SoFar(f, nval, ncon, rep, vn, nvn, bkt, b, i) && b < |f.blk| && i < |f.blk[b].ins| && f.blk[b].ins[i].Pure?
      requires var x := f.blk[b].ins[i]; var vn0, vn1 := Mvn(vn, nvn, Sub(rep, x.a)), Mvn(vn, nvn, Sub(rep, x.b));
               |bkt| == NBKT && e in bkt[Bucket(x.op, x.ty, vn0, vn1)] && Signed(e, x.op, x.ty, vn0, vn1)
      ensures EntryOk(f, rep, vn, nvn, e, b, i) && Matches(e, f.blk[b].ins[i], rep, vn, nvn)
    {
      hide StrictSsa;
      hide GoodRep;
      hide Registered;
      hide NoneRedundant;
      hide EntryOk;
    }

    lemma NotFound(b: nat, i: nat)
      requires |bkt| == NBKT && b < |f.blk| && i < |f.blk[b].ins| && f.blk[b].ins[i].Pure?
      requires var x := f.blk[b].ins[i]; var vn0, vn1 := Mvn(vn, nvn, Sub(rep, x.a)), Mvn(vn, nvn, Sub(rep, x.b));
               forall e :: e in bkt[Bucket(x.op, x.ty, vn0, vn1)] && Signed(e, x.op, x.ty, vn0, vn1) ==> !Dom(f.g, e.defblk, b)
      ensures var x := f.blk[b].ins[i]; NoMatch(f, rep, vn, nvn, bkt[HashOf(x, rep, vn, nvn)], x, b)
      ensures var x := f.blk[b].ins[i];
              && HashOf(x, rep, vn, nvn) == Bucket(x.op, x.ty, Mvn(vn, nvn, Sub(rep, x.a)), Mvn(vn, nvn, Sub(rep, x.b)))
              && (forall h: nat, e: Entry :: h < |bkt| ==> Put(bkt, h, e) == bkt[h := [e] + bkt[h]])
              && (x.dst.Temp? ==>
                    EntryOf(x, rep, vn, nvn, b) == Entry.Entry(x.op, x.ty, Mvn(vn, nvn, Sub(rep, x.a)), Mvn(vn, nvn, Sub(rep, x.b)), nvn, x.dst.id, b))
    {
      hide Bucket;
      hide Mvn;
    }

    lemma NextBlock(b: nat)
      requires b < |f.blk| && Reached(b, |f.blk[b].ins|)
      ensures Reached(b + 1, 0)
    {
      hide SoFar;
      hide Current;
      BlockStep(f, nval, ncon, rep, vn, nvn, bkt, b);
    }

    lemma Whole()
      requires Reached(|f.blk|, 0)
      ensures SoFar(f, nval, ncon, rep, vn, nvn, bkt, |f.blk|, 0) && Current(f, rep, ins, phis, targ) && removed == |rep|
      ensures |ins| == |phis| == |targ| == |f.blk|
    {
    }

    lemma StateIs(b: nat, i: nat)
      requires SoFar(f, nval, ncon, rep, vn, nvn, bkt, b, i) && Current(f, rep, ins, phis, targ) && removed == |rep|
      ensures Reached(b, i)
    {
    }
  }

  lemma DefsPlaced(f: Fn, nval: nat, ncon: nat, rep: Rep, vn: seq<nat>, nvn: nat, bkt: seq<seq<Entry>>, b: nat, i: nat)
    requires SoFar(f, nval, ncon, rep, vn, nvn, bkt, b, i)
    ensures |bkt| == NBKT
    ensures forall h: nat, k: nat :: h < NBKT && k < |bkt[h]| ==> bkt[h][k].defblk < |f.blk|
  {
    hide Input;
    hide Fits;
    hide RepOk;
    hide VnOk;
    hide Registered;
    hide NoneRedundant;
    hide Mvn;
    forall h: nat, k: nat | h < NBKT && k < |bkt[h]| ensures bkt[h][k].defblk < |f.blk| {
      assert EntryOk(f, rep, vn, nvn, bkt[h][k], b, i);
    }
  }

  // The instruction as it stands: the original, its operands forwarded.
  lemma InsHere(f: Fn, nval: nat, ncon: nat, rep: Rep, vn: seq<nat>, nvn: nat, bkt: seq<seq<Entry>>,
                ins: seq<seq<Ins>>, phis: seq<seq<Phi>>, targ: seq<Ref>, b: nat, i: nat)
    requires SoFar(f, nval, ncon, rep, vn, nvn, bkt, b, i) && Current(f, rep, ins, phis, targ)
    requires b < |f.blk| && i < |f.blk[b].ins|
    ensures b < |ins| && i < |ins[b]|
    ensures var x0, x := f.blk[b].ins[i], ins[b][i];
            && (x.Pure? <==> x0.Pure?)
            && (x.Pure? ==>
                  && x.op == x0.op && x.ty == x0.ty && x.dst == x0.dst && x.dst.Temp? && x.dst.id < |vn|
                  && x.a == Sub(rep, x0.a) && x.b == Sub(rep, x0.b) && PureAt(f, x.dst.id, b, i))
  {
    hide Input;
    hide RepOk;
    hide TableOk;
    hide Registered;
    hide NoneRedundant;
    hide Sub;
    var x0 := f.blk[b].ins[i];
    assert BlkCurrent(f.blk[b], rep, ins[b], phis[b], targ[b]);
    assert PureFits(x0, nval, ncon);
    if x0.Pure? {
      FreshDst(f, nval, rep, b, i);
    }
  }

  // mgvn.
  method Mgvn(f: Fn, nval: nat, ncon: nat) returns (f': Fn, removed: nat)
    requires Input(f) && Fits(f, nval, ncon)
    ensures PassRight(f, f', removed)
  {
    hide *;
    InputParts(f);
    var cfg := new MirCfg.MFn(f.g.s1, f.g.s2);
    cfg.IsG(f.g);
    cfg.FillPreds();
    cfg.FillIdom();
    var n := new Numbering(f, nval, ncon);
    var b: nat := 0;
    while b < |f.blk|
      invariant b <= |f.blk| && n.f == f && n.Reached(b, 0)
      invariant cfg.HasDepths() && cfg.G() == f.g
    {
      var i: nat := 0;
      while i < |f.blk[b].ins|
        invariant i <= |f.blk[b].ins| && n.f == f && n.Reached(b, i)
        invariant cfg.HasDepths() && cfg.G() == f.g
      {
        n.Number(cfg, b, i);
        i := i + 1;
      }
      n.NextBlock(b);
      b := b + 1;
    }
    n.Whole();
    removed := n.removed;
    f' := Fn.Fn(f.g, seq(|f.blk|, k requires 0 <= k < |f.blk| && |n.phis| == |n.ins| == |n.targ| == |f.blk| reads n =>
                           Blk.Blk(n.phis[k], n.ins[k], f.blk[k].term, n.targ[k])));
    AllDone(f, n.nval, n.ncon, n.rep, n.vn, n.nvn, n.bkt, n.ins, n.phis, n.targ, f', removed);
  }

  lemma NothingForwarded(f: Fn, ins: seq<seq<Ins>>, phis: seq<seq<Phi>>, targ: seq<Ref>)
    requires |ins| == |phis| == |targ| == |f.blk|
    requires forall b: nat :: b < |f.blk| ==> ins[b] == f.blk[b].ins && phis[b] == f.blk[b].phis && targ[b] == f.blk[b].targ
    ensures Current(f, map[], ins, phis, targ)
  {
    forall b: nat | b < |f.blk| ensures BlkCurrent(f.blk[b], map[], ins[b], phis[b], targ[b]) {
      assert NewList(map[], f.blk[b].ins) == f.blk[b].ins;
      forall k | 0 <= k < |f.blk[b].phis| ensures SubArgs(map[], f.blk[b].phis[k].args) == f.blk[b].phis[k].args {
      }
      assert SubPhis(map[], f.blk[b].phis) == f.blk[b].phis;
    }
  }

  // ---- facts that unfold at once ----------------------------------------------------------

  // Which of the four ranges the number of an operand lies in.
  lemma RangeOf(nval: nat, ncon: nat, rep: Rep, vn: seq<nat>, nvn: nat, r: Ref)
    requires VnOk(nval, rep, vn, nvn) && nvn <= 0x2000_0000 && ncon <= 0x8000_0000 && RefFits(r, nval, ncon)
    ensures var m := Mvn(vn, nvn, r);
      match r
      case NoRef => m == 0
      case Con(c) => m == 0x8000_0000 + c
      case Use(v) =>
        match v
        case ConstVal(c) => m == 0x8000_0000 + c
        case GlobalVal(id) => m == 0x4000_0000 + id < 0x8000_0000
        case Temp(id) => m == vn[id] && 0 < m < 0x2000_0000
        case _ => false
  {
  }

  lemma HashLow(x: Ins, rep: Rep, vn: seq<nat>, nvn: nat)
    requires x.Pure?
    ensures HashOf(x, rep, vn, nvn) < NBKT
  {
  }

  lemma StartRight(f: Fn, nval: nat, ncon: nat, vn: seq<nat>, bkt: seq<seq<Entry>>)
    requires Input(f) && Fits(f, nval, ncon)
    requires |vn| == nval && forall v: nat :: v < nval ==> vn[v] == v + 1
    requires |bkt| == NBKT && forall h: nat :: h < NBKT ==> bkt[h] == []
    ensures SoFar(f, nval, ncon, map[], vn, nval + 1, bkt, 0, 0)
  {
  }

  lemma SubValTwice(rep: Rep, y: nat, c: nat, v: Val)
    requires Extends(rep, y, c)
    ensures SubVal(map[y := c], SubVal(rep, v)) == SubVal(rep[y := c], v)
  {
  }

  lemma InputParts(f: Fn)
    requires Input(f)
    ensures RpoNumbered(f.g) && Wf(f.g) && f.g.start == 0 && |f.blk| == |f.g.s1|
  {
  }
}
