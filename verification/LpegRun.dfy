/** The main simulation: running the words of a block computes EvalB of the block. */
module LpegRun {
  import opened LpegCode
  import opened LpegMachine
  import opened LpegPeg
  import opened LpegOpen
  import opened LpegBlock
  import opened LpegExec

  /** The first item of b ends at word z, from where jumps lead on as d says. */
  ghost predicate Placed(c: Code, x: Subject, z: int, b: Block, d: nat, dep: nat) {
    && !b.End? && !b.Prim?
    && Shape(b) && Backed(b, true) && Balanced(b, dep) && Valid(b, d)
    && Slides(c, x, z, z + ItemSlide(b.k, d))
  }

  /** Control at the exit of the first item goes where jumps lead from its end. */
  lemma ExitDone(c: Code, x: Subject, z: int, k: Block, d: nat, e: nat)
    requires Slides(c, x, z, z + ItemSlide(k, d)) && GoodExit(e, k, d)
    ensures Slides(c, x, z + e, z + ItemSlide(k, d))
  {
    SlidesRefl(c, x, z + e);
  }

  // ---- where the parts of an item stand ----

  ghost predicate TestJmpAt(c: Code, p: int, z: int, t: Check, f1: Code, f2: Code, ex: nat, x: nat) {
    var p1 := p + CheckSize(t);
    var q := p1 + |f1|;
    && At(c, p) == ICheck(t, q + 1 + ex - p) && Sub(c, p1, f1)
    && At(c, q) == IJmp(1 + |f2| + x) && Sub(c, q + 1, f2) && q + 1 + |f2| == z && p >= 0
  }

  /** A test that jumps to `out`, then f, then the instruction `last`. */
  ghost predicate HeadAt(c: Code, p: int, z: int, t: Check, out: int, f: Code, last: Cell) {
    var p1 := p + CheckSize(t);
    && At(c, p) == ICheck(t, out - p) && Sub(c, p1, f)
    && At(c, p1 + |f|) == last && p1 + |f| + 1 == z && p >= 0
  }

  /** A choice with alternative `out`, then f, then the instruction `last`. */
  ghost predicate ChoiceAt(c: Code, p: int, z: int, out: int, f: Code, last: Cell) {
    && At(c, p) == IChoice(out - p, 0) && Sub(c, p + 1, f)
    && At(c, p + 1 + |f|) == last && p + 1 + |f| + 1 == z && p >= 0
  }

  /** A choice with alternative `out`, perhaps behind a test that jumps there too. */
  ghost predicate OtChoiceAt(c: Code, p: int, ot: Option<Check>, aux: nat, out: int) {
    && (ot.Some? ==> At(c, p) == ICheck(ot.value, out - p))
    && At(c, p + OtSize(ot)) == IChoice(out - p - OtSize(ot), aux) && p >= 0
  }

  ghost predicate NotAt(c: Code, p: int, z: int, ot: Option<Check>, f: Code, x: nat) {
    var p0 := p + OtSize(ot);
    && OtChoiceAt(c, p, ot, OtStep(ot), z + x) && Sub(c, p0 + 1, f)
    && At(c, p0 + 1 + |f|) == IFailTwice && p0 + 1 + |f| + 1 == z
  }

  ghost predicate UnionAt(c: Code, p: int, z: int, ot: Option<Check>, aux: nat, ff: Code, fm: Code, m: nat, fe: Code,
      ex: nat, x: nat) {
    var p0 := p + OtSize(ot);
    && OtChoiceAt(c, p, ot, aux, z - |fe| + ex)
    && Sub(c, p0 + 1, ff) && MorePlaced(c, z, fm, m, fe, x, p0 + 1 + |ff|)
  }

  /** What stands at word q when m copies of a union's first alternative are left. */
  ghost predicate MorePlaced(c: Code, z: int, fm: Code, m: nat, fe: Code, x: nat, q: int) {
    var pc := q + |MoreWords(fm, m)|;
    && Sub(c, q, MoreWords(fm, m)) && pc + 1 + |fe| == z
    && At(c, pc) == ICommit(1 + |fe| + x) && Sub(c, pc + 1, fe)
  }

  ghost predicate ItemAt(c: Code, p: int, z: int, b: Block)
    requires !b.End? && !b.Prim?
  {
    match b
    case TestJmp(t, b1, b2, x, _) => TestJmpAt(c, p, z, t, Flat(b1), Flat(b2), Exit(b2, x), x)
    case Union(ot, aux, first, more, m, els, x, _) =>
      UnionAt(c, p, z, ot, aux, Flat(first), Flat(more), m, Flat(els), Exit(els, x), x)
    case Not(ot, b1, x, _) => NotAt(c, p, z, ot, Flat(b1), x)
    case NotHead(t, b1, x, _) => HeadAt(c, p, z, t, z + x, Flat(b1), IFail)
    case And(b1, x, _) => ChoiceAt(c, p, z - 1, z - 1, Flat(b1), IBackCommit(2 + x)) && At(c, z - 1) == IFail
    case Loop(b1, x, _) => ChoiceAt(c, p, z, z + x, Flat(b1), IPartialCommit(-|Flat(b1)|))
    case LoopHead(t, b1, x, _) => HeadAt(c, p, z, t, z + x, Flat(b1), IJmp(-(CheckSize(t) + |Flat(b1)|)))
    case OptHead(t, b1, n, x, _) =>
      Sub(c, p, OptWords(t, Flat(b1), n, x)) && p + |OptWords(t, Flat(b1), n, x)| == z
  }

  lemma Layout(c: Code, p: int, b: Block)
    requires !b.End? && !b.Prim? && Sub(c, p, ItemWords(b))
    ensures ItemAt(c, p, p + |ItemWords(b)|, b)
  {
    match b
    case TestJmp(_, _, _, _, _) => LayoutTestJmp(c, p, b);
    case Union(_, _, _, _, _, _, _, _) => LayoutUnion(c, p, b);
    case Not(_, _, _, _) => LayoutNot(c, p, b);
    case NotHead(_, _, _, _) => LayoutNotHead(c, p, b);
    case And(_, _, _) => LayoutAnd(c, p, b);
    case Loop(_, _, _) => LayoutLoop(c, p, b);
    case LoopHead(_, _, _, _) => LayoutLoopHead(c, p, b);
    case OptHead(_, _, _, _, _) => LayoutOptHead(c, p, b);
  }

  lemma LayoutTestJmp(c: Code, p: int, b: Block)
    requires b.TestJmp? && Sub(c, p, ItemWords(b))
    ensures ItemAt(c, p, p + |ItemWords(b)|, b)
  {
    var z := p + |ItemWords(b)|;
    TestJmpLayout(c, p, z, b.t, Flat(b.b1), Flat(b.b2), Exit(b.b2, b.x), b.x);
  }

  lemma LayoutUnion(c: Code, p: int, b: Block)
    requires b.Union? && Sub(c, p, ItemWords(b))
    ensures ItemAt(c, p, p + |ItemWords(b)|, b)
  {
    hide Flat, MoreWords, UnionWords;
    var z := p + |ItemWords(b)|;
    UnionLayout(c, p, z, b.ot, b.aux, Flat(b.first), Flat(b.more), b.m, Flat(b.els), Exit(b.els, b.x), b.x);
  }

  lemma LayoutNot(c: Code, p: int, b: Block)
    requires b.Not? && Sub(c, p, ItemWords(b))
    ensures ItemAt(c, p, p + |ItemWords(b)|, b)
  {
    var z := p + |ItemWords(b)|;
    NotLayout(c, p, z, b.ot, Flat(b.b), b.x);
  }

  lemma LayoutNotHead(c: Code, p: int, b: Block)
    requires b.NotHead? && Sub(c, p, ItemWords(b))
    ensures ItemAt(c, p, p + |ItemWords(b)|, b)
  {
    var z := p + |ItemWords(b)|;
    HeadLayout(c, p, z, b.t, z + b.x, Flat(b.b), IFail);
  }

  lemma LayoutAnd(c: Code, p: int, b: Block)
    requires b.And? && Sub(c, p, ItemWords(b))
    ensures ItemAt(c, p, p + |ItemWords(b)|, b)
  {
    var z := p + |ItemWords(b)|;
    AndLayout(c, p, z, Flat(b.b), b.x);
  }

  lemma LayoutLoop(c: Code, p: int, b: Block)
    requires b.Loop? && Sub(c, p, ItemWords(b))
    ensures ItemAt(c, p, p + |ItemWords(b)|, b)
  {
    var z := p + |ItemWords(b)|;
    ChoiceLayout(c, p, z, z + b.x, Flat(b.b), IPartialCommit(-|Flat(b.b)|));
  }

  lemma LayoutLoopHead(c: Code, p: int, b: Block)
    requires b.LoopHead? && Sub(c, p, ItemWords(b))
    ensures ItemAt(c, p, p + |ItemWords(b)|, b)
  {
    var z := p + |ItemWords(b)|;
    HeadLayout(c, p, z, b.t, z + b.x, Flat(b.b), IJmp(-(CheckSize(b.t) + |Flat(b.b)|)));
  }

  lemma LayoutOptHead(c: Code, p: int, b: Block)
    requires b.OptHead? && Sub(c, p, ItemWords(b))
    ensures ItemAt(c, p, p + |ItemWords(b)|, b)
  {
  }

  lemma TestJmpLayout(c: Code, p: int, z: int, t: Check, f1: Code, f2: Code, ex: nat, x: nat)
    requires Sub(c, p, TestJmpWords(t, f1, f2, ex, x)) && z == p + |TestJmpWords(t, f1, f2, ex, x)|
    ensures TestJmpAt(c, p, z, t, f1, f2, ex, x)
  {
    var w := Words(ICheck(t, CheckSize(t) + |f1| + 1 + ex));
    Sub4(c, p, w, f1, [IJmp(1 + |f2| + x)], f2);
    SubAt(c, p, w, 0);
    Sub1(c, p + |w| + |f1|, IJmp(1 + |f2| + x));
  }

  lemma HeadLayout(c: Code, p: int, z: int, t: Check, out: int, f: Code, last: Cell)
    requires Sub(c, p, Words(ICheck(t, out - p)) + f + [last]) && z == p + CheckSize(t) + |f| + 1
    ensures HeadAt(c, p, z, t, out, f, last)
  {
    var w := Words(ICheck(t, out - p));
    Sub3(c, p, w, f, [last]);
    SubAt(c, p, w, 0);
    Sub1(c, p + |w| + |f|, last);
  }

  lemma ChoiceLayout(c: Code, p: int, z: int, out: int, f: Code, last: Cell)
    requires Sub(c, p, [IChoice(out - p, 0)] + f + [last]) && z == p + 1 + |f| + 1
    ensures ChoiceAt(c, p, z, out, f, last)
  {
    Sub3(c, p, [IChoice(out - p, 0)], f, [last]);
    Sub1(c, p, IChoice(out - p, 0));
    Sub1(c, p + 1 + |f|, last);
  }

  lemma AndLayout(c: Code, p: int, z: int, f: Code, x: nat)
    requires Sub(c, p, AndWords(f, x)) && z == p + |AndWords(f, x)|
    ensures ChoiceAt(c, p, z - 1, z - 1, f, IBackCommit(2 + x)) && At(c, z - 1) == IFail
  {
    var ch := IChoice(1 + |f| + 1, 0);
    assert AndWords(f, x) == [ch] + f + [IBackCommit(2 + x)] + [IFail];
    SubSplit(c, p, [ch] + f + [IBackCommit(2 + x)], [IFail]);
    Sub1(c, z - 1, IFail);
    ChoiceLayout(c, p, z - 1, z - 1, f, IBackCommit(2 + x));
  }

  lemma OtChoiceLayout(c: Code, p: int, ot: Option<Check>, aux: nat, offset: int)
    requires Sub(c, p, OtChoice(ot, aux, offset))
    ensures OtChoiceAt(c, p, ot, aux, p + OtSize(ot) + offset)
    ensures |OtChoice(ot, aux, offset)| == OtSize(ot) + 1
  {
    var w := OtWords(ot, OtSize(ot) + offset);
    SubSplit(c, p, w, [IChoice(offset, aux)]);
    Sub1(c, p + |w|, IChoice(offset, aux));
    if ot.Some? {
      SubAt(c, p, w, 0);
    }
  }

  lemma NotLayout(c: Code, p: int, z: int, ot: Option<Check>, f: Code, x: nat)
    requires Sub(c, p, NotWords(ot, f, x)) && z == p + |NotWords(ot, f, x)|
    ensures NotAt(c, p, z, ot, f, x)
  {
    var w := OtChoice(ot, OtStep(ot), 1 + |f| + 1 + x);
    Sub3(c, p, w, f, [IFailTwice]);
    OtChoiceLayout(c, p, ot, OtStep(ot), 1 + |f| + 1 + x);
    Sub1(c, p + |w| + |f|, IFailTwice);
  }

  lemma UnionLayout(c: Code, p: int, z: int, ot: Option<Check>, aux: nat, ff: Code, fm: Code, m: nat, fe: Code,
      ex: nat, x: nat)
    requires var w := UnionWords(ot, aux, ff + MoreWords(fm, m), fe, ex, x); Sub(c, p, w) && z == p + |w|
    ensures UnionAt(c, p, z, ot, aux, ff, fm, m, fe, ex, x)
  {
    var mw := MoreWords(fm, m);
    UnionParts(c, p, z, ot, aux, ff + mw, fe, ex, x);
    UnionBodyLayout(c, p, z, ot, aux, ff, fm, m, mw, fe, ex, x);
  }

  lemma UnionParts(c: Code, p: int, z: int, ot: Option<Check>, aux: nat, body: Code, fe: Code, ex: nat, x: nat)
    requires var w := UnionWords(ot, aux, body, fe, ex, x); Sub(c, p, w) && z == p + |w|
    ensures OtChoiceAt(c, p, ot, aux, z - |fe| + ex)
    ensures Sub(c, p + OtSize(ot) + 1, body) && Sub(c, z - |fe|, fe)
    ensures At(c, z - |fe| - 1) == ICommit(1 + |fe| + x)
    ensures z - |fe| - 1 == p + OtSize(ot) + 1 + |body|
  {
    var w := OtChoice(ot, aux, 1 + |body| + 1 + ex);
    var cm := [ICommit(1 + |fe| + x)];
    Sub4(c, p, w, body, cm, fe);
    Sub1(c, p + |w| + |body|, cm[0]);
    OtChoiceLayout(c, p, ot, aux, 1 + |body| + 1 + ex);
  }

  lemma UnionBodyLayout(c: Code, p: int, z: int, ot: Option<Check>, aux: nat, ff: Code, fm: Code, m: nat, mw: Code,
      fe: Code, ex: nat, x: nat)
    requires mw == MoreWords(fm, m) && OtChoiceAt(c, p, ot, aux, z - |fe| + ex)
    requires Sub(c, p + OtSize(ot) + 1, ff + mw) && Sub(c, z - |fe|, fe)
    requires At(c, z - |fe| - 1) == ICommit(1 + |fe| + x)
    requires z - |fe| - 1 == p + OtSize(ot) + 1 + |ff + mw|
    ensures UnionAt(c, p, z, ot, aux, ff, fm, m, fe, ex, x)
  {
    SubSplit(c, p + OtSize(ot) + 1, ff, mw);
  }

  // ---- the simulation ----

  lemma {:induction false} Exec(c: Code, x: Subject, p: int, b: Block, d: nat, dep: nat, stack: seq<Entry>, i: int,
      caps: seq<Capture>, m: nat)
    requires 0 <= i <= |x.s| && Sub(c, p, Flat(b)) && Shape(b) && Backed(b, true) && Balanced(b, dep) && Valid(b, d)
    requires m + dep <= |caps|
    requires Slides(c, x, p + |Flat(b)|, p + |Flat(b)| + d)
    ensures Yields(c, x, Running(p, i, stack, caps), EvalB(b, x, i, caps), p + |Flat(b)| + d, stack, caps, m)
    decreases b, 4, 0
  {
    hide OpenRun, OpenReaches, OpenStep, StepAt, EvalItem, Shape, Balanced, Valid;
    if b.End? {
      ExecEnd(c, x, p, d, stack, i, caps, m);
    } else {
      FlatSplit(c, p, b);
      var z := p + |ItemWords(b)|;
      if b.Prim? {
        ExecStraight(c, x, p, z, b, d, dep, stack, i, caps, m);
      } else {
        Layout(c, p, b);
        ExecJumping(c, x, p, z, b, d, dep, stack, i, caps, m);
      }
    }
  }

  lemma FlatSplit(c: Code, p: int, b: Block)
    requires !b.End? && Sub(c, p, Flat(b))
    ensures Sub(c, p, ItemWords(b)) && Sub(c, p + |ItemWords(b)|, Flat(b.k))
    ensures |Flat(b)| == |ItemWords(b)| + |Flat(b.k)|
  {
    hide ItemWords, Sub;
    assert Flat(b) == ItemWords(b) + Flat(b.k);
    SubSplit(c, p, ItemWords(b), Flat(b.k));
  }

  lemma ExecEnd(c: Code, x: Subject, p: int, d: nat, stack: seq<Entry>, i: int, caps: seq<Capture>, m: nat)
    requires 0 <= i <= |x.s| && m <= |caps| && Slides(c, x, p, p + d)
    ensures Yields(c, x, Running(p, i, stack, caps), Ok(i, caps), p + d, stack, caps, m)
  {
    hide OpenRun, OpenReaches, OpenStep, StepAt;
    YieldsNow(c, x, p, i, stack, caps, caps, m);
    YieldsSlide(c, x, Running(p, i, stack, caps), Ok(i, caps), p, p + d, stack, caps, m);
  }

  lemma {:induction false} ExecStraight(c: Code, x: Subject, p: int, z: int, b: Block, d: nat, dep: nat,
      stack: seq<Entry>, i: int, caps: seq<Capture>, m: nat)
    requires 0 <= i <= |x.s| && b.Prim? && Shape(b) && Backed(b, true) && Balanced(b, dep) && Valid(b, d)
    requires Sub(c, p, Words(b.i)) && z == p + |Words(b.i)| && Sub(c, z, Flat(b.k)) && m + dep <= |caps|
    requires Slides(c, x, z + |Flat(b.k)|, z + |Flat(b.k)| + d)
    ensures Yields(c, x, Running(p, i, stack, caps), EvalB(b, x, i, caps), z + |Flat(b.k)| + d, stack, caps, m)
    decreases b, 3, 1
  {
    hide OpenRun, OpenReaches, OpenStep, StepAt;
    BackedParts(b);
    ExecPrim(c, x, p, b, dep, stack, i, caps, m);
    var dep2 := if b.i.ICapture? && b.i.op.OpenCap? then dep + 1
                else if b.i.ICapture? && b.i.op.CloseCap? then dep - 1 else dep;
    Continue(c, x, Running(p, i, stack, caps), EvalItem(b, x, i, caps), z, b.k, d, dep2, stack, caps, m);
  }

  lemma {:induction false} ExecJumping(c: Code, x: Subject, p: int, z: int, b: Block, d: nat, dep: nat,
      stack: seq<Entry>, i: int, caps: seq<Capture>, m: nat)
    requires 0 <= i <= |x.s| && !b.End? && !b.Prim? && Shape(b) && Backed(b, true) && Balanced(b, dep) && Valid(b, d)
    requires ItemAt(c, p, z, b) && Sub(c, z, Flat(b.k)) && m + dep <= |caps|
    requires Slides(c, x, z + |Flat(b.k)|, z + |Flat(b.k)| + d)
    ensures Yields(c, x, Running(p, i, stack, caps), EvalB(b, x, i, caps), z + |Flat(b.k)| + d, stack, caps, m)
    decreases b, 3, 1
  {
    hide OpenRun, OpenReaches, OpenStep, StepAt, EvalItem, ItemWords, Shape, Balanced, Valid, ItemAt;
    SlidesRefl(c, x, z);
    var r := EvalItem(b, x, i, caps);
    ExecItem(c, x, p, z, b, d, dep, stack, i, caps, m);
    ItemCapsKept(b, dep, x, i, caps);
    assert EvalB(b, x, i, caps) == if r.Ok? then EvalB(b.k, x, r.j, r.caps) else r;
    if !b.k.End? {
      TailOk(b, d, dep);
      Continue(c, x, Running(p, i, stack, caps), r, z, b.k, d, dep, stack, caps, m);
    }
  }

  lemma TailOk(b: Block, d: nat, dep: nat)
    requires !b.End? && !b.Prim? && Shape(b) && Backed(b, true) && Balanced(b, dep) && Valid(b, d)
    ensures Backed(b.k, true)
    ensures Shape(b.k) && Balanced(b.k, dep) && Valid(b.k, d)
  {
    BackedParts(b);
  }

  /** What r leaves at word e, followed by the block k that stands there. */
  lemma {:induction false} Continue(c: Code, x: Subject, st: State, r: Res, e: int, k: Block, d: nat, dep: nat,
      stack: seq<Entry>, caps: seq<Capture>, m: nat)
    requires Yields(c, x, st, r, e, stack, caps, m)
    requires r.Ok? ==> 0 <= r.j <= |x.s| && m + dep <= |r.caps|
    requires Sub(c, e, Flat(k)) && Shape(k) && Backed(k, true) && Balanced(k, dep) && Valid(k, d)
    requires Slides(c, x, e + |Flat(k)|, e + |Flat(k)| + d)
    ensures Yields(c, x, st, if r.Ok? then EvalB(k, x, r.j, r.caps) else r, e + |Flat(k)| + d, stack, caps, m)
    decreases k, 5, 0
  {
    hide OpenRun, OpenReaches, OpenStep, StepAt, EvalB, EvalItem, Flat, ItemWords;
    if r.Ok? {
      Exec(c, x, e, k, d, dep, stack, r.j, r.caps, m);
      YieldsThen(c, x, st, r.j, r.caps, e, EvalB(k, x, r.j, r.caps), e + |Flat(k)| + d, stack, caps, m);
    }
  }

  lemma ExecPrim(c: Code, x: Subject, p: int, b: Block, dep: nat, stack: seq<Entry>, i: int, caps: seq<Capture>, m: nat)
    requires 0 <= i <= |x.s| && b.Prim? && Sub(c, p, Words(b.i)) && GoodPrim(b.i) && Balanced(b, dep)
             && m + dep <= |caps|
    ensures Yields(c, x, Running(p, i, stack, caps), EvalPrim(b.i, x, i, caps), p + |Words(b.i)|, stack, caps, m)
  {
    hide OpenRun, OpenReaches;
    SubAt(c, p, Words(b.i), 0);
    var st := Running(p, i, stack, caps);
    var r := EvalPrim(b.i, x, i, caps);
    var q := p + |Words(b.i)|;
    if r.Ok? {
      if b.i.ICapture? {
        assert r.caps[..m] == caps[..m];
      }
      assert OpenStep(c, x, st) == Running(q, r.j, stack, r.caps);
      YieldsNow(c, x, q, r.j, stack, r.caps, caps, m);
    } else if r.Diverge? {
      assert OpenStep(c, x, st) == Raised;
      ForeverRaised(c, x);
    } else {
      assert OpenStep(c, x, st) == Failing(stack, caps);
      YieldsFail(c, x, q, stack, caps, caps, m);
    }
    YieldsStep(c, x, st, r, q, stack, caps, m);
  }

  /** A test that does not match leads out of its item. */
  lemma JumpOut(c: Code, x: Subject, p: int, z: int, t: Check, e: nat, k: Block, d: nat, stack: seq<Entry>, i: int,
      caps: seq<Capture>, m: nat)
    requires p >= 0 && At(c, p) == ICheck(t, z + e - p) && p < z && 0 <= i <= |x.s| && !Passes(t, x.s, i) && m <= |caps|
    requires Slides(c, x, z, z + ItemSlide(k, d)) && GoodExit(e, k, d)
    ensures Yields(c, x, Running(p, i, stack, caps), Ok(i, caps), z + ItemSlide(k, d), stack, caps, m)
  {
    hide OpenRun, OpenReaches, OpenStep, StepAt;
    ExitDone(c, x, z, k, d, e);
    YieldsNow(c, x, z + e, i, stack, caps, caps, m);
    YieldsJump(c, x, p, t, z + e - p, i, Ok(i, caps), z + e, stack, caps, m);
    YieldsSlide(c, x, Running(p, i, stack, caps), Ok(i, caps), z + e, z + ItemSlide(k, d), stack, caps, m);
  }

  lemma {:induction false} ExecItem(c: Code, x: Subject, p: int, z: int, b: Block, d: nat, dep: nat, stack: seq<Entry>,
      i: int, caps: seq<Capture>, m: nat)
    requires 0 <= i <= |x.s| && Placed(c, x, z, b, d, dep) && m <= |caps|
    requires ItemAt(c, p, z, b)
    ensures Yields(c, x, Running(p, i, stack, caps), EvalItem(b, x, i, caps), z + ItemSlide(b.k, d), stack, caps, m)
    decreases b, 3, 0
  {
    hide OpenRun, OpenReaches;
    match b
    case TestJmp(_, _, _, _, _) => ExecTestJmp(c, x, p, z, b, d, dep, stack, i, caps, m);
    case Union(_, _, _, _, _, _, _, _) => ExecUnion(c, x, p, z, b, d, dep, stack, i, caps, m);
    case Not(_, _, _, _) => ExecNot(c, x, p, z, b, d, dep, stack, i, caps, m);
    case NotHead(_, _, _, _) => ExecNotHead(c, x, p, z, b, d, dep, stack, i, caps, m);
    case And(_, _, _) => ExecAnd(c, x, p, z, b, d, dep, stack, i, caps, m);
    case Loop(b1, e, _) =>
      var f := Flat(b1);
      var st := Running(p, i, stack, caps);
      ExecLoop(c, x, p, z, b, d, dep, stack, i, caps, m);
      assert OpenStep(c, x, st) == Running(p + 1, i, stack + [Choice(p + 1 + |f| + 1 + e, i, |caps|)], caps);
      YieldsStep(c, x, st, EvalItem(b, x, i, caps), z + ItemSlide(b.k, d), stack, caps, m);
    case LoopHead(_, _, _, _) => ExecLoopHead(c, x, p, z, b, d, dep, stack, i, caps, m);
    case OptHead(_, b1, n, e, _) =>
      ExecOpts(c, x, z, b, d, dep, n, p, stack, i, caps, m);
  }

  lemma {:induction false} ExecTestJmp(c: Code, x: Subject, p: int, z: int, b: Block, d: nat, dep: nat,
      stack: seq<Entry>, i: int, caps: seq<Capture>, m: nat)
    requires 0 <= i <= |x.s| && b.TestJmp? && Placed(c, x, z, b, d, dep) && m <= |caps|
    requires ItemAt(c, p, z, b)
    ensures Yields(c, x, Running(p, i, stack, caps), EvalItem(b, x, i, caps), z + ItemSlide(b.k, d), stack, caps, m)
    decreases b, 2, 0
  {
    hide OpenRun, OpenReaches, EvalB, Flat, ItemWords;
    BackedParts(b);
    var TestJmp(t, b1, b2, e, k) := b;
    var f2 := Flat(b2);
    var p1 := p + CheckSize(t);
    var q := p1 + |Flat(b1)|;
    var st := Running(p, i, stack, caps);
    var done := z + ItemSlide(b.k, d);
    ExitDone(c, x, z, b.k, d, e);
    if Passes(t, x.s, i) {
      var r := EvalB(b1, x, i + CheckStep(t), caps);
      assert OpenStep(c, x, st) == Running(p1, i + CheckStep(t), stack, caps);
      SlidesJmp(c, x, q, 1 + |f2| + e);
      Exec(c, x, p1, b1, 1 + |f2| + e, 0, stack, i + CheckStep(t), caps, m);
      YieldsSlide(c, x, Running(p1, i + CheckStep(t), stack, caps), r, z + e, done, stack, caps, m);
      YieldsStep(c, x, st, r, done, stack, caps, m);
    } else {
      assert OpenStep(c, x, st) == Running(q + 1 + Exit(b2, e), i, stack, caps);
      ExecAlternative(c, x, z, b, d, dep, b2, e, q + 1, stack, i, caps, m);
      YieldsStep(c, x, st, EvalB(b2, x, i, caps), done, stack, caps, m);
    }
  }

  /** The last part b2 of the item at word p, entered at its start or, when empty, at the item's exit. */
  lemma {:induction false} ExecAlternative(c: Code, x: Subject, z: int, b: Block, d: nat, dep: nat, b2: Block, e: nat,
      p2: int, stack: seq<Entry>, i: int, caps: seq<Capture>, m: nat)
    requires 0 <= i <= |x.s| && Placed(c, x, z, b, d, dep) && m <= |caps|
    requires b2 < b && Sub(c, p2, Flat(b2)) && p2 + |Flat(b2)| == z
    requires Shape(b2) && Backed(b2, true) && Balanced(b2, 0) && Valid(b2, ItemSlide(b.k, d)) && GoodExit(e, b.k, d)
    ensures Yields(c, x, Running(p2 + Exit(b2, e), i, stack, caps), EvalB(b2, x, i, caps), z + ItemSlide(b.k, d),
            stack, caps, m)
    decreases b2, 5, 0
  {
    hide OpenRun, OpenReaches, OpenStep, StepAt, Shape, Balanced, Valid, Yields, Slides, EvalItem, ItemWords, GoodExit,
      Sub;
    if b2.End? {
      ExitDone(c, x, z, b.k, d, e);
      YieldsNow(c, x, p2 + e, i, stack, caps, caps, m);
      YieldsSlide(c, x, Running(p2 + e, i, stack, caps), Ok(i, caps), p2 + e, z + ItemSlide(b.k, d), stack, caps, m);
    } else {
      Exec(c, x, p2, b2, ItemSlide(b.k, d), 0, stack, i, caps, m);
    }
  }

  lemma {:induction false} ExecNotHead(c: Code, x: Subject, p: int, z: int, b: Block, d: nat, dep: nat,
      stack: seq<Entry>, i: int, caps: seq<Capture>, m: nat)
    requires 0 <= i <= |x.s| && b.NotHead? && Placed(c, x, z, b, d, dep) && m <= |caps|
    requires ItemAt(c, p, z, b)
    ensures Yields(c, x, Running(p, i, stack, caps), EvalItem(b, x, i, caps), z + ItemSlide(b.k, d), stack, caps, m)
    decreases b, 2, 0
  {
    hide OpenRun, OpenReaches, EvalB, Flat, ItemWords;
    BackedParts(b);
    var NotHead(t, b1, e, k) := b;
    var p1 := p + CheckSize(t);
    var q := p1 + |Flat(b1)|;
    var st := Running(p, i, stack, caps);
    var done := z + ItemSlide(b.k, d);
    if Passes(t, x.s, i) {
      var i1 := i + CheckStep(t);
      var r := EvalB(b1, x, i1, caps);
      SlidesRefl(c, x, q);
      Exec(c, x, p1, b1, 0, 0, stack, i1, caps, m);
      var st1 := Running(p1, i1, stack, caps);
      assert OpenStep(c, x, st) == st1;
      if r.Ok? {
        var st2 := Running(q, r.j, stack, r.caps);
        YieldsFail(c, x, done, stack, r.caps, caps, m);
        YieldsStep(c, x, st2, Fail, done, stack, caps, m);
        YieldsAfter(c, x, st1, st2, Fail, done, stack, caps, m);
      }
      YieldsStep(c, x, st, EvalItem(b, x, i, caps), done, stack, caps, m);
    } else {
      JumpOut(c, x, p, z, t, e, k, d, stack, i, caps, m);
    }
  }

  /** A choice pushed with captures caps, over which the block b1 at word p1 runs. */
  lemma {:induction false} ExecUnder(c: Code, x: Subject, p1: int, b1: Block, stack: seq<Entry>, t: int, s: int,
      i: int, caps: seq<Capture>)
    requires 0 <= i <= |x.s| && Sub(c, p1, Flat(b1)) && Shape(b1) && Backed(b1, true) && Balanced(b1, 0) && Valid(b1, 0)
    ensures var r := EvalB(b1, x, i, caps);
            var st := Running(p1, i, stack + [Choice(t, s, |caps|)], caps);
            && (r.Ok? ==> OpenReaches(c, x, st, Running(p1 + |Flat(b1)|, r.j, stack + [Choice(t, s, |caps|)], r.caps)))
            && (r.Ok? ==> Keep(r.caps, caps, |caps|))
            && (r.Fail? ==> OpenReaches(c, x, st, Running(t, s, stack, caps)))
            && (r.Diverge? ==> Forever(c, x, st))
    decreases b1, 5, 0
  {
    hide OpenRun, OpenReaches;
    var r := EvalB(b1, x, i, caps);
    var over := stack + [Choice(t, s, |caps|)];
    var st := Running(p1, i, over, caps);
    SlidesRefl(c, x, p1 + |Flat(b1)|);
    Exec(c, x, p1, b1, 0, 0, over, i, caps, |caps|);
    if r.Fail? {
      var cf: seq<Capture> :| Keep(cf, caps, |caps|) && OpenReaches(c, x, st, Failing(over, cf));
      assert Front(over) == stack;
      assert OpenStep(c, x, Failing(over, cf)) == Running(t, s, stack, caps);
      OpenOne(c, x, Failing(over, cf));
      OpenTrans(c, x, st, Failing(over, cf), Running(t, s, stack, caps));
    }
  }

  lemma {:induction false} ExecAnd(c: Code, x: Subject, p: int, z: int, b: Block, d: nat, dep: nat, stack: seq<Entry>,
      i: int, caps: seq<Capture>, m: nat)
    requires 0 <= i <= |x.s| && b.And? && Placed(c, x, z, b, d, dep) && m <= |caps|
    requires ItemAt(c, p, z, b)
    ensures Yields(c, x, Running(p, i, stack, caps), EvalItem(b, x, i, caps), z + ItemSlide(b.k, d), stack, caps, m)
    decreases b, 2, 0
  {
    hide OpenRun, OpenReaches, EvalB, Flat, ItemWords;
    BackedParts(b);
    var q := p + 1 + |Flat(b.b)|;
    var st := Running(p, i, stack, caps);
    var over := stack + [Choice(q + 1, i, |caps|)];
    var st1 := Running(p + 1, i, over, caps);
    assert OpenStep(c, x, st) == st1;
    OpenOne(c, x, st);
    ExecUnder(c, x, p + 1, b.b, stack, q + 1, i, i, caps);
    var r := EvalB(b.b, x, i, caps);
    if r.Ok? {
      OpenTrans(c, x, st, st1, Running(q, r.j, over, r.caps));
      AndOk(c, x, p, z, b, d, dep, stack, i, caps, r.j, r.caps, m);
    } else if r.Fail? {
      OpenTrans(c, x, st, st1, Running(q + 1, i, stack, caps));
      var st2 := Running(q + 1, i, stack, caps);
      YieldsFail(c, x, z + ItemSlide(b.k, d), stack, caps, caps, m);
      YieldsStep(c, x, st2, Fail, z + ItemSlide(b.k, d), stack, caps, m);
      YieldsAfter(c, x, st, st2, Fail, z + ItemSlide(b.k, d), stack, caps, m);
    } else {
      ForeverAfter(c, x, st, st1);
    }
  }

  lemma AndOk(c: Code, x: Subject, p: int, z: int, b: Block, d: nat, dep: nat, stack: seq<Entry>, i: int,
      caps: seq<Capture>, j: int, c2: seq<Capture>, m: nat)
    requires 0 <= i <= |x.s| && 0 <= j <= |x.s| && b.And? && Placed(c, x, z, b, d, dep) && m <= |caps|
             && Keep(c2, caps, |caps|)
    requires ItemAt(c, p, z, b)
    requires var q := p + 1 + |Flat(b.b)|;
             OpenReaches(c, x, Running(p, i, stack, caps), Running(q, j, stack + [Choice(q + 1, i, |caps|)], c2))
    ensures Yields(c, x, Running(p, i, stack, caps), Ok(i, caps), z + ItemSlide(b.k, d), stack, caps, m)
  {
    hide OpenRun, OpenReaches, EvalB, EvalItem, Flat, ItemWords;
    var q := p + 1 + |Flat(b.b)|;
    var over := stack + [Choice(q + 1, i, |caps|)];
    var st2 := Running(q, j, over, c2);
    var out := q + 2 + b.x;
    assert Front(over) == stack;
    assert c2[..|caps|] == caps;
    assert OpenStep(c, x, st2) == Running(out, i, stack, caps);
    YieldsNow(c, x, out, i, stack, caps, caps, m);
    YieldsStep(c, x, st2, Ok(i, caps), out, stack, caps, m);
    YieldsAfter(c, x, Running(p, i, stack, caps), st2, Ok(i, caps), out, stack, caps, m);
    ExitDone(c, x, z, b.k, d, b.x);
    YieldsSlide(c, x, Running(p, i, stack, caps), Ok(i, caps), out, z + ItemSlide(b.k, d), stack, caps, m);
  }

  lemma {:induction false} ExecNot(c: Code, x: Subject, p: int, z: int, b: Block, d: nat, dep: nat, stack: seq<Entry>,
      i: int, caps: seq<Capture>, m: nat)
    requires 0 <= i <= |x.s| && b.Not? && Placed(c, x, z, b, d, dep) && m <= |caps|
    requires ItemAt(c, p, z, b)
    ensures Yields(c, x, Running(p, i, stack, caps), EvalItem(b, x, i, caps), z + ItemSlide(b.k, d), stack, caps, m)
    decreases b, 2, 1
  {
    hide OpenRun, OpenReaches, OpenStep, StepAt, EvalB, Flat, ItemWords;
    var p0 := p + OtSize(b.ot);
    var out := z + b.x;
    var st := Running(p, i, stack, caps);
    var done := z + ItemSlide(b.k, d);
    if !OtPasses(b.ot, x, i) {
      JumpOut(c, x, p, z, b.ot.value, b.x, b.k, d, stack, i, caps, m);
    } else {
      var i1 := i + OtStep(b.ot);
      var whole := EvalItem(b, x, i, caps);
      ExecNotBody(c, x, p0, z, b, d, dep, stack, i, i1, caps, m);
      YieldsPush(c, x, p0, out - p0, OtStep(b.ot), i1, whole, done, stack, caps, m);
      if b.ot.Some? {
        YieldsTest(c, x, p, b.ot.value, out - p, i, whole, done, stack, caps, m);
      }
    }
  }

  /** The body of a not-predicate, under the choice at word p0. */
  lemma {:induction false} ExecNotBody(c: Code, x: Subject, p0: int, z: int, b: Block, d: nat, dep: nat,
      stack: seq<Entry>, i: int, i1: int, caps: seq<Capture>, m: nat)
    requires 0 <= i <= i1 <= |x.s| && b.Not? && Placed(c, x, z, b, d, dep) && m <= |caps|
    requires Sub(c, p0 + 1, Flat(b.b)) && p0 + 1 + |Flat(b.b)| + 1 == z && At(c, z - 1) == IFailTwice
    ensures Yields(c, x, Running(p0 + 1, i1, stack + [Choice(z + b.x, i, |caps|)], caps),
                   Negated(EvalB(b.b, x, i1, caps), i, caps), z + ItemSlide(b.k, d), stack, caps, m)
    decreases b, 2, 0
  {
    hide OpenRun, OpenReaches, OpenStep, StepAt, EvalB, EvalItem, Flat, ItemWords;
    BackedParts(b);
    var out := z + b.x;
    var done := z + ItemSlide(b.k, d);
    var over := stack + [Choice(out, i, |caps|)];
    var st, st2 := Running(p0 + 1, i1, over, caps), Running(out, i, stack, caps);
    ExecUnder(c, x, p0 + 1, b.b, stack, out, i, i1, caps);
    var r := EvalB(b.b, x, i1, caps);
    if r.Ok? {
      var st1 := Running(z - 1, r.j, over, r.caps);
      FailTwice(c, x, z - 1, r.j, stack, over[|stack|], r.caps, done, m);
      Branch(c, x, st, r, st1, Fail, st2, Fail, done, stack, caps, m);
    } else if r.Fail? {
      ExitDone(c, x, z, b.k, d, b.x);
      YieldsNow(c, x, out, i, stack, caps, caps, m);
      YieldsSlide(c, x, st2, Ok(i, caps), out, done, stack, caps, m);
      Branch(c, x, st, r, st2, Fail, st2, Ok(i, caps), done, stack, caps, m);
    }
  }

  function Negated(r: Res, i: int, caps: seq<Capture>): Res {
    match r
    case Ok(_, _) => Fail
    case Fail => Ok(i, caps)
    case Diverge => Diverge
  }

  lemma FailTwice(c: Code, x: Subject, p: int, s: int, stack: seq<Entry>, top: Entry, caps: seq<Capture>, q: int,
      m: nat)
    requires 0 <= s <= |x.s| && p >= 0 && At(c, p) == IFailTwice && m <= |caps|
    ensures Yields(c, x, Running(p, s, stack + [top], caps), Fail, q, stack, caps, m)
  {
    hide OpenRun, OpenReaches;
    assert Front(stack + [top]) == stack;
    YieldsFail(c, x, q, stack, caps, caps, m);
    YieldsStep(c, x, Running(p, s, stack + [top], caps), Fail, q, stack, caps, m);
  }

  /** The rounds of a loop whose choice instruction stands at word p. */
  lemma {:induction false} ExecLoop(c: Code, x: Subject, p: int, z: int, b: Block, d: nat, dep: nat, stack: seq<Entry>,
      i: int, caps: seq<Capture>, m: nat)
    requires 0 <= i <= |x.s| && b.Loop? && Placed(c, x, z, b, d, dep) && m <= |caps|
    requires ItemAt(c, p, z, b)
    ensures var out := p + 1 + |Flat(b.b)| + 1 + b.x;
            Yields(c, x, Running(p + 1, i, stack + [Choice(out, i, |caps|)], caps), EvalRounds(b, x, i, caps),
              z + ItemSlide(b.k, d), stack, caps, m)
    decreases b, 2, |x.s| - i
  {
    hide OpenRun, OpenReaches, EvalB, EvalItem, Flat, ItemWords;
    BackedParts(b);
    var Loop(b1, e, k) := b;
    var q := p + 1 + |Flat(b1)|;
    var out := q + 1 + e;
    var done := z + ItemSlide(b.k, d);
    var over := stack + [Choice(out, i, |caps|)];
    ExecUnder(c, x, p + 1, b1, stack, out, i, i, caps);
    var r := EvalB(b1, x, i, caps);
    var st1, st2, r1 := Running(out, i, stack, caps), Running(out, i, stack, caps), Res.Diverge;
    if r.Ok? {
      st1 := Running(q, r.j, over, r.caps);
      if r.j > i {
        r1 := EvalRounds(b, x, r.j, r.caps);
        assert Front(over) == stack;
        assert OpenStep(c, x, st1) == Running(p + 1, r.j, stack + [Choice(out, r.j, |r.caps|)], r.caps);
        ExecLoop(c, x, p, z, b, d, dep, stack, r.j, r.caps, m);
        YieldsStep(c, x, st1, r1, done, stack, r.caps, m);
      } else {
        LoopRetreat(b, x, i, caps);
        assert Front(over) == stack;
        assert OpenStep(c, x, st1) == Running(p + 1, i, stack + [Choice(out, i, |r.caps|)], r.caps);
        Blind(b1, x, i, caps, r.caps);
        ExecSpins(c, x, p, z, b, dep, stack, i, r.caps);
        YieldsStep(c, x, st1, r1, done, stack, r.caps, m);
      }
    } else if r.Fail? {
      ExitDone(c, x, z, b.k, d, e);
      YieldsNow(c, x, out, i, stack, caps, caps, m);
      YieldsSlide(c, x, st2, Ok(i, caps), out, done, stack, caps, m);
    }
    Branch(c, x, Running(p + 1, i, over, caps), r, st1, r1, st2, Ok(i, caps), done, stack, caps, m);
  }

  lemma LoopRetreat(b: Block, x: Subject, i: int, caps: seq<Capture>)
    requires b.Loop? && 0 <= i <= |x.s| && Shape(b) && Backed(b, true)
    ensures EvalB(b.b, x, i, caps).Ok? ==> EvalB(b.b, x, i, caps).j >= i
  {
    NoRetreat(b.b, false, x, i, caps);
  }

  /** A body that matches the empty string at position i is repeated there for ever. */
  lemma {:induction false} ExecSpins(c: Code, x: Subject, p: int, z: int, b: Block, dep: nat, stack: seq<Entry>,
      i: int, caps: seq<Capture>)
    requires 0 <= i <= |x.s| && b.Loop? && Shape(b) && Backed(b, true) && Balanced(b, dep) && Valid(b.b, 0)
             && ItemAt(c, p, z, b)
    requires EvalB(b.b, x, i, caps).Ok? && EvalB(b.b, x, i, caps).j == i
    ensures Forever(c, x, Running(p + 1, i, stack + [Choice(p + 1 + |Flat(b.b)| + 1 + b.x, i, |caps|)], caps))
    decreases b, 1
  {
    hide OpenRun;
    var st := Running(p + 1, i, stack + [Choice(p + 1 + |Flat(b.b)| + 1 + b.x, i, |caps|)], caps);
    forall n: nat ensures !OpenRun(c, x, st, n).Halted() {
      ExecSpin(c, x, p, z, b, dep, stack, i, caps, n);
    }
  }

  lemma {:induction false} ExecSpin(c: Code, x: Subject, p: int, z: int, b: Block, dep: nat, stack: seq<Entry>, i: int,
      caps: seq<Capture>, n: nat)
    requires 0 <= i <= |x.s| && b.Loop? && Shape(b) && Backed(b, true) && Balanced(b, dep) && Valid(b.b, 0)
             && ItemAt(c, p, z, b)
    requires EvalB(b.b, x, i, caps).Ok? && EvalB(b.b, x, i, caps).j == i
    ensures !OpenRun(c, x, Running(p + 1, i, stack + [Choice(p + 1 + |Flat(b.b)| + 1 + b.x, i, |caps|)], caps),
            n).Halted()
    decreases b, 0, n
  {
    hide OpenRun, EvalB, EvalItem, Flat, ItemWords;
    BackedParts(b);
    var b1 := b.b;
    var q := p + 1 + |Flat(b1)|;
    var out := q + 1 + b.x;
    var over := stack + [Choice(out, i, |caps|)];
    var st := Running(p + 1, i, over, caps);
    ExecUnder(c, x, p + 1, b1, stack, out, i, i, caps);
    var c2 := EvalB(b1, x, i, caps).caps;
    var st1 := Running(q, i, over, c2);
    assert Front(over) == stack;
    var st2 := Running(p + 1, i, stack + [Choice(out, i, |c2|)], c2);
    assert OpenStep(c, x, st1) == st2;
    var k := Arrival(c, x, st, st1);
    Later(c, x, st, st1, k, n);
    if n > k {
      Blind(b1, x, i, caps, c2);
      ExecSpin(c, x, p, z, b, dep, stack, i, c2, n - k - 1);
    }
  }

  lemma Arrival(c: Code, x: Subject, st: State, st1: State) returns (k: nat)
    requires OpenReaches(c, x, st, st1)
    ensures OpenRun(c, x, st, k) == st1
  {
    k :| OpenRun(c, x, st, k) == st1;
  }

  /** A run that is still going after k turns has not halted before, and goes on from there. */
  lemma Later(c: Code, x: Subject, st: State, st1: State, k: nat, n: nat)
    requires OpenRun(c, x, st, k) == st1 && !st1.Halted()
    ensures n <= k ==> !OpenRun(c, x, st, n).Halted()
    ensures n > k ==> OpenRun(c, x, st, n) == OpenRun(c, x, OpenStep(c, x, st1), n - k - 1)
  {
    if n <= k {
      OpenAdd(c, x, st, n, k - n);
      if OpenRun(c, x, st, n).Halted() { OpenHalted(c, x, OpenRun(c, x, st, n), k - n); }
    } else {
      OpenAdd(c, x, st, k, n - k);
    }
  }

  lemma {:induction false} ExecLoopHead(c: Code, x: Subject, p: int, z: int, b: Block, d: nat, dep: nat,
      stack: seq<Entry>, i: int, caps: seq<Capture>, m: nat)
    requires 0 <= i <= |x.s| && b.LoopHead? && Placed(c, x, z, b, d, dep) && m <= |caps|
    requires ItemAt(c, p, z, b)
    ensures Yields(c, x, Running(p, i, stack, caps), EvalRounds(b, x, i, caps), z + ItemSlide(b.k, d), stack, caps, m)
    decreases b, 2, |x.s| - i
  {
    hide OpenRun, OpenReaches, EvalB, EvalItem, Flat, ItemWords;
    BackedParts(b);
    var LoopHead(t, b1, e, k) := b;
    var p1 := p + CheckSize(t);
    var q := p1 + |Flat(b1)|;
    var done := z + ItemSlide(b.k, d);
    var st := Running(p, i, stack, caps);
    if !Passes(t, x.s, i) {
      JumpOut(c, x, p, z, t, e, k, d, stack, i, caps, m);
    } else {
      var i1 := i + CheckStep(t);
      var r := EvalB(b1, x, i1, caps);
      var st1 := Running(p1, i1, stack, caps);
      assert OpenStep(c, x, st) == st1;
      SlidesRefl(c, x, q);
      Exec(c, x, p1, b1, 0, 0, stack, i1, caps, m);
      if r.Ok? && r.j > i {
        var st2 := Running(q, r.j, stack, r.caps);
        assert OpenStep(c, x, st2) == Running(p, r.j, stack, r.caps);
        ExecLoopHead(c, x, p, z, b, d, dep, stack, r.j, r.caps, m);
        YieldsKeep(c, x, OpenStep(c, x, st2), EvalRounds(b, x, r.j, r.caps), done, stack, r.caps, caps, m);
        YieldsStep(c, x, st2, EvalRounds(b, x, r.j, r.caps), done, stack, caps, m);
        YieldsAfter(c, x, st1, st2, EvalRounds(b, x, r.j, r.caps), done, stack, caps, m);
      } else {
        HeadForward(b, x, i, caps);
      }
      YieldsStep(c, x, st, EvalRounds(b, x, i, caps), done, stack, caps, m);
    }
  }

  lemma HeadForward(b: Block, x: Subject, i: int, caps: seq<Capture>)
    requires b.LoopHead? && Shape(b) && 0 <= i <= |x.s| && Passes(b.t, x.s, i)
    ensures EvalB(b.b, x, i + CheckStep(b.t), caps).Ok? && EvalB(b.b, x, i + CheckStep(b.t), caps).j > i
  {
    NoFailOk(b.b, x, i + CheckStep(b.t), caps);
  }

  /** A copy of f at word p1, and n more copies with their tests behind it. */
  ghost predicate OptNext(c: Code, z: int, t: Check, f: Code, n: nat, e: nat, p1: int) {
    Sub(c, p1, f) && Sub(c, p1 + |f|, OptWords(t, f, n, e)) && p1 + |f| + |OptWords(t, f, n, e)| == z
  }

  lemma OptLayout(c: Code, z: int, t: Check, f: Code, n: nat, e: nat, q: int)
    requires n > 0 && Sub(c, q, OptWords(t, f, n, e)) && q + |OptWords(t, f, n, e)| == z
    ensures At(c, q) == ICheck(t, z + e - q) && 0 <= q < z && OptNext(c, z, t, f, n - 1, e, q + CheckSize(t))
  {
    var rest := OptWords(t, f, n - 1, e);
    var w := Words(ICheck(t, CheckSize(t) + |f| + |rest| + e));
    Sub3(c, q, w, f, rest);
    SubAt(c, q, w, 0);
  }

  /** The last n copies of an optional, the first of them at word q. */
  lemma {:induction false} ExecOpts(c: Code, x: Subject, z: int, b: Block, d: nat, dep: nat, n: nat, q: int,
      stack: seq<Entry>, i: int, caps: seq<Capture>, m: nat)
    requires 0 <= i <= |x.s| && b.OptHead? && Placed(c, x, z, b, d, dep) && m <= |caps|
    requires Sub(c, q, OptWords(b.t, Flat(b.b), n, b.x))
    requires q + |OptWords(b.t, Flat(b.b), n, b.x)| == z
    ensures Yields(c, x, Running(q, i, stack, caps), EvalOpts(b, n, x, i, caps), z + ItemSlide(b.k, d), stack, caps, m)
    decreases b, 2, 2 * n + 1
  {
    hide OpenRun, OpenReaches, OpenStep, StepAt, EvalB, EvalItem, Flat, ItemWords;
    var done := z + ItemSlide(b.k, d);
    if n == 0 {
      ExecEnd(c, x, q, ItemSlide(b.k, d), stack, i, caps, m);
    } else {
      OptLayout(c, z, b.t, Flat(b.b), n, b.x, q);
      if !Passes(b.t, x.s, i) {
        JumpOut(c, x, q, z, b.t, b.x, b.k, d, stack, i, caps, m);
      } else {
        ExecOptsBody(c, x, z, b, d, dep, n, q + CheckSize(b.t), stack, i + CheckStep(b.t), caps, m);
        OptsValue(b, n, x, i, caps);
        YieldsTest(c, x, q, b.t, z + b.x - q, i, EvalOpts(b, n, x, i, caps), done, stack, caps, m);
      }
    }
  }

  /** What an optional does behind its test when n copies were left before it. */
  function OptRest(b: Block, n: nat, x: Subject, i1: int, caps: seq<Capture>): Res
    requires b.OptHead? && n > 0 && 0 <= i1 <= |x.s|
  {
    match EvalB(b.b, x, i1, caps)
    case Ok(j, c2) => EvalOpts(b, n - 1, x, j, c2)
    case r => r
  }

  lemma OptsValue(b: Block, n: nat, x: Subject, i: int, caps: seq<Capture>)
    requires b.OptHead? && n > 0 && 0 <= i <= |x.s| && Passes(b.t, x.s, i)
    ensures EvalOpts(b, n, x, i, caps) == OptRest(b, n, x, i + CheckStep(b.t), caps)
  {
  }

  lemma {:induction false} ExecOptsBody(c: Code, x: Subject, z: int, b: Block, d: nat, dep: nat, n: nat, p1: int,
      stack: seq<Entry>, i1: int, caps: seq<Capture>, m: nat)
    requires 0 <= i1 <= |x.s| && b.OptHead? && Placed(c, x, z, b, d, dep) && m <= |caps| && n > 0
    requires OptNext(c, z, b.t, Flat(b.b), n - 1, b.x, p1)
    ensures Yields(c, x, Running(p1, i1, stack, caps), OptRest(b, n, x, i1, caps), z + ItemSlide(b.k, d), stack, caps,
            m)
    decreases b, 2, 2 * n
  {
    hide OpenRun, OpenReaches, OpenStep, StepAt, EvalB, EvalItem, Flat, ItemWords;
    BackedParts(b);
    var q1 := p1 + |Flat(b.b)|;
    SlidesRefl(c, x, q1);
    Exec(c, x, p1, b.b, 0, 0, stack, i1, caps, m);
    var r := EvalB(b.b, x, i1, caps);
    if r.Ok? {
      var r2 := EvalOpts(b, n - 1, x, r.j, r.caps);
      ExecOpts(c, x, z, b, d, dep, n - 1, q1, stack, r.j, r.caps, m);
      YieldsThen(c, x, Running(p1, i1, stack, caps), r.j, r.caps, q1, r2, z + ItemSlide(b.k, d), stack, caps, m);
    }
  }

  lemma {:induction false} ExecUnion(c: Code, x: Subject, p: int, z: int, b: Block, d: nat, dep: nat,
      stack: seq<Entry>, i: int, caps: seq<Capture>, m: nat)
    requires 0 <= i <= |x.s| && b.Union? && Placed(c, x, z, b, d, dep) && m <= |caps|
    requires ItemAt(c, p, z, b)
    ensures Yields(c, x, Running(p, i, stack, caps), EvalItem(b, x, i, caps), z + ItemSlide(b.k, d), stack, caps, m)
    decreases b, 2, 2 * b.m + 4
  {
    hide OpenRun, OpenReaches, OpenStep, StepAt, EvalB, EvalMore, Flat, ItemWords;
    var p0 := p + OtSize(b.ot);
    var pe := z - |Flat(b.els)|;
    var done := z + ItemSlide(b.k, d);
    if !OtPasses(b.ot, x, i) {
      ExecUnionElse(c, x, p, z, b, d, dep, stack, i, caps, m);
    } else {
      UnionItem(b, x, i, caps);
      var i1 := i + OtStep(b.ot);
      ExecUnionBody(c, x, p, p0, z, b, d, dep, stack, i1, caps, m);
      if b.ot.Some? {
        YieldsTest(c, x, p, b.ot.value, pe + Exit(b.els, b.x) - p, i, UnionChoice(b, x, i1, caps), done, stack, caps,
          m);
      }
    }
  }

  lemma {:induction false} ExecUnionElse(c: Code, x: Subject, p: int, z: int, b: Block, d: nat, dep: nat,
      stack: seq<Entry>, i: int, caps: seq<Capture>, m: nat)
    requires 0 <= i <= |x.s| && b.Union? && Placed(c, x, z, b, d, dep) && m <= |caps| && !OtPasses(b.ot, x, i)
    requires UnionAt(c, p, z, b.ot, b.aux, Flat(b.first), Flat(b.more), b.m, Flat(b.els), Exit(b.els, b.x), b.x)
    ensures Yields(c, x, Running(p, i, stack, caps), EvalB(b.els, x, i, caps), z + ItemSlide(b.k, d), stack, caps, m)
    decreases b, 2, 2 * b.m + 3
  {
    hide OpenRun, OpenReaches, OpenStep, StepAt, EvalB, EvalItem, EvalMore, Flat, ItemWords;
    BackedParts(b);
    var pe := z - |Flat(b.els)|;
    ExecAlternative(c, x, z, b, d, dep, b.els, b.x, pe, stack, i, caps, m);
    YieldsJump(c, x, p, b.ot.value, pe + Exit(b.els, b.x) - p, i, EvalB(b.els, x, i, caps), z + ItemSlide(b.k, d),
      stack, caps, m);
  }

  lemma {:induction false} ExecUnionBody(c: Code, x: Subject, p: int, p0: int, z: int, b: Block, d: nat, dep: nat,
      stack: seq<Entry>, i1: int, caps: seq<Capture>, m: nat)
    requires b.Union? && b.aux <= i1 <= |x.s| && Placed(c, x, z, b, d, dep) && m <= |caps| && p0 == p + OtSize(b.ot)
    requires UnionAt(c, p, z, b.ot, b.aux, Flat(b.first), Flat(b.more), b.m, Flat(b.els), Exit(b.els, b.x), b.x)
    ensures Yields(c, x, Running(p0, i1, stack, caps), UnionChoice(b, x, i1, caps), z + ItemSlide(b.k, d), stack, caps,
            m)
    decreases b, 2, 2 * b.m + 3
  {
    hide OpenRun, OpenReaches, OpenStep, StepAt, EvalB, EvalItem, EvalMore, Flat, ItemWords;
    var out := z - |Flat(b.els)| + Exit(b.els, b.x);
    ExecUnionFirst(c, x, p0, z, b, d, dep, stack, i1, caps, m);
    YieldsPush(c, x, p0, out - p0, b.aux, i1, UnionChoice(b, x, i1, caps), z + ItemSlide(b.k, d), stack, caps, m);
  }

  /** What a union does behind its test, from position i1 on. */
  function UnionChoice(b: Block, x: Subject, i1: int, caps: seq<Capture>): Res
    requires b.Union? && b.aux <= i1 <= |x.s|
  {
    match EvalB(b.first, x, i1, caps)
    case Ok(j, c2) => EvalMore(b, b.m, x, j, c2)
    case Fail => EvalB(b.els, x, i1 - b.aux, caps)
    case Diverge => Diverge
  }

  lemma UnionItem(b: Block, x: Subject, i: int, caps: seq<Capture>)
    requires b.Union? && 0 <= i <= |x.s| && OtPasses(b.ot, x, i) && b.aux <= OtStep(b.ot)
    ensures EvalItem(b, x, i, caps) == UnionChoice(b, x, i + OtStep(b.ot), caps)
  {
  }

  /** The first copy of a union's first alternative, under the choice at word p0. */
  lemma {:induction false} ExecUnionFirst(c: Code, x: Subject, p0: int, z: int, b: Block, d: nat, dep: nat,
      stack: seq<Entry>, i1: int, caps: seq<Capture>, m: nat)
    requires b.Union? && b.aux <= i1 <= |x.s| && Placed(c, x, z, b, d, dep) && m <= |caps|
    requires Sub(c, p0 + 1, Flat(b.first))
    requires MorePlaced(c, z, Flat(b.more), b.m, Flat(b.els), b.x, p0 + 1 + |Flat(b.first)|)
    ensures var out := z - |Flat(b.els)| + Exit(b.els, b.x);
            Yields(c, x, Running(p0 + 1, i1, stack + [Choice(out, i1 - b.aux, |caps|)], caps),
                   UnionChoice(b, x, i1, caps), z + ItemSlide(b.k, d), stack, caps, m)
    decreases b, 2, 2 * b.m + 2
  {
    hide OpenRun, OpenReaches, OpenStep, StepAt, EvalB, EvalItem, EvalMore, Flat, ItemWords;
    BackedParts(b);
    var pe := z - |Flat(b.els)|;
    var out := pe + Exit(b.els, b.x);
    var back := i1 - b.aux;
    var done := z + ItemSlide(b.k, d);
    var over := stack + [Choice(out, back, |caps|)];
    var st, st2 := Running(p0 + 1, i1, over, caps), Running(out, back, stack, caps);
    ExecUnder(c, x, p0 + 1, b.first, stack, out, back, i1, caps);
    var r := EvalB(b.first, x, i1, caps);
    if r.Ok? {
      var q := p0 + 1 + |Flat(b.first)|;
      ExecMore(c, x, z, b, d, dep, b.m, q, stack, back, |caps|, r.j, r.caps, m);
      Branch(c, x, st, r, Running(q, r.j, over, r.caps), EvalMore(b, b.m, x, r.j, r.caps), st2, Fail, done, stack,
        caps, m);
    } else if r.Fail? {
      ExecAlternative(c, x, z, b, d, dep, b.els, b.x, pe, stack, back, caps, m);
      Branch(c, x, st, r, st2, Fail, st2, EvalB(b.els, x, back, caps), done, stack, caps, m);
    }
  }

  lemma MoreLayout(c: Code, z: int, fm: Code, n: nat, fe: Code, x: nat, q: int)
    requires n > 0 && MorePlaced(c, z, fm, n, fe, x, q)
    ensures At(c, q) == IPartialCommit(1) && Sub(c, q + 1, fm) && q >= 0
    ensures MorePlaced(c, z, fm, n - 1, fe, x, q + 1 + |fm|)
  {
    Sub3(c, q, [IPartialCommit(1)], fm, MoreWords(fm, n - 1));
    Sub1(c, q, IPartialCommit(1));
  }

  /** The commit of a union, or the partial commit before one more copy, at word q. */
  lemma {:induction false} ExecMore(c: Code, x: Subject, z: int, b: Block, d: nat, dep: nat, n: nat, q: int,
      stack: seq<Entry>, s: int, lvl: nat, i: int, caps: seq<Capture>, m: nat)
    requires 0 <= i <= |x.s| && b.Union? && Placed(c, x, z, b, d, dep) && m <= |caps|
    requires MorePlaced(c, z, Flat(b.more), n, Flat(b.els), b.x, q)
    ensures var out := z - |Flat(b.els)| + Exit(b.els, b.x);
            Yields(c, x, Running(q, i, stack + [Choice(out, s, lvl)], caps), EvalMore(b, n, x, i, caps),
              z + ItemSlide(b.k, d), stack, caps, m)
    decreases b, 2, 2 * n + 1
  {
    hide OpenRun, OpenReaches, EvalB, EvalItem, Flat, ItemWords;
    var pe := z - |Flat(b.els)|;
    var out := pe + Exit(b.els, b.x);
    var over := stack + [Choice(out, s, lvl)];
    var st := Running(q, i, over, caps);
    var done := z + ItemSlide(b.k, d);
    assert Front(over) == stack;
    if n == 0 {
      ExitDone(c, x, z, b.k, d, b.x);
      var q2 := pe + |Flat(b.els)| + b.x;
      assert OpenStep(c, x, st) == Running(q2, i, stack, caps);
      YieldsNow(c, x, q2, i, stack, caps, caps, m);
      YieldsStep(c, x, st, Ok(i, caps), q2, stack, caps, m);
      YieldsSlide(c, x, st, Ok(i, caps), q2, done, stack, caps, m);
    } else {
      MoreLayout(c, z, Flat(b.more), n, Flat(b.els), b.x, q);
      var st1 := Running(q + 1, i, stack + [Choice(out, i, |caps|)], caps);
      assert OpenStep(c, x, st) == st1;
      ExecOneMore(c, x, z, b, d, dep, n, q, stack, i, caps, m);
      YieldsStep(c, x, st, EvalMore(b, n, x, i, caps), done, stack, caps, m);
    }
  }

  lemma {:induction false} ExecOneMore(c: Code, x: Subject, z: int, b: Block, d: nat, dep: nat, n: nat, q: int,
      stack: seq<Entry>, i: int, caps: seq<Capture>, m: nat)
    requires 0 <= i <= |x.s| && b.Union? && Placed(c, x, z, b, d, dep) && m <= |caps|
    requires n > 0 && MorePlaced(c, z, Flat(b.more), n, Flat(b.els), b.x, q)
    ensures var out := z - |Flat(b.els)| + Exit(b.els, b.x);
            Yields(c, x, Running(q + 1, i, stack + [Choice(out, i, |caps|)], caps), EvalMore(b, n, x, i, caps),
              z + ItemSlide(b.k, d), stack, caps, m)
    decreases b, 2, 2 * n
  {
    hide OpenRun, OpenReaches, OpenStep, StepAt, EvalB, EvalItem, Flat, ItemWords;
    BackedParts(b);
    MoreLayout(c, z, Flat(b.more), n, Flat(b.els), b.x, q);
    var pe := z - |Flat(b.els)|;
    var out := pe + Exit(b.els, b.x);
    var done := z + ItemSlide(b.k, d);
    var over := stack + [Choice(out, i, |caps|)];
    var st, st2 := Running(q + 1, i, over, caps), Running(out, i, stack, caps);
    ExecUnder(c, x, q + 1, b.more, stack, out, i, i, caps);
    var r := EvalB(b.more, x, i, caps);
    if r.Ok? {
      var q1 := q + 1 + |Flat(b.more)|;
      ExecMore(c, x, z, b, d, dep, n - 1, q1, stack, i, |caps|, r.j, r.caps, m);
      Branch(c, x, st, r, Running(q1, r.j, over, r.caps), EvalMore(b, n - 1, x, r.j, r.caps), st2, Fail, done, stack,
        caps, m);
    } else if r.Fail? {
      ExecAlternative(c, x, z, b, d, dep, b.els, b.x, pe, stack, i, caps, m);
      Branch(c, x, st, r, st2, Fail, st2, EvalB(b.els, x, i, caps), done, stack, caps, m);
    }
  }
}
