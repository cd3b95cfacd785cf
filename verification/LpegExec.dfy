/** The machine runs the words of a block to the effect that the block has. */
module LpegExec {
  import opened LpegCode
  import opened LpegMachine
  import opened LpegPeg
  import opened LpegOpen
  import opened LpegBlock

  /** f stands at word p of c. */
  ghost predicate Sub(c: Code, p: int, f: Code) {
    0 <= p && p + |f| <= |c| && c[p..p + |f|] == f
  }

  lemma SubSplit(c: Code, p: int, f: Code, g: Code)
    requires Sub(c, p, f + g)
    ensures Sub(c, p, f) && Sub(c, p + |f|, g)
  {
    assert c[p..p + |f + g|][..|f|] == f;
    assert c[p..p + |f + g|][|f|..] == g;
  }

  lemma Sub3(c: Code, p: int, f: Code, g: Code, h: Code)
    requires Sub(c, p, f + g + h)
    ensures Sub(c, p, f) && Sub(c, p + |f|, g) && Sub(c, p + |f| + |g|, h)
  {
    SubSplit(c, p, f + g, h);
    SubSplit(c, p, f, g);
  }

  lemma Sub4(c: Code, p: int, f: Code, g: Code, h: Code, k: Code)
    requires Sub(c, p, f + g + h + k)
    ensures Sub(c, p, f) && Sub(c, p + |f|, g) && Sub(c, p + |f| + |g|, h) && Sub(c, p + |f| + |g| + |h|, k)
  {
    SubSplit(c, p, f + g + h, k);
    Sub3(c, p, f, g, h);
  }

  lemma Sub1(c: Code, p: int, i: Cell)
    requires Sub(c, p, [i])
    ensures At(c, p) == i && p >= 0
  {
    SubAt(c, p, [i], 0);
  }

  lemma SubJoin(c: Code, p: int, f: Code, g: Code)
    requires Sub(c, p, f) && Sub(c, p + |f|, g)
    ensures Sub(c, p, f + g)
  {
    assert c[p..p + |f + g|] == c[p..p + |f|] + c[p + |f|..p + |f| + |g|];
  }

  lemma SubAt(c: Code, p: int, f: Code, i: int)
    requires Sub(c, p, f) && 0 <= i < |f|
    ensures 0 <= p + i < |c| && c[p + i] == f[i] && At(c, p + i) == f[i]
  {
    assert c[p..p + |f|][i] == f[i];
  }

  /** Both lists have m entries at least, and the first m are the same. */
  ghost predicate Keep(a: seq<Capture>, b: seq<Capture>, m: nat) {
    m <= |a| && m <= |b| && a[..m] == b[..m]
  }

  lemma KeepTrans(a: seq<Capture>, b: seq<Capture>, c: seq<Capture>, m: nat, n: nat)
    requires Keep(a, b, m) && Keep(b, c, n) && m <= n
    ensures Keep(a, c, m)
  {
    assert b[..n][..m] == b[..m];
    assert c[..n][..m] == c[..m];
  }

  ghost predicate FailsTo(c: Code, x: Subject, st: State, stack: seq<Entry>, caps: seq<Capture>, m: nat) {
    exists cf: seq<Capture> :: Keep(cf, caps, m) && OpenReaches(c, x, st, Failing(stack, cf))
  }

  /** The run from st never halts. */
  ghost predicate Forever(c: Code, x: Subject, st: State) {
    forall n: nat :: !OpenRun(c, x, st, n).Halted()
  }

  lemma ForeverAfter(c: Code, x: Subject, st: State, st2: State)
    requires OpenReaches(c, x, st, st2) && Forever(c, x, st2)
    ensures Forever(c, x, st)
  {
    hide OpenRun;
    var k: nat :| OpenRun(c, x, st, k) == st2;
    RunStart(c, x, st2);
    assert !OpenRun(c, x, st2, 0).Halted();
    forall n: nat ensures !OpenRun(c, x, st, n).Halted() {
      if n >= k {
        OpenAdd(c, x, st, k, n - k);
        assert !OpenRun(c, x, st2, n - k).Halted();
      } else if OpenRun(c, x, st, n).Halted() {
        OpenAdd(c, x, st, n, k - n);
        OpenHalted(c, x, OpenRun(c, x, st, n), k - n);
      }
    }
  }

  lemma RunStart(c: Code, x: Subject, st: State)
    ensures OpenRun(c, x, st, 0) == st
  {
  }

  lemma ForeverRaised(c: Code, x: Subject)
    ensures Forever(c, x, Raised)
  {
    forall n: nat ensures !OpenRun(c, x, Raised, n).Halted() { OpenRaised(c, x, n); }
  }

  /**
    From st the machine does what r says: it arrives at word q with the stack as given, or
    fails with that stack, either way with the first m captures of caps intact; or it never halts.
   */
  ghost predicate Yields(c: Code, x: Subject, st: State, r: Res, q: int, stack: seq<Entry>, caps: seq<Capture>,
      m: nat) {
    match r
    case Ok(j, c2) => OpenReaches(c, x, st, Running(q, j, stack, c2)) && Keep(c2, caps, m)
    case Fail => FailsTo(c, x, st, stack, caps, m)
    case Diverge => Forever(c, x, st)
  }

  lemma YieldsAfter(c: Code, x: Subject, st: State, st2: State, r: Res, q: int, stack: seq<Entry>, caps: seq<Capture>,
      m: nat)
    requires OpenReaches(c, x, st, st2) && Yields(c, x, st2, r, q, stack, caps, m)
    ensures Yields(c, x, st, r, q, stack, caps, m)
  {
    hide OpenRun, OpenReaches;
    match r
    case Ok(j, c2) => OpenTrans(c, x, st, st2, Running(q, j, stack, c2));
    case Fail =>
      var cf: seq<Capture> :| Keep(cf, caps, m) && OpenReaches(c, x, st2, Failing(stack, cf));
      OpenTrans(c, x, st, st2, Failing(stack, cf));
    case Diverge => ForeverAfter(c, x, st, st2);
  }

  /** The same outcome counted from captures that agree on the first m. */
  lemma YieldsKeep(c: Code, x: Subject, st: State, r: Res, q: int, stack: seq<Entry>, caps: seq<Capture>,
      caps0: seq<Capture>, m: nat)
    requires Yields(c, x, st, r, q, stack, caps, m) && Keep(caps, caps0, m)
    ensures Yields(c, x, st, r, q, stack, caps0, m)
  {
    hide OpenRun, OpenReaches;
    match r
    case Ok(j, c2) => KeepTrans(c2, caps, caps0, m, m);
    case Fail =>
      var cf: seq<Capture> :| Keep(cf, caps, m) && OpenReaches(c, x, st, Failing(stack, cf));
      KeepTrans(cf, caps, caps0, m, m);
    case Diverge =>
  }

  lemma YieldsStep(c: Code, x: Subject, st: State, r: Res, q: int, stack: seq<Entry>, caps: seq<Capture>, m: nat)
    requires Yields(c, x, OpenStep(c, x, st), r, q, stack, caps, m)
    ensures Yields(c, x, st, r, q, stack, caps, m)
  {
    hide OpenRun, OpenReaches;
    OpenOne(c, x, st);
    YieldsAfter(c, x, st, OpenStep(c, x, st), r, q, stack, caps, m);
  }

  lemma YieldsNow(c: Code, x: Subject, q: int, j: int, stack: seq<Entry>, c2: seq<Capture>, caps: seq<Capture>, m: nat)
    requires Keep(c2, caps, m)
    ensures Yields(c, x, Running(q, j, stack, c2), Ok(j, c2), q, stack, caps, m)
  {
    hide OpenRun, OpenReaches;
    OpenRefl(c, x, Running(q, j, stack, c2));
  }

  lemma YieldsFail(c: Code, x: Subject, q: int, stack: seq<Entry>, cf: seq<Capture>, caps: seq<Capture>, m: nat)
    requires Keep(cf, caps, m)
    ensures Yields(c, x, Failing(stack, cf), Fail, q, stack, caps, m)
  {
    hide OpenRun, OpenReaches;
    OpenRefl(c, x, Failing(stack, cf));
  }

  /** One outcome after another. */
  lemma YieldsThen(c: Code, x: Subject, st: State, j: int, c2: seq<Capture>, q: int, r: Res, q2: int,
      stack: seq<Entry>, caps: seq<Capture>, m: nat)
    requires Yields(c, x, st, Ok(j, c2), q, stack, caps, m)
    requires Yields(c, x, Running(q, j, stack, c2), r, q2, stack, c2, m)
    ensures Yields(c, x, st, r, q2, stack, caps, m)
  {
    hide OpenRun, OpenReaches;
    YieldsKeep(c, x, Running(q, j, stack, c2), r, q2, stack, c2, caps, m);
    YieldsAfter(c, x, st, Running(q, j, stack, c2), r, q2, stack, caps, m);
  }

  lemma YieldsTest(c: Code, x: Subject, p: int, t: Check, offset: int, s: int, r: Res, q: int, stack: seq<Entry>,
      caps: seq<Capture>, m: nat)
    requires p >= 0 && At(c, p) == ICheck(t, offset) && 0 <= s <= |x.s| && Passes(t, x.s, s)
    requires Yields(c, x, Running(p + CheckSize(t), s + CheckStep(t), stack, caps), r, q, stack, caps, m)
    ensures Yields(c, x, Running(p, s, stack, caps), r, q, stack, caps, m)
  {
    hide OpenRun, OpenReaches;
    assert OpenStep(c, x, Running(p, s, stack, caps)) == Running(p + CheckSize(t), s + CheckStep(t), stack, caps);
    YieldsStep(c, x, Running(p, s, stack, caps), r, q, stack, caps, m);
  }

  lemma YieldsJump(c: Code, x: Subject, p: int, t: Check, offset: int, s: int, r: Res, q: int, stack: seq<Entry>,
      caps: seq<Capture>, m: nat)
    requires p >= 0 && At(c, p) == ICheck(t, offset) && 0 <= s <= |x.s| && !Passes(t, x.s, s) && offset != 0
    requires Yields(c, x, Running(p + offset, s, stack, caps), r, q, stack, caps, m)
    ensures Yields(c, x, Running(p, s, stack, caps), r, q, stack, caps, m)
  {
    hide OpenRun, OpenReaches;
    assert OpenStep(c, x, Running(p, s, stack, caps)) == Running(p + offset, s, stack, caps);
    YieldsStep(c, x, Running(p, s, stack, caps), r, q, stack, caps, m);
  }

  lemma YieldsPush(c: Code, x: Subject, p: int, offset: int, aux: nat, s: int, r: Res, q: int, stack: seq<Entry>,
      caps: seq<Capture>, m: nat)
    requires p >= 0 && At(c, p) == IChoice(offset, aux) && 0 <= s <= |x.s|
    requires Yields(c, x, Running(p + 1, s, stack + [Choice(p + offset, s - aux, |caps|)], caps), r, q, stack, caps, m)
    ensures Yields(c, x, Running(p, s, stack, caps), r, q, stack, caps, m)
  {
    hide OpenRun, OpenReaches;
    assert OpenStep(c, x, Running(p, s, stack, caps)) ==
      Running(p + 1, s, stack + [Choice(p + offset, s - aux, |caps|)], caps);
    YieldsStep(c, x, Running(p, s, stack, caps), r, q, stack, caps, m);
  }

  /** An outcome at st, from what happens after the two ways in which a body under a choice can end. */
  lemma Branch(c: Code, x: Subject, st: State, r: Res, st1: State, r1: Res, st2: State, r2: Res,
               q: int, stack: seq<Entry>, caps: seq<Capture>, m: nat)
    requires m <= |caps|
    requires r.Ok? ==>
             OpenReaches(c, x, st, st1) && Keep(r.caps, caps, |caps|) && Yields(c, x, st1, r1, q, stack, r.caps, m)
    requires r.Fail? ==> OpenReaches(c, x, st, st2) && Yields(c, x, st2, r2, q, stack, caps, m)
    requires r.Diverge? ==> Forever(c, x, st)
    ensures Yields(c, x, st, match r case Ok(_, _) => r1 case Fail => r2 case Diverge => Diverge, q, stack, caps, m)
  {
    hide OpenRun, OpenReaches;
    if r.Ok? {
      KeepTrans(r.caps, caps, caps, m, m);
      YieldsKeep(c, x, st1, r1, q, stack, r.caps, caps, m);
      YieldsAfter(c, x, st, st1, r1, q, stack, caps, m);
    } else if r.Fail? {
      YieldsAfter(c, x, st, st2, r2, q, stack, caps, m);
    }
  }

  /** Control that arrives at word q slides along jumps to word q2. */
  ghost predicate Slides(c: Code, x: Subject, q: int, q2: int) {
    forall s: int, stack: seq<Entry>, caps: seq<Capture> | 0 <= s <= |x.s| ::
      OpenReaches(c, x, Running(q, s, stack, caps), Running(q2, s, stack, caps))
  }

  lemma SlidesRefl(c: Code, x: Subject, q: int)
    ensures Slides(c, x, q, q)
  {
    hide OpenRun, OpenReaches;
    forall s: int, stack: seq<Entry>, caps: seq<Capture> | 0 <= s <= |x.s|
      ensures OpenReaches(c, x, Running(q, s, stack, caps), Running(q, s, stack, caps))
    {
      OpenRefl(c, x, Running(q, s, stack, caps));
    }
  }

  lemma SlidesJmp(c: Code, x: Subject, q: int, d: int)
    requires At(c, q) == IJmp(d) && q >= 0
    ensures Slides(c, x, q, q + d)
  {
    hide OpenRun, OpenReaches;
    forall s: int, stack: seq<Entry>, caps: seq<Capture> | 0 <= s <= |x.s|
      ensures OpenReaches(c, x, Running(q, s, stack, caps), Running(q + d, s, stack, caps))
    {
      OpenOne(c, x, Running(q, s, stack, caps));
    }
  }

  /** An outcome at word q, moved along the jumps that start there. */
  lemma YieldsSlide(c: Code, x: Subject, st: State, r: Res, q: int, q2: int, stack: seq<Entry>, caps: seq<Capture>,
      m: nat)
    requires Yields(c, x, st, r, q, stack, caps, m) && Slides(c, x, q, q2)
    requires r.Ok? ==> 0 <= r.j <= |x.s|
    ensures Yields(c, x, st, r, q2, stack, caps, m)
  {
    hide OpenRun, OpenReaches;
    if r.Ok? {
      OpenTrans(c, x, st, Running(q, r.j, stack, r.caps), Running(q2, r.j, stack, r.caps));
    }
  }

  // ---- positions ----

  lemma {:induction false} BackedMore(b: Block, fed: bool)
    requires Backed(b, fed)
    ensures Backed(b, true)
  {
    if b.Prim? && b.i.ICapture? { BackedMore(b.k, fed); }
  }

  lemma BackedParts(b: Block)
    requires !b.End? && Backed(b, true)
    ensures Backed(b.k, true)
    ensures b.TestJmp? ==> Backed(b.b1, true) && Backed(b.b2, true)
    ensures b.Union? ==> Backed(b.first, true) && Backed(b.more, true) && Backed(b.els, true)
    ensures b.Not? || b.NotHead? || b.And? || b.Loop? || b.LoopHead? || b.OptHead? ==> Backed(b.b, true)
  {
    match b
    case Prim(_, k) => if !b.i.ICheck? && !b.i.ICapture? { BackedMore(k, false); }
    case TestJmp(_, _, b2, _, k) => BackedMore(b2, false); BackedMore(k, false);
    case Union(ot, _, first, more, _, els, _, k) =>
      BackedMore(first, ot.Some?);
      BackedMore(more, false);
      BackedMore(els, false);
      BackedMore(k, false);
    case Not(ot, b1, _, k) => BackedMore(b1, ot.Some?); BackedMore(k, false);
    case And(b1, _, k) => BackedMore(b1, false); BackedMore(k, false);
    case Loop(b1, _, k) => BackedMore(b1, false); BackedMore(k, false);
    case NotHead(_, _, _, k) => BackedMore(k, false);
    case LoopHead(_, _, _, k) => BackedMore(k, false);
    case OptHead(_, _, _, _, k) => BackedMore(k, false);
  }

  /** A block moves forward, or takes back one byte of a check in front of it. */
  lemma {:induction false} NoRetreat(b: Block, fed: bool, x: Subject, i: int, caps: seq<Capture>)
    requires 0 <= i <= |x.s| && Shape(b) && Backed(b, fed)
    ensures var r := EvalB(b, x, i, caps); r.Ok? ==> r.j >= if fed then i - 1 else i
    decreases b, 2, 0
  {
    hide EvalItem, Shape;
    if b.Prim? {
      PrimRetreat(b, fed, x, i, caps);
      var r := EvalItem(b, x, i, caps);
      if r.Ok? {
        NoRetreat(b.k, if b.i.IBack? then false else b.i.ICheck? || (b.i.ICapture? && fed), x, r.j, r.caps);
      }
    } else if !b.End? {
      TailRetreat(b);
      ItemRetreat(b, fed, x, i, caps);
      var r := EvalItem(b, x, i, caps);
      if r.Ok? { NoRetreat(b.k, false, x, r.j, r.caps); }
    }
  }

  lemma TailRetreat(b: Block)
    requires !b.End? && Shape(b)
    ensures Shape(b.k)
  {
  }

  lemma PrimRetreat(b: Block, fed: bool, x: Subject, i: int, caps: seq<Capture>)
    requires b.Prim? && 0 <= i <= |x.s| && Shape(b) && Backed(b, fed)
    ensures Shape(b.k)
    ensures var r := EvalItem(b, x, i, caps);
            r.Ok? ==> r.j >= if b.i.IBack? then i - 1 else if b.i.ICheck? then i + 1 else i
  {
  }

  lemma {:induction false} ItemRetreat(b: Block, fed: bool, x: Subject, i: int, caps: seq<Capture>)
    requires 0 <= i <= |x.s| && !b.End? && !b.Prim? && Shape(b) && Backed(b, fed)
    ensures EvalItem(b, x, i, caps).Ok? ==> EvalItem(b, x, i, caps).j >= i
    decreases b, 1, 0
  {
    hide EvalB;
    match b
    case TestJmp(t, b1, b2, _, _) =>
      if Passes(t, x.s, i) {
        NoRetreat(b1, true, x, i + CheckStep(t), caps);
      } else {
        NoRetreat(b2, false, x, i, caps);
      }
    case Union(_, _, _, _, _, _, _, _) => UnionRetreat(b, fed, x, i, caps);
    case Not(_, _, _, _) =>
    case NotHead(_, _, _, _) =>
    case And(_, _, _) =>
    case Loop(_, _, _) => RoundsRetreat(b, x, i, caps);
    case LoopHead(_, _, _, _) => RoundsRetreat(b, x, i, caps);
    case OptHead(_, _, n, _, _) => OptsRetreat(b, n, x, i, caps);
  }

  lemma {:induction false} UnionRetreat(b: Block, fed: bool, x: Subject, i: int, caps: seq<Capture>)
    requires 0 <= i <= |x.s| && b.Union? && Shape(b) && Backed(b, fed)
    ensures EvalItem(b, x, i, caps).Ok? ==> EvalItem(b, x, i, caps).j >= i
    decreases b, 0, b.m + 1
  {
    hide EvalB, EvalMore;
    if !OtPasses(b.ot, x, i) {
      NoRetreat(b.els, false, x, i, caps);
    } else {
      NoRetreat(b.first, b.ot.Some?, x, i + OtStep(b.ot), caps);
      NoRetreat(b.els, false, x, i + OtStep(b.ot) - b.aux, caps);
      var r := EvalB(b.first, x, i + OtStep(b.ot), caps);
      if r.Ok? { MoreRetreat(b, b.m, x, r.j, r.caps); }
    }
  }

  lemma {:induction false} MoreRetreat(b: Block, m: nat, x: Subject, i: int, caps: seq<Capture>)
    requires 0 <= i <= |x.s| && b.Union? && Shape(b) && Backed(b, true)
    ensures EvalMore(b, m, x, i, caps).Ok? ==> EvalMore(b, m, x, i, caps).j >= i
    decreases b, 0, m
  {
    hide EvalB;
    if m > 0 {
      NoRetreat(b.more, false, x, i, caps);
      NoRetreat(b.els, false, x, i, caps);
      var r := EvalB(b.more, x, i, caps);
      if r.Ok? { MoreRetreat(b, m - 1, x, r.j, r.caps); }
    }
  }

  lemma {:induction false} RoundsRetreat(b: Block, x: Subject, i: int, caps: seq<Capture>)
    requires (b.Loop? || b.LoopHead?) && 0 <= i <= |x.s|
    ensures EvalRounds(b, x, i, caps).Ok? ==> EvalRounds(b, x, i, caps).j >= i
    decreases b, 0, |x.s| - i
  {
    hide EvalB;
    if b.LoopHead? && !Passes(b.t, x.s, i) {
    } else {
      var r := EvalB(b.b, x, if b.Loop? then i else i + CheckStep(b.t), caps);
      if r.Ok? && r.j > i { RoundsRetreat(b, x, r.j, r.caps); }
    }
  }

  lemma {:induction false} OptsRetreat(b: Block, n: nat, x: Subject, i: int, caps: seq<Capture>)
    requires b.OptHead? && 0 <= i <= |x.s| && Shape(b) && Backed(b, true)
    ensures EvalOpts(b, n, x, i, caps).Ok? ==> EvalOpts(b, n, x, i, caps).j >= i
    decreases b, 0, n
  {
    hide EvalB;
    if n > 0 && Passes(b.t, x.s, i) {
      NoRetreat(b.b, true, x, i + CheckStep(b.t), caps);
      var r := EvalB(b.b, x, i + CheckStep(b.t), caps);
      if r.Ok? { OptsRetreat(b, n - 1, x, r.j, r.caps); }
    }
  }

  /** A block without failing instructions always succeeds. */
  lemma {:induction false} NoFailOk(b: Block, x: Subject, i: int, caps: seq<Capture>)
    requires NoFail(b) && 0 <= i <= |x.s|
    ensures EvalB(b, x, i, caps).Ok? && EvalB(b, x, i, caps).j >= i
  {
    if !b.End? {
      var r := EvalItem(b, x, i, caps);
      NoFailOk(b.k, x, r.j, r.caps);
    }
  }

  // ---- captures do not steer the machine ----

  /** The two results differ in their captures at most. */
  predicate Alike(r: Res, s: Res) {
    (r.Ok? <==> s.Ok?) && (r.Fail? <==> s.Fail?) && (r.Ok? ==> r.j == s.j)
  }

  lemma {:induction false} Blind(b: Block, x: Subject, i: int, caps: seq<Capture>, caps2: seq<Capture>)
    requires 0 <= i <= |x.s|
    ensures Alike(EvalB(b, x, i, caps), EvalB(b, x, i, caps2))
    decreases b, 2, 0
  {
    hide EvalItem;
    if !b.End? {
      ItemBlind(b, x, i, caps, caps2);
      var r, s := EvalItem(b, x, i, caps), EvalItem(b, x, i, caps2);
      if r.Ok? { Blind(b.k, x, r.j, r.caps, s.caps); }
    }
  }

  lemma {:induction false} ItemBlind(b: Block, x: Subject, i: int, caps: seq<Capture>, caps2: seq<Capture>)
    requires 0 <= i <= |x.s| && !b.End?
    ensures Alike(EvalItem(b, x, i, caps), EvalItem(b, x, i, caps2))
    decreases b, 1, 0
  {
    hide EvalB, EvalMore;
    match b
    case Prim(_, _) =>
    case TestJmp(t, b1, b2, _, _) =>
      if Passes(t, x.s, i) { Blind(b1, x, i + CheckStep(t), caps, caps2); } else { Blind(b2, x, i, caps, caps2); }
    case Union(ot, aux, first, more, m, els, _, _) =>
      if !OtPasses(ot, x, i) {
        Blind(els, x, i, caps, caps2);
      } else {
        Blind(first, x, i + OtStep(ot), caps, caps2);
        Blind(els, x, if aux <= OtStep(ot) then i + OtStep(ot) - aux else i, caps, caps2);
        var r, s := EvalB(first, x, i + OtStep(ot), caps), EvalB(first, x, i + OtStep(ot), caps2);
        if r.Ok? { MoreBlind(b, m, x, r.j, r.caps, s.caps); }
      }
    case Not(ot, b1, _, _) => if OtPasses(ot, x, i) { Blind(b1, x, i + OtStep(ot), caps, caps2); }
    case NotHead(t, b1, _, _) => if Passes(t, x.s, i) { Blind(b1, x, i + CheckStep(t), caps, caps2); }
    case And(b1, _, _) => Blind(b1, x, i, caps, caps2);
    case Loop(_, _, _) => RoundsBlind(b, x, i, caps, caps2);
    case LoopHead(_, _, _, _) => RoundsBlind(b, x, i, caps, caps2);
    case OptHead(_, _, n, _, _) => OptsBlind(b, n, x, i, caps, caps2);
  }

  lemma {:induction false} MoreBlind(b: Block, m: nat, x: Subject, i: int, caps: seq<Capture>, caps2: seq<Capture>)
    requires b.Union? && 0 <= i <= |x.s|
    ensures Alike(EvalMore(b, m, x, i, caps), EvalMore(b, m, x, i, caps2))
    decreases b, 0, m
  {
    hide EvalB;
    if m > 0 {
      Blind(b.more, x, i, caps, caps2);
      Blind(b.els, x, i, caps, caps2);
      var r, s := EvalB(b.more, x, i, caps), EvalB(b.more, x, i, caps2);
      if r.Ok? { MoreBlind(b, m - 1, x, r.j, r.caps, s.caps); }
    }
  }

  lemma {:induction false} RoundsBlind(b: Block, x: Subject, i: int, caps: seq<Capture>, caps2: seq<Capture>)
    requires (b.Loop? || b.LoopHead?) && 0 <= i <= |x.s|
    ensures Alike(EvalRounds(b, x, i, caps), EvalRounds(b, x, i, caps2))
    decreases b, 0, |x.s| - i
  {
    hide EvalB;
    if b.LoopHead? && !Passes(b.t, x.s, i) {
    } else {
      var i0 := if b.Loop? then i else i + CheckStep(b.t);
      Blind(b.b, x, i0, caps, caps2);
      var r, s := EvalB(b.b, x, i0, caps), EvalB(b.b, x, i0, caps2);
      if r.Ok? && r.j > i { RoundsBlind(b, x, r.j, r.caps, s.caps); }
    }
  }

  lemma {:induction false} OptsBlind(b: Block, n: nat, x: Subject, i: int, caps: seq<Capture>, caps2: seq<Capture>)
    requires b.OptHead? && 0 <= i <= |x.s|
    ensures Alike(EvalOpts(b, n, x, i, caps), EvalOpts(b, n, x, i, caps2))
    decreases b, 0, n
  {
    hide EvalB;
    if n > 0 && Passes(b.t, x.s, i) {
      Blind(b.b, x, i + CheckStep(b.t), caps, caps2);
      var r, s := EvalB(b.b, x, i + CheckStep(b.t), caps), EvalB(b.b, x, i + CheckStep(b.t), caps2);
      if r.Ok? { OptsBlind(b, n - 1, x, r.j, r.caps, s.caps); }
    }
  }

  // ---- captures below the block are left alone ----

  lemma {:induction false} CapsKept(b: Block, dep: nat, x: Subject, i: int, caps: seq<Capture>, m: nat)
    requires 0 <= i <= |x.s| && Balanced(b, dep) && m + dep <= |caps|
    ensures EvalB(b, x, i, caps).Ok? ==> Keep(EvalB(b, x, i, caps).caps, caps, m)
    decreases b, 2, 0
  {
    if !b.End? {
      var r := EvalItem(b, x, i, caps);
      if r.Ok? {
        var dep2 := dep;
        if b.Prim? && b.i.ICapture? {
          dep2 := if b.i.op.OpenCap? then dep + 1 else if b.i.op.CloseCap? then dep - 1 else dep;
          assert r.caps[..m] == caps[..m];
        } else if b.Prim? {
        } else {
          ItemCapsKept(b, dep, x, i, caps);
          assert r.caps[..|caps|][..m] == r.caps[..m];
        }
        CapsKept(b.k, dep2, x, r.j, r.caps, m);
        if EvalB(b, x, i, caps).Ok? {
          KeepTrans(EvalB(b, x, i, caps).caps, r.caps, caps, m, m);
        }
      }
    }
  }

  lemma {:induction false} ItemCapsKept(b: Block, dep: nat, x: Subject, i: int, caps: seq<Capture>)
    requires !b.End? && !b.Prim? && 0 <= i <= |x.s| && Balanced(b, dep)
    ensures EvalItem(b, x, i, caps).Ok? ==> Keep(EvalItem(b, x, i, caps).caps, caps, |caps|)
    decreases b, 1, 0
  {
    match b
    case TestJmp(t, b1, b2, _, _) =>
      if Passes(t, x.s, i) {
        CapsKept(b1, 0, x, i + CheckStep(t), caps, |caps|);
      } else {
        CapsKept(b2, 0, x, i, caps, |caps|);
      }
    case Union(ot, aux, first, more, m, els, _, _) =>
      if !OtPasses(ot, x, i) {
        CapsKept(els, 0, x, i, caps, |caps|);
      } else {
        var r := EvalB(first, x, i + OtStep(ot), caps);
        CapsKept(first, 0, x, i + OtStep(ot), caps, |caps|);
        CapsKept(els, 0, x, if aux <= OtStep(ot) then i + OtStep(ot) - aux else i, caps, |caps|);
        if r.Ok? {
          MoreCapsKept(b, dep, m, x, r.j, r.caps);
          if EvalMore(b, m, x, r.j, r.caps).Ok? {
            KeepTrans(caps, r.caps, EvalMore(b, m, x, r.j, r.caps).caps, |caps|, |r.caps|);
          }
        }
      }
    case Not(_, _, _, _) =>
    case NotHead(_, _, _, _) =>
    case And(_, _, _) =>
    case Loop(_, _, _) => RoundsCapsKept(b, dep, x, i, caps);
    case LoopHead(_, _, _, _) => RoundsCapsKept(b, dep, x, i, caps);
    case OptHead(_, _, n, _, _) => OptsCapsKept(b, dep, n, x, i, caps);
  }

  lemma {:induction false} MoreCapsKept(b: Block, dep: nat, m: nat, x: Subject, i: int, caps: seq<Capture>)
    requires b.Union? && 0 <= i <= |x.s| && Balanced(b, dep)
    ensures EvalMore(b, m, x, i, caps).Ok? ==> Keep(EvalMore(b, m, x, i, caps).caps, caps, |caps|)
    decreases b, 0, m
  {
    if m > 0 {
      var r := EvalB(b.more, x, i, caps);
      CapsKept(b.more, 0, x, i, caps, |caps|);
      CapsKept(b.els, 0, x, i, caps, |caps|);
      if r.Ok? {
        MoreCapsKept(b, dep, m - 1, x, r.j, r.caps);
        if EvalMore(b, m, x, i, caps).Ok? {
          KeepTrans(caps, r.caps, EvalMore(b, m, x, i, caps).caps, |caps|, |r.caps|);
        }
      }
    }
  }

  lemma {:induction false} RoundsCapsKept(b: Block, dep: nat, x: Subject, i: int, caps: seq<Capture>)
    requires (b.Loop? || b.LoopHead?) && 0 <= i <= |x.s| && Balanced(b, dep)
    ensures EvalRounds(b, x, i, caps).Ok? ==> Keep(EvalRounds(b, x, i, caps).caps, caps, |caps|)
    decreases b, 0, |x.s| - i
  {
    if b.LoopHead? && !Passes(b.t, x.s, i) {
    } else {
      var i0 := if b.Loop? then i else i + CheckStep(b.t);
      var r := EvalB(b.b, x, i0, caps);
      CapsKept(b.b, 0, x, i0, caps, |caps|);
      if r.Ok? && r.j > i {
        RoundsCapsKept(b, dep, x, r.j, r.caps);
        if EvalRounds(b, x, i, caps).Ok? {
          KeepTrans(caps, r.caps, EvalRounds(b, x, i, caps).caps, |caps|, |r.caps|);
        }
      }
    }
  }

  lemma {:induction false} OptsCapsKept(b: Block, dep: nat, n: nat, x: Subject, i: int, caps: seq<Capture>)
    requires b.OptHead? && 0 <= i <= |x.s| && Balanced(b, dep)
    ensures EvalOpts(b, n, x, i, caps).Ok? ==> Keep(EvalOpts(b, n, x, i, caps).caps, caps, |caps|)
    decreases b, 0, n
  {
    if n == 0 || !Passes(b.t, x.s, i) {
    } else {
      var r := EvalB(b.b, x, i + CheckStep(b.t), caps);
      CapsKept(b.b, 0, x, i + CheckStep(b.t), caps, |caps|);
      if r.Ok? {
        OptsCapsKept(b, dep, n - 1, x, r.j, r.caps);
        if EvalOpts(b, n, x, i, caps).Ok? {
          KeepTrans(caps, r.caps, EvalOpts(b, n, x, i, caps).caps, |caps|, |r.caps|);
        }
      }
    }
  }
}
