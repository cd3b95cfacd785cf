/** optimizejumps on the words of a block makes every exit follow the jumps found there. */
module LpegThread {
  import opened LpegCode
  import opened LpegMachine
  import opened LpegPeg
  import opened LpegBlock
  import opened LpegExec
  import opened LpegRun
  import opened LpegBuild
  import opened LpegShape

  /** Jumps lead from word q forward to word e, where no jump stands. */
  ghost predicate Lands(c: Code, q: int, e: int) {
    q <= e <= |c| && !At(c, e).IJmp? && Target(c, q, e - q) == e
  }

  lemma {:induction false} TargetMore(c: Code, q: int, e: int, n: nat, m: nat)
    requires Target(c, q, n) == e && !At(c, e).IJmp? && n <= m
    ensures Target(c, q, m) == e
    decreases n
  {
    if n > 0 && At(c, q).IJmp? {
      TargetMore(c, q + At(c, q).offset, e, n - 1, m - 1);
    }
  }

  /** optimizejumps, which allows for as many jumps as there are words, finds the landing place. */
  lemma LandsTarget(c: Code, q: int, e: int)
    requires Lands(c, q, e) && q >= 0
    ensures Target(c, q, |c|) == e
  {
    TargetMore(c, q, e, e - q, |c|);
  }

  lemma LandsSelf(c: Code, q: int)
    requires 0 <= q <= |c| && !At(c, q).IJmp?
    ensures Lands(c, q, q)
  {
  }

  lemma LandsJmp(c: Code, q: int, d: int, e: int)
    requires At(c, q) == IJmp(d) && d >= 1 && Lands(c, q + d, e)
    ensures Lands(c, q, e)
  {
    TargetMore(c, q + d, e, e - q - d, e - q - 1);
  }

  /** The block with every exit moved on, when jumps lead d from its end. */
  function Thread(b: Block, d: nat): Block {
    match b
    case End => End
    case Prim(i, k) => Prim(i, Thread(k, d))
    case TestJmp(t, b1, b2, _, k) =>
      var x := ItemSlide(k, d);
      TestJmp(t, Thread(b1, 1 + |Flat(b2)| + x), Thread(b2, x), x, Thread(k, d))
    case Union(ot, aux, first, more, m, els, _, k) =>
      var x := ItemSlide(k, d);
      Union(ot, aux, Thread(first, 0), Thread(more, 0), m, Thread(els, x), x, Thread(k, d))
    case Not(ot, b1, _, k) => Not(ot, Thread(b1, 0), ItemSlide(k, d), Thread(k, d))
    case NotHead(t, b1, _, k) => NotHead(t, Thread(b1, 0), ItemSlide(k, d), Thread(k, d))
    case And(b1, _, k) => And(Thread(b1, 0), ItemSlide(k, d), Thread(k, d))
    case Loop(b1, _, k) => Loop(Thread(b1, 0), ItemSlide(k, d), Thread(k, d))
    case LoopHead(t, b1, _, k) => LoopHead(t, Thread(b1, 0), ItemSlide(k, d), Thread(k, d))
    case OptHead(t, b1, n, _, k) => OptHead(t, Thread(b1, 0), n, ItemSlide(k, d), Thread(k, d))
  }

  // ---- the words of the threaded block ----

  lemma ThreadedJump(c: Code, i: int, e: int)
    requires 0 <= i < |c| && IsJmp(c[i]) && i + c[i].offset >= 0 && Lands(c, i + c[i].offset, e)
    ensures OptJumps(c)[i] == SetOffset(c[i], e - i)
  {
    LandsTarget(c, i + c[i].offset, e);
  }

  lemma UnthreadedWord(c: Code, i: int)
    requires 0 <= i < |c| && !IsJmp(c[i])
    ensures OptJumps(c)[i] == c[i]
  {
  }

  lemma SubOne(c: Code, p: int, i: Cell)
    requires 0 <= p < |c| && c[p] == i
    ensures Sub(c, p, [i])
  {
  }

  /** A check or another straight instruction stays as it is. */
  lemma PrimThread(c: Code, p: int, i: Cell)
    requires Sub(c, p, Words(i)) && !IsJmp(i)
    ensures Sub(OptJumps(c), p, Words(i))
  {
    var o := OptJumps(c);
    forall j | 0 <= j < |Words(i)| ensures o[p + j] == Words(i)[j] {
      SubAt(c, p, Words(i), j);
      UnthreadedWord(c, p + j);
    }
    assert o[p..p + |Words(i)|] == Words(i);
  }

  /** A test gets the offset of its landing place. */
  lemma TestThread(c: Code, p: int, t: Check, offset: int, e: int)
    requires Sub(c, p, Words(ICheck(t, offset))) && offset > 0 && Lands(c, p + offset, e)
    ensures Sub(OptJumps(c), p, Words(ICheck(t, e - p)))
  {
    var o, w, w2 := OptJumps(c), Words(ICheck(t, offset)), Words(ICheck(t, e - p));
    forall j | 0 <= j < |w2| ensures o[p + j] == w2[j] {
      SubAt(c, p, w, j);
      if j == 0 { ThreadedJump(c, p, e); } else { UnthreadedWord(c, p + j); }
    }
    assert o[p..p + |w2|] == w2;
  }

  lemma JumpThread(c: Code, p: int, i: Cell, e: int)
    requires 0 <= p < |c| && c[p] == i && IsJmp(i) && p + i.offset >= 0 && Lands(c, p + i.offset, e)
    ensures Sub(OptJumps(c), p, [SetOffset(i, e - p)])
  {
    ThreadedJump(c, p, e);
    SubOne(OptJumps(c), p, SetOffset(i, e - p));
  }

  lemma OtherThread(c: Code, p: int, i: Cell)
    requires 0 <= p < |c| && c[p] == i && !IsJmp(i)
    ensures Sub(OptJumps(c), p, [i])
  {
    UnthreadedWord(c, p);
    SubOne(OptJumps(c), p, i);
  }

  lemma {:induction false} ThreadLength(b: Block, d: nat)
    ensures |Flat(Thread(b, d))| == |Flat(b)| && (Thread(b, d).End? <==> b.End?)
    decreases b
  {
    if !b.End? {
      ThreadItemLength(b, d);
      ThreadLength(b.k, d);
    }
  }

  lemma {:induction false} ThreadItemLength(b: Block, d: nat)
    requires !b.End?
    ensures |ItemWords(Thread(b, d))| == |ItemWords(b)|
    decreases b, 0
  {
    hide Flat;
    match b
    case Prim(_, _) =>
    case TestJmp(_, b1, b2, _, k) =>
      ThreadLength(b1, 1 + |Flat(b2)| + ItemSlide(k, d));
      ThreadLength(b2, ItemSlide(k, d));
    case Union(_, _, first, more, m, els, _, k) =>
      ThreadLength(first, 0);
      ThreadLength(more, 0);
      ThreadLength(els, ItemSlide(k, d));
      MoreLength(Flat(more), Flat(Thread(more, 0)), m);
    case Not(_, b1, _, _) => ThreadLength(b1, 0);
    case NotHead(_, b1, _, _) => ThreadLength(b1, 0);
    case And(b1, _, _) => ThreadLength(b1, 0);
    case Loop(b1, _, _) => ThreadLength(b1, 0);
    case LoopHead(_, b1, _, _) => ThreadLength(b1, 0);
    case OptHead(t, b1, n, x, k) =>
      ThreadLength(b1, 0);
      OptLength(t, Flat(b1), Flat(Thread(b1, 0)), n, x, ItemSlide(k, d));
  }

  lemma {:induction false} MoreLength(f: Code, g: Code, m: nat)
    requires |f| == |g|
    ensures |MoreWords(f, m)| == |MoreWords(g, m)|
    decreases m
  {
    if m > 0 { MoreLength(f, g, m - 1); }
  }

  lemma {:induction false} OptLength(t: Check, f: Code, g: Code, n: nat, x: nat, y: nat)
    requires |f| == |g|
    ensures |OptWords(t, f, n, x)| == |OptWords(t, g, n, y)|
    decreases n
  {
    if n > 0 { OptLength(t, f, g, n - 1, x, y); }
  }

  /** A block never starts with an unconditional jump. */
  lemma NoJumpFirst(c: Code, p: int, b: Block)
    requires !b.End? && Shape(b) && Sub(c, p, Flat(b))
    ensures 0 <= p < |c| && !At(c, p).IJmp?
  {
    ItemHead(b);
    SubAt(c, p, Flat(b), 0);
  }

  /** The end of an item, seen from the block that follows it. */
  ghost predicate Leads(c: Code, z: int, k: Block, d0: nat, d: nat) {
    Lands(c, z, z + ItemSlide(k, d)) && Lands(c, z + ItemSlide(k, d0), z + ItemSlide(k, d))
  }

  lemma ItemLeads(c: Code, z: int, k: Block, d0: nat, d: nat)
    requires Sub(c, z, Flat(k)) && Shape(k)
    requires Lands(c, z + |Flat(k)|, z + |Flat(k)| + d) && Lands(c, z + |Flat(k)| + d0, z + |Flat(k)| + d)
    ensures Leads(c, z, k, d0, d)
  {
    hide Flat, Lands, Shape;
    if k.End? {
      NoWords();
    } else {
      NoJumpFirst(c, z, k);
      LandsSelf(c, z);
    }
  }

  lemma {:induction false} ThreadFlat(c: Code, p: int, b: Block, d0: nat, d: nat)
    requires Sub(c, p, Flat(b)) && Shape(b) && Valid(b, d0)
    requires Lands(c, p + |Flat(b)|, p + |Flat(b)| + d) && Lands(c, p + |Flat(b)| + d0, p + |Flat(b)| + d)
    ensures Sub(OptJumps(c), p, Flat(Thread(b, d)))
    decreases b, 3
  {
    hide Flat, ItemWords, OptJumps, Lands, Valid, Shape, Thread;
    if b.End? {
      EndThread(c, p, d);
    } else {
      FlatSplit(c, p, b);
      var z := p + |ItemWords(b)|;
      TailParts(b, d0);
      ItemLeads(c, z, b.k, d0, d);
      ThreadItem(c, p, z, b, d0, d);
      ThreadFlat(c, z, b.k, d0, d);
      ThreadItemLength(b, d);
      ThreadLength(b, d);
      SubJoin(OptJumps(c), p, ItemWords(Thread(b, d)), Flat(Thread(b.k, d)));
      FlatOfThread(b, d);
    }
  }

  lemma EndThread(c: Code, p: int, d: nat)
    requires 0 <= p <= |c|
    ensures Flat(End) == [] && Sub(OptJumps(c), p, Flat(Thread(End, d)))
  {
  }

  lemma TailParts(b: Block, d: nat)
    requires !b.End? && Shape(b) && Valid(b, d)
    ensures Shape(b.k) && Valid(b.k, d)
  {
  }

  lemma FlatOfThread(b: Block, d: nat)
    requires !b.End?
    ensures Flat(Thread(b, d)) == ItemWords(Thread(b, d)) + Flat(Thread(b.k, d))
  {
  }

  lemma {:induction false} ThreadItem(c: Code, p: int, z: int, b: Block, d0: nat, d: nat)
    requires !b.End? && Sub(c, p, ItemWords(b)) && z == p + |ItemWords(b)| && Shape(b) && Valid(b, d0)
    requires Leads(c, z, b.k, d0, d)
    ensures Sub(OptJumps(c), p, ItemWords(Thread(b, d)))
    decreases b, 2
  {
    hide OptJumps, Flat, Leads;
    match b
    case Prim(i, _) => PrimThread(c, p, i);
    case TestJmp(_, _, _, _, _) => ThreadTestJmp(c, p, z, b, d0, d);
    case Union(_, _, _, _, _, _, _, _) => ThreadUnion(c, p, z, b, d0, d);
    case Not(_, _, _, _) => ThreadNot(c, p, z, b, d0, d);
    case NotHead(_, _, _, _) => ThreadNotHead(c, p, z, b, d0, d);
    case And(_, _, _) => ThreadAnd(c, p, z, b, d0, d);
    case Loop(_, _, _) => ThreadLoop(c, p, z, b, d0, d);
    case LoopHead(_, _, _, _) => ThreadLoopHead(c, p, z, b, d0, d);
    case OptHead(t, b1, n, x, k) => ThreadOpts(c, p, z, b, n, d0, d);
  }

  /** An exit of an item lands where the threaded exit points. */
  lemma ExitLands(c: Code, z: int, k: Block, x: nat, d0: nat, d: nat)
    requires Leads(c, z, k, d0, d) && GoodExit(x, k, d0)
    ensures Lands(c, z + x, z + ItemSlide(k, d))
  {
  }

  lemma {:induction false} ThreadTestJmp(c: Code, p: int, z: int, b: Block, d0: nat, d: nat)
    requires b.TestJmp? && Sub(c, p, ItemWords(b)) && z == p + |ItemWords(b)| && Shape(b) && Valid(b, d0)
    requires Leads(c, z, b.k, d0, d)
    ensures Sub(OptJumps(c), p, ItemWords(Thread(b, d)))
    decreases b, 1
  {
    hide OptJumps, Flat, Lands, Leads, Thread, Valid, Shape, ItemWords, TestJmpWords, Words, Sub;
    var t, b1, b2, x := b.t, b.b1, b.b2, b.x;
    var f1, f2, y := Flat(b1), Flat(b2), ItemSlide(b.k, d);
    var q := p + CheckSize(t) + |f1|;
    TestJmpParts(b, d0, d);
    TestJmpSub(c, p, t, f1, f2, Exit(b2, x), x);
    AlternativeLands(c, q + 1, z, b2, x, b.k, d0, d);
    TestThread(c, p, t, CheckSize(t) + |f1| + 1 + Exit(b2, x), q + 1 + Exit(b2, y));
    ThreadTestJmpBody(c, p + CheckSize(t), q, z, b, d0, d);
    TestJmpJoin(OptJumps(c), p, t, Flat(Thread(b1, 1 + |f2| + y)), Flat(Thread(b2, y)), Exit(b2, y), y);
  }

  lemma {:induction false} ThreadTestJmpBody(c: Code, p1: int, q: int, z: int, b: Block, d0: nat, d: nat)
    requires b.TestJmp? && Shape(b) && Valid(b, d0) && Leads(c, z, b.k, d0, d)
    requires Sub(c, p1, Flat(b.b1)) && q == p1 + |Flat(b.b1)| && At(c, q) == IJmp(1 + |Flat(b.b2)| + b.x)
    requires Sub(c, q + 1, Flat(b.b2)) && q + 1 + |Flat(b.b2)| == z
    ensures var y := ItemSlide(b.k, d); var g1 := Flat(Thread(b.b1, 1 + |Flat(b.b2)| + y));
            && Sub(OptJumps(c), p1, g1) && |g1| == |Flat(b.b1)|
            && Sub(OptJumps(c), q, [IJmp(1 + |Flat(b.b2)| + y)])
            && Sub(OptJumps(c), q + 1, Flat(Thread(b.b2, y)))
    decreases b, 0
  {
    hide OptJumps, Flat, Lands, Leads, Thread;
    var x, y, n := b.x, ItemSlide(b.k, d), |Flat(b.b2)|;
    ExitLands(c, z, b.k, x, d0, d);
    ExitLands(c, z, b.k, ItemSlide(b.k, d0), d0, d);
    ExitLands(c, z, b.k, 0, d0, d);
    LandsForward(c, q, 1 + n + x, z + y);
    ThreadFlat(c, p1, b.b1, 1 + n + x, 1 + n + y);
    ThreadFlat(c, q + 1, b.b2, ItemSlide(b.k, d0), y);
    JumpThread(c, q, IJmp(1 + n + x), z + y);
    ThreadLength(b.b1, 1 + n + y);
  }

  lemma TestJmpParts(b: Block, d0: nat, d: nat)
    requires b.TestJmp? && Shape(b) && Valid(b, d0)
    ensures Shape(b.b2) && GoodExit(b.x, b.k, d0)
    ensures ItemWords(b) == TestJmpWords(b.t, Flat(b.b1), Flat(b.b2), Exit(b.b2, b.x), b.x)
    ensures var y := ItemSlide(b.k, d);
            && |Flat(Thread(b.b2, y))| == |Flat(b.b2)|
            && ItemWords(Thread(b, d)) ==
              TestJmpWords(b.t, Flat(Thread(b.b1, 1 + |Flat(b.b2)| + y)), Flat(Thread(b.b2, y)), Exit(b.b2, y), y)
  {
    ThreadLength(b.b2, ItemSlide(b.k, d));
  }

  lemma TestJmpSub(c: Code, p: int, t: Check, f1: Code, f2: Code, ex: nat, x: nat)
    requires Sub(c, p, TestJmpWords(t, f1, f2, ex, x))
    ensures var p1 := p + CheckSize(t); var q := p1 + |f1|;
            && Sub(c, p, Words(ICheck(t, CheckSize(t) + |f1| + 1 + ex))) && Sub(c, p1, f1)
            && At(c, q) == IJmp(1 + |f2| + x) && Sub(c, q + 1, f2)
            && q + 1 + |f2| == p + |TestJmpWords(t, f1, f2, ex, x)|
  {
    var w := Words(ICheck(t, CheckSize(t) + |f1| + 1 + ex));
    Sub4(c, p, w, f1, [IJmp(1 + |f2| + x)], f2);
    Sub1(c, p + |w| + |f1|, IJmp(1 + |f2| + x));
  }

  lemma TestJmpJoin(o: Code, p: int, t: Check, g1: Code, g2: Code, ex: nat, y: nat)
    requires Sub(o, p, Words(ICheck(t, CheckSize(t) + |g1| + 1 + ex))) && Sub(o, p + CheckSize(t), g1)
    requires Sub(o, p + CheckSize(t) + |g1|, [IJmp(1 + |g2| + y)]) && Sub(o, p + CheckSize(t) + |g1| + 1, g2)
    ensures Sub(o, p, TestJmpWords(t, g1, g2, ex, y))
  {
    var w := Words(ICheck(t, CheckSize(t) + |g1| + 1 + ex));
    SubJoin(o, p, w, g1);
    SubJoin(o, p, w + g1, [IJmp(1 + |g2| + y)]);
    SubJoin(o, p, w + g1 + [IJmp(1 + |g2| + y)], g2);
  }

  lemma LandsForward(c: Code, q: int, d: int, e: int)
    requires At(c, q) == IJmp(d) && d >= 1 && Lands(c, q + d, e)
    ensures Lands(c, q, e)
  {
    LandsJmp(c, q, d, e);
  }

  /** The entry of the last alternative, or the item's exit when there is none. */
  lemma AlternativeLands(c: Code, pe: int, z: int, els: Block, x: nat, k: Block, d0: nat, d: nat)
    requires Sub(c, pe, Flat(els)) && pe + |Flat(els)| == z && Shape(els) && Leads(c, z, k, d0, d) && GoodExit(x, k, d0)
    ensures Lands(c, pe + Exit(els, x), pe + Exit(els, ItemSlide(k, d)))
  {
    if els.End? {
      ExitLands(c, z, k, x, d0, d);
    } else {
      NoJumpFirst(c, pe, els);
      LandsSelf(c, pe);
    }
  }

  lemma {:induction false} ThreadNotHead(c: Code, p: int, z: int, b: Block, d0: nat, d: nat)
    requires b.NotHead? && Sub(c, p, ItemWords(b)) && z == p + |ItemWords(b)| && Shape(b) && Valid(b, d0)
    requires Leads(c, z, b.k, d0, d)
    ensures Sub(OptJumps(c), p, ItemWords(Thread(b, d)))
    decreases b, 1
  {
    hide OptJumps, Flat, Lands, Leads;
    var t, f := b.t, Flat(b.b);
    var w := Words(ICheck(t, CheckSize(t) + |f| + 1 + b.x));
    Sub3(c, p, w, f, [IFail]);
    Sub1(c, p + |w| + |f|, IFail);
    ThreadHead(c, p, z, t, b.b, b.x, b.k, d0, d);
    OtherThread(c, z - 1, IFail);
    var o, g := OptJumps(c), Flat(Thread(b.b, 0));
    var w2 := Words(ICheck(t, z + ItemSlide(b.k, d) - p));
    SubJoin(o, p, w2 + g, [IFail]);
  }

  /** The test and the body of an item whose body cannot fail. */
  lemma {:induction false} ThreadHead(c: Code, p: int, z: int, t: Check, b1: Block, x: nat, k: Block, d0: nat, d: nat)
    requires Sub(c, p, Words(ICheck(t, CheckSize(t) + |Flat(b1)| + 1 + x))) && Sub(c, p + CheckSize(t), Flat(b1))
    requires p + CheckSize(t) + |Flat(b1)| + 1 == z && z <= |c|
    requires Leads(c, z, k, d0, d) && GoodExit(x, k, d0) && Shape(b1) && NoFail(b1)
    ensures |Flat(Thread(b1, 0))| == |Flat(b1)|
    ensures Sub(OptJumps(c), p, Words(ICheck(t, z + ItemSlide(k, d) - p)) + Flat(Thread(b1, 0)))
    decreases b1, 4
  {
    hide OptJumps, Flat, Lands, Leads;
    ExitLands(c, z, k, x, d0, d);
    TestThread(c, p, t, CheckSize(t) + |Flat(b1)| + 1 + x, z + ItemSlide(k, d));
    NoFailThread(c, p + CheckSize(t), b1);
    SubJoin(OptJumps(c), p, Words(ICheck(t, z + ItemSlide(k, d) - p)), Flat(Thread(b1, 0)));
  }

  /** A body that cannot fail has no jumps to thread. */
  lemma {:induction false} NoFailThread(c: Code, p: int, b: Block)
    requires Sub(c, p, Flat(b)) && NoFail(b)
    ensures Sub(OptJumps(c), p, Flat(Thread(b, 0))) && Flat(Thread(b, 0)) == Flat(b)
    decreases b
  {
    if !b.End? {
      FlatSplit(c, p, b);
      PrimThread(c, p, b.i);
      NoFailThread(c, p + |Words(b.i)|, b.k);
      SubJoin(OptJumps(c), p, Words(b.i), Flat(b.k));
    }
  }

  lemma {:induction false} ThreadLoopHead(c: Code, p: int, z: int, b: Block, d0: nat, d: nat)
    requires b.LoopHead? && Sub(c, p, ItemWords(b)) && z == p + |ItemWords(b)| && Shape(b) && Valid(b, d0)
    requires Leads(c, z, b.k, d0, d)
    ensures Sub(OptJumps(c), p, ItemWords(Thread(b, d)))
    decreases b, 1
  {
    hide OptJumps, Flat, Lands, Leads, Valid, Words, Sub, Thread;
    var t, f := b.t, Flat(b.b);
    var w := Words(ICheck(t, CheckSize(t) + |f| + 1 + b.x));
    var jmp := IJmp(-(CheckSize(t) + |f|));
    LoopHeadThreads(b, d0, d);
    Sub3(c, p, w, f, [jmp]);
    Sub1(c, p + |w| + |f|, jmp);
    SubAt(c, p, w, 0);
    ThreadHead(c, p, z, t, b.b, b.x, b.k, d0, d);
    LandsSelf(c, p);
    JumpThread(c, z - 1, jmp, p);
    var o, g := OptJumps(c), Flat(Thread(b.b, 0));
    var w2 := Words(ICheck(t, z + ItemSlide(b.k, d) - p));
    SubJoin(o, p, w2 + g, [jmp]);
  }

  lemma LoopHeadThreads(b: Block, d0: nat, d: nat)
    requires b.LoopHead? && Shape(b) && Valid(b, d0)
    ensures Thread(b, d) == LoopHead(b.t, Thread(b.b, 0), ItemSlide(b.k, d), Thread(b.k, d))
    ensures Shape(b.b) && NoFail(b.b) && GoodExit(b.x, b.k, d0)
  {
    hide Flat;
  }

  lemma {:induction false} ThreadOpts(c: Code, q: int, z: int, b: Block, n: nat, d0: nat, d: nat)
    requires b.OptHead? && Shape(b) && Valid(b, d0) && Leads(c, z, b.k, d0, d)
    requires Sub(c, q, OptWords(b.t, Flat(b.b), n, b.x)) && z == q + |OptWords(b.t, Flat(b.b), n, b.x)|
    ensures Sub(OptJumps(c), q, OptWords(b.t, Flat(Thread(b.b, 0)), n, ItemSlide(b.k, d)))
    decreases b, 1, n
  {
    hide OptJumps, Flat, Lands, Leads, Thread, OptWords, Words, Sub;
    if n > 0 {
      var t, f, y := b.t, Flat(b.b), ItemSlide(b.k, d);
      var rest := OptWords(t, f, n - 1, b.x);
      OptSub(c, q, t, f, n, b.x);
      ExitLands(c, z, b.k, b.x, d0, d);
      TestThread(c, q, t, CheckSize(t) + |f| + |rest| + b.x, z + y);
      NoFailThread(c, q + CheckSize(t), b.b);
      ThreadOpts(c, q + CheckSize(t) + |f|, z, b, n - 1, d0, d);
      OptLength(t, f, Flat(Thread(b.b, 0)), n - 1, b.x, y);
      OptJoin(OptJumps(c), q, t, Flat(Thread(b.b, 0)), n, y);
    } else {
      NoOpts(c, q, b.t, Flat(b.b), b.x, Flat(Thread(b.b, 0)), ItemSlide(b.k, d));
    }
  }

  lemma NoOpts(c: Code, q: int, t: Check, f: Code, x: nat, g: Code, y: nat)
    requires Sub(c, q, OptWords(t, f, 0, x))
    ensures Sub(OptJumps(c), q, OptWords(t, g, 0, y))
  {
  }

  lemma OptSub(c: Code, q: int, t: Check, f: Code, n: nat, x: nat)
    requires n > 0 && Sub(c, q, OptWords(t, f, n, x))
    ensures var rest := OptWords(t, f, n - 1, x);
            && Sub(c, q, Words(ICheck(t, CheckSize(t) + |f| + |rest| + x))) && Sub(c, q + CheckSize(t), f)
            && Sub(c, q + CheckSize(t) + |f|, rest)
            && |OptWords(t, f, n, x)| == CheckSize(t) + |f| + |rest|
  {
    var rest := OptWords(t, f, n - 1, x);
    Sub3(c, q, Words(ICheck(t, CheckSize(t) + |f| + |rest| + x)), f, rest);
  }

  lemma OptJoin(o: Code, q: int, t: Check, g: Code, n: nat, y: nat)
    requires n > 0 && Sub(o, q, Words(ICheck(t, CheckSize(t) + |g| + |OptWords(t, g, n - 1, y)| + y)))
    requires Sub(o, q + CheckSize(t), g) && Sub(o, q + CheckSize(t) + |g|, OptWords(t, g, n - 1, y))
    ensures Sub(o, q, OptWords(t, g, n, y))
  {
    var rest := OptWords(t, g, n - 1, y);
    var w := Words(ICheck(t, CheckSize(t) + |g| + |rest| + y));
    SubJoin(o, q, w, g);
    SubJoin(o, q, w + g, rest);
  }

  /** A body between a choice and an instruction that is not an unconditional jump. */
  lemma {:induction false} ThreadBody(c: Code, p: int, b1: Block)
    requires Sub(c, p, Flat(b1)) && Shape(b1) && Valid(b1, 0) && p + |Flat(b1)| <= |c| && !At(c, p + |Flat(b1)|).IJmp?
    ensures Sub(OptJumps(c), p, Flat(Thread(b1, 0))) && |Flat(Thread(b1, 0))| == |Flat(b1)|
    decreases b1, 4
  {
    LandsSelf(c, p + |Flat(b1)|);
    ThreadFlat(c, p, b1, 0, 0);
    ThreadLength(b1, 0);
  }

  lemma LoopParts(b: Block, d0: nat, d: nat)
    requires b.Loop? && Shape(b) && Valid(b, d0)
    ensures Shape(b.b) && Valid(b.b, 0) && GoodExit(b.x, b.k, d0)
    ensures ItemWords(b) == LoopWords(Flat(b.b), b.x)
    ensures ItemWords(Thread(b, d)) == LoopWords(Flat(Thread(b.b, 0)), ItemSlide(b.k, d))
  {
  }

  lemma AndParts(b: Block, d0: nat, d: nat)
    requires b.And? && Shape(b) && Valid(b, d0)
    ensures Shape(b.b) && Valid(b.b, 0) && GoodExit(b.x, b.k, d0)
    ensures ItemWords(b) == AndWords(Flat(b.b), b.x)
    ensures ItemWords(Thread(b, d)) == AndWords(Flat(Thread(b.b, 0)), ItemSlide(b.k, d))
  {
  }

  lemma {:induction false} ThreadAnd(c: Code, p: int, z: int, b: Block, d0: nat, d: nat)
    requires b.And? && Sub(c, p, ItemWords(b)) && z == p + |ItemWords(b)| && Shape(b) && Valid(b, d0)
    requires Leads(c, z, b.k, d0, d)
    ensures Sub(OptJumps(c), p, ItemWords(Thread(b, d)))
    decreases b, 1
  {
    hide OptJumps, Flat, Lands, Leads, ItemWords, Thread, Shape, Valid;
    AndParts(b, d0, d);
    var f, y := Flat(b.b), ItemSlide(b.k, d);
    var ch, bc := IChoice(1 + |f| + 1, 0), IBackCommit(2 + b.x);
    AndSub(c, p, f, b.x);
    LandsSelf(c, z - 1);
    JumpThread(c, p, ch, z - 1);
    ThreadBody(c, p + 1, b.b);
    ExitLands(c, z, b.k, b.x, d0, d);
    JumpThread(c, z - 2, bc, z + y);
    OtherThread(c, z - 1, IFail);
    AndJoin(OptJumps(c), p, Flat(Thread(b.b, 0)), y);
  }

  lemma AndSub(c: Code, p: int, f: Code, x: nat)
    requires Sub(c, p, AndWords(f, x))
    ensures var z := p + |AndWords(f, x)|;
            && At(c, p) == IChoice(1 + |f| + 1, 0) && Sub(c, p + 1, f) && p + 1 + |f| == z - 2
            && At(c, z - 2) == IBackCommit(2 + x) && At(c, z - 1) == IFail && 0 <= p < z <= |c|
  {
    var ch := IChoice(1 + |f| + 1, 0);
    Sub3(c, p, [ch], f, [IBackCommit(2 + x), IFail]);
    Sub1(c, p, ch);
    SubAt(c, p + 1 + |f|, [IBackCommit(2 + x), IFail], 0);
    SubAt(c, p + 1 + |f|, [IBackCommit(2 + x), IFail], 1);
  }

  lemma AndJoin(o: Code, p: int, g: Code, y: nat)
    requires Sub(o, p, [IChoice(1 + |g| + 1, 0)]) && Sub(o, p + 1, g)
    requires Sub(o, p + 1 + |g|, [IBackCommit(2 + y)]) && Sub(o, p + 2 + |g|, [IFail])
    ensures Sub(o, p, AndWords(g, y))
  {
    var ch := IChoice(1 + |g| + 1, 0);
    SubJoin(o, p, [ch], g);
    SubJoin(o, p + 1 + |g|, [IBackCommit(2 + y)], [IFail]);
    assert [IBackCommit(2 + y)] + [IFail] == [IBackCommit(2 + y), IFail];
    SubJoin(o, p, [ch] + g, [IBackCommit(2 + y), IFail]);
  }

  lemma {:induction false} ThreadLoop(c: Code, p: int, z: int, b: Block, d0: nat, d: nat)
    requires b.Loop? && Sub(c, p, ItemWords(b)) && z == p + |ItemWords(b)| && Shape(b) && Valid(b, d0)
    requires Leads(c, z, b.k, d0, d)
    ensures Sub(OptJumps(c), p, ItemWords(Thread(b, d)))
    decreases b, 1
  {
    hide OptJumps, Flat, Lands, Leads, ItemWords, Thread, Shape, Valid;
    LoopParts(b, d0, d);
    var f, y := Flat(b.b), ItemSlide(b.k, d);
    var ch, pc := IChoice(1 + |f| + 1 + b.x, 0), IPartialCommit(-|f|);
    LoopSub(c, p, f, b.x);
    ExitLands(c, z, b.k, b.x, d0, d);
    JumpThread(c, p, ch, z + y);
    ThreadBody(c, p + 1, b.b);
    if |f| == 0 {
      OtherThread(c, z - 1, pc);
    } else {
      EmptyOrNot(b.b);
      NoJumpFirst(c, p + 1, b.b);
      LandsSelf(c, p + 1);
      JumpThread(c, z - 1, pc, p + 1);
    }
    LoopJoin(OptJumps(c), p, Flat(Thread(b.b, 0)), y);
  }

  lemma LoopSub(c: Code, p: int, f: Code, x: nat)
    requires Sub(c, p, LoopWords(f, x))
    ensures var z := p + |LoopWords(f, x)|;
            && At(c, p) == IChoice(1 + |f| + 1 + x, 0) && Sub(c, p + 1, f) && p + 1 + |f| == z - 1
            && At(c, z - 1) == IPartialCommit(-|f|) && 0 <= p < z <= |c|
  {
    var ch := IChoice(1 + |f| + 1 + x, 0);
    Sub3(c, p, [ch], f, [IPartialCommit(-|f|)]);
    Sub1(c, p, ch);
    Sub1(c, p + 1 + |f|, IPartialCommit(-|f|));
  }

  lemma LoopJoin(o: Code, p: int, g: Code, y: nat)
    requires Sub(o, p, [IChoice(1 + |g| + 1 + y, 0)]) && Sub(o, p + 1, g) && Sub(o, p + 1 + |g|, [IPartialCommit(-|g|)])
    ensures Sub(o, p, LoopWords(g, y))
  {
    var ch := IChoice(1 + |g| + 1 + y, 0);
    SubJoin(o, p, [ch], g);
    SubJoin(o, p, [ch] + g, [IPartialCommit(-|g|)]);
  }

  lemma EmptyOrNot(b: Block)
    requires Flat(b) != []
    ensures !b.End?
  {
  }

  lemma {:induction false} ThreadNot(c: Code, p: int, z: int, b: Block, d0: nat, d: nat)
    requires b.Not? && Sub(c, p, ItemWords(b)) && z == p + |ItemWords(b)| && Shape(b) && Valid(b, d0)
    requires Leads(c, z, b.k, d0, d)
    ensures Sub(OptJumps(c), p, ItemWords(Thread(b, d)))
    decreases b, 1
  {
    hide OptJumps, Flat, Lands, Leads, Thread, Valid, Shape, ItemWords, NotWords, OtChoice, Sub;
    var f, y := Flat(b.b), ItemSlide(b.k, d);
    var offset := 1 + |f| + 1 + b.x;
    NotParts(b, d0, d);
    NotSub(c, p, b.ot, f, b.x);
    ExitLands(c, z, b.k, b.x, d0, d);
    OtChoiceThread(c, p, b.ot, OtStep(b.ot), offset, z + y);
    var p1 := p + OtSize(b.ot) + 1;
    ThreadBody(c, p1, b.b);
    OtherThread(c, p1 + |f|, IFailTwice);
    NotJoin(OptJumps(c), p, b.ot, Flat(Thread(b.b, 0)), y);
  }

  lemma NotParts(b: Block, d0: nat, d: nat)
    requires b.Not? && Shape(b) && Valid(b, d0)
    ensures Shape(b.b) && Valid(b.b, 0) && GoodExit(b.x, b.k, d0)
    ensures ItemWords(b) == NotWords(b.ot, Flat(b.b), b.x)
    ensures ItemWords(Thread(b, d)) == NotWords(b.ot, Flat(Thread(b.b, 0)), ItemSlide(b.k, d))
  {
  }

  lemma NotSub(c: Code, p: int, ot: Option<Check>, f: Code, x: nat)
    requires Sub(c, p, NotWords(ot, f, x))
    ensures var q := p + OtSize(ot) + 1;
            && Sub(c, p, OtChoice(ot, OtStep(ot), 1 + |f| + 1 + x)) && Sub(c, q, f)
            && At(c, q + |f|) == IFailTwice && 0 <= q + |f| < |c| && c[q + |f|] == IFailTwice
            && q + |f| + 1 == p + |NotWords(ot, f, x)|
  {
    var w := OtChoice(ot, OtStep(ot), 1 + |f| + 1 + x);
    OtChoiceSize(ot, OtStep(ot), 1 + |f| + 1 + x);
    Sub3(c, p, w, f, [IFailTwice]);
    Sub1(c, p + |w| + |f|, IFailTwice);
  }

  lemma NotJoin(o: Code, p: int, ot: Option<Check>, g: Code, y: nat)
    requires Sub(o, p, OtChoice(ot, OtStep(ot), 1 + |g| + 1 + y)) && Sub(o, p + OtSize(ot) + 1, g)
    requires Sub(o, p + OtSize(ot) + 1 + |g|, [IFailTwice])
    ensures Sub(o, p, NotWords(ot, g, y))
  {
    var w := OtChoice(ot, OtStep(ot), 1 + |g| + 1 + y);
    OtChoiceSize(ot, OtStep(ot), 1 + |g| + 1 + y);
    SubJoin(o, p, w, g);
    SubJoin(o, p, w + g, [IFailTwice]);
  }

  /** A choice, and the test before it, get the offset of their common landing place. */
  lemma OtChoiceThread(c: Code, p: int, ot: Option<Check>, aux: nat, offset: int, e: int)
    requires Sub(c, p, OtChoice(ot, aux, offset)) && offset > 0 && Lands(c, p + OtSize(ot) + offset, e)
    ensures |OtChoice(ot, aux, offset)| == OtSize(ot) + 1
    ensures Sub(OptJumps(c), p, OtChoice(ot, aux, e - p - OtSize(ot)))
            && |OtChoice(ot, aux, e - p - OtSize(ot))| == OtSize(ot) + 1
  {
    hide OptJumps, Lands;
    var w, ch := OtWords(ot, OtSize(ot) + offset), IChoice(offset, aux);
    SubSplit(c, p, w, [ch]);
    Sub1(c, p + |w|, ch);
    JumpThread(c, p + |w|, ch, e);
    if ot.Some? {
      TestThread(c, p, ot.value, OtSize(ot) + offset, e);
    } else {
      assert Sub(OptJumps(c), p, []);
    }
    SubJoin(OptJumps(c), p, OtWords(ot, OtSize(ot) + (e - p - OtSize(ot))), [IChoice(e - p - OtSize(ot), aux)]);
  }

  lemma {:induction false} ThreadUnion(c: Code, p: int, z: int, b: Block, d0: nat, d: nat)
    requires b.Union? && Sub(c, p, ItemWords(b)) && z == p + |ItemWords(b)| && Shape(b) && Valid(b, d0)
    requires Leads(c, z, b.k, d0, d)
    ensures Sub(OptJumps(c), p, ItemWords(Thread(b, d)))
    decreases b, 1
  {
    hide OptJumps, Flat, Lands, Leads, Thread, Valid, Shape, ItemWords, UnionWords, OtChoice, MoreWords, Sub;
    var y := ItemSlide(b.k, d);
    var ff, fm, fe := Flat(b.first), MoreWords(Flat(b.more), b.m), Flat(b.els);
    var offset := 1 + |ff + fm| + 1 + Exit(b.els, b.x);
    var p1 := p + OtSize(b.ot) + 1;
    var pc := p1 + |ff + fm|;
    UnionPieces(b, d0, d);
    UnionSplit(c, p, b.ot, b.aux, ff, fm, fe, Exit(b.els, b.x), b.x);
    AlternativeLands(c, pc + 1, z, b.els, b.x, b.k, d0, d);
    OtChoiceThread(c, p, b.ot, b.aux, offset, pc + 1 + Exit(b.els, y));
    ThreadUnionBody(c, p1, b, pc);
    ThreadUnionEnd(c, pc, z, b, d0, d);
    var g := Flat(Thread(b.first, 0)) + MoreWords(Flat(Thread(b.more, 0)), b.m);
    UnionJoin(OptJumps(c), p, b.ot, b.aux, g, Flat(Thread(b.els, y)), Exit(b.els, y), y, pc);
  }

  lemma UnionSplit(c: Code, p: int, ot: Option<Check>, aux: nat, ff: Code, fm: Code, fe: Code, ex: nat, x: nat)
    requires Sub(c, p, UnionWords(ot, aux, ff + fm, fe, ex, x))
    ensures var p1 := p + OtSize(ot) + 1; var pc := p1 + |ff + fm|;
            && Sub(c, p, OtChoice(ot, aux, 1 + |ff + fm| + 1 + ex))
            && Sub(c, p1, ff) && Sub(c, p1 + |ff|, fm) && At(c, pc) == ICommit(1 + |fe| + x)
            && 0 <= pc < |c| && Sub(c, pc + 1, fe)
            && pc + 1 + |fe| == p + |UnionWords(ot, aux, ff + fm, fe, ex, x)|
  {
    var w := OtChoice(ot, aux, 1 + |ff + fm| + 1 + ex);
    OtChoiceSize(ot, aux, 1 + |ff + fm| + 1 + ex);
    Sub4(c, p, w, ff + fm, [ICommit(1 + |fe| + x)], fe);
    Sub1(c, p + |w| + |ff + fm|, ICommit(1 + |fe| + x));
    SubSplit(c, p + |w|, ff, fm);
  }

  lemma UnionPieces(b: Block, d0: nat, d: nat)
    requires b.Union? && Shape(b) && Valid(b, d0)
    ensures Shape(b.first) && Shape(b.more) && Shape(b.els) && Valid(b.first, 0) && Valid(b.more, 0)
    ensures Valid(b.els, ItemSlide(b.k, d0)) && GoodExit(b.x, b.k, d0)
    ensures ItemWords(b) ==
            UnionWords(b.ot, b.aux, Flat(b.first) + MoreWords(Flat(b.more), b.m), Flat(b.els), Exit(b.els, b.x), b.x)
    ensures var y := ItemSlide(b.k, d);
            ItemWords(Thread(b, d)) ==
              UnionWords(b.ot, b.aux, Flat(Thread(b.first, 0)) + MoreWords(Flat(Thread(b.more, 0)), b.m),
                                                  Flat(Thread(b.els, y)), Exit(b.els, y), y)
  {
    ThreadLength(b.els, ItemSlide(b.k, d));
  }

  /** The commit of a union and its last alternative. */
  lemma {:induction false} ThreadUnionEnd(c: Code, pc: int, z: int, b: Block, d0: nat, d: nat)
    requires b.Union? && Shape(b.els) && Valid(b.els, ItemSlide(b.k, d0)) && GoodExit(b.x, b.k, d0)
             && Leads(c, z, b.k, d0, d)
    requires pc >= 0 && At(c, pc) == ICommit(1 + |Flat(b.els)| + b.x) && Sub(c, pc + 1, Flat(b.els))
             && pc + 1 + |Flat(b.els)| == z
    ensures var y := ItemSlide(b.k, d);
            && Sub(OptJumps(c), pc, [ICommit(1 + |Flat(Thread(b.els, y))| + y)])
            && Sub(OptJumps(c), pc + 1, Flat(Thread(b.els, y)))
    decreases b, 0, 0
  {
    hide OptJumps, Flat, Lands, Leads, Thread;
    var y := ItemSlide(b.k, d);
    ExitLands(c, z, b.k, b.x, d0, d);
    ExitLands(c, z, b.k, 0, d0, d);
    ExitLands(c, z, b.k, ItemSlide(b.k, d0), d0, d);
    JumpThread(c, pc, ICommit(1 + |Flat(b.els)| + b.x), z + y);
    ThreadFlat(c, pc + 1, b.els, ItemSlide(b.k, d0), y);
    ThreadLength(b.els, y);
  }

  lemma OtChoiceSize(ot: Option<Check>, aux: nat, offset: int)
    ensures |OtChoice(ot, aux, offset)| == OtSize(ot) + 1
  {
  }

  lemma UnionJoin(o: Code, p: int, ot: Option<Check>, aux: nat, g: Code, ge: Code, ex: nat, y: nat, pc: int)
    requires pc == p + OtSize(ot) + 1 + |g|
    requires Sub(o, p, OtChoice(ot, aux, 1 + |g| + 1 + ex)) && Sub(o, p + OtSize(ot) + 1, g)
    requires Sub(o, pc, [ICommit(1 + |ge| + y)]) && Sub(o, pc + 1, ge)
    ensures Sub(o, p, UnionWords(ot, aux, g, ge, ex, y))
  {
    var w := OtChoice(ot, aux, 1 + |g| + 1 + ex);
    OtChoiceSize(ot, aux, 1 + |g| + 1 + ex);
    SubJoin(o, p, w, g);
    SubJoin(o, p, w + g, [ICommit(1 + |ge| + y)]);
    SubJoin(o, p, w + g + [ICommit(1 + |ge| + y)], ge);
  }

  lemma {:induction false} ThreadUnionBody(c: Code, p1: int, b: Block, pc: int)
    requires b.Union? && Shape(b.first) && Shape(b.more) && Valid(b.first, 0) && Valid(b.more, 0)
    requires Sub(c, p1, Flat(b.first)) && Sub(c, p1 + |Flat(b.first)|, MoreWords(Flat(b.more), b.m))
    requires pc == p1 + |Flat(b.first)| + |MoreWords(Flat(b.more), b.m)| && pc < |c| && At(c, pc).ICommit?
    ensures var g := Flat(Thread(b.first, 0)) + MoreWords(Flat(Thread(b.more, 0)), b.m);
            Sub(OptJumps(c), p1, g) && p1 + |g| == pc
    decreases b, 0, 1 + b.m
  {
    hide OptJumps, Flat;
    var q := p1 + |Flat(b.first)|;
    MoreFirst(c, q, Flat(b.more), b.m);
    ThreadBody(c, p1, b.first);
    ThreadMore(c, q, b, b.m, pc);
    SubJoin(OptJumps(c), p1, Flat(Thread(b.first, 0)), MoreWords(Flat(Thread(b.more, 0)), b.m));
  }

  /** After a copy comes a partial commit or the commit. */
  lemma MoreFirst(c: Code, q: int, fm: Code, m: nat)
    requires Sub(c, q, MoreWords(fm, m)) && (m == 0 ==> At(c, q).ICommit?)
    ensures !At(c, q).IJmp?
  {
    if m > 0 {
      assert MoreWords(fm, m)[0] == IPartialCommit(1);
      SubAt(c, q, MoreWords(fm, m), 0);
    }
  }

  lemma {:induction false} ThreadMore(c: Code, q: int, b: Block, m: nat, pc: int)
    requires b.Union? && Shape(b.more) && Valid(b.more, 0)
    requires Sub(c, q, MoreWords(Flat(b.more), m))
    requires pc == q + |MoreWords(Flat(b.more), m)| && pc < |c| && At(c, pc).ICommit?
    ensures var g := MoreWords(Flat(Thread(b.more, 0)), m); Sub(OptJumps(c), q, g) && q + |g| == pc
    decreases b, 0, m
  {
    hide OptJumps, Flat, Thread, Shape, Valid, Lands;
    if m == 0 {
      assert Sub(OptJumps(c), q, []);
    } else {
      var f, g := Flat(b.more), Flat(Thread(b.more, 0));
      var rest := MoreWords(f, m - 1);
      Sub3(c, q, [IPartialCommit(1)], f, rest);
      Sub1(c, q, IPartialCommit(1));
      var q1 := q + 1 + |f|;
      MoreFirst(c, q1, f, m - 1);
      ThreadBody(c, q + 1, b.more);
      ThreadMore(c, q1, b, m - 1, pc);
      if b.more.End? { NoWords(); }
      ThreadMoreMark(c, q, b.more);
      var o := OptJumps(c);
      SubJoin(o, q, [IPartialCommit(1)], g);
      SubJoin(o, q, [IPartialCommit(1)] + g, MoreWords(g, m - 1));
    }
  }

  lemma ThreadMoreMark(c: Code, q: int, more: Block)
    requires Sub(c, q, [IPartialCommit(1)]) && Shape(more) && Sub(c, q + 1, Flat(more))
    requires q + 1 <= |c| && (more.End? ==> !At(c, q + 1).IJmp?)
    ensures Sub(OptJumps(c), q, [IPartialCommit(1)])
  {
    hide OptJumps, Flat, Shape, Lands;
    Sub1(c, q, IPartialCommit(1));
    if !more.End? { NoJumpFirst(c, q + 1, more); }
    LandsSelf(c, q + 1);
    JumpThread(c, q, IPartialCommit(1), q + 1);
  }

  /** optimizejumps on the words of a whole pattern. */
  lemma OptJumpsFlat(b: Block)
    requires Shape(b) && Valid(b, 0)
    ensures OptJumps(Flat(b)) == Flat(Thread(b, 0))
  {
    var c := Flat(b);
    LandsSelf(c, |c|);
    ThreadFlat(c, 0, b, 0, 0);
    ThreadLength(b, 0);
  }

  // ---- threading keeps the meaning ----

  lemma {:induction false} ThreadEval(b: Block, d: nat, x: Subject, i: int, caps: seq<Capture>)
    requires 0 <= i <= |x.s|
    ensures EvalB(Thread(b, d), x, i, caps) == EvalB(b, x, i, caps)
    decreases b, 2, 0
  {
    if !b.End? {
      hide EvalItem;
      ThreadItemEval(b, d, x, i, caps);
      var r := EvalItem(b, x, i, caps);
      if r.Ok? { ThreadEval(b.k, d, x, r.j, r.caps); }
    }
  }

  lemma {:induction false} ThreadItemEval(b: Block, d: nat, x: Subject, i: int, caps: seq<Capture>)
    requires !b.End? && 0 <= i <= |x.s|
    ensures EvalItem(Thread(b, d), x, i, caps) == EvalItem(b, x, i, caps)
    decreases b, 1, 0
  {
    hide EvalB;
    match b
    case Prim(_, _) =>
    case TestJmp(t, b1, b2, _, k) =>
      if Passes(t, x.s, i) {
        ThreadEval(b1, 1 + |Flat(b2)| + ItemSlide(k, d), x, i + CheckStep(t), caps);
      } else {
        ThreadEval(b2, ItemSlide(k, d), x, i, caps);
      }
    case Union(_, _, _, _, _, _, _, _) => ThreadUnionEval(b, d, x, i, caps);
    case Not(ot, b1, _, _) => if OtPasses(ot, x, i) { ThreadEval(b1, 0, x, i + OtStep(ot), caps); }
    case NotHead(t, b1, _, _) => if Passes(t, x.s, i) { ThreadEval(b1, 0, x, i + CheckStep(t), caps); }
    case And(b1, _, _) => ThreadEval(b1, 0, x, i, caps);
    case Loop(_, _, _) => ThreadRoundsEval(b, d, x, i, caps);
    case LoopHead(_, _, _, _) => ThreadRoundsEval(b, d, x, i, caps);
    case OptHead(_, _, n, _, _) => ThreadOptsEval(b, d, n, x, i, caps);
  }

  lemma {:induction false} ThreadUnionEval(b: Block, d: nat, x: Subject, i: int, caps: seq<Capture>)
    requires b.Union? && 0 <= i <= |x.s|
    ensures EvalItem(Thread(b, d), x, i, caps) == EvalItem(b, x, i, caps)
    decreases b, 0, b.m + 1
  {
    hide EvalB, EvalMore;
    var ot, aux, y := b.ot, b.aux, ItemSlide(b.k, d);
    if !OtPasses(ot, x, i) {
      ThreadEval(b.els, y, x, i, caps);
    } else {
      ThreadEval(b.first, 0, x, i + OtStep(ot), caps);
      ThreadEval(b.els, y, x, if aux <= OtStep(ot) then i + OtStep(ot) - aux else i, caps);
      var r := EvalB(b.first, x, i + OtStep(ot), caps);
      if r.Ok? { ThreadMoreEval(b, d, b.m, x, r.j, r.caps); }
    }
  }

  lemma {:induction false} ThreadMoreEval(b: Block, d: nat, m: nat, x: Subject, i: int, caps: seq<Capture>)
    requires b.Union? && 0 <= i <= |x.s|
    ensures EvalMore(Thread(b, d), m, x, i, caps) == EvalMore(b, m, x, i, caps)
    decreases b, 0, m
  {
    hide EvalB;
    if m > 0 {
      ThreadEval(b.more, 0, x, i, caps);
      ThreadEval(b.els, ItemSlide(b.k, d), x, i, caps);
      var r := EvalB(b.more, x, i, caps);
      if r.Ok? { ThreadMoreEval(b, d, m - 1, x, r.j, r.caps); }
    }
  }

  lemma {:induction false} ThreadRoundsEval(b: Block, d: nat, x: Subject, i: int, caps: seq<Capture>)
    requires (b.Loop? || b.LoopHead?) && 0 <= i <= |x.s|
    ensures EvalRounds(Thread(b, d), x, i, caps) == EvalRounds(b, x, i, caps)
    decreases b, 0, |x.s| - i
  {
    hide EvalB;
    if b.LoopHead? && !Passes(b.t, x.s, i) {
    } else {
      var i0 := if b.Loop? then i else i + CheckStep(b.t);
      ThreadEval(b.b, 0, x, i0, caps);
      var r := EvalB(b.b, x, i0, caps);
      if r.Ok? && r.j > i { ThreadRoundsEval(b, d, x, r.j, r.caps); }
    }
  }

  lemma {:induction false} ThreadOptsEval(b: Block, d: nat, n: nat, x: Subject, i: int, caps: seq<Capture>)
    requires b.OptHead? && 0 <= i <= |x.s|
    ensures EvalOpts(Thread(b, d), n, x, i, caps) == EvalOpts(b, n, x, i, caps)
    decreases b, 0, n
  {
    hide EvalB;
    if n > 0 && Passes(b.t, x.s, i) {
      ThreadEval(b.b, 0, x, i + CheckStep(b.t), caps);
      var r := EvalB(b.b, x, i + CheckStep(b.t), caps);
      if r.Ok? { ThreadOptsEval(b, d, n - 1, x, r.j, r.caps); }
    }
  }

  lemma {:induction false} ThreadNoFail(b: Block, d: nat)
    requires NoFail(b)
    ensures NoFail(Thread(b, d))
  {
    if !b.End? { ThreadNoFail(b.k, d); }
  }

  lemma ThreadSoft(b: Block, d: nat)
    requires SoftElse(b)
    ensures SoftElse(Thread(b, d))
  {
  }

  lemma {:induction false} ThreadShape(b: Block, d: nat)
    requires Shape(b)
    ensures Shape(Thread(b, d))
    decreases b
  {
    match b
    case End =>
    case Prim(_, k) => ThreadShape(k, d);
    case TestJmp(_, b1, b2, _, k) =>
      var x := ItemSlide(k, d);
      ThreadShape(b1, 1 + |Flat(b2)| + x);
      ThreadShape(b2, x);
      ThreadShape(k, d);
      if NoFail(b1) { ThreadNoFail(b1, 1 + |Flat(b2)| + x); }
    case Union(_, _, first, more, m, els, _, k) =>
      ThreadShape(first, 0);
      ThreadShape(more, 0);
      ThreadShape(els, ItemSlide(k, d));
      ThreadShape(k, d);
      if NoFail(first) { ThreadNoFail(first, 0); }
      if SoftElse(els) { ThreadSoft(els, ItemSlide(k, d)); }
    case Not(_, b1, _, k) => ThreadShape(b1, 0); ThreadShape(k, d);
    case NotHead(_, b1, _, k) => ThreadShape(b1, 0); ThreadNoFail(b1, 0); ThreadShape(k, d);
    case And(b1, _, k) => ThreadShape(b1, 0); ThreadShape(k, d);
    case Loop(b1, _, k) => ThreadShape(b1, 0); ThreadShape(k, d);
    case LoopHead(_, b1, _, k) => ThreadShape(b1, 0); ThreadNoFail(b1, 0); ThreadShape(k, d);
    case OptHead(_, b1, _, _, k) => ThreadShape(b1, 0); ThreadNoFail(b1, 0); ThreadShape(k, d);
  }

  lemma {:induction false} ThreadNullable(b: Block, d: nat)
    ensures Nullable(Thread(b, d)) == Nullable(b)
    decreases b
  {
    hide Flat;
    if !b.End? { ThreadNullable(b.k, d); }
    match b
    case Prim(_, k) => if StartsWithBack(k) { ThreadNullable(k.k, d); }
    case TestJmp(_, b1, b2, _, k) =>
      ThreadNullable(b2, ItemSlide(k, d));
      if StartsWithBack(b1) { ThreadNullable(b1.k, 1 + |Flat(b2)| + ItemSlide(k, d)); }
    case Union(_, _, first, more, _, els, _, k) =>
      ThreadNullable(first, 0);
      ThreadNullable(more, 0);
      ThreadNullable(els, ItemSlide(k, d));
    case _ =>
  }

  lemma {:induction false} ThreadBacked(b: Block, d: nat, fed: bool)
    requires Backed(b, fed)
    ensures Backed(Thread(b, d), fed)
    decreases b
  {
    hide Flat;
    match b
    case End =>
    case Prim(i, k) => ThreadBacked(k, d, if i.IBack? then false else i.ICheck? || (i.ICapture? && fed));
    case TestJmp(_, b1, b2, _, k) =>
      ThreadBacked(b1, 1 + |Flat(b2)| + ItemSlide(k, d), true);
      ThreadBacked(b2, ItemSlide(k, d), false);
      ThreadBacked(k, d, false);
    case Union(ot, _, first, more, _, els, _, k) =>
      ThreadBacked(first, 0, ot.Some?);
      ThreadBacked(more, 0, false);
      ThreadBacked(els, ItemSlide(k, d), false);
      ThreadBacked(k, d, false);
    case Not(ot, b1, _, k) => ThreadBacked(b1, 0, ot.Some?); ThreadBacked(k, d, false);
    case NotHead(_, b1, _, k) => ThreadBacked(b1, 0, true); ThreadBacked(k, d, false);
    case And(b1, _, k) => ThreadBacked(b1, 0, false); ThreadBacked(k, d, false);
    case Loop(b1, _, k) => ThreadNullable(b1, 0); ThreadBacked(b1, 0, false); ThreadBacked(k, d, false);
    case LoopHead(_, b1, _, k) => ThreadBacked(b1, 0, true); ThreadBacked(k, d, false);
    case OptHead(_, b1, _, _, k) => ThreadBacked(b1, 0, true); ThreadBacked(k, d, false);
  }

  lemma {:induction false} ThreadBalanced(b: Block, d: nat, dep: nat)
    requires Balanced(b, dep)
    ensures Balanced(Thread(b, d), dep)
    decreases b
  {
    match b
    case End =>
    case Prim(i, k) =>
      ThreadBalanced(k, d, if i.ICapture? && i.op.OpenCap? then dep + 1
                           else if i.ICapture? && i.op.CloseCap? then dep - 1 else dep);
    case TestJmp(_, b1, b2, _, k) =>
      ThreadBalanced(b1, 1 + |Flat(b2)| + ItemSlide(k, d), 0);
      ThreadBalanced(b2, ItemSlide(k, d), 0);
      ThreadBalanced(k, d, dep);
    case Union(_, _, first, more, _, els, _, k) =>
      ThreadBalanced(first, 0, 0);
      ThreadBalanced(more, 0, 0);
      ThreadBalanced(els, ItemSlide(k, d), 0);
      ThreadBalanced(k, d, dep);
    case Not(_, b1, _, k) => ThreadBalanced(b1, 0, 0); ThreadBalanced(k, d, dep);
    case NotHead(_, b1, _, k) => ThreadBalanced(b1, 0, 0); ThreadBalanced(k, d, dep);
    case And(b1, _, k) => ThreadBalanced(b1, 0, 0); ThreadBalanced(k, d, dep);
    case Loop(b1, _, k) => ThreadBalanced(b1, 0, 0); ThreadBalanced(k, d, dep);
    case LoopHead(_, b1, _, k) => ThreadBalanced(b1, 0, 0); ThreadBalanced(k, d, dep);
    case OptHead(_, b1, _, _, k) => ThreadBalanced(b1, 0, 0); ThreadBalanced(k, d, dep);
  }

  /** Every exit of a threaded block follows the jumps at its end. */
  lemma {:induction false} ThreadValid(b: Block, d: nat)
    ensures Valid(Thread(b, d), d)
    decreases b
  {
    hide Flat, ItemWords;
    if !b.End? {
      ThreadLength(b.k, d);
      ThreadValid(b.k, d);
    }
    match b
    case End =>
    case Prim(_, _) =>
    case TestJmp(_, b1, b2, _, k) =>
      ThreadLength(b2, ItemSlide(k, d));
      ThreadValid(b1, 1 + |Flat(b2)| + ItemSlide(k, d));
      ThreadValid(b2, ItemSlide(k, d));
    case Union(_, _, first, more, _, els, _, k) =>
      ThreadValid(first, 0);
      ThreadValid(more, 0);
      ThreadValid(els, ItemSlide(k, d));
    case Not(_, b1, _, _) => ThreadValid(b1, 0);
    case NotHead(_, b1, _, _) => ThreadValid(b1, 0);
    case And(b1, _, _) => ThreadValid(b1, 0);
    case Loop(b1, _, _) => ThreadValid(b1, 0);
    case LoopHead(_, b1, _, _) => ThreadValid(b1, 0);
    case OptHead(_, b1, _, _, _) => ThreadValid(b1, 0);
  }
}
