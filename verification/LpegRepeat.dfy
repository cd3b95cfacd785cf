/** Repetitions and captures of compiled code. */
module LpegRepeat {
  import opened LpegCode
  import opened LpegMachine
  import opened LpegPeg
  import opened LpegBlock
  import opened LpegExec
  import opened LpegBuild
  import opened LpegShape
  import opened LpegOptCaps
  import opened LpegThread
  import opened LpegVerify
  import opened LpegUnion
  import opened LpegOperators

  // ---- the blocks ----

  /** n copies of b in front of `tail`. */
  function Copies(b: Block, n: nat, tail: Block): Block {
    if n == 0 then tail else Append(b, Copies(b, n - 1, tail))
  }

  /** The loop that repeats b as long as it matches. */
  function LoopOf(b: Block): Block {
    if IsCharsetBlock(b) then Prim(ISpan(StartSet(b.i.ck)), End)
    else if StartsWithCheck(b) && NoFail(b.k) then LoopHead(b.i.ck, b.k, 0, End)
    else Loop(b, 0, End)
  }

  /** Up to n matches of b. */
  function AtMostOf(b: Block, n: nat): Block
    requires n > 0
  {
    if StartsWithCheck(b) && NoFail(b.k) then OptHead(b.i.ck, b.k, n, 0, End)
    else if StartsWithCheck(b) then Union(Some(b.i.ck), CheckStep(b.i.ck), b.k, b, n - 1, End, 0, End)
    else Union(None, 0, b, b, n - 1, End, 0, End)
  }

  // ---- code ----

  lemma {:induction false} CopiesFlat(b: Block, n: nat, tail: Block)
    ensures Flat(Copies(b, n, tail)) == Times(Flat(b), n) + Flat(tail)
    decreases n
  {
    hide Flat;
    if n > 0 {
      CopiesFlat(b, n - 1, tail);
      AppendFlat(b, Copies(b, n - 1, tail));
    }
  }

  /** An outermost union, the only block that can be split again. */
  predicate Lone(b: Block) {
    (b.TestJmp? || b.Union?) && b.k.End?
  }

  lemma {:induction false} CopiesGood(b: Block, n: nat, tail: Block)
    requires Good(b) && Good(tail) && !Lone(tail) && !tail.End?
    ensures Good(Copies(b, n, tail)) && !Lone(Copies(b, n, tail)) && !Copies(b, n, tail).End?
    decreases n
  {
    hide Shape, Balanced, Valid, Spine, Append;
    if n > 0 {
      var rest := Copies(b, n - 1, tail);
      CopiesGood(b, n - 1, tail);
      AppendGood(b, rest, 0);
      AppendSpine(b, rest);
      AppendLone(b, rest);
      AppendBacked(b, rest, false);
    }
  }

  lemma AppendLone(a: Block, b: Block)
    requires !b.End? && !Lone(b)
    ensures !Lone(Append(a, b)) && !Append(a, b).End?
  {
    if !a.End? { NonEnd(a.k, b); }
  }

  lemma NonEnd(a: Block, b: Block)
    requires !b.End?
    ensures !Append(a, b).End?
  {
  }

  lemma LoopFlat(b: Block)
    requires Shape(b)
    ensures var c := Flat(b);
            && (IsCharsetBlock(b) ==> Flat(LoopOf(b)) == Words(ISpan(StartSet(b.i.ck))))
            && (StartsWithCheck(b) && !IsCharsetBlock(b) && NoFail(b.k) ==>
                c != [] && c[0].ICheck? && Flat(LoopOf(b)) == AsTest(c, |c| + 1) + [IJmp(-|c|)])
            && (!(StartsWithCheck(b) && NoFail(b.k)) && !IsCharsetBlock(b) ==>
                Flat(LoopOf(b)) == [IChoice(1 + |c| + 1, 0)] + c + [IPartialCommit(-|c|)])
  {
    hide Flat, ItemWords, NoFail, Words, AsTest, Shape;
    var r := LoopOf(b);
    if IsCharsetBlock(b) {
      OnePrim(r);
    } else if StartsWithCheck(b) && NoFail(b.k) {
      AsTestIs(b, |Flat(b)| + 1);
      LoopHeadIs(b.i.ck, b.k);
    } else {
      LoopIs(b);
    }
  }

  lemma LoopHeadIs(t: Check, b: Block)
    ensures Flat(LoopHead(t, b, 0, End)) == LoopHeadWords(t, Flat(b), 0)
  {
    var r := LoopHead(t, b, 0, End);
    assert Flat(r) == ItemWords(r) + Flat(End);
  }

  lemma LoopIs(b: Block)
    ensures Flat(Loop(b, 0, End)) == LoopWords(Flat(b), 0)
  {
    var r := Loop(b, 0, End);
    assert Flat(r) == ItemWords(r) + Flat(End);
  }

  lemma LoopGood(b: Block)
    requires Good(b) && (IsCharsetBlock(b) || (StartsWithCheck(b) && NoFail(b.k)) || !Nullable(b))
    ensures Good(LoopOf(b)) && !Lone(LoopOf(b)) && !LoopOf(b).End?
  {
    EndGood();
    if IsCharsetBlock(b) {
      PrimGood(ISpan(StartSet(b.i.ck)), End);
    }
  }

  // ---- the passes after star_l ----

  /** The outermost item stays what it is. */
  lemma MoveLone(b: Block)
    requires !Lone(b)
    ensures !Lone(MoveAll(b))
  {
    if b.End? || b.Prim? {
      PrimHead(b, [], true);
    } else {
      assert MoveAll(b) == WithTail(b, MoveCaps(b.k, [], false));
      MoveEnd2(b.k);
    }
  }

  lemma MoveEnd2(k: Block)
    ensures MoveCaps(k, [], false).End? <==> k.End?
  {
  }

  lemma ThreadIs(b: Block)
    requires Good(b) && !Lone(b)
    ensures Good(Thread(b, 0)) && Flat(Thread(b, 0)) == OptJumps(Flat(b))
  {
    hide OptJumps, Thread, Flat, Shape, Balanced, Valid, Backed;
    OptJumpsFlat(b);
    ThreadShape(b, 0);
    ThreadBalanced(b, 0, 0);
    ThreadValid(b, 0);
    ThreadBacked(b, 0, false);
    ThreadSpine(b);
  }

  lemma ThreadImpl(b: Block, p: Patt)
    requires Impl(b, p)
    ensures Impl(Thread(b, 0), p)
  {
    hide EvalB, Eval, Agrees, Thread;
    forall x: Subject, i: int, caps: seq<Capture> | 0 <= i <= |x.s|
      ensures Agrees(EvalB(Thread(b, 0), x, i, caps), Eval(p, x, i), caps)
    {
      ThreadEval(b, 0, x, i, caps);
      Agree(b, p, x, i, caps);
    }
  }

  lemma ThreadSpine(b: Block)
    requires !Lone(b)
    ensures Spine(Thread(b, 0))
  {
    if !b.End? { assert Thread(b.k, 0).End? <==> b.k.End?; }
  }

  // ---- meaning of loops ----

  lemma {:induction false} SpanImpl(a: Patt, b: Block, x: Subject, i: int)
    requires Impl(b, a) && IsCharsetBlock(b) && 0 <= i <= |x.s|
    ensures EvalLoop(a, x, i) == Ok(SpanEnd(StartSet(b.i.ck), x.s, i), [])
    decreases |x.s| - i
  {
    hide EvalB;
    Agree(b, a, x, i, []);
    CharsetEval(b, x, i, []);
    if i < |x.s| && x.s[i] in StartSet(b.i.ck) { SpanImpl(a, b, x, i + 1); }
  }

  lemma {:induction false} RoundsImpl(a: Patt, b: Block, r: Block, x: Subject, i: int, caps: seq<Capture>)
    requires Impl(b, a) && Good(b) && 0 <= i <= |x.s|
    requires r == Loop(b, 0, End) || (StartsWithCheck(b) && NoFail(b.k) && r == LoopHead(b.i.ck, b.k, 0, End))
    ensures Agrees(EvalRounds(r, x, i, caps), EvalLoop(a, x, i), caps)
    decreases |x.s| - i
  {
    hide EvalB, Eval, Good;
    Agree(b, a, x, i, caps);
    if r.LoopHead? { HeadConsumes(b, x, i, caps); }
    assert caps + [] == caps;
    var rp := Eval(a, x, i);
    if rp.Ok? && rp.j > i {
      RoundsImpl(a, b, r, x, rp.j, caps + rp.caps);
      PrependAgrees(caps, rp.caps, EvalRounds(r, x, rp.j, caps + rp.caps), EvalLoop(a, x, rp.j));
    }
  }

  /** A check with a body that cannot fail. */
  lemma HeadConsumes(b: Block, x: Subject, i: int, caps: seq<Capture>)
    requires StartsWithCheck(b) && NoFail(b.k) && Good(b) && 0 <= i <= |x.s|
    ensures EvalB(b, x, i, caps) == if Passes(b.i.ck, x.s, i) then EvalB(b.k, x, i + CheckStep(b.i.ck), caps) else Fail
    ensures Passes(b.i.ck, x.s, i) ==> EvalB(b, x, i, caps).Ok? && EvalB(b, x, i, caps).j > i
  {
    hide EvalB;
    CheckThen(b, x, i, caps);
    if Passes(b.i.ck, x.s, i) { NoFailOk(b.k, x, i + CheckStep(b.i.ck), caps); }
  }

  lemma LoopImpl(a: Patt, b: Block, x: Subject, i: int, caps: seq<Capture>)
    requires Impl(b, a) && Good(b) && 0 <= i <= |x.s|
    ensures Agrees(EvalB(LoopOf(b), x, i, caps), EvalLoop(a, x, i), caps)
  {
    hide EvalB, Good, EvalRounds, EvalLoop;
    Alone(LoopOf(b), x, i, caps);
    assert caps + [] == caps;
    if IsCharsetBlock(b) {
      SpanImpl(a, b, x, i);
    } else {
      RoundsImpl(a, b, LoopOf(b), x, i, caps);
    }
  }

  /** n matches and then as many more as possible. */
  function EvalFrom(a: Patt, n: nat, x: Subject, i: int): Res
    requires 0 <= i <= |x.s|
  {
    match EvalTimes(a, n, x, i)
    case Ok(j, cs) => Prepend(cs, EvalLoop(a, x, j))
    case r => r
  }

  lemma EvalFromStep(a: Patt, n: nat, x: Subject, i: int)
    requires 0 <= i <= |x.s| && n > 0
    ensures EvalFrom(a, n, x, i) ==
            match Eval(a, x, i) case Ok(j, cs) => Prepend(cs, EvalFrom(a, n - 1, x, j)) case r => r
  {
    hide Eval, EvalLoop, Prepend;
    var r := Eval(a, x, i);
    if r.Ok? {
      var r2 := EvalTimes(a, n - 1, x, r.j);
      PrependOk(r.caps, r2);
      if r2.Ok? { PrependTwice(r.caps, r2.caps, EvalLoop(a, x, r2.j)); }
    }
  }

  lemma PrependOk(cs: seq<Capture>, r: Res)
    ensures Prepend(cs, r) == if r.Ok? then Ok(r.j, cs + r.caps) else r
  {
  }

  lemma PrependTwice(cs: seq<Capture>, ds: seq<Capture>, r: Res)
    ensures Prepend(cs + ds, r) == Prepend(cs, Prepend(ds, r))
  {
    if r.Ok? { assert (cs + ds) + r.caps == cs + (ds + r.caps); }
  }

  /** Captures made before and the captures of two matches in a row. */
  lemma PrependAgrees(caps: seq<Capture>, cs: seq<Capture>, rb: Res, rp: Res)
    requires Agrees(rb, rp, caps + cs)
    ensures Agrees(rb, Prepend(cs, rp), caps)
  {
    if rp.Ok? { assert (caps + cs) + rp.caps == caps + (cs + rp.caps); }
  }

  lemma EvalFromNone(a: Patt, x: Subject, i: int)
    requires 0 <= i <= |x.s|
    ensures EvalFrom(a, 0, x, i) == EvalLoop(a, x, i)
  {
    var r := EvalLoop(a, x, i);
    if r.Ok? { assert [] + r.caps == r.caps; }
  }

  lemma {:induction false} CopiesImpl(a: Patt, b: Block, n: nat, x: Subject, i: int, caps: seq<Capture>)
    requires Impl(b, a) && Good(b) && 0 <= i <= |x.s|
    ensures Agrees(EvalB(Copies(b, n, LoopOf(b)), x, i, caps), EvalFrom(a, n, x, i), caps)
    decreases n
  {
    hide EvalB, Good, Eval, EvalFrom, EvalLoop, LoopOf;
    if n == 0 {
      EvalFromNone(a, x, i);
      LoopImpl(a, b, x, i, caps);
    } else {
      EvalFromStep(a, n, x, i);
      AppendEval(b, Copies(b, n - 1, LoopOf(b)), x, i, caps);
      Agree(b, a, x, i, caps);
      var r := Eval(a, x, i);
      if r.Ok? {
        CopiesImpl(a, b, n - 1, x, r.j, caps + r.caps);
        var rest := Copies(b, n - 1, LoopOf(b));
        PrependAgrees(caps, r.caps, EvalB(rest, x, r.j, caps + r.caps), EvalFrom(a, n - 1, x, r.j));
      }
    }
  }

  lemma StarImpl(a: Patt, b: Block, n: nat)
    requires Impl(b, a) && Good(b)
    ensures Impl(Copies(b, n, LoopOf(b)), Rept(a, n))
  {
    hide EvalB, Good, Copies, LoopOf;
    forall x: Subject, i: int, caps: seq<Capture> | 0 <= i <= |x.s|
      ensures Agrees(EvalB(Copies(b, n, LoopOf(b)), x, i, caps), Eval(Rept(a, n), x, i), caps)
    {
      CopiesImpl(a, b, n, x, i, caps);
      assert Eval(Rept(a, n), x, i) == EvalFrom(a, n, x, i);
    }
  }

  // ---- star_l ----

  /** The block behind star_l's code, for an exponent n >= 0. */
  function StarBlock(b: Block, n: nat): Block {
    var s := Copies(b, n, LoopOf(b));
    if IsCharsetBlock(b) then s else Thread(MoveAll(s), 0)
  }

  /** What star_l has checked when it returns a pattern: verify has accepted the body of a loop. */
  lemma VerifiedBody(b: Block, n: nat)
    requires Good(b) && StarCode(Flat(b), n).Pattern?
    ensures IsCharsetBlock(b) || (StartsWithCheck(b) && NoFail(b.k)) || !Nullable(b)
  {
    hide Flat, Good, VRun, Nullable, ToCharset, IsHeadFail, OptCaps, OptJumps, StartSet, Words, NoFail;
    StartOf(b);
    VerifySound(b);
  }

  lemma StarIs(b: Block, n: nat)
    requires Good(b) && StarCode(Flat(b), n).Pattern?
    ensures Good(StarBlock(b, n)) && Flat(StarBlock(b, n)) == StarCode(Flat(b), n).code
  {
    hide Flat, Good, ToCharset, IsHeadFail, OptCaps, OptJumps, VRun, MoveCaps, Copies, LoopOf, Nullable, StartSet,
      Words, NoFail, Times;
    var s := Copies(b, n, LoopOf(b));
    StarParts(b, n);
    StartOf(b);
    if !IsCharsetBlock(b) {
      MoveIs(s);
      MoveLone(s);
      ThreadIs(MoveAll(s));
    }
  }

  lemma StarMeans(a: Patt, b: Block, n: nat)
    requires Means(b, Flat(b), a) && StarCode(Flat(b), n).Pattern?
    ensures Means(StarBlock(b, n), StarCode(Flat(b), n).code, Rept(a, n))
  {
    hide Impl, Flat, Good, MoveCaps, Copies, LoopOf, StarCode, Thread;
    var s := Copies(b, n, LoopOf(b));
    StarIs(b, n);
    StarParts(b, n);
    StarImpl(a, b, n);
    if !IsCharsetBlock(b) {
      MoveMeans(s, Rept(a, n));
      ThreadImpl(MoveAll(s), Rept(a, n));
    }
  }

  lemma StarParts(b: Block, n: nat)
    requires Good(b) && StarCode(Flat(b), n).Pattern?
    ensures var c := Flat(b); var s := Copies(b, n, LoopOf(b));
            && Good(s) && !Lone(s)
            && (IsCharsetBlock(b) ==> Flat(s) == Times(c, n) + Words(ISpan(StartSet(b.i.ck))))
            && (StartsWithCheck(b) && !IsCharsetBlock(b) && NoFail(b.k) ==>
                c != [] && c[0].ICheck? && Flat(s) == Times(c, n) + AsTest(c, |c| + 1) + [IJmp(-|c|)])
            && (!(StartsWithCheck(b) && NoFail(b.k)) && !IsCharsetBlock(b) ==>
                Flat(s) == Times(c, n) + [IChoice(1 + |c| + 1, 0)] + c + [IPartialCommit(-|c|)])
  {
    hide Flat, Good, StarCode, Copies, LoopOf, Words, Times, Nullable;
    var c := Flat(b);
    VerifiedBody(b, n);
    GoodOf(b);
    LoopGood(b);
    LoopFlat(b);
    CopiesFlat(b, n, LoopOf(b));
    CopiesGood(b, n, LoopOf(b));
    if StartsWithCheck(b) && !IsCharsetBlock(b) && NoFail(b.k) {
      Assoc(Times(c, n), AsTest(c, |c| + 1), [IJmp(-|c|)]);
    } else if !IsCharsetBlock(b) {
      Assoc(Times(c, n), [IChoice(1 + |c| + 1, 0)] + c, [IPartialCommit(-|c|)]);
      Assoc(Times(c, n), [IChoice(1 + |c| + 1, 0)], c);
    }
  }

  // ---- the exponent -n ----

  lemma {:induction false} OptionalIs(b: Block, n: nat)
    requires StartsWithCheck(b) && Shape(b)
    ensures Flat(b) != [] && Flat(b)[0].ICheck? && OptionalHead(Flat(b), n) == OptWords(b.i.ck, Flat(b.k), n, 0)
    ensures |OptionalHead(Flat(b), n)| == n * |Flat(b)|
    decreases n
  {
    hide Flat;
    AsTestIs(b, n * |Flat(b)|);
    if n > 0 {
      OptionalIs(b, n - 1);
      assert n * |Flat(b)| == |Flat(b)| + (n - 1) * |Flat(b)|;
    }
  }

  lemma {:induction false} PartialIs(c: Code, m: nat)
    ensures PartialCopies(c, m) + c == c + MoreWords(c, m)
    ensures |MoreWords(c, m)| == m * (|c| + 1)
    decreases m
  {
    if m > 0 {
      PartialIs(c, m - 1);
      assert PartialCopies(c, m) + c == c + [IPartialCommit(1)] + (PartialCopies(c, m - 1) + c);
      assert m * (|c| + 1) == |c| + 1 + (m - 1) * (|c| + 1);
    }
  }

  lemma AtMostFlat(b: Block, n: nat)
    requires Shape(b) && n > 0
    ensures var c := Flat(b);
            if StartsWithCheck(b) && NoFail(b.k) then c != [] && c[0].ICheck?
              && Flat(AtMostOf(b, n)) == OptionalHead(c, n)
            else Flat(AtMostOf(b, n)) == Optionals(c, n)
  {
    hide Flat, ItemWords;
    if StartsWithCheck(b) && NoFail(b.k) {
      OptionalIs(b, n);
      OptHeadIs(b.i.ck, b.k, n);
    } else {
      OptionalsFlat(b, n);
    }
  }

  lemma OptHeadIs(t: Check, b: Block, n: nat)
    ensures Flat(OptHead(t, b, n, 0, End)) == OptWords(t, Flat(b), n, 0)
  {
    var r := OptHead(t, b, n, 0, End);
    assert Flat(r) == ItemWords(r) + Flat(End);
  }

  lemma OptionalsFlat(b: Block, n: nat)
    requires Shape(b) && n > 0 && !(StartsWithCheck(b) && NoFail(b.k))
    ensures Flat(AtMostOf(b, n)) == Optionals(Flat(b), n)
  {
    hide Flat, ItemWords, OptChoice, MoreWords, OtWords, Shape, PartialCopies;
    var c, m := Flat(b), n - 1;
    var mw := MoreWords(c, m);
    var rest := mw + [ICommit(1)];
    PartialIs(c, m);
    assert n * (|c| + 1) == |c| + 1 + m * (|c| + 1);
    FirstMore(c, m);
    RotateIs(b, 1 + n * (|c| + 1), rest);
    assert [IChoice(1 + n * (|c| + 1), 0)] + PartialCopies(c, m) + c + [ICommit(1)]
        == [IChoice(1 + n * (|c| + 1), 0)] + (PartialCopies(c, m) + c) + [ICommit(1)];
    assert [IChoice(1 + n * (|c| + 1), 0)] + (c + mw) + [ICommit(1)] == [IChoice(1 + n * (|c| + 1), 0)] + c + rest;
    NoWords();
    if StartsWithCheck(b) {
      AsTestIs(b, 0);
      UnionFlat(Some(b.i.ck), CheckStep(b.i.ck), b.k, b, m, End);
      TailWords(OtWords(Some(b.i.ck), 1 + n * (|c| + 1)),
        IChoice(1 + n * (|c| + 1) - CheckSize(b.i.ck), CheckStep(b.i.ck)), Flat(b.k), mw);
    } else {
      UnionFlat(None, 0, b, b, m, End);
      NoTest(1 + n * (|c| + 1));
      TailWords([], IChoice(1 + n * (|c| + 1), 0), c, mw);
    }
  }

  lemma FirstMore(c: Code, m: nat)
    ensures var rest := MoreWords(c, m) + [ICommit(1)]; rest != [] && !rest[0].ICheck?
  {
  }

  lemma TailWords(w: Code, i: Cell, f: Code, mw: Code)
    ensures w + [i] + (f + mw) + ([ICommit(1)] + []) == w + [i] + f + (mw + [ICommit(1)])
  {
  }

  lemma AtMostGood(b: Block, n: nat)
    requires Good(b) && n > 0
    ensures Good(AtMostOf(b, n))
  {
    EndGood();
  }

  lemma {:induction false} OptsImpl(a: Patt, b: Block, r: Block, n: nat, x: Subject, i: int, caps: seq<Capture>)
    requires Impl(b, a) && Good(b) && StartsWithCheck(b) && NoFail(b.k) && 0 <= i <= |x.s|
    requires r.OptHead? && r.t == b.i.ck && r.b == b.k
    ensures Agrees(EvalOpts(r, n, x, i, caps), EvalAtMost(a, n, x, i), caps)
    decreases n
  {
    hide EvalB, Eval, Good;
    assert caps + [] == caps;
    if n > 0 {
      Agree(b, a, x, i, caps);
      HeadConsumes(b, x, i, caps);
      var rp := Eval(a, x, i);
      if rp.Ok? {
        OptsImpl(a, b, r, n - 1, x, rp.j, caps + rp.caps);
        PrependAgrees(caps, rp.caps, EvalOpts(r, n - 1, x, rp.j, caps + rp.caps), EvalAtMost(a, n - 1, x, rp.j));
      }
    }
  }

  lemma {:induction false} MoreImpl(a: Patt, b: Block, r: Block, m: nat, x: Subject, i: int, caps: seq<Capture>)
    requires Impl(b, a) && 0 <= i <= |x.s| && r.Union? && r.more == b && r.els.End?
    ensures Agrees(EvalMore(r, m, x, i, caps), EvalAtMost(a, m, x, i), caps)
    decreases m
  {
    hide EvalB, Eval;
    assert caps + [] == caps;
    if m > 0 {
      EndEval(x, i, caps);
      Agree(b, a, x, i, caps);
      var rp := Eval(a, x, i);
      if rp.Ok? {
        MoreImpl(a, b, r, m - 1, x, rp.j, caps + rp.caps);
        PrependAgrees(caps, rp.caps, EvalMore(r, m - 1, x, rp.j, caps + rp.caps), EvalAtMost(a, m - 1, x, rp.j));
      }
    }
  }

  /** The first try of a bounded repetition, then the others. */
  lemma TryFirst(b: Block, n: nat, x: Subject, i: int, caps: seq<Capture>)
    requires n > 0 && !(StartsWithCheck(b) && NoFail(b.k)) && 0 <= i <= |x.s|
    ensures AtMostOf(b, n).Union? && AtMostOf(b, n).more == b && AtMostOf(b, n).els.End?
    ensures EvalB(AtMostOf(b, n), x, i, caps) ==
            match EvalB(b, x, i, caps)
            case Ok(j, c2) => EvalMore(AtMostOf(b, n), n - 1, x, j, c2)
            case Fail => Ok(i, caps)
            case Diverge => Diverge
  {
    hide EvalB, EvalMore;
    Alone(AtMostOf(b, n), x, i, caps);
    EndEval(x, i, caps);
    if StartsWithCheck(b) { CheckThen(b, x, i, caps); }
  }

  lemma AtMostImpl(a: Patt, b: Block, n: int)
    requires Impl(b, a) && Good(b) && n > 0
    ensures Impl(AtMostOf(b, n), Rept(a, -n))
  {
    hide EvalB, Good, EvalMore, EvalOpts, EvalAtMost;
    var r := AtMostOf(b, n);
    forall x: Subject, i: int, caps: seq<Capture> | 0 <= i <= |x.s|
      ensures Agrees(EvalB(r, x, i, caps), Eval(Rept(a, -n), x, i), caps)
    {
      assert Eval(Rept(a, -n), x, i) == EvalAtMost(a, n, x, i);
      if StartsWithCheck(b) && NoFail(b.k) {
        Alone(r, x, i, caps);
        OptsImpl(a, b, r, n, x, i, caps);
      } else {
        TryImpl(a, b, n, x, i, caps);
      }
    }
  }

  lemma TryImpl(a: Patt, b: Block, n: int, x: Subject, i: int, caps: seq<Capture>)
    requires Impl(b, a) && n > 0 && !(StartsWithCheck(b) && NoFail(b.k)) && 0 <= i <= |x.s|
    ensures Agrees(EvalB(AtMostOf(b, n), x, i, caps), EvalAtMost(a, n, x, i), caps)
  {
    hide EvalB, Eval, EvalMore, AtMostOf;
    TryFirst(b, n, x, i, caps);
    Agree(b, a, x, i, caps);
    assert caps + [] == caps;
    var rp := Eval(a, x, i);
    if rp.Ok? {
      MoreImpl(a, b, AtMostOf(b, n), n - 1, x, rp.j, caps + rp.caps);
      PrependAgrees(caps, rp.caps, EvalMore(AtMostOf(b, n), n - 1, x, rp.j, caps + rp.caps),
        EvalAtMost(a, n - 1, x, rp.j));
    }
  }

  lemma AtMostIs(b: Block, n: nat)
    requires Good(b) && n > 0 && AtMostCode(Flat(b), n).Pattern?
    ensures Good(AtMostOf(b, n)) && Flat(AtMostOf(b, n)) == AtMostCode(Flat(b), n).code
  {
    hide Flat, Good, IsHeadFail, AtMostOf, OptionalHead, Optionals, NoFail;
    GoodOf(b);
    AtMostFlat(b, n);
    AtMostGood(b, n);
    HeadFail(b);
  }

  lemma AtMostMeans(a: Patt, b: Block, n: int)
    requires Means(b, Flat(b), a) && n > 0 && AtMostCode(Flat(b), n).Pattern?
    ensures Means(AtMostOf(b, n), AtMostCode(Flat(b), n).code, Rept(a, -n))
  {
    hide Impl, Flat, Good, AtMostOf, AtMostCode;
    AtMostIs(b, n);
    AtMostImpl(a, b, n);
  }

  // ---- captures ----

  lemma Closed2Join(cs: seq<Capture>, ds: seq<Capture>)
    requires NoneOpen(cs) && NoneOpen(ds)
    ensures NoneOpen(cs + ds)
  {
    if ds == [] { assert cs + ds == cs; }
  }

  lemma {:induction false} CapsClosed(p: Patt, x: Subject, i: int)
    requires 0 <= i <= |x.s|
    ensures Eval(p, x, i).Ok? ==> NoneOpen(Eval(p, x, i).caps)
    decreases p, 0, 0
  {
    match p
    case Seq(a, b) =>
      CapsClosed(a, x, i);
      var r := Eval(a, x, i);
      if r.Ok? {
        CapsClosed(b, x, r.j);
        var r2 := Eval(b, x, r.j);
        if r2.Ok? { Closed2Join(r.caps, r2.caps); }
      }
    case Alt(a, b) => CapsClosed(a, x, i); CapsClosed(b, x, i);
    case Diff(a, b) => CapsClosed(a, x, i);
    case Rept(a, n) =>
      if n < 0 {
        AtMostClosed(a, -n, x, i);
      } else {
        TimesClosed(a, n, x, i);
        var r := EvalTimes(a, n, x, i);
        if r.Ok? {
          LoopClosed(a, x, r.j);
          var r2 := EvalLoop(a, x, r.j);
          if r2.Ok? { Closed2Join(r.caps, r2.caps); }
        }
      }
    case Capt(_, _, a) => CapsClosed(a, x, i);
    case _ =>
  }

  lemma {:induction false} TimesClosed(p: Patt, n: nat, x: Subject, i: int)
    requires 0 <= i <= |x.s|
    ensures EvalTimes(p, n, x, i).Ok? ==> NoneOpen(EvalTimes(p, n, x, i).caps)
    decreases p, 1, n
  {
    hide Eval;
    if n > 0 {
      CapsClosed(p, x, i);
      var r := Eval(p, x, i);
      if r.Ok? {
        TimesClosed(p, n - 1, x, r.j);
        var r2 := EvalTimes(p, n - 1, x, r.j);
        if r2.Ok? { Closed2Join(r.caps, r2.caps); }
      }
    }
  }

  lemma {:induction false} LoopClosed(p: Patt, x: Subject, i: int)
    requires 0 <= i <= |x.s|
    ensures EvalLoop(p, x, i).Ok? ==> NoneOpen(EvalLoop(p, x, i).caps)
    decreases p, 1, |x.s| - i
  {
    hide Eval;
    CapsClosed(p, x, i);
    var r := Eval(p, x, i);
    if r.Ok? && r.j > i {
      LoopClosed(p, x, r.j);
      var r2 := EvalLoop(p, x, r.j);
      if r2.Ok? { Closed2Join(r.caps, r2.caps); }
    }
  }

  lemma {:induction false} AtMostClosed(p: Patt, n: nat, x: Subject, i: int)
    requires 0 <= i <= |x.s|
    ensures EvalAtMost(p, n, x, i).Ok? ==> NoneOpen(EvalAtMost(p, n, x, i).caps)
    decreases p, 1, n
  {
    hide Eval;
    if n > 0 {
      CapsClosed(p, x, i);
      var r := Eval(p, x, i);
      if r.Ok? {
        AtMostClosed(p, n - 1, x, r.j);
        var r2 := EvalAtMost(p, n - 1, x, r.j);
        if r2.Ok? { Closed2Join(r.caps, r2.caps); }
      }
    }
  }

  /** An open and a close around b. */
  function Wrapped(kind: Kind, idx: int, b: Block): Block {
    Prim(ICapture(OpenCap, idx, kind, 0), Append(b, Prim(ICapture(CloseCap, 0, Cclose, 0), End)))
  }

  lemma {:induction false} DeeperAppend(a: Block, b: Block, d: nat, e: nat)
    requires Balanced(a, d) && Balanced(b, e)
    ensures Balanced(Append(a, b), d + e)
    decreases a
  {
    if !a.End? {
      var d2 := if a.Prim? && a.i.ICapture? && a.i.op.OpenCap? then d + 1
                else if a.Prim? && a.i.ICapture? && a.i.op.CloseCap? then d - 1 else d;
      DeeperAppend(a.k, b, d2, e);
    }
  }

  lemma WrappedIs(kind: Kind, idx: int, b: Block)
    requires Good(b)
    ensures Good(Wrapped(kind, idx, b))
    ensures Flat(Wrapped(kind, idx, b)) == [ICapture(OpenCap, idx, kind, 0)] + Flat(b)
            + [ICapture(CloseCap, 0, Cclose, 0)]
  {
    hide Append, Flat;
    var close := ICapture(CloseCap, 0, Cclose, 0);
    var tail := Prim(close, End);
    ClosePart(close);
    AppendFlat(b, tail);
    DeeperAppend(b, tail, 0, 1);
    AppendSound(b, tail);
    AppendBacked(b, tail, false);
    PrimFlat(ICapture(OpenCap, idx, kind, 0), Append(b, tail));
  }

  lemma PrimFlat(i: Cell, k: Block)
    requires Size(i) == 1
    ensures Flat(Prim(i, k)) == [i] + Flat(k)
  {
    assert Words(i) == [i];
  }

  lemma ClosePart(close: Cell)
    requires close == ICapture(CloseCap, 0, Cclose, 0)
    ensures Shape(Prim(close, End)) && Balanced(Prim(close, End), 1) && Valid(Prim(close, End), 0)
    ensures Flat(Prim(close, End)) == [close] && Backed(Prim(close, End), false)
  {
    EndGood();
    PrimFlat(close, End);
    NoWords();
  }

  lemma {:induction false} AppendSound(a: Block, b: Block)
    requires Shape(a) && Shape(b) && Valid(a, 0) && Valid(b, 0)
    ensures Shape(Append(a, b)) && Valid(Append(a, b), 0)
    decreases a
  {
    if !a.End? { AppendSound(a.k, b); }
  }

  lemma WrappedEval(kind: Kind, idx: int, a: Patt, b: Block, x: Subject, i: int, caps: seq<Capture>)
    requires Impl(b, a) && 0 <= i <= |x.s|
    ensures Agrees(EvalB(Wrapped(kind, idx, b), x, i, caps), Eval(Capt(kind, idx, a), x, i), caps)
  {
    hide EvalB, Append, Wrapped, Wrap, DoCapture, Impl, NoneOpen;
    WrappedRun(kind, idx, b, x, i, caps);
    Agree(b, a, x, i, caps + [Capture(i, idx, kind, 0)]);
    CapsClosed(a, x, i);
    var r := Eval(a, x, i);
    if r.Ok? { CloseEval(kind, idx, i, r.j, caps, r.caps); }
  }

  lemma WrappedRun(kind: Kind, idx: int, b: Block, x: Subject, i: int, caps: seq<Capture>)
    requires 0 <= i <= |x.s|
    ensures EvalB(Wrapped(kind, idx, b), x, i, caps) ==
            var r := EvalB(b, x, i, caps + [Capture(i, idx, kind, 0)]);
            if r.Ok? then Ok(r.j, DoCapture(CloseCap, 0, Cclose, 0, r.j, r.caps)) else r
  {
    hide EvalB, Append;
    var close := ICapture(CloseCap, 0, Cclose, 0);
    var c1 := caps + [Capture(i, idx, kind, 0)];
    PrimEval(ICapture(OpenCap, idx, kind, 0), Append(b, Prim(close, End)), x, i, caps);
    AppendEval(b, Prim(close, End), x, i, c1);
    var r := EvalB(b, x, i, c1);
    if r.Ok? {
      PrimEval(close, End, x, r.j, r.caps);
      EndEval(x, r.j, DoCapture(CloseCap, 0, Cclose, 0, r.j, r.caps));
    }
  }

  lemma CloseEval(kind: Kind, idx: int, i: int, j: int, caps: seq<Capture>, cs: seq<Capture>)
    requires NoneOpen(cs) && i <= j
    ensures DoCapture(CloseCap, 0, Cclose, 0, j, caps + [Capture(i, idx, kind, 0)] + cs) == caps
            + Wrap(kind, idx, i, j, cs)
  {
    var all := caps + [Capture(i, idx, kind, 0)] + cs;
    if cs == [] {
      assert all == caps + [Capture(i, idx, kind, 0)];
      assert Front(all) == caps;
    } else {
      assert Last(all) == Last(cs);
    }
  }

  /** Checks only, and one full capture behind them. */
  lemma FullEval(kind: Kind, idx: int, a: Patt, b: Block, cks: seq<Cell>, x: Subject, i: int, caps: seq<Capture>)
    requires Impl(b, a) && 0 <= i <= |x.s| && b == PrimSeq(cks, End) && (forall j :: 0 <= j < |cks| ==> cks[j].ICheck?)
    requires Bytes(cks) <= MAX_OFF
    ensures Agrees(EvalB(Append(b, Prim(ICapture(FullCap, idx, kind, Bytes(cks)), End)), x, i, caps),
            Eval(Capt(kind, idx, a), x, i), caps)
  {
    hide EvalB, Append, PrimSeq;
    var n := Bytes(cks);
    var full := ICapture(FullCap, idx, kind, n);
    AppendEval(b, Prim(full, End), x, i, caps);
    ChecksEval(cks, End, x, i, caps);
    Agree(b, a, x, i, caps);
    if AllPass(cks, x, i) {
      EndEval(x, i + n, caps);
      PrimEval(full, End, x, i + n, caps);
      EndEval(x, i + n, caps + [Capture(i, idx, kind, n + 1)]);
      var r := Eval(a, x, i);
      if r.Ok? { assert |caps + r.caps| == |caps|; }
    }
  }

  lemma FullIs(kind: Kind, idx: int, b: Block, n: nat)
    requires Good(b) && n <= MAX_OFF
    ensures var r := Append(b, Prim(ICapture(FullCap, idx, kind, n), End));
            && Good(r) && Flat(r) == Flat(b) + [ICapture(FullCap, idx, kind, n)]
  {
    hide Flat, Append;
    var full := ICapture(FullCap, idx, kind, n);
    PrimGood(full, End) by { EndGood(); }
    PrimFlat(full, End);
    NoWords();
    AppendIsGood(b, Prim(full, End));
  }

  /** SkipChecks takes the whole pattern exactly when it is a short list of checks. */
  lemma AllChecks(b: Block)
    requires Good(b)
    ensures var (lc, n) := SkipChecks(Flat(b), 0, MAX_OFF); var cks := Taken(b, MAX_OFF);
            && n == Bytes(cks) <= MAX_OFF && (forall j :: 0 <= j < |cks| ==> cks[j].ICheck?)
            && (lc == |Flat(b)| <==> b == PrimSeq(cks, End))
  {
    hide Flat, ItemWords;
    GoodOf(b);
    SkipChecksIs(Flat(b), 0, b, MAX_OFF);
    TakenSplit(b, MAX_OFF);
    var cks, rest := Taken(b, MAX_OFF), Rest(b, MAX_OFF);
    PrimSeqFlat(cks, rest);
    FlatEmpty(rest);
    if b == PrimSeq(cks, End) { PrimSeqEnds(cks, rest); }
  }

  lemma {:induction false} PrimSeqEnds(g: seq<Cell>, b: Block)
    requires PrimSeq(g, b) == PrimSeq(g, End)
    ensures b.End?
    decreases |g|
  {
    if g != [] { PrimSeqEnds(g[1..], b); }
  }

  /** The block behind capture_aux's code. */
  function CaptBlock(kind: Kind, idx: int, b: Block): Block {
    var cks := Taken(b, MAX_OFF);
    if b == PrimSeq(cks, End) then Append(b, Prim(ICapture(FullCap, idx, kind, Bytes(cks)), End))
    else MoveAll(Wrapped(kind, idx, b))
  }

  lemma CaptIs(kind: Kind, idx: int, b: Block)
    requires Good(b) && CaptureCode(kind, idx, Flat(b)).Pattern?
    ensures Good(CaptBlock(kind, idx, b)) && Flat(CaptBlock(kind, idx, b)) == CaptureCode(kind, idx, Flat(b)).code
  {
    hide Flat, Good, SkipChecks, OptCaps, Append, PrimSeq, Taken, MoveCaps, Wrapped;
    AllChecks(b);
    var cks := Taken(b, MAX_OFF);
    if b == PrimSeq(cks, End) {
      FullIs(kind, idx, b, Bytes(cks));
    } else {
      WrappedIs(kind, idx, b);
      MoveIs(Wrapped(kind, idx, b));
    }
  }

  lemma CaptMeans(kind: Kind, idx: int, a: Patt, b: Block)
    requires Means(b, Flat(b), a) && CaptureCode(kind, idx, Flat(b)).Pattern?
    ensures Means(CaptBlock(kind, idx, b), CaptureCode(kind, idx, Flat(b)).code, Capt(kind, idx, a))
  {
    hide EvalB, Eval, Agrees, Flat, Good, SkipChecks, Append, PrimSeq, Taken, MoveCaps, Wrapped, CaptureCode;
    CaptIs(kind, idx, b);
    AllChecks(b);
    var cks := Taken(b, MAX_OFF);
    if b == PrimSeq(cks, End) {
      var r := Append(b, Prim(ICapture(FullCap, idx, kind, Bytes(cks)), End));
      forall x: Subject, i: int, caps: seq<Capture> | 0 <= i <= |x.s|
        ensures Agrees(EvalB(r, x, i, caps), Eval(Capt(kind, idx, a), x, i), caps)
      {
        FullEval(kind, idx, a, b, cks, x, i, caps);
      }
    } else {
      var w := Wrapped(kind, idx, b);
      WrappedIs(kind, idx, b);
      forall x: Subject, i: int, caps: seq<Capture> | 0 <= i <= |x.s|
        ensures Agrees(EvalB(w, x, i, caps), Eval(Capt(kind, idx, a), x, i), caps)
      {
        WrappedEval(kind, idx, a, b, x, i, caps);
      }
      MoveMeans(w, Capt(kind, idx, a));
    }
  }
}
