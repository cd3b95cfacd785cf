/** Each pattern operator, applied to code that means its operands, gives code that means the result. */
module LpegOperators {
  import opened LpegCode
  import opened LpegMachine
  import opened LpegPeg
  import opened LpegBlock
  import opened LpegExec
  import opened LpegBuild
  import opened LpegShape
  import opened LpegOptCaps
  import opened LpegThread
  import opened LpegVerify
  import opened LpegUnion

  // ---- what is known of compiled code ----

  /** Code c is the words of block b, and b means p. */
  ghost predicate Means(b: Block, c: Code, p: Patt) {
    Good(b) && Flat(b) == c && Impl(b, p)
  }

  lemma Agree(b: Block, p: Patt, x: Subject, i: int, caps: seq<Capture>)
    requires Impl(b, p) && 0 <= i <= |x.s|
    ensures Agrees(EvalB(b, x, i, caps), Eval(p, x, i), caps)
  {
    hide EvalB, Eval, Agrees;
  }

  // ---- primitive patterns ----

  function StrBlock(s: seq<Byte>): Block {
    if s == [] then End else Prim(ICheck(Char(s[0]), 0), StrBlock(s[1..]))
  }

  lemma {:induction false} StrIs(s: seq<Byte>)
    ensures Good(StrBlock(s)) && Flat(StrBlock(s)) == StrCode(s)
    decreases |s|
  {
    if s != [] {
      StrIs(s[1..]);
      var b := StrBlock(s);
      assert Flat(b) == Words(b.i) + Flat(b.k);
    }
  }

  lemma {:induction false} StrEval(s: seq<Byte>, x: Subject, i: int, caps: seq<Capture>)
    requires 0 <= i <= |x.s|
    ensures EvalB(StrBlock(s), x, i, caps) == if i + |s| <= |x.s| && x.s[i..i + |s|] == s then Ok(i + |s|, caps)
            else Fail
    decreases |s|
  {
    hide EvalB;
    if s == [] {
      EndEval(x, i, caps);
    } else {
      CheckThen(StrBlock(s), x, i, caps);
      if i < |x.s| && x.s[i] == s[0] {
        StrEval(s[1..], x, i + 1, caps);
        if i + |s| <= |x.s| {
          assert x.s[i..i + |s|] == [x.s[i]] + x.s[i + 1..i + |s|];
          assert s == [s[0]] + s[1..];
          assert x.s[i..i + |s|][1..] == x.s[i + 1..i + |s|];
        }
      } else if i + |s| <= |x.s| {
        assert x.s[i..i + |s|][0] == x.s[i];
      }
    }
  }

  lemma EndEval(x: Subject, i: int, caps: seq<Capture>)
    requires 0 <= i <= |x.s|
    ensures EvalB(End, x, i, caps) == Ok(i, caps)
  {
  }

  lemma StrMeans(s: seq<Byte>)
    ensures Means(StrBlock(s), StrCode(s), Str(s))
  {
    hide EvalB;
    StrIs(s);
    forall x: Subject, i: int, caps: seq<Capture> | 0 <= i <= |x.s|
      ensures Agrees(EvalB(StrBlock(s), x, i, caps), Eval(Str(s), x, i), caps)
    {
      StrEval(s, x, i, caps);
      assert caps + [] == caps;
    }
  }

  function AnyBlock(n: nat): Block {
    if n > UCHAR_MAX then Prim(ICheck(Any(UCHAR_MAX), 0), AnyBlock(n - UCHAR_MAX)) else Prim(ICheck(Any(n), 0), End)
  }

  lemma {:induction false} AnyIs(n: nat)
    requires n > 0
    ensures Good(AnyBlock(n)) && Flat(AnyBlock(n)) == AnyCode(n)
  {
    var b := AnyBlock(n);
    if n > UCHAR_MAX {
      AnyIs(n - UCHAR_MAX);
    }
    assert Flat(b) == Words(b.i) + Flat(b.k);
  }

  lemma {:induction false} AnyEval(n: nat, x: Subject, i: int, caps: seq<Capture>)
    requires 0 <= i <= |x.s|
    ensures EvalB(AnyBlock(n), x, i, caps) == if i + n <= |x.s| then Ok(i + n, caps) else Fail
  {
    hide EvalB;
    CheckThen(AnyBlock(n), x, i, caps);
    if n > UCHAR_MAX {
      if i + UCHAR_MAX <= |x.s| { AnyEval(n - UCHAR_MAX, x, i + UCHAR_MAX, caps); }
    } else if i + n <= |x.s| {
      EndEval(x, i + n, caps);
    }
  }

  function NumBlock(n: int): Block {
    if n == 0 then End
    else if n > 0 then AnyBlock(n)
    else if -n <= UCHAR_MAX then NotHead(Any(-n), End, 0, End)
    else Not(Some(Any(UCHAR_MAX)), AnyBlock(-n - UCHAR_MAX), 0, End)
  }

  lemma NumMeans(n: int)
    requires NumCode(n).Pattern?
    ensures Means(NumBlock(n), NumCode(n).code, Num(n))
  {
    hide EvalB;
    NumIs(n);
    forall x: Subject, i: int, caps: seq<Capture> | 0 <= i <= |x.s|
      ensures Agrees(EvalB(NumBlock(n), x, i, caps), Eval(Num(n), x, i), caps)
    {
      assert caps + [] == caps;
      if n == 0 {
        EndEval(x, i, caps);
      } else if n > 0 {
        AnyEval(n, x, i, caps);
      } else {
        NegEval(n, x, i, caps);
      }
    }
  }

  lemma NegEval(n: int, x: Subject, i: int, caps: seq<Capture>)
    requires n < 0 && 0 <= i <= |x.s|
    ensures EvalB(NumBlock(n), x, i, caps) == if i - n <= |x.s| then Fail else Ok(i, caps)
  {
    Alone(NumBlock(n), x, i, caps);
    if -n > UCHAR_MAX && i + UCHAR_MAX <= |x.s| { AnyEval(-n - UCHAR_MAX, x, i + UCHAR_MAX, caps); }
  }

  lemma NumIs(n: int)
    requires NumCode(n).Pattern?
    ensures Good(NumBlock(n)) && Flat(NumBlock(n)) == NumCode(n).code
  {
    if n == 0 {
    } else if n > 0 {
      AnyIs(n);
    } else if -n <= UCHAR_MAX {
      var b := NumBlock(n);
      assert Flat(b) == ItemWords(b) + Flat(End);
      assert ItemWords(b) == Words(ICheck(Any(-n), 2)) + Flat(End) + [IFail];
    } else {
      NegIs(n);
    }
  }

  lemma NegIs(n: int)
    requires NumCode(n).Pattern? && -n > UCHAR_MAX
    ensures Good(NumBlock(n)) && Flat(NumBlock(n)) == NumCode(n).code
  {
    hide Flat, AnyBlock, AnyCode, Good;
    var r := AnyBlock(-n - UCHAR_MAX);
    AnyIs(-n - UCHAR_MAX);
    GoodOf(r);
    NotFlat(Some(Any(UCHAR_MAX)), r, End);
    NoWords();
    assert OtWords(Some(Any(UCHAR_MAX)), 1 + 1 + |Flat(r)| + 1) == [ICheck(Any(UCHAR_MAX), 1 + 1 + |Flat(r)| + 1)];
    EndGood();
    BackedMore(r, false);
    NotGood(Some(Any(UCHAR_MAX)), r, End);
  }

  lemma NotFlat(ot: Option<Check>, b: Block, k: Block)
    ensures Flat(Not(ot, b, 0, k))
         == OtWords(ot, OtSize(ot) + 1 + |Flat(b)| + 1) + [IChoice(1 + |Flat(b)| + 1, OtStep(ot))] + Flat(b)
           + ([IFailTwice] + Flat(k))
  {
    var n := Not(ot, b, 0, k);
    assert Flat(n) == ItemWords(n) + Flat(k);
    assert ItemWords(n) == NotWords(ot, Flat(b), 0);
    hide ItemWords, NotWords, OtWords;
    NotWordsJoin(ot, Flat(b), Flat(k));
  }

  lemma NotWordsJoin(ot: Option<Check>, f: Code, g: Code)
    ensures NotWords(ot, f, 0) + g
         == OtWords(ot, OtSize(ot) + 1 + |f| + 1) + [IChoice(1 + |f| + 1, OtStep(ot))] + f + ([IFailTwice] + g)
  {
  }

  lemma NotGood(ot: Option<Check>, b: Block, k: Block)
    requires (ot.Some? ==> GoodCheck(ot.value)) && Shape(b) && Balanced(b, 0) && Valid(b, 0) && Shape(k)
             && Balanced(k, 0) && Valid(k, 0)
    requires Backed(b, ot.Some?) && Backed(k, false)
    ensures Good(Not(ot, b, 0, k))
  {
  }

  lemma BoolMeans(truth: bool)
    ensures var b := if truth then End else Prim(IFail, End);
            Means(b, if truth then [] else [IFail], Bool(truth))
  {
    if truth { EmptyMeans(Bool(true)); } else { FailMeans(Bool(false)); }
  }

  lemma EmptyMeans(p: Patt)
    requires forall x: Subject, i: int | 0 <= i <= |x.s| :: Eval(p, x, i) == Ok(i, [])
    ensures Means(End, [], p)
  {
    forall x: Subject, i: int, caps: seq<Capture> | 0 <= i <= |x.s|
      ensures Agrees(EvalB(End, x, i, caps), Eval(p, x, i), caps)
    {
      assert caps + [] == caps;
    }
  }

  lemma FailMeans(p: Patt)
    requires forall x: Subject, i: int | 0 <= i <= |x.s| :: Eval(p, x, i).Fail?
    ensures Means(Prim(IFail, End), [IFail], p)
  {
    var b := Prim(IFail, End);
    PrimGood(IFail, End);
    OnePrim(b);
    assert Words(IFail) == [IFail];
  }

  lemma SetMeans(cs: Charset)
    ensures var b := Prim(ICheck(Set(cs), 0), End); Means(b, Words(ICheck(Set(cs), 0)), SetP(cs))
  {
    hide EvalB;
    var b := Prim(ICheck(Set(cs), 0), End);
    PrimGood(b.i, End);
    OnePrim(b);
    forall x: Subject, i: int, caps: seq<Capture> | 0 <= i <= |x.s|
      ensures Agrees(EvalB(b, x, i, caps), Eval(SetP(cs), x, i), caps)
    {
      assert caps + [] == caps;
      CheckThen(b, x, i, caps);
      if Passes(b.i.ck, x.s, i) { EndEval(x, i + 1, caps); }
    }
  }

  lemma MarkMeans(fromTable: bool, kind: Kind, idx: int)
    ensures var op := if fromTable then EmptyCapIdx else EmptyCap; var b := Prim(ICapture(op, idx, kind, 0), End);
            Means(b, [ICapture(op, idx, kind, 0)], Mark(fromTable, kind, idx))
  {
    var i := ICapture(if fromTable then EmptyCapIdx else EmptyCap, idx, kind, 0);
    PrimGood(i, End);
    OnePrim(Prim(i, End));
    assert Words(i) == [i];
    forall x: Subject, s: int, caps: seq<Capture> | 0 <= s <= |x.s|
      ensures EvalB(Prim(i, End), x, s, caps) == Ok(s, caps + [Capture(s, idx, kind, 1)])
    {
      PrimEval(i, End, x, s, caps);
      EndEval(x, s, caps + [Capture(s, idx, kind, 1)]);
    }
  }

  // ---- captures of a compiled sequence may move ----

  lemma MoveMeans(b: Block, p: Patt)
    requires Good(b) && Impl(b, p)
    ensures Means(MoveAll(b), OptCaps(Flat(b)), p)
  {
    hide EvalB, Eval, Agrees, OptCaps, MoveCaps, Flat;
    MoveAllGood(b);
    GoodOf(b);
    OptCapsFlat(b);
    forall x: Subject, i: int, caps: seq<Capture> | 0 <= i <= |x.s|
      ensures Agrees(EvalB(MoveAll(b), x, i, caps), Eval(p, x, i), caps)
    {
      MoveCapsSame(b, [], true, x);
      EmptyPrimSeq(b);
      Agree(b, p, x, i, caps);
    }
  }

  // ---- sequence ----

  lemma SeqImpl(a: Patt, b: Patt, b1: Block, b2: Block)
    requires Impl(b1, a) && Impl(b2, b)
    ensures Impl(Append(b1, b2), Seq(a, b))
  {
    hide EvalB;
    forall x: Subject, i: int, caps: seq<Capture> | 0 <= i <= |x.s|
      ensures Agrees(EvalB(Append(b1, b2), x, i, caps), Eval(Seq(a, b), x, i), caps)
    {
      AppendEval(b1, b2, x, i, caps);
      Agree(b1, a, x, i, caps);
      var r := Eval(a, x, i);
      if r.Ok? {
        Agree(b2, b, x, r.j, caps + r.caps);
        var r2 := Eval(b, x, r.j);
        if r2.Ok? { assert (caps + r.caps) + r2.caps == caps + (r.caps + r2.caps); }
      }
    }
  }

  /** The condition under which two single IAny instructions may become one. */
  predicate MergeOk(i1: Cell, i2: Cell)
    requires i1.ICheck? && i1.ck.Any? && i2.ICheck? && i2.ck.Any?
  {
    i2.offset == 0 && (i1.offset == 0 || i1.ck.n <= i2.ck.n)
  }

  lemma FailFirstEval(b: Block, p: Patt, x: Subject, i: int)
    requires Shape(b) && IsFailCode(Flat(b)) && Impl(b, p) && 0 <= i <= |x.s|
    ensures Eval(p, x, i).Fail?
    ensures forall caps: seq<Capture> :: EvalB(b, x, i, caps) == Fail
  {
    FailFirst(b);
    Agree(b, p, x, i, []);
  }

  lemma EmptyEval(p: Patt, x: Subject, i: int)
    requires Impl(End, p) && 0 <= i <= |x.s|
    ensures Eval(p, x, i) == Ok(i, [])
  {
    Agree(End, p, x, i, []);
    EndEval(x, i, []);
  }

  /** The block behind concat_l's code. */
  function SeqBlock(b1: Block, b2: Block): Block {
    var c1, c2 := Flat(b1), Flat(b2);
    if IsFailCode(c1) || c2 == [] then b1
    else if IsFailCode(c2) || c1 == [] then b2
    else if IsAnyCode(c1) && IsAnyCode(c2) then AnyBlock(c1[0].ck.n + c2[0].ck.n)
    else MoveAll(Append(b1, b2))
  }

  lemma SeqIs(b1: Block, b2: Block)
    requires Good(b1) && Good(b2) && Concat(Flat(b1), Flat(b2)).Pattern?
    ensures Good(SeqBlock(b1, b2)) && Flat(SeqBlock(b1, b2)) == Concat(Flat(b1), Flat(b2)).code
  {
    hide Flat, Good, OptCaps, AnyCode, AnyBlock, MoveCaps, Append;
    var c1, c2 := Flat(b1), Flat(b2);
    GoodOf(b1);
    GoodOf(b2);
    if IsFailCode(c1) || c2 == [] {
    } else if IsFailCode(c2) || c1 == [] {
    } else if IsAnyCode(c1) && IsAnyCode(c2) {
      AnyPositive(b1);
      AnyIs(c1[0].ck.n + c2[0].ck.n);
    } else {
      FlatEmpty(b2);
      AppendIsGood(b1, b2);
      MoveIs(Append(b1, b2));
    }
  }

  lemma MoveIs(b: Block)
    requires Good(b)
    ensures Good(MoveAll(b)) && Flat(MoveAll(b)) == OptCaps(Flat(b))
  {
    hide Good, Flat, MoveCaps, OptCaps;
    MoveAllGood(b);
    GoodOf(b);
    OptCapsFlat(b);
  }

  /** concat_l returns its second operand, which always fails, though the first one may loop for ever. */
  predicate Loses(c1: Code, c2: Code) {
    IsFailCode(c2) && !IsFailCode(c1) && c1 != []
  }

  lemma SeqMeans(a: Patt, b: Patt, b1: Block, b2: Block)
    requires Means(b1, Flat(b1), a) && Means(b2, Flat(b2), b) && Concat(Flat(b1), Flat(b2)).Pattern?
    requires IsAnyCode(Flat(b1)) && IsAnyCode(Flat(b2)) ==> MergeOk(Flat(b1)[0], Flat(b2)[0])
    requires !Loses(Flat(b1), Flat(b2))
    ensures Means(SeqBlock(b1, b2), Concat(Flat(b1), Flat(b2)).code, Seq(a, b))
  {
    hide Flat, Means, OptCaps, AnyCode, AnyBlock, MoveCaps, Append;
    var c1, c2 := Flat(b1), Flat(b2);
    if IsFailCode(c1) || c2 == [] {
      SeqLeft(a, b, b1, b2);
    } else if c1 == [] {
      SeqRight(a, b, b1, b2);
    } else if IsAnyCode(c1) && IsAnyCode(c2) {
      SeqMerge(a, b, b1, b2);
    } else {
      SeqJoin(a, b, b1, b2);
    }
  }

  lemma SeqMerge(a: Patt, b: Patt, b1: Block, b2: Block)
    requires Means(b1, Flat(b1), a) && Means(b2, Flat(b2), b)
    requires IsAnyCode(Flat(b1)) && IsAnyCode(Flat(b2)) && MergeOk(Flat(b1)[0], Flat(b2)[0])
    ensures var n := Flat(b1)[0].ck.n + Flat(b2)[0].ck.n;
            Means(AnyBlock(n), AnyCode(n), Seq(a, b))
  {
    hide MergeOk, Agrees, EvalB, Eval, Flat, Good, AnyCode, AnyBlock, Impl, Shape, Valid, Balanced, Spine;
    var n := Flat(b1)[0].ck.n + Flat(b2)[0].ck.n;
    GoodOf(b1);
    GoodOf(b2);
    AnyPositive(b1);
    AnyIs(n);
    MergeImpl(a, b, b1, b2);
  }

  lemma AnyPositive(b: Block)
    requires Shape(b) && Valid(b, 0) && IsAnyCode(Flat(b))
    ensures Flat(b)[0].ck.n > 0
  {
    AnyStep(b);
  }

  lemma SeqJoin(a: Patt, b: Patt, b1: Block, b2: Block)
    requires Means(b1, Flat(b1), a) && Means(b2, Flat(b2), b) && Flat(b2) != []
    ensures Means(MoveAll(Append(b1, b2)), OptCaps(Flat(b1) + Flat(b2)), Seq(a, b))
  {
    hide Flat, Good, Impl, Shape, Valid, Balanced, Spine, MoveCaps, OptCaps, Append;
    GoodOf(b2);
    FlatEmpty(b2);
    AppendIsGood(b1, b2);
    SeqImpl(a, b, b1, b2);
    MoveMeans(Append(b1, b2), Seq(a, b));
  }

  lemma AppendIsGood(b1: Block, b2: Block)
    requires Good(b1) && Good(b2) && !b2.End?
    ensures Good(Append(b1, b2)) && Flat(Append(b1, b2)) == Flat(b1) + Flat(b2)
  {
    hide Append, Shape, Valid, Balanced, Spine, Flat;
    AppendFlat(b1, b2);
    AppendGood(b1, b2, 0);
    AppendSpine(b1, b2);
    AppendBacked(b1, b2, false);
  }

  lemma SeqLeft(a: Patt, b: Patt, b1: Block, b2: Block)
    requires Means(b1, Flat(b1), a) && Means(b2, Flat(b2), b) && (IsFailCode(Flat(b1)) || Flat(b2) == [])
    ensures Means(b1, Flat(b1), Seq(a, b))
  {
    hide EvalB, Flat, Good, Shape;
    GoodOf(b1);
    GoodOf(b2);
    FlatEmpty(b2);
    forall x: Subject, i: int, caps: seq<Capture> | 0 <= i <= |x.s|
      ensures Agrees(EvalB(b1, x, i, caps), Eval(Seq(a, b), x, i), caps)
    {
      Agree(b1, a, x, i, caps);
      if IsFailCode(Flat(b1)) {
        FailFirstEval(b1, a, x, i);
      } else {
        var r := Eval(a, x, i);
        if r.Ok? {
          EmptyEval(b, x, r.j);
          assert r.caps + [] == r.caps;
        }
      }
    }
  }

  lemma SeqRight(a: Patt, b: Patt, b1: Block, b2: Block)
    requires Means(b1, Flat(b1), a) && Means(b2, Flat(b2), b) && Flat(b1) == []
    ensures Means(b2, Flat(b2), Seq(a, b))
  {
    hide EvalB, Flat, Good, Shape;
    GoodOf(b1);
    FlatEmpty(b1);
    forall x: Subject, i: int, caps: seq<Capture> | 0 <= i <= |x.s|
      ensures Agrees(EvalB(b2, x, i, caps), Eval(Seq(a, b), x, i), caps)
    {
      Agree(b2, b, x, i, caps);
      EmptyEval(a, x, i);
      var r := Eval(b, x, i);
      if r.Ok? { assert [] + r.caps == r.caps; }
    }
  }

  /** One IAny word is the check itself, or the optional `any(n)^-1`. */
  lemma AnyStep(b: Block)
    requires Shape(b) && Valid(b, 0) && IsAnyCode(Flat(b))
    ensures GoodCheck(Flat(b)[0].ck)
    ensures Flat(b)[0].offset == 0 ==> b == Prim(Flat(b)[0], End)
    ensures Flat(b)[0].offset != 0 ==> b.OptHead? && b == OptHead(Flat(b)[0].ck, b.b, 1, 0, End) && b.b.End?
  {
    hide Flat;
    NoWords();
    ItemHead(b);
    OneWord(b);
  }

  lemma OneWord(b: Block)
    requires Shape(b) && !b.End? && |Flat(b)| == 1 && Flat(b)[0].ICheck? && Valid(b, 0)
    ensures b.k.End?
    ensures b.Prim? || (b.OptHead? && b.x == 0 && b.n == 1 && b.b.End? && b.t == Flat(b)[0].ck)
    ensures b.Prim? ==> b.i == Flat(b)[0] && b.i.offset == 0
    ensures !b.Prim? ==> Flat(b)[0].offset != 0
  {
    FlatEmpty(b.k);
    ItemHead(b);
    assert |ItemWords(b)| == 1;
    if b.OptHead? {
      OptLeast(b.t, Flat(b.b), b.n, b.x);
      FlatEmpty(b.b);
    }
  }

  lemma {:induction false} OptLeast(t: Check, f: Code, n: nat, x: nat)
    ensures |OptWords(t, f, n, x)| >= n && (n > 0 ==> |OptWords(t, f, n, x)| >= n + |f|)
    decreases n
  {
    if n > 0 { OptLeast(t, f, n - 1, x); }
  }

  /** What one IAny word does. */
  function AnyResult(i: Cell, x: Subject, s: int, caps: seq<Capture>): Res
    requires i.ICheck? && i.ck.Any?
  {
    if s + i.ck.n <= |x.s| then Ok(s + i.ck.n, caps) else if i.offset == 0 then Fail else Ok(s, caps)
  }

  lemma AnyWordEval(b: Block, x: Subject, i: int, caps: seq<Capture>)
    requires Shape(b) && Valid(b, 0) && IsAnyCode(Flat(b)) && 0 <= i <= |x.s|
    ensures EvalB(b, x, i, caps) == AnyResult(Flat(b)[0], x, i, caps)
  {
    hide Flat, EvalB;
    AnyStep(b);
    Alone(b, x, i, caps);
    if b.OptHead? && i + b.t.n <= |x.s| {
      EndEval(x, i + b.t.n, caps);
      assert EvalOpts(b, 0, x, i + b.t.n, caps) == Ok(i + b.t.n, caps);
    }
  }

  lemma MergeImpl(a: Patt, b: Patt, b1: Block, b2: Block)
    requires Impl(b1, a) && Impl(b2, b) && Shape(b1) && Shape(b2) && Valid(b1, 0) && Valid(b2, 0)
    requires IsAnyCode(Flat(b1)) && IsAnyCode(Flat(b2)) && MergeOk(Flat(b1)[0], Flat(b2)[0])
    ensures Impl(AnyBlock(Flat(b1)[0].ck.n + Flat(b2)[0].ck.n), Seq(a, b))
  {
    hide EvalB, Flat, AnyBlock;
    var n := Flat(b1)[0].ck.n + Flat(b2)[0].ck.n;
    forall x: Subject, i: int, caps: seq<Capture> | 0 <= i <= |x.s|
      ensures Agrees(EvalB(AnyBlock(n), x, i, caps), Eval(Seq(a, b), x, i), caps)
    {
      SeqOfAny(a, b, b1, b2, x, i, caps);
      AnyEval(n, x, i, caps);
      AnyStep(b1);
      AnyStep(b2);
    }
  }

  lemma SeqOfAny(a: Patt, b: Patt, b1: Block, b2: Block, x: Subject, i: int, caps: seq<Capture>)
    requires Impl(b1, a) && Impl(b2, b) && Shape(b1) && Shape(b2) && Valid(b1, 0) && Valid(b2, 0)
    requires IsAnyCode(Flat(b1)) && IsAnyCode(Flat(b2)) && 0 <= i <= |x.s|
    ensures var r := AnyResult(Flat(b1)[0], x, i, caps);
            Agrees(if r.Ok? then AnyResult(Flat(b2)[0], x, r.j, r.caps) else r, Eval(Seq(a, b), x, i), caps)
  {
    hide EvalB, Flat;
    AnyWordEval(b1, x, i, caps);
    Agree(b1, a, x, i, caps);
    var r := Eval(a, x, i);
    if r.Ok? {
      AnyWordEval(b2, x, r.j, caps + r.caps);
      Agree(b2, b, x, r.j, caps + r.caps);
      var r2 := Eval(b, x, r.j);
      if r2.Ok? { assert (caps + r.caps) + r2.caps == caps + (r.caps + r2.caps); }
    }
  }

  // ---- difference and predicates ----

  /** The block behind diff_l's code. */
  function DiffBlock(b1: Block, b2: Block): Block {
    if IsCharsetBlock(b1) && IsCharsetBlock(b2) then Prim(ICheck(Set(StartSet(b1.i.ck) - StartSet(b2.i.ck)), 0), End)
    else if StartsWithCheck(b2) && NoFail(b2.k) then NotHead(b2.i.ck, b2.k, 0, b1)
    else NotOf(b2, b1)
  }

  lemma DiffIs(b1: Block, b2: Block)
    requires Good(b1) && Good(b2) && DiffCode(Flat(b1), Flat(b2)).Pattern?
    ensures Good(DiffBlock(b1, b2)) && Flat(DiffBlock(b1, b2)) == DiffCode(Flat(b1), Flat(b2)).code
  {
    hide Flat, Good, ToCharset, OptChoice, IsHeadFail, AsTest, StartSet, Words, NoFail, NotOf;
    StartOf(b1);
    StartOf(b2);
    if IsCharsetBlock(b1) && IsCharsetBlock(b2) {
      SetBlock(StartSet(b1.i.ck) - StartSet(b2.i.ck));
    } else if StartsWithCheck(b2) && NoFail(b2.k) {
      NotHeadIs(b2, b1);
    } else {
      NotIs(b2, b1);
    }
  }

  lemma DiffMeans(a: Patt, b: Patt, b1: Block, b2: Block)
    requires Means(b1, Flat(b1), a) && Means(b2, Flat(b2), b) && DiffCode(Flat(b1), Flat(b2)).Pattern?
    ensures Means(DiffBlock(b1, b2), DiffCode(Flat(b1), Flat(b2)).code, Diff(a, b))
  {
    hide Flat, Good, Impl, DiffCode, NotOf, StartSet, NoFail;
    DiffIs(b1, b2);
    if IsCharsetBlock(b1) && IsCharsetBlock(b2) {
      DiffSets(a, b, b1, b2);
    } else {
      DiffImpl(a, b, b1, b2, DiffBlock(b1, b2));
    }
  }

  /** What the builders see of a compiled pattern. */
  lemma StartOf(b: Block)
    requires Good(b)
    ensures var t := ToCharset(Flat(b));
            && (t.NoInfo? <==> !StartsWithCheck(b)) && (t.IsCharset? <==> IsCharsetBlock(b))
            && (!t.NoInfo? ==> t.cs == StartSet(b.i.ck))
    ensures IsHeadFail(Flat(b)) <==> StartsWithCheck(b) && NoFail(b.k)
  {
    CharsetTag(b);
    HeadFail(b);
  }

  /** b1 where b2 fails, with the first check of b2 in front of the choice. */
  function NotOf(b2: Block, b1: Block): Block {
    if StartsWithCheck(b2) then Not(Some(b2.i.ck), b2.k, 0, b1) else Not(None, b2, 0, b1)
  }

  lemma SetBlock(cs: Charset)
    ensures var b := Prim(ICheck(Set(cs), 0), End); Good(b) && Flat(b) == Words(b.i)
  {
    var b := Prim(ICheck(Set(cs), 0), End);
    EndGood();
    PrimGood(b.i, End);
    OnePrim(b);
  }

  lemma CharsetEval(b: Block, x: Subject, i: int, caps: seq<Capture>)
    requires IsCharsetBlock(b) && 0 <= i <= |x.s|
    ensures EvalB(b, x, i, caps) == if i < |x.s| && x.s[i] in StartSet(b.i.ck) then Ok(i + 1, caps) else Fail
  {
    CheckThen(b, x, i, caps);
  }

  lemma DiffSets(a: Patt, b: Patt, b1: Block, b2: Block)
    requires Impl(b1, a) && Impl(b2, b) && IsCharsetBlock(b1) && IsCharsetBlock(b2)
    ensures Impl(Prim(ICheck(Set(StartSet(b1.i.ck) - StartSet(b2.i.ck)), 0), End), Diff(a, b))
  {
    hide EvalB;
    var r := Prim(ICheck(Set(StartSet(b1.i.ck) - StartSet(b2.i.ck)), 0), End);
    forall x: Subject, i: int, caps: seq<Capture> | 0 <= i <= |x.s|
      ensures Agrees(EvalB(r, x, i, caps), Eval(Diff(a, b), x, i), caps)
    {
      CharsetEval(r, x, i, caps);
      CharsetEval(b1, x, i, caps);
      CharsetEval(b2, x, i, caps);
      Agree(b1, a, x, i, caps);
      Agree(b2, b, x, i, caps);
    }
  }

  lemma NotHeadIs(b2: Block, b1: Block)
    requires Good(b2) && Good(b1) && StartsWithCheck(b2) && NoFail(b2.k)
    ensures var r := NotHead(b2.i.ck, b2.k, 0, b1);
            && Good(r) && Flat(b2) != [] && Flat(b2)[0].ICheck?
            && Flat(r) == AsTest(Flat(b2), |Flat(b2)| + 1) + [IFail] + Flat(b1)
  {
    var r := NotHead(b2.i.ck, b2.k, 0, b1);
    AsTestIs(b2, |Flat(b2)| + 1);
    assert Flat(r) == ItemWords(r) + Flat(b1);
  }

  lemma NotIs(b2: Block, b1: Block)
    requires Good(b2) && Good(b1)
    ensures var r := NotOf(b2, b1);
            && Good(r) && Flat(r) == OptChoice([IChoice(1 + |Flat(b2)| + 1, 0)] + Flat(b2) + [IFailTwice] + Flat(b1))
  {
    hide Flat, OptChoice, Good, OtWords;
    GoodOf(b1);
    GoodOf(b2);
    var c2 := Flat(b2);
    RotateIs(b2, 1 + |c2| + 1, [IFailTwice] + Flat(b1));
    assert [IChoice(1 + |c2| + 1, 0)] + c2 + [IFailTwice] + Flat(b1) == [IChoice(1 + |c2| + 1, 0)] + c2
      + ([IFailTwice] + Flat(b1));
    if StartsWithCheck(b2) {
      AsTestIs(b2, 0);
      NotFlat(Some(b2.i.ck), b2.k, b1);
      CheckTail(b2);
      NotGood(Some(b2.i.ck), b2.k, b1);
    } else {
      NotFlat(None, b2, b1);
      NoTest(1 + |c2| + 1);
      NotGood(None, b2, b1);
    }
  }

  /** The block r fails where b2 succeeds, and is b1 where b2 fails. */
  lemma DiffEval(b1: Block, b2: Block, r: Block, x: Subject, i: int, caps: seq<Capture>)
    requires 0 <= i <= |x.s|
    requires (StartsWithCheck(b2) && NoFail(b2.k) && r == NotHead(b2.i.ck, b2.k, 0, b1))
          || r == NotOf(b2, b1)
    ensures EvalB(r, x, i, caps) ==
            match EvalB(b2, x, i, caps) case Ok(_, _) => Fail case Fail => EvalB(b1, x, i, caps) case Diverge => Diverge
  {
    hide EvalB, NoFail;
    FirstItem(r, x, i, caps);
    if StartsWithCheck(b2) {
      CheckThen(b2, x, i, caps);
      if Passes(b2.i.ck, x.s, i) && NoFail(b2.k) { NoFailOk(b2.k, x, i + CheckStep(b2.i.ck), caps); }
    }
  }

  lemma FirstItem(b: Block, x: Subject, i: int, caps: seq<Capture>)
    requires !b.End? && 0 <= i <= |x.s|
    ensures EvalB(b, x, i, caps) == Bind(EvalItem(b, x, i, caps), b.k, x)
  {
  }

  lemma DiffImpl(a: Patt, b: Patt, b1: Block, b2: Block, r: Block)
    requires Impl(b1, a) && Impl(b2, b)
    requires (StartsWithCheck(b2) && NoFail(b2.k) && r == NotHead(b2.i.ck, b2.k, 0, b1))
          || r == NotOf(b2, b1)
    ensures Impl(r, Diff(a, b))
  {
    hide EvalB;
    forall x: Subject, i: int, caps: seq<Capture> | 0 <= i <= |x.s|
      ensures Agrees(EvalB(r, x, i, caps), Eval(Diff(a, b), x, i), caps)
    {
      DiffEval(b1, b2, r, x, i, caps);
      Agree(b1, a, x, i, caps);
      Agree(b2, b, x, i, caps);
    }
  }

  /** The block behind unm_l's code. */
  function NegBlock(b1: Block): Block {
    if IsFailCode(Flat(b1)) then End else if Flat(b1) == [] then Prim(IFail, End) else DiffBlock(End, b1)
  }

  lemma NegIsGood(b1: Block)
    requires Good(b1) && NegCode(Flat(b1)).Pattern?
    ensures Good(NegBlock(b1)) && Flat(NegBlock(b1)) == NegCode(Flat(b1)).code
  {
    hide Flat, Good, DiffBlock, DiffCode;
    NoWords();
    EndGood();
    if IsFailCode(Flat(b1)) {
    } else if Flat(b1) == [] {
      FailIs();
    } else {
      DiffIs(End, b1);
    }
  }

  lemma FailIs()
    ensures Good(Prim(IFail, End)) && Flat(Prim(IFail, End)) == [IFail]
  {
    EndGood();
    PrimGood(IFail, End);
    OnePrim(Prim(IFail, End));
    assert Words(IFail) == [IFail];
  }

  /** -a is the difference of the empty pattern and a. */
  lemma NegMeans(a: Patt, b1: Block)
    requires Means(b1, Flat(b1), a) && NegCode(Flat(b1)).Pattern?
    ensures Means(NegBlock(b1), NegCode(Flat(b1)).code, Neg(a))
  {
    hide EvalB, Eval, Flat, Agrees, Good, Impl, Shape, Valid, Balanced, Spine, DiffBlock, DiffCode;
    GoodOf(b1);
    FlatEmpty(b1);
    NegIsDiff(a);
    if IsFailCode(Flat(b1)) {
      NegOfFail(a, b1);
    } else if Flat(b1) == [] {
      NegOfEmpty(a);
    } else {
      BoolEval();
      EmptyMeans(Bool(true));
      NoWords();
      DiffMeans(Bool(true), a, End, b1);
      ImplSame(DiffBlock(End, b1), Diff(Bool(true), a), Neg(a));
    }
  }

  lemma BoolEval()
    ensures forall x: Subject, i: int | 0 <= i <= |x.s| :: Eval(Bool(true), x, i) == Ok(i, [])
  {
  }

  lemma NegIsDiff(a: Patt)
    ensures forall x: Subject, i: int | 0 <= i <= |x.s| :: Eval(Neg(a), x, i) == Eval(Diff(Bool(true), a), x, i)
  {
  }

  lemma ImplSame(b: Block, p: Patt, q: Patt)
    requires forall x: Subject, i: int | 0 <= i <= |x.s| :: Eval(p, x, i) == Eval(q, x, i)
    ensures Impl(b, p) ==> Impl(b, q)
  {
    hide EvalB, Eval, Agrees;
  }

  lemma NegOfFail(a: Patt, b1: Block)
    requires Impl(b1, a) && Shape(b1) && IsFailCode(Flat(b1))
    ensures Means(End, [], Neg(a))
  {
    forall x: Subject, i: int | 0 <= i <= |x.s| ensures Eval(Neg(a), x, i) == Ok(i, []) {
      FailFirstEval(b1, a, x, i);
    }
    EmptyMeans(Neg(a));
  }

  lemma NegOfEmpty(a: Patt)
    requires Impl(End, a)
    ensures Means(Prim(IFail, End), [IFail], Neg(a))
  {
    forall x: Subject, i: int | 0 <= i <= |x.s| ensures Eval(Neg(a), x, i).Fail? {
      EmptyEval(a, x, i);
    }
    FailMeans(Neg(a));
  }

  /** The block behind pattand_l's code. */
  function AndBlock(b1: Block): Block {
    if IsFailCode(Flat(b1)) || Flat(b1) == [] then b1
    else if IsCharsetBlock(b1) then Prim(b1.i, Prim(IBack(1), End))
    else And(b1, 0, End)
  }

  lemma AndIsGood(b1: Block)
    requires Good(b1) && AndCode(Flat(b1)).Pattern?
    ensures Good(AndBlock(b1)) && Flat(AndBlock(b1)) == AndCode(Flat(b1)).code
  {
    hide Flat, Good, ToCharset;
    StartOf(b1);
    if IsFailCode(Flat(b1)) || Flat(b1) == [] {
    } else if IsCharsetBlock(b1) {
      BackGood(b1);
    } else {
      AndIs(b1);
    }
  }

  lemma AndMeans(a: Patt, b1: Block)
    requires Means(b1, Flat(b1), a) && AndCode(Flat(b1)).Pattern?
    ensures Means(AndBlock(b1), AndCode(Flat(b1)).code, AndP(a))
  {
    hide EvalB, Eval, Flat, Agrees, Good, ToCharset, Impl, Shape, Valid, Balanced, Spine, AndCode;
    AndIsGood(b1);
    GoodOf(b1);
    FlatEmpty(b1);
    if IsFailCode(Flat(b1)) || Flat(b1) == [] {
      AndSame(a, b1);
    } else if IsCharsetBlock(b1) {
      LookBehind(a, b1);
    } else {
      AndImpl(a, b1);
    }
  }

  lemma AndSame(a: Patt, b1: Block)
    requires Impl(b1, a) && Shape(b1) && (IsFailCode(Flat(b1)) || b1.End?)
    ensures Impl(b1, AndP(a))
  {
    hide EvalB, Flat;
    forall x: Subject, i: int, caps: seq<Capture> | 0 <= i <= |x.s|
      ensures Agrees(EvalB(b1, x, i, caps), Eval(AndP(a), x, i), caps)
    {
      Agree(b1, a, x, i, caps);
      if b1.End? { EmptyEval(a, x, i); } else { FailFirstEval(b1, a, x, i); }
    }
  }

  lemma LookBehind(a: Patt, b1: Block)
    requires Impl(b1, a) && IsCharsetBlock(b1)
    ensures Impl(Prim(b1.i, Prim(IBack(1), End)), AndP(a))
  {
    hide EvalB;
    var r := Prim(b1.i, Prim(IBack(1), End));
    forall x: Subject, i: int, caps: seq<Capture> | 0 <= i <= |x.s|
      ensures Agrees(EvalB(r, x, i, caps), Eval(AndP(a), x, i), caps)
    {
      Agree(b1, a, x, i, caps);
      CharsetEval(b1, x, i, caps);
      CheckThen(r, x, i, caps);
      assert caps + [] == caps;
      if i < |x.s| && x.s[i] in StartSet(b1.i.ck) { BackEval(x, i + 1, caps); }
    }
  }

  lemma BackGood(b1: Block)
    requires IsCharsetBlock(b1) && Good(b1)
    ensures var r := Prim(b1.i, Prim(IBack(1), End)); Good(r) && Flat(r) == Flat(b1) + [IBack(1)]
  {
    var r := Prim(b1.i, Prim(IBack(1), End));
    EndGood();
    assert Backed(r.k, true) && Shape(r.k) && Balanced(r.k, 0) && Valid(r.k, 0);
    PrimGood(b1.i, r.k);
    OnePrim(b1);
    OnePrim(r.k);
    assert Flat(r) == Words(b1.i) + Flat(r.k);
    assert Words(IBack(1)) == [IBack(1)];
  }

  lemma BackEval(x: Subject, i: int, caps: seq<Capture>)
    requires 1 <= i <= |x.s|
    ensures EvalB(Prim(IBack(1), End), x, i, caps) == Ok(i - 1, caps)
  {
  }

  lemma AndIs(b1: Block)
    requires Good(b1)
    ensures Good(And(b1, 0, End))
    ensures Flat(And(b1, 0, End)) == [IChoice(1 + |Flat(b1)| + 1, 0)] + Flat(b1) + [IBackCommit(2), IFail]
  {
    EndGood();
    AndFlat(b1);
  }

  lemma AndFlat(b1: Block)
    ensures Flat(And(b1, 0, End)) == [IChoice(1 + |Flat(b1)| + 1, 0)] + Flat(b1) + [IBackCommit(2), IFail]
  {
    var r := And(b1, 0, End);
    hide ItemWords;
    AndItem(b1);
    assert Flat(r) == ItemWords(r) + Flat(End) == ItemWords(r) + [];
    hide *;
    assert ItemWords(r) + [] == ItemWords(r);
  }

  lemma AndItem(b1: Block)
    ensures ItemWords(And(b1, 0, End)) == [IChoice(1 + |Flat(b1)| + 1, 0)] + Flat(b1) + [IBackCommit(2), IFail]
  {
    hide Flat;
  }

  lemma AndImpl(a: Patt, b1: Block)
    requires Impl(b1, a)
    ensures Impl(And(b1, 0, End), AndP(a))
  {
    hide EvalB;
    forall x: Subject, i: int, caps: seq<Capture> | 0 <= i <= |x.s|
      ensures Agrees(EvalB(And(b1, 0, End), x, i, caps), Eval(AndP(a), x, i), caps)
    {
      Alone(And(b1, 0, End), x, i, caps);
      Agree(b1, a, x, i, caps);
      assert caps + [] == caps;
    }
  }

  // ---- choice ----

  /** The block behind union_l's code. */
  function AltBlock(b1: Block, b2: Block): Block {
    if IsFailCode(Flat(b1)) then b2 else if IsFailCode(Flat(b2)) || Flat(b1) == [] then b1 else Split(b1, b2)
  }

  lemma AltIs(b1: Block, b2: Block)
    requires Good(b1) && Good(b2) && UnionCode(Flat(b1), Flat(b2)).Pattern?
    ensures Good(AltBlock(b1, b2)) && Flat(AltBlock(b1, b2)) == UnionCode(Flat(b1), Flat(b2)).code
  {
    hide Flat, Good, SeparateParts, Split;
    GoodOf(b1);
    GoodOf(b2);
    SplitFlat(b1, b2);
    SplitGood(b1, b2);
  }

  /** A new last alternative of b may be tried at another position than the one where b starts. */
  ghost predicate Slips(b: Block)
    requires Shape(b)
  {
    exists x: Subject, i: int :: SlipsAt(b, x, i)
  }

  predicate SlipsAt(b: Block, x: Subject, i: int)
    requires Shape(b)
  {
    0 <= i <= |x.s| && Tried(b, x, i).Some? && Tried(b, x, i).value != i
  }

  lemma AltMeans(a: Patt, b: Patt, b1: Block, b2: Block)
    requires Means(b1, Flat(b1), a) && Means(b2, Flat(b2), b) && UnionCode(Flat(b1), Flat(b2)).Pattern?
    requires IsFailCode(Flat(b2)) || !Slips(b1)
    ensures Means(AltBlock(b1, b2), UnionCode(Flat(b1), Flat(b2)).code, Alt(a, b))
  {
    hide Flat, Good, Impl, SeparateParts, Split, UnionCode, Slips;
    AltIs(b1, b2);
    GoodOf(b1);
    GoodOf(b2);
    if IsFailCode(Flat(b1)) {
      AltRight(a, b, b1, b2);
    } else if IsFailCode(Flat(b2)) || Flat(b1) == [] {
      AltLeft(a, b, b1, b2);
    } else {
      AltImpl(a, b, b1, b2);
    }
  }

  lemma AltRight(a: Patt, b: Patt, b1: Block, b2: Block)
    requires Impl(b1, a) && Impl(b2, b) && Shape(b1) && IsFailCode(Flat(b1))
    ensures Impl(b2, Alt(a, b))
  {
    hide EvalB, Flat, Shape;
    forall x: Subject, i: int, caps: seq<Capture> | 0 <= i <= |x.s|
      ensures Agrees(EvalB(b2, x, i, caps), Eval(Alt(a, b), x, i), caps)
    {
      FailFirstEval(b1, a, x, i);
      Agree(b2, b, x, i, caps);
    }
  }

  lemma AltLeft(a: Patt, b: Patt, b1: Block, b2: Block)
    requires Impl(b1, a) && Impl(b2, b) && Shape(b1) && Shape(b2) && (IsFailCode(Flat(b2)) || Flat(b1) == [])
    ensures Impl(b1, Alt(a, b))
  {
    hide EvalB, Flat, Shape;
    FlatEmpty(b1);
    forall x: Subject, i: int, caps: seq<Capture> | 0 <= i <= |x.s|
      ensures Agrees(EvalB(b1, x, i, caps), Eval(Alt(a, b), x, i), caps)
    {
      Agree(b1, a, x, i, caps);
      if b1.End? { EmptyEval(a, x, i); } else { FailFirstEval(b2, b, x, i); }
    }
  }

  /** Where the new alternative is tried at all, it is tried at the position where b1 started. */
  lemma TriedHere(b1: Block, b2: Block, x: Subject, i: int, caps: seq<Capture>)
    requires Shape(b1) && Valid(b1, 0) && Spine(b1) && Shape(b2) && 0 <= i <= |x.s| && !SlipsAt(b1, x, i)
    ensures EvalB(Split(b1, b2), x, i, caps) == OrElse(EvalB(b1, x, i, caps), b2, x, i, caps)
  {
    hide EvalB, Tried, Split, Valid, Spine;
    SplitEval(b1, b2, x, i, caps);
    TriedFails(b1, x, i);
    Blind(b1, x, i, [], caps);
  }

  lemma AltImpl(a: Patt, b: Patt, b1: Block, b2: Block)
    requires Impl(b1, a) && Impl(b2, b) && Shape(b1) && Valid(b1, 0) && Spine(b1) && Shape(b2) && !Slips(b1)
    ensures Impl(Split(b1, b2), Alt(a, b))
  {
    hide EvalB, Split, Shape, Valid, Spine, SlipsAt;
    forall x: Subject, i: int, caps: seq<Capture> | 0 <= i <= |x.s|
      ensures Agrees(EvalB(Split(b1, b2), x, i, caps), Eval(Alt(a, b), x, i), caps)
    {
      assert !SlipsAt(b1, x, i);
      TriedHere(b1, b2, x, i, caps);
      Agree(b1, a, x, i, caps);
      Agree(b2, b, x, i, caps);
    }
  }
}
