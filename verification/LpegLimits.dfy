/** Where compiled code departs from the grammar semantics: the inputs, and the exact condition. */
module LpegLimits {
  import opened LpegCode
  import opened LpegMachine
  import opened LpegPeg
  import opened LpegOpen
  import opened LpegBlock
  import opened LpegExec
  import opened LpegRun
  import opened LpegBuild
  import opened LpegShape
  import opened LpegVerify
  import opened LpegUnion
  import opened LpegOperators
  import opened LpegRepeat
  import opened LpegCorrect

  /** The machine gives the result of the semantics for every subject and start, and never halts where there is none. */
  ghost predicate RunsRight(p: Patt)
    requires Compile(p).Pattern?
  {
    forall x: Subject, i: int | 0 <= i <= |x.s| :: RunRight(p, x, i)
  }

  ghost predicate RunRight(p: Patt, x: Subject, i: int)
    requires Compile(p).Pattern? && 0 <= i <= |x.s|
  {
    if Eval(p, x, i).Diverge? then !OpenHalts(Compile(p).code, x, i)
    else OpenReaches(Compile(p).code, x, Init(i), Final(Eval(p, x, i)))
  }

  lemma SaneRuns(p: Patt)
    requires Sane(p) && Lossless(p) && Compile(p).Pattern?
    ensures RunsRight(p)
  {
    hide OpenReaches, Eval, Forever, Compile, Halts;
    KeptAll(p);
    forall x: Subject, i: int | 0 <= i <= |x.s| ensures RunRight(p, x, i) {
      KeptRuns(p, x, i);
      NeverHalts(Compile(p).code, x, i);
    }
  }

  // ---- merging two IAny instructions ----

  /**
    concat_l replaces two single IAny instructions by their sum, even when one of them is a
    test.  The result is right exactly when the second is no test and the first, if it is
    one, asks for no more bytes than the second.
   */
  lemma MergeExact(a: Patt, b: Patt)
    requires Sane(a) && Sane(b) && Lossless(a) && Lossless(b) && Compile(Seq(a, b)).Pattern?
    requires Compile(a).Pattern? && Compile(b).Pattern? && IsAnyCode(Compile(a).code) && IsAnyCode(Compile(b).code)
    ensures RunsRight(Seq(a, b)) <==> SaneSeq(Compile(a).code, Compile(b).code)
  {
    hide OpenReaches, Eval, OpenRun;
    if SaneSeq(Compile(a).code, Compile(b).code) {
      SaneRuns(Seq(a, b));
    } else {
      MergeWrong(a, b);
    }
  }

  lemma MergeWrong(a: Patt, b: Patt)
    requires Sane(a) && Sane(b) && Lossless(a) && Lossless(b) && Compile(Seq(a, b)).Pattern?
    requires Compile(a).Pattern? && Compile(b).Pattern? && IsAnyCode(Compile(a).code) && IsAnyCode(Compile(b).code)
    requires !SaneSeq(Compile(a).code, Compile(b).code)
    ensures !RunsRight(Seq(a, b))
  {
    hide OpenReaches, Eval, AnyCode, Compile;
    var i1, i2 := Compile(a).code[0], Compile(b).code[0];
    var n := i1.ck.n + i2.ck.n;
    var x := Bare(seq(if i2.offset != 0 then i1.ck.n else i2.ck.n, _ => 0 as Byte));
    WordsOfAny(a, b);
    ShortOk(a, b, x);
    AnyFails(n, x);
    if RunsRight(Seq(a, b)) {
      assert RunRight(Seq(a, b), x, 0);
      OpenUnique(AnyCode(n), x, Init(0), NoMatch, Final(Eval(Seq(a, b), x, 0)));
    }
  }

  /** On a subject that is too short for both, the optional one gives way. */
  lemma ShortOk(a: Patt, b: Patt, x: Subject)
    requires Sane(a) && Sane(b) && Lossless(a) && Lossless(b)
    requires Compile(a).Pattern? && Compile(b).Pattern? && IsAnyCode(Compile(a).code) && IsAnyCode(Compile(b).code)
    requires !SaneSeq(Compile(a).code, Compile(b).code)
    requires var i1, i2 := Compile(a).code[0], Compile(b).code[0]; |x.s| == if i2.offset != 0 then i1.ck.n else i2.ck.n
    ensures Eval(Seq(a, b), x, 0).Ok? && Compile(a).code[0].ck.n > 0 && Compile(b).code[0].ck.n > 0
  {
    hide Eval, EvalB, Good, Impl, Compile, BlockOf;
    var b1, b2 := BlockOf(a), BlockOf(b);
    CompiledParts(a);
    CompiledParts(b);
    GoodOf(b1);
    GoodOf(b2);
    AnyStep(b1);
    AnyStep(b2);
    SeqOfAny(a, b, b1, b2, x, 0, []);
  }

  lemma AnyFails(n: nat, x: Subject)
    requires n > |x.s|
    ensures OpenReaches(AnyCode(n), x, Init(0), NoMatch)
  {
    hide OpenReaches, EvalB, AnyBlock, AnyCode, Good, Yields;
    AnyIs(n);
    BlockRuns(AnyBlock(n), AnyCode(n), x, 0);
    AnyEval(n, x, 0, []);
    FailEnds(AnyCode(n), x, 0);
  }

  lemma WordsOfAny(a: Patt, b: Patt)
    requires Compile(Seq(a, b)).Pattern? && Compile(a).Pattern? && Compile(b).Pattern?
    requires IsAnyCode(Compile(a).code) && IsAnyCode(Compile(b).code)
    ensures Compile(Seq(a, b)).code == AnyCode(Compile(a).code[0].ck.n + Compile(b).code[0].ck.n)
  {
    hide AnyCode;
    assert Compile(Seq(a, b)) == Concat(Compile(a).code, Compile(b).code);
  }

  // ---- splitting the left operand of a union ----

  ghost predicate AllAltsRight(a: Patt)
    requires Compile(a).Pattern?
  {
    forall b: Patt | AltAllowed(a, b) :: RunsRight(Alt(a, b))
  }

  /** b can be the second operand of a union with a that is split. */
  ghost predicate AltAllowed(a: Patt, b: Patt) {
    Sane(b) && Lossless(b) && Compile(b).Pattern? && !IsFailCode(Compile(b).code) && Compile(Alt(a, b)).Pattern?
  }

  ghost predicate NeverSlips(a: Patt)
    requires Compile(a).Pattern?
  {
    Laid(a);
    !Slips(BlockOf(a))
  }

  /**
    A union is right for every second operand exactly when no new last alternative of its left
    operand is ever tried at another position than the one where the operand starts.  The
    positions differ where a test of two or more bytes, turned back into a choice that steps
    back one byte, is followed by a body that fails.
   */
  lemma AltExact(a: Patt)
    requires Sane(a) && Lossless(a) && Compile(a).Pattern? && Compile(Alt(a, Bool(true))).Pattern?
    ensures AllAltsRight(a) <==> NeverSlips(a)
  {
    hide RunsRight, Compile, Slips;
    if NeverSlips(a) {
      forall b: Patt | AltAllowed(a, b) ensures RunsRight(Alt(a, b)) {
        SaneRuns(Alt(a, b)) by { SaneUnion(a, b); }
      }
    } else {
      SlipWrong(a);
      TrueAllowed(a);
    }
  }

  lemma SaneUnion(a: Patt, b: Patt)
    requires Sane(a) && Lossless(a) && Compile(a).Pattern? && NeverSlips(a) && AltAllowed(a, b)
    ensures Sane(Alt(a, b)) && Lossless(Alt(a, b)) && Compile(Alt(a, b)).Pattern?
  {
    hide Compile, Slips;
  }

  lemma TrueAllowed(a: Patt)
    requires Compile(Alt(a, Bool(true))).Pattern?
    ensures AltAllowed(a, Bool(true))
  {
  }

  /** On a subject where it slips, the union with the empty pattern matches somewhere else than at its start. */
  lemma SlipWrong(a: Patt)
    requires Sane(a) && Lossless(a) && Compile(a).Pattern? && Compile(Alt(a, Bool(true))).Pattern? && !NeverSlips(a)
    ensures !RunsRight(Alt(a, Bool(true)))
  {
    hide OpenReaches, OpenRun, Eval, EvalB, Flat, Good, Impl, Split, Tried, BlockOf, SeparateParts, Shape;
    var p, b := Alt(a, Bool(true)), BlockOf(a);
    Laid(a);
    GoodOf(b);
    var x: Subject, i: int :| SlipsAt(b, x, i);
    var j := Tried(b, x, i).value;
    CompiledParts(a);
    TriedFails(b, x, i);
    Agree(b, a, x, i, []);
    EmptyAfter(a, x, i);
    SlipCode(a, x, i);
    SplitEval(b, End, x, i, []) by { EndGood(); GoodOf(End); }
    EndEval(x, j, []);
    EndGood();
    SplitGood(b, End);
    BlockRuns(Split(b, End), Compile(p).code, x, i);
    OkEnds(Compile(p).code, x, i, j, []);
    if RunsRight(p) {
      assert RunRight(p, x, i);
      OpenUnique(Compile(p).code, x, Init(i), Matched(j, []), Matched(i, []));
    }
  }

  lemma EmptyAfter(a: Patt, x: Subject, i: int)
    requires 0 <= i <= |x.s| && Eval(a, x, i) == Fail
    ensures Eval(Alt(a, Bool(true)), x, i) == Ok(i, [])
  {
  }

  /** An operand that slips is neither empty nor the pattern that fails, so that its union is split. */
  lemma SlipCode(a: Patt, x: Subject, i: int)
    requires Compile(a).Pattern? && Compile(Alt(a, Bool(true))).Pattern? && Good(BlockOf(a))
             && Flat(BlockOf(a)) == Compile(a).code
    requires SlipsAt(BlockOf(a), x, i)
    ensures Compile(Alt(a, Bool(true))).code == Flat(Split(BlockOf(a), End))
  {
    hide Split, SeparateParts, BlockOf, EvalB;
    var b := BlockOf(a);
    GoodOf(b);
    FlatEmpty(b);
    FailFirst(b);
    EndGood();
    GoodOf(End);
    NoWords();
    SplitFlat(b, End);
    assert Compile(Alt(a, Bool(true))) == UnionCode(Compile(a).code, []);
  }

  // ---- a check of the left operand that is enough ----

  /** nofail on the words from `from` on of the first alternative, of sp words */
  predicate BodyNoFail(c: Code, from: nat, sp: nat)
    requires sp <= |c| && sp > 0
  {
    NoFailFrom(c[..sp - 1], from)
  }

  /**
    The first alternative of c, when it starts with a test, would be tried again from where it
    started, or cannot fail.
   */
  predicate LevelPart(c: Code, sp: nat)
    requires sp <= |c| && sp > 0 && c[0].ICheck?
  {
    var sz := CheckSize(c[0].ck);
    if c[sp - 1].IJmp? then CheckStep(c[0].ck) == 1 || BodyNoFail(c, sz, sp)
    else (At(c, sz).IChoice? && At(c, sz).aux == CheckStep(c[0].ck)) || BodyNoFail(c, sz + 1, sp)
  }

  /** No alternative of c has a body that may fail behind a test that it steps back from by less than it took. */
  predicate Level(c: Code)
    decreases |c|
  {
    var sp := FirstPart(c);
    sp == 0 || ((c[0].ICheck? ==> LevelPart(c, sp)) && Level(c[sp..]))
  }

  lemma {:induction false} LevelEnough(b: Block, x: Subject, i: int)
    requires Good(b) && Level(Flat(b))
    ensures !SlipsAt(b, x, i)
    decreases b
  {
    hide Flat, EvalB, Shape, Valid, Spine, Balanced, Backed;
    GoodOf(b);
    if 0 <= i <= |x.s| {
      FirstPartIs(b);
      if b.TestJmp? && b.k.End? {
        GoodAlternative(b);
        SpineParts(b);
        TriedTest(b, x, i);
        LevelTest(b, x, i);
      } else if b.Union? && b.k.End? {
        GoodAlternative(b);
        SpineParts(b);
        TriedOfUnion(b, x, i);
        LevelUnion(b, x, i);
      } else {
        TriedWhole(b, x, i);
      }
    }
  }

  lemma {:induction false} LevelTest(b: Block, x: Subject, i: int)
    requires b.TestJmp? && b.k.End? && b.x == 0 && Good(b) && Good(b.b2) && Level(Flat(b))
             && FirstPart(Flat(b)) == PartSize(b)
    requires 0 <= i <= |x.s| && Shape(b.b1) && Shape(b) && Shape(b.b2)
    requires Tried(b, x, i) ==
             if !Passes(b.t, x.s, i) then Tried(b.b2, x, i)
             else if EvalB(b.b1, x, i + CheckStep(b.t), []).Fail? then Tried(b.b2, x, i + CheckStep(b.t) - 1)
             else None
    ensures !SlipsAt(b, x, i)
    decreases b, 0
  {
    hide Flat, EvalB, Shape, Valid, Spine, Balanced, Backed, Tried, Words;
    var c, t, f := Flat(b), b.t, Flat(b.b1);
    var sp := CheckSize(t) + |f| + 1;
    TestJmpFlat(t, b.b1, b.b2);
    SplitTestWords(c, t, f, Flat(b.b2), []);
    LevelEnough(b.b2, x, i);
    if Passes(t, x.s, i) && EvalB(b.b1, x, i + CheckStep(t), []).Fail? {
      if CheckStep(t) != 1 {
        TestHead(c, t, f, Flat(b.b2));
        NoFailWords(Words(ICheck(t, sp)), b.b1);
        NoFailOk(b.b1, x, i + CheckStep(t), []);
      }
    }
  }

  lemma TestHead(c: Code, t: Check, f: Code, g: Code)
    requires c == Words(ICheck(t, CheckSize(t) + |f| + 1)) + f + [IJmp(1 + |g|)] + g
    ensures var sp := CheckSize(t) + |f| + 1;
            c[..sp - 1] == Words(ICheck(t, sp)) + f && |Words(ICheck(t, sp))| == CheckSize(t)
  {
  }

  lemma {:induction false} LevelUnion(b: Block, x: Subject, i: int)
    requires b.Union? && b.k.End? && b.x == 0 && Good(b) && Good(b.els) && Level(Flat(b))
             && FirstPart(Flat(b)) == PartSize(b)
    requires 0 <= i <= |x.s| && Shape(b) && Shape(b.els) && b.aux <= OtStep(b.ot)
    requires Tried(b, x, i) ==
             if !OtPasses(b.ot, x, i) then Tried(b.els, x, i)
             else if EvalB(b.first, x, i + OtStep(b.ot), []).Fail? then Tried(b.els, x, i + OtStep(b.ot) - b.aux)
             else None
    ensures !SlipsAt(b, x, i)
    decreases b, 0
  {
    hide Flat, EvalB, Shape, Valid, Spine, Balanced, Backed, Tried, Words, MoreWords, OtWords;
    var body := Flat(b.first) + MoreWords(Flat(b.more), b.m);
    UnionFlat(b.ot, b.aux, b.first, b.more, b.m, b.els);
    var head := OtWords(b.ot, OtSize(b.ot) + 1 + |body| + 1) + [IChoice(1 + |body| + 1, b.aux)] + body;
    OtLength(b.ot);
    CutCommit(Flat(b), head, Flat(b.els), []);
    LevelEnough(b.els, x, i);
    if OtPasses(b.ot, x, i) && b.aux < OtStep(b.ot) {
      UnionHead(b, head, body);
      NoFailOk(b.first, x, i + OtStep(b.ot), []);
    }
  }

  lemma UnionHead(b: Block, head: Code, body: Code)
    requires b.Union? && b.aux < OtStep(b.ot) && Shape(b) && Level(Flat(b))
             && FirstPart(Flat(b)) == |head| + 1 <= |Flat(b)|
    requires body == Flat(b.first) + MoreWords(Flat(b.more), b.m) && Flat(b)[..|head|] == head
             && Flat(b)[|head|].ICommit?
    requires head == OtWords(b.ot, OtSize(b.ot) + 1 + |body| + 1) + [IChoice(1 + |body| + 1, b.aux)] + body
    ensures NoFail(b.first)
  {
    hide Flat, MoreWords, FirstPart;
    var pre := OtWords(b.ot, OtSize(b.ot) + 1 + |body| + 1) + [IChoice(1 + |body| + 1, b.aux)];
    assert |pre| == OtSize(b.ot) + 1;
    assert Flat(b)[0] == head[0] == ICheck(b.ot.value, OtSize(b.ot) + 1 + |body| + 1);
    assert At(Flat(b), OtSize(b.ot)) == head[OtSize(b.ot)] == IChoice(1 + |body| + 1, b.aux);
    assert NoFailFrom(head, |pre|);
    FirstNoFail(pre, b.first, MoreWords(Flat(b.more), b.m));
  }

  /** When no word behind `pre` can fail, neither can the block that stands there. */
  lemma {:induction false} FirstNoFail(pre: Code, b: Block, rest: Code)
    requires Shape(b) && NoFailFrom(pre + (Flat(b) + rest), |pre|)
    ensures NoFail(b)
    decreases b
  {
    hide Flat, ItemWords;
    if !b.End? {
      ItemHead(b);
      FlatEmpty(b);
      var c := pre + (Flat(b) + rest);
      assert c[|pre|] == Flat(b)[0];
      if b.Prim? {
        assert Flat(b) == Words(b.i) + Flat(b.k) by { PrimItemWords(b); FlatParts(b); }
        assert c == (pre + Words(b.i)) + (Flat(b.k) + rest);
        FirstNoFail(pre + Words(b.i), b.k, rest);
      }
    }
  }

  lemma FlatParts(b: Block)
    requires !b.End?
    ensures Flat(b) == ItemWords(b) + Flat(b.k)
  {
    hide ItemWords;
  }

  // ---- a check of a whole pattern that is enough ----

  /** A check that can be run: no merge that goes wrong, and every left operand of a union level. */
  predicate Tame(p: Patt) {
    match p
    case Seq(a, b) =>
      Tame(a) && Tame(b) && (Compile(a).Pattern? && Compile(b).Pattern? ==> SaneSeq(Compile(a).code, Compile(b).code))
    case Alt(a, b) =>
      Tame(a) && Tame(b)
      && (Compile(a).Pattern? && Compile(b).Pattern? ==> IsFailCode(Compile(b).code) || Level(Compile(a).code))
    case Diff(a, b) => Tame(a) && Tame(b)
    case Neg(a) => Tame(a)
    case AndP(a) => Tame(a)
    case Rept(a, _) => Tame(a)
    case Capt(_, _, a) => Tame(a)
    case _ => true
  }

  /** Patterns that pass the check are sane, so that the compiler theorem holds of them. */
  lemma {:induction false} TameSane(p: Patt)
    requires Tame(p)
    ensures Sane(p)
    decreases p
  {
    hide Level, SaneAlt, SaneSeq;
    match p
    case Seq(a, b) => TameSane(a); TameSane(b);
    case Alt(a, b) =>
      TameSane(a);
      TameSane(b);
      if Compile(a).Pattern? && Compile(b).Pattern? { LevelSane(a, Compile(b).code); }
    case Diff(a, b) => TameSane(a); TameSane(b);
    case Neg(a) => TameSane(a);
    case AndP(a) => TameSane(a);
    case Rept(a, _) => TameSane(a);
    case Capt(_, _, a) => TameSane(a);
    case _ =>
  }

  lemma LevelSane(a: Patt, c2: Code)
    requires Compile(a).Pattern? && (IsFailCode(c2) || Level(Compile(a).code))
    ensures SaneAlt(a, c2)
  {
    hide Level, SlipsAt, Good, Flat, BlockOf, Compile;
    Laid(a);
    GoodOf(BlockOf(a));
    if Level(Compile(a).code) {
      forall x: Subject, i: int ensures !SlipsAt(BlockOf(a), x, i) { LevelEnough(BlockOf(a), x, i); }
    }
  }

  // ---- passes that have nothing to do ----

  lemma {:induction false} NothingToMove(c: Code, i: nat, limit: int)
    requires forall j :: 0 <= j < |c| ==> !c[j].ICapture?
    ensures OptCapsFrom(c, i, limit) == c
    decreases |c| - i
  {
    if i < |c| {
      if IsJmp(c[i]) && i + c[i].offset >= limit {
        NothingToMove(c, i + Size(c[i]), i + c[i].offset + 1);
      } else {
        NothingToMove(c, i + Size(c[i]), limit);
      }
    }
  }

  lemma NothingToThread(c: Code)
    requires forall j :: 0 <= j < |c| ==> !c[j].IJmp?
    ensures OptJumps(c) == c
  {
    assert forall i, n: nat :: Target(c, i, n) == i;
  }

  // ---- a reverted choice steps back one byte ----

  const A: Byte := 97
  const B: Byte := 98
  const C: Byte := 99
  const X: Byte := 120

  /** lpeg.P(2) * 'x' + lpeg.S'' + 'c' */
  const REVERTED := Alt(Alt(Seq(Num(2), Str([X])), SetP({})), Str([C]))

  lemma OneChar(b: Byte)
    ensures Compile(Str([b])) == Pattern([ICheck(Char(b), 0)])
  {
    assert StrCode([b][1..]) == [];
  }

  lemma RevertedFirst()
    ensures Compile(Seq(Num(2), Str([X]))) == Pattern([ICheck(Any(2), 0), ICheck(Char(X), 0)])
  {
    OneChar(X);
    var c1, c2 := [ICheck(Any(2), 0)], [ICheck(Char(X), 0)];
    assert Compile(Num(2)) == Pattern(c1);
    assert c1 + c2 == [ICheck(Any(2), 0), ICheck(Char(X), 0)];
    NothingToMove(c1 + c2, 0, 0);
    assert Compile(Seq(Num(2), Str([X]))) == Concat(c1, c2);
  }

  lemma RevertedSecond()
    ensures Compile(Alt(Seq(Num(2), Str([X])), SetP({})))
         == Pattern([ICheck(Any(2), 3), ICheck(Char(X), 0), IJmp(6)] + Words(ICheck(Set({}), 0)))
  {
    RevertedFirst();
    var c1, c2 := [ICheck(Any(2), 0), ICheck(Char(X), 0)], Words(ICheck(Set({}), 0));
    assert FirstPart(c1) == 0;
    assert ToCharset(c1) == ValidStarts(ALL_BYTES);
    assert ToCharset(c2) == IsCharset({});
    assert BasicUnion(c1, c2) == AsTest(c1, 3) + [IJmp(6)] + c2;
    assert AsTest(c1, 3) + [IJmp(6)] == [ICheck(Any(2), 3), ICheck(Char(X), 0), IJmp(6)];
    assert Compile(Alt(Seq(Num(2), Str([X])), SetP({}))) == UnionCode(c1, c2);
  }

  lemma RevertedCode()
    ensures Compile(REVERTED)
         == Pattern([ICheck(Any(2), 4), IChoice(3, 1), ICheck(Char(X), 0), ICommit(6)] + Words(ICheck(Set({C}), 0)))
  {
    hide Words;
    RevertedSecond();
    OneChar(C);
    var w := Words(ICheck(Set({}), 0));
    var c1, c2 := [ICheck(Any(2), 3), ICheck(Char(X), 0), IJmp(6)] + w, [ICheck(Char(C), 0)];
    assert FirstPart(c1) == 3;
    assert c1[3..] == w;
    RestOfReverted(w, c2);
    var rest := Words(ICheck(Set({C}), 0));
    SeparateStep(c1, c2);
    assert c1[1..1] == [] && c1[1..2] == [ICheck(Char(X), 0)];
    assert SeparateParts(c1, c2) == [ICheck(Any(2), 4), IChoice(3, 1), ICheck(Char(X), 0), ICommit(6)] + rest;
    assert Compile(REVERTED) == UnionCode(c1, c2);
  }

  lemma RestOfReverted(w: Code, c2: Code)
    requires w == Words(ICheck(Set({}), 0)) && c2 == [ICheck(Char(C), 0)]
    ensures SeparateParts(w, c2) == Words(ICheck(Set({C}), 0))
  {
    assert FirstPart(w) == 0;
    assert ToCharset(w) == IsCharset({});
    assert ToCharset(c2) == IsCharset({C});
    assert {} + {C} == {C};
  }

  /** On "acb" the last alternative is tried one byte too far, and matches. */
  lemma RevertWrong()
    ensures Compile(REVERTED).Pattern? && Eval(REVERTED, Bare([A, C, B]), 0) == Fail
    ensures Reaches(Compile(REVERTED).code, [A, C, B], Init(0), Matched(2, []))
  {
    RevertedCode();
    RevertedRun(Compile(REVERTED).code, [A, C, B]);
    RevertedEval(Bare([A, C, B]));
  }

  lemma RevertedRun(c: Code, x: seq<Byte>)
    requires c == [ICheck(Any(2), 4), IChoice(3, 1), ICheck(Char(X), 0), ICommit(6)] + Words(ICheck(Set({C}), 0))
             && x == [A, C, B]
    ensures Reaches(c, x, Init(0), Matched(2, []))
  {
    hide Reaches, RunN;
    var bottom := [Choice(GIVEUP, 0, 0)];
    var st1 := Running(1, 2, bottom, []);
    var st2 := Running(2, 2, bottom + [Choice(4, 1, 0)], []);
    var st3 := Failing(bottom + [Choice(4, 1, 0)], []);
    var st4 := Running(4, 1, bottom, []);
    var st5 := Running(9, 2, bottom, []);
    assert Step(c, x, Init(0)) == st1;
    assert Step(c, x, st1) == st2;
    assert Step(c, x, st2) == st3;
    assert Step(c, x, st3) == st4;
    assert Step(c, x, st4) == st5;
    assert Step(c, x, st5) == Matched(2, []);
    Six(c, x, Init(0), st1, st2, st3, st4, st5, Matched(2, []));
  }

  lemma RevertedEval(x: Subject)
    requires x.s == [A, C, B]
    ensures Eval(REVERTED, x, 0) == Fail
  {
    assert x.s[2..3] == [B] && x.s[0..1] == [A];
    assert Eval(Num(2), x, 0) == Ok(2, []);
    assert Eval(Str([X]), x, 2) == Fail;
    assert Eval(Seq(Num(2), Str([X])), x, 0) == Fail;
    assert Eval(SetP({}), x, 0) == Fail;
    assert Eval(Str([C]), x, 0) == Fail;
  }

  lemma Six(c: Code, x: seq<Byte>, st0: State, st1: State, st2: State, st3: State, st4: State, st5: State, st6: State)
    requires Step(c, x, st0) == st1 && Step(c, x, st1) == st2 && Step(c, x, st2) == st3
    requires Step(c, x, st3) == st4 && Step(c, x, st4) == st5 && Step(c, x, st5) == st6
    ensures Reaches(c, x, st0, st6)
  {
    hide Step;
    assert RunN(c, x, st5, 1) == RunN(c, x, st6, 0);
    assert RunN(c, x, st4, 2) == RunN(c, x, st5, 1);
    assert RunN(c, x, st3, 3) == RunN(c, x, st4, 2);
    assert RunN(c, x, st2, 4) == RunN(c, x, st3, 3);
    assert RunN(c, x, st1, 5) == RunN(c, x, st2, 4);
    assert RunN(c, x, st0, 6) == RunN(c, x, st1, 5);
  }

  // ---- a step back behind a rotated test escapes the loop check ----

  /** (#lpeg.P'a' + 'ab')^0 */
  const UNCHECKED := Rept(Alt(AndP(Str([A])), Str([A, B])), 0)

  lemma UncheckedBody()
    ensures Compile(UNCHECKED.a) ==
            Pattern([ICheck(Char(A), 4), IChoice(3, 1), IBack(1), ICommit(3), ICheck(Char(A), 0), ICheck(Char(B), 0)])
  {
    UncheckedParts();
    var c1, c2 := [ICheck(Char(A), 0), IBack(1)], [ICheck(Char(A), 0), ICheck(Char(B), 0)];
    UncheckedUnion(c1, c2);
    hide UnionCode;
    assert Compile(UNCHECKED.a) == UnionCode(c1, c2);
  }

  lemma UncheckedParts()
    ensures Compile(AndP(Str([A]))) == Pattern([ICheck(Char(A), 0), IBack(1)])
    ensures Compile(Str([A, B])) == Pattern([ICheck(Char(A), 0), ICheck(Char(B), 0)])
  {
    OneChar(A);
    assert [ICheck(Char(A), 0)] + [IBack(1)] == [ICheck(Char(A), 0), IBack(1)];
    assert [A, B][1..] == [B] && [B][1..] == [];
    assert StrCode([B]) == [ICheck(Char(B), 0)];
  }

  lemma UncheckedUnion(c1: Code, c2: Code)
    requires c1 == [ICheck(Char(A), 0), IBack(1)] && c2 == [ICheck(Char(A), 0), ICheck(Char(B), 0)]
    ensures UnionCode(c1, c2) ==
            Pattern([ICheck(Char(A), 4), IChoice(3, 1), IBack(1), ICommit(3), ICheck(Char(A), 0), ICheck(Char(B), 0)])
  {
    assert FirstPart(c1) == 0;
    assert ToCharset(c1) == ValidStarts({A}) && ToCharset(c2) == ValidStarts({A});
    assert A in {A} && !({A} !! {A});
    assert !IsHeadFail(c1);
    var r := [IChoice(4, 0)] + c1 + [ICommit(3)] + c2;
    assert r[2..2] == [] && r[2..] == [IBack(1), ICommit(3)] + c2;
    assert BasicUnion(c1, c2) == OptChoice(r);
  }

  lemma UncheckedCode()
    ensures Compile(UNCHECKED) == Pattern([IChoice(8, 0), ICheck(Char(A), 4), IChoice(3, 1), IBack(1), ICommit(3),
                                           ICheck(Char(A), 0), ICheck(Char(B), 0), IPartialCommit(-6)])
  {
    UncheckedBody();
    assert Compile(UNCHECKED) == StarCode(Compile(UNCHECKED.a).code, 0);
    UncheckedLoop(Compile(UNCHECKED.a).code);
  }

  lemma UncheckedLoop(c: Code)
    requires c == [ICheck(Char(A), 4), IChoice(3, 1), IBack(1), ICommit(3), ICheck(Char(A), 0), ICheck(Char(B), 0)]
    ensures StarCode(c, 0) == Pattern([IChoice(8, 0), ICheck(Char(A), 4), IChoice(3, 1), IBack(1), ICommit(3),
                                       ICheck(Char(A), 0), ICheck(Char(B), 0), IPartialCommit(-6)])
  {
    hide OptCapsFrom, OptJumps;
    var r := [IChoice(8, 0)] + c + [IPartialCommit(-6)];
    assert ToCharset(c) == NoInfo && !IsHeadFail(c);
    assert VRun(c, 4, []) == Consumes;
    assert VRun(c, 0, []) == VGo(c, 0, 4, []);
    NothingToMove(r, 0, 0);
    NothingToThread(r);
    assert Times(c, 0) + [IChoice(1 + |c| + 1, 0)] + c + [IPartialCommit(-|c|)] == r;
  }

  lemma UncheckedSane()
    ensures Sane(UNCHECKED) && Lossless(UNCHECKED)
  {
    hide BlockOf;
    var a := AndP(Str([A]));
    OneChar(A);
    assert [ICheck(Char(A), 0)] + [IBack(1)] == [ICheck(Char(A), 0), IBack(1)];
    assert Compile(a) == Pattern([ICheck(Char(A), 0), IBack(1)]);
    assert FirstPart(Compile(a).code) == 0;
    LevelSane(a, Compile(Str([A, B])).code);
    SmallSane();
    assert SaneAlt(a, Compile(Str([A, B])).code);
    assert Sane(Alt(a, Str([A, B]))) && Lossless(Alt(a, Str([A, B])));
  }

  lemma SmallSane()
    ensures Sane(AndP(Str([A]))) && Sane(Str([A, B])) && Lossless(AndP(Str([A]))) && Lossless(Str([A, B]))
    ensures Sane(Mark(false, Cposition, 0)) && Lossless(Mark(false, Cposition, 0))
  {
    assert Sane(Str([A])) && Lossless(Str([A]));
  }

  lemma SmallEval()
    ensures Eval(AndP(Str([A])), Bare([A]), 0) == Ok(0, [])
  {
    assert [A][0..1] == [A];
    assert Eval(Str([A]), Bare([A]), 0) == Ok(1, []);
  }

  /** The loop check accepts this pattern, and its run on "a" never ends. */
  lemma RunsForever()
    ensures Compile(UNCHECKED).Pattern? && !Plain(UNCHECKED) && !Halts(Compile(UNCHECKED).code, [A], 0)
  {
    UncheckedCode();
    UncheckedSane();
    UncheckedBody();
    assert Compile(UNCHECKED.a).code[2] == IBack(1);
    assert !NoStrayBack(Compile(UNCHECKED.a).code);
    UncheckedDiverges();
    HaltsExactly(UNCHECKED, [A], 0);
  }

  // ---- so does one that a capture has been moved in front of ----

  /** (lpeg.Cp() * #lpeg.P'a')^0 */
  const PARTED := Rept(Seq(Mark(false, Cposition, 0), AndP(Str([A]))), 0)

  lemma PartedBody()
    ensures Compile(PARTED.a) == Pattern([ICheck(Char(A), 0), ICapture(EmptyCap, 0, Cposition, 1), IBack(1)])
  {
    OneChar(A);
    var cap := ICapture(EmptyCap, 0, Cposition, 0);
    var c1, c2 := [cap], [ICheck(Char(A), 0), IBack(1)];
    assert [ICheck(Char(A), 0)] + [IBack(1)] == c2;
    assert Compile(AndP(Str([A]))) == Pattern(c2);
    assert c1 + c2 == [cap, ICheck(Char(A), 0), IBack(1)];
    PartedMoves([cap, ICheck(Char(A), 0), IBack(1)]);
    assert Compile(PARTED.a) == Concat(c1, c2);
  }

  lemma PartedMoves(c: Code)
    requires c == [ICapture(EmptyCap, 0, Cposition, 0), ICheck(Char(A), 0), IBack(1)]
    ensures OptCaps(c) == [ICheck(Char(A), 0), ICapture(EmptyCap, 0, Cposition, 1), IBack(1)]
  {
    var r := [ICheck(Char(A), 0), ICapture(EmptyCap, 0, Cposition, 1), IBack(1)];
    assert SkipChecks(c, 2, 14) == (0, 0);
    assert SkipChecks(c, 1, 15) == (1, 1);
    assert c[0..1] == [c[0]] && Lift([c[0]], 1) == [ICapture(EmptyCap, 0, Cposition, 1)];
    assert MoveUp(c, 0, 0, 1, 1) == r;
    assert OptCapsFrom(r, 3, 0) == r;
    assert OptCapsFrom(r, 2, 0) == r;
    assert OptCapsFrom(c, 0, 0) == OptCapsFrom(r, 2, 0);
  }

  lemma PartedCode()
    ensures Compile(PARTED).Pattern?
  {
    hide OptCapsFrom, OptJumps;
    PartedBody();
    var c := Compile(PARTED.a).code;
    assert !NoFailFrom(c, 2);
    assert !NoFailFrom(c, 1);
    assert ToCharset(c).ValidStarts? && !IsHeadFail(c);
    assert VRun(c, 0, []) == Consumes;
    assert Compile(PARTED) == StarCode(c, 0);
  }

  /** No union and no test is needed: the capture stands between the check and its step back. */
  lemma PartedForever()
    ensures Compile(PARTED).Pattern? && !Plain(PARTED) && !Halts(Compile(PARTED).code, [A], 0)
  {
    hide Sane, Halts, Lossless, Kept;
    PartedCode();
    PartedPlain();
    PartedSane();
    PartedDiverges();
    KeptAll(PARTED);
    HaltsExactly(PARTED, [A], 0);
  }

  lemma PartedPlain()
    ensures !Plain(PARTED)
  {
    hide Compile;
    PartedBody();
    assert Compile(PARTED.a).code[2] == IBack(1);
  }

  lemma PartedDiverges()
    ensures Eval(PARTED, Bare([A]), 0) == Res.Diverge
  {
    SmallEval();
    assert Eval(PARTED.a, Bare([A]), 0).Ok? && Eval(PARTED.a, Bare([A]), 0).j == 0;
    assert EvalLoop(PARTED.a, Bare([A]), 0) == Res.Diverge;
  }

  lemma PartedSane()
    ensures Sane(PARTED) && Lossless(PARTED)
  {
    OneChar(A);
    assert [ICheck(Char(A), 0)] + [IBack(1)] == [ICheck(Char(A), 0), IBack(1)];
    assert Compile(AndP(Str([A]))) == Pattern([ICheck(Char(A), 0), IBack(1)]);
    SmallSane();
    assert Sane(PARTED.a) && Lossless(PARTED.a);
  }

  // ---- a loop that the builders drop ----

  const DROPPED := Seq(UNCHECKED, Bool(false))

  lemma DroppedCode()
    ensures Compile(DROPPED) == Pattern([IFail]) && SeqLoses(UNCHECKED, Bool(false))
  {
    UncheckedCode();
    assert Compile(Bool(false)) == Pattern([IFail]);
    assert Compile(DROPPED) == Concat(Compile(UNCHECKED).code, [IFail]);
  }

  lemma UncheckedDiverges()
    ensures Eval(UNCHECKED, Bare([A]), 0) == Res.Diverge
  {
    SmallEval();
    assert Eval(UNCHECKED.a, Bare([A]), 0) == Ok(0, []);
    assert EvalLoop(UNCHECKED.a, Bare([A]), 0) == Res.Diverge;
    assert EvalTimes(UNCHECKED.a, 0, Bare([A]), 0) == Ok(0, []);
  }

  /** In front of a pattern that always fails nothing is left of the loop, and the run halts. */
  lemma DroppedLoop()
    ensures Compile(DROPPED).Pattern? && Eval(DROPPED, Bare([A]), 0).Diverge? && !Lossless(DROPPED)
            && Halts(Compile(DROPPED).code, [A], 0)
  {
    hide Reaches, Halts, Compile;
    DroppedCode();
    UncheckedSane();
    UncheckedDiverges();
    DroppedSane();
    assert Eval(Kept(DROPPED), Bare([A]), 0) == Fail;
    HaltsExactly(DROPPED, [A], 0);
  }

  lemma DroppedSane()
    requires Sane(UNCHECKED) && SeqLoses(UNCHECKED, Bool(false))
    ensures Sane(DROPPED) && Kept(DROPPED) == Bool(false)
  {
    hide Compile;
    assert Compile(Bool(false)) == Pattern([IFail]) by { FailCode(); }
  }

  lemma FailCode()
    ensures Compile(Bool(false)) == Pattern([IFail])
  {
  }
}
