/** Which patterns compile: how many words each operator asks for, and which loops are refused. */
module LpegSizes {
  import opened LpegCode
  import opened LpegMachine
  import opened LpegPeg
  import opened LpegBlock
  import opened LpegExec
  import opened LpegRun
  import opened LpegBuild
  import opened LpegShape
  import opened LpegVerify
  import opened LpegUnion
  import opened LpegOptCaps
  import opened LpegOperators
  import opened LpegRepeat
  import opened LpegCorrect

  // ---- the words that an operator asks for ----

  /** The instructions that take n bytes, 255 at most each. */
  function AnyWords(n: nat): nat {
    (n + 254) / 255
  }

  function NumWords(k: int): nat {
    if k >= 0 then AnyWords(k) else if k >= -255 then 2 else 3 + AnyWords(-k - 255)
  }

  /** isheadfail */
  predicate FailsAtHead(b: Block) {
    StartsWithCheck(b) && NoFail(b.k)
  }

  predicate IsFailing(b: Block) {
    b.Prim? && b.i.IFail?
  }

  function WordsOf(b: Block): nat {
    |Flat(b)|
  }

  /** separateparts: one word more for each test that is turned back into a choice. */
  function UnionRoom(b1: Block, b2: Block): nat {
    if b1.TestJmp? && b1.k.End? then
      CheckSize(b1.t) + WordsOf(b1.b1) + 1 + (if MayInterfere(b1.t, b2) then 1 else 0) + UnionRoom(b1.b2, b2)
    else if b1.Union? && b1.k.End? then
      OtSize(b1.ot) + 1 + WordsOf(b1.first) + b1.m * (1 + WordsOf(b1.more)) + 1 + UnionRoom(b1.els, b2)
    else if IsCharsetBlock(b1) && IsCharsetBlock(b2) then 5
    else if FailsAtHead(b1)
      || (StartsWithCheck(b1) && StartsWithCheck(b2) && StartSet(b1.i.ck) !! StartSet(b2.i.ck)) then
      WordsOf(b1) + 1 + WordsOf(b2)
    else WordsOf(b1) + 2 + WordsOf(b2)
  }

  function SeqRoom(b1: Block, b2: Block): nat {
    if IsFailing(b1) || b2.End? then WordsOf(b1)
    else if IsFailing(b2) || b1.End? then WordsOf(b2)
    else if IsAnyCode(Flat(b1)) && IsAnyCode(Flat(b2)) then AnyWords(Flat(b1)[0].ck.n + Flat(b2)[0].ck.n)
    else WordsOf(b1) + WordsOf(b2)
  }

  function AltRoom(b1: Block, b2: Block): nat {
    if IsFailing(b1) then WordsOf(b2)
    else if IsFailing(b2) || b1.End? then WordsOf(b1)
    else UnionRoom(b1, b2)
  }

  function DiffRoom(b1: Block, b2: Block): nat {
    if IsCharsetBlock(b1) && IsCharsetBlock(b2) then 5
    else WordsOf(b1) + WordsOf(b2) + if FailsAtHead(b2) then 1 else 2
  }

  function StarRoom(b: Block, n: int): nat {
    if n >= 0 then
      if IsCharsetBlock(b) then n * WordsOf(b) + 5
      else (n + 1) * WordsOf(b) + if FailsAtHead(b) then 1 else 2
    else if FailsAtHead(b) then -n * WordsOf(b)
    else -n * (WordsOf(b) + 1) + 1
  }

  /** Only checks, of no more than 15 bytes in all. */
  predicate ShortChecks(b: Block, n: nat) {
    b.End? || (b.Prim? && b.i.ICheck? && CheckStep(b.i.ck) <= n && ShortChecks(b.k, n - CheckStep(b.i.ck)))
  }

  /** The words that the outermost operator of p asks for. */
  function Room(p: Patt): nat {
    match p
    case Str(s) => |s|
    case Num(k) => NumWords(k)
    case Bool(truth) => if truth then 0 else 1
    case SetP(_) => 5
    case Seq(a, b) => SeqRoom(BlockOf(a), BlockOf(b))
    case Alt(a, b) => AltRoom(BlockOf(a), BlockOf(b))
    case Diff(a, b) => DiffRoom(BlockOf(a), BlockOf(b))
    case Neg(a) =>
      var b := BlockOf(a);
      if IsFailing(b) then 0 else if b.End? then 1 else WordsOf(b) + if FailsAtHead(b) then 1 else 2
    case AndP(a) =>
      var b := BlockOf(a);
      if IsFailing(b) || b.End? then WordsOf(b) else WordsOf(b) + if IsCharsetBlock(b) then 1 else 3
    case Rept(a, n) => StarRoom(BlockOf(a), n)
    case Capt(_, _, a) => WordsOf(BlockOf(a)) + if ShortChecks(BlockOf(a), 15) then 1 else 2
    case Mark(_, _, _) => 1
    case NonTerm(_) => 1
  }

  /** A body that star_l has verified before it makes a loop of it. */
  predicate NeedsVerify(b: Block) {
    !IsCharsetBlock(b) && !FailsAtHead(b)
  }

  lemma {:induction false} AnySize(n: nat)
    requires n > 0
    ensures |AnyCode(n)| == AnyWords(n)
    decreases n
  {
    if n > 255 {
      AnySize(n - 255);
      assert AnyWords(n) == 1 + AnyWords(n - 255);
    }
  }

  lemma OptChoiceSize(c: Code)
    requires c != [] && c[0].IChoice?
    ensures |OptChoice(c)| == |c|
  {
  }

  lemma FailingIs(b: Block)
    requires Good(b)
    ensures IsFailing(b) <==> IsFailCode(Flat(b))
    ensures b.End? <==> Flat(b) == []
  {
    hide Good, Flat;
    GoodOf(b);
    FailFirst(b);
    FlatEmpty(b);
  }

  // ---- each operator asks for so many words ----

  /** The outcome of an operator that asks for n words and raises no other error. */
  ghost predicate Asks(r: Built, n: nat) {
    if n >= 32756 then r == PatternTooBig else r.Pattern? && |r.code| == n
  }

  lemma NumAsks(k: int)
    ensures Asks(NumCode(k), NumWords(k))
  {
    hide AnyCode;
    if k > 0 { AnySize(k); }
    if -k > 255 { AnySize(-k - 255); }
  }

  lemma SeqAsks(b1: Block, b2: Block)
    requires Good(b1) && Good(b2) && WordsOf(b1) < 32756 && WordsOf(b2) < 32756
    ensures Asks(Concat(Flat(b1), Flat(b2)), SeqRoom(b1, b2))
  {
    hide Good, Flat, OptCapsFrom, AnyCode;
    FailingIs(b1);
    FailingIs(b2);
    if IsAnyCode(Flat(b1)) && IsAnyCode(Flat(b2)) && !IsFailing(b1) && !b1.End? && !IsFailing(b2) && !b2.End? {
      AnyOperand(b1);
      AnySize(Flat(b1)[0].ck.n + Flat(b2)[0].ck.n);
    }
  }

  lemma AnyOperand(b: Block)
    requires Good(b) && IsAnyCode(Flat(b))
    ensures Flat(b)[0].ck.n > 0
  {
    hide Good, Flat;
    GoodOf(b);
    AnyStep(b);
  }

  lemma {:induction false} SplitWords(b1: Block, b2: Block)
    requires Shape(b1) && Valid(b1, 0) && Spine(b1) && Shape(b2)
    ensures WordsOf(Split(b1, b2)) == UnionRoom(b1, b2)
    decreases b1
  {
    hide Flat, Split, Join, Shape, Valid, Spine, MayInterfere;
    if b1.TestJmp? && b1.k.End? {
      SpineParts(b1);
      SplitStep(b1, b2);
      SplitWords(b1.b2, b2);
      hide Words, MoreWords;
      if MayInterfere(b1.t, b2) {
        UnionFlat(Some(b1.t), 1, b1.b1, End, 0, Split(b1.b2, b2));
        NoMore(b1.b1);
      } else {
        TestJmpFlat(b1.t, b1.b1, Split(b1.b2, b2));
      }
    } else if b1.Union? && b1.k.End? {
      SpineParts(b1);
      SplitStep(b1, b2);
      SplitWords(b1.els, b2);
      UnionFlat(b1.ot, b1.aux, b1.first, b1.more, b1.m, Split(b1.els, b2));
      MoreSize(Flat(b1.more), b1.m);
    } else {
      SplitOther(b1, b2);
      JoinWords(b1, b2);
    }
  }

  lemma SplitOther(b1: Block, b2: Block)
    requires !(b1.TestJmp? && b1.k.End?) && !(b1.Union? && b1.k.End?)
    ensures Split(b1, b2) == Join(b1, b2)
  {
  }

  lemma {:induction false} MoreSize(f: Code, m: nat)
    ensures |MoreWords(f, m)| == m * (1 + |f|)
    decreases m
  {
    if m > 0 { MoreSize(f, m - 1); }
  }

  lemma JoinWords(b1: Block, b2: Block)
    requires Shape(b1) && Shape(b2) && !(b1.TestJmp? && b1.k.End?) && !(b1.Union? && b1.k.End?)
    ensures WordsOf(Join(b1, b2)) == UnionRoom(b1, b2)
  {
    hide Flat, Shape, OptChoice;
    JoinFlat(b1, b2);
    var c1, c2 := Flat(b1), Flat(b2);
    if IsCharsetBlock(b1) && IsCharsetBlock(b2) {
      OnePrim(Join(b1, b2));
    } else if FailsAtHead(b1)
      || (StartsWithCheck(b1) && StartsWithCheck(b2) && StartSet(b1.i.ck) !! StartSet(b2.i.ck)) {
      TestJmpFlat(b1.i.ck, b1.k, b2);
      PrimWords(b1);
    } else {
      ChooseFlat(b1, b2);
      OptChoiceSize([IChoice(1 + |c1| + 1, 0)] + c1 + [ICommit(1 + |c2|)] + c2);
    }
  }

  lemma AltAsks(b1: Block, b2: Block)
    requires Good(b1) && Good(b2) && WordsOf(b1) < 32756 && WordsOf(b2) < 32756
    ensures Asks(UnionCode(Flat(b1), Flat(b2)), AltRoom(b1, b2))
  {
    hide Good, Flat, SeparateParts, Split, UnionRoom;
    FailingIs(b1);
    FailingIs(b2);
    GoodOf(b1);
    GoodOf(b2);
    SplitFlat(b1, b2);
    SplitWords(b1, b2);
  }

  lemma DiffAsks(b1: Block, b2: Block)
    requires Good(b1) && Good(b2)
    ensures Asks(DiffCode(Flat(b1), Flat(b2)), DiffRoom(b1, b2))
  {
    hide Good, Flat, ToCharset, IsHeadFail, OptChoice, StartSet, NoFail;
    StartOf(b1);
    StartOf(b2);
    var c1, c2 := Flat(b1), Flat(b2);
    OptChoiceSize([IChoice(1 + |c2| + 1, 0)] + c2 + [IFailTwice] + c1);
  }

  lemma NegAsks(b: Block)
    requires Good(b)
    ensures Asks(NegCode(Flat(b)),
                 if IsFailing(b) then 0 else if b.End? then 1 else WordsOf(b) + if FailsAtHead(b) then 1 else 2)
  {
    hide Good, Flat, DiffCode;
    FailingIs(b);
    EndGood();
    NoWords();
    DiffAsks(End, b);
  }

  lemma AndAsks(b: Block)
    requires Good(b) && WordsOf(b) < 32756
    ensures Asks(AndCode(Flat(b)),
                 if IsFailing(b) || b.End? then WordsOf(b) else WordsOf(b) + if IsCharsetBlock(b) then 1 else 3)
  {
    hide Good, Flat, ToCharset;
    FailingIs(b);
    StartOf(b);
  }

  lemma {:induction false} OptionalSize(c: Code, n: nat)
    requires c != [] && c[0].ICheck?
    ensures |OptionalHead(c, n)| == n * |c|
    decreases n
  {
    if n > 0 { OptionalSize(c, n - 1); }
  }

  lemma {:induction false} PartialSize(c: Code, n: nat)
    ensures |PartialCopies(c, n)| == n * (|c| + 1)
    decreases n
  {
    if n > 0 { PartialSize(c, n - 1); }
  }

  lemma AtMostAsks(b: Block, n: int)
    requires Good(b) && n > 0
    ensures Asks(AtMostCode(Flat(b), n), StarRoom(b, -n))
  {
    hide Good, Flat, IsHeadFail, OptChoice, OptionalHead, PartialCopies;
    StartOf(b);
    var c := Flat(b);
    if FailsAtHead(b) {
      HeadCheck(b);
      OptionalSize(c, n);
    } else {
      PartialSize(c, n - 1);
      OptChoiceSize([IChoice(1 + n * (|c| + 1), 0)] + PartialCopies(c, n - 1) + c + [ICommit(1)]);
      LastCopy(|c| + 1, n);
    }
  }

  lemma LastCopy(w: nat, n: nat)
    requires n > 0
    ensures (n - 1) * w + w == n * w
  {
  }

  lemma HeadCheck(b: Block)
    requires StartsWithCheck(b)
    ensures Flat(b) != [] && Flat(b)[0].ICheck?
  {
    hide Flat;
    PrimWords(b);
  }

  lemma PrimWords(b: Block)
    requires b.Prim?
    ensures WordsOf(b) == Size(b.i) + WordsOf(b.k) && Flat(b) != [] && Flat(b)[0] == b.i
  {
    assert Flat(b) == Words(b.i) + Flat(b.k);
  }

  /** A loop that star_l does not refuse. */
  lemma StarAsks(b: Block, n: nat)
    requires Good(b)
    ensures var r := StarCode(Flat(b), n);
            if NeedsVerify(b) && StarRoom(b, n) < 32756 && SaveDepth(b) > 200 then r == TooManyPending
            else if NeedsVerify(b) && StarRoom(b, n) < 32756 && Nullable(b) then r == EmptyLoop
            else Asks(r, StarRoom(b, n))
  {
    hide Good, Flat, ToCharset, IsHeadFail, OptCapsFrom, OptJumps, VRun, Times, StartSet, NoFail, Nullable, SaveDepth,
      Words;
    StartOf(b);
    VerifySound(b);
    if FailsAtHead(b) { HeadCheck(b); }
    LastCopy(WordsOf(b), n + 1);
  }

  lemma {:induction false} TakenAll(b: Block, n: nat)
    ensures ShortChecks(b, n) <==> b == PrimSeq(Taken(b, n), End)
    decreases b
  {
    if b.Prim? && b.i.ICheck? && CheckStep(b.i.ck) <= n {
      var m := n - CheckStep(b.i.ck);
      TakenAll(b.k, m);
      assert Taken(b, n)[1..] == Taken(b.k, m);
    }
  }

  lemma CaptAsks(kind: Kind, idx: int, b: Block)
    requires Good(b)
    ensures Asks(CaptureCode(kind, idx, Flat(b)), WordsOf(b) + if ShortChecks(b, 15) then 1 else 2)
  {
    hide Good, Flat, SkipChecks, OptCapsFrom, Taken, PrimSeq, ShortChecks;
    AllChecks(b);
    TakenAll(b, 15);
  }

  // ---- which patterns compile ----

  /** Do the operands of p compile? */
  predicate PartsCompile(p: Patt)
    decreases p, 0
  {
    match p
    case Seq(a, b) => Compiles(a) && Compiles(b)
    case Alt(a, b) => Compiles(a) && Compiles(b)
    case Diff(a, b) => Compiles(a) && Compiles(b)
    case Neg(a) => Compiles(a)
    case AndP(a) => Compiles(a)
    case Rept(a, _) => Compiles(a)
    case Capt(_, _, a) => Compiles(a)
    case _ => true
  }

  /**
    A pattern compiles when its operands do, its words fit, and the body of a loop, unless it is a
    set or can fail only in its first check, consumes and needs no more than 200 saved entries.
   */
  predicate Compiles(p: Patt)
    decreases p, 1
  {
    && PartsCompile(p) && Room(p) < 32756
    && (p.Rept? && p.n >= 0 && NeedsVerify(BlockOf(p.a)) ==> !Nullable(BlockOf(p.a)) && SaveDepth(BlockOf(p.a)) <= 200)
  }

  /** What becomes of a pattern whose operands compile. */
  ghost predicate Outcome(p: Patt) {
    var r := Compile(p);
    if p.Rept? && p.n >= 0 && NeedsVerify(BlockOf(p.a)) && Room(p) < 32756 && SaveDepth(BlockOf(p.a)) > 200 then
      r == TooManyPending
    else if p.Rept? && p.n >= 0 && NeedsVerify(BlockOf(p.a)) && Room(p) < 32756 && Nullable(BlockOf(p.a)) then
      r == EmptyLoop
    else Asks(r, Room(p))
  }

  /** The operand a compiled, to the words of its block. */
  ghost predicate Operand(a: Patt) {
    Compile(a).Pattern? && Good(BlockOf(a)) && Flat(BlockOf(a)) == Compile(a).code && WordsOf(BlockOf(a)) < 32756
  }

  lemma OperatorOutcome(p: Patt)
    requires p.Seq? || p.Alt? || p.Diff? ==> Operand(p.a) && Operand(p.b)
    requires p.Neg? || p.AndP? || p.Rept? || p.Capt? ==> Operand(p.a)
    ensures Outcome(p)
  {
    hide Good, Flat, BlockOf, Concat, UnionCode, DiffCode, NegCode, AndCode, StarCode, AtMostCode, CaptureCode, NumCode;
    hide SeqRoom, AltRoom, DiffRoom, StarRoom, NumWords, ShortChecks, FailsAtHead, IsFailing, Nullable, SaveDepth;
    match p
    case Num(k) => NumAsks(k);
    case Seq(a, b) => SeqAsks(BlockOf(a), BlockOf(b));
    case Alt(a, b) => AltAsks(BlockOf(a), BlockOf(b));
    case Diff(a, b) => DiffAsks(BlockOf(a), BlockOf(b));
    case Neg(a) => NegAsks(BlockOf(a));
    case AndP(a) => AndAsks(BlockOf(a));
    case Rept(a, n) => if n >= 0 { StarAsks(BlockOf(a), n); } else { AtMostAsks(BlockOf(a), -n); }
    case Capt(kind, idx, a) => CaptAsks(kind, idx, BlockOf(a));
    case _ =>
  }

  lemma OperandIs(a: Patt)
    requires Compile(a).Pattern? && |Compile(a).code| < 32756
    ensures Operand(a)
  {
    hide Good, Flat, BlockOf, Compile;
    Laid(a);
  }

  lemma OutcomeCompiles(p: Patt)
    requires Outcome(p) && PartsCompile(p)
    ensures (Compile(p).Pattern? <==> Compiles(p)) && (Compile(p).Pattern? ==> |Compile(p).code| == Room(p))
  {
    hide Compile, Room, BlockOf, Nullable, SaveDepth, NeedsVerify, PartsCompile;
  }

  lemma PartsOf(p: Patt)
    ensures Compile(p).Pattern? ==>
              && (p.Seq? || p.Alt? || p.Diff? ==> Compile(p.a).Pattern? && Compile(p.b).Pattern?)
              && (p.Neg? || p.AndP? || p.Rept? || p.Capt? ==> Compile(p.a).Pattern?)
    ensures PartsCompile(p) <==>
              && (p.Seq? || p.Alt? || p.Diff? ==> Compiles(p.a) && Compiles(p.b))
              && (p.Neg? || p.AndP? || p.Rept? || p.Capt? ==> Compiles(p.a))
    ensures Compiles(p) ==> PartsCompile(p) && Room(p) < 32756
  {
    hide Room, BlockOf, Nullable, SaveDepth, NeedsVerify;
    if Compile(p).Pattern? { PatternParts(p); }
  }

  /** Exactly the patterns that Compiles describes compile, to as many words as they ask for. */
  lemma {:induction false} CompilesExactly(p: Patt)
    ensures Compile(p).Pattern? <==> Compiles(p)
    ensures Compile(p).Pattern? ==> |Compile(p).code| == Room(p)
    decreases p, 0
  {
    hide *;
    PartsOf(p);
    match p {
      case Seq(a, b) => OnePart(a); OnePart(b);
      case Alt(a, b) => OnePart(a); OnePart(b);
      case Diff(a, b) => OnePart(a); OnePart(b);
      case Neg(a) => OnePart(a);
      case AndP(a) => OnePart(a);
      case Rept(a, _) => OnePart(a);
      case Capt(_, _, a) => OnePart(a);
      case _ =>
    }
    if PartsCompile(p) {
      OperatorOutcome(p);
      OutcomeCompiles(p);
    }
  }

  lemma {:induction false} OnePart(a: Patt)
    ensures Compile(a).Pattern? <==> Compiles(a)
    ensures Compiles(a) ==> Operand(a)
    decreases a, 1
  {
    hide *;
    CompilesExactly(a);
    PartsOf(a);
    if Compiles(a) { OperandIs(a); }
  }

  /**
    What p^n does when p compiles, whatever n >= 0 is: it is too big, or verify gives up on p, or the
    body may be empty, or it is a pattern; each exactly in its case.
   */
  lemma LoopOutcome(a: Patt, n: nat)
    requires Compile(a).Pattern?
    ensures var r, b := Compile(Rept(a, n)), BlockOf(a);
            var plain := IsCharsetBlock(b) || FailsAtHead(b);
            var room := if IsCharsetBlock(b) then n * |Compile(a).code| + 5
                        else (n + 1) * |Compile(a).code| + if FailsAtHead(b) then 1 else 2;
            && (r == PatternTooBig <==> room >= 32756)
            && (r == TooManyPending <==> room < 32756 && !plain && SaveDepth(b) > 200)
            && (r == EmptyLoop <==> room < 32756 && !plain && SaveDepth(b) <= 200 && Nullable(b))
            && (r.Pattern? <==> room < 32756 && (plain || (SaveDepth(b) <= 200 && !Nullable(b))))
            && (r.Pattern? ==> |r.code| == room)
  {
    hide Compile, BlockOf, Nullable, SaveDepth, Flat, FailsAtHead, IsCharsetBlock;
    CompilesExactly(a);
    PartsOf(a);
    OperandIs(a);
    OperatorOutcome(Rept(a, n));
  }
}
